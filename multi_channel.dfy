/**
 * The multi-channel fan-out (MultiChannelNotificationService of the
 * backend). Each entry point is modelled as the sequence of channel calls
 * it issues, in order; `Deliver` then performs such a sequence against the
 * three channels, stopping at the first call that throws.
 *
 * Of all channel calls only the in-app "new appointment" notice can throw
 * (it formats an appointment date without a null check); the mail and SMS
 * senders catch everything.
 */
module FanOut {
  import opened Domain
  import opened InAppNotifications
  import EmailChannel
  import SmsChannel

  const ObligatoryTitle: string := "Visite médicale obligatoire"
  const ObligatoryMessage: string :=
    "Une visite médicale obligatoire a été programmée pour vous. Veuillez confirmer votre disponibilité."
  const RescheduleTitle: string := "Rendez-vous reporté"
  const ProposalTitle: string := "Proposition de créneau médical"

  /** One call into a channel service. */
  datatype ChannelCall =
    | InAppAppointment(to: User, appt: AppointmentRecord)
    | InAppStatus(to: User, appt: AppointmentRecord)
    | InAppGeneral(to: User, title: string, message: Text, kind: NotificationType)
    | EmailCall(mail: EmailChannel.EmailKind, to: User, appt: AppointmentRecord)
    | SmsCall(text: SmsChannel.SmsKind, to: User, appt: AppointmentRecord)

  predicate IsInApp(c: ChannelCall)
  {
    c.InAppAppointment? || c.InAppStatus? || c.InAppGeneral?
  }

  /** sendAppointmentNotification: in-app, mail, SMS about a new appointment. */
  function AppointmentTrio(u: User, a: AppointmentRecord): seq<ChannelCall>
  {
    [InAppAppointment(u, a), EmailCall(EmailChannel.NewAppointmentMail, u, a), SmsCall(SmsChannel.NewAppointmentSms, u, a)]
  }

  /** sendAppointmentStatusNotification: in-app, mail, SMS about the current status. */
  function StatusTrio(u: User, a: AppointmentRecord): seq<ChannelCall>
  {
    [InAppStatus(u, a), EmailCall(EmailChannel.StatusMail, u, a), SmsCall(SmsChannel.StatusSms, u, a)]
  }

  /** sendObligatoryAppointmentNotification: a fixed in-app message, then the obligatory mail and SMS. */
  function ObligatoryTrio(u: User, a: AppointmentRecord): seq<ChannelCall>
  {
    [InAppGeneral(u, ObligatoryTitle, Plain(ObligatoryMessage), Appointment),
     EmailCall(EmailChannel.ObligatoryMail, u, a), SmsCall(SmsChannel.ObligatorySms, u, a)]
  }

  /** The RESCHEDULE arm of notifyUsers: an in-app message quoting the motif, then the status mail and SMS. */
  function RescheduleTrio(u: User, a: AppointmentRecord, extra: Option<string>): seq<ChannelCall>
  {
    [InAppGeneral(u, RescheduleTitle, RescheduledBecause(JavaString(extra)), Appointment),
     EmailCall(EmailChannel.StatusMail, u, a), SmsCall(SmsChannel.StatusSms, u, a)]
  }

  predicate KnownScenario(scenario: string)
  {
    scenario == "CREATION" || scenario == "STATUS_UPDATE" || scenario == "CONFIRMATION" ||
    scenario == "RESCHEDULE" || scenario == "OBLIGATORY"
  }

  /** The `switch (scenario)` of notifyUsers for one non-null user; the default arm only logs. */
  function UserCalls(scenario: string, u: User, a: AppointmentRecord, extra: Option<string>): seq<ChannelCall>
  {
    if scenario == "CREATION" then AppointmentTrio(u, a)
    else if scenario == "STATUS_UPDATE" then StatusTrio(u, a)
    else if scenario == "CONFIRMATION" then StatusTrio(u, a)
    else if scenario == "RESCHEDULE" then RescheduleTrio(u, a, extra)
    else if scenario == "OBLIGATORY" then ObligatoryTrio(u, a)
    else []
  }

  /** A known scenario gives each user exactly one in-app call, then one mail, then one SMS, all addressed to that user. */
  lemma UserCallsShape(scenario: string, u: User, a: AppointmentRecord, extra: Option<string>)
    ensures KnownScenario(scenario) ==>
      var cs := UserCalls(scenario, u, a, extra);
      |cs| == 3 && IsInApp(cs[0]) && cs[1].EmailCall? && cs[2].SmsCall? &&
      cs[0].to == u && cs[1].to == u && cs[2].to == u && cs[1].appt == a && cs[2].appt == a
    ensures !KnownScenario(scenario) ==> UserCalls(scenario, u, a, extra) == []
  {
  }

  /** The calls notifyUsers issues over `users`, skipping nulls, in list order. */
  function ScenarioCalls(users: seq<Option<User>>, a: AppointmentRecord, scenario: string, extra: Option<string>): seq<ChannelCall>
    decreases |users|
  {
    if users == [] then []
    else
      var last := users[|users| - 1];
      ScenarioCalls(users[..|users| - 1], a, scenario, extra) +
      (if last.Some? then UserCalls(scenario, last.value, a, extra) else [])
  }

  /** notifyUsers */
  method NotifyUsers(users: seq<Option<User>>, a: AppointmentRecord, scenario: string, extra: Option<string>)
    returns (calls: seq<ChannelCall>)
    ensures calls == ScenarioCalls(users, a, scenario, extra)
  {
    calls := [];
    for i := 0 to |users|
      invariant calls == ScenarioCalls(users[..i], a, scenario, extra)
    {
      assert users[..i + 1][..i] == users[..i];
      if users[i].None? {
        continue;
      }
      var u := users[i].value;
      if scenario == "CREATION" {
        calls := calls + AppointmentTrio(u, a);
      } else if scenario == "STATUS_UPDATE" {
        calls := calls + StatusTrio(u, a);
      } else if scenario == "CONFIRMATION" {
        calls := calls + StatusTrio(u, a);
      } else if scenario == "RESCHEDULE" {
        calls := calls + RescheduleTrio(u, a, extra);
      } else if scenario == "OBLIGATORY" {
        calls := calls + ObligatoryTrio(u, a);
      }
    }
    assert users[..|users|] == users;
  }

  /** notifyAllActors: the creation trio for each non-null actor. */
  method NotifyAllActors(a: AppointmentRecord, actors: seq<Option<User>>) returns (calls: seq<ChannelCall>)
    ensures calls == ScenarioCalls(actors, a, "CREATION", None)
  {
    calls := [];
    for i := 0 to |actors|
      invariant calls == ScenarioCalls(actors[..i], a, "CREATION", None)
    {
      assert actors[..i + 1][..i] == actors[..i];
      if actors[i].Some? {
        calls := calls + AppointmentTrio(actors[i].value, a);
      }
    }
    assert actors[..|actors|] == actors;
  }

  /** The non-null users, in order. */
  function NonNull(users: seq<Option<User>>): (us: seq<User>)
    ensures |us| <= |users|
    decreases |users|
  {
    if users == [] then []
    else
      NonNull(users[..|users| - 1]) +
      (if users[|users| - 1].Some? then [users[|users| - 1].value] else [])
  }

  /** The calls for a null-free list of users: each user's calls, back to back. */
  function CallsOfUsers(us: seq<User>, a: AppointmentRecord, scenario: string, extra: Option<string>): seq<ChannelCall>
    decreases |us|
  {
    if us == [] then []
    else CallsOfUsers(us[..|us| - 1], a, scenario, extra) + UserCalls(scenario, us[|us| - 1], a, extra)
  }

  /** notifyUsers skips the nulls and otherwise treats users one after another. */
  lemma {:induction false} ScenarioCallsSkipNulls(users: seq<Option<User>>, a: AppointmentRecord, scenario: string, extra: Option<string>)
    ensures ScenarioCalls(users, a, scenario, extra) == CallsOfUsers(NonNull(users), a, scenario, extra)
    decreases |users|
  {
    if users != [] {
      var init := users[..|users| - 1];
      ScenarioCallsSkipNulls(init, a, scenario, extra);
      var last := users[|users| - 1];
      if last.Some? {
        var us := NonNull(init) + [last.value];
        assert NonNull(users) == us;
        assert us[..|us| - 1] == NonNull(init) && us[|us| - 1] == last.value;
        assert CallsOfUsers(us, a, scenario, extra) ==
          CallsOfUsers(NonNull(init), a, scenario, extra) + UserCalls(scenario, last.value, a, extra);
      } else {
        assert NonNull(users) == NonNull(init);
      }
    }
  }

  /** For a known scenario the j-th non-null user's three calls sit at positions 3j, 3j+1, 3j+2. */
  lemma {:induction false} CallsOfUsersLayout(us: seq<User>, a: AppointmentRecord, scenario: string, extra: Option<string>)
    requires KnownScenario(scenario)
    ensures |CallsOfUsers(us, a, scenario, extra)| == 3 * |us|
    ensures forall j :: 0 <= j < |us| ==>
      CallsOfUsers(us, a, scenario, extra)[3 * j .. 3 * j + 3] == UserCalls(scenario, us[j], a, extra)
    decreases |us|
  {
    if us != [] {
      var init := us[..|us| - 1];
      CallsOfUsersLayout(init, a, scenario, extra);
      UserCallsShape(scenario, us[|us| - 1], a, extra);
      var prev := CallsOfUsers(init, a, scenario, extra);
      var mine := UserCalls(scenario, us[|us| - 1], a, extra);
      assert CallsOfUsers(us, a, scenario, extra) == prev + mine;
      forall j | 0 <= j < |us|
        ensures (prev + mine)[3 * j .. 3 * j + 3] == UserCalls(scenario, us[j], a, extra)
      {
        if j < |us| - 1 {
          assert us[j] == init[j];
          SliceOfLeft(prev, mine, 3 * j, 3 * j + 3);
        } else {
          SliceOfRight(prev, mine);
        }
      }
    }
  }

  /** A slice that lies inside the left operand of a concatenation. */
  lemma SliceOfLeft<T>(s: seq<T>, t: seq<T>, lo: nat, hi: nat)
    requires lo <= hi <= |s|
    ensures (s + t)[lo .. hi] == s[lo .. hi]
  {
    assert forall k :: lo <= k < hi ==> (s + t)[k] == s[k];
  }

  /** The slice of a concatenation right after its left operand is the right operand. */
  lemma SliceOfRight<T>(s: seq<T>, t: seq<T>)
    ensures (s + t)[|s| .. |s| + |t|] == t
  {
    assert forall k :: 0 <= k < |t| ==> (s + t)[|s| + k] == t[k];
  }

  /** A known scenario issues exactly three calls per non-null user, user by user in list order. */
  lemma ScenarioLayout(users: seq<Option<User>>, a: AppointmentRecord, scenario: string, extra: Option<string>)
    requires KnownScenario(scenario)
    ensures |ScenarioCalls(users, a, scenario, extra)| == 3 * |NonNull(users)|
    ensures forall j :: 0 <= j < |NonNull(users)| ==>
      ScenarioCalls(users, a, scenario, extra)[3 * j .. 3 * j + 3] == UserCalls(scenario, NonNull(users)[j], a, extra)
  {
    ScenarioCallsSkipNulls(users, a, scenario, extra);
    CallsOfUsersLayout(NonNull(users), a, scenario, extra);
  }

  /** Any tag outside the five known ones, "CANCEL" among them, issues no call at all. */
  lemma {:induction false} UnknownScenarioSilent(users: seq<Option<User>>, a: AppointmentRecord, scenario: string, extra: Option<string>)
    requires !KnownScenario(scenario)
    ensures ScenarioCalls(users, a, scenario, extra) == []
    decreases |users|
  {
    if users != [] {
      UnknownScenarioSilent(users[..|users| - 1], a, scenario, extra);
    }
  }

  lemma CancelIsSilent(users: seq<Option<User>>, a: AppointmentRecord, reason: Option<string>)
    ensures ScenarioCalls(users, a, "CANCEL", reason) == []
  {
    UnknownScenarioSilent(users, a, "CANCEL", reason);
  }

  /** STATUS_UPDATE and CONFIRMATION issue the same calls, whatever the extra message. */
  lemma {:induction false} StatusUpdateIsConfirmation(users: seq<Option<User>>, a: AppointmentRecord, x: Option<string>, y: Option<string>)
    ensures ScenarioCalls(users, a, "STATUS_UPDATE", x) == ScenarioCalls(users, a, "CONFIRMATION", y)
    decreases |users|
  {
    if users != [] {
      StatusUpdateIsConfirmation(users[..|users| - 1], a, x, y);
    }
  }

  /** Only CREATION issues the date-formatting in-app call, and always about the appointment at hand. */
  lemma {:induction false} OnlyCreationFormatsDate(users: seq<Option<User>>, a: AppointmentRecord, scenario: string, extra: Option<string>)
    ensures forall c :: c in ScenarioCalls(users, a, scenario, extra) && c.InAppAppointment? ==>
      scenario == "CREATION" && c.appt == a
    decreases |users|
  {
    if users != [] {
      OnlyCreationFormatsDate(users[..|users| - 1], a, scenario, extra);
    }
  }

  /** A call throws when it is the in-app creation notice of an undated appointment. */
  predicate Throws(c: ChannelCall)
  {
    c.InAppAppointment? && c.appt.appointmentDate.None?
  }

  /** The index of the first call that throws, if any. */
  function FirstThrow(calls: seq<ChannelCall>): (r: Option<nat>)
    ensures r.None? <==> forall i :: 0 <= i < |calls| ==> !Throws(calls[i])
    ensures r.Some? ==> (r.value < |calls| && Throws(calls[r.value]) &&
                         forall i :: 0 <= i < r.value ==> !Throws(calls[i]))
    decreases |calls|
  {
    if calls == [] then None
    else if Throws(calls[0]) then Some(0)
    else
      var rest := FirstThrow(calls[1..]);
      assert forall i :: 1 <= i < |calls| ==> calls[i] == calls[1..][i - 1];
      if rest.Some? then Some(rest.value + 1) else None
  }

  /**
   * createAppointment's fan-out throws at its very first call exactly when
   * the appointment is undated and someone is to be notified; a dated
   * appointment, or any other scenario, never throws.
   */
  lemma CreationThrowsFirst(users: seq<Option<User>>, a: AppointmentRecord, scenario: string, extra: Option<string>)
    ensures FirstThrow(ScenarioCalls(users, a, scenario, extra)).Some? <==>
      scenario == "CREATION" && a.appointmentDate.None? && |NonNull(users)| > 0
    ensures FirstThrow(ScenarioCalls(users, a, scenario, extra)).Some? ==>
      FirstThrow(ScenarioCalls(users, a, scenario, extra)).value == 0
  {
    var cs := ScenarioCalls(users, a, scenario, extra);
    OnlyCreationFormatsDate(users, a, scenario, extra);
    if scenario == "CREATION" {
      ScenarioLayout(users, a, scenario, extra);
      if a.appointmentDate.None? && |NonNull(users)| > 0 {
        assert cs[0..3] == AppointmentTrio(NonNull(users)[0], a);
        assert Throws(cs[0]);
      } else if a.appointmentDate.Some? {
        forall i | 0 <= i < |cs|
          ensures !Throws(cs[i])
        {
          assert cs[i] in cs;
        }
      }
    } else {
      forall i | 0 <= i < |cs|
        ensures !Throws(cs[i])
      {
        assert cs[i] in cs;
      }
    }
  }

  /** notifyManagersOfProposal: the calls, or the exception the employee's name lookup throws. */
  function ManagerCalls(a: AppointmentRecord, managers: seq<Option<User>>): (r: Result<seq<ChannelCall>>)
    decreases |managers|
  {
    if managers == [] then Ok([])
    else
      var init := ManagerCalls(a, managers[..|managers| - 1]);
      var last := managers[|managers| - 1];
      if init.Err? then init
      else if last.None? then init
      else if a.employee.None? then Err(NullPointer)
      else
        var e := a.employee.value;
        Ok(init.value + [InAppGeneral(last.value, ProposalTitle, SlotProposedFor(e.firstName, e.lastName), Validation),
                         EmailCall(EmailChannel.StatusMail, last.value, a)])
  }

  method NotifyManagersOfProposal(a: AppointmentRecord, managers: seq<Option<User>>) returns (r: Result<seq<ChannelCall>>)
    ensures r == ManagerCalls(a, managers)
  {
    var calls := [];
    for i := 0 to |managers|
      invariant ManagerCalls(a, managers[..i]) == Ok(calls)
    {
      assert managers[..i + 1][..i] == managers[..i];
      if managers[i].Some? {
        if a.employee.None? {
          assert managers[..i + 1] == managers[..i + 1];
          ManagerCallsErrSticks(a, managers, i + 1);
          return Err(NullPointer);
        }
        var e := a.employee.value;
        calls := calls + [InAppGeneral(managers[i].value, ProposalTitle, SlotProposedFor(e.firstName, e.lastName), Validation),
                          EmailCall(EmailChannel.StatusMail, managers[i].value, a)];
      }
    }
    assert managers[..|managers|] == managers;
    r := Ok(calls);
  }

  /** Once a prefix throws, the whole list throws. */
  lemma {:induction false} ManagerCallsErrSticks(a: AppointmentRecord, managers: seq<Option<User>>, n: nat)
    requires n <= |managers| && ManagerCalls(a, managers[..n]).Err?
    ensures ManagerCalls(a, managers) == ManagerCalls(a, managers[..n])
    decreases |managers| - n
  {
    if n == |managers| {
      assert managers[..n] == managers;
    } else {
      assert managers[..n + 1][..n] == managers[..n];
      ManagerCallsErrSticks(a, managers, n + 1);
    }
  }

  /** Every call of the proposal fan-out goes to one of the listed managers, and none is an SMS. */
  lemma {:induction false} ManagerCallsRecipients(a: AppointmentRecord, managers: seq<Option<User>>)
    ensures ManagerCalls(a, managers).Ok? ==>
      forall c :: c in ManagerCalls(a, managers).value ==> Some(c.to) in managers && !c.SmsCall?
    decreases |managers|
  {
    if managers != [] {
      var init := managers[..|managers| - 1];
      ManagerCallsRecipients(a, init);
      assert forall m :: m in init ==> m in managers;
    }
  }

  /**
   * Each non-null manager gets one VALIDATION in-app message and one status
   * mail, in that order, and no SMS; the only failure is a null employee
   * behind a non-null manager.
   */
  lemma {:induction false} ManagerCallsSpec(a: AppointmentRecord, managers: seq<Option<User>>)
    ensures ManagerCalls(a, managers).Err? <==> a.employee.None? && |NonNull(managers)| > 0
    ensures ManagerCalls(a, managers).Ok? ==>
      var cs := ManagerCalls(a, managers).value;
      |cs| == 2 * |NonNull(managers)| &&
      forall j :: 0 <= j < |NonNull(managers)| ==>
        cs[2 * j].InAppGeneral? && cs[2 * j].kind == Validation && cs[2 * j].to == NonNull(managers)[j] &&
        cs[2 * j + 1] == EmailCall(EmailChannel.StatusMail, NonNull(managers)[j], a)
    ensures ManagerCalls(a, managers).Ok? ==> forall c :: c in ManagerCalls(a, managers).value ==> !c.SmsCall?
    decreases |managers|
  {
    if managers != [] {
      var init := managers[..|managers| - 1];
      ManagerCallsSpec(a, init);
      var last := managers[|managers| - 1];
      if last.Some? && ManagerCalls(a, managers).Ok? {
        var us := NonNull(init) + [last.value];
        assert NonNull(managers) == us;
        forall j | 0 <= j < |us|
          ensures var cs := ManagerCalls(a, managers).value;
            cs[2 * j].InAppGeneral? && cs[2 * j].kind == Validation && cs[2 * j].to == us[j] &&
            cs[2 * j + 1] == EmailCall(EmailChannel.StatusMail, us[j], a)
        {
          if j < |us| - 1 {
            assert us[j] == NonNull(init)[j];
          }
        }
      }
    }
  }

  /** The calls sendBulkObligatoryAppointments issues for the first `n` pairs. */
  function BulkCalls(users: seq<User>, appts: seq<AppointmentRecord>, n: nat): seq<ChannelCall>
    requires n <= |users| && n <= |appts|
  {
    if n == 0 then [] else BulkCalls(users, appts, n - 1) + ObligatoryTrio(users[n - 1], appts[n - 1])
  }

  /** sendBulkObligatoryAppointments of the multi-channel service: the index loop stops at the shorter list. */
  method SendBulkObligatoryAppointments(users: seq<User>, appts: seq<AppointmentRecord>) returns (calls: seq<ChannelCall>)
    ensures calls == BulkCalls(users, appts, EmailChannel.Min(|users|, |appts|))
  {
    calls := [];
    var i := 0;
    while i < |users| && i < |appts|
      invariant i <= |users| && i <= |appts|
      invariant calls == BulkCalls(users, appts, i)
    {
      calls := calls + ObligatoryTrio(users[i], appts[i]);
      i := i + 1;
    }
  }

  /** The i-th pair of the bulk gets calls 3i..3i+2: the obligatory trio of users[i] about appts[i]. */
  lemma {:induction false} BulkPairing(users: seq<User>, appts: seq<AppointmentRecord>, n: nat)
    requires n <= |users| && n <= |appts|
    ensures |BulkCalls(users, appts, n)| == 3 * n
    ensures forall i :: 0 <= i < n ==> BulkCalls(users, appts, n)[3 * i .. 3 * i + 3] == ObligatoryTrio(users[i], appts[i])
  {
    if n > 0 {
      BulkPairing(users, appts, n - 1);
      var cs := BulkCalls(users, appts, n);
      forall i | 0 <= i < n
        ensures cs[3 * i .. 3 * i + 3] == ObligatoryTrio(users[i], appts[i])
      {
        if i < n - 1 {
          assert cs[3 * i .. 3 * i + 3] == BulkCalls(users, appts, n - 1)[3 * i .. 3 * i + 3];
        }
      }
    }
  }

  // ---------------------------------------------------------------------------
  // Performing a sequence of calls against the channels
  // ---------------------------------------------------------------------------

  /** The in-app record one call saves, if any. */
  function NoticeOf(c: ChannelCall, now: Instant): (ns: seq<Notification>)
    ensures |ns| <= 1
  {
    match c
    case InAppAppointment(u, a) => if a.appointmentDate.Some? then [AppointmentNotice(u, a, now).value] else []
    case InAppStatus(u, a) => [StatusNotice(u, a, now)]
    case InAppGeneral(u, title, message, kind) => [GeneralNotice(u, title, message, kind, now)]
    case EmailCall(_, _, _) => []
    case SmsCall(_, _, _) => []
  }

  /** The in-app records the first `n` calls save, in order. */
  function NoticesOf(calls: seq<ChannelCall>, n: nat, now: Instant): seq<Notification>
    requires n <= |calls|
  {
    if n == 0 then [] else NoticesOf(calls, n - 1, now) + NoticeOf(calls[n - 1], now)
  }

  /** The mail one call gets accepted by the transport. */
  function MailOf(c: ChannelCall, enabled: bool, from: string, refused: set<EmailChannel.Email>): seq<EmailChannel.Email>
  {
    if c.EmailCall? then EmailChannel.Delivered(enabled, from, c.mail, c.to, c.appt, refused) else []
  }

  /** The mails the first `n` calls get accepted, in order. */
  function MailsOf(calls: seq<ChannelCall>, n: nat, enabled: bool, from: string, refused: set<EmailChannel.Email>): seq<EmailChannel.Email>
    requires n <= |calls|
  {
    if n == 0 then [] else MailsOf(calls, n - 1, enabled, from, refused) + MailOf(calls[n - 1], enabled, from, refused)
  }

  /** The text one call dispatches. */
  function TextOf(c: ChannelCall, enabled: bool, provider: string): seq<SmsChannel.Sms>
  {
    if c.SmsCall? then SmsChannel.Dispatched(enabled, provider, c.text, c.to, c.appt) else []
  }

  /** The texts the first `n` calls dispatch, in order. */
  function TextsOf(calls: seq<ChannelCall>, n: nat, enabled: bool, provider: string): seq<SmsChannel.Sms>
    requires n <= |calls|
  {
    if n == 0 then [] else TextsOf(calls, n - 1, enabled, provider) + TextOf(calls[n - 1], enabled, provider)
  }

  /** Every record the first `n` calls save starts unread and belongs to the addressee of one of them. */
  lemma {:induction false} NoticesUnread(calls: seq<ChannelCall>, n: nat, now: Instant)
    requires n <= |calls|
    ensures forall m :: m in NoticesOf(calls, n, now) ==> !m.read
    ensures forall m :: m in NoticesOf(calls, n, now) ==> exists j :: 0 <= j < n && IsInApp(calls[j]) && m.ownerId == calls[j].to.id
  {
    if n > 0 {
      NoticesUnread(calls, n - 1, now);
      forall m | m in NoticesOf(calls, n, now)
        ensures exists j :: 0 <= j < n && IsInApp(calls[j]) && m.ownerId == calls[j].to.id
      {
        if m !in NoticesOf(calls, n - 1, now) {
          assert m in NoticeOf(calls[n - 1], now);
          assert IsInApp(calls[n - 1]) && m.ownerId == calls[n - 1].to.id;
        }
      }
    }
  }

  /** The calls that run: those before the first one that throws. */
  function Performed(calls: seq<ChannelCall>): (done: seq<ChannelCall>)
    ensures done <= calls
    ensures forall i :: 0 <= i < |done| ==> !Throws(done[i])
  {
    var t := FirstThrow(calls);
    if t.Some? then calls[..t.value] else calls
  }

  /** What the three channels hold: the in-app rows and the next id, the transport's outbox, the texts dispatched. */
  datatype Channels = Channels(rows: Rows, nextId: nat, outbox: seq<EmailChannel.Email>, sent: seq<SmsChannel.Sms>)

  /** What a run is performed with: the clock, the transports' settings and the mails the transport refuses. */
  datatype Setting = Setting(now: Instant, mailOn: bool, from: string, refused: set<EmailChannel.Email>, smsOn: bool, provider: string)

  ghost function Snapshot(store: NotificationStore, email: EmailChannel.EmailService, sms: SmsChannel.SmsService): Channels
    reads store, email, sms
  {
    Channels(store.rows, store.nextId, email.outbox, sms.sent)
  }

  ghost function SettingOf(email: EmailChannel.EmailService, sms: SmsChannel.SmsService, now: Instant,
                           refused: set<EmailChannel.Email>): Setting
  {
    Setting(now, email.enabled, email.fromEmail, refused, sms.enabled, sms.providerName)
  }

  /**
   * The channels after one call that does not throw: its notice, if any, is
   * saved under the next id, and its mail and text are appended.
   */
  function Step(ch: Channels, c: ChannelCall, s: Setting): Channels
  {
    var ns := NoticeOf(c, s.now);
    Channels(if ns == [] then ch.rows else ch.rows[ch.nextId := ns[0]], ch.nextId + |ns|,
             ch.outbox + MailOf(c, s.mailOn, s.from, s.refused), ch.sent + TextOf(c, s.smsOn, s.provider))
  }

  /** The channels after the first `n` calls of a trace. */
  function Run(ch: Channels, calls: seq<ChannelCall>, n: nat, s: Setting): Channels
    requires n <= |calls|
  {
    if n == 0 then ch else Step(Run(ch, calls, n - 1, s), calls[n - 1], s)
  }

  lemma Associative<T>(a: seq<T>, b: seq<T>, c: seq<T>)
    ensures (a + b) + c == a + (b + c)
  {
  }

  /** `rows` are `rows0` with the records `ns` saved from id `next0` on, and nothing else. */
  predicate SavedAfter(rows: Rows, rows0: Rows, next0: nat, ns: seq<Notification>)
  {
    (forall id :: id in rows0 ==> id in rows && rows[id] == rows0[id]) &&
    (forall id: nat :: next0 <= id < next0 + |ns| ==> id in rows && rows[id] == ns[id - next0]) &&
    (forall id :: id in rows ==> id in rows0 || next0 <= id < next0 + |ns|)
  }

  /** Saving at most one more record under the next free id extends the saved batch by it. */
  lemma SaveOne(rows0: Rows, next0: nat, prev: Rows, ns: seq<Notification>, more: seq<Notification>)
    requires |more| <= 1 && forall id :: id in rows0 ==> id < next0
    requires SavedAfter(prev, rows0, next0, ns)
    ensures SavedAfter(if more == [] then prev else prev[next0 + |ns| := more[0]], rows0, next0, ns + more)
  {
    var rows := if more == [] then prev else prev[next0 + |ns| := more[0]];
    forall id: nat | next0 <= id < next0 + |ns + more|
      ensures id in rows && rows[id] == (ns + more)[id - next0]
    {
      if id - next0 < |ns| {
        assert (ns + more)[id - next0] == ns[id - next0];
      }
    }
  }

  /**
   * A run of `n` calls keeps every earlier row, saves the k-th of their
   * notices under id nextId + k, and creates no other row.
   */
  lemma {:induction false} RunRows(ch: Channels, calls: seq<ChannelCall>, n: nat, s: Setting)
    requires n <= |calls|
    requires forall id :: id in ch.rows ==> id < ch.nextId
    ensures Run(ch, calls, n, s).nextId == ch.nextId + |NoticesOf(calls, n, s.now)|
    ensures SavedAfter(Run(ch, calls, n, s).rows, ch.rows, ch.nextId, NoticesOf(calls, n, s.now))
  {
    if n > 0 {
      RunRows(ch, calls, n - 1, s);
      var prev := Run(ch, calls, n - 1, s);
      var ns := NoticesOf(calls, n - 1, s.now);
      var more := NoticeOf(calls[n - 1], s.now);
      assert Run(ch, calls, n, s) == Step(prev, calls[n - 1], s);
      assert NoticesOf(calls, n, s.now) == ns + more;
      SaveOne(ch.rows, ch.nextId, prev.rows, ns, more);
    }
  }

  /** A run of `n` calls appends exactly their accepted mails to the outbox. */
  lemma {:induction false} RunMails(ch: Channels, calls: seq<ChannelCall>, n: nat, s: Setting)
    requires n <= |calls|
    ensures Run(ch, calls, n, s).outbox == ch.outbox + MailsOf(calls, n, s.mailOn, s.from, s.refused)
  {
    if n > 0 {
      RunMails(ch, calls, n - 1, s);
      Associative(ch.outbox, MailsOf(calls, n - 1, s.mailOn, s.from, s.refused), MailOf(calls[n - 1], s.mailOn, s.from, s.refused));
    }
  }

  /** A run of `n` calls appends exactly their texts to the sent list. */
  lemma {:induction false} RunTexts(ch: Channels, calls: seq<ChannelCall>, n: nat, s: Setting)
    requires n <= |calls|
    ensures Run(ch, calls, n, s).sent == ch.sent + TextsOf(calls, n, s.smsOn, s.provider)
  {
    if n > 0 {
      RunTexts(ch, calls, n - 1, s);
      Associative(ch.sent, TextsOf(calls, n - 1, s.smsOn, s.provider), TextOf(calls[n - 1], s.smsOn, s.provider));
    }
  }

  /** Performs one call against its channel; only an undated creation notice throws, and then nothing changes. */
  method Perform(store: NotificationStore, email: EmailChannel.EmailService, sms: SmsChannel.SmsService,
                 c: ChannelCall, now: Instant, refused: set<EmailChannel.Email>) returns (r: Outcome)
    requires store.Valid()
    modifies store, email, sms
    ensures store.Valid()
    ensures r.Failed? <==> Throws(c)
    ensures r.Failed? ==> r.error == NullPointer && store.rows == old(store.rows) && store.nextId == old(store.nextId)
    ensures email.outbox == old(email.outbox) + MailOf(c, email.enabled, email.fromEmail, refused)
    ensures sms.sent == old(sms.sent) + TextOf(c, sms.enabled, sms.providerName)
    ensures r.Done? ==> Snapshot(store, email, sms) == Step(old(Snapshot(store, email, sms)), c, SettingOf(email, sms, now, refused))
  {
    r := Done;
    match c {
      case InAppAppointment(u, a) =>
        r := store.SendAppointmentNotification(u, a, now);
      case InAppStatus(u, a) =>
        store.SendAppointmentStatusNotification(u, a, now);
      case InAppGeneral(u, title, message, kind) =>
        store.SendGeneralNotification(u, title, message, kind, now);
      case EmailCall(k, u, a) =>
        email.Send(k, u, a, refused);
      case SmsCall(k, u, a) =>
        sms.Send(k, u, a);
    }
  }

  /** Where the run stops: at the first throwing call, or after the last call. */
  lemma PerformedUpTo(calls: seq<ChannelCall>, i: nat)
    requires i <= |calls| && forall j :: 0 <= j < i ==> !Throws(calls[j])
    requires i < |calls| ==> Throws(calls[i])
    ensures FirstThrow(calls).Some? <==> i < |calls|
    ensures Performed(calls) == calls[..i]
  {
    if i < |calls| {
      assert FirstThrow(calls) == Some(i);
    } else {
      assert calls[..i] == calls;
    }
  }

  /** The loop of `Deliver`: performs calls until one throws, and says how far it got. */
  method DeliverUntilThrow(store: NotificationStore, email: EmailChannel.EmailService, sms: SmsChannel.SmsService,
                           calls: seq<ChannelCall>, now: Instant, refused: set<EmailChannel.Email>)
    returns (i: nat, r: Outcome)
    requires store.Valid()
    modifies store, email, sms
    ensures store.Valid()
    ensures i <= |calls| && forall j :: 0 <= j < i ==> !Throws(calls[j])
    ensures r.Failed? <==> i < |calls|
    ensures r.Failed? ==> Throws(calls[i]) && r.error == NullPointer
    ensures Snapshot(store, email, sms) == Run(old(Snapshot(store, email, sms)), calls, i, SettingOf(email, sms, now, refused))
  {
    ghost var ch0 := Snapshot(store, email, sms);
    ghost var s := SettingOf(email, sms, now, refused);
    i := 0;
    r := Done;
    while i < |calls|
      invariant 0 <= i <= |calls| && r == Done
      invariant forall j :: 0 <= j < i ==> !Throws(calls[j])
      invariant store.Valid() && Snapshot(store, email, sms) == Run(ch0, calls, i, s)
    {
      r := Perform(store, email, sms, calls[i], now, refused);
      if r.Failed? {
        return;
      }
      i := i + 1;
    }
  }

  /**
   * Performs `calls` in order against the three channels. The first call
   * that throws stops the run; everything performed before it stays
   * performed here (the caller's transaction decides what survives).
   */
  method Deliver(store: NotificationStore, email: EmailChannel.EmailService, sms: SmsChannel.SmsService,
                 calls: seq<ChannelCall>, now: Instant, refused: set<EmailChannel.Email>) returns (r: Outcome)
    requires store.Valid()
    modifies store, email, sms
    ensures store.Valid()
    ensures r.Failed? <==> FirstThrow(calls).Some?
    ensures r.Failed? ==> r.error == NullPointer
    ensures Snapshot(store, email, sms) == Run(old(Snapshot(store, email, sms)), calls, |Performed(calls)|, SettingOf(email, sms, now, refused))
  {
    var i;
    i, r := DeliverUntilThrow(store, email, sms, calls, now, refused);
    PerformedUpTo(calls, i);
  }
}
