/**
 * The e-mail channel (EmailService of the backend). Each send is gated by
 * the `enabled` flag; when enabled, the message is built and handed to the
 * mail transport inside a try block whose catch only logs, so nothing a
 * send does can reach its caller.
 *
 * The mail transport is an oracle: `refused` holds the messages on which
 * it throws; every other message is delivered. The body text around the
 * formatted fields is not modelled.
 */
module EmailChannel {
  import opened Domain
  import InAppNotifications

  const DefaultFrom: string := "noreply@oshapp.com"

  datatype EmailKind = NewAppointmentMail | StatusMail | ObligatoryMail

  function Subject(k: EmailKind): string
  {
    match k
    case NewAppointmentMail => "Nouveau rendez-vous médical - OSHapp"
    case StatusMail => "Mise à jour du rendez-vous médical - OSHapp"
    case ObligatoryMail => "Visite médicale obligatoire - OSHapp"
  }

  /**
   * The fields `String.format` fills in. `%s` of a null reference prints
   * "null", which `JavaString` renders.
   */
  datatype EmailBody =
    | NewAppointmentBody(username: string, date: Instant, location: string, visitType: string, reason: string)
    | StatusBody(username: string, statusMessage: string, date: Instant, location: string, visitType: string,
                 status: AppointmentStatus, notesLine: string)
    | ObligatoryBody(username: string, date: Instant, location: string, visitType: string, reason: string)

  datatype Email = Email(from: string, to: string, subject: string, body: EmailBody)

  /** The status `switch` of buildAppointmentStatusEmailContent; its `default` arm is unreachable. */
  function StatusMessage(s: AppointmentStatus): string
  {
    match s
    case Confirme => "Votre rendez-vous a été confirmé"
    case Annule => "Votre rendez-vous a été annulé"
    case Termine => "Votre rendez-vous a été marqué comme terminé"
    case Reporte => "Votre rendez-vous a été reporté"
    case Propose => "Un nouveau créneau vous a été proposé"
    case Demande => "Votre demande de rendez-vous a été reçue"
  }

  /** The mail and the in-app notification tell the user the same sentence for every status. */
  lemma StatusMessagesAgree(s: AppointmentStatus)
    ensures StatusMessage(s) == InAppNotifications.StatusMessage(s)
  {
  }

  /** The last field of the status mail: the notes behind a fixed label, or nothing. */
  function NotesLine(notes: Option<string>): (line: string)
    ensures notes.None? <==> line == ""
    ensures notes.Some? ==> |line| == 8 + |notes.value| && line[..8] == "Notes : " && line[8..] == notes.value
  {
    if notes.Some? then "Notes : " + notes.value else ""
  }

  /** The body builders: each formats `appointmentDate` without a null check. */
  function BuildBody(k: EmailKind, u: User, a: AppointmentRecord): (r: Result<EmailBody>)
    ensures r.Err? <==> a.appointmentDate.None?
    ensures r.Err? ==> r.error == NullPointer
    ensures r.Ok? ==> r.value.username == u.username && r.value.date == a.appointmentDate.value
    ensures r.Ok? ==> (r.value.StatusBody? <==> k == StatusMail) && (r.value.ObligatoryBody? <==> k == ObligatoryMail)
    ensures r.Ok? && k == StatusMail ==>
      r.value.statusMessage == StatusMessage(a.status) && r.value.status == a.status &&
      r.value.notesLine == NotesLine(a.notes)
  {
    if a.appointmentDate.None? then Err(NullPointer)
    else
      var d := a.appointmentDate.value;
      match k
      case NewAppointmentMail =>
        Ok(NewAppointmentBody(u.username, d, JavaString(a.location), JavaString(a.kind), JavaString(a.reason)))
      case StatusMail =>
        Ok(StatusBody(u.username, StatusMessage(a.status), d, JavaString(a.location), JavaString(a.kind),
                      a.status, NotesLine(a.notes)))
      case ObligatoryMail =>
        Ok(ObligatoryBody(u.username, d, JavaString(a.location), JavaString(a.kind), JavaString(a.reason)))
  }

  /**
   * What one send hands to the transport and the transport accepts: nothing
   * when disabled, nothing when the body cannot be built, nothing when the
   * transport throws, and otherwise the one message.
   */
  function Delivered(enabled: bool, from: string, k: EmailKind, u: User, a: AppointmentRecord,
                     refused: set<Email>): (sent: seq<Email>)
    ensures |sent| <= 1
    ensures !enabled || a.appointmentDate.None? ==> sent == []
    ensures sent != [] ==>
      sent[0].from == from && sent[0].to == u.email && sent[0].subject == Subject(k) &&
      sent[0].body == BuildBody(k, u, a).value && sent[0] !in refused
    ensures enabled && a.appointmentDate.Some? && sent == [] ==>
      Email(from, u.email, Subject(k), BuildBody(k, u, a).value) in refused
  {
    if !enabled then []
    else
      var body := BuildBody(k, u, a);
      if body.Err? then []
      else
        var m := Email(from, u.email, Subject(k), body.value);
        if m !in refused then [m] else []
  }

  /** The obligatory mails of the first `n` pairs of users and appointments, in index order. */
  function PairsDelivered(enabled: bool, from: string, users: seq<User>, appts: seq<AppointmentRecord>,
                          refused: set<Email>, n: nat): seq<Email>
    requires n <= |users| && n <= |appts|
  {
    if n == 0 then []
    else PairsDelivered(enabled, from, users, appts, refused, n - 1) +
         Delivered(enabled, from, ObligatoryMail, users[n - 1], appts[n - 1], refused)
  }

  function Min(a: nat, b: nat): nat
  {
    if a <= b then a else b
  }

  /** sendBulkObligatoryAppointments: the gate, then the pairs up to the shorter list. */
  function BulkDelivered(enabled: bool, from: string, users: seq<User>, appts: seq<AppointmentRecord>,
                         refused: set<Email>): seq<Email>
  {
    if !enabled then [] else PairsDelivered(enabled, from, users, appts, refused, Min(|users|, |appts|))
  }

  /** Every bulk mail goes to some users[j] and is built from the appointment at the same index j. */
  lemma {:induction false} PairsPaired(enabled: bool, from: string, users: seq<User>, appts: seq<AppointmentRecord>,
                                       refused: set<Email>, n: nat)
    requires n <= |users| && n <= |appts|
    ensures |PairsDelivered(enabled, from, users, appts, refused, n)| <= n
    ensures forall m :: m in PairsDelivered(enabled, from, users, appts, refused, n) ==>
      exists j :: 0 <= j < n && m.to == users[j].email && BuildBody(ObligatoryMail, users[j], appts[j]) == Ok(m.body)
  {
    if n > 0 {
      PairsPaired(enabled, from, users, appts, refused, n - 1);
      var last := Delivered(enabled, from, ObligatoryMail, users[n - 1], appts[n - 1], refused);
      forall m | m in PairsDelivered(enabled, from, users, appts, refused, n)
        ensures exists j :: 0 <= j < n && m.to == users[j].email && BuildBody(ObligatoryMail, users[j], appts[j]) == Ok(m.body)
      {
        if m in last {
          assert m == last[0];
        }
      }
    }
  }

  /** The bulk mails are at most min(|users|, |appts|), each paired index to index; none when disabled. */
  lemma BulkPairing(enabled: bool, from: string, users: seq<User>, appts: seq<AppointmentRecord>, refused: set<Email>)
    ensures !enabled ==> BulkDelivered(enabled, from, users, appts, refused) == []
    ensures |BulkDelivered(enabled, from, users, appts, refused)| <= Min(|users|, |appts|)
    ensures forall m :: m in BulkDelivered(enabled, from, users, appts, refused) ==>
      exists j :: 0 <= j < |users| && j < |appts| &&
        m.to == users[j].email && BuildBody(ObligatoryMail, users[j], appts[j]) == Ok(m.body)
  {
    if enabled {
      PairsPaired(enabled, from, users, appts, refused, Min(|users|, |appts|));
    }
  }

  /** Every pair whose appointment is dated and whose mail the transport accepts yields one mail. */
  lemma {:induction false} PairsComplete(enabled: bool, from: string, users: seq<User>, appts: seq<AppointmentRecord>,
                                         refused: set<Email>, n: nat, j: nat)
    requires n <= |users| && n <= |appts| && j < n && enabled && appts[j].appointmentDate.Some?
    requires Email(from, users[j].email, Subject(ObligatoryMail), BuildBody(ObligatoryMail, users[j], appts[j]).value) !in refused
    ensures Email(from, users[j].email, Subject(ObligatoryMail), BuildBody(ObligatoryMail, users[j], appts[j]).value)
      in PairsDelivered(enabled, from, users, appts, refused, n)
  {
    if j < n - 1 {
      PairsComplete(enabled, from, users, appts, refused, n - 1, j);
    }
  }

  /** The mail service: its two configuration values and the mails the transport accepted. */
  class EmailService {
    const enabled: bool
    const fromEmail: string
    var outbox: seq<Email>

    /** The defaults of `app.notification.email.enabled` and `spring.mail.username`. */
    constructor Default()
      ensures enabled && fromEmail == DefaultFrom && outbox == []
    {
      enabled := true;
      fromEmail := DefaultFrom;
      outbox := [];
    }

    constructor (enabled: bool, fromEmail: string)
      ensures this.enabled == enabled && this.fromEmail == fromEmail && outbox == []
    {
      this.enabled := enabled;
      this.fromEmail := fromEmail;
      outbox := [];
    }

    /** One gated send; a build or transport failure is swallowed. */
    method Send(k: EmailKind, u: User, a: AppointmentRecord, refused: set<Email>)
      modifies this
      ensures outbox == old(outbox) + Delivered(enabled, fromEmail, k, u, a, refused)
    {
      if !enabled {
        return;
      }
      var body := BuildBody(k, u, a);
      if body.Err? {
        return;
      }
      var m := Email(fromEmail, u.email, Subject(k), body.value);
      if m !in refused {
        outbox := outbox + [m];
      }
    }

    method SendAppointmentNotification(u: User, a: AppointmentRecord, refused: set<Email>)
      modifies this
      ensures outbox == old(outbox) + Delivered(enabled, fromEmail, NewAppointmentMail, u, a, refused)
    {
      Send(NewAppointmentMail, u, a, refused);
    }

    method SendAppointmentStatusNotification(u: User, a: AppointmentRecord, refused: set<Email>)
      modifies this
      ensures outbox == old(outbox) + Delivered(enabled, fromEmail, StatusMail, u, a, refused)
    {
      Send(StatusMail, u, a, refused);
    }

    method SendObligatoryAppointmentNotification(u: User, a: AppointmentRecord, refused: set<Email>)
      modifies this
      ensures outbox == old(outbox) + Delivered(enabled, fromEmail, ObligatoryMail, u, a, refused)
    {
      Send(ObligatoryMail, u, a, refused);
    }

    /** sendBulkObligatoryAppointments: the index loop stops at the shorter list. */
    method SendBulkObligatoryAppointments(users: seq<User>, appts: seq<AppointmentRecord>, refused: set<Email>)
      modifies this
      ensures outbox == old(outbox) + BulkDelivered(enabled, fromEmail, users, appts, refused)
    {
      if !enabled {
        return;
      }
      var i := 0;
      while i < |users| && i < |appts|
        invariant i <= |users| && i <= |appts|
        invariant outbox == old(outbox) + PairsDelivered(enabled, fromEmail, users, appts, refused, i)
      {
        SendObligatoryAppointmentNotification(users[i], appts[i], refused);
        i := i + 1;
      }
    }
  }
}
