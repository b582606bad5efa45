/**
 * The appointment workflow (AppointmentService of the backend): a small
 * state machine over AppointmentStatus driven by create, propose,
 * confirm, reschedule, cancel and the two direct updates.
 *
 * Each operation loads a row, checks the actor and the row, rewrites some
 * fields, saves, and hands a list of recipients to the fan-out. The
 * field rewrite of each operation is a pure function on records, whose
 * contract says which fields change and how; the service class applies
 * it to its table and returns the channel calls the fan-out issues.
 * The employee table and the list of RH users, which come from other
 * services, are parameters.
 */
module AppointmentWorkflow {
  import opened Domain
  import opened AppointmentQueries
  import FanOut

  /** The fields of AppointmentRequestDTO the service reads. */
  datatype AppointmentRequest = AppointmentRequest(
    employeeId: nat,
    kind: Option<VisitType>,
    requestedDate: Option<Instant>,
    proposedDate: Option<Instant>,
    appointmentDate: Option<Instant>,
    motif: Option<string>,
    reason: Option<string>,
    notes: Option<string>,
    location: Option<string>,
    isObligatory: Option<bool>)

  const ConfirmationLabel: string := "\nConfirmation notes: "
  const CancellationLabel: string := "\nMotif d'annulation: "

  /** `notes == null ? "" : notes` */
  function OrEmpty(notes: Option<string>): string
  {
    if notes.Some? then notes.value else ""
  }

  // ---------------------------------------------------------------------
  // Permissions
  // ---------------------------------------------------------------------

  predicate IsMedicalStaff(u: User)
  {
    HasRole(u, RoleInfirmier) || HasRole(u, RoleMedecin)
  }

  /**
   * hasPermissionToCreateAppointment. The SALARIE role is tested first, so
   * an actor holding it may only create for the employee linked to their
   * own account, whatever other roles they hold; that test dereferences the
   * employee's user without a null check.
   */
  function CreatePermission(actor: User, e: Employee): (r: Result<bool>)
    ensures r.Err? <==> HasRole(actor, RoleSalarie) && e.user.None?
    ensures r.Err? ==> r.error == NullPointer
    ensures r == Ok(true) <==>
      (HasRole(actor, RoleSalarie) && e.user.Some? && e.user.value.id == actor.id) ||
      (!HasRole(actor, RoleSalarie) && (HasRole(actor, RoleRh) || IsMedicalStaff(actor)))
  {
    if HasRole(actor, RoleSalarie) then
      if e.user.None? then Err(NullPointer) else Ok(e.user.value.id == actor.id)
    else
      Ok(HasRole(actor, RoleRh) || HasRole(actor, RoleInfirmier) || HasRole(actor, RoleMedecin))
  }

  /** The `canCancel` computation of cancelAppointment; here a null employee or user just denies. */
  function CanCancel(a: AppointmentRecord, actor: User): (ok: bool)
    ensures HasRole(actor, RoleSalarie) ==> (ok <==> EmployeeUser(a).Some? && EmployeeUser(a).value.id == actor.id)
    ensures !HasRole(actor, RoleSalarie) ==> (ok <==> HasRole(actor, RoleRh) || IsMedicalStaff(actor))
  {
    if HasRole(actor, RoleSalarie) then
      a.employee.Some? && a.employee.value.user.Some? && a.employee.value.user.value.id == actor.id
    else
      HasRole(actor, RoleRh) || HasRole(actor, RoleInfirmier) || HasRole(actor, RoleMedecin)
  }

  /** An administrator holding no other role may neither create nor cancel. */
  lemma AdminAloneIsRefused(a: AppointmentRecord, e: Employee, actor: User)
    requires actor.roles == {RoleAdmin}
    ensures CreatePermission(actor, e) == Ok(false)
    ensures !CanCancel(a, actor)
  {
    assert !HasRole(actor, RoleSalarie) && !HasRole(actor, RoleRh) && !IsMedicalStaff(actor);
  }

  // ---------------------------------------------------------------------
  // Field rewrites
  // ---------------------------------------------------------------------

  /** The row createAppointment builds: a request, with no date, no staff and no proposal yet. */
  function Requested(id: nat, e: Employee, req: AppointmentRequest, actorEmail: string, now: Instant): (b: AppointmentRecord)
    ensures b.id == id && b.employee == Some(e) && b.status == Demande
    ensures b.createdBy == Some(actorEmail) && b.createdAt == Some(now) && b.updatedAt == Some(now)
    ensures b.kind == req.kind && b.requestedDate == req.requestedDate && b.motif == req.motif &&
            b.reason == req.reason && b.notes == req.notes && b.location == req.location &&
            b.isObligatory == req.isObligatory
    ensures b.proposedDate.None? && b.appointmentDate.None? && b.nurse.None? && b.doctor.None?
  {
    AppointmentRecord(id, Some(e), req.kind, Demande, req.requestedDate, None, None, req.motif, req.reason,
                      req.notes, req.location, req.isObligatory, Some(actorEmail), Some(now), Some(now), None, None)
  }

  /**
   * proposeAppointmentSlot after its role check: the proposal, the location
   * and PROPOSE; the actor becomes the nurse when a nurse, else the doctor
   * when a doctor; the notes are replaced only by non-null request notes.
   */
  function Proposed(a: AppointmentRecord, actor: User, req: AppointmentRequest, now: Instant): (b: AppointmentRecord)
    ensures b.status == Propose && b.proposedDate == req.proposedDate && b.location == req.location
    ensures b.updatedAt == Some(now)
    ensures HasRole(actor, RoleInfirmier) ==> b.nurse == Some(actor) && b.doctor == a.doctor
    ensures !HasRole(actor, RoleInfirmier) && HasRole(actor, RoleMedecin) ==> b.doctor == Some(actor) && b.nurse == a.nurse
    ensures !IsMedicalStaff(actor) ==> b.nurse == a.nurse && b.doctor == a.doctor
    ensures req.notes.Some? ==> b.notes == req.notes
    ensures req.notes.None? ==> b.notes == a.notes
    ensures b.(status := a.status, proposedDate := a.proposedDate, location := a.location, updatedAt := a.updatedAt,
               nurse := a.nurse, doctor := a.doctor, notes := a.notes) == a
  {
    var p := a.(proposedDate := req.proposedDate, location := req.location, status := Propose, updatedAt := Some(now));
    var staffed :=
      if HasRole(actor, RoleInfirmier) then p.(nurse := Some(actor))
      else if HasRole(actor, RoleMedecin) then p.(doctor := Some(actor))
      else p;
    if req.notes.Some? then staffed.(notes := req.notes) else staffed
  }

  /**
   * confirmAppointment: refused without a proposed date; otherwise the
   * proposal becomes the appointment date, the status CONFIRME, and
   * non-blank notes are appended after a label to the old notes (a null
   * old note counts as empty).
   */
  function Confirmed(a: AppointmentRecord, notes: Option<string>, now: Instant): (r: Result<AppointmentRecord>)
    ensures r.Err? <==> a.proposedDate.None?
    ensures r.Err? ==> r.error == IllegalState
    ensures r.Ok? ==> r.value.status == Confirme && r.value.appointmentDate == a.proposedDate &&
                      r.value.appointmentDate.Some? && r.value.updatedAt == Some(now)
    ensures r.Ok? && HasText(notes) ==>
      r.value.notes.Some? && OrEmpty(a.notes) <= r.value.notes.value &&
      r.value.notes.value[|OrEmpty(a.notes)|..] == ConfirmationLabel + notes.value
    ensures r.Ok? && !HasText(notes) ==> r.value.notes == a.notes
    ensures r.Ok? ==> r.value.(status := a.status, appointmentDate := a.appointmentDate, notes := a.notes,
                               updatedAt := a.updatedAt) == a
  {
    if a.proposedDate.None? then Err(IllegalState)
    else
      var b := a.(appointmentDate := a.proposedDate, status := Confirme);
      var noted := if HasText(notes) then b.(notes := Some(OrEmpty(a.notes) + ConfirmationLabel + notes.value)) else b;
      Ok(noted.(updatedAt := Some(now)))
  }

  /** rescheduleAppointment: REPORTE from any status, and the motif overwritten (even by null). */
  function Rescheduled(a: AppointmentRecord, motif: Option<string>, now: Instant): (b: AppointmentRecord)
    ensures b.status == Reporte && b.motif == motif && b.updatedAt == Some(now)
    ensures b.(status := a.status, motif := a.motif, updatedAt := a.updatedAt) == a
  {
    a.(status := Reporte, motif := motif, updatedAt := Some(now))
  }

  /**
   * cancelAppointment: the permission check comes first, then a finished
   * appointment is refused; any other status, ANNULE included, becomes
   * ANNULE, and a non-blank reason is appended after a label.
   */
  function Cancelled(a: AppointmentRecord, actor: User, reason: Option<string>, now: Instant): (r: Result<AppointmentRecord>)
    ensures r.Err? <==> !CanCancel(a, actor) || a.status == Termine
    ensures r.Err? ==> (r.error == Unauthorized <==> !CanCancel(a, actor))
    ensures r.Err? ==> (r.error == IllegalState <==> CanCancel(a, actor))
    ensures r.Ok? ==> r.value.status == Annule && r.value.updatedAt == Some(now)
    ensures r.Ok? && HasText(reason) ==>
      r.value.notes.Some? && OrEmpty(a.notes) <= r.value.notes.value &&
      r.value.notes.value[|OrEmpty(a.notes)|..] == CancellationLabel + reason.value
    ensures r.Ok? && !HasText(reason) ==> r.value.notes == a.notes
    ensures r.Ok? ==> r.value.(status := a.status, notes := a.notes, updatedAt := a.updatedAt) == a
  {
    if !CanCancel(a, actor) then Err(Unauthorized)
    else if a.status == Termine then Err(IllegalState)
    else
      var b := a.(status := Annule);
      var noted := if HasText(reason) then b.(notes := Some(OrEmpty(a.notes) + CancellationLabel + reason.value)) else b;
      Ok(noted.(updatedAt := Some(now)))
  }

  /**
   * updateAppointmentStatus: any target status; non-blank notes are
   * appended after a newline to the old notes, which are concatenated as
   * Java does, so a null old note contributes the text "null".
   */
  function StatusUpdated(a: AppointmentRecord, status: AppointmentStatus, notes: Option<string>, now: Instant): (b: AppointmentRecord)
    ensures b.status == status && b.updatedAt == Some(now)
    ensures HasText(notes) ==>
      b.notes.Some? && JavaString(a.notes) <= b.notes.value &&
      b.notes.value[|JavaString(a.notes)|..] == "\n" + notes.value
    ensures HasText(notes) && a.notes.None? ==> b.notes.value[..4] == "null"
    ensures !HasText(notes) ==> b.notes == a.notes
    ensures b.(status := a.status, notes := a.notes, updatedAt := a.updatedAt) == a
  {
    var b := a.(status := status);
    var noted := if HasText(notes) then b.(notes := Some(JavaString(a.notes) + "\n" + notes.value)) else b;
    noted.(updatedAt := Some(now))
  }

  /** updateAppointment: overwrites the editable fields from the request, the appointment date included. */
  function Updated(a: AppointmentRecord, e: Employee, req: AppointmentRequest, now: Instant): (b: AppointmentRecord)
    ensures b.employee == Some(e) && b.kind == req.kind && b.appointmentDate == req.appointmentDate &&
            b.reason == req.reason && b.notes == req.notes && b.location == req.location &&
            b.updatedAt == Some(now)
    ensures b.(employee := a.employee, kind := a.kind, appointmentDate := a.appointmentDate, reason := a.reason,
               notes := a.notes, location := a.location, updatedAt := a.updatedAt) == a
  {
    a.(employee := Some(e), kind := req.kind, appointmentDate := req.appointmentDate, reason := req.reason,
       notes := req.notes, location := req.location, updatedAt := Some(now))
  }

  /**
   * The confirmed date need not be the proposed one: updateAppointment
   * moves the appointment date away from the proposal without touching
   * the proposal or the status.
   */
  lemma UpdateBypassesConfirmation(a: AppointmentRecord, e: Employee, req: AppointmentRequest, now: Instant)
    requires a.status == Confirme && a.appointmentDate == a.proposedDate
    requires req.appointmentDate != a.proposedDate
    ensures Updated(a, e, req, now).status == Confirme
    ensures Updated(a, e, req, now).appointmentDate != Updated(a, e, req, now).proposedDate
  {
  }

  // ---------------------------------------------------------------------
  // Recipients
  // ---------------------------------------------------------------------

  /** The first index at which `x` occurs in `s`. */
  function FirstIndex(s: seq<User>, x: User): (k: nat)
    requires x in s
    ensures k < |s| && s[k] == x && forall m :: 0 <= m < k ==> s[m] != x
  {
    if s[0] == x then 0 else 1 + FirstIndex(s[1..], x)
  }

  lemma FirstIndexIs(s: seq<User>, x: User, k: nat)
    requires k < |s| && s[k] == x && forall m :: 0 <= m < k ==> s[m] != x
    ensures FirstIndex(s, x) == k
  {
  }

  /** `stream().distinct()`: each value at its first occurrence, in order. */
  function Distinct(s: seq<User>): seq<User>
    decreases |s|
  {
    if s == [] then []
    else
      var d := Distinct(s[..|s| - 1]);
      if s[|s| - 1] in d then d else d + [s[|s| - 1]]
  }

  /** Distinct keeps every value exactly once, ordered by first occurrence. */
  lemma {:induction false} DistinctSpec(s: seq<User>)
    ensures forall x :: x in Distinct(s) <==> x in s
    ensures forall i, j :: 0 <= i < j < |Distinct(s)| ==> Distinct(s)[i] != Distinct(s)[j]
    ensures forall i, j :: 0 <= i < j < |Distinct(s)| ==>
      FirstIndex(s, Distinct(s)[i]) < FirstIndex(s, Distinct(s)[j])
    decreases |s|
  {
    if s != [] {
      var init := s[..|s| - 1];
      var last := s[|s| - 1];
      assert s == init + [last];
      DistinctSpec(init);
      var d0 := Distinct(init);
      var d := Distinct(s);
      forall x | x in init
        ensures FirstIndex(s, x) == FirstIndex(init, x)
      {
        FirstIndexIs(s, x, FirstIndex(init, x));
      }
      if last !in d0 {
        assert d == d0 + [last];
        FirstIndexIs(s, last, |init|);
        forall i, j | 0 <= i < j < |d|
          ensures FirstIndex(s, d[i]) < FirstIndex(s, d[j])
        {
          assert d[i] == d0[i] && d[i] in init;
          if j < |d0| {
            assert d[j] == d0[j] && d[j] in init;
          }
        }
      } else {
        forall i, j | 0 <= i < j < |d|
          ensures FirstIndex(s, d[i]) < FirstIndex(s, d[j])
        {
          assert d[i] in init && d[j] in init;
        }
      }
    }
  }

  /** A nullable reference as a list of at most one user. */
  function Opt(u: Option<User>): seq<User>
  {
    if u.Some? then [u.value] else []
  }

  /**
   * The list getAllActorsToNotify assembles before the stream: employee
   * user, nurse, doctor, every RH user, N+1 user, N+2 user, each single
   * entry only when present.
   */
  function ActorList(a: AppointmentRecord, rh: seq<User>): seq<User>
  {
    Opt(EmployeeUser(a)) + Opt(a.nurse) + Opt(a.doctor) + rh + Opt(ManagerUser(a, 1)) + Opt(ManagerUser(a, 2))
  }

  /** Who is an actor of the appointment. */
  predicate IsActor(a: AppointmentRecord, rh: seq<User>, u: User)
  {
    EmployeeUser(a) == Some(u) || a.nurse == Some(u) || a.doctor == Some(u) || u in rh ||
    ManagerUser(a, 1) == Some(u) || ManagerUser(a, 2) == Some(u)
  }

  /** The recipients every notifying operation hands to the fan-out. */
  function ActorsOf(a: AppointmentRecord, rh: seq<User>): seq<User>
  {
    Distinct(ActorList(a, rh))
  }

  lemma ActorListMembers(a: AppointmentRecord, rh: seq<User>)
    ensures forall u :: u in ActorList(a, rh) <==> IsActor(a, rh, u)
  {
  }

  /**
   * getAllActorsToNotify: the list is built entry by entry, then the stream
   * drops nulls (none are ever added) and duplicates. The result holds every
   * actor once, ordered by where each first appears in the assembled list.
   */
  method AllActorsToNotify(a: AppointmentRecord, rh: seq<User>) returns (actors: seq<User>)
    ensures actors == ActorsOf(a, rh)
    ensures forall u :: u in actors <==> u in ActorList(a, rh)
    ensures forall u :: u in actors <==> IsActor(a, rh, u)
    ensures forall i, j :: 0 <= i < j < |actors| ==> actors[i] != actors[j]
    ensures forall i, j :: 0 <= i < j < |actors| ==>
      FirstIndex(ActorList(a, rh), actors[i]) < FirstIndex(ActorList(a, rh), actors[j])
  {
    var users: seq<User> := [];
    if a.employee.Some? && a.employee.value.user.Some? {
      users := users + [a.employee.value.user.value];
    }
    assert users == Opt(EmployeeUser(a));
    if a.nurse.Some? {
      users := users + [a.nurse.value];
    }
    assert users == Opt(EmployeeUser(a)) + Opt(a.nurse);
    if a.doctor.Some? {
      users := users + [a.doctor.value];
    }
    assert users == Opt(EmployeeUser(a)) + Opt(a.nurse) + Opt(a.doctor);
    users := users + rh;
    if a.employee.Some? && a.employee.value.manager1.Some? && a.employee.value.manager1.value.user.Some? {
      users := users + [a.employee.value.manager1.value.user.value];
    }
    assert users == Opt(EmployeeUser(a)) + Opt(a.nurse) + Opt(a.doctor) + rh + Opt(ManagerUser(a, 1));
    if a.employee.Some? && a.employee.value.manager2.Some? && a.employee.value.manager2.value.user.Some? {
      users := users + [a.employee.value.manager2.value.user.value];
    }
    assert users == ActorList(a, rh);
    actors := Distinct(users);
    ActorsOfSpec(a, rh);
  }

  lemma ActorsOfSpec(a: AppointmentRecord, rh: seq<User>)
    ensures forall u :: u in ActorsOf(a, rh) <==> u in ActorList(a, rh)
    ensures forall u :: u in ActorsOf(a, rh) <==> IsActor(a, rh, u)
    ensures forall i, j :: 0 <= i < j < |ActorsOf(a, rh)| ==> ActorsOf(a, rh)[i] != ActorsOf(a, rh)[j]
    ensures forall i, j :: 0 <= i < j < |ActorsOf(a, rh)| ==>
      FirstIndex(ActorList(a, rh), ActorsOf(a, rh)[i]) < FirstIndex(ActorList(a, rh), ActorsOf(a, rh)[j])
  {
    DistinctSpec(ActorList(a, rh));
    ActorListMembers(a, rh);
  }

  /** The recipients as the nullable list notifyUsers takes. */
  function Lift(us: seq<User>): (r: seq<Option<User>>)
    ensures |r| == |us| && forall i :: 0 <= i < |us| ==> r[i] == Some(us[i])
  {
    seq(|us|, i requires 0 <= i < |us| => Some(us[i]))
  }

  /** Dropping the nulls of a lifted list gives the list back. */
  lemma {:induction false} NonNullLift(us: seq<User>)
    ensures FanOut.NonNull(Lift(us)) == us
    decreases |us|
  {
    if us != [] {
      var init := us[..|us| - 1];
      NonNullLift(init);
      assert Lift(us)[..|us| - 1] == Lift(init);
      assert us == init + [us[|us| - 1]];
    }
  }

  /** The managers' users proposeAppointmentSlot collects, N+1 first. */
  function ManagerList(a: AppointmentRecord): seq<Option<User>>
  {
    (if ManagerUser(a, 1).Some? then [ManagerUser(a, 1)] else []) +
    (if ManagerUser(a, 2).Some? then [ManagerUser(a, 2)] else [])
  }

  /** The managers of a proposal can always be notified: without an employee there are no managers. */
  lemma ProposalManagersOk(b: AppointmentRecord)
    ensures FanOut.ManagerCalls(b, ManagerList(b)).Ok?
  {
    FanOut.ManagerCallsSpec(b, ManagerList(b));
    if b.employee.None? {
      assert ManagerList(b) == [];
    }
  }

  /** The fan-out of a proposal: the status trio to the employee, then the proposal notices to the managers. */
  function ProposalCalls(b: AppointmentRecord): seq<FanOut.ChannelCall>
  {
    ProposalManagersOk(b);
    var staff := if EmployeeUser(b).Some? then FanOut.StatusTrio(EmployeeUser(b).value, b) else [];
    staff + FanOut.ManagerCalls(b, ManagerList(b)).value
  }

  /** Only the appointment's two managers are on the proposal's manager list. */
  lemma ManagerListMembers(b: AppointmentRecord)
    ensures forall m :: m in ManagerList(b) ==> m == ManagerUser(b, 1) || m == ManagerUser(b, 2)
  {
    var m1: seq<Option<User>> := if ManagerUser(b, 1).Some? then [ManagerUser(b, 1)] else [];
    var m2: seq<Option<User>> := if ManagerUser(b, 2).Some? then [ManagerUser(b, 2)] else [];
    assert ManagerList(b) == m1 + m2;
  }

  /** A proposal notifies the employee and the managers only, and sends no SMS to a manager. */
  lemma ProposalRecipients(b: AppointmentRecord)
    ensures forall c :: c in ProposalCalls(b) ==>
      Some(c.to) == EmployeeUser(b) || Some(c.to) == ManagerUser(b, 1) || Some(c.to) == ManagerUser(b, 2)
    ensures forall c :: c in ProposalCalls(b) && c.SmsCall? ==> Some(c.to) == EmployeeUser(b)
  {
    var ms := ManagerList(b);
    ProposalManagersOk(b);
    FanOut.ManagerCallsRecipients(b, ms);
    ManagerListMembers(b);
    var mc := FanOut.ManagerCalls(b, ms).value;
    var staff := if EmployeeUser(b).Some? then FanOut.StatusTrio(EmployeeUser(b).value, b) else [];
    assert ProposalCalls(b) == staff + mc;
    forall c: FanOut.ChannelCall | c in staff + mc
      ensures Some(c.to) == EmployeeUser(b) || Some(c.to) == ManagerUser(b, 1) || Some(c.to) == ManagerUser(b, 2)
      ensures c.SmsCall? ==> Some(c.to) == EmployeeUser(b)
    {
      if c in staff {
        assert Some(c.to) == EmployeeUser(b);
      } else {
        assert c in mc;
        assert Some(c.to) in ms && !c.SmsCall?;
      }
    }
  }

  lemma NonNullManagers(b: AppointmentRecord)
    ensures forall u :: u in FanOut.NonNull(ManagerList(b)) ==> Some(u) == ManagerUser(b, 1) || Some(u) == ManagerUser(b, 2)
  {
    var ms := ManagerList(b);
    var m1: seq<Option<User>> := if ManagerUser(b, 1).Some? then [ManagerUser(b, 1)] else [];
    var m2: seq<Option<User>> := if ManagerUser(b, 2).Some? then [ManagerUser(b, 2)] else [];
    assert ms == m1 + m2;
    if |ms| == 2 {
      assert ms[..1] == m1;
      assert ms[..1][..0] == [];
    } else if |ms| == 1 {
      assert ms[..0] == [];
    }
  }

  // ---------------------------------------------------------------------
  // Listing
  // ---------------------------------------------------------------------

  /**
   * getAppointments: an employee sees their own appointments, medical
   * staff those they take part in, and every other actor (RH, HSE, admin)
   * the filtered table. The role order matters: SALARIE wins.
   */
  function VisibleAppointments(table: Table, actor: User, f: Filters): (r: Table)
    ensures HasRole(actor, RoleSalarie) ==>
      forall a :: a in r <==> a in table && OwnedBy(a, actor.id)
    ensures !HasRole(actor, RoleSalarie) && IsMedicalStaff(actor) ==>
      forall a :: a in r <==> a in table && InvolvesStaff(a, actor.id)
    ensures !HasRole(actor, RoleSalarie) && !IsMedicalStaff(actor) ==>
      forall a :: a in r <==> a in table && MatchesFilters(a, f)
  {
    if HasRole(actor, RoleSalarie) then FindByEmployeeUserId(table, actor.id)
    else if HasRole(actor, RoleInfirmier) || HasRole(actor, RoleMedecin) then FindByMedicalStaff(table, actor.id)
    else FindWithFilters(table, f)
  }

  /** getMyAppointments: the actor's own appointments, narrowed to one status when given. */
  function MyAppointments(table: Table, actor: User, status: Option<AppointmentStatus>): (r: Table)
    ensures forall a :: a in r <==> a in table && OwnedBy(a, actor.id) && (status.None? || a.status == status.value)
  {
    if status.Some? then FindByEmployeeUserIdAndStatus(table, actor.id, status.value)
    else FindByEmployeeUserId(table, actor.id)
  }

  /** getUpcomingAppointments: the actor's appointments dated now or later, earliest first. */
  function UpcomingAppointments(table: Table, actor: User, now: Instant): (r: Table)
    ensures Dated(r) && SortedByDate(r)
    ensures forall a :: a in r <==>
      a in table && OwnedBy(a, actor.id) && a.appointmentDate.Some? && a.appointmentDate.value >= now
  {
    FindUpcomingByEmployeeUserId(table, actor.id, now)
  }

  // ---------------------------------------------------------------------
  // The service
  // ---------------------------------------------------------------------

  /** The appointment table the service reads and writes, keyed by id. */
  class AppointmentService {
    var appointments: map<nat, AppointmentRecord>
    var nextId: nat

    ghost predicate Valid()
      reads this
    {
      forall id :: id in appointments ==> id < nextId && appointments[id].id == id
    }

    constructor ()
      ensures Valid() && appointments == map[] && nextId == 0
    {
      appointments := map[];
      nextId := 0;
    }

    /**
     * createAppointment: the employee must exist and the actor be allowed;
     * the new DEMANDE row is saved and its actors notified with CREATION.
     * The transaction rolls back when the fan-out throws, which it does
     * at its first call whenever anyone is to be notified, since the row
     * has no appointment date. The rollback removes the row, but the
     * identity value its insert drew stays drawn.
     */
    method CreateAppointment(req: AppointmentRequest, actor: User, employees: map<nat, Employee>, rh: seq<User>, now: Instant)
      returns (r: Result<AppointmentRecord>, calls: seq<FanOut.ChannelCall>)
      requires Valid()
      modifies this
      ensures Valid()
      ensures req.employeeId !in employees ==> r == Err(NotFound) && calls == [] && nextId == old(nextId)
      ensures req.employeeId in employees && CreatePermission(actor, employees[req.employeeId]).Err? ==>
        r == Err(NullPointer) && calls == [] && nextId == old(nextId)
      ensures req.employeeId in employees && CreatePermission(actor, employees[req.employeeId]) == Ok(false) ==>
        r == Err(Unauthorized) && calls == [] && nextId == old(nextId)
      ensures req.employeeId in employees && CreatePermission(actor, employees[req.employeeId]) == Ok(true) ==>
        var saved := Requested(old(nextId), employees[req.employeeId], req, actor.email, now);
        calls == FanOut.ScenarioCalls(Lift(ActorsOf(saved, rh)), saved, "CREATION", None) &&
        (r.Err? <==> |ActorsOf(saved, rh)| > 0) &&
        (r.Err? ==> r.error == NullPointer) &&
        (r.Ok? ==> r.value == saved && appointments == old(appointments)[saved.id := saved]) &&
        nextId == old(nextId) + 1
      ensures r.Err? ==> appointments == old(appointments)
    {
      calls := [];
      if req.employeeId !in employees {
        return Err(NotFound), calls;
      }
      var e := employees[req.employeeId];
      var allowed := CreatePermission(actor, e);
      if allowed.Err? {
        return Err(allowed.error), calls;
      }
      if !allowed.value {
        return Err(Unauthorized), calls;
      }
      var saved := Requested(nextId, e, req, actor.email, now);
      nextId := nextId + 1;
      var actors := AllActorsToNotify(saved, rh);
      calls := FanOut.NotifyUsers(Lift(actors), saved, "CREATION", None);
      FanOut.CreationThrowsFirst(Lift(actors), saved, "CREATION", None);
      NonNullLift(actors);
      if FanOut.FirstThrow(calls).Some? {
        return Err(NullPointer), calls;
      }
      appointments := appointments[saved.id := saved];
      r := Ok(saved);
    }

    /**
     * proposeAppointmentSlot: a missing row or an actor who is neither
     * nurse nor doctor is refused before anything changes; otherwise the
     * proposal is saved, the employee gets the status trio and each
     * manager a proposal notice and a status mail.
     */
    method ProposeAppointmentSlot(id: nat, req: AppointmentRequest, actor: User, now: Instant)
      returns (r: Result<AppointmentRecord>, calls: seq<FanOut.ChannelCall>)
      requires Valid()
      modifies this
      ensures Valid() && nextId == old(nextId)
      ensures id !in old(appointments) ==> r == Err(NotFound)
      ensures id in old(appointments) && !IsMedicalStaff(actor) ==> r == Err(Unauthorized)
      ensures r.Err? ==> appointments == old(appointments) && calls == []
      ensures id in old(appointments) && IsMedicalStaff(actor) ==>
        r == Ok(Proposed(old(appointments)[id], actor, req, now)) &&
        appointments == old(appointments)[id := r.value] &&
        calls == ProposalCalls(r.value)
    {
      calls := [];
      if id !in appointments {
        return Err(NotFound), calls;
      }
      if !HasRole(actor, RoleInfirmier) && !HasRole(actor, RoleMedecin) {
        return Err(Unauthorized), calls;
      }
      var b := Proposed(appointments[id], actor, req, now);
      appointments := appointments[id := b];
      var staff: seq<FanOut.ChannelCall> := [];
      if b.employee.Some? && b.employee.value.user.Some? {
        staff := FanOut.StatusTrio(b.employee.value.user.value, b);
      }
      var managers := ManagerList(b);
      var notified := FanOut.NotifyManagersOfProposal(b, managers);
      ProposalManagersOk(b);
      calls := staff + notified.value;
      r := Ok(b);
    }

    /** confirmAppointment, notifying every actor with CONFIRMATION. */
    method ConfirmAppointment(id: nat, notes: Option<string>, rh: seq<User>, now: Instant)
      returns (r: Result<AppointmentRecord>, calls: seq<FanOut.ChannelCall>)
      requires Valid()
      modifies this
      ensures Valid() && nextId == old(nextId)
      ensures id !in old(appointments) ==> r == Err(NotFound)
      ensures id in old(appointments) ==> r == Confirmed(old(appointments)[id], notes, now)
      ensures r.Err? ==> appointments == old(appointments) && calls == []
      ensures r.Ok? ==>
        (appointments == old(appointments)[id := r.value] &&
         calls == FanOut.ScenarioCalls(Lift(ActorsOf(r.value, rh)), r.value, "CONFIRMATION", None))
    {
      calls := [];
      if id !in appointments {
        return Err(NotFound), calls;
      }
      r := Confirmed(appointments[id], notes, now);
      if r.Err? {
        return;
      }
      appointments := appointments[id := r.value];
      var actors := AllActorsToNotify(r.value, rh);
      calls := FanOut.NotifyUsers(Lift(actors), r.value, "CONFIRMATION", None);
    }

    /** rescheduleAppointment, notifying every actor with RESCHEDULE and the motif. */
    method RescheduleAppointment(id: nat, motif: Option<string>, rh: seq<User>, now: Instant)
      returns (r: Result<AppointmentRecord>, calls: seq<FanOut.ChannelCall>)
      requires Valid()
      modifies this
      ensures Valid() && nextId == old(nextId)
      ensures id !in old(appointments) ==> r == Err(NotFound) && appointments == old(appointments) && calls == []
      ensures id in old(appointments) ==>
        r == Ok(Rescheduled(old(appointments)[id], motif, now)) &&
        appointments == old(appointments)[id := r.value] &&
        calls == FanOut.ScenarioCalls(Lift(ActorsOf(r.value, rh)), r.value, "RESCHEDULE", motif)
    {
      calls := [];
      if id !in appointments {
        return Err(NotFound), calls;
      }
      var b := Rescheduled(appointments[id], motif, now);
      appointments := appointments[id := b];
      var actors := AllActorsToNotify(b, rh);
      calls := FanOut.NotifyUsers(Lift(actors), b, "RESCHEDULE", motif);
      r := Ok(b);
    }

    /**
     * cancelAppointment. It hands the actors to the fan-out with the
     * scenario "CANCEL", which the fan-out does not handle: no call is
     * issued.
     */
    method CancelAppointment(id: nat, reason: Option<string>, actor: User, rh: seq<User>, now: Instant)
      returns (r: Result<AppointmentRecord>, calls: seq<FanOut.ChannelCall>)
      requires Valid()
      modifies this
      ensures Valid() && nextId == old(nextId)
      ensures calls == []
      ensures id !in old(appointments) ==> r == Err(NotFound)
      ensures id in old(appointments) ==> r == Cancelled(old(appointments)[id], actor, reason, now)
      ensures r.Err? ==> appointments == old(appointments)
      ensures r.Ok? ==> appointments == old(appointments)[id := r.value]
    {
      calls := [];
      if id !in appointments {
        return Err(NotFound), calls;
      }
      r := Cancelled(appointments[id], actor, reason, now);
      if r.Err? {
        return;
      }
      appointments := appointments[id := r.value];
      var actors := AllActorsToNotify(r.value, rh);
      calls := FanOut.NotifyUsers(Lift(actors), r.value, "CANCEL", reason);
      FanOut.CancelIsSilent(Lift(actors), r.value, reason);
    }

    /** updateAppointmentStatus, notifying every actor with STATUS_UPDATE. */
    method UpdateAppointmentStatus(id: nat, status: AppointmentStatus, notes: Option<string>, rh: seq<User>, now: Instant)
      returns (r: Result<AppointmentRecord>, calls: seq<FanOut.ChannelCall>)
      requires Valid()
      modifies this
      ensures Valid() && nextId == old(nextId)
      ensures id !in old(appointments) ==> r == Err(NotFound) && appointments == old(appointments) && calls == []
      ensures id in old(appointments) ==>
        r == Ok(StatusUpdated(old(appointments)[id], status, notes, now)) &&
        appointments == old(appointments)[id := r.value] &&
        calls == FanOut.ScenarioCalls(Lift(ActorsOf(r.value, rh)), r.value, "STATUS_UPDATE", None)
    {
      calls := [];
      if id !in appointments {
        return Err(NotFound), calls;
      }
      var b := StatusUpdated(appointments[id], status, notes, now);
      appointments := appointments[id := b];
      var actors := AllActorsToNotify(b, rh);
      calls := FanOut.NotifyUsers(Lift(actors), b, "STATUS_UPDATE", None);
      r := Ok(b);
    }

    /** updateAppointment: both lookups happen before any write; nobody is notified. */
    method UpdateAppointment(id: nat, req: AppointmentRequest, employees: map<nat, Employee>, now: Instant)
      returns (r: Result<AppointmentRecord>)
      requires Valid()
      modifies this
      ensures Valid() && nextId == old(nextId)
      ensures id !in old(appointments) || req.employeeId !in employees ==>
        r == Err(NotFound) && appointments == old(appointments)
      ensures id in old(appointments) && req.employeeId in employees ==>
        r == Ok(Updated(old(appointments)[id], employees[req.employeeId], req, now)) &&
        appointments == old(appointments)[id := r.value]
    {
      if id !in appointments || req.employeeId !in employees {
        return Err(NotFound);
      }
      var b := Updated(appointments[id], employees[req.employeeId], req, now);
      appointments := appointments[id := b];
      r := Ok(b);
    }
  }

  /**
   * Creation with anyone to notify always fails: the new row is undated,
   * so the first in-app notice throws and the save is rolled back.
   */
  lemma CreationFailsWhenAnyoneIsNotified(id: nat, e: Employee, req: AppointmentRequest, actor: User, rh: seq<User>, now: Instant)
    ensures var saved := Requested(id, e, req, actor.email, now);
      FanOut.FirstThrow(FanOut.ScenarioCalls(Lift(ActorsOf(saved, rh)), saved, "CREATION", None)).Some? <==>
      |ActorsOf(saved, rh)| > 0
    ensures e.user.Some? || |rh| > 0 ==> |ActorsOf(Requested(id, e, req, actor.email, now), rh)| > 0
  {
    var saved := Requested(id, e, req, actor.email, now);
    FanOut.CreationThrowsFirst(Lift(ActorsOf(saved, rh)), saved, "CREATION", None);
    NonNullLift(ActorsOf(saved, rh));
    DistinctSpec(ActorList(saved, rh));
    if e.user.Some? {
      assert e.user.value in ActorList(saved, rh);
    } else if |rh| > 0 {
      assert rh[0] in ActorList(saved, rh);
    }
  }
}
