/**
 * Entities and value types shared by the appointment workflow, the
 * notification channels and the account flows.
 *
 * Java references that may be null become `Option`; timestamps
 * (`LocalDateTime`, `System.currentTimeMillis()`) become an `Instant`
 * counted in milliseconds; exceptions become the `Failure` values below.
 */
module Domain {

  datatype Option<+T> = None | Some(value: T)

  /** The exceptions the core throws and lets propagate. */
  datatype Failure =
    | NotFound       // ResourceNotFoundException
    | Unauthorized   // UnauthorizedException
    | IllegalState   // IllegalStateException
    | NullPointer    // an unguarded dereference of a null field
    | UnknownRole    // the RuntimeException of a role name that names no role
    | IllegalArgument // IllegalArgumentException

  datatype Result<+T> = Ok(value: T) | Err(error: Failure)

  /** The outcome of a `void` operation that may throw. */
  datatype Outcome = Done | Failed(error: Failure)

  /** Milliseconds on the server clock. */
  type Instant = int

  /** The ERole constants the core refers to. */
  datatype Role = RoleAdmin | RoleRh | RoleInfirmier | RoleMedecin | RoleSalarie

  datatype User = User(
    id: nat,
    email: string,
    username: string,
    phone: Option<string>,
    password: string,          // the encoded password
    roles: set<Role>,
    active: bool)

  /** `userHasRole`: some role of the user carries that name. */
  predicate HasRole(u: User, r: Role)
  {
    r in u.roles
  }

  /** An employee profile; `manager1` is the N+1, `manager2` the N+2. */
  datatype Employee = Employee(
    id: nat,
    firstName: string,
    lastName: string,
    user: Option<User>,
    manager1: Option<Employee>,
    manager2: Option<Employee>)

  datatype AppointmentStatus = Demande | Propose | Confirme | Reporte | Annule | Termine

  datatype NotificationType =
    | Appointment | Message | Alert | Document | Reminder | Validation
    | Info | Accident | Dosimeter | Exposure | Report | Other

  /** Visit types are opaque names here. */
  type VisitType = string

  /** The persisted state of one appointment row. */
  datatype AppointmentRecord = AppointmentRecord(
    id: nat,
    employee: Option<Employee>,
    kind: Option<VisitType>,
    status: AppointmentStatus,
    requestedDate: Option<Instant>,
    proposedDate: Option<Instant>,
    appointmentDate: Option<Instant>,
    motif: Option<string>,
    reason: Option<string>,
    notes: Option<string>,
    location: Option<string>,
    isObligatory: Option<bool>,
    createdBy: Option<string>,
    createdAt: Option<Instant>,
    updatedAt: Option<Instant>,
    nurse: Option<User>,
    doctor: Option<User>)

  /** `appointment.getEmployee().getUser()` guarded against null at both steps. */
  function EmployeeUser(a: AppointmentRecord): Option<User>
  {
    if a.employee.Some? then a.employee.value.user else None
  }

  /** The user of the employee's N+1 (k = 1) or N+2 (k = 2), when both links are set. */
  function ManagerUser(a: AppointmentRecord, k: nat): Option<User>
    requires k == 1 || k == 2
  {
    if a.employee.None? then None
    else
      var m := if k == 1 then a.employee.value.manager1 else a.employee.value.manager2;
      if m.Some? then m.value.user else None
  }

  /** Java's `String.trim().isEmpty()`: trim drops every character up to U+0020. */
  predicate IsBlank(s: string)
  {
    forall i :: 0 <= i < |s| ==> s[i] <= ' '
  }

  /** `s != null && !s.trim().isEmpty()` */
  predicate HasText(s: Option<string>)
  {
    s.Some? && !IsBlank(s.value)
  }

  /** Java string concatenation renders a null reference as "null". */
  function JavaString(s: Option<string>): string
  {
    if s.Some? then s.value else "null"
  }
}
