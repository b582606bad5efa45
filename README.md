# OSHapp back end: appointments, notifications and account flows in Dafny

OSHapp is an occupational-health application. Employees (`ROLE_SALARIE`)
request medical appointments. Nurses (`ROLE_INFIRMIER`) and doctors
(`ROLE_MEDECIN`) propose slots. Employees confirm, reschedule or cancel.
HR (`ROLE_RH`) sees everything. Every step may notify the people
concerned on three channels: in-app, e-mail and SMS. The account module
handles password changes, password-reset tokens and e-mail activation
codes, with a one-minute rate limit per address. The admin controller
creates users, tells HR about each new account, and patches users field
by field.

The model covers the following parts. Each module is one source file.

- `Domain` (`domain.dfy`): the entities as values. Users, employees with
  their N+1 and N+2 managers, and appointment rows. Nullable columns are
  `Option`. An instant is an integer count of milliseconds.
- `AppointmentWorkflow` (`appointment_service.dfy`): `AppointmentService`.
  - The field updates of each operation are pure record transitions.
  - The service is a class over the table of rows.
  - Each method is proved against its transition and against the list of
    notification calls it emits.
  - The role dispatch of the three read operations is modelled over the
    queries.
- `AppointmentQueries` (`appointment_repository.dfy`): the JPQL queries,
  including null-parameter filters and `ORDER BY`.
- `FanOut` (`multi_channel.dfy`): `MultiChannelNotificationService`.
  - A notification is a trace of channel calls.
  - A separate delivery step plays a trace onto the three channel
    objects. It stops at the first call that throws.
- `InAppNotifications`, `EmailChannel`, `SmsChannel`: the three channel
  services. Each is a class whose store, outbox or sent list grows.
- `PasswordPolicy`: the regular-expression password rule.
- `ActivationCodes`: the activation-code table with its upsert.
- `AccountFlows` (`account_controller.dfy`): the account controller.
  - Change password.
  - The two rate-limit maps.
  - Reset tokens.
  - Activation codes.
  - Each `@Transactional` endpoint rolls its table writes back when the
    mail transport throws. The static rate maps are not rolled back.
- `AdminUsers` (`admin_controller.dfy`): user creation and its notice to
  every HR user, plus the partial update of a user.

Java `null` string concatenation is rendered as `"null"`.
`trim().isEmpty()` is modelled as "every character is at most U+0020".
`isBefore(now)` is `expiry < now`. A `RuntimeException` is an `Err` or
`Failed` value that carries the exception's kind.

## Model

| member | source | states |
|---|---|---|
| PasswordPolicy.IsValid | src/main/java/com/ohse/OSHapp/controller/PasswordPolicy.java:4-11 | A password is valid iff it is non-null, has at least 8 UTF-16 units, contains no line terminator (so `.*` spans it), and contains an upper-case letter, a digit and a character outside `[A-Za-z0-9]`. |
| PasswordPolicy.MatchesAroundSpec | src/main/java/com/ohse/OSHapp/controller/PasswordPolicy.java:7-9 | The whole-string match of `.*[X].*` holds iff no character is a line terminator and some character is in class X. |
| PasswordPolicy.Utf16Length | src/main/java/com/ohse/OSHapp/controller/PasswordPolicy.java:6 | `length()` counts UTF-16 units, never fewer than the code points. |
| PasswordPolicy.Utf16LengthBmp | src/main/java/com/ohse/OSHapp/controller/PasswordPolicy.java:6 | On text without supplementary characters, the UTF-16 length is the character count. |
| PasswordPolicy.LineTerminatorRejected | src/main/java/com/ohse/OSHapp/controller/PasswordPolicy.java:7-9 | Any password containing `\n`, `\r`, U+0085, U+2028 or U+2029 is refused. |
| PasswordPolicy.EachClassRequired | src/main/java/com/ohse/OSHapp/controller/PasswordPolicy.java:7-9 | A password with no character of one of the three required classes is refused. |
| PasswordPolicy.NewlineExample | src/main/java/com/ohse/OSHapp/controller/PasswordPolicy.java:7-9 | "Passw0rd!" followed by a newline is refused, although it satisfies every class. |
| AccountFlows.ChangePassword | src/main/java/com/ohse/OSHapp/controller/AccountController.java:42-88 | 400 unless both passwords are non-empty and differ. The current password is verified only then: 500 if verification throws, 403 if it is wrong. The policy is consulted only after a good verification, and 400 follows when it fails. The identity provider is changed iff the policy holds. 200 implies the change was made with a valid, different password. |
| AccountFlows.StampCoversAdmitted | src/main/java/com/ohse/OSHapp/controller/AccountController.java:97-103 | After a run of requests in time order, every admitted request's address holds a stamp no earlier than that request. |
| AccountFlows.AdmittedAreSpaced | src/main/java/com/ohse/OSHapp/controller/AccountController.java:97-103 | Two admitted requests for the same address are at least 60000 ms apart. |
| AccountFlows.WindowIsOneMinute | src/main/java/com/ohse/OSHapp/controller/AccountController.java:100 | A request 59999 ms after the stamp is refused. One 60000 ms after is admitted. |
| AccountFlows.Decimal | src/main/java/com/ohse/OSHapp/controller/AccountController.java:180 | `String.valueOf` of a natural is a non-empty digit string with no leading zero. |
| AccountFlows.DecimalRoundTrip | src/main/java/com/ohse/OSHapp/controller/AccountController.java:180 | Reading the decimal text back gives the number. |
| AccountFlows.DecimalLength | src/main/java/com/ohse/OSHapp/controller/AccountController.java:179-180 | A number in [10^(k-1), 10^k) prints as k digits. |
| AccountFlows.ActivationCodeOf | src/main/java/com/ohse/OSHapp/controller/AccountController.java:179-180 | For any draw below 900000, the code is six digits, does not start with 0, and reads back as 100000 + draw. |
| AccountFlows.ActivationCodesDistinct | src/main/java/com/ohse/OSHapp/controller/AccountController.java:179-180 | Distinct draws give distinct codes. |
| AccountFlows.JudgeCode | src/main/java/com/ohse/OSHapp/controller/AccountController.java:200-215 | Four outcomes, each an iff. No row. Code mismatch. Spent (used, or expiry before now). Accepted (matching, unused, not yet expired). |
| AccountFlows.UsedCodeIsSpent | src/main/java/com/ohse/OSHapp/controller/AccountController.java:211-218 | Once an accepted code is marked used, presenting it again is judged spent. |
| AccountFlows.FreshCodeLifetime | src/main/java/com/ohse/OSHapp/controller/AccountController.java:179-183 | A freshly upserted code is accepted at every instant up to issue + 10 min and spent after it. |
| AccountFlows.WithoutEmail | src/main/java/com/ohse/OSHapp/controller/AccountController.java:105 | `deleteByEmail` removes exactly the tokens of that address and keeps the others unchanged. |
| AccountFlows.AccountController.constructor | src/main/java/com/ohse/OSHapp/controller/AccountController.java:26-39 | Both rate maps and the token table start empty. |
| AccountFlows.AccountController.ForgotPassword | src/main/java/com/ohse/OSHapp/controller/AccountController.java:92-127 | 400 on a missing or empty address. 429 within the window, with nothing changed. Otherwise the stamp is set to now. The address's old tokens are replaced by one token expiring at now + 30 min. A mail failure rolls the tokens back but keeps the stamp. The activation map is never touched. |
| AccountFlows.AccountController.ResetPassword | src/main/java/com/ohse/OSHapp/controller/AccountController.java:131-161 | 400 on missing input. 403 on an unknown token. 403 on an expired token, which is deleted. 404 when the identity provider knows no user. 400 on a policy failure. 500 when the change throws. 200 only for a valid password, and the token is then consumed. |
| AccountFlows.AccountController.SendActivationCode | src/main/java/com/ohse/OSHapp/controller/AccountController.java:165-189 | 400 on a missing address. 429 within the window. Otherwise the stamp is set and the address's row is upserted with `ActivationCodeOf(draw)`, expiring at now + 10 min. A mail failure rolls the row back but keeps the stamp. |
| AccountFlows.AccountController.VerifyActivationCode | src/main/java/com/ohse/OSHapp/controller/AccountController.java:193-233 | 400 on missing input. 403 when there is no row or the code differs. 403 when the code is spent, and the row is deleted. Otherwise the row is marked used. Then 404 for an unknown user, 500 when the provider throws, and 200 otherwise. |
| ActivationCodes.RowFor | src/main/java/com/ohse/OSHapp/repository/ActivationCodeRepository.java:16 | `findByEmail` finds a row iff the address has one, and returns that row. |
| ActivationCodes.ActivationCodeRepository.constructor | src/main/java/com/ohse/OSHapp/repository/ActivationCodeRepository.java:14 | The table starts empty and well formed. |
| ActivationCodes.ActivationCodeRepository.FindByEmail | src/main/java/com/ohse/OSHapp/repository/ActivationCodeRepository.java:16 | Returns the row stored under the address, and only when there is one. |
| ActivationCodes.ActivationCodeRepository.Upsert | src/main/java/com/ohse/OSHapp/repository/ActivationCodeRepository.java:21-25 | Afterwards the address has exactly one row, holding the new code and expiry, marked unused. An existing row keeps its id. A new row gets a fresh id. Every other row is unchanged. |
| ActivationCodes.ActivationCodeRepository.DeleteByEmail | src/main/java/com/ohse/OSHapp/repository/ActivationCodeRepository.java:17-19 | The address's row is gone. Every other row is unchanged. |
| ActivationCodes.ActivationCodeRepository.Delete | src/main/java/com/ohse/OSHapp/controller/AccountController.java:212 | Removes the entity's row when its id still matches, and changes nothing otherwise. |
| ActivationCodes.ActivationCodeRepository.MarkUsed | src/main/java/com/ohse/OSHapp/controller/AccountController.java:217-218 | The row is replaced by the same row marked used. |
| ActivationCodes.ActivationCodeRepository.Restore | src/main/java/com/ohse/OSHapp/controller/AccountController.java:164 | A rollback returns the rows to the snapshot. Identity values already drawn stay drawn. |
| AppointmentQueries.Select | src/main/java/com/oshapp/backend/repository/AppointmentRepository.java:18-43 | A WHERE clause keeps exactly the rows satisfying it, and no more rows than the table has. |
| AppointmentQueries.FindByEmployeeUserId | src/main/java/com/oshapp/backend/repository/AppointmentRepository.java:21-22 | A row is returned iff its employee's user has the id. A row with a null employee or user never is. |
| AppointmentQueries.FindByEmployeeUserIdAndStatus | src/main/java/com/oshapp/backend/repository/AppointmentRepository.java:24-25 | Rows owned by the user and in the status, both required. |
| AppointmentQueries.AndStatusIsConjunction | src/main/java/com/oshapp/backend/repository/AppointmentRepository.java:21-25 | The two-condition query equals filtering the one-condition result by status, in the same order. |
| AppointmentQueries.FindByMedicalStaff | src/main/java/com/oshapp/backend/repository/AppointmentRepository.java:30-31 | A row is returned iff its nurse or its doctor has the id. |
| AppointmentQueries.FindWithFilters | src/main/java/com/oshapp/backend/repository/AppointmentRepository.java:33-43 | A row is returned iff each non-null filter holds: status, employee id, and inclusive date bounds. |
| AppointmentQueries.NoFiltersSelectsAll | src/main/java/com/oshapp/backend/repository/AppointmentRepository.java:33-43 | With every parameter null, the whole table is returned in order. |
| AppointmentQueries.DateBounds | src/main/java/com/oshapp/backend/repository/AppointmentRepository.java:33-43 | An undated row passes only when both bounds are null. A dated row passes iff it lies within the given bounds. |
| AppointmentQueries.BoundsInclusive | src/main/java/com/oshapp/backend/repository/AppointmentRepository.java:33-43 | A row dated exactly on both bounds is returned. |
| AppointmentQueries.BoundedResultsDated | src/main/java/com/oshapp/backend/repository/AppointmentRepository.java:33-43 | With any date bound given, every returned row has a date. |
| AppointmentQueries.InsertByDate | src/main/java/com/oshapp/backend/repository/AppointmentRepository.java:27 | Inserting into a date-sorted list keeps it sorted and adds exactly that row. |
| AppointmentQueries.SortByDate | src/main/java/com/oshapp/backend/repository/AppointmentRepository.java:27 | `ORDER BY appointmentDate ASC` gives a sorted permutation of its input. |
| AppointmentQueries.PermutationDated | src/main/java/com/oshapp/backend/repository/AppointmentRepository.java:27 | Reordering dated rows leaves them dated. |
| AppointmentQueries.FindUpcomingByEmployeeUserId | src/main/java/com/oshapp/backend/repository/AppointmentRepository.java:27-28 | Exactly the user's rows dated at or after now, all dated, sorted ascending, none lost or repeated. |
| AppointmentWorkflow.CreatePermission | src/main/java/com/oshapp/backend/service/AppointmentService.java:307-317 | An employee may book only for themselves, and the check throws a NullPointerException when the target employee has no user. RH, nurses and doctors may book for anyone. Anyone else is refused. |
| AppointmentWorkflow.CanCancel | src/main/java/com/oshapp/backend/service/AppointmentService.java:273-284 | An employee may cancel only their own appointment. Otherwise RH, nurse or doctor may cancel. |
| AppointmentWorkflow.AdminAloneIsRefused | src/main/java/com/oshapp/backend/service/AppointmentService.java:307-317 | A user whose only role is admin can neither create nor cancel. |
| AppointmentWorkflow.Requested | src/main/java/com/oshapp/backend/service/AppointmentService.java:46-58 | A new request is in DEMANDE, carries the request's fields, the creator and the timestamps, and has no proposed or appointment date and no staff. |
| AppointmentWorkflow.Proposed | src/main/java/com/oshapp/backend/service/AppointmentService.java:171-184 | Status PROPOSE with the proposed date and location. The acting nurse, or else the acting doctor, is assigned. Notes are replaced only when given. No other field changes. |
| AppointmentWorkflow.Confirmed | src/main/java/com/oshapp/backend/service/AppointmentService.java:223-247 | IllegalState iff there is no proposed date. Otherwise CONFIRME, with the appointment date set to the proposed date. Non-blank notes are appended. No other field changes. |
| AppointmentWorkflow.Rescheduled | src/main/java/com/oshapp/backend/service/AppointmentService.java:250-265 | Status REPORTE with the new motif. No other field changes. |
| AppointmentWorkflow.Cancelled | src/main/java/com/oshapp/backend/service/AppointmentService.java:268-305 | Unauthorized iff the actor may not cancel. IllegalState iff the actor may cancel but the appointment is TERMINE. Otherwise ANNULE, with a non-blank reason appended to the notes. |
| AppointmentWorkflow.StatusUpdated | src/main/java/com/oshapp/backend/service/AppointmentService.java:113-130 | Any status may be set. Non-blank notes are appended after a newline, and null prior notes print as "null". No other field changes. |
| AppointmentWorkflow.Updated | src/main/java/com/oshapp/backend/service/AppointmentService.java:94-111 | Employee, type, appointment date, reason, notes and location are overwritten, nulls included. Status and the other fields are kept. |
| AppointmentWorkflow.UpdateBypassesConfirmation | src/main/java/com/oshapp/backend/service/AppointmentService.java:94-111 | A generic update can leave a CONFIRME appointment with an appointment date that differs from its proposed date. |
| AppointmentWorkflow.DistinctSpec | src/main/java/com/oshapp/backend/service/AppointmentService.java:384 | `distinct()` keeps every element, drops repeats, and preserves first-occurrence order. |
| AppointmentWorkflow.ActorListMembers | src/main/java/com/oshapp/backend/service/AppointmentService.java:362-382 | A user is in the raw actor list iff they are the employee's user, nurse, doctor, an RH user, or the N+1 or N+2 manager's user. |
| AppointmentWorkflow.AllActorsToNotify | src/main/java/com/oshapp/backend/service/AppointmentService.java:362-385 | The result holds exactly the actors, with no repeats, in first-seen order. |
| AppointmentWorkflow.ActorsOfSpec | src/main/java/com/oshapp/backend/service/AppointmentService.java:362-385 | The same facts about the function that specifies the method. |
| AppointmentWorkflow.ProposalManagersOk | src/main/java/com/oshapp/backend/service/AppointmentService.java:208-217 | The proposal's manager notices never throw, because the managers are drawn from the employee. |
| AppointmentWorkflow.ProposalRecipients | src/main/java/com/oshapp/backend/service/AppointmentService.java:202-217 | A proposal only addresses the employee's user and the managers, and only the employee receives an SMS. |
| AppointmentWorkflow.NonNullManagers | src/main/java/com/oshapp/backend/service/AppointmentService.java:208-216 | Every notified manager is the N+1's or the N+2's user. |
| AppointmentWorkflow.VisibleAppointments | src/main/java/com/oshapp/backend/service/AppointmentService.java:75-92 | An employee sees their own rows. Otherwise nurses and doctors see the rows they staff. Everyone else sees the filtered table. |
| AppointmentWorkflow.MyAppointments | src/main/java/com/oshapp/backend/service/AppointmentService.java:139-151 | The actor's rows, restricted to the status when one is given. |
| AppointmentWorkflow.UpcomingAppointments | src/main/java/com/oshapp/backend/service/AppointmentService.java:153-160 | The actor's rows dated at or after now, sorted by date. |
| AppointmentWorkflow.AppointmentService.constructor | src/main/java/com/oshapp/backend/service/AppointmentService.java:30-35 | The table starts empty. |
| AppointmentWorkflow.AppointmentService.CreateAppointment | src/main/java/com/oshapp/backend/service/AppointmentService.java:37-67 | NotFound for an unknown employee, and Unauthorized or NullPointer from the permission check. Otherwise the `Requested` row is saved and the CREATION fan-out to the actors is run. If a call throws, the save is rolled back and the exception is returned, but the identity value drawn for the row stays drawn. |
| AppointmentWorkflow.CreationFailsWhenAnyoneIsNotified | src/main/java/com/oshapp/backend/service/AppointmentService.java:60-64 | A just-created row has no appointment date, so its CREATION fan-out throws at its first recipient. There is at least one recipient whenever the employee has a user or any RH user exists. |
| AppointmentWorkflow.AppointmentService.ProposeAppointmentSlot | src/main/java/com/oshapp/backend/service/AppointmentService.java:163-220 | NotFound, then Unauthorized for non-medical staff, with nothing changed. Otherwise the row becomes `Proposed`, the employee gets the status trio and each manager gets a notice and a mail. |
| AppointmentWorkflow.AppointmentService.ConfirmAppointment | src/main/java/com/oshapp/backend/service/AppointmentService.java:223-247 | The result is `Confirmed` of the stored row. On success the row is stored and the CONFIRMATION fan-out reaches every actor. |
| AppointmentWorkflow.AppointmentService.RescheduleAppointment | src/main/java/com/oshapp/backend/service/AppointmentService.java:250-265 | The row becomes `Rescheduled`, and the RESCHEDULE fan-out with the motif reaches every actor. |
| AppointmentWorkflow.AppointmentService.CancelAppointment | src/main/java/com/oshapp/backend/service/AppointmentService.java:268-305 | The result is `Cancelled` of the stored row. It is stored on success. No notification call is made, because the CANCEL scenario is unknown to the fan-out. |
| AppointmentWorkflow.AppointmentService.UpdateAppointmentStatus | src/main/java/com/oshapp/backend/service/AppointmentService.java:113-130 | The row becomes `StatusUpdated`, and the STATUS_UPDATE fan-out reaches every actor. |
| AppointmentWorkflow.AppointmentService.UpdateAppointment | src/main/java/com/oshapp/backend/service/AppointmentService.java:94-111 | NotFound for an unknown row or employee, with nothing changed. Otherwise the row becomes `Updated`. No notification is sent. |
| FanOut.UserCallsShape | src/main/java/com/oshapp/backend/service/MultiChannelNotificationService.java:188-211 | Each known scenario makes exactly one in-app, one e-mail and one SMS call for the user. An unknown scenario makes none. |
| FanOut.NotifyUsers | src/main/java/com/oshapp/backend/service/MultiChannelNotificationService.java:184-213 | The loop emits exactly the scenario's calls for each non-null user, in list order. |
| FanOut.NotifyAllActors | src/main/java/com/oshapp/backend/service/MultiChannelNotificationService.java:96-104 | Null actors are skipped, and each other actor gets the new-appointment trio, in order. |
| FanOut.ScenarioCallsSkipNulls | src/main/java/com/oshapp/backend/service/MultiChannelNotificationService.java:186-187 | The calls for a list with nulls are the calls for the list with the nulls removed. |
| FanOut.CallsOfUsersLayout | src/main/java/com/oshapp/backend/service/MultiChannelNotificationService.java:186-211 | The j-th user's three calls sit at positions 3j to 3j+2. |
| FanOut.ScenarioLayout | src/main/java/com/oshapp/backend/service/MultiChannelNotificationService.java:184-213 | For a known scenario there are three calls per non-null user, in list order. |
| FanOut.UnknownScenarioSilent | src/main/java/com/oshapp/backend/service/MultiChannelNotificationService.java:209-210 | An unknown scenario notifies nobody. |
| FanOut.CancelIsSilent | src/main/java/com/oshapp/backend/service/MultiChannelNotificationService.java:209-210 | "CANCEL" is not a case, so a cancellation notifies nobody. |
| FanOut.StatusUpdateIsConfirmation | src/main/java/com/oshapp/backend/service/MultiChannelNotificationService.java:192-197 | STATUS_UPDATE and CONFIRMATION emit the same calls. |
| FanOut.OnlyCreationFormatsDate | src/main/java/com/oshapp/backend/service/MultiChannelNotificationService.java:189-191 | Only CREATION issues the in-app notice that formats the appointment date. |
| FanOut.FirstThrow | src/main/java/com/oshapp/backend/service/MultiChannelNotificationService.java:184-213 | Finds the first call that throws, or reports that none does. |
| FanOut.CreationThrowsFirst | src/main/java/com/oshapp/backend/service/MultiChannelNotificationService.java:189-191 | A trace throws iff it holds a CREATION notice for an undated row. The first throw is then the first user's in-app call. |
| FanOut.NotifyManagersOfProposal | src/main/java/com/oshapp/backend/service/MultiChannelNotificationService.java:110-125 | The loop's result is `ManagerCalls`: a notice and a status mail per non-null manager, or a NullPointer when the employee is null. |
| FanOut.ManagerCallsErrSticks | src/main/java/com/oshapp/backend/service/MultiChannelNotificationService.java:113-124 | Once a prefix has thrown, later managers change nothing. |
| FanOut.ManagerCallsSpec | src/main/java/com/oshapp/backend/service/MultiChannelNotificationService.java:110-125 | It throws iff the employee is null and some manager is non-null. Otherwise there are two calls per manager and never an SMS. |
| FanOut.SendBulkObligatoryAppointments | src/main/java/com/oshapp/backend/service/MultiChannelNotificationService.java:81-87 | The loop pairs users and appointments up to the shorter list. |
| FanOut.BulkPairing | src/main/java/com/oshapp/backend/service/MultiChannelNotificationService.java:84-86 | Three calls per pair, and the i-th block is the obligatory trio of the i-th user and the i-th appointment. |
| FanOut.RunRows | src/main/java/com/oshapp/backend/service/NotificationService.java:28-89 | A run of n calls keeps every earlier row. It stores the k-th notice of those calls under id nextId + k and creates no other row. The next id advances by the number of notices. |
| FanOut.RunMails | src/main/java/com/oshapp/backend/service/MultiChannelNotificationService.java:184-213 | A run of n calls appends to the outbox exactly the mails of those calls, in order. |
| FanOut.RunTexts | src/main/java/com/oshapp/backend/service/MultiChannelNotificationService.java:184-213 | A run of n calls appends to the sent list exactly the texts of those calls, in order. |
| FanOut.NoticesUnread | src/main/java/com/oshapp/backend/service/NotificationService.java:28-89 | Every notice the first n calls create is unread and belongs to the addressee of one of those in-app calls. |
| FanOut.Performed | src/main/java/com/oshapp/backend/service/MultiChannelNotificationService.java:184-213 | The calls that complete form a prefix of the trace, and none of them throws. |
| FanOut.Perform | src/main/java/com/oshapp/backend/service/MultiChannelNotificationService.java:24-75 | One call on its channel. A throwing call fails with NullPointer and leaves the store untouched. Otherwise the channels take one `Step`: the call's notice is stored under the next id, and its mail and text are appended. |
| FanOut.DeliverUntilThrow | src/main/java/com/oshapp/backend/service/MultiChannelNotificationService.java:186-212 | Runs calls until the first throw. The channels then equal `Run` over the calls before it. |
| FanOut.Deliver | src/main/java/com/oshapp/backend/service/MultiChannelNotificationService.java:184-213 | Fails iff some call throws. The store, outbox and sent list then equal `Run` over exactly the calls before the first throw. |
| InAppNotifications.StatusMessageInjective | src/main/java/com/oshapp/backend/service/NotificationService.java:45-53 | Each status has its own in-app message. |
| InAppNotifications.AppointmentNotice | src/main/java/com/oshapp/backend/service/NotificationService.java:28-42 | Throws a NullPointer iff the appointment has no date. Otherwise it is an unread APPOINTMENT notice for the user, linked to the appointment. |
| InAppNotifications.StatusNotice | src/main/java/com/oshapp/backend/service/NotificationService.java:44-66 | An unread APPOINTMENT notice for the user, carrying the status's message and linked to the appointment. |
| InAppNotifications.GeneralNotice | src/main/java/com/oshapp/backend/service/NotificationService.java:68-78 | An unread notice with the given title, message and type, linked to nothing. |
| InAppNotifications.InfoNotice | src/main/java/com/oshapp/backend/service/NotificationService.java:80-89 | An unread INFO notice with the given title and message, linked to nothing. |
| InAppNotifications.MarkRead | src/main/java/com/oshapp/backend/service/NotificationService.java:107-117 | NotFound iff the id is absent. Unauthorized iff it belongs to someone else. Otherwise only that row becomes read. |
| InAppNotifications.MarkAllRead | src/main/java/com/oshapp/backend/service/NotificationService.java:119-123 | Every row of the user becomes read, and their unread count drops to 0. Other users' rows are unchanged. |
| InAppNotifications.Delete | src/main/java/com/oshapp/backend/service/NotificationService.java:125-134 | NotFound and Unauthorized as for marking. Otherwise exactly that row is removed. |
| InAppNotifications.MarkReadDecrementsCount | src/main/java/com/oshapp/backend/service/NotificationService.java:103-117 | Marking one's own unread notice succeeds and lowers one's unread count by exactly one. |
| InAppNotifications.OtherUsersCountUnchanged | src/main/java/com/oshapp/backend/service/NotificationService.java:103-134 | Marking, marking all and deleting never change another user's unread count. |
| InAppNotifications.NotificationStore.constructor | src/main/java/com/oshapp/backend/service/NotificationService.java:24-26 | The store starts empty. |
| InAppNotifications.NotificationStore.Save | src/main/java/com/oshapp/backend/service/NotificationService.java:41 | The notice is stored under a fresh id, and nothing else changes. |
| InAppNotifications.NotificationStore.SendAppointmentNotification | src/main/java/com/oshapp/backend/service/NotificationService.java:28-42 | Fails with nothing stored iff the appointment is undated. Otherwise one `AppointmentNotice` is stored. |
| InAppNotifications.NotificationStore.SendAppointmentStatusNotification | src/main/java/com/oshapp/backend/service/NotificationService.java:44-66 | One `StatusNotice` is stored. |
| InAppNotifications.NotificationStore.SendGeneralNotification | src/main/java/com/oshapp/backend/service/NotificationService.java:68-78 | One `GeneralNotice` is stored. |
| InAppNotifications.NotificationStore.CreateNotification | src/main/java/com/oshapp/backend/service/NotificationService.java:80-89 | One `InfoNotice` is stored. |
| InAppNotifications.NotificationStore.MarkAsRead | src/main/java/com/oshapp/backend/service/NotificationService.java:107-117 | Follows `MarkRead`: on error nothing changes, on success the rows are its result. |
| InAppNotifications.NotificationStore.MarkAllAsRead | src/main/java/com/oshapp/backend/service/NotificationService.java:119-123 | The loop over the user's unread rows leaves exactly `MarkAllRead` of the old rows. |
| InAppNotifications.NotificationStore.DeleteNotification | src/main/java/com/oshapp/backend/service/NotificationService.java:125-134 | Follows `Delete`: on error nothing changes, on success the rows are its result. |
| EmailChannel.StatusMessagesAgree | src/main/java/com/oshapp/backend/service/EmailService.java:140-148 | The e-mail status sentence equals the in-app message for every status. |
| EmailChannel.NotesLine | src/main/java/com/oshapp/backend/service/EmailService.java:174 | Empty without notes. Otherwise "Notes : " followed by the notes. |
| EmailChannel.BuildBody | src/main/java/com/oshapp/backend/service/EmailService.java:106-207 | Throws NullPointer iff the appointment is undated. Otherwise the body of the requested kind addresses the username, at the appointment date. |
| EmailChannel.Delivered | src/main/java/com/oshapp/backend/service/EmailService.java:29-49 | At most one mail. None when e-mail is disabled or the date is missing. A sent mail goes from the configured sender to the user's address, with the kind's subject and body. A refused send is swallowed. |
| EmailChannel.PairsPaired | src/main/java/com/oshapp/backend/service/EmailService.java:101-103 | Every bulk mail is the obligatory mail of some i-th user and i-th appointment. |
| EmailChannel.PairsComplete | src/main/java/com/oshapp/backend/service/EmailService.java:101-103 | Each pair that can be sent and is not refused appears in the bulk outbox. |
| EmailChannel.BulkPairing | src/main/java/com/oshapp/backend/service/EmailService.java:95-104 | Nothing when disabled. At most one mail per pair up to the shorter list, each the obligatory mail of its pair. |
| EmailChannel.EmailService.Default | src/main/java/com/oshapp/backend/service/EmailService.java:23-27 | By default e-mail is enabled and sent from noreply@oshapp.com. |
| EmailChannel.EmailService.constructor | src/main/java/com/oshapp/backend/service/EmailService.java:23-27 | Takes the configured flag and sender. |
| EmailChannel.EmailService.Send | src/main/java/com/oshapp/backend/service/EmailService.java:29-49 | The outbox grows by exactly `Delivered`. |
| EmailChannel.EmailService.SendAppointmentNotification | src/main/java/com/oshapp/backend/service/EmailService.java:29-49 | Appends the new-appointment mail, when it is sent. |
| EmailChannel.EmailService.SendAppointmentStatusNotification | src/main/java/com/oshapp/backend/service/EmailService.java:51-71 | Appends the status mail, when it is sent. |
| EmailChannel.EmailService.SendObligatoryAppointmentNotification | src/main/java/com/oshapp/backend/service/EmailService.java:73-93 | Appends the obligatory-visit mail, when it is sent. |
| EmailChannel.EmailService.SendBulkObligatoryAppointments | src/main/java/com/oshapp/backend/service/EmailService.java:95-104 | The loop appends exactly `BulkDelivered`. |
| SmsChannel.LowerAscii | src/main/java/com/oshapp/backend/service/SmsService.java:70 | `toLowerCase` keeps the length and lowers each character. |
| SmsChannel.ProviderOf | src/main/java/com/oshapp/backend/service/SmsService.java:68-82 | "twilio" and "nexmo", in any case, select their provider. Anything else is the mock. |
| SmsChannel.ProviderIgnoresCase | src/main/java/com/oshapp/backend/service/SmsService.java:70 | Names equal up to case select the same provider. |
| SmsChannel.DefaultIsMock | src/main/java/com/oshapp/backend/service/SmsService.java:17-21 | The default provider name selects the mock. |
| SmsChannel.StatusWordInjective | src/main/java/com/oshapp/backend/service/SmsService.java:118-126 | Each status has its own SMS word. |
| SmsChannel.BuildText | src/main/java/com/oshapp/backend/service/SmsService.java:101-148 | Throws NullPointer iff the appointment is undated. Otherwise the text of the requested kind, at that date, with the status word for status texts. |
| SmsChannel.Dispatched | src/main/java/com/oshapp/backend/service/SmsService.java:23-36 | One text iff SMS is enabled and the appointment is dated. It goes to the user's phone through the provider chosen by name. |
| SmsChannel.SmsService.Default | src/main/java/com/oshapp/backend/service/SmsService.java:17-21 | By default SMS is disabled and the provider is "mock". |
| SmsChannel.SmsService.constructor | src/main/java/com/oshapp/backend/service/SmsService.java:17-21 | Takes the configured flag and provider name. |
| SmsChannel.SmsService.Send | src/main/java/com/oshapp/backend/service/SmsService.java:23-36 | The sent list grows by exactly `Dispatched`. |
| SmsChannel.SmsService.SendAppointmentNotification | src/main/java/com/oshapp/backend/service/SmsService.java:23-36 | Appends the new-appointment text, when it is sent. |
| SmsChannel.SmsService.SendAppointmentStatusNotification | src/main/java/com/oshapp/backend/service/SmsService.java:38-51 | Appends the status text, when it is sent. |
| SmsChannel.SmsService.SendObligatoryAppointmentNotification | src/main/java/com/oshapp/backend/service/SmsService.java:53-66 | Appends the obligatory-visit text, when it is sent. |
| AdminUsers.RoleNamed | src/main/java/com/oshapp/backend/service/UserService.java:66-71 | A name resolves to the role with that name. A name that no role bears resolves to nothing. |
| AdminUsers.RoleNameRoundTrip | src/main/java/com/oshapp/backend/service/UserService.java:66-71 | Every role's name resolves back to that role. |
| AdminUsers.ResolveRoles | src/main/java/com/oshapp/backend/service/UserService.java:66-71 | Fails with UnknownRole iff some name is unknown. Otherwise the set holds exactly the roles whose names were given. |
| AdminUsers.PatchOf | src/main/java/com/oshapp/backend/controller/AdminController.java:64-78 | A null e-mail or active flag, an empty role set and an empty password leave their field alone. Given roles must all resolve. A given password is stored encoded. |
| AdminUsers.Patched | src/main/java/com/oshapp/backend/controller/AdminController.java:64-78 | Id, username and phone are kept. Each other field is either kept or taken from the patch. |
| AdminUsers.PatchedFields | src/main/java/com/oshapp/backend/controller/AdminController.java:64-78 | A field present in the patch is overwritten, and an absent one is kept, field by field. |
| AdminUsers.EmptyRequestChangesNothing | src/main/java/com/oshapp/backend/controller/AdminController.java:64-78 | A request with only nulls, no roles and an empty password changes nothing. |
| AdminUsers.PatchesCompose | src/main/java/com/oshapp/backend/controller/AdminController.java:64-78 | Two patches in a row equal one merged patch, in which the later field wins. Applying a patch twice equals applying it once. |
| AdminUsers.RhUsersListed | src/main/java/com/oshapp/backend/service/UserService.java:48-51 | `findByRole(ROLE_RH)` lists every HR user and nobody else, without repeats. The listing is in ascending id order, which is the model's choice of order. |
| AdminUsers.PostedSpec | src/main/java/com/oshapp/backend/controller/AdminController.java:33-39 | The old rows are kept. The k-th recipient's notice is stored under the k-th fresh id, and no other row appears. |
| AdminUsers.CreationNoticeOwners | src/main/java/com/oshapp/backend/controller/AdminController.java:33-39 | Every HR user gets exactly one new INFO notice titled with the new address. Every new row is an unread INFO notice with that title and belongs to an HR user. Two new rows with the same owner are the same row. |
| AdminUsers.NoticesPerRecipient | src/main/java/com/oshapp/backend/controller/AdminController.java:33-39 | For rows laid out one per listed HR user from a fresh id, each new row is an unread INFO notice with the title, owned by an HR user. No two new rows share an owner. |
| AdminUsers.NotifyRh | src/main/java/com/oshapp/backend/controller/AdminController.java:33-39 | The loop stores one creation notice per HR user, in order, and nothing else. |
| AdminUsers.UserDirectory.constructor | src/main/java/com/oshapp/backend/service/UserService.java:19-23 | The directory starts empty. |
| AdminUsers.UserDirectory.CreateUser | src/main/java/com/oshapp/backend/controller/AdminController.java:28-42 | A null role set fails with NullPointer, an unknown role name with UnknownRole, and then a null password with IllegalArgument. Each of these leaves users and notifications unchanged. Otherwise an active user with the encoded password and the resolved roles is saved under a fresh id, and every HR user gets the creation notice, the new user too when it has the HR role. |
| AdminUsers.UserDirectory.UpdateUser | src/main/java/com/oshapp/backend/controller/AdminController.java:59-81 | NotFound for an unknown id. For a known id the only failure is UnknownRole, and it leaves the users unchanged. Otherwise the stored user becomes `Patched` by the request and no other user changes. |

## Left out

- Paging (`Pageable`, `Page`), `getAppointmentById`, `deleteAppointment` and the `mapToResponseDTO` projections are not modelled. They add no logic beyond a lookup or a copy.
- `notifyConfirmation` and `notifyReschedule` (MultiChannelNotificationService.java:130-177) are not modelled. Nothing in the service calls them. The service uses the factored `notifyUsers` scenarios instead.
- `getUserNotifications`, `getUnreadNotifications` and the notification DTO mapping are not modelled. They are paged, sorted reads.
- The wording of e-mail bodies, SMS texts and in-app messages is abstracted. The model keeps which facts a message carries (user, date, status, notes, motif), not the formatted sentences or the date pattern.
- `proposeAppointmentSlot` builds a `usersToNotify` list it never uses (AppointmentService.java:189-200). The model leaves it out because it has no effect.
- A null `request.getEmployeeId()` is not modelled. The employee id is a natural number, so `findById(null)` cannot be expressed.
- `ORDER BY appointmentDate ASC` leaves ties unordered. The model keeps tied rows in storage order, which is one of the allowed orders.
- SmsChannel.LowerAscii: only ASCII letters are lowered. `toLowerCase` on other letters is not modelled, and no provider name needs it.
- The identity provider (Keycloak), the mail transport, `SecureRandom`, the clock and the password encoder are parameters: the verifier's answer, a "mail throws" flag, the random draw or token, the instant, and the encoded text.
- The reset-token table is keyed by token value. PasswordResetTokenRepository is not part of this model, so its queries are taken from how the controller uses them.
- `getUserInfoByEmail` personalisation and the reset link text in `forgotPassword` are not modelled. They only feed the mail.
- The rate-limit maps are `ConcurrentHashMap`s. Concurrent requests are not modelled, and requests are taken one at a time.
- `findByCode` on the activation-code table is not modelled. Nothing calls it.
- `findByRolesContaining` (UserRepository.java:16) has no `ORDER BY`, so the order of the HR users is not fixed. The model lists them in ascending id order. That order decides which notification id each HR user's creation notice gets in `NotifyRh` and `CreateUser`.
- ERole.java is not part of this model. `ERole` is assumed to have exactly the five constants of `Domain.Role`, so `RoleNamed` refuses every other name.
- `findByRole(ROLE_RH)` is assumed to find the HR role row. The "Role not found" exception needs a database without that row, which the data initializer always creates.
- AdminUsers.UserDirectory.CreateUser: a null email is not modelled. In the source the user is saved with no email and the HR notice title ends in "null". A null element inside the role set is not modelled either: `ERole.valueOf(null)` throws before the save.
- AdminUsers.UserDirectory.CreateUser: the new user's username is the empty string and the phone is null. User.java is not part of this model, so the builder's defaults are assumed.
- `getAllUsers`, `getUserById` and `deleteUser` of the admin controller are not modelled. They are plain reads and a delete.
- DockerNotificationService, the other controllers and the security configuration are outside the modelled core.
- Console logging (`System.out.println`, `log.info`) is not modelled.
