/**
 * The in-app channel (NotificationService of the backend): notification
 * records, the status-to-message map, and the store the service writes to,
 * reads its unread count from, marks read and deletes from.
 *
 * The store is a map from notification id to record; `nextId` plays the
 * database's identity column.
 */
module InAppNotifications {
  import opened Domain

  /**
   * A message text. The formatted messages are kept abstract: the creation
   * message around the appointment date, the reschedule message around its
   * motif, the proposal message around the employee's names.
   */
  datatype Text =
    | Plain(s: string)
    | NewAppointmentOn(at: Instant)
    | RescheduledBecause(motif: string)
    | SlotProposedFor(firstName: string, lastName: string)

  datatype Notification = Notification(
    ownerId: nat,
    title: string,
    message: Text,
    kind: NotificationType,
    read: bool,
    relatedEntityType: Option<string>,
    relatedEntityId: Option<nat>,
    createdAt: Instant)

  const RelatedAppointment: string := "APPOINTMENT"
  const NewAppointmentTitle: string := "Nouveau rendez-vous"
  const StatusTitle: string := "Mise à jour du rendez-vous"

  /** The `switch` of sendAppointmentStatusNotification; every status has its own sentence. */
  function StatusMessage(s: AppointmentStatus): string
  {
    match s
    case Confirme => "Votre rendez-vous a été confirmé"
    case Annule => "Votre rendez-vous a été annulé"
    case Termine => "Votre rendez-vous a été marqué comme terminé"
    case Reporte => "Votre rendez-vous a été reporté"
    case Propose => "Un nouveau créneau vous a été proposé"
    case Demande => "Votre demande de rendez-vous a été reçue"
  }

  /** Distinct statuses give distinct messages, so a reader can tell the status from the message. */
  lemma StatusMessageInjective(s: AppointmentStatus, t: AppointmentStatus)
    requires StatusMessage(s) == StatusMessage(t)
    ensures s == t
  {
  }

  /**
   * The record sendAppointmentNotification saves. Its message formats
   * `appointmentDate` without a null check, so an undated appointment
   * makes it throw.
   */
  function AppointmentNotice(u: User, a: AppointmentRecord, now: Instant): (r: Result<Notification>)
    ensures r.Err? <==> a.appointmentDate.None?
    ensures r.Err? ==> r.error == NullPointer
    ensures r.Ok? ==>
      var n := r.value;
      n.ownerId == u.id && !n.read && n.kind == Appointment &&
      n.message == NewAppointmentOn(a.appointmentDate.value) &&
      n.relatedEntityType == Some(RelatedAppointment) && n.relatedEntityId == Some(a.id)
  {
    if a.appointmentDate.None? then Err(NullPointer)
    else Ok(Notification(u.id, NewAppointmentTitle, NewAppointmentOn(a.appointmentDate.value),
                         Appointment, false, Some(RelatedAppointment), Some(a.id), now))
  }

  /** The record sendAppointmentStatusNotification saves: the status sentence, linked to the appointment. */
  function StatusNotice(u: User, a: AppointmentRecord, now: Instant): (n: Notification)
    ensures n.ownerId == u.id && !n.read && n.kind == Appointment
    ensures n.message == Plain(StatusMessage(a.status))
    ensures n.relatedEntityType == Some(RelatedAppointment) && n.relatedEntityId == Some(a.id)
  {
    Notification(u.id, StatusTitle, Plain(StatusMessage(a.status)), Appointment, false,
                 Some(RelatedAppointment), Some(a.id), now)
  }

  /** The record sendGeneralNotification saves: no related entity. */
  function GeneralNotice(u: User, title: string, message: Text, kind: NotificationType, now: Instant): (n: Notification)
    ensures n.ownerId == u.id && !n.read && n.kind == kind && n.title == title && n.message == message
    ensures n.relatedEntityType.None? && n.relatedEntityId.None?
  {
    Notification(u.id, title, message, kind, false, None, None, now)
  }

  /** The record createNotification saves: always INFO, no related entity. */
  function InfoNotice(title: string, u: User, message: string, now: Instant): (n: Notification)
    ensures n.ownerId == u.id && !n.read && n.kind == Info && n.title == title && n.message == Plain(message)
    ensures n.relatedEntityType.None? && n.relatedEntityId.None?
  {
    Notification(u.id, title, Plain(message), Info, false, None, None, now)
  }

  type Rows = map<nat, Notification>

  /** The ids countByUserAndReadFalse counts. */
  function UnreadIds(rows: Rows, uid: nat): set<nat>
  {
    set id | id in rows && rows[id].ownerId == uid && !rows[id].read
  }

  /** getUnreadCount */
  function UnreadCount(rows: Rows, uid: nat): nat
  {
    |UnreadIds(rows, uid)|
  }

  /** markAsRead on the rows: NotFound, then the ownership check, then only that read flag changes. */
  function MarkRead(rows: Rows, id: nat, uid: nat): (r: Result<Rows>)
    ensures r == Err(NotFound) <==> id !in rows
    ensures r == Err(Unauthorized) <==> id in rows && rows[id].ownerId != uid
    ensures r.Ok? ==>
      r.value.Keys == rows.Keys && r.value[id] == rows[id].(read := true) &&
      forall k :: k in rows && k != id ==> r.value[k] == rows[k]
  {
    if id !in rows then Err(NotFound)
    else if rows[id].ownerId != uid then Err(Unauthorized)
    else Ok(rows[id := rows[id].(read := true)])
  }

  /** markAllAsRead on the rows: every notification of the user is read, the others are untouched. */
  function MarkAllRead(rows: Rows, uid: nat): (r: Rows)
    ensures r.Keys == rows.Keys
    ensures UnreadCount(r, uid) == 0
    ensures forall k :: k in rows && rows[k].ownerId == uid ==> r[k] == rows[k].(read := true)
    ensures forall k :: k in rows && rows[k].ownerId != uid ==> r[k] == rows[k]
  {
    var r := map k | k in rows :: if rows[k].ownerId == uid then rows[k].(read := true) else rows[k];
    assert UnreadIds(r, uid) == {};
    r
  }

  /** deleteNotification on the rows: NotFound, then the ownership check, then only that row goes. */
  function Delete(rows: Rows, id: nat, uid: nat): (r: Result<Rows>)
    ensures r == Err(NotFound) <==> id !in rows
    ensures r == Err(Unauthorized) <==> id in rows && rows[id].ownerId != uid
    ensures r.Ok? ==>
      r.value.Keys == rows.Keys - {id} && forall k :: k in r.value ==> r.value[k] == rows[k]
  {
    if id !in rows then Err(NotFound)
    else if rows[id].ownerId != uid then Err(Unauthorized)
    else Ok(rows - {id})
  }

  /** Marking one's own unread notification lowers one's unread count by exactly one. */
  lemma MarkReadDecrementsCount(rows: Rows, id: nat, uid: nat)
    requires id in rows && rows[id].ownerId == uid && !rows[id].read
    ensures MarkRead(rows, id, uid).Ok?
    ensures UnreadCount(MarkRead(rows, id, uid).value, uid) == UnreadCount(rows, uid) - 1
  {
    var r := MarkRead(rows, id, uid).value;
    assert UnreadIds(r, uid) == UnreadIds(rows, uid) - {id};
  }

  /** Marking or deleting never changes another user's unread count. */
  lemma OtherUsersCountUnchanged(rows: Rows, id: nat, uid: nat, other: nat)
    requires other != uid
    ensures MarkRead(rows, id, uid).Ok? ==> UnreadCount(MarkRead(rows, id, uid).value, other) == UnreadCount(rows, other)
    ensures UnreadCount(MarkAllRead(rows, uid), other) == UnreadCount(rows, other)
    ensures Delete(rows, id, uid).Ok? ==> UnreadCount(Delete(rows, id, uid).value, other) == UnreadCount(rows, other)
  {
    if MarkRead(rows, id, uid).Ok? {
      assert UnreadIds(MarkRead(rows, id, uid).value, other) == UnreadIds(rows, other);
    }
    assert UnreadIds(MarkAllRead(rows, uid), other) == UnreadIds(rows, other);
    if Delete(rows, id, uid).Ok? {
      assert UnreadIds(Delete(rows, id, uid).value, other) == UnreadIds(rows, other);
    }
  }

  /** The notification table of the backend. */
  class NotificationStore {
    var rows: Rows
    var nextId: nat

    ghost predicate Valid()
      reads this
    {
      forall id :: id in rows ==> id < nextId
    }

    constructor ()
      ensures Valid() && rows == map[] && nextId == 0
    {
      rows := map[];
      nextId := 0;
    }

    /** notificationRepository.save of a new record: it gets a fresh id. */
    method Save(n: Notification) returns (id: nat)
      requires Valid()
      modifies this
      ensures Valid()
      ensures id == old(nextId) && id !in old(rows)
      ensures rows == old(rows)[id := n] && nextId == old(nextId) + 1
    {
      id := nextId;
      rows := rows[id := n];
      nextId := nextId + 1;
    }

    /** sendAppointmentNotification: an undated appointment throws before anything is saved. */
    method SendAppointmentNotification(u: User, a: AppointmentRecord, now: Instant) returns (r: Outcome)
      requires Valid()
      modifies this
      ensures Valid()
      ensures r.Failed? <==> a.appointmentDate.None?
      ensures r.Failed? ==> r.error == NullPointer && rows == old(rows) && nextId == old(nextId)
      ensures r.Done? ==> rows == old(rows)[old(nextId) := AppointmentNotice(u, a, now).value] && nextId == old(nextId) + 1
    {
      var notice := AppointmentNotice(u, a, now);
      if notice.Err? {
        return Failed(notice.error);
      }
      var _ := Save(notice.value);
      r := Done;
    }

    method SendAppointmentStatusNotification(u: User, a: AppointmentRecord, now: Instant)
      requires Valid()
      modifies this
      ensures Valid()
      ensures rows == old(rows)[old(nextId) := StatusNotice(u, a, now)] && nextId == old(nextId) + 1
    {
      var _ := Save(StatusNotice(u, a, now));
    }

    method SendGeneralNotification(u: User, title: string, message: Text, kind: NotificationType, now: Instant)
      requires Valid()
      modifies this
      ensures Valid()
      ensures rows == old(rows)[old(nextId) := GeneralNotice(u, title, message, kind, now)] && nextId == old(nextId) + 1
    {
      var _ := Save(GeneralNotice(u, title, message, kind, now));
    }

    method CreateNotification(title: string, u: User, message: string, now: Instant)
      requires Valid()
      modifies this
      ensures Valid()
      ensures rows == old(rows)[old(nextId) := InfoNotice(title, u, message, now)] && nextId == old(nextId) + 1
    {
      var _ := Save(InfoNotice(title, u, message, now));
    }

    /** getUnreadCount */
    function GetUnreadCount(u: User): nat
      reads this
    {
      UnreadCount(rows, u.id)
    }

    method MarkAsRead(id: nat, u: User) returns (r: Outcome)
      requires Valid()
      modifies this
      ensures Valid() && nextId == old(nextId)
      ensures MarkRead(old(rows), id, u.id).Err? ==>
        r == Failed(MarkRead(old(rows), id, u.id).error) && rows == old(rows)
      ensures MarkRead(old(rows), id, u.id).Ok? ==>
        r == Done && rows == MarkRead(old(rows), id, u.id).value
    {
      if id !in rows {
        return Failed(NotFound);
      }
      if rows[id].ownerId != u.id {
        return Failed(Unauthorized);
      }
      rows := rows[id := rows[id].(read := true)];
      r := Done;
    }

    /** markAllAsRead: every unread notification of the user gets its read flag set, one at a time. */
    method MarkAllAsRead(u: User)
      requires Valid()
      modifies this
      ensures Valid() && nextId == old(nextId)
      ensures rows == MarkAllRead(old(rows), u.id)
    {
      var pending := UnreadIds(rows, u.id);
      while pending != {}
        invariant pending <= UnreadIds(old(rows), u.id)
        invariant rows.Keys == old(rows).Keys && nextId == old(nextId)
        invariant forall k :: k in rows ==>
          rows[k] == (if k in UnreadIds(old(rows), u.id) - pending then old(rows)[k].(read := true) else old(rows)[k])
        decreases pending
      {
        var id :| id in pending;
        rows := rows[id := rows[id].(read := true)];
        pending := pending - {id};
      }
      assert forall k :: k in rows ==> rows[k] == MarkAllRead(old(rows), u.id)[k];
    }

    method DeleteNotification(id: nat, u: User) returns (r: Outcome)
      requires Valid()
      modifies this
      ensures Valid() && nextId == old(nextId)
      ensures Delete(old(rows), id, u.id).Err? ==>
        r == Failed(Delete(old(rows), id, u.id).error) && rows == old(rows)
      ensures Delete(old(rows), id, u.id).Ok? ==>
        r == Done && rows == Delete(old(rows), id, u.id).value
    {
      if id !in rows {
        return Failed(NotFound);
      }
      if rows[id].ownerId != u.id {
        return Failed(Unauthorized);
      }
      rows := rows - {id};
      r := Done;
    }
  }
}
