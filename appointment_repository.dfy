/**
 * The JPQL queries of AppointmentRepository as filters over the table of
 * appointment rows, a sequence kept in storage order.
 *
 * A path such as `a.employee.user.id` only matches rows where every link
 * is present; a comparison with a null column is not true, so such rows
 * drop out. `ORDER BY a.appointmentDate ASC` leaves the order of equal
 * dates open; the model keeps them in storage order.
 */
module AppointmentQueries {
  import opened Domain

  type Table = seq<AppointmentRecord>

  /** `a.employee.user.id = :userId` */
  predicate OwnedBy(a: AppointmentRecord, userId: nat)
  {
    a.employee.Some? && a.employee.value.user.Some? && a.employee.value.user.value.id == userId
  }

  /** `a.nurse.id = :userId OR a.doctor.id = :userId`, compared on the foreign keys. */
  predicate InvolvesStaff(a: AppointmentRecord, userId: nat)
  {
    (a.nurse.Some? && a.nurse.value.id == userId) || (a.doctor.Some? && a.doctor.value.id == userId)
  }

  /** The filters of findWithFilters; `None` is a null parameter. */
  datatype Filters = Filters(
    status: Option<AppointmentStatus>,
    employeeId: Option<nat>,
    dateFrom: Option<Instant>,
    dateTo: Option<Instant>)

  /** `(:p IS NULL OR ...)` for each of the four parameters; both date bounds are inclusive. */
  predicate MatchesFilters(a: AppointmentRecord, f: Filters)
  {
    (f.status.None? || a.status == f.status.value) &&
    (f.employeeId.None? || (a.employee.Some? && a.employee.value.id == f.employeeId.value)) &&
    (f.dateFrom.None? || (a.appointmentDate.Some? && a.appointmentDate.value >= f.dateFrom.value)) &&
    (f.dateTo.None? || (a.appointmentDate.Some? && a.appointmentDate.value <= f.dateTo.value))
  }

  /** `a.employee.user.id = :userId AND a.appointmentDate >= :now` */
  predicate Upcoming(a: AppointmentRecord, userId: nat, now: Instant)
  {
    OwnedBy(a, userId) && a.appointmentDate.Some? && a.appointmentDate.value >= now
  }

  /** The WHERE clauses of the repository's queries. */
  datatype Where =
    | ByUser(userId: nat)
    | ByUserAndStatus(userId: nat, status: AppointmentStatus)
    | ByStatus(status: AppointmentStatus)
    | ByStaff(userId: nat)
    | ByFilters(filters: Filters)
    | ByUpcoming(userId: nat, now: Instant)

  predicate Holds(w: Where, a: AppointmentRecord)
  {
    match w
    case ByUser(u) => OwnedBy(a, u)
    case ByUserAndStatus(u, st) => OwnedBy(a, u) && a.status == st
    case ByStatus(st) => a.status == st
    case ByStaff(u) => InvolvesStaff(a, u)
    case ByFilters(f) => MatchesFilters(a, f)
    case ByUpcoming(u, now) => Upcoming(a, u, now)
  }

  /** The rows of `table` that satisfy `w`, in storage order. */
  function Select(table: Table, w: Where): (r: Table)
    ensures |r| <= |table|
    ensures forall a :: a in r <==> a in table && Holds(w, a)
    decreases |table|
  {
    if table == [] then []
    else
      var init := table[..|table| - 1];
      var last := table[|table| - 1];
      assert table == init + [last];
      Select(init, w) + (if Holds(w, last) then [last] else [])
  }

  /** findByEmployeeUserId */
  function FindByEmployeeUserId(table: Table, userId: nat): (r: Table)
    ensures forall a :: a in r <==> a in table && OwnedBy(a, userId)
  {
    Select(table, ByUser(userId))
  }

  /** findByEmployeeUserIdAndStatus */
  function FindByEmployeeUserIdAndStatus(table: Table, userId: nat, status: AppointmentStatus): (r: Table)
    ensures forall a :: a in r <==> a in table && OwnedBy(a, userId) && a.status == status
  {
    Select(table, ByUserAndStatus(userId, status))
  }

  /** One step of Select: the last row is kept exactly when it satisfies the clause. */
  lemma SelectLast(table: Table, w: Where)
    requires table != []
    ensures Select(table, w) ==
      Select(table[..|table| - 1], w) + (if Holds(w, table[|table| - 1]) then [table[|table| - 1]] else [])
  {
  }

  /** Filtering by both is filtering the user's appointments by status: same rows, same order. */
  lemma {:induction false} AndStatusIsConjunction(table: Table, userId: nat, status: AppointmentStatus)
    ensures FindByEmployeeUserIdAndStatus(table, userId, status) ==
      Select(FindByEmployeeUserId(table, userId), ByStatus(status))
    decreases |table|
  {
    if table != [] {
      var init := table[..|table| - 1];
      var last := table[|table| - 1];
      AndStatusIsConjunction(init, userId, status);
      SelectLast(table, ByUser(userId));
      SelectLast(table, ByUserAndStatus(userId, status));
      var mine := Select(init, ByUser(userId));
      if OwnedBy(last, userId) {
        var all := mine + [last];
        assert all[..|all| - 1] == mine && all[|all| - 1] == last;
        SelectLast(all, ByStatus(status));
        assert Select(table, ByUser(userId)) == all;
      } else {
        assert Select(table, ByUser(userId)) == mine;
        assert Select(table, ByUserAndStatus(userId, status)) == Select(init, ByUserAndStatus(userId, status));
      }
    }
  }

  /** findByMedicalStaff */
  function FindByMedicalStaff(table: Table, userId: nat): (r: Table)
    ensures forall a :: a in r <==> a in table && InvolvesStaff(a, userId)
  {
    Select(table, ByStaff(userId))
  }

  /** findWithFilters */
  function FindWithFilters(table: Table, f: Filters): (r: Table)
    ensures forall a :: a in r <==> a in table && MatchesFilters(a, f)
  {
    Select(table, ByFilters(f))
  }

  /** With every filter null the query returns the whole table. */
  lemma {:induction false} NoFiltersSelectsAll(table: Table)
    ensures FindWithFilters(table, Filters(None, None, None, None)) == table
    decreases |table|
  {
    if table != [] {
      var init := table[..|table| - 1];
      NoFiltersSelectsAll(init);
      assert init + [table[|table| - 1]] == table;
    }
  }

  /** Each date bound is inclusive, and an undated row fails any bound. */
  lemma DateBounds(a: AppointmentRecord, f: Filters)
    requires f.status.None? && f.employeeId.None?
    ensures a.appointmentDate.None? ==> (MatchesFilters(a, f) <==> f.dateFrom.None? && f.dateTo.None?)
    ensures a.appointmentDate.Some? ==>
      (MatchesFilters(a, f) <==>
        (f.dateFrom.None? || f.dateFrom.value <= a.appointmentDate.value) &&
        (f.dateTo.None? || a.appointmentDate.value <= f.dateTo.value))
  {
  }

  /** A row dated exactly on both bounds is selected. */
  lemma BoundsInclusive(table: Table, a: AppointmentRecord, d: Instant)
    requires a in table && a.appointmentDate == Some(d)
    ensures a in FindWithFilters(table, Filters(None, None, Some(d), Some(d)))
  {
  }

  /** When either bound is given, every returned row is dated. */
  lemma BoundedResultsDated(table: Table, f: Filters)
    requires f.dateFrom.Some? || f.dateTo.Some?
    ensures forall a :: a in FindWithFilters(table, f) ==> a.appointmentDate.Some?
  {
  }

  predicate Dated(s: Table)
  {
    forall i :: 0 <= i < |s| ==> s[i].appointmentDate.Some?
  }

  /** The sort key; only consulted on dated rows. */
  function DateOf(a: AppointmentRecord): int
  {
    if a.appointmentDate.Some? then a.appointmentDate.value else 0
  }

  /** Ascending by appointment date. */
  predicate SortedByDate(s: Table)
  {
    forall i, j :: 0 <= i < j < |s| ==> DateOf(s[i]) <= DateOf(s[j])
  }

  /** Places `a` before the first row dated at or after it, so it goes ahead of rows with an equal date. */
  function InsertByDate(a: AppointmentRecord, s: Table): (r: Table)
    requires SortedByDate(s)
    ensures SortedByDate(r)
    ensures multiset(r) == multiset(s) + multiset{a}
    decreases |s|
  {
    if s == [] then [a]
    else if DateOf(a) <= DateOf(s[0]) then [a] + s
    else
      var rest := InsertByDate(a, s[1..]);
      assert s == [s[0]] + s[1..];
      InsertedAfterHead(a, s, rest);
      [s[0]] + rest
  }

  lemma InsertedAfterHead(a: AppointmentRecord, s: Table, rest: Table)
    requires s != [] && SortedByDate(s) && SortedByDate(rest) && DateOf(s[0]) < DateOf(a)
    requires multiset(rest) == multiset(s[1..]) + multiset{a}
    ensures SortedByDate([s[0]] + rest)
  {
    var r := [s[0]] + rest;
    forall j | 0 < j < |r|
      ensures DateOf(s[0]) <= DateOf(r[j])
    {
      assert r[j] == rest[j - 1];
      assert r[j] in multiset(rest);
      if r[j] != a {
        assert r[j] in s[1..];
        var k :| 0 <= k < |s[1..]| && s[1..][k] == r[j];
        assert s[k + 1] == r[j];
      }
    }
  }

  /** `ORDER BY a.appointmentDate ASC` */
  function SortByDate(s: Table): (r: Table)
    ensures SortedByDate(r)
    ensures multiset(r) == multiset(s)
    decreases |s|
  {
    if s == [] then []
    else
      assert s == [s[0]] + s[1..];
      InsertByDate(s[0], SortByDate(s[1..]))
  }

  /** A permutation of dated rows is dated. */
  lemma PermutationDated(s: Table, r: Table)
    requires Dated(s) && multiset(r) == multiset(s)
    ensures Dated(r)
  {
    forall i | 0 <= i < |r|
      ensures r[i].appointmentDate.Some?
    {
      assert r[i] in multiset(s);
      var k :| 0 <= k < |s| && s[k] == r[i];
    }
  }

  /** findUpcomingByEmployeeUserId: the user's rows dated now or later, earliest first, none lost or repeated. */
  function FindUpcomingByEmployeeUserId(table: Table, userId: nat, now: Instant): (r: Table)
    ensures Dated(r) && SortedByDate(r)
    ensures multiset(r) == multiset(Select(table, ByUpcoming(userId, now)))
    ensures forall a :: a in r <==> a in table && Upcoming(a, userId, now)
  {
    var hits := Select(table, ByUpcoming(userId, now));
    assert forall i :: 0 <= i < |hits| ==> hits[i] in hits;
    var r := SortByDate(hits);
    PermutationDated(hits, r);
    assert forall a :: a in r <==> a in multiset(hits);
    r
  }
}
