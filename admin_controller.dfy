/**
 * The administrator's user management (AdminController with the parts of
 * UserService it calls): creating a user and telling every RH user about
 * it, and the partial update of an existing user.
 *
 * The user table is a map from id to user; `nextId` plays the identity
 * column. The password encoder is not modelled: the encoded password is
 * handed in as a parameter.
 */
module AdminUsers {
  import opened Domain
  import InAppNotifications

  /** `ERole.name()` */
  function RoleName(r: Role): string
  {
    match r
    case RoleAdmin => "ROLE_ADMIN"
    case RoleRh => "ROLE_RH"
    case RoleInfirmier => "ROLE_INFIRMIER"
    case RoleMedecin => "ROLE_MEDECIN"
    case RoleSalarie => "ROLE_SALARIE"
  }

  /** `ERole.valueOf(name)` followed by the role lookup: `None` where either throws. */
  function RoleNamed(name: string): (r: Option<Role>)
    ensures r.Some? ==> RoleName(r.value) == name
    ensures r.None? ==> forall ro: Role :: RoleName(ro) != name
  {
    if name == "ROLE_ADMIN" then Some(RoleAdmin)
    else if name == "ROLE_RH" then Some(RoleRh)
    else if name == "ROLE_INFIRMIER" then Some(RoleInfirmier)
    else if name == "ROLE_MEDECIN" then Some(RoleMedecin)
    else if name == "ROLE_SALARIE" then Some(RoleSalarie)
    else None
  }

  /** Every role is found under its own name. */
  lemma RoleNameRoundTrip(r: Role)
    ensures RoleNamed(RoleName(r)) == Some(r)
  {
  }

  /**
   * findRolesByNames: the roles the names denote; one name that denotes no
   * role makes the whole lookup throw.
   */
  function ResolveRoles(names: set<string>): (r: Result<set<Role>>)
    ensures r.Err? <==> exists n :: n in names && RoleNamed(n).None?
    ensures r.Err? ==> r.error == UnknownRole
    ensures r.Ok? ==> forall ro: Role :: ro in r.value <==> RoleName(ro) in names
  {
    if forall n :: n in names ==> RoleNamed(n).Some? then
      var roles := set n | n in names :: RoleNamed(n).value;
      assert forall ro: Role :: RoleName(ro) in names ==> ro in roles by {
        forall ro: Role | RoleName(ro) in names
          ensures ro in roles
        {
          RoleNameRoundTrip(ro);
        }
      }
      Ok(roles)
    else
      Err(UnknownRole)
  }

  /** UserUpdateRequestDTO; `None` is a null field. */
  datatype UserUpdate = UserUpdate(
    email: Option<string>,
    roles: Option<set<string>>,
    active: Option<bool>,
    password: Option<string>)

  /** Roles are replaced only by a non-null, non-empty set of names. */
  predicate RolesGiven(req: UserUpdate)
  {
    req.roles.Some? && req.roles.value != {}
  }

  /** The password is reset only by a non-null, non-empty string. */
  predicate PasswordGiven(req: UserUpdate)
  {
    req.password.Some? && req.password.value != ""
  }

  /** The fields an update writes, resolved; `None` leaves the field as it was. */
  datatype Patch = Patch(
    email: Option<string>,
    roles: Option<set<Role>>,
    active: Option<bool>,
    password: Option<string>)

  /**
   * What a request asks to write, with its role names resolved and its
   * password replaced by `encoded`, the encoder's output for it.
   */
  function PatchOf(req: UserUpdate, encoded: string): (r: Result<Patch>)
    ensures r.Err? <==> RolesGiven(req) && ResolveRoles(req.roles.value).Err?
    ensures r.Err? ==> r.error == UnknownRole
    ensures r.Ok? ==>
      r.value.email == req.email && r.value.active == req.active &&
      (r.value.roles.Some? <==> RolesGiven(req)) &&
      (r.value.roles.Some? ==> forall ro: Role :: ro in r.value.roles.value <==> RoleName(ro) in req.roles.value) &&
      (r.value.password.Some? <==> PasswordGiven(req)) &&
      (r.value.password.Some? ==> r.value.password.value == encoded)
  {
    if RolesGiven(req) && ResolveRoles(req.roles.value).Err? then Err(UnknownRole)
    else
      var roles := if RolesGiven(req) then Some(ResolveRoles(req.roles.value).value) else None;
      var password := if PasswordGiven(req) then Some(encoded) else None;
      Ok(Patch(req.email, roles, req.active, password))
  }

  /** The user after the patch's fields are written. */
  function Patched(u: User, p: Patch): (v: User)
    ensures v.id == u.id && v.username == u.username && v.phone == u.phone
    ensures v.email == u.email || (p.email.Some? && v.email == p.email.value)
    ensures v.roles == u.roles || (p.roles.Some? && v.roles == p.roles.value)
    ensures v.active == u.active || (p.active.Some? && v.active == p.active.value)
    ensures v.password == u.password || (p.password.Some? && v.password == p.password.value)
  {
    User(
      u.id,
      if p.email.Some? then p.email.value else u.email,
      u.username,
      u.phone,
      if p.password.Some? then p.password.value else u.password,
      if p.roles.Some? then p.roles.value else u.roles,
      if p.active.Some? then p.active.value else u.active)
  }

  /** Each field the patch sets is taken, each field it leaves null is kept. */
  lemma PatchedFields(u: User, p: Patch)
    ensures p.email.Some? ==> Patched(u, p).email == p.email.value
    ensures p.roles.Some? ==> Patched(u, p).roles == p.roles.value
    ensures p.active.Some? ==> Patched(u, p).active == p.active.value
    ensures p.password.Some? ==> Patched(u, p).password == p.password.value
    ensures p.email.None? ==> Patched(u, p).email == u.email
    ensures p.roles.None? ==> Patched(u, p).roles == u.roles
    ensures p.active.None? ==> Patched(u, p).active == u.active
    ensures p.password.None? ==> Patched(u, p).password == u.password
  {
  }

  /** A request of null fields, an empty role set and an empty password changes nothing. */
  lemma EmptyRequestChangesNothing(u: User, encoded: string)
    ensures PatchOf(UserUpdate(None, Some({}), None, Some("")), encoded) == Ok(Patch(None, None, None, None))
    ensures Patched(u, Patch(None, None, None, None)) == u
  {
  }

  /** The later of two patches wins field by field. */
  function Then(p: Patch, q: Patch): Patch
  {
    Patch(
      if q.email.Some? then q.email else p.email,
      if q.roles.Some? then q.roles else p.roles,
      if q.active.Some? then q.active else p.active,
      if q.password.Some? then q.password else p.password)
  }

  /** Two updates in a row are one update with the later non-null fields winning; repeating one changes nothing more. */
  lemma PatchesCompose(u: User, p: Patch, q: Patch)
    ensures Patched(Patched(u, p), q) == Patched(u, Then(p, q))
    ensures Patched(Patched(u, p), p) == Patched(u, p)
  {
  }

  /** The user table: each user sits under its own id, below `nextId`. */
  predicate WellFormed(users: map<nat, User>, nextId: nat)
  {
    forall id :: id in users ==> users[id].id == id && id < nextId
  }

  /**
   * `findByRole(ROLE_RH)` over the ids below `n`. The repository query fixes
   * no order; the model lists the users in ascending id order.
   */
  function RhUsersBelow(users: map<nat, User>, n: nat): seq<User>
    decreases n
  {
    if n == 0 then []
    else RhUsersBelow(users, n - 1) + (if n - 1 in users && HasRole(users[n - 1], RoleRh) then [users[n - 1]] else [])
  }

  /** The RH users below `n` are listed, each once, and nothing else is. */
  lemma {:induction false} RhUsersListed(users: map<nat, User>, nextId: nat, n: nat)
    requires WellFormed(users, nextId)
    ensures forall id :: id in users && id < n && HasRole(users[id], RoleRh) ==> users[id] in RhUsersBelow(users, n)
    ensures forall u :: u in RhUsersBelow(users, n) ==> u.id < n && u.id in users && users[u.id] == u && HasRole(u, RoleRh)
    ensures forall i, j :: 0 <= i < j < |RhUsersBelow(users, n)| ==> RhUsersBelow(users, n)[i].id < RhUsersBelow(users, n)[j].id
    decreases n
  {
    if n > 0 {
      RhUsersListed(users, nextId, n - 1);
      var before := RhUsersBelow(users, n - 1);
      if n - 1 in users && HasRole(users[n - 1], RoleRh) {
        var s := before + [users[n - 1]];
        assert RhUsersBelow(users, n) == s;
        assert forall i :: 0 <= i < |before| ==> before[i] in before;
        forall i, j | 0 <= i < j < |s|
          ensures s[i].id < s[j].id
        {
          if j == |s| - 1 {
            assert s[i] == before[i] && s[i] in before;
          }
        }
      }
    }
  }

  const CreationTitle: string := "Un nouveau compte utilisateur a été créé par l'admin : "
  const CreationMessage: string := "CREATION_COMPTE"

  /** The notification rows after one INFO notification per recipient is saved, ids from `start` up. */
  function Posted(rows: InAppNotifications.Rows, start: nat, recipients: seq<User>, title: string, now: Instant)
    : InAppNotifications.Rows
    decreases |recipients|
  {
    if recipients == [] then rows
    else
      var last := |recipients| - 1;
      Posted(rows, start, recipients[..last], title, now)[start + last :=
        InAppNotifications.InfoNotice(title, recipients[last], CreationMessage, now)]
  }

  /** The old rows are kept, and the k-th recipient's notification sits under id `start + k`. */
  lemma {:induction false} PostedSpec(rows: InAppNotifications.Rows, start: nat, recipients: seq<User>, title: string, now: Instant)
    requires forall id :: id in rows ==> id < start
    ensures var r := Posted(rows, start, recipients, title, now);
      (forall id :: id in r <==> id in rows || start <= id < start + |recipients|) &&
      (forall id :: id in rows ==> r[id] == rows[id]) &&
      (forall k :: 0 <= k < |recipients| ==>
        r[start + k] == InAppNotifications.InfoNotice(title, recipients[k], CreationMessage, now))
    decreases |recipients|
  {
    if recipients != [] {
      var last := |recipients| - 1;
      var init := recipients[..last];
      PostedSpec(rows, start, init, title, now);
      assert forall k :: 0 <= k < last ==> init[k] == recipients[k];
    }
  }

  /** One more recipient adds one row, under the next id. */
  lemma PostedStep(rows: InAppNotifications.Rows, start: nat, recipients: seq<User>, u: User, title: string, now: Instant)
    requires forall id :: id in rows ==> id < start
    ensures Posted(rows, start, recipients + [u], title, now) ==
      Posted(rows, start, recipients, title, now)[start + |recipients| :=
        InAppNotifications.InfoNotice(title, u, CreationMessage, now)]
  {
    assert (recipients + [u])[..|recipients|] == recipients;
  }

  /**
   * Rows laid out as `Posted` lays them out, over a list of distinct RH users
   * in ascending id order: the new rows are unread INFO notices with the
   * title, one per listed user, owned by nobody else.
   */
  lemma NoticesPerRecipient(r: InAppNotifications.Rows, rows: InAppNotifications.Rows, start: nat,
                            recipients: seq<User>, users: map<nat, User>, title: string, now: Instant)
    requires forall id :: id in r <==> id in rows || start <= id < start + |recipients|
    requires forall id :: id in rows ==> id < start
    requires forall k :: 0 <= k < |recipients| ==>
      r[start + k] == InAppNotifications.InfoNotice(title, recipients[k], CreationMessage, now)
    requires forall u :: u in recipients ==> u.id in users && HasRole(users[u.id], RoleRh)
    requires forall i, j :: 0 <= i < j < |recipients| ==> recipients[i].id < recipients[j].id
    ensures forall k :: k in r && k !in rows ==> r[k].ownerId in users && HasRole(users[r[k].ownerId], RoleRh)
    ensures forall k :: k in r && k !in rows ==> r[k].title == title && r[k].kind == Info && !r[k].read
    ensures forall k1, k2 :: k1 in r && k1 !in rows && k2 in r && k2 !in rows && r[k1].ownerId == r[k2].ownerId ==> k1 == k2
  {
    forall k | k in r && k !in rows
      ensures r[k].ownerId in users && HasRole(users[r[k].ownerId], RoleRh)
      ensures r[k].title == title && r[k].kind == Info && !r[k].read
    {
      assert recipients[k - start] in recipients;
    }
    forall k1, k2 | k1 in r && k1 !in rows && k2 in r && k2 !in rows && k1 < k2
      ensures r[k1].ownerId != r[k2].ownerId
    {
      assert r[k1].ownerId == recipients[k1 - start].id < recipients[k2 - start].id == r[k2].ownerId;
    }
  }

  /**
   * The rows the RH loop adds: each RH user owns exactly one of them, every
   * one of them is an unread INFO notification with the given title, and
   * nobody but an RH user owns one.
   */
  lemma CreationNoticeOwners(rows: InAppNotifications.Rows, start: nat, users: map<nat, User>, nextId: nat, title: string, now: Instant)
    requires forall id :: id in rows ==> id < start
    requires WellFormed(users, nextId)
    ensures var r := Posted(rows, start, RhUsersBelow(users, nextId), title, now);
      forall id :: id in users && HasRole(users[id], RoleRh) ==>
        exists k :: start <= k && k in r && k !in rows && r[k].ownerId == id
    ensures var r := Posted(rows, start, RhUsersBelow(users, nextId), title, now);
      forall k :: k in r && k !in rows ==> r[k].ownerId in users && HasRole(users[r[k].ownerId], RoleRh)
    ensures var r := Posted(rows, start, RhUsersBelow(users, nextId), title, now);
      forall k :: k in r && k !in rows ==> r[k].title == title && r[k].kind == Info && !r[k].read
    ensures var r := Posted(rows, start, RhUsersBelow(users, nextId), title, now);
      forall k1, k2 :: k1 in r && k1 !in rows && k2 in r && k2 !in rows && r[k1].ownerId == r[k2].ownerId ==> k1 == k2
    ensures var recipients := RhUsersBelow(users, nextId);
      forall i, j :: 0 <= i < j < |recipients| ==> recipients[i].id != recipients[j].id
  {
    var recipients := RhUsersBelow(users, nextId);
    RhUsersListed(users, nextId, nextId);
    var r := Posted(rows, start, recipients, title, now);
    PostedSpec(rows, start, recipients, title, now);
    forall id | id in users && HasRole(users[id], RoleRh)
      ensures exists k :: start <= k && k in r && k !in rows && r[k].ownerId == id
    {
      var i :| 0 <= i < |recipients| && recipients[i] == users[id];
      assert r[start + i].ownerId == id;
    }
    NoticesPerRecipient(r, rows, start, recipients, users, title, now);
  }

  /** One `createNotification` of the loop: the rows so far gain the next recipient's notice. */
  method PostOne(store: InAppNotifications.NotificationStore, ghost rows0: InAppNotifications.Rows, ghost start: nat,
                 ghost sent: seq<User>, u: User, title: string, now: Instant)
    requires store.Valid() && forall id :: id in rows0 ==> id < start
    requires store.rows == Posted(rows0, start, sent, title, now) && store.nextId == start + |sent|
    modifies store
    ensures store.Valid()
    ensures store.rows == Posted(rows0, start, sent + [u], title, now) && store.nextId == start + |sent| + 1
  {
    PostedStep(rows0, start, sent, u, title, now);
    store.CreateNotification(title, u, CreationMessage, now);
  }

  /** The `forEach` over `findByRole(ROLE_RH)`: one INFO notification per RH user, in id order. */
  method NotifyRh(users: map<nat, User>, nextId: nat, title: string,
                  store: InAppNotifications.NotificationStore, now: Instant)
    requires store.Valid()
    modifies store
    ensures store.Valid()
    ensures store.rows == Posted(old(store.rows), old(store.nextId), RhUsersBelow(users, nextId), title, now)
    ensures store.nextId == old(store.nextId) + |RhUsersBelow(users, nextId)|
  {
    ghost var rows0 := store.rows;
    ghost var start := store.nextId;
    ghost var sent: seq<User> := [];
    var i := 0;
    while i < nextId
      invariant 0 <= i <= nextId
      invariant sent == RhUsersBelow(users, i)
      invariant forall id :: id in rows0 ==> id < start
      invariant store.Valid()
      invariant store.nextId == start + |sent|
      invariant store.rows == Posted(rows0, start, sent, title, now)
    {
      if i in users && HasRole(users[i], RoleRh) {
        PostOne(store, rows0, start, sent, users[i], title, now);
        sent := sent + [users[i]];
      }
      i := i + 1;
    }
  }

  class UserDirectory {
    var users: map<nat, User>
    var nextId: nat

    ghost predicate Valid()
      reads this
    {
      WellFormed(users, nextId)
    }

    constructor ()
      ensures Valid() && users == map[] && nextId == 0
    {
      users := map[];
      nextId := 0;
    }

    /**
     * createUser: the user is saved active with the encoded password and
     * the named roles; then every RH user, the new one included when it is
     * RH, gets an INFO notification naming the new email. The role names are
     * resolved first: a null set dereferences null and an unknown name
     * throws; the password is encoded next, and the encoder refuses a null
     * one. Each of these throws before anything is saved. `encoded` is what
     * the encoder makes of a non-null password.
     */
    method CreateUser(email: string, password: Option<string>, encoded: string, roleNames: Option<set<string>>,
                      store: InAppNotifications.NotificationStore, now: Instant) returns (r: Result<User>)
      requires Valid() && store.Valid()
      modifies this, store
      ensures Valid() && store.Valid()
      ensures roleNames.None? ==> r == Err(NullPointer)
      ensures roleNames.Some? && ResolveRoles(roleNames.value).Err? ==> r == Err(UnknownRole)
      ensures roleNames.Some? && ResolveRoles(roleNames.value).Ok? && password.None? ==> r == Err(IllegalArgument)
      ensures r.Ok? <==> roleNames.Some? && ResolveRoles(roleNames.value).Ok? && password.Some?
      ensures r.Err? ==>
        (users == old(users) && nextId == old(nextId) &&
         store.rows == old(store.rows) && store.nextId == old(store.nextId))
      ensures r.Ok? ==>
        r.value == User(old(nextId), email, "", None, encoded, ResolveRoles(roleNames.value).value, true) &&
        users == old(users)[old(nextId) := r.value] && nextId == old(nextId) + 1 &&
        store.rows == Posted(old(store.rows), old(store.nextId), RhUsersBelow(users, nextId), CreationTitle + email, now) &&
        store.nextId == old(store.nextId) + |RhUsersBelow(users, nextId)|
    {
      if roleNames.None? {
        return Err(NullPointer);
      }
      var roles := ResolveRoles(roleNames.value);
      if roles.Err? {
        return Err(UnknownRole);
      }
      if password.None? {
        return Err(IllegalArgument);
      }
      var user := User(nextId, email, "", None, encoded, roles.value, true);
      users := users[nextId := user];
      nextId := nextId + 1;

      NotifyRh(users, nextId, CreationTitle + email, store, now);
      r := Ok(user);
    }

    /**
     * updateUser: a missing id is NotFound; otherwise the non-null fields of
     * the request are written and the user saved. An unknown role name
     * throws and nothing is saved.
     */
    method UpdateUser(id: nat, req: UserUpdate, encoded: string) returns (r: Result<User>)
      requires Valid()
      modifies this
      ensures Valid() && nextId == old(nextId)
      ensures id !in old(users) ==> r == Err(NotFound)
      ensures id in old(users) ==> (r.Ok? <==> PatchOf(req, encoded).Ok?)
      ensures id in old(users) && r.Err? ==> r.error == UnknownRole
      ensures r.Err? ==> users == old(users)
      ensures r.Ok? ==>
        (id in old(users) &&
         r.value == Patched(old(users)[id], PatchOf(req, encoded).value) &&
         users == old(users)[id := r.value])
    {
      if id !in users {
        return Err(NotFound);
      }
      var user := users[id];
      if req.email.Some? {
        user := user.(email := req.email.value);
      }
      if RolesGiven(req) {
        var roles := ResolveRoles(req.roles.value);
        if roles.Err? {
          return Err(UnknownRole);
        }
        user := user.(roles := roles.value);
      }
      if req.active.Some? {
        user := user.(active := req.active.value);
      }
      if PasswordGiven(req) {
        user := user.(password := encoded);
      }
      users := users[id := user];
      r := Ok(user);
    }
  }
}
