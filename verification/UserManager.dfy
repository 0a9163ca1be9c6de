/** The in-memory copy of users, friendships and group administrators, and the tables behind it. */
module UserManager {
  /** Account ids from here on belong to groups. */
  const GroupBoundary := 0xFFFFFFF

  /** A row of the user table, without the fields that no property here mentions. */
  datatype Account = Account(username: string, mail: string, ownerid: int)

  /** Rows of the relationship table (no key keeps a pair from occurring twice) and of the administrator table. */
  datatype Relation = Relation(small: int, great: int)
  datatype Admin = Admin(group: int, user: int)

  datatype Tables = Tables(accounts: map<int, Account>, relations: seq<Relation>, admins: seq<Admin>)

  /** A cached user or group. */
  datatype Profile = Profile(account: Account, friends: set<int>, admins: set<int>)

  /** order is the order of the list that names are looked up in. */
  datatype State = State(db: Tables, users: map<int, Profile>, order: seq<int>, baseUser: int, baseGroup: int)

  // ----- what a reload builds -----

  function FriendsOf(id: int, rows: seq<Relation>): set<int> {
    (set r | r in rows && r.small == id :: r.great) + (set r | r in rows && r.great == id && r.small != id :: r.small)
  }

  function AdminsOf(group: int, rows: seq<Admin>): set<int> {
    set r | r in rows && r.group == group :: r.user
  }

  function LoadedProfile(id: int, db: Tables): Profile
    requires id in db.accounts
  {
    Profile(db.accounts[id], FriendsOf(id, db.relations), if id >= GroupBoundary then AdminsOf(id, db.admins) else {})
  }

  function Reload(db: Tables): map<int, Profile> {
    map id | id in db.accounts :: LoadedProfile(id, db)
  }

  /** A reload reads administrators for the accounts from id 0xFFFFFFF on, and friends for all. */
  lemma ReloadReads(db: Tables, id: int)
    requires id in db.accounts
    ensures var p := Reload(db)[id];
      && p.account == db.accounts[id]
      && (forall f :: f in p.friends <==>
            Relation(id, f) in db.relations || (f != id && Relation(f, id) in db.relations))
      && (forall u :: u in p.admins <==> id >= 0xFFFFFFF && Admin(id, u) in db.admins)
  {
  }

  /**
   The user base is the largest user id, as a reload would find it; the group base is no smaller
   than any group's.
   */
  predicate BasesAbove(ids: set<int>, baseUser: int, baseGroup: int) {
    && 0 <= baseUser < GroupBoundary <= baseGroup
    && (baseUser == 0 || baseUser in ids)
    && forall id | id in ids :: if id < GroupBoundary then id <= baseUser else id <= baseGroup
  }

  predicate IsOrder(order: seq<int>, ids: set<int>) {
    && (forall i | 0 <= i < |order| :: order[i] in ids)
    && (forall id | id in ids :: id in order)
    && (forall i, j | 0 <= i < j < |order| :: order[i] != order[j])
  }

  // ----- operations -----

  predicate Lists(order: seq<int>, users: map<int, Profile>) {
    forall i | 0 <= i < |order| :: order[i] in users
  }

  /** The duplicate check of AddUser, in list order. */
  function Taken(users: map<int, Profile>, order: seq<int>, a: Account): (code: int)
    ensures 0 <= code <= 2
  {
    if order == [] then 0
    else if order[0] in users && users[order[0]].account.username == a.username then 1
    else if order[0] in users && a.mail != "" && users[order[0]].account.mail == a.mail then 2
    else Taken(users, order[1..], a)
  }

  datatype Action =
    | AddUser(username: string, mail: string, up: bool)
    | AddGroup(name: string, ownerid: int, up: bool)
    | MakeFriend(small: int, great: int, up: bool)
    | ReleaseFriend(small: int, great: int, up: bool)
    | DeleteFriend(user: int, friend: int, up: bool)
    | SetAdmin(group: int, user: int, isAdmin: bool, found: bool, up: bool)
    | UpdateInfo(id: int, mail: string, up: bool)
    | Rename(id: int, name: string, up: bool)

  /** The table's primary key refuses a second row with the same id. */
  predicate Inserted(db: Tables, id: int, up: bool) {
    up && id !in db.accounts
  }

  function WithAccount(s: State, id: int, a: Account): State {
    s.(db := s.db.(accounts := s.db.accounts[id := a]),
       users := s.users[id := Profile(a, {}, {})], order := s.order + [id])
  }

  function WithFriends(users: map<int, Profile>, id: int, friends: set<int>): map<int, Profile>
    requires id in users
  {
    users[id := users[id].(friends := friends)]
  }

  function Befriend(users: map<int, Profile>, id: int, other: int): map<int, Profile> {
    if id in users then WithFriends(users, id, users[id].friends + {other}) else users
  }

  function Unfriend(users: map<int, Profile>, id: int, other: int): map<int, Profile> {
    if id in users then WithFriends(users, id, users[id].friends - {other}) else users
  }

  function Without<T(==, !new)>(rows: seq<T>, row: T): (r: seq<T>)
    ensures forall x :: x in r <==> x in rows && x != row
  {
    if rows == [] then []
    else if rows[0] == row then Without(rows[1..], row)
    else [rows[0]] + Without(rows[1..], row)
  }

  function DoAddUser(s: State, a: Account, up: bool): (State, int)
  {
    var code := Taken(s.users, s.order, a);
    if code != 0 then (s, code)
    else if !Inserted(s.db, s.baseUser + 1, up) then (s, 3)
    else (WithAccount(s, s.baseUser + 1, a).(baseUser := s.baseUser + 1), 0)
  }

  function DoAddGroup(s: State, a: Account, up: bool): (State, bool) {
    var n := s.(baseGroup := s.baseGroup + 1);
    if Inserted(s.db, n.baseGroup, up) then (WithAccount(n, n.baseGroup, a), true) else (n, false)
  }

  /** Without the smaller id the greater one is not reached. */
  function DoMakeFriend(s: State, small: int, great: int, up: bool): (State, bool) {
    if small >= great || !up then (s, false)
    else
      var n := s.(db := s.db.(relations := s.db.relations + [Relation(small, great)]));
      if small !in s.users then (n, false)
      else (n.(users := Befriend(Befriend(s.users, small, great), great, small)), great in s.users)
  }

  function DoUnfriend(s: State, small: int, great: int): State {
    s.(db := s.db.(relations := Without(s.db.relations, Relation(small, great))),
       users := Unfriend(Unfriend(s.users, small, great), great, small))
  }

  function DoReleaseFriend(s: State, small: int, great: int, up: bool): (State, bool) {
    if small >= great || !up then (s, false) else (DoUnfriend(s, small, great), true)
  }

  function DoDeleteFriend(s: State, user: int, friend: int, up: bool): (State, bool) {
    if !up then (s, false)
    else if user < friend then (DoUnfriend(s, user, friend), true)
    else (DoUnfriend(s, friend, user), true)
  }

  /** found: the query saw a row for the pair. */
  function DoSetAdmin(s: State, group: int, user: int, isAdmin: bool, found: bool, up: bool): (State, bool) {
    if !up && !(isAdmin && found) then (s, false)
    else
      var rows :=
        if !isAdmin then Without(s.db.admins, Admin(group, user))
        else if found then s.db.admins
        else s.db.admins + [Admin(group, user)];
      var n := s.(db := s.db.(admins := rows));
      if group !in s.users then (n, true)
      else
        var was := s.users[group].admins;
        var now := if isAdmin then was + {user} else was - {user};
        (n.(users := s.users[group := s.users[group].(admins := now)]), true)
  }

  /** An update of a row that is not there succeeds and changes nothing. */
  function DoUpdateInfo(s: State, id: int, mail: string, up: bool): (State, bool) {
    if !up then (s, false)
    else
      var rows := s.db.accounts;
      (s.(db := s.db.(accounts := if id in rows then rows[id := rows[id].(mail := mail)] else rows),
          users := WithMail(s.users, id, mail)), true)
  }

  function DoRename(s: State, id: int, name: string, up: bool): (State, bool) {
    if !up then (s, false)
    else
      var rows := s.db.accounts;
      (s.(db := s.db.(accounts := if id in rows then rows[id := rows[id].(username := name)] else rows),
          users := WithName(s.users, id, name)), true)
  }

  function WithMail(users: map<int, Profile>, id: int, mail: string): map<int, Profile> {
    if id in users then users[id := users[id].(account := users[id].account.(mail := mail))] else users
  }

  function WithName(users: map<int, Profile>, id: int, name: string): map<int, Profile> {
    if id in users then users[id := users[id].(account := users[id].account.(username := name))] else users
  }

  function Step(s: State, a: Action): State {
    match a
    case AddUser(username, mail, up) => DoAddUser(s, Account(username, mail, 0), up).0
    case AddGroup(name, ownerid, up) => DoAddGroup(s, Account(name, "", ownerid), up).0
    case MakeFriend(small, great, up) => DoMakeFriend(s, small, great, up).0
    case ReleaseFriend(small, great, up) => DoReleaseFriend(s, small, great, up).0
    case DeleteFriend(user, friend, up) => DoDeleteFriend(s, user, friend, up).0
    case SetAdmin(group, user, isAdmin, found, up) => DoSetAdmin(s, group, user, isAdmin, found, up).0
    case UpdateInfo(id, mail, up) => DoUpdateInfo(s, id, mail, up).0
    case Rename(id, name, up) => DoRename(s, id, name, up).0
  }

  // ----- the cache equals a reload -----

  /** The cache is what a reload would build. */
  predicate Synced(s: State) {
    s.users == Reload(s.db)
  }

  /** Relations and administrators name known accounts. */
  predicate Closed(db: Tables) {
    && (forall r | r in db.relations :: r.small < r.great && r.small in db.accounts && r.great in db.accounts)
    && (forall r | r in db.admins :: r.group in db.accounts && r.group >= GroupBoundary)
  }

  predicate Inv(s: State) {
    && Synced(s)
    && Closed(s.db)
    && IsOrder(s.order, s.users.Keys)
    && BasesAbove(s.users.Keys, s.baseUser, s.baseGroup)
  }

  /** What the environment gives: a query that works finds exactly what the table holds. */
  predicate Possible(s: State, a: Action) {
    a.SetAdmin? && a.found ==> Admin(a.group, a.user) in s.db.admins
  }

  /** Calls on accounts in the cache, and room for another user id. */
  predicate Known(s: State, a: Action) {
    match a
    case AddUser(_, _, _) => s.baseUser + 1 < GroupBoundary
    case AddGroup(_, _, _) => true
    case MakeFriend(small, great, _) => small in s.users && great in s.users
    case ReleaseFriend(_, _, _) => true
    case DeleteFriend(_, _, _) => true
    case SetAdmin(group, _, _, _, _) => group in s.users && group >= GroupBoundary
    case UpdateInfo(_, _, _) => true
    case Rename(_, _, _) => true
  }

  lemma FriendsAfterInsert(id: int, rows: seq<Relation>, r: Relation)
    requires r.small != r.great
    ensures FriendsOf(id, rows + [r])
      == FriendsOf(id, rows) + (if id == r.small then {r.great} else if id == r.great then {r.small} else {})
  {
  }

  /** Deleting the row of a pair ends the friendship, as no row holds the pair the other way round. */
  lemma FriendsAfterDelete(id: int, rows: seq<Relation>, r: Relation)
    requires r.small <= r.great && forall x | x in rows :: x.small < x.great
    ensures FriendsOf(id, Without(rows, r))
      == FriendsOf(id, rows) - (if id == r.small then {r.great} else if id == r.great then {r.small} else {})
  {
    var left, cut := Without(rows, r), if id == r.small then {r.great} else if id == r.great then {r.small} else {};
    forall f | f in FriendsOf(id, rows) && f !in cut
      ensures f in FriendsOf(id, left)
    {
      var x :| x in rows && ((x.small == id && x.great == f) || (x.great == id && x.small == f));
      assert x in left;
    }
  }

  lemma AdminsAfterInsert(group: int, rows: seq<Admin>, r: Admin)
    ensures AdminsOf(group, rows + [r]) == AdminsOf(group, rows) + (if group == r.group then {r.user} else {})
  {
  }

  lemma AdminsAfterDelete(group: int, rows: seq<Admin>, r: Admin)
    ensures AdminsOf(group, Without(rows, r)) == AdminsOf(group, rows) - (if group == r.group then {r.user} else {})
  {
    var left := Without(rows, r);
    forall u | u in AdminsOf(group, rows) && !(group == r.group && u == r.user)
      ensures u in AdminsOf(group, left)
    {
      var x :| x in rows && x.group == group && x.user == u;
      assert x in left;
    }
  }

  lemma StrangersHaveNothing(id: int, db: Tables)
    requires Closed(db) && id !in db.accounts
    ensures FriendsOf(id, db.relations) == {} && AdminsOf(id, db.admins) == {}
  {
  }

  /** A new account starts without friends and administrators, as a reload would have it. */
  lemma AddKeepsSync(s: State, id: int, a: Account)
    requires Synced(s) && Closed(s.db) && id !in s.db.accounts
    ensures Synced(WithAccount(s, id, a)) && Closed(WithAccount(s, id, a).db)
  {
    StrangersHaveNothing(id, s.db);
    hide FriendsOf, AdminsOf;
  }

  lemma OrderGrows(order: seq<int>, ids: set<int>, id: int)
    requires IsOrder(order, ids) && id !in ids
    ensures IsOrder(order + [id], ids + {id})
  {
  }

  lemma AddUserKeepsInv(s: State, a: Account, up: bool)
    requires Inv(s) && s.baseUser + 1 < GroupBoundary
    ensures Inv(DoAddUser(s, a, up).0)
  {
    hide Synced, Closed, Taken, IsOrder;
    AccountsAreCached(s);
    var id := s.baseUser + 1;
    assert id !in s.users;
    AddKeepsSync(s, id, a);
    OrderGrows(s.order, s.users.Keys, id);
    SyncIgnoresBases(WithAccount(s, id, a), id, s.baseGroup);
    assert WithAccount(s, id, a).users.Keys == s.users.Keys + {id};
  }

  lemma AddGroupKeepsInv(s: State, a: Account, up: bool)
    requires Inv(s)
    ensures Inv(DoAddGroup(s, a, up).0)
  {
    hide Synced, Closed, IsOrder;
    AccountsAreCached(s);
    var n := s.(baseGroup := s.baseGroup + 1);
    SyncIgnoresBases(s, s.baseUser, n.baseGroup);
    assert n.baseGroup !in s.users;
    AddKeepsSync(n, n.baseGroup, a);
    OrderGrows(s.order, s.users.Keys, n.baseGroup);
    assert WithAccount(n, n.baseGroup, a).users.Keys == s.users.Keys + {n.baseGroup};
  }

  lemma AccountsAreCached(s: State)
    requires Synced(s)
    ensures s.users.Keys == s.db.accounts.Keys
  {
  }

  lemma SyncIgnoresBases(s: State, baseUser: int, baseGroup: int)
    ensures Synced(s.(baseUser := baseUser, baseGroup := baseGroup)) == Synced(s)
  {
  }

  lemma MakeKeepsSync(s: State, small: int, great: int)
    requires Synced(s) && small < great && small in s.users
    ensures Synced(DoMakeFriend(s, small, great, true).0)
  {
    hide FriendsOf, AdminsOf;
    var n := DoMakeFriend(s, small, great, true).0;
    forall id | id in s.db.accounts
      ensures n.users[id] == LoadedProfile(id, n.db)
    {
      FriendsAfterInsert(id, s.db.relations, Relation(small, great));
    }
  }

  lemma UnfriendKeepsSync(s: State, small: int, great: int)
    requires Synced(s) && Closed(s.db) && small <= great
    ensures Synced(DoUnfriend(s, small, great))
  {
    hide FriendsOf, AdminsOf, Without;
    var n := DoUnfriend(s, small, great);
    forall id | id in s.db.accounts
      ensures n.users[id] == LoadedProfile(id, n.db)
    {
      FriendsAfterDelete(id, s.db.relations, Relation(small, great));
    }
  }

  lemma AdminKeepsSync(s: State, group: int, user: int, isAdmin: bool, found: bool, up: bool)
    requires Synced(s) && Closed(s.db) && group in s.users && group >= GroupBoundary
    requires found ==> Admin(group, user) in s.db.admins
    ensures Synced(DoSetAdmin(s, group, user, isAdmin, found, up).0)
  {
    var r := Admin(group, user);
    var n := DoSetAdmin(s, group, user, isAdmin, found, up).0;
    forall id | id in s.db.accounts
      ensures n.users[id] == LoadedProfile(id, n.db)
    {
      AdminsAfterInsert(id, s.db.admins, r);
      AdminsAfterDelete(id, s.db.admins, r);
      if found {
        assert user in AdminsOf(group, s.db.admins);
      }
    }
  }

  predicate ChangesAccounts(a: Action) {
    a.AddUser? || a.AddGroup? || a.UpdateInfo? || a.Rename?
  }

  lemma UpdateKeepsInv(s: State, id: int, mail: string, up: bool)
    requires Inv(s)
    ensures Inv(DoUpdateInfo(s, id, mail, up).0)
  {
    hide FriendsOf, AdminsOf, IsOrder, BasesAbove;
    AccountsAreCached(s);
    assert WithMail(s.users, id, mail).Keys == s.users.Keys;
  }

  lemma RenameKeepsInv(s: State, id: int, name: string, up: bool)
    requires Inv(s)
    ensures Inv(DoRename(s, id, name, up).0)
  {
    hide FriendsOf, AdminsOf, IsOrder, BasesAbove;
    AccountsAreCached(s);
    assert WithName(s.users, id, name).Keys == s.users.Keys;
  }

  lemma StepKeepsSync(s: State, a: Action)
    requires Inv(s) && Possible(s, a) && Known(s, a) && !ChangesAccounts(a)
    ensures Synced(Step(s, a))
  {
    hide Synced, IsOrder, BasesAbove, DoUnfriend;
    match a {
      case MakeFriend(small, great, up) =>
        if small < great {
          MakeKeepsSync(s, small, great);
        }
      case ReleaseFriend(small, great, up) =>
        if small < great {
          UnfriendKeepsSync(s, small, great);
        }
      case DeleteFriend(user, friend, up) =>
        UnfriendKeepsSync(s, if user < friend then user else friend, if user < friend then friend else user);
      case SetAdmin(group, user, isAdmin, found, up) =>
        AdminKeepsSync(s, group, user, isAdmin, found, up);
      case _ =>
    }
  }

  /** Relationship and administrator calls change no ids. */
  lemma SameAccounts(s: State, a: Action)
    requires Inv(s) && !ChangesAccounts(a)
    ensures var n := Step(s, a);
      && n.users.Keys == s.users.Keys && n.order == s.order && n.db.accounts == s.db.accounts
      && n.baseUser == s.baseUser && n.baseGroup == s.baseGroup
  {
    hide Synced, Closed, IsOrder, BasesAbove, Without;
  }

  lemma RowsStayClosed(s: State, a: Action)
    requires Inv(s) && Known(s, a) && !ChangesAccounts(a)
    ensures Closed(Step(s, a).db)
  {
    AccountsAreCached(s);
    hide Synced, IsOrder, BasesAbove;
  }

  lemma StepKeepsInv(s: State, a: Action)
    requires Inv(s) && Possible(s, a) && Known(s, a)
    ensures Inv(Step(s, a))
  {
    hide Synced, Closed, IsOrder, BasesAbove, DoMakeFriend, DoReleaseFriend, DoDeleteFriend, DoSetAdmin, DoAddUser, DoAddGroup,
      DoUpdateInfo, DoRename;
    match a {
      case AddUser(username, mail, up) => AddUserKeepsInv(s, Account(username, mail, 0), up);
      case AddGroup(name, ownerid, up) => AddGroupKeepsInv(s, Account(name, "", ownerid), up);
      case UpdateInfo(id, mail, up) => UpdateKeepsInv(s, id, mail, up);
      case Rename(id, name, up) => RenameKeepsInv(s, id, name, up);
      case _ =>
        StepKeepsSync(s, a);
        SameAccounts(s, a);
        RowsStayClosed(s, a);
    }
  }

  // ----- runs -----

  /** Every call of the run is on accounts that the cache then holds. */
  predicate KnownRun(s: State, run: seq<Action>)
    decreases |run|
  {
    run != [] ==> Possible(s, run[0]) && Known(s, run[0]) && KnownRun(Step(s, run[0]), run[1..])
  }

  function After(s: State, run: seq<Action>): State
    decreases |run|
  {
    if run == [] then s else After(Step(s, run[0]), run[1..])
  }

  lemma {:induction false} RunKeepsInv(s: State, run: seq<Action>)
    requires Inv(s) && KnownRun(s, run)
    ensures Inv(After(s, run))
    decreases |run|
  {
    hide Step, Inv, Possible, Known;
    if run != [] {
      StepKeepsInv(s, run[0]);
      RunKeepsInv(Step(s, run[0]), run[1..]);
    }
  }

  /** After any run the friend and administrator sets are those a reload would build. */
  lemma CacheEqualsReload(s: State, run: seq<Action>, id: int)
    requires Inv(s) && KnownRun(s, run)
    requires id in After(s, run).users
    ensures var n := After(s, run);
      && id in n.db.accounts
      && n.users[id].account == n.db.accounts[id]
      && n.users[id].friends == FriendsOf(id, n.db.relations)
      && (id >= 0xFFFFFFF ==> n.users[id].admins == AdminsOf(id, n.db.admins))
      && (id < 0xFFFFFFF ==> n.users[id].admins == {})
  {
    RunKeepsInv(s, run);
  }

  /** Friendship stays symmetric, with nobody their own friend, and reaches only known accounts. */
  lemma FriendshipIsSymmetric(s: State, run: seq<Action>, a: int, b: int)
    requires Inv(s) && KnownRun(s, run)
    requires a in After(s, run).users && b in After(s, run).users[a].friends
    ensures var n := After(s, run);
      a != b && b in n.users && a in n.users[b].friends
  {
    RunKeepsInv(s, run);
    var n := After(s, run);
    AccountsAreCached(n);
    assert b in FriendsOf(a, n.db.relations);
    var r :| r in n.db.relations && ((r.small == a && r.great == b) || (r.great == a && r.small == b));
  }

  // ----- what each call does to friendships, administrators and accounts -----

  predicate AreFriends(users: map<int, Profile>, a: int, b: int) {
    a in users && b in users[a].friends
  }

  predicate Administers(users: map<int, Profile>, group: int, user: int) {
    group in users && user in users[group].admins
  }

  predicate Pair(small: int, great: int, a: int, b: int) {
    (a == small && b == great) || (a == great && b == small)
  }

  /** The same accounts are cached, listed and stored, with the same details. */
  predicate SameDetails(s: State, n: State) {
    && n.db.accounts == s.db.accounts && n.order == s.order && n.baseUser == s.baseUser && n.baseGroup == s.baseGroup
    && n.users.Keys == s.users.Keys && forall id | id in s.users :: n.users[id].account == s.users[id].account
  }

  ghost predicate SameFriends(s: State, n: State) {
    n.db.relations == s.db.relations && forall a, b :: AreFriends(n.users, a, b) <==> AreFriends(s.users, a, b)
  }

  ghost predicate SameAdmins(s: State, n: State) {
    n.db.admins == s.db.admins && forall g, u :: Administers(n.users, g, u) <==> Administers(s.users, g, u)
  }

  /**
   Making friends succeeds exactly when the two are given in order, the table is reached, and both are
   cached. The table gains exactly the row of the pair, whenever it is reached; each gains the other as
   a friend, except that the greater one does not when the smaller is missing; nothing else changes.
   */
  lemma MakeFriendMakesFriends(s: State, small: int, great: int, up: bool)
    ensures var (n, ok) := DoMakeFriend(s, small, great, up); var stored := up && small < great;
      && (ok <==> stored && small in s.users && great in s.users)
      && multiset(n.db.relations) == multiset(s.db.relations) + (if stored then multiset{Relation(small, great)} else multiset{})
      && (forall a, b :: AreFriends(n.users, a, b) <==>
            AreFriends(s.users, a, b) || (stored && small in s.users && a in s.users && Pair(small, great, a, b)))
      && SameDetails(s, n) && SameAdmins(s, n)
  {
  }

  /** Ending a friendship, in the table and for both accounts as far as they are cached, and nothing else. */
  ghost predicate Ended(s: State, n: State, small: int, great: int) {
    && (forall r :: r in n.db.relations <==> r in s.db.relations && r != Relation(small, great))
    && (forall a, b :: AreFriends(n.users, a, b) <==> AreFriends(s.users, a, b) && !Pair(small, great, a, b))
    && SameDetails(s, n) && SameAdmins(s, n)
  }

  lemma UnfriendEnds(s: State, small: int, great: int)
    ensures Ended(s, DoUnfriend(s, small, great), small, great)
  {
    hide Without;
  }

  lemma ReleaseFriendEndsFriendship(s: State, small: int, great: int, up: bool)
    ensures var (n, ok) := DoReleaseFriend(s, small, great, up);
      (ok <==> up && small < great) && (if ok then Ended(s, n, small, great) else n == s)
  {
    hide DoUnfriend, Ended;
    UnfriendEnds(s, small, great);
  }

  /** Deleting takes the two in either order. */
  lemma DeleteFriendEndsFriendship(s: State, user: int, friend: int, up: bool)
    ensures var (n, ok) := DoDeleteFriend(s, user, friend, up);
      && ok == up
      && if ok then Ended(s, n, if user < friend then user else friend, if user < friend then friend else user) else n == s
  {
    hide DoUnfriend, Ended;
    UnfriendEnds(s, user, friend);
    UnfriendEnds(s, friend, user);
  }

  /**
   Setting an administrator that the tables hold as the query says: the cached account gains or
   loses exactly that one.
   */
  lemma SetAdminSetsAdmin(s: State, group: int, user: int, isAdmin: bool, found: bool, up: bool)
    requires found ==> Admin(group, user) in s.db.admins
    ensures var (n, ok) := DoSetAdmin(s, group, user, isAdmin, found, up);
      var gained := if up && !found then multiset{Admin(group, user)} else multiset{};
      && (ok <==> up || (isAdmin && found))
      && (!ok ==> n == s)
      && (ok ==> forall r :: r in n.db.admins <==> if r == Admin(group, user) then isAdmin else r in s.db.admins)
      && (isAdmin ==> multiset(n.db.admins) == multiset(s.db.admins) + gained)
      && (ok ==> forall g, u :: Administers(n.users, g, u) <==>
            if g == group && u == user then isAdmin && group in s.users else Administers(s.users, g, u))
      && SameDetails(s, n) && SameFriends(s, n)
  {
    hide Without;
  }

  /**
   The account of an id is the one with the given details in the cache and in the table, without
   friends and administrators.
   */
  predicate Holds(n: State, id: int, a: Account) {
    id in n.users && n.users[id].account == a && id in n.db.accounts && n.db.accounts[id] == a
  }

  /** One more account, and every other as before. */
  predicate Gained(s: State, n: State, id: int, a: Account) {
    && Holds(n, id, a) && n.users[id].friends == {} && n.users[id].admins == {}
    && n.users.Keys == s.users.Keys + {id} && n.db.accounts.Keys == s.db.accounts.Keys + {id}
    && (forall other | other in s.users && other != id :: n.users[other] == s.users[other])
    && (forall other | other in s.db.accounts && other != id :: n.db.accounts[other] == s.db.accounts[other])
    && n.order == s.order + [id] && n.db.relations == s.db.relations && n.db.admins == s.db.admins
  }

  /**
   A registration that succeeds adds exactly the account it is given, under the next id; one that
   fails changes nothing.
   */
  lemma RegistrationAddsAccount(s: State, a: Account, up: bool)
    ensures var (n, code) := DoAddUser(s, a, up); var taken := Taken(s.users, s.order, a);
      && (taken != 0 ==> code == taken)
      && (taken == 0 ==> code == if up && s.baseUser + 1 !in s.db.accounts then 0 else 3)
      && (if code == 0 then Gained(s, n, s.baseUser + 1, a) && n.baseUser == s.baseUser + 1 && n.baseGroup == s.baseGroup
          else n == s)
  {
    hide Taken;
  }

  /** A group likewise, except that a failure uses the id up. */
  lemma GroupIsAdded(s: State, a: Account, up: bool)
    ensures var (n, ok) := DoAddGroup(s, a, up);
      && n.baseGroup == s.baseGroup + 1 && n.baseUser == s.baseUser
      && (ok <==> up && s.baseGroup + 1 !in s.db.accounts)
      && if ok then Gained(s, n, n.baseGroup, a) else n.(baseGroup := s.baseGroup) == s
  {
  }

  /** The details of one account change, in the cache and in the table as far as it is there, and nothing else. */
  predicate Changed(s: State, n: State, id: int, mail: string, name: string) {
    && n.users.Keys == s.users.Keys && n.db.accounts.Keys == s.db.accounts.Keys
    && (forall other | other in s.users && other != id :: n.users[other] == s.users[other])
    && (forall other | other in s.db.accounts && other != id :: n.db.accounts[other] == s.db.accounts[other])
    && (id in s.users ==> n.users[id].account == Account(name, mail, s.users[id].account.ownerid)
                          && n.users[id].friends == s.users[id].friends && n.users[id].admins == s.users[id].admins)
    && (id in s.db.accounts ==> n.db.accounts[id] == Account(name, mail, s.db.accounts[id].ownerid))
    && n.order == s.order && n.db.relations == s.db.relations && n.db.admins == s.db.admins
    && n.baseUser == s.baseUser && n.baseGroup == s.baseGroup
  }

  /**
   An update sets the mail address, and a renaming the name, of exactly the account it names, when
   the table is reached.
   */
  lemma UpdatesChangeOneAccount(s: State, id: int, mail: string, name: string, up: bool)
    requires id in s.users && id in s.db.accounts && s.users[id].account == s.db.accounts[id]
    ensures var (n, ok) := DoUpdateInfo(s, id, mail, up);
      ok == up && if ok then Changed(s, n, id, mail, s.users[id].account.username) else n == s
    ensures var (n, ok) := DoRename(s, id, name, up);
      ok == up && if ok then Changed(s, n, id, s.users[id].account.mail, name) else n == s
  {
  }

  // ----- friendships over runs -----

  predicate Makes(a: Action, x: int, y: int) {
    a.MakeFriend? && a.up && a.small < a.great && Pair(a.small, a.great, x, y)
  }

  predicate Parts(a: Action, x: int, y: int) {
    || (a.ReleaseFriend? && a.up && a.small < a.great && Pair(a.small, a.great, x, y))
    || (a.DeleteFriend? && a.up && Pair(a.user, a.friend, x, y))
  }

  lemma StepMakesAndParts(s: State, a: Action, x: int, y: int)
    requires Inv(s) && Possible(s, a) && Known(s, a)
    ensures AreFriends(Step(s, a).users, x, y) <==> Makes(a, x, y) || (AreFriends(s.users, x, y) && !Parts(a, x, y))
  {
    hide DoUnfriend, Without, Taken, Synced, Closed, IsOrder, Ended;
    match a {
      case MakeFriend(small, great, up) => MakeFriendMakesFriends(s, small, great, up);
      case ReleaseFriend(small, great, up) =>
        ReleaseFriendEndsFriendship(s, small, great, up);
        EndedIs(s, small, great, x, y);
      case DeleteFriend(user, friend, up) =>
        EndedIs(s, user, friend, x, y);
        EndedIs(s, friend, user, x, y);
      case AddUser(username, mail, up) =>
        NewIdIsNew(s);
      case AddGroup(name, ownerid, up) =>
        NewIdIsNew(s);
      case _ =>
    }
  }

  lemma EndedIs(s: State, small: int, great: int, x: int, y: int)
    ensures AreFriends(DoUnfriend(s, small, great).users, x, y) <==> AreFriends(s.users, x, y) && !Pair(small, great, x, y)
  {
    UnfriendEnds(s, small, great);
  }

  lemma NewIdIsNew(s: State)
    requires Inv(s)
    ensures s.baseUser + 1 < GroupBoundary ==> s.baseUser + 1 !in s.users
    ensures s.baseGroup + 1 !in s.users
  {
    AccountsAreCached(s);
  }

  /** Whether a call makes something that holds at the end of the run: nothing later ends it. */
  predicate MadeFor(run: seq<Action>, x: int, y: int) {
    exists i | 0 <= i < |run| :: Makes(run[i], x, y) && forall j | i < j < |run| :: !Parts(run[j], x, y)
  }

  predicate NeverParted(run: seq<Action>, x: int, y: int) {
    forall j | 0 <= j < |run| :: !Parts(run[j], x, y)
  }

  lemma MadeForUnfolds(run: seq<Action>, x: int, y: int)
    requires run != []
    ensures MadeFor(run, x, y) <==> MadeFor(run[1..], x, y) || (Makes(run[0], x, y) && NeverParted(run[1..], x, y))
    ensures NeverParted(run, x, y) <==> !Parts(run[0], x, y) && NeverParted(run[1..], x, y)
  {
    hide Makes, Parts;
    var rest := run[1..];
    if i :| 0 <= i < |rest| && Makes(rest[i], x, y) && forall j | i < j < |rest| :: !Parts(rest[j], x, y) {
      assert Makes(run[i + 1], x, y);
      assert forall j | i + 1 < j < |run| :: run[j] == rest[j - 1];
    }
    if i :| 0 <= i < |run| && Makes(run[i], x, y) && forall j | i < j < |run| :: !Parts(run[j], x, y) {
      assert forall j | 0 <= j < |rest| :: rest[j] == run[j + 1];
      if i > 0 {
        assert Makes(rest[i - 1], x, y);
      }
    }
    assert forall j | 0 <= j < |rest| :: rest[j] == run[j + 1];
    assert forall j | 0 < j < |run| :: run[j] == rest[j - 1];
  }

  /**
   After any run two accounts are friends exactly when a call made them friends and none has parted them
   since, or they were friends before and none has.
   */
  lemma {:induction false} FriendsExactly(s: State, run: seq<Action>, x: int, y: int)
    requires Inv(s) && KnownRun(s, run)
    ensures AreFriends(After(s, run).users, x, y) <==>
      MadeFor(run, x, y) || (AreFriends(s.users, x, y) && NeverParted(run, x, y))
    decreases |run|
  {
    hide Step, Inv, Possible, Known, AreFriends, Makes, Parts, MadeFor, NeverParted;
    if run == [] {
      EmptyRun(run, x, y);
    } else {
      StepKeepsInv(s, run[0]);
      StepMakesAndParts(s, run[0], x, y);
      FriendsExactly(Step(s, run[0]), run[1..], x, y);
      MadeForUnfolds(run, x, y);
    }
  }

  lemma EmptyRun(run: seq<Action>, x: int, y: int)
    requires run == []
    ensures !MadeFor(run, x, y) && NeverParted(run, x, y)
  {
  }

  // ----- administrators and accounts over runs -----

  predicate Sets(a: Action, group: int, user: int, isAdmin: bool) {
    a.SetAdmin? && a.group == group && a.user == user && a.isAdmin == isAdmin && (a.up || (isAdmin && a.found))
  }

  lemma StepSetsAdmin(s: State, a: Action, group: int, user: int)
    requires Inv(s) && Possible(s, a) && Known(s, a)
    ensures Administers(Step(s, a).users, group, user) <==>
      Sets(a, group, user, true) || (Administers(s.users, group, user) && !Sets(a, group, user, false))
  {
    hide DoUnfriend, Without, Taken, Synced, Closed, IsOrder, Ended;
    match a {
      case SetAdmin(g, u, isAdmin, found, up) => SetAdminSetsAdmin(s, g, u, isAdmin, found, up);
      case MakeFriend(small, great, up) => MakeFriendMakesFriends(s, small, great, up);
      case ReleaseFriend(small, great, up) => AdminsLeftAlone(s, small, great, group, user);
      case DeleteFriend(u, friend, up) =>
        AdminsLeftAlone(s, u, friend, group, user);
        AdminsLeftAlone(s, friend, u, group, user);
      case AddUser(username, mail, up) =>
        NewIdIsNew(s);
      case AddGroup(name, ownerid, up) =>
        NewIdIsNew(s);
      case _ =>
    }
  }

  lemma AdminsLeftAlone(s: State, small: int, great: int, group: int, user: int)
    ensures Administers(DoUnfriend(s, small, great).users, group, user) <==> Administers(s.users, group, user)
  {
    UnfriendEnds(s, small, great);
  }

  predicate SetFor(run: seq<Action>, group: int, user: int) {
    exists i | 0 <= i < |run| ::
      Sets(run[i], group, user, true) && forall j | i < j < |run| :: !Sets(run[j], group, user, false)
  }

  predicate NeverUnset(run: seq<Action>, group: int, user: int) {
    forall j | 0 <= j < |run| :: !Sets(run[j], group, user, false)
  }

  lemma SetForUnfolds(run: seq<Action>, g: int, u: int)
    requires run != []
    ensures SetFor(run, g, u) <==> SetFor(run[1..], g, u) || (Sets(run[0], g, u, true) && NeverUnset(run[1..], g, u))
    ensures NeverUnset(run, g, u) <==> !Sets(run[0], g, u, false) && NeverUnset(run[1..], g, u)
  {
    hide Sets;
    var rest := run[1..];
    if i :| 0 <= i < |rest| && Sets(rest[i], g, u, true) && forall j | i < j < |rest| :: !Sets(rest[j], g, u, false) {
      assert Sets(run[i + 1], g, u, true);
      assert forall j | i + 1 < j < |run| :: run[j] == rest[j - 1];
    }
    if i :| 0 <= i < |run| && Sets(run[i], g, u, true) && forall j | i < j < |run| :: !Sets(run[j], g, u, false) {
      assert forall j | 0 <= j < |rest| :: rest[j] == run[j + 1];
      if i > 0 {
        assert Sets(rest[i - 1], g, u, true);
      }
    }
    assert forall j | 0 <= j < |rest| :: rest[j] == run[j + 1];
    assert forall j | 0 < j < |run| :: run[j] == rest[j - 1];
  }

  /** After any run a user administers a group exactly when the latest call about the two that took effect said so. */
  lemma {:induction false} AdminsExactly(s: State, run: seq<Action>, group: int, user: int)
    requires Inv(s) && KnownRun(s, run)
    ensures Administers(After(s, run).users, group, user) <==>
      SetFor(run, group, user) || (Administers(s.users, group, user) && NeverUnset(run, group, user))
    decreases |run|
  {
    hide Step, Inv, Possible, Known, Administers, Sets, SetFor, NeverUnset;
    if run == [] {
      NothingSet(run, group, user);
    } else {
      StepKeepsInv(s, run[0]);
      StepSetsAdmin(s, run[0], group, user);
      AdminsExactly(Step(s, run[0]), run[1..], group, user);
      SetForUnfolds(run, group, user);
    }
  }

  lemma NothingSet(run: seq<Action>, group: int, user: int)
    requires run == []
    ensures !SetFor(run, group, user) && NeverUnset(run, group, user)
  {
  }

  /**
   The id a call gives away: the next one of its kind, when the table is reached and a user's name
   and mail are free.
   */
  function NewIds(s: State, a: Action): set<int> {
    match a
    case AddUser(username, mail, up) =>
      if up && Taken(s.users, s.order, Account(username, mail, 0)) == 0 then {s.baseUser + 1} else {}
    case AddGroup(_, _, up) => if up then {s.baseGroup + 1} else {}
    case _ => {}
  }

  function AllNewIds(s: State, run: seq<Action>): set<int>
    decreases |run|
  {
    if run == [] then {} else NewIds(s, run[0]) + AllNewIds(Step(s, run[0]), run[1..])
  }

  lemma StepGivesIds(s: State, a: Action)
    requires Inv(s) && Possible(s, a) && Known(s, a)
    ensures Step(s, a).users.Keys == s.users.Keys + NewIds(s, a)
  {
    AccountsAreCached(s);
    NewIdIsNew(s);
    if !ChangesAccounts(a) {
      SameAccounts(s, a);
    }
    hide Synced, Closed, IsOrder, Taken, DoMakeFriend, DoReleaseFriend, DoDeleteFriend, DoSetAdmin;
  }

  /** After any run the accounts are those of its start and those that the calls gave ids to: none is lost. */
  lemma {:induction false} AccountsExactly(s: State, run: seq<Action>)
    requires Inv(s) && KnownRun(s, run)
    ensures After(s, run).users.Keys == s.users.Keys + AllNewIds(s, run)
    decreases |run|
  {
    hide Step, Inv, Possible, Known, NewIds;
    if run != [] {
      StepKeepsInv(s, run[0]);
      StepGivesIds(s, run[0]);
      AccountsExactly(Step(s, run[0]), run[1..]);
    }
  }

  // ----- ids -----

  /**
   With the name and mail free and the table reachable, registration succeeds with an unused
   id on the users' side exactly when there is room below the boundary.
   */
  lemma NewUserIdExactly(s: State, a: Account)
    requires Inv(s) && Taken(s.users, s.order, a) == 0
    ensures var (n, code) := DoAddUser(s, a, true);
      (code == 0 && n.baseUser !in s.users && n.baseUser in n.users && n.baseUser < 0xFFFFFFF)
        <==> s.baseUser + 1 < 0xFFFFFFF
  {
    AccountsAreCached(s);
    hide Synced, Closed, Taken;
  }

  /** A group always gets an unused id on the groups' side; a failed attempt uses up the id. */
  lemma NewGroupIdIsFresh(s: State, a: Account, up: bool)
    requires Inv(s)
    ensures var (n, ok) := DoAddGroup(s, a, up);
      && ok == up
      && n.baseGroup !in s.users && n.baseGroup > s.baseGroup && n.baseGroup > 0xFFFFFFF
      && (n.baseGroup in n.users <==> ok)
  {
    AccountsAreCached(s);
    hide Synced, Closed;
  }

  // ----- names -----

  predicate SameName(p: Account, a: Account) {
    p.username == a.username
  }

  predicate SameMail(p: Account, a: Account) {
    a.mail != "" && p.mail == a.mail
  }

  /** The first account in list order that clashes decides the answer. */
  lemma {:induction false} TakenExactly(users: map<int, Profile>, order: seq<int>, a: Account)
    requires Lists(order, users)
    ensures Taken(users, order, a) == 0 <==>
      forall i | 0 <= i < |order| :: !SameName(users[order[i]].account, a) && !SameMail(users[order[i]].account, a)
    ensures Taken(users, order, a) == 1 ==>
      exists i | 0 <= i < |order| :: SameName(users[order[i]].account, a)
    ensures Taken(users, order, a) == 2 ==>
      exists i | 0 <= i < |order| :: SameMail(users[order[i]].account, a)
    decreases |order|
  {
    if order != [] {
      var tail := order[1..];
      TakenExactly(users, tail, a);
      assert forall i | 0 < i < |order| :: order[i] == tail[i - 1];
      if SameName(users[order[0]].account, a) || SameMail(users[order[0]].account, a) {
      } else if Taken(users, tail, a) == 1 {
        var i :| 0 <= i < |tail| && SameName(users[tail[i]].account, a);
        assert SameName(users[order[i + 1]].account, a);
      } else if Taken(users, tail, a) == 2 {
        var i :| 0 <= i < |tail| && SameMail(users[tail[i]].account, a);
        assert SameMail(users[order[i + 1]].account, a);
      } else {
        assert forall i | 0 <= i < |tail| :: !SameName(users[tail[i]].account, a) && !SameMail(users[tail[i]].account, a);
      }
    }
  }

  /** No two users (groups aside) share a name or a mail address. */
  predicate NamesDistinct(users: map<int, Profile>) {
    forall i, j | i in users && j in users && i != j && i < GroupBoundary && j < GroupBoundary ::
      !SameName(users[i].account, users[j].account) && !SameMail(users[i].account, users[j].account)
  }

  /** No other user has the address, or it is empty. */
  predicate MailFree(users: map<int, Profile>, id: int, mail: string) {
    mail == "" || forall other | other in users && other != id && other < GroupBoundary :: users[other].account.mail != mail
  }

  predicate NameFree(users: map<int, Profile>, id: int, name: string) {
    forall other | other in users && other != id && other < GroupBoundary :: users[other].account.username != name
  }

  /**
   A change of a user's details keeps the addresses distinct exactly when the new one is free: the
   program does not look.
   */
  lemma UpdateKeepsNamesExactly(s: State, id: int, mail: string)
    requires NamesDistinct(s.users)
    ensures NamesDistinct(DoUpdateInfo(s, id, mail, true).0.users)
      <==> (id in s.users && id < GroupBoundary ==> MailFree(s.users, id, mail))
  {
    var n := DoUpdateInfo(s, id, mail, true).0.users;
    if id in s.users && id < GroupBoundary && !MailFree(s.users, id, mail) {
      var other :| other in s.users && other != id && other < GroupBoundary && s.users[other].account.mail == mail;
      assert SameMail(n[other].account, n[id].account);
    }
  }

  /** Likewise for a new name, which renaming a group gives to whatever account has the id. */
  lemma RenameKeepsNamesExactly(s: State, id: int, name: string)
    requires NamesDistinct(s.users)
    ensures NamesDistinct(DoRename(s, id, name, true).0.users)
      <==> (id in s.users && id < GroupBoundary ==> NameFree(s.users, id, name))
  {
    var n := DoRename(s, id, name, true).0.users;
    if id in s.users && id < GroupBoundary && !NameFree(s.users, id, name) {
      var other :| other in s.users && other != id && other < GroupBoundary && s.users[other].account.username == name;
      assert SameName(n[other].account, n[id].account);
    }
  }

  /** The guard that the update operations lack. */
  predicate Harmless(s: State, a: Action) {
    match a
    case UpdateInfo(id, mail, up) => up && id in s.users && id < GroupBoundary ==> MailFree(s.users, id, mail)
    case Rename(id, name, up) => up && id in s.users && id < GroupBoundary ==> NameFree(s.users, id, name)
    case _ => true
  }

  /** A step keeps names and addresses distinct exactly when it is no update to one that is taken. */
  lemma StepKeepsNamesExactly(s: State, a: Action)
    requires Inv(s) && Possible(s, a) && Known(s, a) && NamesDistinct(s.users)
    ensures NamesDistinct(Step(s, a).users) <==> Harmless(s, a)
  {
    match a {
      case AddUser(username, mail, up) => RegistrationKeepsNames(s, Account(username, mail, 0), up);
      case AddGroup(name, ownerid, up) =>
        hide Synced, Closed, IsOrder;
      case UpdateInfo(id, mail, up) =>
        UpdateKeepsNamesExactly(s, id, mail);
        hide NamesDistinct, MailFree, WithMail, WithName;
      case Rename(id, name, up) =>
        RenameKeepsNamesExactly(s, id, name);
        hide NamesDistinct, NameFree, WithMail, WithName;
      case _ =>
        SameNames(s, a);
        hide Step;
    }
  }

  lemma RegistrationKeepsNames(s: State, a: Account, up: bool)
    requires Inv(s) && NamesDistinct(s.users) && s.baseUser + 1 < GroupBoundary
    ensures NamesDistinct(DoAddUser(s, a, up).0.users)
  {
    hide Taken, Synced, Closed;
    TakenExactly(s.users, s.order, a);
    assert forall id | id in s.users :: id in s.order;
  }

  lemma SameNames(s: State, a: Action)
    requires !ChangesAccounts(a)
    ensures var n := Step(s, a);
      n.users.Keys == s.users.Keys && forall id | id in s.users :: n.users[id].account == s.users[id].account
  {
    hide Without;
  }

  predicate AlwaysDistinct(s: State, run: seq<Action>)
    decreases |run|
  {
    NamesDistinct(s.users) && (run != [] ==> AlwaysDistinct(Step(s, run[0]), run[1..]))
  }

  predicate HarmlessRun(s: State, run: seq<Action>)
    decreases |run|
  {
    run != [] ==> Harmless(s, run[0]) && HarmlessRun(Step(s, run[0]), run[1..])
  }

  /**
   Over a run no two users ever share a name or an address exactly when no update takes one that
   another user has.
   */
  lemma {:induction false} NamesStayDistinctExactly(s: State, run: seq<Action>)
    requires Inv(s) && KnownRun(s, run) && NamesDistinct(s.users)
    ensures AlwaysDistinct(s, run) <==> HarmlessRun(s, run)
    decreases |run|
  {
    hide Step, Inv, NamesDistinct, Possible, Known, Harmless;
    if run != [] {
      StepKeepsInv(s, run[0]);
      StepKeepsNamesExactly(s, run[0]);
      var n := Step(s, run[0]);
      if NamesDistinct(n.users) {
        NamesStayDistinctExactly(n, run[1..]);
      }
    }
  }

  /** Two users register, and the second then takes the first one's address. */
  lemma SharedAddress() returns (s: State, run: seq<Action>)
    ensures Inv(s) && s.users == map[] && KnownRun(s, run) && |run| == 3
    ensures var n := After(s, run);
      1 in n.users && 2 in n.users && n.users[1].account.mail == n.users[2].account.mail == "m"
  {
    s := State(Tables(map[], [], []), map[], [], 0, GroupBoundary);
    run := [AddUser("a", "m", true), AddUser("b", "n", true), UpdateInfo(2, "m", true)];
    var s1 := WithAccount(s, 1, Account("a", "m", 0)).(baseUser := 1);
    var s2 := WithAccount(s1, 2, Account("b", "n", 0)).(baseUser := 2);
    assert Step(s, run[0]) == s1;
    assert Taken(s1.users, s1.order, Account("b", "n", 0)) == 0 by {
      assert s1.order[1..] == [];
      assert "a" != "b" && "m" != "n" by {
        assert "a"[0] != "b"[0] && "m"[0] != "n"[0];
      }
    }
    assert Step(s1, run[1]) == s2;
    assert run[1..][0] == run[1] && run[1..][1..] == [run[2]] && [run[2]][1..] == [];
  }

  // ----- calls on other accounts -----

  /**
   With any ids at all, making friends leaves the cache equal to a reload exactly unless the
   table takes the row but the smaller account is missing, so that the greater one never
   learns of its new friend.
   */
  lemma MakeFriendExactly(s: State, small: int, great: int, up: bool)
    requires Synced(s)
    ensures Synced(DoMakeFriend(s, small, great, up).0)
      <==> !(up && small < great && small !in s.users && great in s.users && small !in s.users[great].friends)
  {
    hide FriendsOf, AdminsOf, Synced, DoMakeFriend;
    if up && small < great {
      if small in s.users {
        MakeKeepsSync(s, small, great);
      } else {
        HalfMade(s, small, great);
      }
    } else {
      assert DoMakeFriend(s, small, great, up) == (s, false) by {
        NothingMade(s, small, great, up);
      }
    }
  }

  lemma NothingMade(s: State, small: int, great: int, up: bool)
    requires small >= great || !up
    ensures DoMakeFriend(s, small, great, up) == (s, false)
  {
  }

  /** The table has the row, but the call stops at the missing account. */
  lemma HalfMade(s: State, small: int, great: int)
    requires Synced(s) && small < great && small !in s.users
    ensures Synced(DoMakeFriend(s, small, great, true).0)
      <==> !(great in s.users && small !in s.users[great].friends)
  {
    hide FriendsOf, AdminsOf;
    var n := DoMakeFriend(s, small, great, true).0;
    forall id | id in s.db.accounts
      ensures LoadedProfile(id, n.db) == LoadedProfile(id, s.db).(
        friends := s.users[id].friends + (if id == great then {small} else {}))
    {
      FriendsAfterInsert(id, s.db.relations, Relation(small, great));
    }
    if great in s.users && small !in s.users[great].friends {
      assert Reload(n.db)[great].friends == s.users[great].friends + {small};
      assert n.users[great] == s.users[great];
    } else {
      forall id | id in s.db.accounts
        ensures LoadedProfile(id, n.db) == n.users[id]
      {
        assert LoadedProfile(id, n.db).friends == s.users[id].friends;
      }
    }
  }

  /**
   Setting an administrator does so exactly unless an account that is not a group gains one, for a
   reload leaves it out.
   */
  lemma SetAdminExactly(s: State, group: int, user: int, isAdmin: bool, found: bool, up: bool)
    requires Synced(s) && (found ==> Admin(group, user) in s.db.admins)
    ensures Synced(DoSetAdmin(s, group, user, isAdmin, found, up).0)
      <==> !(isAdmin && (found || up) && group in s.users && group < GroupBoundary)
  {
    var r := Admin(group, user);
    var n := DoSetAdmin(s, group, user, isAdmin, found, up).0;
    forall id | id in s.db.accounts && !(isAdmin && (found || up) && group in s.users && group < GroupBoundary)
      ensures n.users[id] == LoadedProfile(id, n.db)
    {
      AdminsAfterInsert(id, s.db.admins, r);
      AdminsAfterDelete(id, s.db.admins, r);
      if found {
        assert id == group ==> user in AdminsOf(group, s.db.admins);
      }
    }
    if isAdmin && (found || up) && group in s.users && group < GroupBoundary {
      assert user in n.users[group].admins && Reload(n.db)[group].admins == {};
    }
  }

  // ----- the objects -----

  class User {
    const userid: int
    var account: Account
    var friends: set<int>
    var admins: set<int>

    constructor (userid: int, account: Account)
      ensures this.userid == userid && this.account == account && friends == {} && admins == {}
    {
      this.userid, this.account, friends, admins := userid, account, {}, {};
    }

    function Value(): Profile
      reads this
    {
      Profile(account, friends, admins)
    }
  }

  function Ids(us: seq<User>): seq<int> {
    seq(|us|, i requires 0 <= i < |us| => us[i].userid)
  }

  lemma Listed(us: seq<User>)
    ensures |Ids(us)| == |us| && forall i | 0 <= i < |us| :: Ids(us)[i] == us[i].userid
  {
  }

  /** The tables; up says whether the statement reaches the server. */
  class Database {
    var accounts: map<int, Account>
    var relations: seq<Relation>
    var admins: seq<Admin>

    function Value(): Tables
      reads this
    {
      Tables(accounts, relations, admins)
    }

    constructor (t: Tables)
      ensures Value() == t
    {
      accounts, relations, admins := t.accounts, t.relations, t.admins;
    }

    method InsertUser(id: int, a: Account, up: bool) returns (ok: bool)
      modifies this`accounts
      ensures ok == Inserted(old(Value()), id, up)
      ensures accounts == if ok then old(accounts)[id := a] else old(accounts)
    {
      ok := up && id !in accounts;
      if ok {
        accounts := accounts[id := a];
      }
    }

    method UpdateMail(id: int, mail: string, up: bool) returns (ok: bool)
      modifies this`accounts
      ensures ok == up
      ensures accounts ==
        if up && id in old(accounts) then old(accounts)[id := old(accounts)[id].(mail := mail)] else old(accounts)
    {
      if up && id in accounts {
        accounts := accounts[id := accounts[id].(mail := mail)];
      }
      return up;
    }

    method UpdateName(id: int, name: string, up: bool) returns (ok: bool)
      modifies this`accounts
      ensures ok == up
      ensures accounts ==
        if up && id in old(accounts) then old(accounts)[id := old(accounts)[id].(username := name)] else old(accounts)
    {
      if up && id in accounts {
        accounts := accounts[id := accounts[id].(username := name)];
      }
      return up;
    }

    method InsertRelation(small: int, great: int, up: bool) returns (ok: bool)
      modifies this`relations
      ensures ok == up
      ensures relations == if ok then old(relations) + [Relation(small, great)] else old(relations)
    {
      if up {
        relations := relations + [Relation(small, great)];
      }
      return up;
    }

    method DeleteRelation(small: int, great: int, up: bool) returns (ok: bool)
      modifies this`relations
      ensures ok == up
      ensures relations == if ok then Without(old(relations), Relation(small, great)) else old(relations)
    {
      if up {
        relations := Without(relations, Relation(small, great));
      }
      return up;
    }

    method InsertAdmin(group: int, user: int, up: bool) returns (ok: bool)
      modifies this`admins
      ensures ok == up
      ensures admins == if ok then old(admins) + [Admin(group, user)] else old(admins)
    {
      if up {
        admins := admins + [Admin(group, user)];
      }
      return up;
    }

    method DeleteAdmin(group: int, user: int, up: bool) returns (ok: bool)
      modifies this`admins
      ensures ok == up
      ensures admins == if ok then Without(old(admins), Admin(group, user)) else old(admins)
    {
      if up {
        admins := Without(admins, Admin(group, user));
      }
      return up;
    }

    /** The rows that mention an account. */
    function SelectRelations(id: int): (rows: seq<Relation>)
      reads this
      ensures forall r :: r in rows <==> r in relations && (r.small == id || r.great == id)
    {
      Mentioning(id, relations)
    }

    function SelectAdmins(group: int): (rows: seq<Admin>)
      reads this
      ensures forall r :: r in rows <==> r in admins && r.group == group
    {
      OfGroup(group, admins)
    }
  }

  function Mentioning(id: int, rows: seq<Relation>): (found: seq<Relation>)
    ensures forall r :: r in found <==> r in rows && (r.small == id || r.great == id)
  {
    if rows == [] then []
    else if rows[0].small == id || rows[0].great == id then [rows[0]] + Mentioning(id, rows[1..])
    else Mentioning(id, rows[1..])
  }

  function OfGroup(group: int, rows: seq<Admin>): (found: seq<Admin>)
    ensures forall r :: r in found <==> r in rows && r.group == group
  {
    if rows == [] then []
    else if rows[0].group == group then [rows[0]] + OfGroup(group, rows[1..])
    else OfGroup(group, rows[1..])
  }

  class UserManager {
    const db: Database
    var cachedUsers: seq<User>
    var mapUsers: map<int, User>
    var baseUserID: int
    var baseGroupID: int

    /** The list and the map share their objects, one for each id. */
    predicate Valid()
      reads this, mapUsers.Values
    {
      && (forall id | id in mapUsers :: mapUsers[id].userid == id)
      && (forall i | 0 <= i < |cachedUsers| ::
            cachedUsers[i].userid in mapUsers && mapUsers[cachedUsers[i].userid] == cachedUsers[i])
    }

    ghost function Users(): map<int, Profile>
      reads this, mapUsers.Values
    {
      map id | id in mapUsers :: mapUsers[id].Value()
    }

    ghost function View(): State
      reads this, db, mapUsers.Values
    {
      State(db.Value(), Users(), Ids(cachedUsers), baseUserID, baseGroupID)
    }

    constructor (db: Database)
      ensures Valid() && this.db == db && View() == State(db.Value(), map[], [], 0, GroupBoundary)
    {
      this.db, cachedUsers, mapUsers, baseUserID, baseGroupID := db, [], map[], 0, GroupBoundary;
    }

    /** Adds an object to the list and the map. */
    method Share(u: User)
      requires Valid() && u.userid !in mapUsers
      modifies this`cachedUsers, this`mapUsers
      ensures Valid()
      ensures cachedUsers == old(cachedUsers) + [u]
      ensures Ids(cachedUsers) == old(Ids(cachedUsers)) + [u.userid] && Users() == old(Users())[u.userid := u.Value()]
      ensures mapUsers == old(mapUsers)[u.userid := u]
    {
      cachedUsers := cachedUsers + [u];
      mapUsers := mapUsers[u.userid := u];
      assert Ids(cachedUsers) == old(Ids(cachedUsers)) + [u.userid];
      assert Users() == old(Users())[u.userid := u.Value()];
    }

    /** 0: done, 1: the name is taken, 2: the mail address is taken, 3: the table refused. */
    method AddUser(username: string, mail: string, up: bool) returns (code: int)
      requires Valid() && Lists(View().order, View().users) && mapUsers.Keys <= db.accounts.Keys
      modifies this, db
      ensures Valid()
      ensures (View(), code) == DoAddUser(old(View()), Account(username, mail, 0), up)
    {
      ghost var s := View();
      var a := Account(username, mail, 0);
      code := CheckTaken(a);
      if code != 0 {
        return code;
      }
      var newid := baseUserID + 1;
      var ok := db.InsertUser(newid, a, up);
      if !ok {
        return 3;
      }
      baseUserID := newid;
      var u := new User(newid, a);
      assert Users() == s.users;
      Share(u);
      assert Users() == s.users[newid := Profile(a, {}, {})];
      assert Ids(cachedUsers) == s.order + [newid];
      assert db.Value() == s.db.(accounts := s.db.accounts[newid := a]);
      return 0;
    }

    /** The id is used up before the table is asked. */
    method AddGroup(groupname: string, ownerid: int, up: bool) returns (ok: bool, groupid: int)
      requires Valid() && mapUsers.Keys <= db.accounts.Keys
      modifies this, db
      ensures Valid()
      ensures (View(), ok) == DoAddGroup(old(View()), Account(groupname, "", ownerid), up)
      ensures groupid == baseGroupID
    {
      ghost var s := View();
      var a := Account(groupname, "", ownerid);
      baseGroupID := baseGroupID + 1;
      groupid := baseGroupID;
      ok := db.InsertUser(groupid, a, up);
      assert Users() == s.users;
      if ok {
        var group := new User(groupid, a);
        assert Users() == s.users;
        Share(group);
        assert Users() == s.users[groupid := Profile(a, {}, {})];
        assert Ids(cachedUsers) == s.order + [groupid];
        assert db.Value() == s.db.(accounts := s.db.accounts[groupid := a]);
      }
    }

    /** Changing one shared object changes one entry of the map. */
    method SetFriends(u: User, friends: set<int>)
      requires Valid() && u.userid in mapUsers && mapUsers[u.userid] == u
      modifies u`friends
      ensures Valid() && Users() == WithFriends(old(Users()), u.userid, friends)
    {
      u.friends := friends;
      assert forall id | id in mapUsers && id != u.userid :: mapUsers[id].Value() == old(mapUsers[id].Value());
      assert Users() == WithFriends(old(Users()), u.userid, friends);
    }

    method SetAdmins(u: User, admins: set<int>)
      requires Valid() && u.userid in mapUsers && mapUsers[u.userid] == u
      modifies u`admins
      ensures Valid()
      ensures Users() == old(Users())[u.userid := old(u.Value()).(admins := admins)]
    {
      u.admins := admins;
      assert forall id | id in mapUsers && id != u.userid :: mapUsers[id].Value() == old(mapUsers[id].Value());
      assert Users() == old(Users())[u.userid := old(u.Value()).(admins := admins)];
    }

    method SetAccount(u: User, a: Account)
      requires Valid() && u.userid in mapUsers && mapUsers[u.userid] == u
      modifies u`account
      ensures Valid() && Users() == old(Users())[u.userid := old(u.Value()).(account := a)]
    {
      u.account := a;
      assert forall id | id in mapUsers && id != u.userid :: mapUsers[id].Value() == old(mapUsers[id].Value());
      assert Users() == old(Users())[u.userid := old(u.Value()).(account := a)];
    }

    /** No look at other users' addresses. */
    method UpdateUserInfo(userid: int, mail: string, up: bool) returns (ok: bool)
      requires Valid()
      modifies db, mapUsers.Values
      ensures Valid()
      ensures (View(), ok) == DoUpdateInfo(old(View()), userid, mail, up)
    {
      ok := db.UpdateMail(userid, mail, up);
      if ok && userid in mapUsers {
        SetAccount(mapUsers[userid], mapUsers[userid].account.(mail := mail));
      }
    }

    method RenameGroup(groupid: int, name: string, up: bool) returns (ok: bool)
      requires Valid()
      modifies db, mapUsers.Values
      ensures Valid()
      ensures (View(), ok) == DoRename(old(View()), groupid, name, up)
    {
      ok := db.UpdateName(groupid, name, up);
      if ok && groupid in mapUsers {
        SetAccount(mapUsers[groupid], mapUsers[groupid].account.(username := name));
      }
    }

    method MakeFriendRelationship(small: int, great: int, up: bool) returns (ok: bool)
      requires Valid()
      modifies db, mapUsers.Values
      ensures Valid()
      ensures (View(), ok) == DoMakeFriend(old(View()), small, great, up)
    {
      if small >= great {
        return false;
      }
      ok := db.InsertRelation(small, great, up);
      if !ok {
        return false;
      }
      if small !in mapUsers {
        return false;
      }
      SetFriends(mapUsers[small], mapUsers[small].friends + {great});
      if great !in mapUsers {
        return false;
      }
      SetFriends(mapUsers[great], mapUsers[great].friends + {small});
      return true;
    }

    /** Takes each account out of the other's friends, where cached. */
    method EndFriendship(a: int, b: int)
      requires Valid()
      modifies mapUsers.Values
      ensures Valid()
      ensures Users() == Unfriend(Unfriend(old(Users()), a, b), b, a)
    {
      if a in mapUsers {
        SetFriends(mapUsers[a], mapUsers[a].friends - {b});
      }
      if b in mapUsers {
        SetFriends(mapUsers[b], mapUsers[b].friends - {a});
      }
    }

    method ReleaseFriendRelationship(small: int, great: int, up: bool) returns (ok: bool)
      requires Valid()
      modifies db, mapUsers.Values
      ensures Valid()
      ensures (View(), ok) == DoReleaseFriend(old(View()), small, great, up)
    {
      if small >= great {
        return false;
      }
      ok := db.DeleteRelation(small, great, up);
      if ok {
        EndFriendship(small, great);
      }
    }

    method DeleteFriendToUser(user: int, friend: int, up: bool) returns (ok: bool)
      requires Valid()
      modifies db, mapUsers.Values
      ensures Valid()
      ensures (View(), ok) == DoDeleteFriend(old(View()), user, friend, up)
    {
      var small := if user < friend then user else friend;
      var great := if user < friend then friend else user;
      ok := db.DeleteRelation(small, great, up);
      if ok {
        EndFriendship(user, friend);
        UnfriendCommutes(old(Users()), user, friend);
      }
    }

    method SetGroupAdmin(group: int, user: int, isAdmin: bool, queryUp: bool, up: bool) returns (ok: bool)
      requires Valid()
      modifies db, mapUsers.Values
      ensures Valid()
      ensures var found := queryUp && Admin(group, user) in old(db.admins);
        (View(), ok) == DoSetAdmin(old(View()), group, user, isAdmin, found, up)
    {
      if isAdmin {
        var found := queryUp && Admin(group, user) in db.admins;
        if !found {
          ok := db.InsertAdmin(group, user, up);
          if !ok {
            return false;
          }
        }
      } else {
        ok := db.DeleteAdmin(group, user, up);
        if !ok {
          return false;
        }
      }
      if group in mapUsers {
        var u := mapUsers[group];
        SetAdmins(u, if isAdmin then u.admins + {user} else u.admins - {user});
      }
      return true;
    }

    method CheckTaken(a: Account) returns (code: int)
      requires Valid() && Lists(View().order, View().users)
      ensures code == Taken(View().users, View().order, a)
    {
      ghost var users, order := View().users, View().order;
      for i := 0 to |cachedUsers|
        invariant Taken(users, order, a) == Taken(users, order[i..], a)
      {
        var u := cachedUsers[i];
        assert users[order[i]] == u.Value();
        assert order[i..][0] == order[i] && order[i..][1..] == order[i + 1..];
        if u.account.username == a.username {
          return 1;
        }
        if a.mail != "" && u.account.mail == a.mail {
          return 2;
        }
      }
      return 0;
    }

    // ----- loading -----

    lemma EmptyIsValid()
      requires cachedUsers == [] && mapUsers == map[]
      ensures Valid() && Users() == map[]
    {
    }

    /** The next row becomes a user, and may raise one of the bases. */
    method LoadRow(id: int, a: Account)
      requires Valid() && id !in mapUsers && BasesAbove(mapUsers.Keys, baseUserID, baseGroupID)
      modifies this
      ensures Valid() && BasesAbove(mapUsers.Keys, baseUserID, baseGroupID)
      ensures Ids(cachedUsers) == old(Ids(cachedUsers)) + [id]
      ensures mapUsers.Keys == Users().Keys == old(mapUsers.Keys) + {id}
      ensures cachedUsers == old(cachedUsers) + [mapUsers[id]] && fresh(mapUsers[id])
      ensures Users() == old(Users())[id := Profile(a, {}, {})]
    {
      var u := new User(id, a);
      assert Users() == old(Users());
      Share(u);
      if id < GroupBoundary && id > baseUserID {
        baseUserID := id;
      }
      if id >= GroupBoundary && id > baseGroupID {
        baseGroupID := id;
      }
    }

    /** One pass over the rows of the user table, in the order the query returns them. */
    method LoadUserFromDB(rows: seq<int>, up: bool) returns (ok: bool)
      requires cachedUsers == [] && mapUsers == map[] && baseUserID == 0 && baseGroupID == GroupBoundary
      requires IsOrder(rows, db.accounts.Keys)
      modifies this
      ensures Valid() && ok == up
      ensures !up ==> cachedUsers == []
      ensures up ==> Ids(cachedUsers) == rows && Users() == Bare(db.accounts, rows)
      ensures up ==> BasesAbove(mapUsers.Keys, baseUserID, baseGroupID)
      ensures forall u | u in cachedUsers :: fresh(u)
    {
      hide BasesAbove, Bare, Ids, IsOrder, Valid, Users;
      EmptyIsValid();
      if !up {
        return false;
      }
      assert mapUsers.Keys == {};
      Nothing(db.accounts);
      for i := 0 to |rows|
        invariant Valid() && Ids(cachedUsers) == rows[..i]
        invariant forall u | u in cachedUsers :: fresh(u)
        invariant mapUsers.Keys == Users().Keys
        invariant Users() == Bare(db.accounts, rows[..i])
        invariant BasesAbove(mapUsers.Keys, baseUserID, baseGroupID)
      {
        var id := rows[i];
        assert rows[..i + 1] == rows[..i] + [id];
        NotYet(rows, db.accounts.Keys, i);
        OneMore(db.accounts, rows[..i], id);
        LoadRow(id, db.accounts[id]);
      }
      assert rows[..|rows|] == rows;
      return true;
    }

    /** Collects the other end of every row that mentions the account. */
    method LoadRelationshipFromDB(userid: int) returns (friends: set<int>)
      ensures friends == FriendsOf(userid, db.relations)
    {
      friends := {};
      var rows := db.SelectRelations(userid);
      for i := 0 to |rows|
        invariant friends == FriendsOf(userid, rows[..i])
      {
        if rows[i].small == userid {
          friends := friends + {rows[i].great};
        } else if rows[i].great == userid {
          friends := friends + {rows[i].small};
        }
        assert rows[..i + 1] == rows[..i] + [rows[i]];
        OneMoreRow(userid, rows[..i], rows[i]);
      }
      assert rows[..|rows|] == rows;
      OnlyMentioningRowsCount(userid, rows, db.relations);
    }

    method LoadGroupAdminsFromDB(group: int) returns (admins: set<int>)
      ensures admins == AdminsOf(group, db.admins)
    {
      admins := {};
      var rows := db.SelectAdmins(group);
      for i := 0 to |rows|
        invariant admins == set r | r in rows[..i] :: r.user
      {
        admins := admins + {rows[i].user};
        assert rows[..i + 1] == rows[..i] + [rows[i]];
      }
      assert rows[..|rows|] == rows;
    }

    /** Fills in one account, as far as its queries work. */
    method FillUser(u: User, ghost t: Tables, noFriends: set<int>, noAdmins: set<int>)
      requires Valid() && u.userid in mapUsers && mapUsers[u.userid] == u && t == db.Value()
      requires u.userid in t.accounts && u.Value() == Profile(t.accounts[u.userid], {}, {})
      modifies u
      ensures Valid() && Users() == old(Users())[u.userid := Filled(u.userid, t, noFriends, noAdmins)]
    {
      hide FriendsOf, AdminsOf;
      if u.userid !in noFriends {
        var friends := LoadRelationshipFromDB(u.userid);
        SetFriends(u, friends);
      }
      if u.userid >= GroupBoundary && u.userid !in noAdmins {
        var admins := LoadGroupAdminsFromDB(u.userid);
        SetAdmins(u, admins);
      }
    }

    /** Loads everything; the sets name the accounts whose second queries fail, which init only reports. */
    method Init(rows: seq<int>, up: bool, noFriends: set<int>, noAdmins: set<int>) returns (ok: bool)
      requires cachedUsers == [] && mapUsers == map[] && baseUserID == 0 && baseGroupID == GroupBoundary
      requires IsOrder(rows, db.accounts.Keys)
      modifies this
      ensures Valid() && ok == up
      ensures ok ==> Ids(cachedUsers) == rows && BasesAbove(db.accounts.Keys, baseUserID, baseGroupID)
      ensures ok ==> View().db == old(db.Value())
      ensures ok ==> Users() == map id | id in db.accounts :: Filled(id, db.Value(), noFriends, noAdmins)
      ensures ok && noFriends == noAdmins == {} && Closed(db.Value()) ==> Inv(View())
    {
      ok := LoadUserFromDB(rows, up);
      if !ok {
        return;
      }
      ghost var t := db.Value();
      BareIsAll(t.accounts, rows);
      forall i | 0 <= i < |cachedUsers|
        ensures fresh(cachedUsers[i])
      {
        assert cachedUsers[i] in cachedUsers;
      }
      FillAll(rows, t, noFriends, noAdmins);
      AllFilled(t);
      assert mapUsers.Keys == Users().Keys == t.accounts.Keys;
    }

    method FillAll(ghost rows: seq<int>, ghost t: Tables, noFriends: set<int>, noAdmins: set<int>)
      requires Valid() && t == db.Value() && Ids(cachedUsers) == rows && IsOrder(rows, t.accounts.Keys)
      requires Users() == Bare(t.accounts, rows)
      modifies cachedUsers
      ensures Valid() && t == db.Value()
      ensures Users() == map id | id in t.accounts :: Filled(id, t, noFriends, noAdmins)
    {
      hide Filled, Bare, IsOrder, Ids;
      BareIsAll(t.accounts, rows);
      Listed(cachedUsers);
      for i := 0 to |cachedUsers|
        invariant Valid() && t == db.Value() && Users().Keys == t.accounts.Keys
        invariant forall id | id in t.accounts ::
          Users()[id] == if id in rows[..i] then Filled(id, t, noFriends, noAdmins) else Profile(t.accounts[id], {}, {})
      {
        var u := cachedUsers[i];
        NotYet(rows, t.accounts.Keys, i);
        assert mapUsers[u.userid] == u && Users()[u.userid] == u.Value();
        FillUser(u, t, noFriends, noAdmins);
        assert rows[..i + 1] == rows[..i] + [u.userid];
      }
      assert rows[..|rows|] == rows;
    }
  }

  lemma AllFilled(t: Tables)
    ensures (map id | id in t.accounts :: Filled(id, t, {}, {})) == Reload(t)
  {
  }

  /** Accounts without their friends and administrators yet. */
  function Bare(accounts: map<int, Account>, ids: seq<int>): map<int, Profile> {
    map id | id in ids && id in accounts :: Profile(accounts[id], {}, {})
  }

  lemma Nothing(accounts: map<int, Account>)
    ensures Ids([]) == [] && BasesAbove({}, 0, GroupBoundary) && Bare(accounts, []) == map[]
  {
  }

  lemma BareIsAll(accounts: map<int, Account>, rows: seq<int>)
    requires IsOrder(rows, accounts.Keys)
    ensures forall id :: id in rows <==> id in accounts
    ensures Bare(accounts, rows).Keys == accounts.Keys
    ensures forall id | id in accounts :: Bare(accounts, rows)[id] == Profile(accounts[id], {}, {})
  {
    forall id | id in rows
      ensures id in accounts
    {
      var i :| 0 <= i < |rows| && rows[i] == id;
      assert rows[i] in accounts.Keys;
    }
  }

  lemma NotYet(rows: seq<int>, ids: set<int>, i: nat)
    requires IsOrder(rows, ids) && i < |rows|
    ensures rows[i] in ids && rows[i] !in rows[..i]
  {
  }

  lemma OneMore(accounts: map<int, Account>, ids: seq<int>, id: int)
    requires id in accounts && id !in ids
    ensures Bare(accounts, ids + [id]) == Bare(accounts, ids)[id := Profile(accounts[id], {}, {})]
    ensures id !in Bare(accounts, ids)
  {
  }

  /** What init leaves for an account when some queries fail. */
  function Filled(id: int, db: Tables, noFriends: set<int>, noAdmins: set<int>): Profile
    requires id in db.accounts
  {
    Profile(db.accounts[id],
            if id in noFriends then {} else FriendsOf(id, db.relations),
            if id >= GroupBoundary && id !in noAdmins then AdminsOf(id, db.admins) else {})
  }

  lemma UnfriendCommutes(users: map<int, Profile>, a: int, b: int)
    ensures Unfriend(Unfriend(users, a, b), b, a) == Unfriend(Unfriend(users, b, a), a, b)
  {
  }

  lemma OneMoreRow(id: int, rows: seq<Relation>, r: Relation)
    ensures FriendsOf(id, rows + [r]) == FriendsOf(id, rows)
      + (if r.small == id then {r.great} else if r.great == id then {r.small} else {})
  {
  }

  lemma OnlyMentioningRowsCount(id: int, found: seq<Relation>, rows: seq<Relation>)
    requires forall r :: r in found <==> r in rows && (r.small == id || r.great == id)
    ensures FriendsOf(id, found) == FriendsOf(id, rows)
  {
  }
}
