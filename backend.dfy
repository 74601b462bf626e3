/** What the data layer talks to: the MySQL server behind `*sql.DB`, and the
    clock `time.Sleep` waits on. None of this is the repository's code; it is
    the smallest server that gives the data layer's statements a meaning.

    - Tables are sequences of rows in insertion order (the order in which the
      model's joins return them); ids come from per-table auto-increment
      counters that, as in InnoDB, are not rolled back.
    - An open transaction works on a staged copy of the tables; Commit makes
      the copy the committed state, Rollback drops it.
    - A fault oracle decides, one entry per Begin, Exec, QueryRow, Query,
      rows.Next() and Commit, whether that call fails with a driver error; an
      exhausted oracle lets every call pass. For a rows.Next() that finds a
      row the verdict tells a failing rows.Scan() apart from a failing
      rows.Next(); the last rows.Next(), which finds no row, fails on any
      verdict but Pass. A failing rows.Next() ends the iteration, and only
      rows.Err() reports it.
    - Every call is appended to a log, so that what was and was not attempted
      can be stated. */
module Backend {
  import opened Wrappers
  import opened Schema
  import opened Errors

  /** `Abort`: rows.Next() reports an error while the connection stays usable,
      as when the server ends a result set with an error packet (a statement
      cut off by max_execution_time). At any other call it is an error like `Fail`. */
  datatype Fault = Pass | Fail(msg: string) | Abort(msg: string)

  /** What rows.Next() and rows.Scan() give for one row of a result set. */
  datatype RowStep = RowRead | ScanFailed(err: Error) | NextFailed(err: Error)

  /** A row of the venue_lists membership table (schema.VenueLists). */
  datatype Membership = Membership(id: int, venueId: int, venueListId: int)

  datatype Tables = Tables(users: seq<User>, favorites: seq<UserFavorite>, venues: seq<Venue>,
                           lists: seq<VenueList>, memberships: seq<Membership>,
                           menus: seq<Menu>, items: seq<MenuItem>)

  const NoTables := Tables([], [], [], [], [], [], [])

  datatype TableName = UserTable | FavoriteTable | VenueTable | ListTable | MembershipTable | MenuTable | ItemTable

  /** The statements the data layer executes; `id` fields of the records are ignored on insert. */
  datatype Stmt =
    | InsertUser(user: User)
    | InsertFavorite(userId: int, venueId: int)
    | DeleteFavorite(favoriteId: int)
    | InsertVenue(venue: Venue)
    | InsertVenueList(listName: string)
    | InsertMembership(memberVenueId: int, memberListId: int)
    | InsertMenu(menuVenueId: int)
    | InsertMenuItem(item: MenuItem)

  /** Single-row queries returning venue columns. */
  datatype VenueQuery = VenueById(id: int) | VenueByName(name: string) | FavoriteOf(userId: int, venueId: int)

  datatype ListQuery = ListById(id: int) | ListByName(name: string)

  /** Multi-row queries returning venue columns. */
  datatype VenuesQuery = FavoritesOfUser(userId: int) | VenuesInList(venueListId: int)

  datatype Call =
    | BeginCall
    | ExecCall(stmt: Stmt)
    | QueryUserCall(userName: string)
    | QueryVenueCall(venueQuery: VenueQuery)
    | QueryListCall(listQuery: ListQuery)
    | QueryVenuesCall(venuesQuery: VenuesQuery)
    | QueryItemsCall(itemsVenueId: int)
    | ScanCall
    | CommitCall
    | RollbackCall
    | SleepCall

  /** What a call hands back: a value, or the error it failed with. */
  datatype Fetched<+T> = Fetched(value: T) | FetchFailed(err: Error)

  datatype Server = Server(committed: Tables, staged: Tables, lastIds: map<TableName, nat>,
                           faults: seq<Fault>, log: seq<Call>)

  /** A server with empty tables whose calls fail as `faults` says. */
  function Fresh(faults: seq<Fault>): Server
  {
    Server(NoTables, NoTables, map[], faults, [])
  }

  function LastId(ids: map<TableName, nat>, t: TableName): nat
  {
    if t in ids then ids[t] else 0
  }

  // ---------------------------------------------------------------------------
  // Row lookups and joins (row order is insertion order)

  function FindUser(users: seq<User>, name: string): Option<User>
  {
    if users == [] then None
    else if users[0].userName == name then Some(users[0])
    else FindUser(users[1..], name)
  }

  function FindVenue(venues: seq<Venue>, id: int): Option<Venue>
  {
    if venues == [] then None
    else if venues[0].id == id then Some(venues[0])
    else FindVenue(venues[1..], id)
  }

  function VenueNamed(venues: seq<Venue>, name: string): Option<Venue>
  {
    if venues == [] then None
    else if venues[0].name == name then Some(venues[0])
    else VenueNamed(venues[1..], name)
  }

  function FindList(lists: seq<VenueList>, id: int): Option<VenueList>
  {
    if lists == [] then None
    else if lists[0].id == id then Some(lists[0])
    else FindList(lists[1..], id)
  }

  function ListNamed(lists: seq<VenueList>, name: string): Option<VenueList>
  {
    if lists == [] then None
    else if lists[0].name == name then Some(lists[0])
    else ListNamed(lists[1..], name)
  }

  /** The first favorite of (userId, venueId) joined with its venue; the row
      carries the favorite's id in place of the venue's (`SELECT uf.id, v.name, …`). */
  function FavoriteVenue(favorites: seq<UserFavorite>, venues: seq<Venue>, userId: int, venueId: int): Option<Venue>
  {
    if favorites == [] then None
    else
      var f := favorites[0];
      if f.userId == userId && f.venueId == venueId && FindVenue(venues, f.venueId).Some? then
        Some(FindVenue(venues, f.venueId).value.(id := f.id))
      else FavoriteVenue(favorites[1..], venues, userId, venueId)
  }

  /** The venues of a user's favorites, one per favorite that joins a venue, in favorite order. */
  function FavoriteVenues(favorites: seq<UserFavorite>, venues: seq<Venue>, userId: int): seq<Venue>
  {
    if favorites == [] then []
    else
      var f := favorites[0];
      (if f.userId == userId && FindVenue(venues, f.venueId).Some? then [FindVenue(venues, f.venueId).value] else [])
      + FavoriteVenues(favorites[1..], venues, userId)
  }

  /** The venues on a list, one per membership row that joins a venue, in membership order. */
  function ListVenues(memberships: seq<Membership>, venues: seq<Venue>, listId: int): seq<Venue>
  {
    if memberships == [] then []
    else
      var m := memberships[0];
      (if m.venueListId == listId && FindVenue(venues, m.venueId).Some? then [FindVenue(venues, m.venueId).value] else [])
      + ListVenues(memberships[1..], venues, listId)
  }

  function MenuItemsOf(items: seq<MenuItem>, menuId: int): seq<MenuItem>
  {
    if items == [] then []
    else (if items[0].menuId == menuId then [items[0]] else []) + MenuItemsOf(items[1..], menuId)
  }

  /** The items of every menu of a venue: menus in order, each menu's items in order. */
  function VenueMenuItems(menus: seq<Menu>, items: seq<MenuItem>, venueId: int): seq<MenuItem>
  {
    if menus == [] then []
    else
      (if menus[0].venueId == venueId then MenuItemsOf(items, menus[0].id) else [])
      + VenueMenuItems(menus[1..], items, venueId)
  }

  function RemoveFavorite(favorites: seq<UserFavorite>, id: int): seq<UserFavorite>
  {
    if favorites == [] then []
    else (if favorites[0].id == id then [] else [favorites[0]]) + RemoveFavorite(favorites[1..], id)
  }

  /** The membership table already holds the pair (venueId, listId). */
  function Paired(memberships: seq<Membership>, venueId: int, listId: int): bool
  {
    memberships != [] &&
    ((memberships[0].venueId == venueId && memberships[0].venueListId == listId)
     || Paired(memberships[1..], venueId, listId))
  }

  /** The venue already has a menu. */
  function HasMenu(menus: seq<Menu>, venueId: int): bool
  {
    menus != [] && (menus[0].venueId == venueId || HasMenu(menus[1..], venueId))
  }

  // ---------------------------------------------------------------------------
  // What the lookups mean

  /** The user found has the name asked for; none is found only when no user has it. */
  lemma {:induction false} FindUserMeans(users: seq<User>, name: string)
    ensures var r := FindUser(users, name);
            && (r.Some? ==> r.value in users && r.value.userName == name)
            && (r.None? <==> forall u :: u in users ==> u.userName != name)
    decreases |users|
  {
    if users != [] && users[0].userName != name {
      FindUserMeans(users[1..], name);
      assert forall u :: u in users ==> u == users[0] || u in users[1..];
    }
  }

  lemma {:induction false} FindVenueMeans(venues: seq<Venue>, id: int)
    ensures var r := FindVenue(venues, id);
            && (r.Some? ==> r.value in venues && r.value.id == id)
            && (r.None? <==> forall v :: v in venues ==> v.id != id)
    decreases |venues|
  {
    if venues != [] && venues[0].id != id {
      FindVenueMeans(venues[1..], id);
      assert forall v :: v in venues ==> v == venues[0] || v in venues[1..];
    }
  }

  lemma {:induction false} VenueNamedMeans(venues: seq<Venue>, name: string)
    ensures var r := VenueNamed(venues, name);
            && (r.Some? ==> r.value in venues && r.value.name == name)
            && (r.None? <==> forall v :: v in venues ==> v.name != name)
    decreases |venues|
  {
    if venues != [] && venues[0].name != name {
      VenueNamedMeans(venues[1..], name);
      assert forall v :: v in venues ==> v == venues[0] || v in venues[1..];
    }
  }

  lemma {:induction false} FindListMeans(lists: seq<VenueList>, id: int)
    ensures var r := FindList(lists, id);
            && (r.Some? ==> r.value in lists && r.value.id == id)
            && (r.None? <==> forall l :: l in lists ==> l.id != id)
    decreases |lists|
  {
    if lists != [] && lists[0].id != id {
      FindListMeans(lists[1..], id);
      assert forall l :: l in lists ==> l == lists[0] || l in lists[1..];
    }
  }

  lemma {:induction false} ListNamedMeans(lists: seq<VenueList>, name: string)
    ensures var r := ListNamed(lists, name);
            && (r.Some? ==> r.value in lists && r.value.name == name)
            && (r.None? <==> forall l :: l in lists ==> l.name != name)
    decreases |lists|
  {
    if lists != [] && lists[0].name != name {
      ListNamedMeans(lists[1..], name);
      assert forall l :: l in lists ==> l == lists[0] || l in lists[1..];
    }
  }

  /** Deleting by id keeps exactly the favorites with another id, in order. */
  lemma {:induction false} RemoveFavoriteMeans(favorites: seq<UserFavorite>, id: int)
    ensures forall f :: f in RemoveFavorite(favorites, id) <==> f in favorites && f.id != id
    decreases |favorites|
  {
    if favorites != [] {
      RemoveFavoriteMeans(favorites[1..], id);
      assert forall f :: f in favorites <==> f == favorites[0] || f in favorites[1..];
    }
  }

  lemma {:induction false} PairedMeans(memberships: seq<Membership>, venueId: int, listId: int)
    ensures Paired(memberships, venueId, listId) <==>
            exists m :: m in memberships && m.venueId == venueId && m.venueListId == listId
    decreases |memberships|
  {
    if memberships != [] {
      PairedMeans(memberships[1..], venueId, listId);
      assert forall m :: m in memberships <==> m == memberships[0] || m in memberships[1..];
    }
  }

  lemma {:induction false} HasMenuMeans(menus: seq<Menu>, venueId: int)
    ensures HasMenu(menus, venueId) <==> exists m :: m in menus && m.venueId == venueId
    decreases |menus|
  {
    if menus != [] {
      HasMenuMeans(menus[1..], venueId);
      assert forall m :: m in menus <==> m == menus[0] || m in menus[1..];
    }
  }

  // ---------------------------------------------------------------------------
  // Statement semantics on a transaction's tables

  datatype Executed = Executed(tables: Tables, lastIds: map<TableName, nat>, lastInsertId: int)
                    | Rejected(err: Error)

  /** Executes one statement. Unique keys: user.username, venue.name,
      venue_list.name, menu.venue_id and the pair (venue_id, venue_list_id) of
      venue_lists; a violation is rejected with MySQL's duplicate-key message. */
  function ExecOn(t: Tables, ids: map<TableName, nat>, stmt: Stmt): (r: Executed)
    ensures r.Rejected? ==> IsDuplicate(r.err)
  {
    match stmt
    case InsertUser(u) =>
      if FindUser(t.users, u.userName).Some? then Rejected(Driver(DuplicateKeyMessage("username")))
      else
        var id := LastId(ids, UserTable) + 1;
        Executed(t.(users := t.users + [User(id, u.userName, u.password, u.email, "", "")]), ids[UserTable := id], id)
    case InsertFavorite(userId, venueId) =>
      var id := LastId(ids, FavoriteTable) + 1;
      Executed(t.(favorites := t.favorites + [UserFavorite(id, userId, venueId)]), ids[FavoriteTable := id], id)
    case DeleteFavorite(id) =>
      Executed(t.(favorites := RemoveFavorite(t.favorites, id)), ids, 0)
    case InsertVenue(v) =>
      if VenueNamed(t.venues, v.name).Some? then Rejected(Driver(DuplicateKeyMessage("name")))
      else
        var id := LastId(ids, VenueTable) + 1;
        Executed(t.(venues := t.venues + [v.(id := id)]), ids[VenueTable := id], id)
    case InsertVenueList(name) =>
      if ListNamed(t.lists, name).Some? then Rejected(Driver(DuplicateKeyMessage("name")))
      else
        var id := LastId(ids, ListTable) + 1;
        Executed(t.(lists := t.lists + [VenueList(id, name)]), ids[ListTable := id], id)
    case InsertMembership(venueId, listId) =>
      if Paired(t.memberships, venueId, listId) then
        Rejected(Driver(DuplicateKeyMessage("venue_list_venue")))
      else
        var id := LastId(ids, MembershipTable) + 1;
        Executed(t.(memberships := t.memberships + [Membership(id, venueId, listId)]), ids[MembershipTable := id], id)
    case InsertMenu(venueId) =>
      if HasMenu(t.menus, venueId) then Rejected(Driver(DuplicateKeyMessage("venue_id")))
      else
        var id := LastId(ids, MenuTable) + 1;
        Executed(t.(menus := t.menus + [Menu(id, venueId)]), ids[MenuTable := id], id)
    case InsertMenuItem(mi) =>
      var id := LastId(ids, ItemTable) + 1;
      Executed(t.(items := t.items + [mi.(id := id)]), ids[ItemTable := id], id)
  }

  function QueryVenueOn(t: Tables, q: VenueQuery): Option<Venue>
  {
    match q
    case VenueById(id) => FindVenue(t.venues, id)
    case VenueByName(name) => VenueNamed(t.venues, name)
    case FavoriteOf(userId, venueId) => FavoriteVenue(t.favorites, t.venues, userId, venueId)
  }

  function QueryListOn(t: Tables, q: ListQuery): Option<VenueList>
  {
    match q
    case ListById(id) => FindList(t.lists, id)
    case ListByName(name) => ListNamed(t.lists, name)
  }

  function QueryVenuesOn(t: Tables, q: VenuesQuery): seq<Venue>
  {
    match q
    case FavoritesOfUser(userId) => FavoriteVenues(t.favorites, t.venues, userId)
    case VenuesInList(listId) => ListVenues(t.memberships, t.venues, listId)
  }

  // ---------------------------------------------------------------------------
  // Ids from the counters

  /** No row has an id above its table's auto-increment counter. */
  ghost predicate IdsBelow(t: Tables, ids: map<TableName, nat>)
  {
    && (forall u :: u in t.users ==> u.id <= LastId(ids, UserTable))
    && (forall f :: f in t.favorites ==> f.id <= LastId(ids, FavoriteTable))
    && (forall v :: v in t.venues ==> v.id <= LastId(ids, VenueTable))
    && (forall l :: l in t.lists ==> l.id <= LastId(ids, ListTable))
    && (forall m :: m in t.memberships ==> m.id <= LastId(ids, MembershipTable))
    && (forall m :: m in t.menus ==> m.id <= LastId(ids, MenuTable))
    && (forall i :: i in t.items ==> i.id <= LastId(ids, ItemTable))
  }

  /** The id an insert hands out is above every id already in its table. */
  ghost predicate NewId(t: Tables, stmt: Stmt, id: int)
  {
    match stmt
    case InsertUser(_) => forall u :: u in t.users ==> u.id < id
    case InsertFavorite(_, _) => forall f :: f in t.favorites ==> f.id < id
    case DeleteFavorite(_) => true
    case InsertVenue(_) => forall v :: v in t.venues ==> v.id < id
    case InsertVenueList(_) => forall l :: l in t.lists ==> l.id < id
    case InsertMembership(_, _) => forall m :: m in t.memberships ==> m.id < id
    case InsertMenu(_) => forall m :: m in t.menus ==> m.id < id
    case InsertMenuItem(_) => forall i :: i in t.items ==> i.id < id
  }

  /** On tables whose ids stay below the counters, a statement keeps them
      below, and an insert's id is one no row of its table has. */
  lemma ExecOnNewId(t: Tables, ids: map<TableName, nat>, stmt: Stmt)
    requires IdsBelow(t, ids)
    ensures var r := ExecOn(t, ids, stmt);
            r.Executed? ==> IdsBelow(r.tables, r.lastIds) && NewId(t, stmt, r.lastInsertId)
  {
    match stmt
    case DeleteFavorite(id) => DeleteFavoriteNewId(t, ids, id);
    case InsertUser(u) => InsertUserNewId(t, ids, u);
    case InsertFavorite(userId, venueId) => InsertFavoriteNewId(t, ids, userId, venueId);
    case InsertVenue(v) => InsertVenueNewId(t, ids, v);
    case InsertVenueList(name) => InsertVenueListNewId(t, ids, name);
    case InsertMembership(venueId, listId) => InsertMembershipNewId(t, ids, venueId, listId);
    case InsertMenu(venueId) => InsertMenuNewId(t, ids, venueId);
    case InsertMenuItem(mi) => InsertMenuItemNewId(t, ids, mi);
  }

  lemma DeleteFavoriteNewId(t: Tables, ids: map<TableName, nat>, id: int)
    requires IdsBelow(t, ids)
    ensures var r := ExecOn(t, ids, DeleteFavorite(id));
            r.Executed? ==> IdsBelow(r.tables, r.lastIds) && NewId(t, DeleteFavorite(id), r.lastInsertId)
  {
    RemoveFavoriteMeans(t.favorites, id);
  }

  lemma InsertUserNewId(t: Tables, ids: map<TableName, nat>, u: User)
    requires IdsBelow(t, ids)
    ensures var r := ExecOn(t, ids, InsertUser(u));
            r.Executed? ==> IdsBelow(r.tables, r.lastIds) && NewId(t, InsertUser(u), r.lastInsertId)
  {
  }

  lemma InsertFavoriteNewId(t: Tables, ids: map<TableName, nat>, userId: int, venueId: int)
    requires IdsBelow(t, ids)
    ensures var r := ExecOn(t, ids, InsertFavorite(userId, venueId));
            r.Executed? ==> IdsBelow(r.tables, r.lastIds) && NewId(t, InsertFavorite(userId, venueId), r.lastInsertId)
  {
  }

  lemma InsertVenueNewId(t: Tables, ids: map<TableName, nat>, v: Venue)
    requires IdsBelow(t, ids)
    ensures var r := ExecOn(t, ids, InsertVenue(v));
            r.Executed? ==> IdsBelow(r.tables, r.lastIds) && NewId(t, InsertVenue(v), r.lastInsertId)
  {
  }

  lemma InsertVenueListNewId(t: Tables, ids: map<TableName, nat>, name: string)
    requires IdsBelow(t, ids)
    ensures var r := ExecOn(t, ids, InsertVenueList(name));
            r.Executed? ==> IdsBelow(r.tables, r.lastIds) && NewId(t, InsertVenueList(name), r.lastInsertId)
  {
  }

  lemma InsertMembershipNewId(t: Tables, ids: map<TableName, nat>, venueId: int, listId: int)
    requires IdsBelow(t, ids)
    ensures var r := ExecOn(t, ids, InsertMembership(venueId, listId));
            r.Executed? ==> IdsBelow(r.tables, r.lastIds) && NewId(t, InsertMembership(venueId, listId), r.lastInsertId)
  {
  }

  lemma InsertMenuNewId(t: Tables, ids: map<TableName, nat>, venueId: int)
    requires IdsBelow(t, ids)
    ensures var r := ExecOn(t, ids, InsertMenu(venueId));
            r.Executed? ==> IdsBelow(r.tables, r.lastIds) && NewId(t, InsertMenu(venueId), r.lastInsertId)
  {
  }

  lemma InsertMenuItemNewId(t: Tables, ids: map<TableName, nat>, mi: MenuItem)
    requires IdsBelow(t, ids)
    ensures var r := ExecOn(t, ids, InsertMenuItem(mi));
            r.Executed? ==> IdsBelow(r.tables, r.lastIds) && NewId(t, InsertMenuItem(mi), r.lastInsertId)
  {
  }

  // ---------------------------------------------------------------------------
  // Calls: each takes the server state and returns the new state and the answer

  /** Logs the call and takes the oracle's next verdict for it. */
  function Consume(s: Server, call: Call): (r: (Fault, Server))
    ensures r.1 == s.(faults := r.1.faults, log := s.log + [call])
  {
    if s.faults == [] then (Pass, s.(log := s.log + [call]))
    else (s.faults[0], s.(faults := s.faults[1..], log := s.log + [call]))
  }

  function BeginSpec(s: Server): (Server, Option<Error>)
  {
    var (f, s1) := Consume(s, BeginCall);
    if !f.Pass? then (s1, Some(Driver(f.msg))) else (s1.(staged := s1.committed), None)
  }

  /** tx.Exec followed by res.LastInsertId(). */
  function ExecSpec(s: Server, stmt: Stmt): (Server, Fetched<int>)
  {
    var (f, s1) := Consume(s, ExecCall(stmt));
    if !f.Pass? then (s1, FetchFailed(Driver(f.msg)))
    else
      match ExecOn(s1.staged, s1.lastIds, stmt)
      case Rejected(e) => (s1, FetchFailed(e))
      case Executed(t, ids, id) => (s1.(staged := t, lastIds := ids), Fetched(id))
  }

  /** tx.QueryRow followed by row.Scan: the failure, if any, shows at Scan. */
  function QueryUserSpec(s: Server, name: string): (Server, Fetched<User>)
  {
    var (f, s1) := Consume(s, QueryUserCall(name));
    if !f.Pass? then (s1, FetchFailed(Driver(f.msg)))
    else
      match FindUser(s1.staged.users, name)
      case None => (s1, FetchFailed(NoRows))
      case Some(u) => (s1, Fetched(u))
  }

  function QueryVenueSpec(s: Server, q: VenueQuery): (Server, Fetched<Venue>)
  {
    var (f, s1) := Consume(s, QueryVenueCall(q));
    if !f.Pass? then (s1, FetchFailed(Driver(f.msg)))
    else
      match QueryVenueOn(s1.staged, q)
      case None => (s1, FetchFailed(NoRows))
      case Some(v) => (s1, Fetched(v))
  }

  function QueryListSpec(s: Server, q: ListQuery): (Server, Fetched<VenueList>)
  {
    var (f, s1) := Consume(s, QueryListCall(q));
    if !f.Pass? then (s1, FetchFailed(Driver(f.msg)))
    else
      match QueryListOn(s1.staged, q)
      case None => (s1, FetchFailed(NoRows))
      case Some(l) => (s1, Fetched(l))
  }

  /** tx.Query: the rows of the result set, to be scanned one by one. */
  function QueryVenuesSpec(s: Server, q: VenuesQuery): (Server, Fetched<seq<Venue>>)
  {
    var (f, s1) := Consume(s, QueryVenuesCall(q));
    if !f.Pass? then (s1, FetchFailed(Driver(f.msg))) else (s1, Fetched(QueryVenuesOn(s1.staged, q)))
  }

  function QueryItemsSpec(s: Server, venueId: int): (Server, Fetched<seq<MenuItem>>)
  {
    var (f, s1) := Consume(s, QueryItemsCall(venueId));
    if !f.Pass? then (s1, FetchFailed(Driver(f.msg)))
    else (s1, Fetched(VenueMenuItems(s1.staged.menus, s1.staged.items, venueId)))
  }

  /** rows.Next() and rows.Scan() for the next row of a result set. */
  function ScanSpec(s: Server): (Server, RowStep)
  {
    var (f, s1) := Consume(s, ScanCall);
    match f
    case Pass => (s1, RowRead)
    case Fail(msg) => (s1, ScanFailed(Driver(msg)))
    case Abort(msg) => (s1, NextFailed(Driver(msg)))
  }

  /** The last rows.Next(), which finds no further row: a failing verdict is
      an error that only rows.Err() reports. */
  function LastNextSpec(s: Server): (Server, Option<Error>)
  {
    var (f, s1) := Consume(s, ScanCall);
    if f.Pass? then (s1, None) else (s1, Some(Driver(f.msg)))
  }

  /** A failed commit leaves the committed tables as they were. */
  function CommitSpec(s: Server): (Server, Option<Error>)
  {
    var (f, s1) := Consume(s, CommitCall);
    if !f.Pass? then (s1, Some(Driver(f.msg))) else (s1.(committed := s1.staged), None)
  }

  function RollbackSpec(s: Server): Server
  {
    s.(log := s.log + [RollbackCall])
  }

  /** time.Sleep(backoff.Duration()): only the fact that it happened is kept. */
  function SleepSpec(s: Server): Server
  {
    s.(log := s.log + [SleepCall])
  }

  // ---------------------------------------------------------------------------

  /** The server, its connection pool and the clock, as one mutable object. */
  class Database {
    var committed: Tables
    var staged: Tables
    var lastIds: map<TableName, nat>
    var faults: seq<Fault>
    var log: seq<Call>

    function State(): Server
      reads this
    {
      Server(committed, staged, lastIds, faults, log)
    }

    constructor (faults: seq<Fault>)
      ensures State() == Fresh(faults)
    {
      committed, staged, lastIds := NoTables, NoTables, map[];
      this.faults, log := faults, [];
    }

    method Become(s: Server)
      modifies this
      ensures State() == s
    {
      committed, staged, lastIds, faults, log := s.committed, s.staged, s.lastIds, s.faults, s.log;
    }

    method Begin() returns (err: Option<Error>)
      modifies this
      ensures (State(), err) == BeginSpec(old(State()))
    {
      var r := BeginSpec(State());
      Become(r.0);
      err := r.1;
    }

    method Exec(stmt: Stmt) returns (res: Fetched<int>)
      modifies this
      ensures (State(), res) == ExecSpec(old(State()), stmt)
    {
      var r := ExecSpec(State(), stmt);
      Become(r.0);
      res := r.1;
    }

    method QueryUser(name: string) returns (res: Fetched<User>)
      modifies this
      ensures (State(), res) == QueryUserSpec(old(State()), name)
    {
      var r := QueryUserSpec(State(), name);
      Become(r.0);
      res := r.1;
    }

    method QueryVenue(q: VenueQuery) returns (res: Fetched<Venue>)
      modifies this
      ensures (State(), res) == QueryVenueSpec(old(State()), q)
    {
      var r := QueryVenueSpec(State(), q);
      Become(r.0);
      res := r.1;
    }

    method QueryList(q: ListQuery) returns (res: Fetched<VenueList>)
      modifies this
      ensures (State(), res) == QueryListSpec(old(State()), q)
    {
      var r := QueryListSpec(State(), q);
      Become(r.0);
      res := r.1;
    }

    method QueryVenues(q: VenuesQuery) returns (res: Fetched<seq<Venue>>)
      modifies this
      ensures (State(), res) == QueryVenuesSpec(old(State()), q)
    {
      var r := QueryVenuesSpec(State(), q);
      Become(r.0);
      res := r.1;
    }

    method QueryItems(venueId: int) returns (res: Fetched<seq<MenuItem>>)
      modifies this
      ensures (State(), res) == QueryItemsSpec(old(State()), venueId)
    {
      var r := QueryItemsSpec(State(), venueId);
      Become(r.0);
      res := r.1;
    }

    method Scan() returns (step: RowStep)
      modifies this
      ensures (State(), step) == ScanSpec(old(State()))
    {
      var r := ScanSpec(State());
      Become(r.0);
      step := r.1;
    }

    method LastNext() returns (err: Option<Error>)
      modifies this
      ensures (State(), err) == LastNextSpec(old(State()))
    {
      var r := LastNextSpec(State());
      Become(r.0);
      err := r.1;
    }

    method Commit() returns (err: Option<Error>)
      modifies this
      ensures (State(), err) == CommitSpec(old(State()))
    {
      var r := CommitSpec(State());
      Become(r.0);
      err := r.1;
    }

    method Rollback()
      modifies this
      ensures State() == RollbackSpec(old(State()))
    {
      Become(RollbackSpec(State()));
    }

    method Sleep()
      modifies this
      ensures State() == SleepSpec(old(State()))
    {
      Become(SleepSpec(State()));
    }
  }
}
