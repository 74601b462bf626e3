/** What the Store's operations do on a server whose calls all pass, on the
    fault patterns that tell the operations apart, and the reader defect: the
    rows a failed attempt scanned stay in the result of the next one. */
module StoreFacts {
  import opened Wrappers
  import opened Schema
  import opened Errors
  import opened Backend
  import opened Retry
  import opened Data
  import opened RetryFacts

  /** `n` passing verdicts of the fault oracle. */
  function Passes(n: nat): seq<Fault>
  {
    seq(n, _ => Pass)
  }

  // ---------------------------------------------------------------------------
  // Scanning

  /** With a fault-free oracle every row is scanned and appended in row order. */
  lemma {:induction false} ScanRowsClean<T>(s: Server, rows: seq<T>, acc: seq<T>)
    requires s.faults == []
    ensures var sc := ScanRows(s, rows, acc);
            && sc.err.None? && sc.broken.None? && sc.acc == acc + rows && sc.s.faults == []
            && sc.s.committed == s.committed && sc.s.staged == s.staged && sc.s.lastIds == s.lastIds
    decreases |rows|
  {
    ScanRowsKeepsTables(s, rows, acc);
    if rows != [] {
      var (s1, _) := ScanSpec(s);
      ScanRowsClean(s1, rows[1..], acc + [rows[0]]);
    }
  }

  /** One passing verdict per row and one for the last rows.Next(): every row
      is scanned, and the oracle moves past them. */
  lemma {:induction false} ScanRowsPasses<T>(s: Server, rows: seq<T>, acc: seq<T>, rest: seq<Fault>)
    requires s.faults == Passes(|rows| + 1) + rest
    ensures var sc := ScanRows(s, rows, acc);
            sc.err.None? && sc.broken.None? && sc.acc == acc + rows && sc.s.faults == rest
    decreases |rows|
  {
    ScanRowsKeepsTables(s, rows, acc);
    if rows != [] {
      var (s1, _) := ScanSpec(s);
      assert s1.faults == Passes(|rows|) + rest by {
        assert (Passes(|rows| + 1) + rest)[1..] == Passes(|rows|) + rest;
      }
      ScanRowsPasses(s1, rows[1..], acc + [rows[0]], rest);
    }
  }

  // ---------------------------------------------------------------------------
  // Attempts and runs with a fault-free oracle

  lemma InsertAttemptClean(s: Server, stmt: Stmt, p: InsertPolicy, c: Captured)
    requires s.faults == []
    ensures var a := AttemptSpec(s, Insert(stmt, p), c);
            var e := ExecOn(s.committed, s.lastIds, stmt);
            && a.s.faults == []
            && (e.Executed? ==> a.reply == Reply(false, None) && a.cap == c.(id := e.lastInsertId)
                                && a.s.committed == e.tables && a.s.lastIds == e.lastIds)
            && (e.Rejected? ==> a.reply == ExecFailure(p, e.err) && a.cap == c
                                && a.s.committed == s.committed && a.s.lastIds == s.lastIds)
  {
  }

  /** An insert on a fault-free server takes one attempt: the row is committed
      with the next id, or the statement's rejection is settled by the policy. */
  lemma InsertClean(s: Server, stmt: Stmt, p: InsertPolicy, c: Captured, retry: nat)
    requires s.faults == [] && retry >= 1
    ensures var r := RetryLoop(AttemptOf(Insert(stmt, p)), s, c, retry);
            var e := ExecOn(s.committed, s.lastIds, stmt);
            && r.attempts == 1 && r.s.faults == []
            && (e.Executed? ==> r.out == Returned(None) && r.cap == c.(id := e.lastInsertId)
                                && r.s.committed == e.tables && r.s.lastIds == e.lastIds)
            && (e.Rejected? ==> r.out == Settle(ExecFailure(p, e.err)) && r.cap == c
                                && r.s.committed == s.committed && r.s.lastIds == s.lastIds)
  {
    InsertAttemptClean(s, stmt, p, c);
    FirstDecisive(AttemptOf(Insert(stmt, p)), s, c, retry);
  }

  /** A venue lookup on a fault-free server: the row found, or no rows. */
  lemma LoadVenueAttemptClean(s: Server, q: VenueQuery, notFound: bool, c: Captured)
    requires s.faults == []
    ensures var a := AttemptSpec(s, LoadVenue(q, notFound), c);
            var found := QueryVenueOn(s.committed, q);
            && a.s.faults == [] && a.s.committed == s.committed && a.s.lastIds == s.lastIds
            && (found.Some? ==> a.reply == Reply(false, None) && a.cap == c.(venue := found.value)
                                && a.s.log == s.log + [BeginCall, QueryVenueCall(q), CommitCall])
            && (found.None? ==> a.reply == Reply(notFound, Some(if notFound then NotFound else NoRows))
                                && a.cap == c
                                && a.s.log == s.log + [BeginCall, QueryVenueCall(q), RollbackCall])
  {
  }

  /** VenueGet's lookup on a fault-free server: one attempt, ending in the row
      or in ErrNotFound, and only the lookup is issued. */
  lemma LoadVenueClean(s: Server, q: VenueQuery, c: Captured, retry: nat)
    requires s.faults == [] && retry >= 1
    ensures var r := RetryLoop(AttemptOf(LoadVenue(q, true)), s, c, retry);
            var found := QueryVenueOn(s.committed, q);
            && r.attempts == 1 && r.s.faults == [] && r.s.committed == s.committed
            && r.s.lastIds == s.lastIds
            && (found.Some? ==> r.out == Returned(None) && r.cap == c.(venue := found.value)
                                && r.s.log == s.log + [BeginCall, QueryVenueCall(q), CommitCall])
            && (found.None? ==> r.out == Returned(Some(NotFound)) && r.cap == c
                                && r.s.log == s.log + [BeginCall, QueryVenueCall(q), RollbackCall])
  {
    LoadVenueAttemptClean(s, q, true, c);
  }

  /** UserFavoritesGet's lookup does not bypass no-rows: a missing favorite
      spends the whole budget and comes back as the wrapped sql.ErrNoRows. */
  lemma {:induction false} NoRowsRetried(s: Server, q: VenueQuery, c: Captured, retry: nat)
    requires s.faults == [] && retry >= 1 && QueryVenueOn(s.committed, q).None?
    ensures var r := RetryLoop(AttemptOf(LoadVenue(q, false)), s, c, retry);
            && r.attempts == retry && r.out == Returned(Some(RetriesExceeded(NoRows)))
            && r.s.committed == s.committed && r.cap == c
    decreases retry
  {
    LoadVenueAttemptClean(s, q, false, c);
    if retry > 1 {
      var a := AttemptSpec(s, LoadVenue(q, false), c);
      NoRowsRetried(SleepSpec(a.s), q, c, retry - 1);
    }
  }

  lemma LoadListClean(s: Server, q: ListQuery, c: Captured, retry: nat)
    requires s.faults == [] && retry >= 1
    ensures var r := RetryLoop(AttemptOf(LoadList(q)), s, c, retry);
            var found := QueryListOn(s.committed, q);
            && r.attempts == 1 && r.s.faults == [] && r.s.committed == s.committed
            && r.s.lastIds == s.lastIds
            && (found.Some? ==> r.out == Returned(None) && r.cap == c.(list := found.value)
                                && r.s.log == s.log + [BeginCall, QueryListCall(q), CommitCall])
            && (found.None? ==> r.out == Returned(Some(NotFound)) && r.cap == c
                                && r.s.log == s.log + [BeginCall, QueryListCall(q), RollbackCall])
  {
    var a := AttemptSpec(s, LoadList(q), c);
  }

  /** GetUser on a fault-free server: the user found, or the zero user it started with, and nil. */
  lemma LoadUserClean(s: Server, name: string, c: Captured, retry: nat)
    requires s.faults == [] && retry >= 1
    ensures var r := RetryLoop(AttemptOf(LoadUser(name)), s, c, retry);
            var found := FindUser(s.committed.users, name);
            && r.attempts == 1 && r.out == Returned(None) && r.s.committed == s.committed
            && r.cap == (if found.Some? then c.(user := found.value) else c)
  {
  }

  lemma ReadVenuesAttemptClean(s: Server, q: VenuesQuery, fixed: bool, c: Captured)
    requires s.faults == []
    ensures var a := AttemptSpec(s, ReadVenues(q, fixed), c);
            && a.reply == Reply(false, None) && a.s.faults == []
            && a.s.committed == s.committed && a.s.lastIds == s.lastIds
            && a.cap == c.(venues := (if fixed then [] else c.venues) + QueryVenuesOn(s.committed, q))
  {
    var (s1, _) := BeginSpec(s);
    var c0 := if fixed then c.(venues := []) else c;
    var (s2, res) := QueryVenuesSpec(s1, q);
    ScanRowsClean(s2, res.value, c0.venues);
  }

  /** UserFavoritesList and VenuesByList on a fault-free server: every joined row, in row order. */
  lemma ReadVenuesClean(s: Server, q: VenuesQuery, fixed: bool, c: Captured, retry: nat)
    requires s.faults == [] && retry >= 1
    ensures var r := RetryLoop(AttemptOf(ReadVenues(q, fixed)), s, c, retry);
            && r.attempts == 1 && r.out == Returned(None) && r.s.faults == []
            && r.s.committed == s.committed
            && r.cap == c.(venues := (if fixed then [] else c.venues) + QueryVenuesOn(s.committed, q))
  {
    ReadVenuesAttemptClean(s, q, fixed, c);
  }

  lemma ReadItemsAttemptClean(s: Server, venueId: int, fixed: bool, c: Captured)
    requires s.faults == []
    ensures var a := AttemptSpec(s, ReadItems(venueId, fixed), c);
            && a.reply == Reply(false, None) && a.s.faults == []
            && a.s.committed == s.committed && a.s.lastIds == s.lastIds
            && a.cap == c.(items := (if fixed then [] else c.items)
                                    + VenueMenuItems(s.committed.menus, s.committed.items, venueId))
  {
    var (s1, _) := BeginSpec(s);
    var c0 := if fixed then c.(items := []) else c;
    var (s2, res) := QueryItemsSpec(s1, venueId);
    ScanRowsClean(s2, res.value, c0.items);
  }

  /** MenuItemsGet on a fault-free server: the items of the venue's menus, in row order. */
  lemma ReadItemsClean(s: Server, venueId: int, fixed: bool, c: Captured, retry: nat)
    requires s.faults == [] && retry >= 1
    ensures var r := RetryLoop(AttemptOf(ReadItems(venueId, fixed)), s, c, retry);
            && r.attempts == 1 && r.out == Returned(None) && r.s.faults == []
            && r.s.committed == s.committed
            && r.cap == c.(items := (if fixed then [] else c.items)
                                    + VenueMenuItems(s.committed.menus, s.committed.items, venueId))
  {
    ReadItemsAttemptClean(s, venueId, fixed, c);
  }

  // ---------------------------------------------------------------------------
  // Inserts whose Exec fails

  /** An Exec failure ends an insert's run at once, whatever the policy: it is
      never retried, nothing is committed, and a panic skips the rollback. */
  lemma InsertExecFails(s: Server, stmt: Stmt, p: InsertPolicy, c: Captured, retry: nat, m: string)
    requires s.faults == [Pass, Fail(m)] && retry >= 1 && p != RetryUnlessDuplicate
    ensures var r := RetryLoop(AttemptOf(Insert(stmt, p)), s, c, retry);
            var reply := ExecFailure(p, Driver(m));
            && r.attempts == 1 && r.out == Settle(reply) && r.cap == c
            && r.s.committed == s.committed
            && r.s.log == s.log + [BeginCall, ExecCall(stmt)] + (if reply.Panic? then [] else [RollbackCall])
  {
  }

  /** CreateUser, CreateVenue, CreateVenueList, CreateMenu and VenueListAdd's
      insert: an error that is not a duplicate panics, with no rollback. */
  lemma CreateVenuePanics(s: Server, v: Venue, m: string)
    requires s.faults == [Pass, Fail(m)] && !IsDuplicate(Driver(m))
    ensures var a := CreateVenueSpec(s, v);
            a.out == Panicked && a.s.committed == s.committed
            && a.s.log == s.log + [BeginCall, ExecCall(InsertVenue(v))]
  {
    InsertExecFails(s, InsertVenue(v), PanicUnlessDuplicate, Nothing, RetryN + 1, m);
  }

  /** Corrected: the same failing Exec is rolled back and retried, and the
      second attempt commits the venue; the operation cannot panic. */
  lemma CreateVenueFixedRetriesExecError(s: Server, v: Venue, m: string)
    requires s.faults == [Pass, Fail(m)] && !IsDuplicate(Driver(m))
    requires VenueNamed(s.committed.venues, v.name).None?
    ensures var a := CreateVenueFixedSpec(s, v);
            && a.out == Returned(None) && a.value == LastId(s.lastIds, VenueTable) + 1
            && a.s.committed.venues == s.committed.venues + [v.(id := a.value)]
  {
    var w := Insert(InsertVenue(v), RetryUnlessDuplicate);
    var a := AttemptSpec(s, w, Nothing);
    assert a.reply == Reply(false, Some(Driver(m))) && a.cap == Nothing;
    assert a.s.faults == [] && a.s.committed == s.committed && a.s.lastIds == s.lastIds;
    InsertClean(SleepSpec(a.s), InsertVenue(v), RetryUnlessDuplicate, Nothing, RetryN);
  }

  /** CreateUserFavorite hands back any insert error unchanged, after one attempt. */
  lemma CreateUserFavoriteBypasses(s: Server, f: UserFavorite, m: string)
    requires s.faults == [Pass, Fail(m)]
    ensures var a := CreateUserFavoriteSpec(s, f);
            a.out == Returned(Some(Driver(m))) && a.value == 0 && a.s.committed == s.committed
            && Count(a.s.log, BeginCall) == Count(s.log, BeginCall) + 1
  {
    var w := Insert(InsertFavorite(f.userId, f.venueId), BypassAny);
    InsertExecFails(s, w.stmt, BypassAny, Nothing, RetryN + 1, m);
    AttemptOneBegin(w);
    RetryCounted(AttemptOf(w), s, Nothing, RetryN + 1);
  }

  /** AddToMenu turns a duplicate into ErrDuplicateEntry and hands back any other error unchanged. */
  lemma AddToMenuClassifies(s: Server, mi: MenuItem, m: string)
    requires s.faults == [Pass, Fail(m)]
    ensures var a := AddToMenuSpec(s, mi);
            && a.out == Returned(Some(if IsDuplicate(Driver(m)) then DuplicateEntry else Driver(m)))
            && a.s.committed == s.committed
  {
    InsertExecFails(s, InsertMenuItem(mi), BypassClassified, Nothing, RetryN + 1, m);
  }

  // ---------------------------------------------------------------------------
  // Operations

  /** The insert ExecOn makes of a venue whose name is free. */
  lemma VenueInsert(t: Tables, ids: map<TableName, nat>, v: Venue)
    requires VenueNamed(t.venues, v.name).None?
    ensures var id := LastId(ids, VenueTable) + 1;
            ExecOn(t, ids, InsertVenue(v)) == Executed(t.(venues := t.venues + [v.(id := id)]), ids[VenueTable := id], id)
  {
  }

  /** Creating two venues with the same name: the first gets the next id, the
      second fails with ErrDuplicateEntry and writes nothing. */
  lemma DuplicateVenue(s: Server, v: Venue, v2: Venue)
    requires s.faults == [] && VenueNamed(s.committed.venues, v.name).None? && v2.name == v.name
    ensures var a1 := CreateVenueSpec(s, v);
            var a2 := CreateVenueSpec(a1.s, v2);
            && a1.out == Returned(None) && a1.value == LastId(s.lastIds, VenueTable) + 1
            && a1.s.committed.venues == s.committed.venues + [v.(id := a1.value)]
            && a2.out == Returned(Some(DuplicateEntry)) && a2.value == 0
            && a2.s.committed == a1.s.committed
  {
    InsertClean(s, InsertVenue(v), PanicUnlessDuplicate, Nothing, RetryN + 1);
    var a1 := CreateVenueSpec(s, v);
    assert VenueNamed(a1.s.committed.venues, v.name).Some? by {
      VenueNamedMeans(a1.s.committed.venues, v.name);
      assert a1.s.committed.venues[|s.committed.venues|] == v.(id := a1.value);
    }
    InsertClean(a1.s, InsertVenue(v2), PanicUnlessDuplicate, Nothing, RetryN + 1);
  }

  /** Two lookups with no write between them answer alike, and change no table. */
  lemma VenueGetIdempotent(s: Server, v: Venue)
    requires s.faults == []
    ensures var a1 := VenueGetSpec(s, v);
            var a2 := VenueGetSpec(a1.s, v);
            a2.value == a1.value && a2.out == a1.out && a2.s.committed == s.committed
  {
    var k := SelectKey(v.id, v.name);
    if k.Some? {
      var q := VenueQueryFor(k.value);
      LoadVenueClean(s, q, Nothing, RetryN + 1);
      var a1 := VenueGetSpec(s, v);
      LoadVenueClean(a1.s, q, Nothing, RetryN + 1);
    }
  }

  /** A lookup of a venue that does not exist ends with ErrNotFound after one
      transaction; the budget is not spent. */
  lemma VenueNotFoundIsTerminal(s: Server, v: Venue)
    requires s.faults == [] && v.id != 0 && FindVenue(s.committed.venues, v.id).None?
    ensures var a := VenueGetSpec(s, v);
            && a.out == Returned(Some(NotFound)) && a.value == ZeroVenue
            && a.s.log == s.log + [BeginCall, QueryVenueCall(VenueById(v.id)), RollbackCall]
  {
    LoadVenueClean(s, VenueById(v.id), Nothing, RetryN + 1);
  }

  /** With neither id nor name, VenueGet and VenueListGet fail without issuing any call. */
  lemma LookupWithoutKey(s: Server, v: Venue, l: VenueList)
    requires v.id == 0 && v.name == "" && l.id == 0 && l.name == ""
    ensures VenueGetSpec(s, v) == Answer(s, ZeroVenue, Returned(Some(NoVenueKey)))
    ensures VenueListGetSpec(s, l) == Answer(s, ZeroVenueList, Returned(Some(NoVenueListKey)))
  {
  }

  /** A driver error of the lookup is not bypassed: the attempt is rolled back and retried. */
  lemma VenueGetRetriesQueryError(s: Server, v: Venue, m: string)
    requires s.faults == [Pass, Fail(m)] && v.id != 0
    ensures var r := Transact(s, LoadVenue(VenueById(v.id), true));
            && r.attempts == 2
            && (FindVenue(s.committed.venues, v.id).Some? ==>
                  r.out == Returned(None) && r.cap.venue == FindVenue(s.committed.venues, v.id).value)
            && (FindVenue(s.committed.venues, v.id).None? ==> r.out == Returned(Some(NotFound)))
  {
    var w := LoadVenue(VenueById(v.id), true);
    var a := AttemptSpec(s, w, Nothing);
    assert a.reply == Reply(false, Some(Driver(m))) && a.cap == Nothing;
    assert a.s.faults == [] && a.s.committed == s.committed;
    LoadVenueClean(SleepSpec(a.s), VenueById(v.id), Nothing, RetryN);
  }

  /** A failed query is retried, and since it appended nothing the retry returns each row once. */
  lemma ReaderRetriesQueryError(s: Server, q: VenuesQuery, m: string)
    requires s.faults == [Pass, Fail(m)]
    ensures var r := Transact(s, ReadVenues(q, false));
            && r.attempts == 2 && r.out == Returned(None)
            && r.cap.venues == QueryVenuesOn(s.committed, q)
  {
    var w := ReadVenues(q, false);
    var a := AttemptSpec(s, w, Nothing);
    assert a.reply == Reply(false, Some(Driver(m))) && a.cap == Nothing;
    assert a.s.faults == [] && a.s.committed == s.committed;
    ReadVenuesClean(SleepSpec(a.s), q, false, Nothing, RetryN);
  }

  /** A missing favorite is retried to exhaustion: four transactions, then the wrapped no-rows error. */
  lemma UserFavoritesGetMissing(s: Server, f: UserFavorite)
    requires s.faults == [] && FavoriteVenue(s.committed.favorites, s.committed.venues, f.userId, f.venueId).None?
    ensures var r := Transact(s, LoadVenue(FavoriteOf(f.userId, f.venueId), false));
            && r.attempts == RetryN + 1
            && UserFavoritesGetSpec(s, f).out == Returned(Some(RetriesExceeded(NoRows)))
            && UserFavoritesGetSpec(s, f).value == ZeroVenue
  {
    NoRowsRetried(s, FavoriteOf(f.userId, f.venueId), Nothing, RetryN + 1);
  }

  /** GetUser never fails on a lookup: a missing user is the zero user with a nil error. */
  lemma GetUserMissing(s: Server, u: User)
    requires s.faults == [] && FindUser(s.committed.users, u.userName).None?
    ensures GetUserSpec(s, u).value == ZeroUser && GetUserSpec(s, u).out == Returned(None)
  {
    LoadUserClean(s, u.userName, Nothing, RetryN + 1);
  }

  /** GetUser drops the lookup's error too: a failing query is a zero user and nil. */
  lemma GetUserSwallowsQueryError(s: Server, u: User, m: string)
    requires s.faults == [Pass, Fail(m)]
    ensures GetUserSpec(s, u).value == ZeroUser && GetUserSpec(s, u).out == Returned(None)
  {
  }

  /** UserFavoritesDelete on a fault-free server commits the table without the
      favorite `id`, and nothing else: every other favorite stays, in order. */
  lemma DeleteFavoriteRemoves(s: Server, id: int)
    requires s.faults == []
    ensures var a := UserFavoritesDeleteSpec(s, id);
            && a.out == Returned(None)
            && a.s.committed == s.committed.(favorites := RemoveFavorite(s.committed.favorites, id))
            && forall f :: f in a.s.committed.favorites <==> f in s.committed.favorites && f.id != id
  {
    RemoveFavoriteMeans(s.committed.favorites, id);
  }

  /** Deleting a favorite that does not exist reports success. */
  lemma DeleteMissingFavorite(s: Server, id: int)
    requires s.faults == [] && forall f :: f in s.committed.favorites ==> f.id != id
    ensures var a := UserFavoritesDeleteSpec(s, id);
            a.out == Returned(None) && a.s.committed.favorites == s.committed.favorites
  {
    assert RemoveFavorite(s.committed.favorites, id) == s.committed.favorites by {
      RemoveNothing(s.committed.favorites, id);
    }
  }

  lemma {:induction false} RemoveNothing(favorites: seq<UserFavorite>, id: int)
    requires forall f :: f in favorites ==> f.id != id
    ensures RemoveFavorite(favorites, id) == favorites
    decreases |favorites|
  {
    if favorites != [] {
      assert favorites[0] in favorites;
      forall f | f in favorites[1..]
        ensures f.id != id
      {
        assert f in favorites;
      }
      RemoveNothing(favorites[1..], id);
      assert [favorites[0]] + favorites[1..] == favorites;
    }
  }

  /** Begin failing twice and then passing: the third attempt commits the venue. */
  lemma CreateVenueRecovers(s: Server, v: Venue, m1: string, m2: string)
    requires s.faults == [Fail(m1), Fail(m2)] && VenueNamed(s.committed.venues, v.name).None?
    ensures var r := Transact(s, Insert(InsertVenue(v), PanicUnlessDuplicate));
            && r.attempts == 3 && r.out == Returned(None)
            && r.cap.id == LastId(s.lastIds, VenueTable) + 1
            && r.s.committed.venues == s.committed.venues + [v.(id := r.cap.id)]
  {
    var w := Insert(InsertVenue(v), PanicUnlessDuplicate);
    AttemptPausesOnFailedBegin(w);
    RetryPastFailingBegins(AttemptOf(w), s, Nothing, RetryN + 1, 2);
    var s2 := AfterPauses(s, 2);
    InsertClean(s2, InsertVenue(v), PanicUnlessDuplicate, Nothing, RetryN - 1);
  }

  /** A fault-free server with no menu and no menu item yet. */
  ghost predicate NoMenus(s: Server)
  {
    && s.faults == [] && s.committed.menus == [] && s.committed.items == []
    && MenuTable !in s.lastIds && ItemTable !in s.lastIds
  }

  lemma PanzanoVenue(v: Venue)
    ensures var a := CreateVenueSpec(Fresh([]), v);
            a.value == 1 && a.out == Returned(None) && NoMenus(a.s)
  {
    InsertClean(Fresh([]), InsertVenue(v), PanicUnlessDuplicate, Nothing, RetryN + 1);
  }

  lemma PanzanoMenu(s: Server, venueId: int)
    requires NoMenus(s)
    ensures var a := CreateMenuSpec(s, Menu(0, venueId));
            && a.value == 1 && a.out == Returned(None) && a.s.faults == []
            && a.s.committed.menus == [Menu(1, venueId)] && a.s.committed.items == []
            && ItemTable !in a.s.lastIds
  {
    InsertClean(s, InsertMenu(venueId), PanicUnlessDuplicate, Nothing, RetryN + 1);
  }

  lemma PanzanoItem(s: Server, venueId: int, item: MenuItem)
    requires s.faults == [] && s.committed.menus == [Menu(1, venueId)] && s.committed.items == []
    requires ItemTable !in s.lastIds
    ensures var a := AddToMenuSpec(s, item);
            && a.value == 1 && a.out == Returned(None) && a.s.faults == []
            && a.s.committed.menus == [Menu(1, venueId)] && a.s.committed.items == [item.(id := 1)]
  {
    InsertClean(s, InsertMenuItem(item), BypassClassified, Nothing, RetryN + 1);
  }

  lemma PanzanoItems(s: Server, venueId: int, item: MenuItem)
    requires s.faults == [] && s.committed.menus == [Menu(1, venueId)] && s.committed.items == [item]
    requires item.menuId == 1
    ensures var a := MenuItemsGetSpec(s, Menu(0, venueId));
            a.value == [item] && a.out == Returned(None)
  {
    ReadItemsClean(s, venueId, false, Nothing, RetryN + 1);
    assert MenuItemsOf([item], 1) == [item];
    assert VenueMenuItems([Menu(1, venueId)], [item], venueId) == [item];
  }

  /** The concrete scenario of a new venue with one menu item: each insert on
      an empty server gets id 1, and the venue's menu lists the item. */
  lemma Panzano()
    ensures var v := Venue(0, "Panzano", "909 17th St", "", "Denver", "CO", "80202", "USA", "");
            var item := MenuItem(0, 1, "Drink", 5.00, "LOCAL DRAFT BEERS");
            var a1 := CreateVenueSpec(Fresh([]), v);
            var a2 := CreateMenuSpec(a1.s, Menu(0, 1));
            var a3 := AddToMenuSpec(a2.s, item);
            var a4 := MenuItemsGetSpec(a3.s, Menu(0, 1));
            && a1.value == 1 && a1.out == Returned(None)
            && a2.value == 1 && a2.out == Returned(None)
            && a3.value == 1 && a3.out == Returned(None)
            && a4.value == [item.(id := 1)] && a4.out == Returned(None)
  {
    var v := Venue(0, "Panzano", "909 17th St", "", "Denver", "CO", "80202", "USA", "");
    var item := MenuItem(0, 1, "Drink", 5.00, "LOCAL DRAFT BEERS");
    PanzanoVenue(v);
    var a1 := CreateVenueSpec(Fresh([]), v);
    PanzanoMenu(a1.s, 1);
    var a2 := CreateMenuSpec(a1.s, Menu(0, 1));
    PanzanoItem(a2.s, 1, item);
    var a3 := AddToMenuSpec(a2.s, item);
    PanzanoItems(a3.s, 1, item.(id := 1));
  }

  // ---------------------------------------------------------------------------
  // VenueListAdd

  /** A list that cannot be found ends VenueListAdd with "venue list <name> not
      found": the only transaction issued is the list lookup, so neither the
      venue lookup nor the insert happens. */
  lemma VenueListAddMissingList(s: Server, a: VenueListAdd)
    requires s.faults == []
    requires a.venueListId == 0 && a.venueListName != ""
    requires ListNamed(s.committed.lists, a.venueListName).None?
    ensures var r := VenueListAddSpec(s, a);
            && r.out == Returned(Some(VenueListNotFound(a.venueListName)))
            && r.s.committed == s.committed
            && r.s.log == s.log + [BeginCall, QueryListCall(ListByName(a.venueListName)), RollbackCall]
  {
    LoadListClean(s, ListByName(a.venueListName), Nothing, RetryN + 1);
  }

  /** A venue that cannot be found ends VenueListAdd with "venue <name> not found", and nothing is inserted. */
  lemma VenueListAddMissingVenue(s: Server, a: VenueListAdd, l: VenueList)
    requires s.faults == []
    requires a.venueListId != 0 && FindList(s.committed.lists, a.venueListId) == Some(l)
    requires a.venueId != 0 && FindVenue(s.committed.venues, a.venueId).None?
    ensures var r := VenueListAddSpec(s, a);
            && r.out == Returned(Some(VenueNotFound(a.venueName)))
            && r.s.committed == s.committed
            && r.s.log == s.log + [BeginCall, QueryListCall(ListById(a.venueListId)), CommitCall,
                                   BeginCall, QueryVenueCall(VenueById(a.venueId)), RollbackCall]
  {
    LoadListClean(s, ListById(a.venueListId), Nothing, RetryN + 1);
    var la := VenueListGetSpec(s, VenueList(a.venueListId, a.venueListName));
    LoadVenueClean(la.s, VenueById(a.venueId), Nothing, RetryN + 1);
  }

  /** Any call but a statement and a venue query. */
  predicate NeitherWriteNorVenueQuery(call: Call)
  {
    !call.ExecCall? && !call.QueryVenueCall?
  }

  /** Any call but a statement. */
  predicate NoWrite(call: Call)
  {
    !call.ExecCall?
  }

  lemma ListLookupStep(s: Server, q: ListQuery, c: Captured)
    ensures ReadOnly(s, AttemptSpec(s, LoadList(q), c).s, NeitherWriteNorVenueQuery)
  {
    var ok := NeitherWriteNorVenueQuery;
    var a := AttemptSpec(s, LoadList(q), c);
    var (s1, berr) := BeginSpec(s);
    if berr.Some? {
      assert a.s == s1;
      ReadOnlyByCalls(s, a.s, [BeginCall], ok);
    } else {
      var (s2, res) := QueryListSpec(s1, q);
      assert s2.staged == s.committed && s2.committed == s.committed;
      assert s2.log == s.log + [BeginCall] + [QueryListCall(q)];
      if WorkSpec(s1, LoadList(q), c).reply.err.Some? {
        assert a.s == RollbackSpec(s2);
        ReadOnlyByCalls(s, a.s, [BeginCall, QueryListCall(q), RollbackCall], ok);
      } else {
        assert a.s == CommitSpec(s2).0;
        ReadOnlyByCalls(s, a.s, [BeginCall, QueryListCall(q), CommitCall], ok);
      }
    }
  }

  lemma VenueLookupStep(s: Server, q: VenueQuery, c: Captured)
    ensures ReadOnly(s, AttemptSpec(s, LoadVenue(q, true), c).s, NoWrite)
  {
    var ok := NoWrite;
    var a := AttemptSpec(s, LoadVenue(q, true), c);
    var (s1, berr) := BeginSpec(s);
    if berr.Some? {
      assert a.s == s1;
      ReadOnlyByCalls(s, a.s, [BeginCall], ok);
    } else {
      var (s2, res) := QueryVenueSpec(s1, q);
      assert s2.staged == s.committed && s2.committed == s.committed;
      assert s2.log == s.log + [BeginCall] + [QueryVenueCall(q)];
      if WorkSpec(s1, LoadVenue(q, true), c).reply.err.Some? {
        assert a.s == RollbackSpec(s2);
        ReadOnlyByCalls(s, a.s, [BeginCall, QueryVenueCall(q), RollbackCall], ok);
      } else {
        assert a.s == CommitSpec(s2).0;
        ReadOnlyByCalls(s, a.s, [BeginCall, QueryVenueCall(q), CommitCall], ok);
      }
    }
  }

  /** An attempt of VenueListGet's closure commits nothing and makes no
      statement and no venue query. */
  lemma ListLookupAttemptReadOnly(q: ListQuery)
    ensures OnlyReads(AttemptOf(LoadList(q)), NeitherWriteNorVenueQuery)
  {
    forall s, c
      ensures ReadOnly(s, AttemptOf(LoadList(q))(s, c).s, NeitherWriteNorVenueQuery)
    {
      ListLookupStep(s, q, c);
    }
  }

  /** An attempt of VenueGet's closure commits nothing and makes no statement. */
  lemma VenueLookupAttemptReadOnly(q: VenueQuery)
    ensures OnlyReads(AttemptOf(LoadVenue(q, true)), NoWrite)
  {
    forall s, c
      ensures ReadOnly(s, AttemptOf(LoadVenue(q, true))(s, c).s, NoWrite)
    {
      VenueLookupStep(s, q, c);
    }
  }

  /** VenueListGet, whatever the faults and the key: it commits nothing and
      makes no statement and no venue query. */
  lemma VenueListGetReadOnly(s: Server, l: VenueList)
    ensures ReadOnly(s, VenueListGetSpec(s, l).s, NeitherWriteNorVenueQuery)
  {
    match SelectKey(l.id, l.name)
    case None =>
    case Some(k) =>
      ListLookupAttemptReadOnly(ListQueryFor(k));
      RunReadOnly(AttemptOf(LoadList(ListQueryFor(k))), s, Nothing, RetryN + 1, NeitherWriteNorVenueQuery);
  }

  /** VenueGet, whatever the faults and the key: it commits nothing and makes no statement. */
  lemma VenueGetReadOnly(s: Server, v: Venue)
    ensures ReadOnly(s, VenueGetSpec(s, v).s, NoWrite)
  {
    match SelectKey(v.id, v.name)
    case None =>
    case Some(k) =>
      VenueLookupAttemptReadOnly(VenueQueryFor(k));
      RunReadOnly(AttemptOf(LoadVenue(VenueQueryFor(k), true)), s, Nothing, RetryN + 1, NoWrite);
  }

  /** A successful attempt of VenueListGet's closure has captured the committed row its query selects. */
  lemma ListLookupFoundStep(s: Server, q: ListQuery, c: Captured)
    ensures var a := AttemptSpec(s, LoadList(q), c);
            a.reply.Reply? && a.reply.err.None? ==> QueryListOn(s.committed, q) == Some(a.cap.list)
  {
    var (s1, berr) := BeginSpec(s);
    if berr.None? {
      assert s1.staged == s.committed;
    }
  }

  /** A successful attempt of VenueGet's closure has captured the committed row its query selects. */
  lemma VenueLookupFoundStep(s: Server, q: VenueQuery, c: Captured)
    ensures var a := AttemptSpec(s, LoadVenue(q, true), c);
            a.reply.Reply? && a.reply.err.None? ==> QueryVenueOn(s.committed, q) == Some(a.cap.venue)
  {
    var (s1, berr) := BeginSpec(s);
    if berr.None? {
      assert s1.staged == s.committed;
    }
  }

  /** Whatever the faults: a VenueListGet that returns nil returns the committed
      row its key selects, and commits nothing. */
  lemma VenueListGetFound(s: Server, l: VenueList)
    requires VenueListGetSpec(s, l).out == Returned(None)
    ensures var k := SelectKey(l.id, l.name);
            && k.Some? && QueryListOn(s.committed, ListQueryFor(k.value)) == Some(VenueListGetSpec(s, l).value)
            && VenueListGetSpec(s, l).s.committed == s.committed
  {
    var k := SelectKey(l.id, l.name).value;
    var q := ListQueryFor(k);
    var found := (t: Tables, cap: Captured) => QueryListOn(t, q) == Some(cap.list);
    forall s', c'
      ensures AttemptOf(LoadList(q))(s', c').reply.Reply? && AttemptOf(LoadList(q))(s', c').reply.err.None? ==>
                found(s'.committed, AttemptOf(LoadList(q))(s', c').cap)
    {
      ListLookupFoundStep(s', q, c');
    }
    ListLookupAttemptReadOnly(q);
    RunFound(AttemptOf(LoadList(q)), s, Nothing, RetryN + 1, found, NeitherWriteNorVenueQuery);
    VenueListGetReadOnly(s, l);
  }

  /** Whatever the faults: a VenueGet that returns nil returns the committed
      row its key selects, and commits nothing. */
  lemma VenueGetFound(s: Server, v: Venue)
    requires VenueGetSpec(s, v).out == Returned(None)
    ensures var k := SelectKey(v.id, v.name);
            && k.Some? && QueryVenueOn(s.committed, VenueQueryFor(k.value)) == Some(VenueGetSpec(s, v).value)
            && VenueGetSpec(s, v).s.committed == s.committed
  {
    var k := SelectKey(v.id, v.name).value;
    var q := VenueQueryFor(k);
    var found := (t: Tables, cap: Captured) => QueryVenueOn(t, q) == Some(cap.venue);
    forall s', c'
      ensures AttemptOf(LoadVenue(q, true))(s', c').reply.Reply? && AttemptOf(LoadVenue(q, true))(s', c').reply.err.None? ==>
                found(s'.committed, AttemptOf(LoadVenue(q, true))(s', c').cap)
    {
      VenueLookupFoundStep(s', q, c');
    }
    VenueLookupAttemptReadOnly(q);
    RunFound(AttemptOf(LoadVenue(q, true)), s, Nothing, RetryN + 1, found, NoWrite);
    VenueGetReadOnly(s, v);
  }

  /** Whatever the faults and the keys: when both lookups return nil they found
      the committed rows their keys select, nothing was committed meanwhile,
      and VenueListAdd goes on to insert the pair of those rows' ids. */
  lemma VenueListAddResolves(s: Server, a: VenueListAdd)
    requires VenueListAddList(s, a).out == Returned(None) && VenueListAddVenue(s, a).out == Returned(None)
    ensures var kl := SelectKey(a.venueListId, a.venueListName);
            var kv := SelectKey(a.venueId, a.venueName);
            var l := VenueListAddList(s, a).value;
            var v := VenueListAddVenue(s, a).value;
            && kl.Some? && QueryListOn(s.committed, ListQueryFor(kl.value)) == Some(l)
            && kv.Some? && QueryVenueOn(s.committed, VenueQueryFor(kv.value)) == Some(v)
            && VenueListAddVenue(s, a).s.committed == s.committed
            && VenueListAddSpec(s, a)
               == InsertAnswer(VenueListAddVenue(s, a).s, InsertMembership(v.id, l.id), PanicUnlessDuplicate)
  {
    var la := VenueListAddList(s, a);
    VenueListGetFound(s, VenueList(a.venueListId, a.venueListName));
    VenueGetFound(la.s, Venue(a.venueId, a.venueName, "", "", "", "", "", "", ""));
  }

  /** Whatever the faults: when the list lookup fails, VenueListAdd reports the
      list by name, commits nothing, and neither looks the venue up nor inserts. */
  lemma VenueListAddListFails(s: Server, a: VenueListAdd)
    requires VenueListGetSpec(s, VenueList(a.venueListId, a.venueListName)).out != Returned(None)
    ensures var r := VenueListAddSpec(s, a);
            && r.value == 0 && r.out == Returned(Some(VenueListNotFound(a.venueListName)))
            && r.s.committed == s.committed
            && ReadOnly(s, r.s, NeitherWriteNorVenueQuery)
  {
    VenueListGetReadOnly(s, VenueList(a.venueListId, a.venueListName));
  }

  /** Whatever the faults: when the list is found but the venue lookup fails,
      VenueListAdd reports the venue by name, commits nothing, and does not insert. */
  lemma VenueListAddVenueFails(s: Server, a: VenueListAdd)
    requires var la := VenueListGetSpec(s, VenueList(a.venueListId, a.venueListName));
             && la.out == Returned(None)
             && VenueGetSpec(la.s, Venue(a.venueId, a.venueName, "", "", "", "", "", "", "")).out != Returned(None)
    ensures var r := VenueListAddSpec(s, a);
            && r.value == 0 && r.out == Returned(Some(VenueNotFound(a.venueName)))
            && r.s.committed == s.committed
            && ReadOnly(s, r.s, NoWrite)
  {
    var la := VenueListGetSpec(s, VenueList(a.venueListId, a.venueListName));
    var v := Venue(a.venueId, a.venueName, "", "", "", "", "", "", "");
    VenueListGetReadOnly(s, VenueList(a.venueListId, a.venueListName));
    ReadOnlyWeaken(s, la.s, NeitherWriteNorVenueQuery, NoWrite);
    VenueGetReadOnly(la.s, v);
    ReadOnlyTrans(s, la.s, VenueGetSpec(la.s, v).s, NoWrite);
  }

  /** When both lookups succeed, the membership row joins the ids the lookups resolved. */
  lemma VenueListAddInsertsResolvedIds(s: Server, a: VenueListAdd, l: VenueList, v: Venue)
    requires s.faults == []
    requires a.venueListId == 0 && a.venueListName != "" && ListNamed(s.committed.lists, a.venueListName) == Some(l)
    requires a.venueId == 0 && a.venueName != "" && VenueNamed(s.committed.venues, a.venueName) == Some(v)
    requires forall m :: m in s.committed.memberships ==> !(m.venueId == v.id && m.venueListId == l.id)
    ensures var r := VenueListAddSpec(s, a);
            var id := LastId(s.lastIds, MembershipTable) + 1;
            && r.out == Returned(None) && r.value == id
            && r.s.committed.memberships == s.committed.memberships + [Membership(id, v.id, l.id)]
  {
    var la := VenueListAddList(s, a);
    assert la.out == Returned(None) && la.value == l && la.s.committed == s.committed
           && la.s.faults == [] && la.s.lastIds == s.lastIds by {
      LoadListClean(s, ListByName(a.venueListName), Nothing, RetryN + 1);
    }
    var va := VenueListAddVenue(s, a);
    assert va.out == Returned(None) && va.value == v && va.s.committed == s.committed
           && va.s.faults == [] && va.s.lastIds == s.lastIds by {
      LoadVenueClean(la.s, VenueByName(a.venueName), Nothing, RetryN + 1);
    }
    assert !Paired(s.committed.memberships, v.id, l.id) by {
      PairedMeans(s.committed.memberships, v.id, l.id);
    }
    assert VenueListAddSpec(s, a) == InsertAnswer(va.s, InsertMembership(v.id, l.id), PanicUnlessDuplicate);
    InsertClean(va.s, InsertMembership(v.id, l.id), PanicUnlessDuplicate, Nothing, RetryN + 1);
  }

  // ---------------------------------------------------------------------------
  // The readers keep the rows of a failed attempt

  /** As written: the first attempt scans every row and then fails to commit;
      the retry scans them again onto the same slice, so the operation returns
      nil with every row twice. */
  lemma ReaderRepeatsRows(s: Server, q: VenuesQuery, m: string)
    requires s.faults == [Pass, Pass] + Passes(|QueryVenuesOn(s.committed, q)| + 1) + [Fail(m)]
    ensures var rows := QueryVenuesOn(s.committed, q);
            var r := Transact(s, ReadVenues(q, false));
            && r.attempts == 2 && r.out == Returned(None)
            && r.s.committed == s.committed
            && r.cap.venues == rows + rows
  {
    var rows := QueryVenuesOn(s.committed, q);
    var (s1, _) := BeginSpec(s);
    assert s1.staged == s.committed;
    var (s2, res) := QueryVenuesSpec(s1, q);
    assert s2.faults == Passes(|rows| + 1) + [Fail(m)] by {
      assert s.faults[2..] == Passes(|rows| + 1) + [Fail(m)];
    }
    ScanRowsPasses(s2, res.value, [], [Fail(m)]);
    var sc := ScanRows(s2, res.value, []);
    var (s3, _) := CommitSpec(sc.s);
    assert s3.faults == [];
    AttemptAtomic(s, ReadVenues(q, false), Nothing);
    var a := AttemptSpec(s, ReadVenues(q, false), Nothing);
    assert a.reply == Reply(false, Some(Driver(m)));
    assert a.cap.venues == rows;
    assert a.s.committed == s.committed && a.s.faults == [];
    ReadVenuesClean(SleepSpec(a.s), q, false, a.cap, RetryN);
    var r' := RetryLoop(AttemptOf(ReadVenues(q, false)), SleepSpec(a.s), a.cap, RetryN);
    assert Transact(s, ReadVenues(q, false)) == r'.(attempts := r'.attempts + 1);
  }

  /** The same defect in UserFavoritesList: a user with favorites gets each one twice. */
  lemma UserFavoritesListRepeatsRows(s: Server, f: UserFavorite, m: string)
    requires FavoriteVenues(s.committed.favorites, s.committed.venues, f.userId) != []
    requires s.faults == [Pass, Pass] + Passes(|FavoriteVenues(s.committed.favorites, s.committed.venues, f.userId)| + 1) + [Fail(m)]
    ensures var a := UserFavoritesListSpec(s, f);
            a.out == Returned(None)
            && a.value != FavoriteVenues(a.s.committed.favorites, a.s.committed.venues, f.userId)
  {
    ReaderRepeatsRows(s, FavoritesOfUser(f.userId), m);
  }

  /** As written for MenuItemsGet: the same oracle returns every item twice. */
  lemma MenuItemsRepeatRows(s: Server, venueId: int, m: string)
    requires var items := VenueMenuItems(s.committed.menus, s.committed.items, venueId);
             s.faults == [Pass, Pass] + Passes(|items| + 1) + [Fail(m)]
    ensures var items := VenueMenuItems(s.committed.menus, s.committed.items, venueId);
            var r := Transact(s, ReadItems(venueId, false));
            && r.out == Returned(None) && r.s.committed == s.committed
            && r.cap.items == items + items
  {
    var items := VenueMenuItems(s.committed.menus, s.committed.items, venueId);
    var (s1, _) := BeginSpec(s);
    var (s2, res) := QueryItemsSpec(s1, venueId);
    assert s2.faults == Passes(|items| + 1) + [Fail(m)] by {
      assert s.faults[2..] == Passes(|items| + 1) + [Fail(m)];
    }
    ScanRowsPasses(s2, res.value, [], [Fail(m)]);
    var sc := ScanRows(s2, res.value, []);
    var (s3, _) := CommitSpec(sc.s);
    assert s3.faults == [];
    AttemptAtomic(s, ReadItems(venueId, false), Nothing);
    var a := AttemptSpec(s, ReadItems(venueId, false), Nothing);
    assert a.reply == Reply(false, Some(Driver(m)));
    assert a.cap.items == items;
    assert a.s.committed == s.committed && a.s.faults == [];
    ReadItemsClean(SleepSpec(a.s), venueId, false, a.cap, RetryN);
    var r' := RetryLoop(AttemptOf(ReadItems(venueId, false)), SleepSpec(a.s), a.cap, RetryN);
    assert Transact(s, ReadItems(venueId, false)) == r'.(attempts := r'.attempts + 1);
  }

  // ---------------------------------------------------------------------------
  // The readers swallow a failed rows.Next()

  /** As written: rows.Next() fails at the first row; the loop ends, rows.Err()
      is never consulted, the attempt commits, and the reader returns nil with
      none of the rows. */
  lemma ReaderTruncates(s: Server, q: VenuesQuery, m: string)
    requires QueryVenuesOn(s.committed, q) != []
    requires s.faults == [Pass, Pass, Abort(m)]
    ensures var r := Transact(s, ReadVenues(q, false));
            && r.attempts == 1 && r.out == Returned(None)
            && r.s.committed == s.committed && r.cap.venues == []
  {
    var (s1, _) := BeginSpec(s);
    assert s1.staged == s.committed;
    var (s2, res) := QueryVenuesSpec(s1, q);
    assert s2.faults == [Abort(m)];
    var sc := ScanRows(s2, res.value, []);
    assert sc.acc == [] && sc.err.None? && sc.s.faults == [];
    var a := AttemptSpec(s, ReadVenues(q, false), Nothing);
    assert a.reply == Reply(false, None) && a.cap.venues == [];
  }

  /** The same defect in UserFavoritesList: a user with favorites gets none, and nil. */
  lemma UserFavoritesListTruncates(s: Server, f: UserFavorite, m: string)
    requires FavoriteVenues(s.committed.favorites, s.committed.venues, f.userId) != []
    requires s.faults == [Pass, Pass, Abort(m)]
    ensures var a := UserFavoritesListSpec(s, f);
            && a.out == Returned(None) && a.value == []
            && a.value != FavoriteVenues(a.s.committed.favorites, a.s.committed.venues, f.userId)
  {
    ReaderTruncates(s, FavoritesOfUser(f.userId), m);
  }

  /** As written for MenuItemsGet: the same oracle returns no items, and nil. */
  lemma MenuItemsTruncate(s: Server, venueId: int, m: string)
    requires VenueMenuItems(s.committed.menus, s.committed.items, venueId) != []
    requires s.faults == [Pass, Pass, Abort(m)]
    ensures var r := Transact(s, ReadItems(venueId, false));
            && r.attempts == 1 && r.out == Returned(None)
            && r.s.committed == s.committed && r.cap.items == []
  {
    var (s1, _) := BeginSpec(s);
    assert s1.staged == s.committed;
    var (s2, res) := QueryItemsSpec(s1, venueId);
    assert s2.faults == [Abort(m)];
    var sc := ScanRows(s2, res.value, []);
    assert sc.acc == [] && sc.err.None? && sc.s.faults == [];
    var a := AttemptSpec(s, ReadItems(venueId, false), Nothing);
    assert a.reply == Reply(false, None) && a.cap.items == [];
  }

  /** Corrected, on the same oracle: rows.Err() reports the failed rows.Next(),
      the attempt rolls back, and the retry returns every row once. */
  lemma FixedReaderRetriesAbort(s: Server, q: VenuesQuery, m: string)
    requires QueryVenuesOn(s.committed, q) != []
    requires s.faults == [Pass, Pass, Abort(m)]
    ensures var r := Transact(s, ReadVenues(q, true));
            && r.attempts == 2 && r.out == Returned(None)
            && r.s.committed == s.committed && r.cap.venues == QueryVenuesOn(s.committed, q)
  {
    var (s1, _) := BeginSpec(s);
    assert s1.staged == s.committed;
    var (s2, res) := QueryVenuesSpec(s1, q);
    assert s2.faults == [Abort(m)];
    var sc := ScanRows(s2, res.value, []);
    assert sc.broken == Some(Driver(m)) && sc.err.None? && sc.s.faults == [];
    var a := AttemptSpec(s, ReadVenues(q, true), Nothing);
    assert a.reply == Reply(false, Some(Driver(m)));
    assert a.s.committed == s.committed && a.s.faults == [];
    ReadVenuesClean(SleepSpec(a.s), q, true, a.cap, RetryN);
    var r' := RetryLoop(AttemptOf(ReadVenues(q, true)), SleepSpec(a.s), a.cap, RetryN);
    assert Transact(s, ReadVenues(q, true)) == r'.(attempts := r'.attempts + 1);
  }

  /** Corrected: an attempt that succeeds returns the rows of the tables it committed. */
  lemma FixedVenuesAttempt(s: Server, q: VenuesQuery, c: Captured)
    ensures var a := AttemptSpec(s, ReadVenues(q, true), c);
            a.reply == Reply(false, None) ==> a.cap.venues == QueryVenuesOn(a.s.committed, q)
  {
    var (s1, berr) := BeginSpec(s);
    if berr.None? {
      var (s2, res) := QueryVenuesSpec(s1, q);
      if res.Fetched? {
        ScanRowsKeepsTables(s2, res.value, []);
      }
    }
  }

  /** Corrected: whatever the faults, a reader that empties its slice per attempt,
      checks rows.Err() and returns nil returns exactly the joined rows of the
      committed tables. */
  lemma {:induction false} FixedVenuesReader(s: Server, q: VenuesQuery, c: Captured, retry: nat)
    requires retry >= 1
    ensures var r := RetryLoop(AttemptOf(ReadVenues(q, true)), s, c, retry);
            r.out == Returned(None) ==> r.cap.venues == QueryVenuesOn(r.s.committed, q)
    decreases retry
  {
    FixedVenuesAttempt(s, q, c);
    var a := AttemptSpec(s, ReadVenues(q, true), c);
    if !a.reply.Panic? && !a.reply.bypass && a.reply.err.Some? && retry > 1 {
      FixedVenuesReader(SleepSpec(a.s), q, a.cap, retry - 1);
    }
  }

  lemma FixedItemsAttempt(s: Server, venueId: int, c: Captured)
    ensures var a := AttemptSpec(s, ReadItems(venueId, true), c);
            a.reply == Reply(false, None) ==>
              a.cap.items == VenueMenuItems(a.s.committed.menus, a.s.committed.items, venueId)
  {
    var (s1, berr) := BeginSpec(s);
    if berr.None? {
      var (s2, res) := QueryItemsSpec(s1, venueId);
      if res.Fetched? {
        ScanRowsKeepsTables(s2, res.value, []);
      }
    }
  }

  lemma {:induction false} FixedItemsReader(s: Server, venueId: int, c: Captured, retry: nat)
    requires retry >= 1
    ensures var r := RetryLoop(AttemptOf(ReadItems(venueId, true)), s, c, retry);
            r.out == Returned(None) ==>
              r.cap.items == VenueMenuItems(r.s.committed.menus, r.s.committed.items, venueId)
    decreases retry
  {
    FixedItemsAttempt(s, venueId, c);
    var a := AttemptSpec(s, ReadItems(venueId, true), c);
    if !a.reply.Panic? && !a.reply.bypass && a.reply.err.Some? && retry > 1 {
      FixedItemsReader(SleepSpec(a.s), venueId, a.cap, retry - 1);
    }
  }

  /** The corrected UserFavoritesList: on nil, exactly the user's favorites. */
  lemma UserFavoritesListFixedIsJoin(s: Server, f: UserFavorite)
    ensures var a := UserFavoritesListFixedSpec(s, f);
            a.out == Returned(None) ==>
              a.value == FavoriteVenues(a.s.committed.favorites, a.s.committed.venues, f.userId)
  {
    FixedVenuesReader(s, FavoritesOfUser(f.userId), Nothing, RetryN + 1);
  }

  /** The corrected VenuesByList: on nil, exactly the venues on the list. */
  lemma VenuesByListFixedIsJoin(s: Server, listId: int)
    ensures var a := VenuesByListFixedSpec(s, listId);
            a.out == Returned(None) ==>
              a.value == ListVenues(a.s.committed.memberships, a.s.committed.venues, listId)
  {
    FixedVenuesReader(s, VenuesInList(listId), Nothing, RetryN + 1);
  }

  /** The corrected MenuItemsGet: on nil, exactly the items of the venue's menus. */
  lemma MenuItemsGetFixedIsJoin(s: Server, m: Menu)
    ensures var a := MenuItemsGetFixedSpec(s, m);
            a.out == Returned(None) ==>
              a.value == VenueMenuItems(a.s.committed.menus, a.s.committed.items, m.venueId)
  {
    FixedItemsReader(s, m.venueId, Nothing, RetryN + 1);
  }
}
