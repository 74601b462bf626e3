/** Package `data`: the Store's operations, each a unit of work run by
    `transaction`, which `retry` repeats on retryable failures.

    Go passes each unit of work as a closure that assigns variables of the
    enclosing operation. Here a unit of work is a `Work` value, run by
    `RunWork`, and the variables the closures assign are the fields of a
    `Captured` record threaded through the attempts, so that what one attempt
    leaves in them is still there on the next, as in the source. */
module Data {
  import opened Wrappers
  import opened Schema
  import opened Errors
  import opened Backend
  import opened Retry

  /** retryN: the retry budget every transaction uses. */
  const RetryN := 3

  const MaxInt64 := 0x7FFF_FFFF_FFFF_FFFF

  // ---------------------------------------------------------------------------
  // Choosing the lookup key (VenueGet, VenueListGet)

  datatype Key = ById(id: int) | ByName(name: string)

  /** The `switch` of VenueGet and VenueListGet: a non-zero id wins, else a
      non-empty name, else there is nothing to look up by. */
  function SelectKey(id: int, name: string): (k: Option<Key>)
    ensures k == Some(ById(id)) <==> id != 0
    ensures k == Some(ByName(name)) <==> id == 0 && name != ""
    ensures k.None? <==> id == 0 && name == ""
  {
    if id != 0 then Some(ById(id))
    else if name != "" then Some(ByName(name))
    else None
  }

  function VenueQueryFor(k: Key): VenueQuery
  {
    match k
    case ById(id) => VenueById(id)
    case ByName(name) => VenueByName(name)
  }

  function ListQueryFor(k: Key): ListQuery
  {
    match k
    case ById(id) => ListById(id)
    case ByName(name) => ListByName(name)
  }

  // ---------------------------------------------------------------------------
  // Units of work

  /** The variables of an operation that its closure assigns. */
  datatype Captured = Captured(id: int, user: User, venue: Venue, list: VenueList,
                               venues: seq<Venue>, items: seq<MenuItem>)

  /** Every operation starts with zero values. */
  const Nothing := Captured(0, ZeroUser, ZeroVenue, ZeroVenueList, [], [])

  /** How an insert's closure treats an Exec error:
      - PanicUnlessDuplicate (CreateUser, CreateVenue, CreateVenueList, CreateMenu, the
        insert of VenueListAdd): a duplicate becomes ErrDuplicateEntry and is bypassed; any
        other error falls through to `res.LastInsertId()` on a nil result, which panics;
      - BypassAny (CreateUserFavorite): every error is bypassed unchanged;
      - BypassClassified (AddToMenu): a duplicate becomes ErrDuplicateEntry, any other error
        is bypassed unchanged;
      - RetryUnlessDuplicate (the corrected create operations): a duplicate becomes
        ErrDuplicateEntry, any other error is returned for retry instead of reaching the nil
        result. */
  datatype InsertPolicy = PanicUnlessDuplicate | BypassAny | BypassClassified | RetryUnlessDuplicate

  /** The reply of an insert whose Exec failed with `e`. */
  function ExecFailure(p: InsertPolicy, e: Error): (r: Reply)
    ensures p != BypassAny && IsDuplicate(e) ==> r == Reply(true, Some(DuplicateEntry))
    ensures p == BypassAny ==> r == Reply(true, Some(e))
    ensures p == BypassClassified && !IsDuplicate(e) ==> r == Reply(true, Some(e))
    ensures p == PanicUnlessDuplicate && !IsDuplicate(e) ==> r == Panic
    ensures p == RetryUnlessDuplicate && !IsDuplicate(e) ==> r == Reply(false, Some(e))
    ensures p != RetryUnlessDuplicate ==> Decisive(r)
  {
    match p
    case BypassAny => Reply(true, Some(e))
    case _ =>
      if IsDuplicate(e) then Reply(true, Some(DuplicateEntry))
      else if p == BypassClassified then Reply(true, Some(e))
      else if p == RetryUnlessDuplicate then Reply(false, Some(e))
      else Panic
  }

  /** The closures of the Store's operations, by shape. */
  datatype Work =
    | Insert(stmt: Stmt, policy: InsertPolicy)
    | Delete(favoriteId: int)
    | LoadUser(userName: string)
    /** `notFound`: the closure turns sql.ErrNoRows into a bypassed ErrNotFound. */
    | LoadVenue(venueQuery: VenueQuery, notFound: bool)
    | LoadList(listQuery: ListQuery)
    /** `fixed`: the corrected variant, which empties the slice at the start of
        each attempt and checks rows.Err() after the loop. */
    | ReadVenues(venuesQuery: VenuesQuery, fixed: bool)
    | ReadItems(venueId: int, fixed: bool)

  /** Only the inserts that fall through to a nil result can panic. */
  predicate MayPanic(w: Work)
  {
    w.Insert? && w.policy == PanicUnlessDuplicate
  }

  /** The state, captured variables and reply after a step. */
  datatype Step = Step(s: Server, cap: Captured, reply: Reply)

  /** After the loop: the rows appended, the error of a failed scan, and the
      error rows.Err() would report after a failed rows.Next(). */
  datatype Scanned<T> = Scanned(s: Server, acc: seq<T>, err: Option<Error>, broken: Option<Error>)

  /** The `for rows.Next()` loop: scan each row and append it; a failed scan
      stops the loop with the rows appended so far, and so does a failed
      rows.Next(), silently. */
  function ScanRows<T>(s: Server, rows: seq<T>, acc: seq<T>): Scanned<T>
    decreases |rows|
  {
    if rows == [] then
      var (s1, e) := LastNextSpec(s);
      Scanned(s1, acc, None, e)
    else
      var (s1, step) := ScanSpec(s);
      match step
      case RowRead => ScanRows(s1, rows[1..], acc + [rows[0]])
      case ScanFailed(e) => Scanned(s1, acc, Some(e), None)
      case NextFailed(e) => Scanned(s1, acc, None, Some(e))
  }

  /** The closure's error after the loop: the failed scan's, or, in the fixed
      variant only, the one rows.Err() reports. */
  function RowsError<T>(sc: Scanned<T>, fixed: bool): Option<Error>
  {
    if fixed && sc.err.None? then sc.broken else sc.err
  }

  /** One run of a closure inside an open transaction. */
  function WorkSpec(s: Server, w: Work, c: Captured): Step
  {
    match w
    case Insert(stmt, p) =>
      var (s1, res) := ExecSpec(s, stmt);
      if res.FetchFailed? then Step(s1, c, ExecFailure(p, res.err))
      else Step(s1, c.(id := res.value), Reply(false, None))
    case Delete(id) =>
      var (s1, res) := ExecSpec(s, DeleteFavorite(id));
      Step(s1, c, Reply(false, if res.FetchFailed? then Some(res.err) else None))
    case LoadUser(name) =>
      var (s1, res) := QueryUserSpec(s, name);
      Step(s1, if res.Fetched? then c.(user := res.value) else c, Reply(false, None))
    case LoadVenue(q, notFound) =>
      var (s1, res) := QueryVenueSpec(s, q);
      if res.Fetched? then Step(s1, c.(venue := res.value), Reply(false, None))
      else if notFound && res.err == NoRows then Step(s1, c, Reply(true, Some(NotFound)))
      else Step(s1, c, Reply(false, Some(res.err)))
    case LoadList(q) =>
      var (s1, res) := QueryListSpec(s, q);
      if res.Fetched? then Step(s1, c.(list := res.value), Reply(false, None))
      else if res.err == NoRows then Step(s1, c, Reply(true, Some(NotFound)))
      else Step(s1, c, Reply(false, Some(res.err)))
    case ReadVenues(q, fixed) =>
      var c0 := if fixed then c.(venues := []) else c;
      var (s1, res) := QueryVenuesSpec(s, q);
      if res.FetchFailed? then Step(s1, c0, Reply(false, Some(res.err)))
      else
        var sc := ScanRows(s1, res.value, c0.venues);
        Step(sc.s, c0.(venues := sc.acc), Reply(false, RowsError(sc, fixed)))
    case ReadItems(venueId, fixed) =>
      var c0 := if fixed then c.(items := []) else c;
      var (s1, res) := QueryItemsSpec(s, venueId);
      if res.FetchFailed? then Step(s1, c0, Reply(false, Some(res.err)))
      else
        var sc := ScanRows(s1, res.value, c0.items);
        Step(sc.s, c0.(items := sc.acc), Reply(false, RowsError(sc, fixed)))
  }

  /** One call of the function `transaction` hands to retry: Begin (a failure
      is retryable), run the closure, roll back if it failed (forwarding its
      bypass flag), else commit and return Commit's error. */
  function AttemptSpec(s: Server, w: Work, c: Captured): Step
  {
    var (s1, berr) := BeginSpec(s);
    if berr.Some? then Step(s1, c, Reply(false, berr))
    else
      var st := WorkSpec(s1, w, c);
      if st.reply.Panic? then st
      else if st.reply.err.Some? then Step(RollbackSpec(st.s), st.cap, st.reply)
      else
        var (s3, cerr) := CommitSpec(st.s);
        Step(s3, st.cap, Reply(st.reply.bypass, cerr))
  }

  /** The whole of a retry run: final state, captured variables, outcome, and number of attempts. */
  datatype Run = Run(s: Server, cap: Captured, out: Outcome, attempts: nat)

  /** The `fn` retry calls: one step from a server state and the captured variables. */
  type AttemptFn = (Server, Captured) -> Step

  /** The function transaction hands to retry for the unit of work `w`. */
  function AttemptOf(w: Work): AttemptFn
  {
    (s, c) => AttemptSpec(s, w, c)
  }

  /** retry's loop with `retry` attempts left. */
  function RetryLoop(fn: AttemptFn, s: Server, c: Captured, retry: nat): Run
    requires retry >= 1
    decreases retry
  {
    var a := fn(s, c);
    if a.reply.Panic? then Run(a.s, a.cap, Panicked, 1)
    else if a.reply.bypass then Run(a.s, a.cap, Returned(a.reply.err), 1)
    else if a.reply.err.Some? then
      if retry - 1 == 0 then Run(a.s, a.cap, Returned(Some(RetriesExceeded(a.reply.err.value))), 1)
      else
        var r := RetryLoop(fn, SleepSpec(a.s), a.cap, retry - 1);
        r.(attempts := r.attempts + 1)
    else Run(a.s, a.cap, Returned(None), 1)
  }

  /** retry(maxRetry, attempt): maxRetry + 1 attempts at most. */
  function RetrySpec(s: Server, w: Work, c: Captured, maxRetry: int): Run
    requires 0 <= maxRetry
  {
    RetryLoop(AttemptOf(w), s, c, maxRetry + 1)
  }

  /** transaction(db, fn) as every operation calls it: zero captured variables, budget retryN. */
  function Transact(s: Server, w: Work): Run
  {
    RetrySpec(s, w, Nothing, RetryN)
  }

  /** Two runs that end alike (the attempt count aside). */
  predicate SameEnd(a: Run, b: Run)
  {
    a.s == b.s && a.cap == b.cap && a.out == b.out
  }

  // ---------------------------------------------------------------------------
  // The operations, as functions of the server state

  /** What an operation leaves behind: server state, returned value, and outcome. */
  datatype Answer<+T> = Answer(s: Server, value: T, out: Outcome)

  function InsertAnswer(s: Server, stmt: Stmt, p: InsertPolicy): Answer<int>
  {
    var r := Transact(s, Insert(stmt, p));
    Answer(r.s, r.cap.id, r.out)
  }

  function CreateUserSpec(s: Server, u: User): Answer<int>
  {
    InsertAnswer(s, InsertUser(u), PanicUnlessDuplicate)
  }

  function CreateUserFavoriteSpec(s: Server, f: UserFavorite): Answer<int>
  {
    InsertAnswer(s, InsertFavorite(f.userId, f.venueId), BypassAny)
  }

  function UserFavoritesListSpec(s: Server, f: UserFavorite): Answer<seq<Venue>>
  {
    var r := Transact(s, ReadVenues(FavoritesOfUser(f.userId), false));
    Answer(r.s, r.cap.venues, r.out)
  }

  function UserFavoritesGetSpec(s: Server, f: UserFavorite): Answer<Venue>
  {
    var r := Transact(s, LoadVenue(FavoriteOf(f.userId, f.venueId), false));
    Answer(r.s, r.cap.venue, r.out)
  }

  function UserFavoritesDeleteSpec(s: Server, id: int): Answer<()>
  {
    var r := Transact(s, Delete(id));
    Answer(r.s, (), r.out)
  }

  function GetUserSpec(s: Server, u: User): Answer<User>
  {
    var r := Transact(s, LoadUser(u.userName));
    Answer(r.s, r.cap.user, r.out)
  }

  function CreateVenueSpec(s: Server, v: Venue): Answer<int>
  {
    InsertAnswer(s, InsertVenue(v), PanicUnlessDuplicate)
  }

  function CreateVenueListSpec(s: Server, l: VenueList): Answer<int>
  {
    InsertAnswer(s, InsertVenueList(l.name), PanicUnlessDuplicate)
  }

  function VenueListGetSpec(s: Server, l: VenueList): Answer<VenueList>
  {
    match SelectKey(l.id, l.name)
    case None => Answer(s, ZeroVenueList, Returned(Some(NoVenueListKey)))
    case Some(k) =>
      var r := Transact(s, LoadList(ListQueryFor(k)));
      Answer(r.s, r.cap.list, r.out)
  }

  function VenueGetSpec(s: Server, v: Venue): Answer<Venue>
  {
    match SelectKey(v.id, v.name)
    case None => Answer(s, ZeroVenue, Returned(Some(NoVenueKey)))
    case Some(k) =>
      var r := Transact(s, LoadVenue(VenueQueryFor(k), true));
      Answer(r.s, r.cap.venue, r.out)
  }

  function VenuesByListSpec(s: Server, listId: int): Answer<seq<Venue>>
  {
    var r := Transact(s, ReadVenues(VenuesInList(listId), false));
    Answer(r.s, r.cap.venues, r.out)
  }

  function MenuItemsGetSpec(s: Server, m: Menu): Answer<seq<MenuItem>>
  {
    var r := Transact(s, ReadItems(m.venueId, false));
    Answer(r.s, r.cap.items, r.out)
  }

  function CreateMenuSpec(s: Server, m: Menu): Answer<int>
  {
    InsertAnswer(s, InsertMenu(m.venueId), PanicUnlessDuplicate)
  }

  function AddToMenuSpec(s: Server, mi: MenuItem): Answer<int>
  {
    InsertAnswer(s, InsertMenuItem(mi), BypassClassified)
  }

  /** VenueListAdd's first lookup: VenueListGet on the list's id and name. */
  function VenueListAddList(s: Server, a: VenueListAdd): Answer<VenueList>
  {
    VenueListGetSpec(s, VenueList(a.venueListId, a.venueListName))
  }

  /** Its second lookup, from the state the first left: VenueGet on the venue's id and name. */
  function VenueListAddVenue(s: Server, a: VenueListAdd): Answer<Venue>
  {
    VenueGetSpec(VenueListAddList(s, a).s, Venue(a.venueId, a.venueName, "", "", "", "", "", "", ""))
  }

  /** VenueListAdd: resolve the list, then the venue, then insert the pair of
      resolved ids; a failed lookup ends the operation with its own message. */
  function VenueListAddSpec(s: Server, a: VenueListAdd): Answer<int>
  {
    var l := VenueListAddList(s, a);
    if l.out != Returned(None) then Answer(l.s, 0, Returned(Some(VenueListNotFound(a.venueListName))))
    else
      var v := VenueListAddVenue(s, a);
      if v.out != Returned(None) then Answer(v.s, 0, Returned(Some(VenueNotFound(a.venueName))))
      else InsertAnswer(v.s, InsertMembership(v.value.id, l.value.id), PanicUnlessDuplicate)
  }

  /** The corrected CreateVenue: an Exec error other than a duplicate is retried. */
  function CreateVenueFixedSpec(s: Server, v: Venue): Answer<int>
  {
    InsertAnswer(s, InsertVenue(v), RetryUnlessDuplicate)
  }

  /** The corrected readers: the slice is emptied at the start of every attempt,
      and rows.Err() is checked after the loop. */
  function UserFavoritesListFixedSpec(s: Server, f: UserFavorite): Answer<seq<Venue>>
  {
    var r := Transact(s, ReadVenues(FavoritesOfUser(f.userId), true));
    Answer(r.s, r.cap.venues, r.out)
  }

  function VenuesByListFixedSpec(s: Server, listId: int): Answer<seq<Venue>>
  {
    var r := Transact(s, ReadVenues(VenuesInList(listId), true));
    Answer(r.s, r.cap.venues, r.out)
  }

  function MenuItemsGetFixedSpec(s: Server, m: Menu): Answer<seq<MenuItem>>
  {
    var r := Transact(s, ReadItems(m.venueId, true));
    Answer(r.s, r.cap.items, r.out)
  }

  // ---------------------------------------------------------------------------
  // Lemmas the operations need to type their results

  /** No attempt of a work that cannot panic ends in a panic. */
  lemma {:induction false} AttemptNeverPanics(s: Server, w: Work, c: Captured)
    requires !MayPanic(w)
    ensures AttemptSpec(s, w, c).reply.Reply?
  {
    var (s1, berr) := BeginSpec(s);
    if berr.None? {
      var st := WorkSpec(s1, w, c);
      assert st.reply.Reply?;
    }
  }

  /** retry only panics when fn does, so a work that cannot panic always returns. */
  lemma {:induction false} RetryNeverPanics(s: Server, w: Work, c: Captured, retry: nat)
    requires retry >= 1 && !MayPanic(w)
    ensures RetryLoop(AttemptOf(w), s, c, retry).out.Returned?
    decreases retry
  {
    AttemptNeverPanics(s, w, c);
    var a := AttemptSpec(s, w, c);
    if !a.reply.bypass && a.reply.err.Some? && retry > 1 {
      RetryNeverPanics(SleepSpec(a.s), w, a.cap, retry - 1);
    }
  }

  // ---------------------------------------------------------------------------
  // The Store

  /** data.Store: the operations over one database handle. */
  class Store {
    const db: Database

    constructor (db: Database)
      ensures this.db == db
    {
      this.db := db;
    }

    /** The `for rows.Next()` loop of the readers. */
    method ScanInto<T>(rows: seq<T>, acc: seq<T>) returns (acc': seq<T>, err: Option<Error>, broken: Option<Error>)
      modifies db
      ensures Scanned(db.State(), acc', err, broken) == ScanRows(old(db.State()), rows, acc)
    {
      acc' := acc;
      var i := 0;
      while i < |rows|
        invariant 0 <= i <= |rows|
        invariant ScanRows(db.State(), rows[i..], acc') == ScanRows(old(db.State()), rows, acc)
      {
        assert rows[i..][1..] == rows[i + 1..];
        var step := db.Scan();
        match step {
          case ScanFailed(e) => return acc', Some(e), None;
          case NextFailed(e) => return acc', None, Some(e);
          case RowRead =>
        }
        acc' := acc' + [rows[i]];
        i := i + 1;
      }
      broken := db.LastNext();
      err := None;
    }

    /** The closure of an insert. */
    method InsertWork(stmt: Stmt, p: InsertPolicy, c: Captured) returns (reply: Reply, cap: Captured)
      modifies db
      ensures Step(db.State(), cap, reply) == WorkSpec(old(db.State()), Insert(stmt, p), c)
    {
      var res := db.Exec(stmt);
      if res.FetchFailed? {
        return ExecFailure(p, res.err), c;
      }
      return Reply(false, None), c.(id := res.value);
    }

    /** The closure of UserFavoritesDelete. */
    method DeleteWork(id: int, c: Captured) returns (reply: Reply, cap: Captured)
      modifies db
      ensures Step(db.State(), cap, reply) == WorkSpec(old(db.State()), Delete(id), c)
    {
      var res := db.Exec(DeleteFavorite(id));
      if res.FetchFailed? {
        return Reply(false, Some(res.err)), c;
      }
      return Reply(false, None), c;
    }

    /** The closure of GetUser: the Scan's error is dropped. */
    method LoadUserWork(name: string, c: Captured) returns (reply: Reply, cap: Captured)
      modifies db
      ensures Step(db.State(), cap, reply) == WorkSpec(old(db.State()), LoadUser(name), c)
    {
      var res := db.QueryUser(name);
      cap := if res.Fetched? then c.(user := res.value) else c;
      reply := Reply(false, None);
    }

    /** The closures of VenueGet (notFound) and UserFavoritesGet. */
    method LoadVenueWork(q: VenueQuery, notFound: bool, c: Captured) returns (reply: Reply, cap: Captured)
      modifies db
      ensures Step(db.State(), cap, reply) == WorkSpec(old(db.State()), LoadVenue(q, notFound), c)
    {
      var res := db.QueryVenue(q);
      if res.Fetched? {
        return Reply(false, None), c.(venue := res.value);
      }
      if notFound && res.err == NoRows {
        return Reply(true, Some(NotFound)), c;
      }
      return Reply(false, Some(res.err)), c;
    }

    /** The closure of VenueListGet. */
    method LoadListWork(q: ListQuery, c: Captured) returns (reply: Reply, cap: Captured)
      modifies db
      ensures Step(db.State(), cap, reply) == WorkSpec(old(db.State()), LoadList(q), c)
    {
      var res := db.QueryList(q);
      if res.Fetched? {
        return Reply(false, None), c.(list := res.value);
      }
      if res.err == NoRows {
        return Reply(true, Some(NotFound)), c;
      }
      return Reply(false, Some(res.err)), c;
    }

    /** The closures of UserFavoritesList and VenuesByList. */
    method ReadVenuesWork(q: VenuesQuery, fixed: bool, c: Captured) returns (reply: Reply, cap: Captured)
      modifies db
      ensures Step(db.State(), cap, reply) == WorkSpec(old(db.State()), ReadVenues(q, fixed), c)
    {
      cap := if fixed then c.(venues := []) else c;
      var res := db.QueryVenues(q);
      if res.FetchFailed? {
        return Reply(false, Some(res.err)), cap;
      }
      var venues, err, broken := ScanInto(res.value, cap.venues);
      cap := cap.(venues := venues);
      reply := Reply(false, if fixed && err.None? then broken else err);
    }

    /** The closure of MenuItemsGet. */
    method ReadItemsWork(venueId: int, fixed: bool, c: Captured) returns (reply: Reply, cap: Captured)
      modifies db
      ensures Step(db.State(), cap, reply) == WorkSpec(old(db.State()), ReadItems(venueId, fixed), c)
    {
      cap := if fixed then c.(items := []) else c;
      var res := db.QueryItems(venueId);
      if res.FetchFailed? {
        return Reply(false, Some(res.err)), cap;
      }
      var items, err, broken := ScanInto(res.value, cap.items);
      cap := cap.(items := items);
      reply := Reply(false, if fixed && err.None? then broken else err);
    }

    method RunWork(w: Work, c: Captured) returns (reply: Reply, cap: Captured)
      modifies db
      ensures Step(db.State(), cap, reply) == WorkSpec(old(db.State()), w, c)
    {
      match w
      case Insert(stmt, p) => reply, cap := InsertWork(stmt, p, c);
      case Delete(id) => reply, cap := DeleteWork(id, c);
      case LoadUser(name) => reply, cap := LoadUserWork(name, c);
      case LoadVenue(q, notFound) => reply, cap := LoadVenueWork(q, notFound, c);
      case LoadList(q) => reply, cap := LoadListWork(q, c);
      case ReadVenues(q, fixed) => reply, cap := ReadVenuesWork(q, fixed, c);
      case ReadItems(venueId, fixed) => reply, cap := ReadItemsWork(venueId, fixed, c);
    }

    /** The function transaction passes to retry. */
    method Attempt(w: Work, c: Captured) returns (reply: Reply, cap: Captured)
      modifies db
      ensures Step(db.State(), cap, reply) == AttemptSpec(old(db.State()), w, c)
    {
      var err := db.Begin();
      if err.Some? {
        return Reply(false, err), c;
      }
      reply, cap := RunWork(w, c);
      if reply.Panic? {
        return;
      }
      if reply.err.Some? {
        db.Rollback();
        return;
      }
      var cerr := db.Commit();
      reply := Reply(reply.bypass, cerr);
    }

    /** retry(maxRetry, fn) with fn the attempt of `w`. */
    method Retry(maxRetry: int, w: Work, c: Captured) returns (out: Outcome, cap: Captured)
      requires 0 <= maxRetry < MaxInt64
      modifies db
      ensures var r := RetrySpec(old(db.State()), w, c, maxRetry);
              db.State() == r.s && cap == r.cap && out == r.out
    {
      var retry := maxRetry + 1;
      cap := c;
      while true
        invariant 1 <= retry <= maxRetry + 1
        invariant SameEnd(RetryLoop(AttemptOf(w), db.State(), cap, retry), RetryLoop(AttemptOf(w), old(db.State()), c, maxRetry + 1))
        decreases retry
      {
        var reply;
        reply, cap := Attempt(w, cap);
        if reply.Panic? {
          return Panicked, cap;
        }
        if reply.bypass {
          return Returned(reply.err), cap;
        }
        retry := retry - 1;
        if reply.err.Some? {
          if retry == 0 && maxRetry >= 0 {
            return Returned(Some(RetriesExceeded(reply.err.value))), cap;
          }
          db.Sleep();
          continue;
        }
        return Returned(None), cap;
      }
    }

    /** transaction(s.db, fn). */
    method Transaction(w: Work) returns (out: Outcome, cap: Captured)
      modifies db
      ensures var r := Transact(old(db.State()), w); db.State() == r.s && cap == r.cap && out == r.out
    {
      out, cap := Retry(RetryN, w, Nothing);
    }

    method InsertRow(stmt: Stmt, p: InsertPolicy) returns (id: int, out: Outcome)
      modifies db
      ensures Answer(db.State(), id, out) == InsertAnswer(old(db.State()), stmt, p)
    {
      var cap;
      out, cap := Transaction(Work.Insert(stmt, p));
      id := cap.id;
    }

    method CreateUser(u: User) returns (id: int, out: Outcome)
      modifies db
      ensures Answer(db.State(), id, out) == CreateUserSpec(old(db.State()), u)
    {
      id, out := InsertRow(InsertUser(u), PanicUnlessDuplicate);
    }

    method CreateUserFavorite(f: UserFavorite) returns (id: int, err: Option<Error>)
      modifies db
      ensures Answer(db.State(), id, Returned(err)) == CreateUserFavoriteSpec(old(db.State()), f)
    {
      RetryNeverPanics(db.State(), Work.Insert(InsertFavorite(f.userId, f.venueId), BypassAny), Nothing, RetryN + 1);
      var out;
      id, out := InsertRow(InsertFavorite(f.userId, f.venueId), BypassAny);
      err := out.err;
    }

    method UserFavoritesList(f: UserFavorite) returns (venues: seq<Venue>, err: Option<Error>)
      modifies db
      ensures Answer(db.State(), venues, Returned(err)) == UserFavoritesListSpec(old(db.State()), f)
    {
      var w := ReadVenues(FavoritesOfUser(f.userId), false);
      RetryNeverPanics(db.State(), w, Nothing, RetryN + 1);
      var out, cap := Transaction(w);
      venues, err := cap.venues, out.err;
    }

    method UserFavoritesGet(f: UserFavorite) returns (venue: Venue, err: Option<Error>)
      modifies db
      ensures Answer(db.State(), venue, Returned(err)) == UserFavoritesGetSpec(old(db.State()), f)
    {
      var w := LoadVenue(FavoriteOf(f.userId, f.venueId), false);
      RetryNeverPanics(db.State(), w, Nothing, RetryN + 1);
      var out, cap := Transaction(w);
      venue, err := cap.venue, out.err;
    }

    method UserFavoritesDelete(id: int) returns (err: Option<Error>)
      modifies db
      ensures Answer(db.State(), (), Returned(err)) == UserFavoritesDeleteSpec(old(db.State()), id)
    {
      RetryNeverPanics(db.State(), Delete(id), Nothing, RetryN + 1);
      var out, cap := Transaction(Delete(id));
      err := out.err;
    }

    method GetUser(u: User) returns (user: User, err: Option<Error>)
      modifies db
      ensures Answer(db.State(), user, Returned(err)) == GetUserSpec(old(db.State()), u)
    {
      RetryNeverPanics(db.State(), LoadUser(u.userName), Nothing, RetryN + 1);
      var out, cap := Transaction(LoadUser(u.userName));
      user, err := cap.user, out.err;
    }

    method CreateVenue(v: Venue) returns (id: int, out: Outcome)
      modifies db
      ensures Answer(db.State(), id, out) == CreateVenueSpec(old(db.State()), v)
    {
      id, out := InsertRow(InsertVenue(v), PanicUnlessDuplicate);
    }

    method CreateVenueList(l: VenueList) returns (id: int, out: Outcome)
      modifies db
      ensures Answer(db.State(), id, out) == CreateVenueListSpec(old(db.State()), l)
    {
      id, out := InsertRow(InsertVenueList(l.name), PanicUnlessDuplicate);
    }

    method VenueListGet(l: VenueList) returns (list: VenueList, err: Option<Error>)
      modifies db
      ensures Answer(db.State(), list, Returned(err)) == VenueListGetSpec(old(db.State()), l)
    {
      var key := SelectKey(l.id, l.name);
      if key.None? {
        return ZeroVenueList, Some(NoVenueListKey);
      }
      var w := LoadList(ListQueryFor(key.value));
      RetryNeverPanics(db.State(), w, Nothing, RetryN + 1);
      var out, cap := Transaction(w);
      list, err := cap.list, out.err;
    }

    method VenueGet(v: Venue) returns (venue: Venue, err: Option<Error>)
      modifies db
      ensures Answer(db.State(), venue, Returned(err)) == VenueGetSpec(old(db.State()), v)
    {
      var key := SelectKey(v.id, v.name);
      if key.None? {
        return ZeroVenue, Some(NoVenueKey);
      }
      var w := LoadVenue(VenueQueryFor(key.value), true);
      RetryNeverPanics(db.State(), w, Nothing, RetryN + 1);
      var out, cap := Transaction(w);
      venue, err := cap.venue, out.err;
    }

    method VenuesByList(listId: int) returns (venues: seq<Venue>, err: Option<Error>)
      modifies db
      ensures Answer(db.State(), venues, Returned(err)) == VenuesByListSpec(old(db.State()), listId)
    {
      var w := ReadVenues(VenuesInList(listId), false);
      RetryNeverPanics(db.State(), w, Nothing, RetryN + 1);
      var out, cap := Transaction(w);
      venues, err := cap.venues, out.err;
    }

    method MenuItemsGet(m: Menu) returns (items: seq<MenuItem>, err: Option<Error>)
      modifies db
      ensures Answer(db.State(), items, Returned(err)) == MenuItemsGetSpec(old(db.State()), m)
    {
      var w := ReadItems(m.venueId, false);
      RetryNeverPanics(db.State(), w, Nothing, RetryN + 1);
      var out, cap := Transaction(w);
      items, err := cap.items, out.err;
    }

    method CreateMenu(m: Menu) returns (id: int, out: Outcome)
      modifies db
      ensures Answer(db.State(), id, out) == CreateMenuSpec(old(db.State()), m)
    {
      id, out := InsertRow(InsertMenu(m.venueId), PanicUnlessDuplicate);
    }

    method AddToMenu(mi: MenuItem) returns (id: int, err: Option<Error>)
      modifies db
      ensures Answer(db.State(), id, Returned(err)) == AddToMenuSpec(old(db.State()), mi)
    {
      RetryNeverPanics(db.State(), Work.Insert(InsertMenuItem(mi), BypassClassified), Nothing, RetryN + 1);
      var out;
      id, out := InsertRow(InsertMenuItem(mi), BypassClassified);
      err := out.err;
    }

    method VenueListAdd(a: VenueListAdd) returns (id: int, out: Outcome)
      modifies db
      ensures Answer(db.State(), id, out) == VenueListAddSpec(old(db.State()), a)
    {
      var vl, err := VenueListGet(VenueList(a.venueListId, a.venueListName));
      if err.Some? {
        return 0, Returned(Some(VenueListNotFound(a.venueListName)));
      }
      var v, err2 := VenueGet(Venue(a.venueId, a.venueName, "", "", "", "", "", "", ""));
      if err2.Some? {
        return 0, Returned(Some(VenueNotFound(a.venueName)));
      }
      id, out := InsertRow(InsertMembership(v.id, vl.id), PanicUnlessDuplicate);
    }

    method CreateVenueFixed(v: Venue) returns (id: int, err: Option<Error>)
      modifies db
      ensures Answer(db.State(), id, Returned(err)) == CreateVenueFixedSpec(old(db.State()), v)
    {
      RetryNeverPanics(db.State(), Work.Insert(InsertVenue(v), RetryUnlessDuplicate), Nothing, RetryN + 1);
      var out;
      id, out := InsertRow(InsertVenue(v), RetryUnlessDuplicate);
      err := out.err;
    }

    method UserFavoritesListFixed(f: UserFavorite) returns (venues: seq<Venue>, err: Option<Error>)
      modifies db
      ensures Answer(db.State(), venues, Returned(err)) == UserFavoritesListFixedSpec(old(db.State()), f)
    {
      var w := ReadVenues(FavoritesOfUser(f.userId), true);
      RetryNeverPanics(db.State(), w, Nothing, RetryN + 1);
      var out, cap := Transaction(w);
      venues, err := cap.venues, out.err;
    }

    method VenuesByListFixed(listId: int) returns (venues: seq<Venue>, err: Option<Error>)
      modifies db
      ensures Answer(db.State(), venues, Returned(err)) == VenuesByListFixedSpec(old(db.State()), listId)
    {
      var w := ReadVenues(VenuesInList(listId), true);
      RetryNeverPanics(db.State(), w, Nothing, RetryN + 1);
      var out, cap := Transaction(w);
      venues, err := cap.venues, out.err;
    }

    method MenuItemsGetFixed(m: Menu) returns (items: seq<MenuItem>, err: Option<Error>)
      modifies db
      ensures Answer(db.State(), items, Returned(err)) == MenuItemsGetFixedSpec(old(db.State()), m)
    {
      var w := ReadItems(m.venueId, true);
      RetryNeverPanics(db.State(), w, Nothing, RetryN + 1);
      var out, cap := Transaction(w);
      items, err := cap.items, out.err;
    }
  }
}
