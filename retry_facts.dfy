/** What `transaction` and `retry` do for any unit of work: the run keeps the
    promise of `Retry.Promised` over the replies the attempts give, every
    attempt opens exactly one transaction and is followed by one sleep unless
    it is the last, and nothing is committed unless the run returns nil. */
module RetryFacts {
  import opened Wrappers
  import opened Errors
  import opened Backend
  import opened Retry
  import opened Data

  // ---------------------------------------------------------------------------
  // The abstract promise

  /** The replies of `k` calls of fn in a row, each after the previous one and a sleep. */
  ghost function Replies(fn: AttemptFn, s: Server, c: Captured, k: nat): (rs: seq<Reply>)
    ensures |rs| == k
    decreases k
  {
    if k == 0 then []
    else
      var a := fn(s, c);
      [a.reply] + Replies(fn, SleepSpec(a.s), a.cap, k - 1)
  }

  /** A decisive first reply ends retry at once, settled. */
  lemma FirstDecisive(fn: AttemptFn, s: Server, c: Captured, retry: nat)
    requires retry >= 1 && Decisive(fn(s, c).reply)
    ensures RetryLoop(fn, s, c, retry) == Run(fn(s, c).s, fn(s, c).cap, Settle(fn(s, c).reply), 1)
  {
  }

  /** retry's loop does what `Promised` says retry does over any sequence of
      replies: it stops at the first decisive reply of fn and settles it, and
      after `retry` retryable failures returns the last error wrapped. */
  lemma {:induction false} RetryKeepsPromise(fn: AttemptFn, s: Server, c: Captured, retry: nat)
    requires retry >= 1
    ensures var r := RetryLoop(fn, s, c, retry);
            Promised(retry, Replies(fn, s, c, retry), r.attempts, r.out)
    decreases retry
  {
    var a := fn(s, c);
    var rs := Replies(fn, s, c, retry);
    assert rs[0] == a.reply;
    if !Decisive(a.reply) && retry > 1 {
      var s' := SleepSpec(a.s);
      RetryKeepsPromise(fn, s', a.cap, retry - 1);
      var rs' := Replies(fn, s', a.cap, retry - 1);
      assert rs[1..] == rs';
      var r' := RetryLoop(fn, s', a.cap, retry - 1);
      forall i | 0 <= i < r'.attempts
        ensures !Decisive(rs[i])
      {
        if i > 0 {
          assert rs[i] == rs'[i - 1];
        }
      }
      assert rs[r'.attempts] == rs'[r'.attempts - 1];
    }
  }

  // ---------------------------------------------------------------------------
  // Counting the calls in the log

  function Count(log: seq<Call>, call: Call): nat
    decreases |log|
  {
    if log == [] then 0
    else Count(log[..|log| - 1], call) + (if log[|log| - 1] == call then 1 else 0)
  }

  lemma CountSnoc(log: seq<Call>, x: Call, call: Call)
    ensures Count(log + [x], call) == Count(log, call) + (if x == call then 1 else 0)
  {
    assert (log + [x])[..|log|] == log;
  }

  /** `s2` has `begins` more Begin calls and `sleeps` more sleeps in its log than `s`. */
  ghost predicate Counted(s: Server, s2: Server, begins: nat, sleeps: nat)
  {
    && Count(s2.log, BeginCall) == Count(s.log, BeginCall) + begins
    && Count(s2.log, SleepCall) == Count(s.log, SleepCall) + sleeps
  }

  lemma ConsumeCounted(s: Server, call: Call)
    ensures Counted(s, Consume(s, call).1, if call == BeginCall then 1 else 0,
                                          if call == SleepCall then 1 else 0)
  {
    CountSnoc(s.log, call, BeginCall);
    CountSnoc(s.log, call, SleepCall);
  }

  lemma {:induction false} ScanRowsCounted<T>(s: Server, rows: seq<T>, acc: seq<T>)
    ensures Counted(s, ScanRows(s, rows, acc).s, 0, 0)
    decreases |rows|
  {
    ConsumeCounted(s, ScanCall);
    if rows != [] {
      var (s1, step) := ScanSpec(s);
      if step.RowRead? {
        ScanRowsCounted(s1, rows[1..], acc + [rows[0]]);
      }
    }
  }

  /** A statement neither opens a transaction nor sleeps. */
  lemma ExecCounted(s: Server, stmt: Stmt)
    ensures Counted(s, ExecSpec(s, stmt).0, 0, 0)
  {
    ConsumeCounted(s, ExecCall(stmt));
    assert ExecSpec(s, stmt).0.log == Consume(s, ExecCall(stmt)).1.log;
  }

  /** A unit of work neither opens a transaction nor sleeps. */
  lemma WorkCounted(s: Server, w: Work, c: Captured)
    ensures Counted(s, WorkSpec(s, w, c).s, 0, 0)
  {
    match w
    case Insert(stmt, _) =>
      ExecCounted(s, stmt);
    case Delete(id) =>
      ExecCounted(s, DeleteFavorite(id));
    case LoadUser(name) =>
      assert Counted(s, QueryUserSpec(s, name).0, 0, 0) by { ConsumeCounted(s, QueryUserCall(name)); }
      assert WorkSpec(s, w, c).s == QueryUserSpec(s, name).0;
    case LoadVenue(q, _) =>
      assert Counted(s, QueryVenueSpec(s, q).0, 0, 0) by { ConsumeCounted(s, QueryVenueCall(q)); }
      assert WorkSpec(s, w, c).s == QueryVenueSpec(s, q).0;
    case LoadList(q) =>
      assert Counted(s, QueryListSpec(s, q).0, 0, 0) by { ConsumeCounted(s, QueryListCall(q)); }
      assert WorkSpec(s, w, c).s == QueryListSpec(s, q).0;
    case ReadVenues(q, fixed) =>
      ReadVenuesCounted(s, q, fixed, c);
    case ReadItems(venueId, fixed) =>
      ReadItemsCounted(s, venueId, fixed, c);
  }

  lemma ReadVenuesCounted(s: Server, q: VenuesQuery, fixed: bool, c: Captured)
    ensures Counted(s, WorkSpec(s, ReadVenues(q, fixed), c).s, 0, 0)
  {
    var c0 := if fixed then c.(venues := []) else c;
    var (s1, res) := QueryVenuesSpec(s, q);
    assert Counted(s, s1, 0, 0) by { ConsumeCounted(s, QueryVenuesCall(q)); }
    if res.Fetched? {
      assert Counted(s1, ScanRows(s1, res.value, c0.venues).s, 0, 0) by {
        ScanRowsCounted(s1, res.value, c0.venues);
      }
      assert WorkSpec(s, ReadVenues(q, fixed), c).s == ScanRows(s1, res.value, c0.venues).s;
    } else {
      assert WorkSpec(s, ReadVenues(q, fixed), c).s == s1;
    }
  }

  lemma ReadItemsCounted(s: Server, venueId: int, fixed: bool, c: Captured)
    ensures Counted(s, WorkSpec(s, ReadItems(venueId, fixed), c).s, 0, 0)
  {
    var c0 := if fixed then c.(items := []) else c;
    var (s1, res) := QueryItemsSpec(s, venueId);
    assert Counted(s, s1, 0, 0) by { ConsumeCounted(s, QueryItemsCall(venueId)); }
    if res.Fetched? {
      assert Counted(s1, ScanRows(s1, res.value, c0.items).s, 0, 0) by {
        ScanRowsCounted(s1, res.value, c0.items);
      }
      assert WorkSpec(s, ReadItems(venueId, fixed), c).s == ScanRows(s1, res.value, c0.items).s;
    } else {
      assert WorkSpec(s, ReadItems(venueId, fixed), c).s == s1;
    }
  }

  /** Each attempt opens exactly one transaction and does not sleep. */
  lemma AttemptCounted(s: Server, w: Work, c: Captured)
    ensures Counted(s, AttemptSpec(s, w, c).s, 1, 0)
  {
    var (s1, berr) := BeginSpec(s);
    assert Counted(s, s1, 1, 0) by {
      ConsumeCounted(s, BeginCall);
    }
    if berr.Some? {
      assert AttemptSpec(s, w, c).s == s1;
    } else {
      var st := WorkSpec(s1, w, c);
      assert Counted(s, st.s, 1, 0) by {
        WorkCounted(s1, w, c);
      }
      if st.reply.Panic? {
        assert AttemptSpec(s, w, c).s == st.s;
      } else if st.reply.err.Some? {
        assert Counted(s, RollbackSpec(st.s), 1, 0) by {
          CountSnoc(st.s.log, RollbackCall, BeginCall);
          CountSnoc(st.s.log, RollbackCall, SleepCall);
        }
        assert AttemptSpec(s, w, c).s == RollbackSpec(st.s);
      } else {
        assert Counted(s, CommitSpec(st.s).0, 1, 0) by {
          ConsumeCounted(st.s, CommitCall);
        }
        assert AttemptSpec(s, w, c).s == CommitSpec(st.s).0;
      }
    }
  }

  /** Every call of fn opens exactly one transaction and does not sleep. */
  ghost predicate OneBeginEach(fn: AttemptFn)
  {
    forall s, c :: Counted(s, fn(s, c).s, 1, 0)
  }

  lemma AttemptOneBegin(w: Work)
    ensures OneBeginEach(AttemptOf(w))
  {
    forall s, c
      ensures Counted(s, AttemptOf(w)(s, c).s, 1, 0)
    {
      AttemptCounted(s, w, c);
    }
  }

  /** fn is called (a transaction begun) once per attempt, and retry sleeps
      between attempts, never after the last. */
  lemma {:induction false} RetryCounted(fn: AttemptFn, s: Server, c: Captured, retry: nat)
    requires retry >= 1 && OneBeginEach(fn)
    ensures var r := RetryLoop(fn, s, c, retry);
            1 <= r.attempts <= retry && Counted(s, r.s, r.attempts, r.attempts - 1)
    decreases retry
  {
    var a := fn(s, c);
    assert Counted(s, a.s, 1, 0);
    if !a.reply.Panic? && !a.reply.bypass && a.reply.err.Some? && retry > 1 {
      CountSnoc(a.s.log, SleepCall, BeginCall);
      CountSnoc(a.s.log, SleepCall, SleepCall);
      RetryCounted(fn, SleepSpec(a.s), a.cap, retry - 1);
    }
  }

  // ---------------------------------------------------------------------------
  // Atomicity

  lemma {:induction false} ScanRowsKeepsTables<T>(s: Server, rows: seq<T>, acc: seq<T>)
    ensures var sc := ScanRows(s, rows, acc);
            sc.s.committed == s.committed && sc.s.staged == s.staged && sc.s.lastIds == s.lastIds
    ensures var sc := ScanRows(s, rows, acc); acc <= sc.acc <= acc + rows
    ensures var sc := ScanRows(s, rows, acc); sc.err.None? && sc.broken.None? ==> sc.acc == acc + rows
    decreases |rows|
  {
    if rows != [] {
      var (s1, step) := ScanSpec(s);
      if step.RowRead? {
        ScanRowsKeepsTables(s1, rows[1..], acc + [rows[0]]);
        assert acc + [rows[0]] + rows[1..] == acc + rows;
      }
    }
  }

  /** A unit of work only touches the transaction's staged tables. */
  lemma WorkKeepsCommitted(s: Server, w: Work, c: Captured)
    ensures WorkSpec(s, w, c).s.committed == s.committed
  {
    match w
    case ReadVenues(q, fixed) =>
      var c0 := if fixed then c.(venues := []) else c;
      var (s1, res) := QueryVenuesSpec(s, q);
      if res.Fetched? {
        ScanRowsKeepsTables(s1, res.value, c0.venues);
      }
    case ReadItems(venueId, fixed) =>
      var c0 := if fixed then c.(items := []) else c;
      var (s1, res) := QueryItemsSpec(s, venueId);
      if res.Fetched? {
        ScanRowsKeepsTables(s1, res.value, c0.items);
      }
    case _ =>
  }

  /** An attempt commits exactly when it succeeds, and then commits what its
      work left in the transaction; a failed or panicking attempt leaves the
      committed tables as they were. */
  lemma AttemptAtomic(s: Server, w: Work, c: Captured)
    ensures var a := AttemptSpec(s, w, c);
            a.reply.Reply? && a.reply.err.None? ==>
              a.s.committed == WorkSpec(BeginSpec(s).0, w, c).s.staged
    ensures var a := AttemptSpec(s, w, c);
            !(a.reply.Reply? && a.reply.err.None?) ==> a.s.committed == s.committed
  {
    var (s1, berr) := BeginSpec(s);
    if berr.None? {
      WorkKeepsCommitted(s1, w, c);
    }
  }

  /** A call of fn that does not succeed leaves the committed tables as they were. */
  ghost predicate CommitsOnSuccessOnly(fn: AttemptFn)
  {
    forall s, c :: !(fn(s, c).reply.Reply? && fn(s, c).reply.err.None?) ==> fn(s, c).s.committed == s.committed
  }

  lemma AttemptCommitsOnSuccessOnly(w: Work)
    ensures CommitsOnSuccessOnly(AttemptOf(w))
  {
    forall s, c
      ensures !(AttemptOf(w)(s, c).reply.Reply? && AttemptOf(w)(s, c).reply.err.None?) ==>
                AttemptOf(w)(s, c).s.committed == s.committed
    {
      AttemptAtomic(s, w, c);
    }
  }

  /** A run that does not return nil commits nothing. */
  lemma {:induction false} RunAtomic(fn: AttemptFn, s: Server, c: Captured, retry: nat)
    requires retry >= 1 && CommitsOnSuccessOnly(fn)
    ensures var r := RetryLoop(fn, s, c, retry);
            r.out != Returned(None) ==> r.s.committed == s.committed
    decreases retry
  {
    var a := fn(s, c);
    if !a.reply.Panic? && !a.reply.bypass && a.reply.err.Some? && retry > 1 {
      RunAtomic(fn, SleepSpec(a.s), a.cap, retry - 1);
    }
  }

  // ---------------------------------------------------------------------------
  // Runs that only read

  /** From `s` to `s2` nothing was committed, the log only grew, and every call
      added to it satisfies `ok`. */
  ghost predicate ReadOnly(s: Server, s2: Server, ok: Call -> bool)
  {
    && s2.committed == s.committed
    && |s.log| <= |s2.log| && s2.log[..|s.log|] == s.log
    && forall i :: |s.log| <= i < |s2.log| ==> ok(s2.log[i])
  }

  /** `s2` adds `calls` to the log of `s` and commits nothing. */
  lemma ReadOnlyByCalls(s: Server, s2: Server, calls: seq<Call>, ok: Call -> bool)
    requires s2.committed == s.committed && s2.log == s.log + calls
    requires forall i :: 0 <= i < |calls| ==> ok(calls[i])
    ensures ReadOnly(s, s2, ok)
  {
    assert s2.log[..|s.log|] == s.log;
    forall i | |s.log| <= i < |s2.log|
      ensures ok(s2.log[i])
    {
      assert s2.log[i] == calls[i - |s.log|];
    }
  }

  lemma ReadOnlyTrans(s1: Server, s2: Server, s3: Server, ok: Call -> bool)
    requires ReadOnly(s1, s2, ok) && ReadOnly(s2, s3, ok)
    ensures ReadOnly(s1, s3, ok)
  {
    assert s3.log[..|s1.log|] == s3.log[..|s2.log|][..|s1.log|];
    forall i | |s1.log| <= i < |s3.log|
      ensures ok(s3.log[i])
    {
      if i < |s2.log| {
        assert s3.log[i] == s3.log[..|s2.log|][i];
      }
    }
  }

  lemma ReadOnlyWeaken(s: Server, s2: Server, ok: Call -> bool, ok2: Call -> bool)
    requires ReadOnly(s, s2, ok) && forall call :: ok(call) ==> ok2(call)
    ensures ReadOnly(s, s2, ok2)
  {
  }

  /** Every call of fn commits nothing and makes only calls in `ok`. */
  ghost predicate OnlyReads(fn: AttemptFn, ok: Call -> bool)
  {
    forall s, c :: ReadOnly(s, fn(s, c).s, ok)
  }

  /** A run of such an fn, sleeps included, commits nothing and makes only calls in `ok`. */
  lemma {:induction false} RunReadOnly(fn: AttemptFn, s: Server, c: Captured, retry: nat, ok: Call -> bool)
    requires retry >= 1 && OnlyReads(fn, ok) && ok(SleepCall)
    ensures ReadOnly(s, RetryLoop(fn, s, c, retry).s, ok)
    decreases retry
  {
    var a := fn(s, c);
    assert ReadOnly(s, a.s, ok);
    if !a.reply.Panic? && !a.reply.bypass && a.reply.err.Some? && retry > 1 {
      var s1 := SleepSpec(a.s);
      assert ReadOnly(a.s, s1, ok);
      RunReadOnly(fn, s1, a.cap, retry - 1, ok);
      ReadOnlyTrans(a.s, s1, RetryLoop(fn, s1, a.cap, retry - 1).s, ok);
      ReadOnlyTrans(s, a.s, RetryLoop(fn, s1, a.cap, retry - 1).s, ok);
    }
  }

  /** Every call of fn that succeeds has captured what `found` asks of the
      committed tables it started from. */
  ghost predicate FoundOnSuccess(fn: AttemptFn, found: (Tables, Captured) -> bool)
  {
    forall s, c :: fn(s, c).reply.Reply? && fn(s, c).reply.err.None? ==> found(s.committed, fn(s, c).cap)
  }

  /** A run of such an fn that only reads and returns nil has captured what
      `found` asks of the committed tables it started from. */
  lemma {:induction false} RunFound(fn: AttemptFn, s: Server, c: Captured, retry: nat,
                                    found: (Tables, Captured) -> bool, ok: Call -> bool)
    requires retry >= 1 && FoundOnSuccess(fn, found) && OnlyReads(fn, ok) && ok(SleepCall)
    ensures var r := RetryLoop(fn, s, c, retry);
            r.out == Returned(None) ==> found(s.committed, r.cap)
    decreases retry
  {
    var a := fn(s, c);
    assert ReadOnly(s, a.s, ok);
    if !a.reply.Panic? && !a.reply.bypass && a.reply.err.Some? && retry > 1 {
      RunFound(fn, SleepSpec(a.s), a.cap, retry - 1, found, ok);
    }
  }

  // ---------------------------------------------------------------------------
  // Runs whose transactions fail to open

  /** The calls a failed Begin and the following sleep leave in the log, `n` times. */
  function Pauses(n: nat): seq<Call>
  {
    if n == 0 then [] else [BeginCall, SleepCall] + Pauses(n - 1)
  }

  /** The state after `n` failed Begins, each followed by a sleep. */
  function AfterPauses(s: Server, n: nat): Server
    requires n <= |s.faults|
  {
    s.(faults := s.faults[n..], log := s.log + Pauses(n))
  }

  ghost predicate BeginsFail(s: Server, n: nat)
  {
    n <= |s.faults| && forall i :: 0 <= i < n ==> s.faults[i].Fail?
  }

  /** The step of a call whose Begin fails: nothing but the Begin is issued, and the reply is retryable. */
  function Paused(s: Server, c: Captured): Step
    requires BeginsFail(s, 1)
  {
    Step(s.(faults := s.faults[1..], log := s.log + [BeginCall]), c, Reply(false, Some(Driver(s.faults[0].msg))))
  }

  ghost predicate PausesOnFailedBegin(fn: AttemptFn)
  {
    forall s, c :: BeginsFail(s, 1) ==> fn(s, c) == Paused(s, c)
  }

  /** transaction returns a failed Begin's error with bypass false, having done nothing else. */
  lemma AttemptPausesOnFailedBegin(w: Work)
    ensures PausesOnFailedBegin(AttemptOf(w))
  {
  }

  /** One failed Begin with budget left: an attempt, then a sleep. */
  lemma OnePause(fn: AttemptFn, s: Server, c: Captured, retry: nat)
    requires retry > 1 && BeginsFail(s, 1) && fn(s, c) == Paused(s, c)
    ensures var r := RetryLoop(fn, s, c, retry);
            var r' := RetryLoop(fn, AfterPauses(s, 1), c, retry - 1);
            SameEnd(r, r') && r.attempts == r'.attempts + 1
  {
    assert Pauses(1) == [BeginCall, SleepCall];
    assert AfterPauses(s, 1) == SleepSpec(Paused(s, c).s);
  }

  lemma PausesNone(s: Server)
    ensures AfterPauses(s, 0) == s
  {
    assert s.faults[0..] == s.faults;
    assert s.log + Pauses(0) == s.log;
  }

  lemma PausesAdd(s: Server, n: nat)
    requires 1 <= n <= |s.faults|
    ensures AfterPauses(AfterPauses(s, 1), n - 1) == AfterPauses(s, n)
  {
    assert s.faults[1..][n - 1..] == s.faults[n..];
    assert Pauses(1) + Pauses(n - 1) == Pauses(n);
  }

  /** fn pauses at each of the first `n` states a run of failed Begins from `s` passes through. */
  ghost predicate PausesAlong(fn: AttemptFn, s: Server, c: Captured, n: nat)
  {
    && n <= |s.faults|
    && forall i :: 0 <= i < n ==>
         BeginsFail(AfterPauses(s, i), 1) && fn(AfterPauses(s, i), c) == Paused(AfterPauses(s, i), c)
  }

  lemma PausesAlongTail(fn: AttemptFn, s: Server, c: Captured, n: nat)
    requires 1 <= n && PausesAlong(fn, s, c, n)
    ensures PausesAlong(fn, AfterPauses(s, 1), c, n - 1)
  {
    var s1 := AfterPauses(s, 1);
    forall i | 0 <= i < n - 1
      ensures BeginsFail(AfterPauses(s1, i), 1) && fn(AfterPauses(s1, i), c) == Paused(AfterPauses(s1, i), c)
    {
      PausesAdd(s, i + 1);
      assert AfterPauses(s1, i) == AfterPauses(s, i + 1);
    }
  }

  /** The induction behind RetryPastFailingBegins, over the states the pauses pass through. */
  lemma {:induction false} PastPauses(fn: AttemptFn, s: Server, c: Captured, retry: nat, n: nat)
    requires n < retry && PausesAlong(fn, s, c, n)
    ensures var r := RetryLoop(fn, s, c, retry);
            var r' := RetryLoop(fn, AfterPauses(s, n), c, retry - n);
            SameEnd(r, r') && r.attempts == n + r'.attempts
    decreases n
  {
    PausesNone(s);
    if n > 0 {
      OnePause(fn, s, c, retry);
      PausesAlongTail(fn, s, c, n);
      PastPauses(fn, AfterPauses(s, 1), c, retry - 1, n - 1);
      PausesAdd(s, n);
    }
  }

  /** While Begin keeps failing and budget is left, retry only pauses: after
      `n` such attempts the run goes on as a run with `n` fewer attempts from
      the paused state. */
  lemma RetryPastFailingBegins(fn: AttemptFn, s: Server, c: Captured, retry: nat, n: nat)
    requires n < retry && BeginsFail(s, n) && PausesOnFailedBegin(fn)
    ensures var r := RetryLoop(fn, s, c, retry);
            var r' := RetryLoop(fn, AfterPauses(s, n), c, retry - n);
            SameEnd(r, r') && r.attempts == n + r'.attempts
  {
    forall i | 0 <= i < n
      ensures BeginsFail(AfterPauses(s, i), 1) && fn(AfterPauses(s, i), c) == Paused(AfterPauses(s, i), c)
    {
      assert AfterPauses(s, i).faults[0] == s.faults[i];
    }
    PastPauses(fn, s, c, retry, n);
  }

  /** When Begin fails on every attempt of the budget, fn runs exactly
      `retry` times, nothing is committed, and the last driver error comes back
      wrapped as "Maximum number of retries exceeded: …". */
  lemma {:induction false} ExhaustsOnFailingBegins(fn: AttemptFn, s: Server, c: Captured, retry: nat)
    requires retry >= 1 && BeginsFail(s, retry) && PausesOnFailedBegin(fn)
    ensures var r := RetryLoop(fn, s, c, retry);
            && r.attempts == retry
            && r.out == Returned(Some(RetriesExceeded(Driver(s.faults[retry - 1].msg))))
            && r.s.committed == s.committed
            && r.cap == c
    decreases retry
  {
    assert fn(s, c) == Paused(s, c);
    if retry > 1 {
      var s1 := SleepSpec(Paused(s, c).s);
      assert BeginsFail(s1, retry - 1) by {
        forall i | 0 <= i < retry - 1
          ensures s1.faults[i].Fail?
        {
          assert s1.faults[i] == s.faults[i + 1];
        }
      }
      ExhaustsOnFailingBegins(fn, s1, c, retry - 1);
      assert s1.faults[retry - 2] == s.faults[retry - 1];
    }
  }
}
