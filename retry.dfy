/** What `retry` promises, stated over the replies its `fn` gives call after
    call, independently of what `fn` does. */
module Retry {
  import opened Wrappers
  import opened Errors

  /** What one call of fn hands back: the pair (bypass, err), or a Go panic
      that unwinds through retry instead of returning. */
  datatype Reply = Reply(bypass: bool, err: Option<Error>) | Panic

  /** How retry ends: it returns an error (nil is `Returned(None)`), or the panic of fn goes through it. */
  datatype Outcome = Returned(err: Option<Error>) | Panicked

  /** A reply after which retry calls fn no more: a panic, a bypass, or a success. */
  predicate Decisive(r: Reply)
  {
    r.Panic? || r.bypass || r.err.None?
  }

  /** How a decisive reply ends retry: the reply's own error, unchanged (nil on success). */
  function Settle(r: Reply): Outcome
    requires Decisive(r)
  {
    if r.Panic? then Panicked else Returned(r.err)
  }

  /** The error retry returns once its budget is spent: the last error, wrapped. */
  function Exhausted(r: Reply): Outcome
    requires !Decisive(r)
  {
    Returned(Some(RetriesExceeded(r.err.value)))
  }

  /** `calls` and `out` are what retry with a budget of `budget` calls does
      when fn replies `rs[0]`, `rs[1]`, … : it calls fn while the replies are
      retryable failures, stops at the first decisive reply and settles it, and
      otherwise stops after `budget` calls with the wrapped last error. */
  ghost predicate Promised(budget: nat, rs: seq<Reply>, calls: nat, out: Outcome)
  {
    && 1 <= calls <= budget <= |rs|
    && (forall i :: 0 <= i < calls - 1 ==> !Decisive(rs[i]))
    && (if Decisive(rs[calls - 1]) then out == Settle(rs[calls - 1])
        else calls == budget && out == Exhausted(rs[calls - 1]))
  }

  /** The promise fixes both the number of calls and the outcome. */
  lemma PromisedUnique(budget: nat, rs: seq<Reply>, calls1: nat, out1: Outcome, calls2: nat, out2: Outcome)
    requires Promised(budget, rs, calls1, out1) && Promised(budget, rs, calls2, out2)
    ensures calls1 == calls2 && out1 == out2
  {
  }

  /** retry stops at the first decisive reply within the budget and returns
      what it says: nil as soon as fn succeeds, a bypassed error unchanged, and
      no further call of fn. */
  lemma StopsAtFirstDecisive(budget: nat, rs: seq<Reply>, calls: nat, out: Outcome, k: nat)
    requires Promised(budget, rs, calls, out)
    requires k < budget && Decisive(rs[k])
    requires forall i :: 0 <= i < k ==> !Decisive(rs[i])
    ensures calls == k + 1
    ensures rs[k].Panic? <==> out.Panicked?
    ensures rs[k].Reply? ==> out == Returned(rs[k].err)
  {
  }

  /** When every call within the budget fails without bypassing, fn is called
      exactly `budget` times and the last error comes back wrapped. */
  lemma ExhaustsWhenAllFail(budget: nat, rs: seq<Reply>, calls: nat, out: Outcome)
    requires Promised(budget, rs, calls, out)
    requires forall i :: 0 <= i < budget ==> !Decisive(rs[i])
    ensures calls == budget
    ensures out == Returned(Some(RetriesExceeded(rs[budget - 1].err.value)))
  {
  }
}
