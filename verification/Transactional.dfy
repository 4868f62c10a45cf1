/** Two copies kept in step, so that a failed operation leaves no trace. */
module Transactional {
  import opened Types

  datatype Copies<Inner> = Copies(first: Inner, second: Inner)

  /** A mutating operation: the new value, which may have changed even on failure, and the outcome. */
  type Operation<!Inner, R, E> = Inner --> (Inner, Result<R, E>)

  /** The operation can be run wherever the transaction runs it. */
  ghost predicate Runnable<Inner, R, E>(c: Copies<Inner>, f: Operation<Inner, R, E>) {
    f.requires(c.first) && f.requires(c.second)
  }

  function ApplyBoth<Inner, R, E>(c: Copies<Inner>, f: Operation<Inner, R, E>): (Copies<Inner>, Result<R, E>)
    requires Runnable(c, f)
  {
    var (first, outcome) := f(c.first);
    match outcome
    case Ok(ret) =>
      var (second, again) := f(c.second);
      (if again.Ok? then Copies(first, second) else Copies(first, first), Ok(ret))
    case Err(e) => (Copies(c.second, c.second), Err(e))
  }

  /** An operation run on copies in step either takes effect on both or leaves both as they were. */
  lemma ApplyIsAtomic<Inner, R, E>(c: Copies<Inner>, f: Operation<Inner, R, E>)
    requires c.first == c.second && Runnable(c, f)
    ensures ApplyBoth(c, f).1 == f(c.first).1
    ensures ApplyBoth(c, f).0 ==
            if f(c.first).1.Ok? then Copies(f(c.first).0, f(c.first).0) else c
  {
  }

  /**
   From copies that have drifted apart, as a change made to the first alone leaves them: they are
   in step afterwards exactly when a run failed or both runs ended in the same value.
   */
  lemma BackInStepIff<Inner, R, E>(c: Copies<Inner>, f: Operation<Inner, R, E>)
    requires Runnable(c, f)
    ensures var after := ApplyBoth(c, f).0;
            after.first == after.second <==>
            f(c.first).1.Err? || f(c.second).1.Err? || f(c.first).0 == f(c.second).0
  {
  }

  /**
   Which copy is copied back, whether or not they were in step: the second, untouched, when the first run
   fails, and the first, as its run left it, when only the second fails.  Each copy is otherwise its own run's.
   */
  lemma CopiedBack<Inner, R, E>(c: Copies<Inner>, f: Operation<Inner, R, E>)
    requires Runnable(c, f)
    ensures var after := ApplyBoth(c, f).0;
            && (f(c.first).1.Err? ==> after.first == c.second && after.second == c.second)
            && (f(c.first).1.Ok? ==> after.first == f(c.first).0)
            && (f(c.first).1.Ok? && f(c.second).1.Err? ==> after.second == f(c.first).0)
            && (f(c.first).1.Ok? && f(c.second).1.Ok? ==> after.second == f(c.second).0)
    ensures ApplyBoth(c, f).1 == f(c.first).1
  {
  }

  /** A failure of either run is reported, as the documentation has it. */
  ghost predicate ReportsEitherFailure<Inner, R, E>(c: Copies<Inner>, f: Operation<Inner, R, E>)
    requires Runnable(c, f)
  {
    ApplyBoth(c, f).1.Err? <==> f(c.first).1.Err? || f(c.second).1.Err?
  }

  /** That is so exactly unless the second run alone fails, which is reported as success. */
  lemma ReportsEitherFailureIff<Inner, R, E>(c: Copies<Inner>, f: Operation<Inner, R, E>)
    requires Runnable(c, f)
    ensures ReportsEitherFailure(c, f) <==> !(f(c.first).1.Ok? && f(c.second).1.Err?)
    ensures c.first == c.second ==> ReportsEitherFailure(c, f)
  {
  }

  /** The smallest failing input: copies that have drifted apart, and an operation only the second refuses. */
  lemma DriftedFailureUnreported()
    ensures var f: Operation<bool, Unit, Unit> := (b: bool) => (b, if b then Err(Unit) else Ok(Unit));
            && Runnable(Copies(false, true), f) && f(true).1.Err?
            && ApplyBoth(Copies(false, true), f) == (Copies(false, false), Ok(Unit))
            && !ReportsEitherFailure(Copies(false, true), f)
  {
  }

  // ----- Runs -----

  /** Each operation can be run where the successes before it lead. */
  ghost predicate RunnableFrom<Inner, R, E>(inner: Inner, ops: seq<Operation<Inner, R, E>>)
    decreases |ops|
  {
    ops != [] ==> ops[0].requires(inner) && RunnableFrom(AfterOne(inner, ops[0]), ops[1..])
  }

  /** One operation without copies: a failing one is undone. */
  function AfterOne<Inner, R, E>(inner: Inner, f: Operation<Inner, R, E>): Inner
    requires f.requires(inner)
  {
    var (after, outcome) := f(inner);
    if outcome.Ok? then after else inner
  }

  ghost function SuccessesOnly<Inner, R, E>(inner: Inner, ops: seq<Operation<Inner, R, E>>): Inner
    requires RunnableFrom(inner, ops)
    decreases |ops|
  {
    if ops == [] then inner else SuccessesOnly(AfterOne(inner, ops[0]), ops[1..])
  }

  ghost predicate RunnableAlong<Inner, R, E>(c: Copies<Inner>, ops: seq<Operation<Inner, R, E>>)
    decreases |ops|
  {
    ops != [] ==> Runnable(c, ops[0]) && RunnableAlong(ApplyBoth(c, ops[0]).0, ops[1..])
  }

  ghost function ApplyAll<Inner, R, E>(c: Copies<Inner>, ops: seq<Operation<Inner, R, E>>): Copies<Inner>
    requires RunnableAlong(c, ops)
    decreases |ops|
  {
    if ops == [] then c else ApplyAll(ApplyBoth(c, ops[0]).0, ops[1..])
  }

  /** After any run, both copies hold what the successful operations alone make of the start. */
  lemma {:induction false} RunsAreAtomic<Inner, R, E>(inner: Inner, ops: seq<Operation<Inner, R, E>>)
    requires RunnableFrom(inner, ops)
    ensures RunnableAlong(Copies(inner, inner), ops)
    ensures ApplyAll(Copies(inner, inner), ops) == Copies(SuccessesOnly(inner, ops), SuccessesOnly(inner, ops))
    decreases |ops|
  {
    if ops != [] {
      RunsAreAtomic(AfterOne(inner, ops[0]), ops[1..]);
    }
  }

  class MemoryTransactional<Inner> {
    var first: Inner
    var second: Inner

    ghost function View(): Copies<Inner>
      reads this
    {
      Copies(first, second)
    }

    constructor (inner: Inner)
      ensures View() == Copies(inner, inner)
    {
      first, second := inner, inner;
    }

    method Apply<R, E>(f: Operation<Inner, R, E>) returns (r: Result<R, E>)
      requires Runnable(View(), f)
      modifies this
      ensures (View(), r) == ApplyBoth(old(View()), f)
      ensures old(first) == old(second) ==>
                first == second && first == if r.Ok? then f(old(first)).0 else old(first)
    {
      var (changed, outcome) := f(first);
      first := changed;
      if outcome.Err? {
        first := second;
        return Err(outcome.error);
      }
      var (changed', outcome') := f(second);
      second := changed';
      if outcome'.Err? {
        second := first;
      }
      return Ok(outcome.value);
    }
  }
}
