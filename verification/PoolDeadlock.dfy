/**
 * Concurrent parse persistence over one connection pool: each call keeps the connection of its first batch
 * until it returns, and takes another for its second batch.
 */
module PoolDeadlock {
  import opened SeqUtil

  datatype Call =
    | Waiting     // for a connection for the first batch
    | Inserting   // the first batch runs
    | WantsSecond // its connection kept, waiting for another
    | Linking     // the second batch runs
    | Finished

  function Held(c: Call): nat {
    match c
    case Inserting => 1
    case WantsSecond => 1
    case Linking => 2
    case _ => 0
  }

  datatype State = State(calls: seq<Call>, pool: nat)
  {
    function InUse(): nat { Total(calls, Held) }
  }

  /** A batch returns with or without an error; returning from the call runs the deferred closes. */
  datatype Step =
    | AcquireFirst(c: nat)
    | FirstReturns(c: nat, ok: bool)
    | AcquireSecond(c: nat)
    | SecondReturns(c: nat)

  predicate Enabled(s: State, step: Step) {
    && step.c < |s.calls|
    && match step
       case AcquireFirst(c) => s.calls[c].Waiting? && s.InUse() < s.pool
       case FirstReturns(c, _) => s.calls[c].Inserting?
       case AcquireSecond(c) => s.calls[c].WantsSecond? && s.InUse() < s.pool
       case SecondReturns(c) => s.calls[c].Linking?
  }

  function Next(step: Step): Call {
    match step
    case AcquireFirst(_) => Inserting
    case FirstReturns(_, ok) => if ok then WantsSecond else Finished
    case AcquireSecond(_) => Linking
    case SecondReturns(_) => Finished
  }

  function Apply(s: State, step: Step): State
    requires Enabled(s, step)
  {
    s.(calls := s.calls[step.c := Next(step)])
  }

  /** What a step does to the number of connections in use; a return gives back all that the call had. */
  lemma StepConnections(s: State, step: Step)
    requires Enabled(s, step)
    ensures Apply(s, step).InUse() == match step
      case AcquireFirst(_) => s.InUse() + 1
      case AcquireSecond(_) => s.InUse() + 1
      case FirstReturns(_, ok) => if ok then s.InUse() else s.InUse() - 1
      case SecondReturns(_) => s.InUse() - 2
  {
    TotalUpdate(s.calls, step.c, Next(step), Held);
  }

  function Init(n: nat, p: nat): State {
    State(seq(n, _ => Waiting), p)
  }

  predicate Runnable(s: State, steps: seq<Step>)
    decreases |steps|
  {
    steps == [] || (Enabled(s, steps[0]) && Runnable(Apply(s, steps[0]), steps[1..]))
  }

  function Exec(s: State, steps: seq<Step>): State
    requires Runnable(s, steps)
    decreases |steps|
  {
    if steps == [] then s else Exec(Apply(s, steps[0]), steps[1..])
  }

  /** Some call has not finished, and nothing can happen before a deadline expires. */
  ghost predicate Stuck(s: State) {
    && (exists c :: 0 <= c < |s.calls| && !s.calls[c].Finished?)
    && forall step :: !Enabled(s, step)
  }

  ghost predicate DeadlockFree(n: nat, p: nat) {
    forall steps :: Runnable(Init(n, p), steps) ==> !Stuck(Exec(Init(n, p), steps))
  }

  /** The pool never lends more connections than it has. */
  predicate Inv(s: State, n: nat, p: nat) {
    |s.calls| == n && s.pool == p && s.InUse() <= p
  }

  lemma StepInv(s: State, step: Step, n: nat, p: nat)
    requires Inv(s, n, p) && Enabled(s, step)
    ensures Inv(Apply(s, step), n, p)
  {
    TotalUpdate(s.calls, step.c, Apply(s, step).calls[step.c], Held);
  }

  lemma {:induction false} RunInv(s: State, steps: seq<Step>, n: nat, p: nat)
    requires Inv(s, n, p) && Runnable(s, steps)
    ensures Inv(Exec(s, steps), n, p)
    decreases |steps|
  {
    if steps != [] {
      StepInv(s, steps[0], n, p);
      RunInv(Apply(s, steps[0]), steps[1..], n, p);
    }
  }

  lemma {:induction false} AtMostOneEach(calls: seq<Call>)
    requires forall c :: 0 <= c < |calls| ==> !calls[c].Linking?
    ensures Total(calls, Held) <= |calls|
  {
    if calls != [] {
      AtMostOneEach(calls[1..]);
    }
  }

  /** With fewer calls than connections some call can always go on. */
  lemma FewCallsProgress(s: State, n: nat, p: nat)
    requires Inv(s, n, p) && n < p
    ensures !Stuck(s)
  {
    if c: nat :| c < |s.calls| && !s.calls[c].Finished? {
      if d: nat :| d < |s.calls| && s.calls[d].Linking? {
        assert Enabled(s, SecondReturns(d));
      } else {
        AtMostOneEach(s.calls);
        match s.calls[c]
        case Waiting => assert Enabled(s, AcquireFirst(c));
        case Inserting => assert Enabled(s, FirstReturns(c, true));
        case WantsSecond => assert Enabled(s, AcquireSecond(c));
      }
    }
  }

  /** The first `k` calls have their rows in and want a second connection; the others have none. */
  function Holding(n: nat, k: nat): (r: seq<Call>)
    ensures |r| == n && forall i :: 0 <= i < n ==> r[i] == if i < k then WantsSecond else Waiting
  {
    seq(n, i => if i < k then WantsSecond else Waiting)
  }

  lemma {:induction false} HoldingInUse(n: nat, k: nat)
    requires k <= n
    ensures Total(Holding(n, k), Held) == k
  {
    if k == 0 {
      TotalConstant(Holding(n, 0), Held, 0);
    } else {
      HoldingInUse(n, k - 1);
      assert Holding(n, k) == Holding(n, k - 1)[k - 1 := WantsSecond];
      TotalUpdate(Holding(n, k - 1), k - 1, WantsSecond, Held);
    }
  }

  lemma {:induction false} ExecAppend(s: State, steps: seq<Step>, last: Step)
    requires Runnable(s, steps) && Enabled(Exec(s, steps), last)
    ensures Runnable(s, steps + [last]) && Exec(s, steps + [last]) == Apply(Exec(s, steps), last)
    decreases |steps|
  {
    if steps == [] {
      assert [] + [last] == [last] && [last][1..] == [];
    } else {
      ExecAppend(Apply(s, steps[0]), steps[1..], last);
      assert (steps + [last])[1..] == steps[1..] + [last];
    }
  }

  lemma {:induction false} InsertFirsts(n: nat, p: nat, k: nat) returns (steps: seq<Step>)
    requires k <= n && k <= p
    ensures Runnable(Init(n, p), steps) && Exec(Init(n, p), steps) == State(Holding(n, k), p)
  {
    if k == 0 {
      steps := [];
      assert Holding(n, 0) == Init(n, p).calls;
    } else {
      steps := InsertFirsts(n, p, k - 1);
      HoldingInUse(n, k - 1);
      assert Holding(n, k) == Holding(n, k - 1)[k - 1 := WantsSecond];
      ExecAppend(Init(n, p), steps, AcquireFirst(k - 1));
      steps := steps + [AcquireFirst(k - 1)];
      assert Holding(n, k - 1)[k - 1 := Inserting][k - 1 := WantsSecond] == Holding(n, k);
      ExecAppend(Init(n, p), steps, FirstReturns(k - 1, true));
      steps := steps + [FirstReturns(k - 1, true)];
    }
  }

  /** With as many calls as connections, every connection can end up with a call that waits for another. */
  lemma ManyCallsStuck(n: nat, p: nat) returns (steps: seq<Step>)
    requires 0 < p <= n
    ensures Runnable(Init(n, p), steps) && Stuck(Exec(Init(n, p), steps))
  {
    steps := InsertFirsts(n, p, p);
    HoldingInUse(n, p);
    assert !Holding(n, p)[0].Finished?;
  }

  /** N calls over a pool of P connections can always make progress exactly when N < P. */
  lemma DeadlockFreeIff(n: nat, p: nat)
    requires p > 0
    ensures DeadlockFree(n, p) <==> n < p
  {
    if n < p {
      forall steps | Runnable(Init(n, p), steps) ensures !Stuck(Exec(Init(n, p), steps)) {
        TotalConstant(Init(n, p).calls, Held, 0);
        RunInv(Init(n, p), steps, n, p);
        FewCallsProgress(Exec(Init(n, p), steps), n, p);
      }
    } else {
      var steps := ManyCallsStuck(n, p);
    }
  }
}
