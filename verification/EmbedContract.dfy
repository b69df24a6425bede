/** The promises of the embed protocol: pool safety, termination, root cause, and what a nil return means. */
module EmbedContract {
  import opened Embeddings
  import opened SeqUtil
  import opened EmbedProtocol
  import opened EmbedSafety

  // ---------- pool safety ----------

  /** Live goroutines never exceed the concurrency limit, and account for every occupied slot. */
  lemma PoolSafety(cfg: Config, s: State)
    requires Reachable(cfg, s)
    ensures Total(s.phases, LiveUnit) <= s.slots <= cfg.conc
    ensures !s.main.Acquired? ==> Total(s.phases, LiveUnit) == s.slots
  {
    ReachableInv(cfg, s);
  }

  /** The channel buffer has room for every goroutine that is about to send. */
  lemma SendNeverBlocks(cfg: Config, s: State, g: nat)
    requires Inv(cfg, s) && g < cfg.N() && s.phases[g].Sending?
    ensures Enabled(cfg, s, Send(g))
  {
    var batches := BatchOf(s.sent) + [g];
    forall m | 0 <= m < |s.sent| ensures s.sent[m].batch != g && s.sent[m].batch < cfg.N() {
      assert MessageOk(cfg, s, s.sent[m]);
    }
    DistinctBelow(batches, cfg.N());
  }

  /** A step a goroutine can always take, whatever its external calls do. */
  function OwnStep(s: State, g: nat): Step
    requires g < |s.phases| && s.phases[g].Live()
  {
    match s.phases[g]
    case Embedding => EmbedReturns(g, None, Genuine)
    case Persisting(_) => PersistReturns(g, false, 0, Genuine)
    case Failing => CancelWork(g)
    case Sending(_) => Send(g)
    case Releasing => ReleaseSlot(g)
  }

  lemma GoroutineNeverStuck(cfg: Config, s: State, g: nat)
    requires Inv(cfg, s) && g < cfg.N() && s.phases[g].Live()
    ensures Enabled(cfg, s, OwnStep(s, g))
  {
    if s.phases[g].Sending? {
      SendNeverBlocks(cfg, s, g);
    }
    if s.phases[g].Releasing? {
      TotalAtLeast(s.phases, g, LiveUnit);
    }
  }

  // ---------- termination ----------

  function PhaseRank(p: Phase): nat {
    match p
    case Idle => 6
    case Embedding => 5
    case Persisting(_) => 4
    case Failing => 3
    case Sending(_) => 2
    case Releasing => 1
    case Exited => 0
  }

  function MainRank(cfg: Config, main: Main): int {
    match main
    case Fetching => 3 * cfg.N() + 4
    case Dispatch(i) => 2 * (cfg.N() - i) + cfg.N() + 3
    case Acquired(i) => 2 * (cfg.N() - i) + cfg.N() + 2
    case Drain(k) => cfg.N() - k + 1
    case Returned(_) => 0
  }

  function Work(cfg: Config, s: State): int {
    MainRank(cfg, s.main) + Total(s.phases, PhaseRank) + (if s.outerDone then 0 else 1)
  }

  lemma WorkNonNegative(cfg: Config, s: State)
    requires Inv(cfg, s)
    ensures Work(cfg, s) >= 0
  {
  }

  lemma StepLowersWork(cfg: Config, s: State, step: Step)
    requires Shaped(cfg, s) && MainOk(cfg, s) && Enabled(cfg, s, step)
    requires s.main.Acquired? ==> s.phases[s.main.i].Idle?
    ensures Work(cfg, Apply(cfg, s, step)) < Work(cfg, s)
  {
    match step
    case Spawn => TotalUpdate(s.phases, s.main.i, Embedding, PhaseRank);
    case EmbedReturns(g, _, _) => MoveLowersRank(cfg, s, step, g);
    case PersistReturns(g, _, _, _) => MoveLowersRank(cfg, s, step, g);
    case CancelWork(g) => MoveLowersRank(cfg, s, step, g);
    case Send(g) => MoveLowersRank(cfg, s, step, g);
    case ReleaseSlot(g) => MoveLowersRank(cfg, s, step, g);
    case _ =>
  }

  lemma MoveLowersRank(cfg: Config, s: State, step: Step, g: nat)
    requires Shaped(cfg, s) && Enabled(cfg, s, step) && g < cfg.N()
    requires step.EmbedReturns? || step.PersistReturns? || step.CancelWork? || step.Send? || step.ReleaseSlot?
    requires step.g == g
    ensures Total(Apply(cfg, s, step).phases, PhaseRank) < Total(s.phases, PhaseRank)
    ensures Apply(cfg, s, step).main == s.main && Apply(cfg, s, step).outerDone == s.outerDone
  {
    TotalUpdate(s.phases, g, Apply(cfg, s, step).phases[g], PhaseRank);
  }

  /** No schedule is infinite: its length is bounded by the work there is at its start. */
  lemma {:induction false} RunsTerminate(cfg: Config, s: State, steps: seq<Step>)
    requires Inv(cfg, s) && Runnable(cfg, s, steps)
    ensures |steps| <= Work(cfg, s)
    decreases |steps|
  {
    if steps == [] {
      WorkNonNegative(cfg, s);
    } else {
      StepLowersWork(cfg, s, steps[0]);
      StepInv(cfg, s, steps[0]);
      RunsTerminate(cfg, Apply(cfg, s, steps[0]), steps[1..]);
    }
  }

  // ---------- leak freedom ----------

  /** Once `run` has returned, no goroutine is started: idle batches stay idle. */
  lemma {:induction false} NoStartAfterReturn(cfg: Config, s: State, steps: seq<Step>, b: nat)
    requires Shaped(cfg, s) && s.main.Returned? && Runnable(cfg, s, steps) && b < cfg.N() && s.phases[b].Idle?
    ensures Exec(cfg, s, steps).phases[b].Idle? && Exec(cfg, s, steps).main == s.main
    decreases |steps|
  {
    if steps != [] {
      NoStartAfterReturn(cfg, Apply(cfg, s, steps[0]), steps[1..], b);
    }
  }

  /** Goroutines left behind by a return can all exit, without any context expiring. */
  lemma {:induction false} LeftoversExit(cfg: Config, s: State) returns (steps: seq<Step>)
    requires Inv(cfg, s) && s.main.Returned?
    ensures Runnable(cfg, s, steps)
    ensures Total(Exec(cfg, s, steps).phases, LiveUnit) == 0
    ensures Exec(cfg, s, steps).main == s.main && Exec(cfg, s, steps).outerDone == s.outerDone
    decreases Work(cfg, s)
  {
    if Total(s.phases, LiveUnit) == 0 {
      steps := [];
    } else {
      var g := TotalPositive(s.phases, LiveUnit);
      GoroutineNeverStuck(cfg, s, g);
      var step := OwnStep(s, g);
      StepInv(cfg, s, step);
      StepLowersWork(cfg, s, step);
      WorkNonNegative(cfg, Apply(cfg, s, step));
      var rest := LeftoversExit(cfg, Apply(cfg, s, step));
      steps := [step] + rest;
      assert steps[1..] == rest;
    }
  }

  // ---------- root cause ----------

  predicate FailedAny(s: State) {
    exists b :: 0 <= b < |s.outcomes| && s.outcomes[b].Failed?
  }

  /** Some batch failed on its own account before `cancelWork` had been called. */
  predicate RootFailure(s: State) {
    exists b :: 0 <= b < |s.outcomes| && s.outcomes[b] == Failed(Genuine, false)
  }

  predicate CauseInv(s: State) {
    !s.outerDone ==>
      && (!s.main.Returned? && (s.cancelled || FailedAny(s)) ==> RootFailure(s))
      && (s.main.Returned? && (s.main.result.ContextError? || s.main.result.BatchError?) ==> RootFailure(s))
  }

  lemma RootFailureKept(s: State, s': State, g: nat, o: Outcome)
    requires g < |s.outcomes| && s.outcomes[g].Pending? && s'.outcomes == s.outcomes[g := o]
    requires RootFailure(s)
    ensures RootFailure(s')
  {
    var b :| 0 <= b < |s.outcomes| && s.outcomes[b] == Failed(Genuine, false);
    assert s'.outcomes[b] == Failed(Genuine, false);
  }

  lemma FailCause(cfg: Config, s: State, g: nat, cause: Cause)
    requires Inv(cfg, s) && CauseInv(s) && g < cfg.N() && s.outcomes[g].Pending? && Legal(cause, s)
    ensures CauseInv(Fail(s, g, cause))
  {
    var s' := Fail(s, g, cause);
    if RootFailure(s) {
      RootFailureKept(s, s', g, Failed(cause, s.cancelled));
    } else if !s.outerDone && !s.main.Returned? {
      assert s'.outcomes[g] == Failed(Genuine, false);
    }
  }

  lemma StepCause(cfg: Config, s: State, step: Step)
    requires Inv(cfg, s) && CauseInv(s) && Enabled(cfg, s, step)
    ensures CauseInv(Apply(cfg, s, step))
  {
    match step
    case EmbedReturns(g, reply, cause) =>
      assert OutcomeOk(s.phases[g], s.outcomes[g]);
      if reply.None? { FailCause(cfg, s, g, cause); }
      else if |reply.value| != |cfg.batches[g]| { FailCause(cfg, s, g, Genuine); }
    case PersistReturns(g, ok, applied, cause) =>
      assert OutcomeOk(s.phases[g], s.outcomes[g]);
      if !ok { FailCause(cfg, s, g, cause); }
      else if RootFailure(s) { RootFailureKept(s, Apply(cfg, s, step), g, Persisted); }
    case CancelWork(g) =>
      assert OutcomeOk(s.phases[g], s.outcomes[g]);
    case Receive =>
      assert MessageOk(cfg, s, s.sent[s.taken]);
    case _ =>
  }

  lemma {:induction false} RunCause(cfg: Config, s: State, steps: seq<Step>)
    requires Inv(cfg, s) && CauseInv(s) && Runnable(cfg, s, steps)
    ensures CauseInv(Exec(cfg, s, steps))
    decreases |steps|
  {
    if steps != [] {
      StepInv(cfg, s, steps[0]);
      StepCause(cfg, s, steps[0]);
      RunCause(cfg, Apply(cfg, s, steps[0]), steps[1..]);
    }
  }

  /**
   * While the outer context is live, an error from `run` (other than a failed fetch) is never the
   * cancellation feeding on itself: some batch failed genuinely before anything was cancelled.
   */
  lemma RootCause(cfg: Config, s: State)
    requires Reachable(cfg, s) && !s.outerDone
    requires s.main.Returned? && !s.main.result.Nil? && !s.main.result.FetchError?
    ensures RootFailure(s)
  {
    var steps :| Runnable(cfg, Init(cfg), steps) && Exec(cfg, Init(cfg), steps) == s;
    InitInv(cfg);
    RunCause(cfg, Init(cfg), steps);
  }

  // ---------- what a nil return means ----------

  /** Nothing can happen any more unless the outer context expires. */
  ghost predicate Quiescent(cfg: Config, s: State)
    requires Shaped(cfg, s)
  {
    forall step :: Enabled(cfg, s, step) ==> step.OuterExpires?
  }

  /**
   * The contract of `run`: while the outer context is live, every schedule that can go no further has
   * returned, and has returned nil exactly when every batch was persisted (or the fetch itself failed).
   */
  ghost predicate Contract(cfg: Config) {
    forall s :: Reachable(cfg, s) && Shaped(cfg, s) && !s.outerDone && Quiescent(cfg, s) ==>
      && s.main.Returned?
      && (s.main.result.FetchError? || (s.main.result.Nil? <==> AllPersisted(s)))
  }

  /** In the intended mode a nil return means that every batch was persisted, expired context or not. */
  lemma NilMeansPersisted(cfg: Config, s: State)
    requires cfg.mode.SendAlways? && Inv(cfg, s) && s.main.Returned? && s.main.result.Nil?
    ensures AllPersisted(s)
  {
    var taken := BatchOf(s.sent[..s.taken]);
    forall i, j | 0 <= i < j < |taken| ensures taken[i] != taken[j] {
      assert BatchOf(s.sent)[i] != BatchOf(s.sent)[j];
    }
    forall m | 0 <= m < s.taken ensures s.sent[m].batch < cfg.N() {
      assert MessageOk(cfg, s, s.sent[m]);
    }
    DistinctBelow(taken, cfg.N());
    forall b | 0 <= b < cfg.N() ensures s.outcomes[b].Persisted? {
      assert b in taken;
      var m :| 0 <= m < s.taken && taken[m] == b;
      assert MessageOk(cfg, s, s.sent[m]) && OutcomeOk(s.phases[b], s.outcomes[b]);
    }
  }

  /** The main goroutine of the intended mode, or some batch goroutine, can always move. */
  lemma IntendedProgress(cfg: Config, s: State) returns (step: Step)
    requires cfg.mode.SendAlways? && cfg.Valid() && Inv(cfg, s) && !s.main.Returned?
    ensures Enabled(cfg, s, step) && !step.OuterExpires?
  {
    if Total(s.phases, LiveUnit) > 0 {
      var g := TotalPositive(s.phases, LiveUnit);
      GoroutineNeverStuck(cfg, s, g);
      return OwnStep(s, g);
    }
    match s.main
    case Fetching => step := FetchReturns;
    case Dispatch(i) => step := if i < cfg.N() then AcquireSlot else EndDispatch;
    case Acquired(i) => step := Spawn;
    case Drain(k) =>
      if k >= cfg.N() { return DrainEnds; }
      step := Receive;
      forall b: nat | b < cfg.N() ensures b in BatchOf(s.sent) {
        TotalAtLeast(s.phases, b, LiveUnit);
        assert s.phases[b].PastSend();
      }
      CoversBelow(BatchOf(s.sent), cfg.N());
  }

  lemma IntendedReturns(cfg: Config, s: State)
    requires cfg.mode.SendAlways? && cfg.Valid() && Reachable(cfg, s) && Shaped(cfg, s) && !s.outerDone
    requires Quiescent(cfg, s)
    ensures s.main.Returned? && (s.main.result.FetchError? || (s.main.result.Nil? <==> AllPersisted(s)))
  {
    ReachableInv(cfg, s);
    if !s.main.Returned? {
      var step := IntendedProgress(cfg, s);
    } else if s.main.result.Nil? {
      NilMeansPersisted(cfg, s);
    } else if !s.main.result.FetchError? {
      RootCause(cfg, s);
    }
  }

  /** One message per batch, nil included: the contract holds over all interleavings. */
  lemma IntendedMeetsContract(cfg: Config)
    requires cfg.mode.SendAlways? && cfg.Valid()
    ensures Contract(cfg)
  {
    forall s | Reachable(cfg, s) && Shaped(cfg, s) && !s.outerDone && Quiescent(cfg, s)
      ensures s.main.Returned? && (s.main.result.FetchError? || (s.main.result.Nil? <==> AllPersisted(s)))
    {
      IntendedReturns(cfg, s);
    }
  }

  // ---------- the code as written ----------

  /** With a batch to embed, the code as written never returns nil. */
  lemma LiteralNeverReturnsNil(cfg: Config, s: State)
    requires cfg.mode.SendOnFailure? && cfg.N() > 0 && Reachable(cfg, s)
    ensures !(s.main.Returned? && s.main.result.Nil?)
  {
    ReachableInv(cfg, s);
    assert s.taken > 0 ==> s.sent[0].failed;
  }

  /** Every batch persisted, every goroutine gone, the outer context live, and `run` waiting in the drain. */
  ghost predicate AllDone(cfg: Config, s: State)
    requires Shaped(cfg, s)
  {
    && s.main.Drain? && !s.outerDone && AllPersisted(s)
    && forall b :: 0 <= b < cfg.N() ==> s.phases[b].Exited?
  }

  /** From there only the outer context can act, and after it only the drain's context case, with an error. */
  lemma LiteralHangs(cfg: Config, s: State)
    requires cfg.mode.SendOnFailure? && cfg.N() > 0 && Inv(cfg, s) && AllDone(cfg, s)
    ensures Quiescent(cfg, s)
    ensures var expired := Apply(cfg, s, OuterExpires);
      forall step :: Enabled(cfg, expired, step) ==>
        step == DrainExpires && Apply(cfg, expired, step).main == Returned(ContextError)
  {
    assert s.sent != [] ==> MessageOk(cfg, s, s.sent[0]);
  }

  /** Progress of the schedule that embeds one batch after another without a failure. */
  predicate DoneUpTo(cfg: Config, s: State, i: nat)
    requires Shaped(cfg, s)
  {
    && i <= cfg.N() && s.main == Dispatch(i) && s.slots == 0 && s.sent == []
    && !s.cancelled && !s.outerDone
    && (forall b :: 0 <= b < i ==> s.phases[b].Exited? && s.outcomes[b].Persisted?)
    && (forall b :: i <= b < cfg.N() ==> s.phases[b].Idle? && s.outcomes[b].Pending?)
  }

  /** Replies that the worker accepts for a batch. */
  function Acceptable(batch: seq<Chunk>): (r: seq<Embedded>)
    ensures |r| == |batch| && WellDimensioned(r)
  {
    seq(|batch|, i requires 0 <= i < |batch| => Embedded(batch[i].id, seq(DIMENSIONS, _ => 0.0)))
  }

  function SmoothBatch(cfg: Config, i: nat): seq<Step>
    requires i < cfg.N()
  {
    var reply := Acceptable(cfg.batches[i]);
    [AcquireSlot, Spawn, EmbedReturns(i, Some(reply), Genuine),
     PersistReturns(i, true, |reply|, Genuine), ReleaseSlot(i)]
  }

  /** The first three steps of a smooth batch leave its goroutine persisting. */
  lemma SmoothStart(cfg: Config, s: State, i: nat)
    requires cfg.mode.SendOnFailure? && cfg.Valid() && Shaped(cfg, s) && i < cfg.N() && DoneUpTo(cfg, s, i)
    ensures Enabled(cfg, s, AcquireSlot) && Enabled(cfg, Apply(cfg, s, AcquireSlot), Spawn)
    ensures var s2 := Apply(cfg, Apply(cfg, s, AcquireSlot), Spawn);
      var reply := Acceptable(cfg.batches[i]);
      && Enabled(cfg, s2, EmbedReturns(i, Some(reply), Genuine))
      && Apply(cfg, s2, EmbedReturns(i, Some(reply), Genuine)) ==
           s.(main := Dispatch(i + 1), slots := 1, phases := s.phases[i := Persisting(reply)])
  {
  }

  lemma SmoothEnd(cfg: Config, s: State, s3: State, i: nat)
    requires cfg.mode.SendOnFailure? && Shaped(cfg, s) && i < cfg.N() && DoneUpTo(cfg, s, i)
    requires var reply := Acceptable(cfg.batches[i]);
      s3 == s.(main := Dispatch(i + 1), slots := 1, phases := s.phases[i := Persisting(reply)])
    ensures var persist := PersistReturns(i, true, |Acceptable(cfg.batches[i])|, Genuine);
      && Enabled(cfg, s3, persist) && Enabled(cfg, Apply(cfg, s3, persist), ReleaseSlot(i))
      && DoneUpTo(cfg, Apply(cfg, Apply(cfg, s3, persist), ReleaseSlot(i)), i + 1)
  {
  }

  lemma SmoothBatchRuns(cfg: Config, s: State, i: nat)
    requires cfg.mode.SendOnFailure? && cfg.Valid() && Shaped(cfg, s) && i < cfg.N() && DoneUpTo(cfg, s, i)
    ensures Runnable(cfg, s, SmoothBatch(cfg, i))
    ensures DoneUpTo(cfg, Exec(cfg, s, SmoothBatch(cfg, i)), i + 1)
  {
    hide Enabled, Apply, DoneUpTo;
    SmoothStart(cfg, s, i);
    var steps := SmoothBatch(cfg, i);
    var s1 := Apply(cfg, s, steps[0]);
    var s2 := Apply(cfg, s1, steps[1]);
    var s3 := Apply(cfg, s2, steps[2]);
    SmoothEnd(cfg, s, s3, i);
    var s4 := Apply(cfg, s3, steps[3]);
    ExecCons(cfg, s4, steps[4], []);
    ExecCons(cfg, s3, steps[3], [steps[4]]);
    ExecCons(cfg, s2, steps[2], [steps[3]] + [steps[4]]);
    ExecCons(cfg, s1, steps[1], [steps[2]] + ([steps[3]] + [steps[4]]));
    ExecCons(cfg, s, steps[0], [steps[1]] + ([steps[2]] + ([steps[3]] + [steps[4]])));
    assert steps == [steps[0]] + ([steps[1]] + ([steps[2]] + ([steps[3]] + [steps[4]])));
  }

  lemma {:induction false} SmoothRun(cfg: Config, i: nat) returns (steps: seq<Step>)
    requires cfg.mode.SendOnFailure? && cfg.Valid() && 0 < cfg.N() && i <= cfg.N()
    ensures Runnable(cfg, Init(cfg), steps)
    ensures DoneUpTo(cfg, Exec(cfg, Init(cfg), steps), i)
  {
    if i == 0 {
      steps := [FetchReturns];
      assert steps[1..] == [];
    } else {
      var before := SmoothRun(cfg, i - 1);
      var s := Exec(cfg, Init(cfg), before);
      SmoothBatchRuns(cfg, s, i - 1);
      ExecAppend(cfg, Init(cfg), before, SmoothBatch(cfg, i - 1));
      steps := before + SmoothBatch(cfg, i - 1);
    }
  }

  lemma LiteralReachesAllDone(cfg: Config) returns (s: State)
    requires cfg.mode.SendOnFailure? && cfg.Valid() && 0 < cfg.N()
    ensures Reachable(cfg, s) && Shaped(cfg, s) && AllDone(cfg, s)
  {
    var steps := SmoothRun(cfg, cfg.N());
    var before := Exec(cfg, Init(cfg), steps);
    s := Apply(cfg, before, EndDispatch);
    var last := [EndDispatch];
    assert last[1..] == [];
    ExecAppend(cfg, Init(cfg), steps, last);
  }

  /** The code as written meets the contract exactly when there is nothing to embed. */
  lemma LiteralMeetsContractIffEmpty(cfg: Config)
    requires cfg.mode.SendOnFailure? && cfg.Valid()
    ensures Contract(cfg) <==> cfg.N() == 0
  {
    if cfg.N() > 0 {
      var s := LiteralReachesAllDone(cfg);
      ReachableInv(cfg, s);
      LiteralHangs(cfg, s);
    } else {
      forall s | Reachable(cfg, s) && Shaped(cfg, s) && !s.outerDone && Quiescent(cfg, s)
        ensures s.main.Returned? && (s.main.result.FetchError? || (s.main.result.Nil? <==> AllPersisted(s)))
      {
        EmptyReturns(cfg, s);
      }
    }
  }

  lemma EmptyReturns(cfg: Config, s: State)
    requires cfg.N() == 0 && Reachable(cfg, s) && Shaped(cfg, s) && !s.outerDone && Quiescent(cfg, s)
    ensures s.main.Returned? && (s.main.result.FetchError? || (s.main.result.Nil? <==> AllPersisted(s)))
  {
    ReachableInv(cfg, s);
    if !s.main.Returned? {
      var step := if s.main.Fetching? then FetchReturns else if s.main.Dispatch? then EndDispatch else DrainEnds;
      assert Enabled(cfg, s, step);
    } else if !s.main.result.Nil? && !s.main.result.FetchError? {
      RootCause(cfg, s);
    }
  }
}
