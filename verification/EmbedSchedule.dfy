/** What a schedule of the embed protocol must have contained, read off the state it ends in. */
module EmbedSchedule {
  import opened Embeddings
  import opened SeqUtil
  import opened EmbedProtocol
  import opened EmbedSafety
  import opened EmbedContract

  // ---------- the guards of a failing batch ----------

  /** A batch that is being persisted has one result for each of its chunks. */
  predicate SizesOk(cfg: Config, s: State)
    requires Shaped(cfg, s)
  {
    forall b :: 0 <= b < cfg.N() && s.phases[b].Persisting? ==> |s.phases[b].results| == |cfg.batches[b]|
  }

  /** A failure that was sent, or is about to be, came after `cancelWork`. */
  predicate CancelOk(cfg: Config, s: State)
    requires Shaped(cfg, s)
  {
    && (forall b :: 0 <= b < cfg.N() && s.phases[b].Sending? && s.phases[b].failed ==> s.cancelled)
    && (forall m :: 0 <= m < |s.sent| && s.sent[m].failed ==> s.cancelled)
  }

  /**
   * A batch error names a batch that failed. A context error comes before all messages are taken, and, unless the
   * outer context is done, before all batches are started.
   */
  predicate ResultOk(cfg: Config, s: State)
    requires Shaped(cfg, s)
  {
    s.main.Returned? ==>
      match s.main.result
      case BatchError(b) => b < cfg.N() && s.outcomes[b].Failed?
      case ContextError =>
        && s.taken < cfg.N()
        && (!s.outerDone ==> exists b :: 0 <= b < cfg.N() && s.phases[b].Idle?)
      case _ => true
  }

  lemma StepSizes(cfg: Config, s: State, step: Step)
    requires Shaped(cfg, s) && Enabled(cfg, s, step) && SizesOk(cfg, s)
    ensures SizesOk(cfg, Apply(cfg, s, step))
  {
  }

  lemma StepCancels(cfg: Config, s: State, step: Step)
    requires Shaped(cfg, s) && Enabled(cfg, s, step) && CancelOk(cfg, s)
    ensures CancelOk(cfg, Apply(cfg, s, step))
  {
  }

  /** A result stays, and so does what it says. */
  lemma ResultStays(cfg: Config, s: State, step: Step)
    requires Inv(cfg, s) && Enabled(cfg, s, step) && ResultOk(cfg, s) && s.main.Returned?
    ensures ResultOk(cfg, Apply(cfg, s, step))
  {
    var s' := Apply(cfg, s, step);
    if s.main.result.BatchError? {
      OutcomeKept(cfg, s, step, s.main.result.batch);
    } else if s.main.result.ContextError? && !s'.outerDone {
      var b :| 0 <= b < cfg.N() && s.phases[b].Idle?;
      assert s'.phases[b].Idle?;
    }
  }

  lemma ResultGiven(cfg: Config, s: State, step: Step)
    requires Inv(cfg, s) && Enabled(cfg, s, step) && !s.main.Returned?
    ensures ResultOk(cfg, Apply(cfg, s, step))
  {
    if step.Receive? {
      assert MessageOk(cfg, s, s.sent[s.taken]);
    } else if step.StopDispatch? {
      assert Apply(cfg, s, step).phases[s.main.i].Idle?;
    }
  }

  lemma StepResult(cfg: Config, s: State, step: Step)
    requires Inv(cfg, s) && Enabled(cfg, s, step) && ResultOk(cfg, s)
    ensures ResultOk(cfg, Apply(cfg, s, step))
  {
    hide Apply, ResultOk, MainOk, TakenOk, IdleOk, OutcomesOk, MessagesOk, SlotsOk, ModeOk;
    if s.main.Returned? {
      ResultStays(cfg, s, step);
    } else {
      ResultGiven(cfg, s, step);
    }
  }

  lemma InvShaped(cfg: Config, s: State)
    requires Inv(cfg, s)
    ensures Shaped(cfg, s)
  {
  }

  lemma {:induction false} RunGuards(cfg: Config, s: State, steps: seq<Step>)
    requires Inv(cfg, s) && Runnable(cfg, s, steps)
    requires SizesOk(cfg, s) && CancelOk(cfg, s) && ResultOk(cfg, s)
    ensures var end := Exec(cfg, s, steps); SizesOk(cfg, end) && CancelOk(cfg, end) && ResultOk(cfg, end)
    decreases |steps|
  {
    hide Inv, Enabled, Apply, SizesOk, CancelOk, ResultOk;
    if steps != [] {
      StepInv(cfg, s, steps[0]);
      InvShaped(cfg, s);
      StepSizes(cfg, s, steps[0]);
      StepCancels(cfg, s, steps[0]);
      StepResult(cfg, s, steps[0]);
      RunGuards(cfg, Apply(cfg, s, steps[0]), steps[1..]);
    }
  }

  /**
   * In every reachable state: results under way are complete; failures sent or about to be sent are preceded by
   * the cancellation, so that dispatch may stop; a batch error is that of a batch that failed, and a context error
   * under a live outer context left some batch unstarted.
   */
  lemma ReachableGuards(cfg: Config, s: State)
    requires Reachable(cfg, s)
    ensures Shaped(cfg, s) && SizesOk(cfg, s) && CancelOk(cfg, s) && ResultOk(cfg, s)
    ensures s.main.Dispatch? && s.main.i < cfg.N() && (exists m :: 0 <= m < |s.sent| && s.sent[m].failed) ==>
      Enabled(cfg, s, StopDispatch)
  {
    var steps :| Runnable(cfg, Init(cfg), steps) && Exec(cfg, Init(cfg), steps) == s;
    InitInv(cfg);
    RunGuards(cfg, Init(cfg), steps);
  }

  // ---------- a persisted batch ----------

  /** At step `j` every row of batch `b` was applied. */
  predicate AppliesAll(cfg: Config, steps: seq<Step>, j: nat, b: nat) {
    && j < |steps| && b < cfg.N()
    && steps[j].PersistReturns? && steps[j].g == b && steps[j].ok && steps[j].applied == |cfg.batches[b]|
  }

  /** At step `i` the embedder gave batch `b` one vector of 1024 numbers for each of its chunks. */
  predicate EmbedsAll(cfg: Config, steps: seq<Step>, i: nat, b: nat) {
    && i < |steps| && b < cfg.N()
    && steps[i].EmbedReturns? && steps[i].g == b && steps[i].reply.Some?
    && |steps[i].reply.value| == |cfg.batches[b]|
    && forall r :: r in steps[i].reply.value ==> |r.vector| == 1024
  }

  /** Whether and how a batch ended is never taken back. */
  lemma {:induction false} OutcomeStays(cfg: Config, s: State, steps: seq<Step>, b: nat)
    requires Inv(cfg, s) && Runnable(cfg, s, steps) && b < cfg.N() && !s.outcomes[b].Pending?
    ensures Exec(cfg, s, steps).outcomes[b] == s.outcomes[b]
    decreases |steps|
  {
    hide Inv, Enabled, Apply;
    InvShaped(cfg, s);
    if steps != [] {
      StepInv(cfg, s, steps[0]);
      OutcomeKept(cfg, s, steps[0], b);
      OutcomeStays(cfg, Apply(cfg, s, steps[0]), steps[1..], b);
    }
  }

  lemma OutcomeKept(cfg: Config, s: State, step: Step, b: nat)
    requires Inv(cfg, s) && Enabled(cfg, s, step) && b < cfg.N() && !s.outcomes[b].Pending?
    ensures Apply(cfg, s, step).outcomes[b] == s.outcomes[b]
  {
    assert OutcomeOk(s.phases[b], s.outcomes[b]);
  }

  /** A batch that is persisting stays so until its own persist call returns. */
  lemma PersistingStep(cfg: Config, s: State, step: Step, b: nat)
    requires Inv(cfg, s) && Enabled(cfg, s, step) && b < cfg.N() && s.phases[b].Persisting?
    ensures var s' := Apply(cfg, s, step);
      if step.PersistReturns? && step.g == b then
        if step.ok then step.applied == |s.phases[b].results| && WellDimensioned(s.phases[b].results)
        else s'.outcomes[b].Failed?
      else s'.phases[b] == s.phases[b] && s'.outcomes[b] == s.outcomes[b]
  {
    assert OutcomeOk(s.phases[b], s.outcomes[b]) && (s.main.Acquired? ==> s.phases[s.main.i].Idle?);
  }

  lemma {:induction false} PersistingEnds(cfg: Config, s: State, steps: seq<Step>, b: nat) returns (j: nat)
    requires Inv(cfg, s) && Runnable(cfg, s, steps) && b < cfg.N()
    requires s.phases[b].Persisting? && |s.phases[b].results| == |cfg.batches[b]| && s.outcomes[b].Pending?
    requires Exec(cfg, s, steps).outcomes[b].Persisted?
    ensures AppliesAll(cfg, steps, j, b) && WellDimensioned(s.phases[b].results)
    decreases |steps|
  {
    hide Inv, Enabled, Apply;
    InvShaped(cfg, s);
    assert steps != [];
    var s' := Apply(cfg, s, steps[0]);
    StepInv(cfg, s, steps[0]);
    PersistingStep(cfg, s, steps[0], b);
    if steps[0].PersistReturns? && steps[0].g == b {
      if !steps[0].ok {
        OutcomeStays(cfg, s', steps[1..], b);
      }
      j := 0;
    } else {
      j := PersistingEnds(cfg, s', steps[1..], b);
      j := j + 1;
    }
  }

  /** A batch that is not persisting yet gets there only by a reply with a result for every chunk. */
  lemma EarlyStep(cfg: Config, s: State, step: Step, b: nat)
    requires Inv(cfg, s) && Enabled(cfg, s, step) && b < cfg.N() && (s.phases[b].Idle? || s.phases[b].Embedding?)
    ensures var s' := Apply(cfg, s, step);
      || s'.phases[b].Idle? || s'.phases[b].Embedding? || s'.outcomes[b].Failed?
      || (step.EmbedReturns? && step.g == b && step.reply.Some? && s'.phases[b] == Persisting(step.reply.value) &&
          s'.outcomes[b].Pending? && |step.reply.value| == |cfg.batches[b]|)
  {
    assert OutcomeOk(s.phases[b], s.outcomes[b]);
  }

  lemma {:induction false} PersistedInFull(cfg: Config, s: State, steps: seq<Step>, b: nat) returns (i: nat, j: nat)
    requires Inv(cfg, s) && Runnable(cfg, s, steps) && b < cfg.N() && (s.phases[b].Idle? || s.phases[b].Embedding?)
    requires Exec(cfg, s, steps).outcomes[b].Persisted?
    ensures i < j && EmbedsAll(cfg, steps, i, b) && AppliesAll(cfg, steps, j, b)
    decreases |steps|
  {
    hide Inv, Enabled, Apply;
    EarlyPending(cfg, s, b);
    InvShaped(cfg, s);
    assert steps != [];
    var s' := Apply(cfg, s, steps[0]);
    StepInv(cfg, s, steps[0]);
    EarlyStep(cfg, s, steps[0], b);
    if s'.phases[b].Idle? || s'.phases[b].Embedding? {
      i, j := PersistedInFull(cfg, s', steps[1..], b);
      i, j := i + 1, j + 1;
    } else if s'.outcomes[b].Failed? {
      OutcomeStays(cfg, s', steps[1..], b);
    } else {
      j := PersistingEnds(cfg, s', steps[1..], b);
      i, j := 0, j + 1;
    }
  }

  lemma EarlyPending(cfg: Config, s: State, b: nat)
    requires Inv(cfg, s) && b < cfg.N() && (s.phases[b].Idle? || s.phases[b].Embedding?)
    ensures s.outcomes[b].Pending?
  {
    assert OutcomeOk(s.phases[b], s.outcomes[b]);
  }

  /** Batch `b` got a full reply, and every one of its rows was then applied. */
  ghost predicate InFull(cfg: Config, steps: seq<Step>, b: nat) {
    exists i: nat, j: nat :: i < j && EmbedsAll(cfg, steps, i, b) && AppliesAll(cfg, steps, j, b)
  }

  ghost predicate AllInFull(cfg: Config, steps: seq<Step>) {
    forall b: nat :: b < cfg.N() ==> InFull(cfg, steps, b)
  }

  /**
   * When all batches count as persisted, every chunk was embedded and written: each batch had a reply of its own
   * size and dimension, and a persist call that applied all of it. So for a nil return in the intended mode.
   */
  lemma AllPersistedInFull(cfg: Config, steps: seq<Step>)
    requires Runnable(cfg, Init(cfg), steps)
    ensures AllPersisted(Exec(cfg, Init(cfg), steps)) ==> AllInFull(cfg, steps)
    ensures cfg.mode.SendAlways? && Exec(cfg, Init(cfg), steps).main == Returned(Nil) ==> AllInFull(cfg, steps)
  {
    var end := Exec(cfg, Init(cfg), steps);
    InitInv(cfg);
    RunInv(cfg, Init(cfg), steps);
    if cfg.mode.SendAlways? && end.main == Returned(Nil) {
      NilMeansPersisted(cfg, end);
    }
    if AllPersisted(end) {
      forall b: nat | b < cfg.N() ensures InFull(cfg, steps, b) {
        var i, j := PersistedInFull(cfg, Init(cfg), steps, b);
      }
    }
  }

  // ---------- a failed batch ----------

  /** The step fails batch `b` for this cause. */
  predicate Fails(cfg: Config, step: Step, b: nat, cause: Cause)
    requires b < cfg.N()
  {
    || (step.EmbedReturns? && step.g == b && step.reply.None? && step.cause == cause)
    || (step.EmbedReturns? && step.g == b && step.reply.Some? &&
        |step.reply.value| != |cfg.batches[b]| && cause == Genuine)
    || (step.PersistReturns? && step.g == b && !step.ok && step.cause == cause)
  }

  /** Step `i` of the schedule fails batch `b`, in a state where `cancelWork` had, or had not, been called. */
  predicate FailsAt(cfg: Config, s: State, steps: seq<Step>, i: nat, b: nat, cause: Cause, cancelled: bool)
    requires Shaped(cfg, s) && Runnable(cfg, s, steps) && b < cfg.N()
    decreases |steps|
  {
    && i < |steps|
    && if i == 0 then Fails(cfg, steps[0], b, cause) && s.cancelled == cancelled
       else FailsAt(cfg, Apply(cfg, s, steps[0]), steps[1..], i - 1, b, cause, cancelled)
  }

  lemma FailingStep(cfg: Config, s: State, step: Step, b: nat)
    requires Inv(cfg, s) && Enabled(cfg, s, step) && b < cfg.N() && s.outcomes[b].Pending?
    ensures var o := Apply(cfg, s, step).outcomes[b];
      o.Failed? ==> Fails(cfg, step, b, o.cause) && o.afterCancel == s.cancelled
  {
  }

  /** A recorded failure happened, as recorded. */
  lemma {:induction false} FailureHappened(cfg: Config, s: State, steps: seq<Step>, b: nat) returns (i: nat)
    requires Inv(cfg, s) && Runnable(cfg, s, steps) && b < cfg.N() && s.outcomes[b].Pending?
    requires Exec(cfg, s, steps).outcomes[b].Failed?
    ensures var o := Exec(cfg, s, steps).outcomes[b]; FailsAt(cfg, s, steps, i, b, o.cause, o.afterCancel)
    decreases |steps|
  {
    hide Inv, Enabled, Apply, Fails;
    InvShaped(cfg, s);
    assert steps != [];
    var s' := Apply(cfg, s, steps[0]);
    StepInv(cfg, s, steps[0]);
    FailingStep(cfg, s, steps[0], b);
    if s'.outcomes[b].Pending? {
      i := FailureHappened(cfg, s', steps[1..], b);
      i := i + 1;
    } else {
      OutcomeStays(cfg, s', steps[1..], b);
      i := 0;
    }
  }

  /**
   * The root cause on the schedule itself: while the outer context is live, an error past the fetch means that
   * some step of the schedule failed a batch on its own account before `cancelWork` was called.
   */
  lemma RootCauseHappened(cfg: Config, steps: seq<Step>) returns (i: nat, b: nat)
    requires Runnable(cfg, Init(cfg), steps)
    requires var end := Exec(cfg, Init(cfg), steps);
      !end.outerDone && end.main.Returned? && !end.main.result.Nil? && !end.main.result.FetchError?
    ensures b < cfg.N() && FailsAt(cfg, Init(cfg), steps, i, b, Genuine, false)
  {
    hide Inv, FailsAt;
    var end := Exec(cfg, Init(cfg), steps);
    RootCause(cfg, end);
    InitInv(cfg);
    b :| 0 <= b < |end.outcomes| && end.outcomes[b] == Failed(Genuine, false);
    i := FailureHappened(cfg, Init(cfg), steps, b);
  }
}
