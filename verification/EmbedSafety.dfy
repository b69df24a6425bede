/** What every step of the embed protocol keeps, in both modes. */
module EmbedSafety {
  import opened SeqUtil
  import opened EmbedProtocol

  function LiveUnit(p: Phase): nat { if p.Live() then 1 else 0 }

  function BatchOf(ms: seq<Message>): (r: seq<nat>)
    ensures |r| == |ms| && forall m :: 0 <= m < |ms| ==> r[m] == ms[m].batch
  {
    seq(|ms|, m requires 0 <= m < |ms| => ms[m].batch)
  }

  /** How many batches have had their goroutine started, while `run` has not returned. */
  function Started(cfg: Config, main: Main): nat
    requires !main.Returned?
  {
    match main
    case Fetching => 0
    case Dispatch(i) => i
    case Acquired(i) => i
    case Drain(k) => cfg.N()
  }

  predicate MainOk(cfg: Config, s: State) {
    match s.main
    case Fetching => !s.cancelled
    case Dispatch(i) => i <= cfg.N()
    case Acquired(i) => i < cfg.N()
    case Drain(k) => k == s.taken && k <= cfg.N()
    case Returned(r) =>
      match r
      case Nil => s.taken == cfg.N()
      case FetchError => s.taken == 0
      case _ => s.cancelled
  }

  /** Messages are taken only while draining, and only successes are taken without returning. */
  predicate TakenOk(s: State) {
    && (s.main.Fetching? || s.main.Dispatch? || s.main.Acquired? ==> s.taken == 0)
    && (!s.main.Returned? || s.main.result.Nil? ==>
          forall m :: 0 <= m < s.taken <= |s.sent| ==> !s.sent[m].failed)
  }

  predicate IdleOk(cfg: Config, s: State)
    requires Shaped(cfg, s)
  {
    !s.main.Returned? ==>
      forall b :: 0 <= b < cfg.N() ==> (s.phases[b].Idle? <==> b >= Started(cfg, s.main))
  }

  predicate OutcomeOk(p: Phase, o: Outcome) {
    match p
    case Idle => o.Pending?
    case Embedding => o.Pending?
    case Persisting(_) => o.Pending?
    case Failing => o.Failed?
    case Sending(failed) => if failed then o.Failed? else o.Persisted?
    case Releasing => !o.Pending?
    case Exited => !o.Pending?
  }

  predicate OutcomesOk(cfg: Config, s: State)
    requires Shaped(cfg, s)
  {
    forall b :: 0 <= b < cfg.N() ==> OutcomeOk(s.phases[b], s.outcomes[b])
  }

  predicate MessageOk(cfg: Config, s: State, m: Message)
    requires Shaped(cfg, s)
  {
    m.batch < cfg.N() && s.phases[m.batch].PastSend() && (m.failed <==> s.outcomes[m.batch].Failed?)
  }

  predicate MessagesOk(cfg: Config, s: State)
    requires Shaped(cfg, s)
  {
    && (forall m :: 0 <= m < |s.sent| ==> MessageOk(cfg, s, s.sent[m]))
    && Distinct(BatchOf(s.sent))
  }

  predicate SlotsOk(cfg: Config, s: State) {
    && s.slots == Total(s.phases, LiveUnit) + (if s.main.Acquired? then 1 else 0)
    && s.slots <= cfg.conc
  }

  /** In the literal mode every message is a failure; in the intended mode every finished batch has one. */
  predicate ModeOk(cfg: Config, s: State)
    requires Shaped(cfg, s)
  {
    match cfg.mode
    case SendOnFailure =>
      && (forall m :: 0 <= m < |s.sent| ==> s.sent[m].failed)
      && (forall b :: 0 <= b < cfg.N() && s.phases[b].Sending? ==> s.phases[b].failed)
    case SendAlways =>
      forall b :: 0 <= b < cfg.N() && s.phases[b].PastSend() ==> b in BatchOf(s.sent)
  }

  ghost predicate Inv(cfg: Config, s: State) {
    && Shaped(cfg, s)
    && MainOk(cfg, s) && TakenOk(s) && IdleOk(cfg, s) && OutcomesOk(cfg, s)
    && MessagesOk(cfg, s) && SlotsOk(cfg, s) && ModeOk(cfg, s)
  }

  lemma InitInv(cfg: Config)
    ensures Inv(cfg, Init(cfg))
  {
    TotalConstant(Init(cfg).phases, LiveUnit, 0);
  }

  /** Changing one goroutine's phase moves the live count by that goroutine alone. */
  lemma LiveUpdate(s: State, g: nat, p: Phase)
    requires g < |s.phases|
    ensures Total(s.phases[g := p], LiveUnit) + LiveUnit(s.phases[g]) == Total(s.phases, LiveUnit) + LiveUnit(p)
  {
    TotalUpdate(s.phases, g, p, LiveUnit);
  }

  /** Steps that belong to one batch's goroutine. */
  predicate OfGoroutine(step: Step) {
    step.EmbedReturns? || step.PersistReturns? || step.CancelWork? || step.Send? || step.ReleaseSlot?
  }

  lemma StepInv(cfg: Config, s: State, step: Step)
    requires Inv(cfg, s) && Enabled(cfg, s, step)
    ensures Inv(cfg, Apply(cfg, s, step))
  {
    hide Inv, Apply;
    match step
    case EmbedReturns(g, _, _) => MoveInv(cfg, s, step, g);
    case PersistReturns(g, _, _, _) => MoveInv(cfg, s, step, g);
    case CancelWork(g) => MoveInv(cfg, s, step, g);
    case Send(g) => SendInv(cfg, s, g);
    case ReleaseSlot(g) => MoveInv(cfg, s, step, g);
    case Spawn => SpawnInv(cfg, s);
    case Receive => ReceiveInv(cfg, s);
    case _ => MainInv(cfg, s, step);
  }

  lemma MainInv(cfg: Config, s: State, step: Step)
    requires Inv(cfg, s) && Enabled(cfg, s, step)
    requires !OfGoroutine(step) && !step.Spawn? && !step.Receive?
    ensures Inv(cfg, Apply(cfg, s, step))
  {
  }

  lemma SpawnInv(cfg: Config, s: State)
    requires Inv(cfg, s) && Enabled(cfg, s, Spawn)
    ensures Inv(cfg, Apply(cfg, s, Spawn))
  {
    LiveUpdate(s, s.main.i, Embedding);
  }

  lemma ReceiveInv(cfg: Config, s: State)
    requires Inv(cfg, s) && Enabled(cfg, s, Receive)
    ensures Inv(cfg, Apply(cfg, s, Receive))
  {
    hide LiveUnit, OutcomeOk;
  }

  /** What a goroutine's own step, other than a send, does to the state. */
  predicate Moved(cfg: Config, s: State, s': State, g: nat)
    requires Shaped(cfg, s) && g < cfg.N()
  {
    && s'.main == s.main && s'.sent == s.sent && s'.taken == s.taken && s'.outerDone == s.outerDone
    && |s'.phases| == |s.phases| && |s'.outcomes| == |s.outcomes|
    && var p := s.phases[g]; var p' := s'.phases[g]; var o := s.outcomes[g]; var o' := s'.outcomes[g];
    && s'.phases == s.phases[g := p'] && s'.outcomes == s.outcomes[g := o']
    && p.Live() && !p'.Idle? && OutcomeOk(p', o')
    && (p.PastSend() ==> p'.PastSend() && o' == o)
    && (p'.PastSend() && !p.PastSend() ==> cfg.mode.SendOnFailure?)
    && (p'.Sending? && cfg.mode.SendOnFailure? ==> p'.failed)
    && (s.cancelled ==> s'.cancelled)
    && s'.slots + LiveUnit(p) == s.slots + LiveUnit(p')
  }

  lemma MoveInv(cfg: Config, s: State, step: Step, g: nat)
    requires Inv(cfg, s) && Enabled(cfg, s, step) && g < cfg.N()
    requires step.EmbedReturns? || step.PersistReturns? || step.CancelWork? || step.ReleaseSlot?
    requires step.g == g
    ensures Inv(cfg, Apply(cfg, s, step))
  {
    assert OutcomeOk(s.phases[g], s.outcomes[g]);
    MoveMoves(cfg, s, step, g);
    MovedInv(cfg, s, Apply(cfg, s, step), g);
  }

  lemma MoveMoves(cfg: Config, s: State, step: Step, g: nat)
    requires Shaped(cfg, s) && Enabled(cfg, s, step) && g < cfg.N()
    requires step.EmbedReturns? || step.PersistReturns? || step.CancelWork? || step.ReleaseSlot?
    requires step.g == g && OutcomeOk(s.phases[g], s.outcomes[g])
    ensures Moved(cfg, s, Apply(cfg, s, step), g)
  {
    assert s.outcomes == s.outcomes[g := s.outcomes[g]];
    match step
    case EmbedReturns(_, reply, cause) =>
    case PersistReturns(_, ok, applied, cause) =>
    case CancelWork(_) =>
    case ReleaseSlot(_) =>
  }

  lemma MovedInv(cfg: Config, s: State, s': State, g: nat)
    requires Inv(cfg, s) && g < cfg.N() && Moved(cfg, s, s', g)
    ensures Inv(cfg, s')
  {
    LiveUpdate(s, g, s'.phases[g]);
    assert MessagesOk(cfg, s') by {
      forall m | 0 <= m < |s.sent| ensures MessageOk(cfg, s', s'.sent[m]) {
        assert MessageOk(cfg, s, s.sent[m]);
      }
    }
    assert MainOk(cfg, s') && IdleOk(cfg, s') && OutcomesOk(cfg, s');
    assert ModeOk(cfg, s');
  }

  lemma SendInv(cfg: Config, s: State, g: nat)
    requires Inv(cfg, s) && Enabled(cfg, s, Send(g))
    ensures Inv(cfg, Apply(cfg, s, Send(g)))
  {
    var s' := Apply(cfg, s, Send(g));
    LiveUpdate(s, g, Releasing);
    assert OutcomeOk(s.phases[g], s.outcomes[g]);
    SendMessages(cfg, s, s', g);
    assert TakenOk(s');
    assert IdleOk(cfg, s') && OutcomesOk(cfg, s');
  }

  lemma SendMessages(cfg: Config, s: State, s': State, g: nat)
    requires Shaped(cfg, s) && Shaped(cfg, s') && MessagesOk(cfg, s) && ModeOk(cfg, s)
    requires g < cfg.N() && s.phases[g].Sending? && OutcomeOk(s.phases[g], s.outcomes[g])
    requires s'.phases == s.phases[g := Releasing] && s'.outcomes == s.outcomes
    requires s'.sent == s.sent + [Message(g, s.phases[g].failed)]
    ensures MessagesOk(cfg, s') && ModeOk(cfg, s')
  {
    assert BatchOf(s'.sent) == BatchOf(s.sent) + [g];
    forall m | 0 <= m < |s.sent| ensures s.sent[m].batch != g && MessageOk(cfg, s', s.sent[m]) {
      assert MessageOk(cfg, s, s.sent[m]);
    }
    forall b | 0 <= b < cfg.N() && s'.phases[b].PastSend() && cfg.mode.SendAlways?
      ensures b in BatchOf(s'.sent)
    {
      assert b != g ==> b in BatchOf(s.sent);
    }
  }

  lemma {:induction false} RunInv(cfg: Config, s: State, steps: seq<Step>)
    requires Inv(cfg, s) && Runnable(cfg, s, steps)
    ensures Inv(cfg, Exec(cfg, s, steps))
    decreases |steps|
  {
    if steps != [] {
      StepInv(cfg, s, steps[0]);
      RunInv(cfg, Apply(cfg, s, steps[0]), steps[1..]);
    }
  }

  lemma ReachableInv(cfg: Config, s: State)
    requires Reachable(cfg, s)
    ensures Inv(cfg, s)
  {
    var steps :| Runnable(cfg, Init(cfg), steps) && Exec(cfg, Init(cfg), steps) == s;
    InitInv(cfg);
    RunInv(cfg, Init(cfg), steps);
  }
}
