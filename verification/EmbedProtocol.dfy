/**
 * The dispatch and drain protocol of the embed worker's `run`, as a labelled transition system:
 * a main goroutine, one goroutine per batch, a counting semaphore, a buffered error channel, and two contexts.
 *
 * `SendOnFailure` is the code as written: a goroutine sends on the error channel only when its batch failed.
 * `SendAlways` is what the drain loop expects: one message per batch, nil included.
 */
module EmbedProtocol {
  import opened Embeddings
  import opened SeqUtil

  datatype Mode = SendOnFailure | SendAlways

  datatype Chunk = Chunk(id: string, text: string)
  datatype Embedded = Embedded(chunkId: string, vector: Vector)

  datatype Config = Config(mode: Mode, batches: seq<seq<Chunk>>, conc: nat) {
    predicate Valid() { conc > 0 }
    function N(): nat { |batches| }
  }

  /** Why a batch failed: on its own account, or because the context it ran under was done. */
  datatype Cause = Genuine | ContextDone

  datatype Outcome = Pending | Persisted | Failed(cause: Cause, afterCancel: bool)

  datatype Message = Message(batch: nat, failed: bool)

  datatype Phase =
    | Idle
    | Embedding
    | Persisting(results: seq<Embedded>)
    | Failing               // the batch failed; `cancelWork` comes next
    | Sending(failed: bool) // about to send on the channel
    | Releasing             // the deferred receive from `slots`
    | Exited
  {
    predicate Live() { !Idle? && !Exited? }
    predicate PastSend() { Releasing? || Exited? }
  }

  datatype RunResult = Nil | FetchError | ContextError | BatchError(batch: nat)

  datatype Main =
    | Fetching
    | Dispatch(i: nat)  // at the select for batch i
    | Acquired(i: nat)  // slot taken, goroutine i not started yet
    | Drain(k: nat)
    | Returned(result: RunResult)

  /**
   * `sent` is every message ever sent, oldest first; the channel holds `sent[taken..]`.
   * `outcomes` records how each batch ended, and whether `cancelWork` had already been called when it failed.
   */
  datatype State = State(
    main: Main, phases: seq<Phase>, outcomes: seq<Outcome>, slots: nat,
    sent: seq<Message>, taken: nat, cancelled: bool, outerDone: bool)
  {
    predicate WorkDone() { cancelled || outerDone }
  }

  function Init(cfg: Config): State {
    State(Fetching, seq(cfg.N(), _ => Idle), seq(cfg.N(), _ => Pending), 0, [], 0, false, false)
  }

  datatype Step =
    | FetchFails
    | FetchReturns
    | AcquireSlot
    | StopDispatch
    | Spawn
    | EndDispatch
    | DrainExpires
    | Receive
    | DrainEnds
    | OuterExpires
    | EmbedReturns(g: nat, reply: Option<seq<Embedded>>, cause: Cause)
    | PersistReturns(g: nat, ok: bool, applied: nat, cause: Cause)
    | CancelWork(g: nat)
    | Send(g: nat)
    | ReleaseSlot(g: nat)

  predicate Legal(cause: Cause, s: State) {
    cause.ContextDone? ==> s.WorkDone()
  }

  predicate WellDimensioned(results: seq<Embedded>) {
    forall r :: r in results ==> |r.vector| == DIMENSIONS
  }

  /** The persist call may stop after any number of rows; a bad dimension stops it before the first. */
  predicate PersistPossible(s: State, results: seq<Embedded>, ok: bool, applied: nat, cause: Cause) {
    if !WellDimensioned(results) then !ok && applied == 0 && cause.Genuine?
    else if ok then applied == |results|
    else applied <= |results| && Legal(cause, s)
  }

  predicate Shaped(cfg: Config, s: State) {
    |s.phases| == cfg.N() && |s.outcomes| == cfg.N() && s.taken <= |s.sent|
  }

  predicate Enabled(cfg: Config, s: State, step: Step)
    requires Shaped(cfg, s)
  {
    match step
    case FetchFails => s.main.Fetching?
    case FetchReturns => s.main.Fetching?
    case AcquireSlot => s.main.Dispatch? && s.main.i < cfg.N() && s.slots < cfg.conc
    case StopDispatch => s.main.Dispatch? && s.main.i < cfg.N() && s.WorkDone()
    case Spawn => s.main.Acquired? && s.main.i < cfg.N()
    case EndDispatch => s.main.Dispatch? && s.main.i >= cfg.N()
    case DrainExpires => s.main.Drain? && s.main.k < cfg.N() && s.outerDone
    case Receive => s.main.Drain? && s.main.k < cfg.N() && s.taken < |s.sent|
    case DrainEnds => s.main.Drain? && s.main.k >= cfg.N()
    case OuterExpires => !s.outerDone
    case EmbedReturns(g, reply, cause) =>
      g < cfg.N() && s.phases[g].Embedding? && (reply.None? ==> Legal(cause, s))
    case PersistReturns(g, ok, applied, cause) =>
      g < cfg.N() && s.phases[g].Persisting? && PersistPossible(s, s.phases[g].results, ok, applied, cause)
    case CancelWork(g) => g < cfg.N() && s.phases[g].Failing?
    case Send(g) => g < cfg.N() && s.phases[g].Sending? && |s.sent| - s.taken < cfg.N()
    case ReleaseSlot(g) => g < cfg.N() && s.phases[g].Releasing? && s.slots > 0
  }

  /** Returning runs the deferred `cancelWork`. */
  function Return(s: State, r: RunResult): State {
    s.(main := Returned(r), cancelled := true)
  }

  function Fail(s: State, g: nat, cause: Cause): State
    requires g < |s.phases| && g < |s.outcomes|
  {
    s.(phases := s.phases[g := Failing], outcomes := s.outcomes[g := Failed(cause, s.cancelled)])
  }

  function Apply(cfg: Config, s: State, step: Step): (s': State)
    requires Shaped(cfg, s) && Enabled(cfg, s, step)
    ensures Shaped(cfg, s')
  {
    match step
    case FetchFails => s.(main := Returned(FetchError))
    case FetchReturns => if cfg.N() == 0 then s.(main := Returned(Nil)) else s.(main := Dispatch(0))
    case AcquireSlot => s.(main := Acquired(s.main.i), slots := s.slots + 1)
    case StopDispatch => Return(s, ContextError)
    case Spawn => s.(main := Dispatch(s.main.i + 1), phases := s.phases[s.main.i := Embedding])
    case EndDispatch => s.(main := Drain(0))
    case DrainExpires => Return(s, ContextError)
    case Receive =>
      var m := s.sent[s.taken];
      var s' := s.(taken := s.taken + 1);
      if m.failed then Return(s', BatchError(m.batch)) else s'.(main := Drain(s.main.k + 1))
    case DrainEnds => Return(s, Nil)
    case OuterExpires => s.(outerDone := true)
    case EmbedReturns(g, reply, cause) =>
      if reply.None? then Fail(s, g, cause)
      else if |reply.value| != |cfg.batches[g]| then Fail(s, g, Genuine)
      else s.(phases := s.phases[g := Persisting(reply.value)])
    case PersistReturns(g, ok, applied, cause) =>
      if !ok then Fail(s, g, cause)
      else s.(phases := s.phases[g := if cfg.mode.SendAlways? then Sending(false) else Releasing],
              outcomes := s.outcomes[g := Persisted])
    case CancelWork(g) => s.(phases := s.phases[g := Sending(true)], cancelled := true)
    case Send(g) =>
      s.(sent := s.sent + [Message(g, s.phases[g].failed)], phases := s.phases[g := Releasing])
    case ReleaseSlot(g) => s.(phases := s.phases[g := Exited], slots := s.slots - 1)
  }

  /** A schedule, oldest step first, that can be executed from `s`. */
  predicate Runnable(cfg: Config, s: State, steps: seq<Step>)
    requires Shaped(cfg, s)
    decreases |steps|
  {
    steps == [] ||
    (Enabled(cfg, s, steps[0]) && Runnable(cfg, Apply(cfg, s, steps[0]), steps[1..]))
  }

  function Exec(cfg: Config, s: State, steps: seq<Step>): (end: State)
    requires Shaped(cfg, s) && Runnable(cfg, s, steps)
    ensures Shaped(cfg, end)
    decreases |steps|
  {
    if steps == [] then s else Exec(cfg, Apply(cfg, s, steps[0]), steps[1..])
  }

  lemma ExecCons(cfg: Config, s: State, step: Step, rest: seq<Step>)
    requires Shaped(cfg, s) && Enabled(cfg, s, step) && Runnable(cfg, Apply(cfg, s, step), rest)
    ensures Runnable(cfg, s, [step] + rest)
    ensures Exec(cfg, s, [step] + rest) == Exec(cfg, Apply(cfg, s, step), rest)
  {
    hide Enabled, Apply;
    assert ([step] + rest)[1..] == rest;
  }

  lemma {:induction false} ExecAppend(cfg: Config, s: State, a: seq<Step>, b: seq<Step>)
    requires Shaped(cfg, s) && Runnable(cfg, s, a) && Runnable(cfg, Exec(cfg, s, a), b)
    ensures Runnable(cfg, s, a + b) && Exec(cfg, s, a + b) == Exec(cfg, Exec(cfg, s, a), b)
    decreases |a|
  {
    hide Enabled, Apply;
    if a == [] {
      assert a + b == b;
    } else {
      ExecAppend(cfg, Apply(cfg, s, a[0]), a[1..], b);
      assert (a + b)[1..] == a[1..] + b;
    }
  }

  ghost predicate Reachable(cfg: Config, s: State) {
    exists steps :: Runnable(cfg, Init(cfg), steps) && Exec(cfg, Init(cfg), steps) == s
  }

  predicate AllPersisted(s: State) {
    forall b :: 0 <= b < |s.outcomes| ==> s.outcomes[b].Persisted?
  }
}
