/** The async_tasks status ledger, and the two workers that drive one row of it over a job's attempts. */
module TaskLedger {
  import opened SeqUtil

  datatype Status = Pending | Processing | Success | Error

  datatype Payload = Payload(name: string, message: string)

  /** The columns of a row that the workers write. */
  datatype Task = Task(status: Status, error: Option<Payload>, duration: Option<int>)

  /** What a Mark method reports; an SQL error means that nothing was written. */
  datatype MarkResult = Marked | NoRows | SqlError

  const GENERIC := "AsyncTaskError"
  const EMBEDDING := "EmbeddingError"

  function FirstNonEmpty(a: string, b: string): string { if a != "" then a else b }

  function Coalesce<T>(a: Option<T>, b: Option<T>): Option<T> { if a.Some? then a else b }

  class Store {
    var rows: map<string, Task>

    method UpdateStatus(id: string, status: Status, payload: Option<Payload>, fault: bool) returns (r: MarkResult)
      modifies this
      ensures r == if fault then SqlError else if id !in old(rows) then NoRows else Marked
      ensures rows == if r.Marked?
        then old(rows)[id := old(rows)[id].(status := status, error := Coalesce(payload, old(rows)[id].error))]
        else old(rows)
    {
      if fault {
        return SqlError;
      }
      if id !in rows {
        return NoRows;
      }
      rows := rows[id := rows[id].(status := status, error := Coalesce(payload, rows[id].error))];
      r := Marked;
    }

    method MarkProcessing(id: string, fault: bool) returns (r: MarkResult)
      modifies this
      ensures r == if fault then SqlError else if id !in old(rows) then NoRows else Marked
      ensures rows == if r.Marked? then old(rows)[id := old(rows)[id].(status := Processing)] else old(rows)
    {
      r := UpdateStatus(id, Processing, None, fault);
    }

    /** The affected-row count is not looked at: a missing row is reported as marked. */
    method MarkSuccess(id: string, duration: int, fault: bool) returns (r: MarkResult)
      modifies this
      ensures r == if fault then SqlError else Marked
      ensures rows == if !fault && id in old(rows)
        then old(rows)[id := old(rows)[id].(status := Success, duration := Some(duration))]
        else old(rows)
    {
      if fault {
        return SqlError;
      }
      if id in rows {
        rows := rows[id := rows[id].(status := Success, duration := Some(duration))];
      }
      r := Marked;
    }

    method MarkError(id: string, errType: string, message: string, fault: bool) returns (r: MarkResult)
      modifies this
      ensures r == if fault then SqlError else if id !in old(rows) then NoRows else Marked
      ensures rows == if r.Marked?
        then old(rows)[id := old(rows)[id].(status := Error,
               error := Some(Payload(if errType == "" then "AsyncTaskError" else errType, message)))]
        else old(rows)
    {
      var payload := Payload(FirstNonEmpty(errType, GENERIC), message);
      r := UpdateStatus(id, Error, Some(payload), fault);
    }

    /** A delete cascade by someone else. */
    method DeleteIf(id: string, gone: bool)
      modifies this
      ensures rows == if gone then old(rows) - {id} else old(rows)
    {
      if gone {
        rows := rows - {id};
      }
    }

    /** One call of Work; the environment decides what the SQL calls and `run` do. */
    method Work(worker: Worker, id: string, env: Env) returns (v: Verdict)
      modifies this
      ensures forall other :: other != id ==> Get(rows, other) == Get(old(rows), other)
      ensures var a := Attempt(worker, Get(old(rows), id), env); Get(rows, id) == a.row && v == a.verdict
    {
      DeleteIf(id, env.goneAtStart);
      var marked := MarkProcessing(id, env.startFault);
      if marked.NoRows? {
        return if worker.Embed? then JobCancelled else Failed;
      }
      if marked.SqlError? {
        return Failed;
      }
      DeleteIf(id, env.goneAtEnd);
      if env.run.RunFailed? {
        var _ := MarkError(id, worker.ErrorType(), env.run.message, env.endFault);
        return Failed;
      }
      var closed := MarkSuccess(id, env.duration, env.endFault);
      v := if closed.Marked? then Done else Failed;
    }

    /** River: attempts until nil, a cancellation, or the attempts are used up. */
    method RunJob(worker: Worker, id: string, envs: seq<Env>) returns (attempts: nat, v: Verdict)
      modifies this
      ensures var h := Job(worker, Get(old(rows), id), envs);
        Get(rows, id) == h.row && attempts == |h.traces| && v == h.verdict
    {
      attempts, v := 0, Failed;
      ghost var start := Get(rows, id);
      while attempts < |envs| && v.Failed?
        invariant attempts <= |envs|
        invariant v.Failed? ==>
          var rest := Job(worker, Get(rows, id), envs[attempts..]);
          var all := Job(worker, start, envs);
          all.row == rest.row && all.verdict == rest.verdict && |all.traces| == attempts + |rest.traces|
        invariant !v.Failed? ==>
          var all := Job(worker, start, envs);
          all.row == Get(rows, id) && all.verdict == v && |all.traces| == attempts
        decreases |envs| - attempts, v.Failed?
      {
        assert envs[attempts..][1..] == envs[attempts + 1..];
        v := Work(worker, id, envs[attempts]);
        attempts := attempts + 1;
      }
    }
  }

  // ---------- the specification of attempts and jobs ----------

  datatype Worker = Embed | Parse
  {
    function ErrorType(): string { if Embed? then EMBEDDING else GENERIC }
  }

  datatype RunOutcome = RunNil | RunFailed(message: string)

  datatype Env = Env(
    goneAtStart: bool, startFault: bool, run: RunOutcome, goneAtEnd: bool, endFault: bool, duration: int)

  datatype Verdict = Done | Failed | JobCancelled

  /** Writes that reached the row. */
  datatype Write = P | E(payload: Payload) | S

  datatype AttemptResult = AttemptResult(row: Option<Task>, trace: seq<Write>, verdict: Verdict)

  function Unless(gone: bool, row: Option<Task>): Option<Task> { if gone then None else row }

  function Attempt(worker: Worker, row: Option<Task>, env: Env): AttemptResult {
    var r0 := Unless(env.goneAtStart, row);
    if env.startFault then AttemptResult(r0, [], Failed)
    else if r0.None? then AttemptResult(None, [], if worker.Embed? then JobCancelled else Failed)
    else Close(worker, Unless(env.goneAtEnd, Some(r0.value.(status := Processing))), env)
  }

  function Close(worker: Worker, row: Option<Task>, env: Env): AttemptResult {
    match env.run
    case RunFailed(message) =>
      if env.endFault || row.None? then AttemptResult(row, [P], Failed)
      else
        var payload := Payload(worker.ErrorType(), message);
        AttemptResult(Some(row.value.(status := Error, error := Some(payload))), [P, E(payload)], Failed)
    case RunNil =>
      if env.endFault then AttemptResult(row, [P], Failed)
      else if row.None? then AttemptResult(None, [P], Done)
      else AttemptResult(Some(row.value.(status := Success, duration := Some(env.duration))), [P, S], Done)
  }

  datatype History = History(row: Option<Task>, traces: seq<seq<Write>>, verdict: Verdict)

  function Job(worker: Worker, row: Option<Task>, envs: seq<Env>): History
    decreases |envs|
  {
    if envs == [] then History(row, [], Failed)
    else
      var a := Attempt(worker, row, envs[0]);
      if !a.verdict.Failed? then History(a.row, [a.trace], a.verdict)
      else
        var rest := Job(worker, a.row, envs[1..]);
        History(rest.row, [a.trace] + rest.traces, rest.verdict)
  }

  // ---------- properties of whole jobs ----------

  predicate Shape(trace: seq<Write>) {
    trace == [] || trace == [P] || trace == [P, S] || (|trace| == 2 && trace[0].P? && trace[1].E?)
  }

  /** Every attempt applies nothing, P, P.E or P.S; S at most once, in the last attempt, which then returned nil. */
  lemma {:induction false} TraceShape(worker: Worker, row: Option<Task>, envs: seq<Env>)
    ensures var h := Job(worker, row, envs);
      && |h.traces| <= |envs|
      && (forall i :: 0 <= i < |h.traces| ==> Shape(h.traces[i]))
      && (forall i :: 0 <= i < |h.traces| && S in h.traces[i] ==>
            i == |h.traces| - 1 && h.verdict.Done? && h.traces[i] == [P, S])
    decreases |envs|
  {
    if envs != [] {
      TraceShape(worker, Attempt(worker, row, envs[0]).row, envs[1..]);
    }
  }

  /** A nil result with the row still there means success, and only a success or a vanished row gives nil. */
  lemma {:induction false} NilMeansSuccess(worker: Worker, row: Option<Task>, envs: seq<Env>)
    ensures var h := Job(worker, row, envs);
      h.verdict.Done? ==>
        && h.traces != []
        && (h.row.None? || (h.row.value.status.Success? && S in h.traces[|h.traces| - 1]))
    decreases |envs|
  {
    if envs != [] {
      NilMeansSuccess(worker, Attempt(worker, row, envs[0]).row, envs[1..]);
    }
  }

  /** The payload of the last E of a run of attempts. */
  function LastError(traces: seq<seq<Write>>): Option<Payload> {
    if traces == [] then None
    else
      var last := traces[|traces| - 1];
      if |last| == 2 && last[1].E? then Some(last[1].payload) else LastError(traces[..|traces| - 1])
  }

  lemma {:induction false} LastErrorCons(trace: seq<Write>, rest: seq<seq<Write>>)
    ensures LastError([trace] + rest) == Coalesce(LastError(rest), LastError([trace]))
  {
    var all := [trace] + rest;
    if rest == [] {
      assert all == [trace];
    } else {
      assert all[..|all| - 1] == [trace] + rest[..|rest| - 1];
      LastErrorCons(trace, rest[..|rest| - 1]);
    }
  }

  /**
   * While the row lives, its error column is the last failed attempt's payload, or what it was at the start:
   * it never returns to null, not even on success.
   */
  lemma {:induction false} ErrorColumn(worker: Worker, row: Option<Task>, envs: seq<Env>)
    ensures var h := Job(worker, row, envs);
      h.row.Some? ==> row.Some? && h.row.value.error == Coalesce(LastError(h.traces), row.value.error)
    decreases |envs|
  {
    if envs != [] {
      var a := Attempt(worker, row, envs[0]);
      assert LastError([a.trace][..0]) == None;
      if a.verdict.Failed? {
        var rest := Job(worker, a.row, envs[1..]);
        ErrorColumn(worker, a.row, envs[1..]);
        LastErrorCons(a.trace, rest.traces);
      }
    }
  }

  /** The error types, as the rows show them. */
  function TypeName(worker: Worker): string {
    match worker
    case Embed => "EmbeddingError"
    case Parse => "AsyncTaskError"
  }

  /** The attempt's `run` fails, and both of its writes to a living row get through. */
  predicate WritesError(env: Env) {
    !env.startFault && env.run.RunFailed? && !env.endFault
  }

  /** What one attempt leaves in a row that lives through it, by what happens in it. */
  lemma AttemptWrites(worker: Worker, task: Task, env: Env)
    requires !env.goneAtStart && !env.goneAtEnd
    ensures var row := Attempt(worker, Some(task), env).row;
      && row.Some?
      && row.value.error == (if WritesError(env) then Some(Payload(TypeName(worker), env.run.message)) else task.error)
      && row.value.duration ==
           (if !env.startFault && env.run.RunNil? && !env.endFault then Some(env.duration) else task.duration)
      && row.value.status ==
           (if env.startFault then task.status
            else if env.endFault then Processing
            else if env.run.RunNil? then Success
            else Error)
  {
  }

  /** The payload of the last attempt whose closing write of an error got through. */
  function LastFailure(worker: Worker, envs: seq<Env>): Option<Payload>
    decreases |envs|
  {
    if envs == [] then None
    else
      var last := envs[|envs| - 1];
      if WritesError(last) then Some(Payload(TypeName(worker), last.run.message))
      else LastFailure(worker, envs[..|envs| - 1])
  }

  lemma {:induction false} LastFailureCons(worker: Worker, env: Env, rest: seq<Env>)
    ensures LastFailure(worker, [env] + rest) == Coalesce(LastFailure(worker, rest), LastFailure(worker, [env]))
    decreases |rest|
  {
    var all := [env] + rest;
    if rest == [] {
      assert all == [env];
    } else {
      assert all[..|all| - 1] == [env] + rest[..|rest| - 1];
      LastFailureCons(worker, env, rest[..|rest| - 1]);
    }
  }

  /** A row that is there at the end was there throughout. */
  lemma SurvivesAttempt(worker: Worker, row: Option<Task>, env: Env)
    ensures var a := Attempt(worker, row, env);
      a.row.Some? ==> row.Some? && !env.goneAtStart && (env.startFault || !env.goneAtEnd)
    ensures var a := Attempt(worker, row, env);
      a.row.Some? ==>
        a.row.value.error ==
          if WritesError(env) then Some(Payload(TypeName(worker), env.run.message)) else row.value.error
    ensures var a := Attempt(worker, row, env);
      a.row.Some? && a.verdict.Done? ==> a.row.value.duration == Some(env.duration)
  {
  }

  /**
   * Over a whole job, while the row lives: its error column has the type name of the worker and the message of
   * the last attempt that failed and could say so, and after a nil its duration is that of the last attempt.
   */
  lemma {:induction false} JobWrites(worker: Worker, row: Option<Task>, envs: seq<Env>)
    ensures var h := Job(worker, row, envs);
      && |h.traces| <= |envs|
      && (h.row.Some? ==>
            row.Some? && h.row.value.error == Coalesce(LastFailure(worker, envs[..|h.traces|]), row.value.error))
      && (h.row.Some? && h.verdict.Done? ==>
            h.traces != [] && h.row.value.duration == Some(envs[|h.traces| - 1].duration))
    decreases |envs|
  {
    hide Attempt, WritesError, LastFailure;
    NoFailure(worker);
    if envs == [] {
      assert envs[..0] == [];
    } else {
      var a := Attempt(worker, row, envs[0]);
      var h := Job(worker, row, envs);
      SurvivesAttempt(worker, row, envs[0]);
      OneFailure(worker, envs[0]);
      if a.verdict.Failed? {
        var rest := Job(worker, a.row, envs[1..]);
        JobWrites(worker, a.row, envs[1..]);
        assert envs[..|h.traces|] == [envs[0]] + envs[1..][..|rest.traces|];
        LastFailureCons(worker, envs[0], envs[1..][..|rest.traces|]);
      } else {
        assert envs[..1] == [envs[0]];
      }
    }
  }

  lemma NoFailure(worker: Worker)
    ensures LastFailure(worker, []) == None
  {
  }

  lemma OneFailure(worker: Worker, env: Env)
    ensures LastFailure(worker, [env]) ==
      if WritesError(env) then Some(Payload(TypeName(worker), env.run.message)) else None
  {
    assert [env][..0] == [];
  }

  /** An attempt leaves the row in processing exactly when its closing write failed, or it never got to write. */
  lemma AttemptLeavesProcessing(worker: Worker, row: Option<Task>, env: Env)
    ensures var a := Attempt(worker, row, env);
      (a.row.Some? && a.row.value.status.Processing?) <==>
        && row.Some? && !env.goneAtStart
        && (if env.startFault then row.value.status.Processing? else !env.goneAtEnd && env.endFault)
  {
  }

  function StatusAfter(status: Status, trace: seq<Write>): Status {
    if trace == [] then status
    else match trace[|trace| - 1]
      case P => Processing
      case E(_) => Error
      case S => Success
  }

  function FinalStatus(status: Status, traces: seq<seq<Write>>): Status
    decreases |traces|
  {
    if traces == [] then status else FinalStatus(StatusAfter(status, traces[0]), traces[1..])
  }

  /** One attempt leaves a living row in the status of its last write, and says by its trace which write failed. */
  lemma AttemptStatus(worker: Worker, row: Option<Task>, env: Env)
    ensures var a := Attempt(worker, row, env);
      && (a.row.Some? ==> row.Some? && a.row.value.status == StatusAfter(row.value.status, a.trace))
      && (a.row.Some? && a.trace == [P] ==> env.endFault)
      && (a.row.Some? && a.trace == [] ==> env.startFault)
  {
  }

  /**
   * While the row lives, its status is that of the last attempt that wrote anything, so it is left in
   * processing exactly when that attempt stopped after P; and it stopped there because its closing write failed.
   */
  lemma {:induction false} StatusOfJob(worker: Worker, row: Option<Task>, envs: seq<Env>)
    ensures var h := Job(worker, row, envs);
      && |h.traces| <= |envs|
      && (h.row.Some? ==>
        && row.Some? && h.row.value.status == FinalStatus(row.value.status, h.traces)
        && (forall i :: 0 <= i < |h.traces| && h.traces[i] == [P] ==> envs[i].endFault)
        && (forall i :: 0 <= i < |h.traces| && h.traces[i] == [] ==> envs[i].startFault))
    decreases |envs|
  {
    hide Attempt, StatusAfter;
    if envs != [] {
      var a := Attempt(worker, row, envs[0]);
      var h := Job(worker, row, envs);
      AttemptStatus(worker, row, envs[0]);
      if a.verdict.Failed? {
        StatusOfJob(worker, a.row, envs[1..]);
        assert h.traces[1..] == Job(worker, a.row, envs[1..]).traces;
      }
    }
  }

  // ---------- a row that is gone ----------

  /**
   * The embed worker recognises the wrapped no-rows error and cancels at the first attempt whose statement gets
   * through. The parse worker compares the wrapped error for identity, which never holds: it is retried until
   * its attempts are used up, whatever happens in them.
   */
  lemma {:induction false} MissingRow(envs: seq<Env>)
    ensures Job(Embed, None, envs).verdict.JobCancelled? <==> exists i :: 0 <= i < |envs| && !envs[i].startFault
    ensures envs != [] && !envs[0].startFault ==> Job(Embed, None, envs) == History(None, [[]], JobCancelled)
    ensures |Job(Parse, None, envs).traces| == |envs| && Job(Parse, None, envs).verdict.Failed?
    decreases |envs|
  {
    if envs != [] {
      MissingRow(envs[1..]);
      assert envs[0].startFault ==>
        forall i :: 0 <= i < |envs| && !envs[i].startFault ==> !envs[1..][i - 1].startFault;
      assert forall i :: 0 <= i < |envs| - 1 ==> envs[1..][i] == envs[i + 1];
    }
  }

  lemma {:induction false} ParseNeverCancels(row: Option<Task>, envs: seq<Env>)
    ensures !Job(Parse, row, envs).verdict.JobCancelled?
    decreases |envs|
  {
    if envs != [] {
      ParseNeverCancels(Attempt(Parse, row, envs[0]).row, envs[1..]);
    }
  }
}

/** The ledger row of an embed job whose `run` is the protocol of EmbedProtocol. */
module EmbedLedger {
  import opened SeqUtil
  import opened EmbedProtocol
  import opened EmbedSafety
  import opened EmbedContract
  import L = TaskLedger

  /**
   * An attempt's environment as the protocol leaves it: `run` gave the state's result, and the closing write,
   * which uses the same context, fails if that context has expired.
   */
  predicate From(env: L.Env, s: State) {
    && s.main.Returned?
    && (s.main.result.Nil? <==> env.run.RunNil?)
    && (s.outerDone ==> env.endFault)
  }

  /**
   * The code as written, with a batch to embed: even an attempt that embedded everything ends with a failed
   * closing write, its row in "processing", and a retry.
   */
  lemma EmbeddedButProcessing(cfg: Config, s: State, row: L.Task, env: L.Env)
    requires cfg.mode.SendOnFailure? && cfg.N() > 0 && Reachable(cfg, s) && From(env, s) && AllPersisted(s)
    requires !env.goneAtStart && !env.startFault && !env.goneAtEnd
    ensures L.Attempt(L.Embed, Some(row), env) == L.AttemptResult(Some(row.(status := L.Processing)), [L.P], L.Failed)
  {
    LiteralNeverReturnsNil(cfg, s);
    ReachableInv(cfg, s);
    if !s.outerDone {
      FetchErrorPersistsNothing(cfg, s);
      RootCause(cfg, s);
    }
  }

  /** A failed fetch returns before any goroutine is started. */
  lemma FetchErrorPersistsNothing(cfg: Config, s: State)
    requires cfg.N() > 0 && Reachable(cfg, s) && AllPersisted(s)
    ensures s.main != Returned(FetchError)
  {
    var steps :| Runnable(cfg, Init(cfg), steps) && Exec(cfg, Init(cfg), steps) == s;
    InitInv(cfg);
    FetchErrorRun(cfg, Init(cfg), steps);
  }

  lemma {:induction false} FetchErrorRun(cfg: Config, s: State, steps: seq<Step>)
    requires Inv(cfg, s) && Runnable(cfg, s, steps) && cfg.N() > 0
    requires s.main == Returned(FetchError) ==> s.phases[0].Idle?
    ensures Exec(cfg, s, steps).main == Returned(FetchError) ==> Exec(cfg, s, steps).outcomes[0].Pending?
    decreases |steps|
  {
    if steps == [] {
      assert OutcomeOk(s.phases[0], s.outcomes[0]);
    } else {
      StepInv(cfg, s, steps[0]);
      FetchErrorRun(cfg, Apply(cfg, s, steps[0]), steps[1..]);
    }
  }

  /**
   * Over all attempts of a job, each with batches of its own but at least one, the code as written never marks
   * success.
   */
  lemma {:induction false} NeverSuccess(cfgs: seq<Config>, row: Option<L.Task>, envs: seq<L.Env>, ends: seq<State>)
    requires |cfgs| == |ends| == |envs|
    requires forall i :: 0 <= i < |envs| ==>
      && cfgs[i].mode.SendOnFailure? && cfgs[i].N() > 0
      && Reachable(cfgs[i], ends[i]) && From(envs[i], ends[i])
    ensures var h := L.Job(L.Embed, row, envs);
      !h.verdict.Done? && forall i :: 0 <= i < |h.traces| ==> L.S !in h.traces[i]
    decreases |envs|
  {
    if envs != [] {
      LiteralNeverReturnsNil(cfgs[0], ends[0]);
      NeverSuccess(cfgs[1..], L.Attempt(L.Embed, row, envs[0]).row, envs[1..], ends[1..]);
    }
  }
}
