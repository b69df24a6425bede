/** The ledger row and the chunk tables of one parse job, attempt by attempt. */
module ParseLedger {
  import opened SeqUtil
  import opened ParseStore
  import L = TaskLedger

  /** The attempt gets to `run`: its row is there and could be marked. */
  predicate Ran(row: Option<L.Task>, env: L.Env) {
    !env.startFault && L.Unless(env.goneAtStart, row).Some?
  }

  /** Both describe one attempt: `run` returns nil exactly when the links went in, and the ledger is closed next. */
  predicate SameAttempt(row: Option<L.Task>, env: L.Env, p: Env) {
    if Ran(row, env) then
      && (env.run.RunNil? <==> StageOf(p).Linked?)
      && (StageOf(p).Linked? ==> p.closeFault == env.endFault)
    else StageOf(p).NotPersisted?
  }

  predicate SameJob(row: Option<L.Task>, envs: seq<L.Env>, ps: seq<Env>)
    decreases |envs|
  {
    && |envs| == |ps|
    && (envs != [] ==>
          var a := L.Attempt(L.Parse, row, envs[0]);
          && SameAttempt(row, envs[0], ps[0])
          && (a.verdict.Failed? ==> SameJob(a.row, envs[1..], ps[1..])))
  }

  /** Attempts that had their links in and stopped at P: the closing write failed, or the row was gone by then. */
  function StoppedLinked(traces: seq<seq<L.Write>>, ps: seq<Env>): nat
    requires |traces| <= |ps|
    decreases |traces|
  {
    if traces == [] then 0
    else (if traces[0] == [L.P] && StageOf(ps[0]).Linked? then 1 else 0) + StoppedLinked(traces[1..], ps[1..])
  }

  function Successes(traces: seq<seq<L.Write>>): nat
    decreases |traces|
  {
    if traces == [] then 0 else (if traces[0] == [L.P, L.S] then 1 else 0) + Successes(traces[1..])
  }

  /** Links went in exactly if the attempt stopped at P with them or wrote success; and it ends both or neither. */
  lemma SameEnd(row: Option<L.Task>, env: L.Env, p: Env)
    requires SameAttempt(row, env, p)
    ensures var a := L.Attempt(L.Parse, row, env);
      && (StageOf(p).Linked? <==> (a.trace == [L.P] && StageOf(p).Linked?) || a.trace == [L.P, L.S])
      && (a.verdict.Failed? <==> !Ends(p))
  {
  }

  /** Over a job, the copies are the attempts that stopped at P with their links in, and the one that wrote success. */
  lemma {:induction false} CopiesByTraces(row: Option<L.Task>, envs: seq<L.Env>, ps: seq<Env>)
    requires SameJob(row, envs, ps)
    ensures var h := L.Job(L.Parse, row, envs);
      |h.traces| <= |ps| && Count(ps, Linked) == StoppedLinked(h.traces, ps) + Successes(h.traces)
    decreases |envs|
  {
    hide L.Attempt, SameAttempt, StageOf;
    if envs != [] {
      var a := L.Attempt(L.Parse, row, envs[0]);
      var h := L.Job(L.Parse, row, envs);
      SameEnd(row, envs[0], ps[0]);
      if a.verdict.Failed? {
        CopiesByTraces(a.row, envs[1..], ps[1..]);
        assert h.traces[1..] == L.Job(L.Parse, a.row, envs[1..]).traces;
      } else {
        assert h.traces[1..] == [];
      }
    }
  }

  lemma {:induction false} SuccessesIff(traces: seq<seq<L.Write>>)
    requires forall i :: 0 <= i < |traces| ==> L.Shape(traces[i])
    requires forall i :: 0 <= i < |traces| && L.S in traces[i] ==> i == |traces| - 1
    ensures Successes(traces) == if traces != [] && L.S in traces[|traces| - 1] then 1 else 0
    decreases |traces|
  {
    if traces != [] {
      SuccessesIff(traces[1..]);
    }
  }

  /** The status only becomes success by a last write that says so. */
  lemma {:induction false} SuccessIsWritten(status: L.Status, traces: seq<seq<L.Write>>)
    requires L.FinalStatus(status, traces) == L.Success && status != L.Success
    ensures exists i :: 0 <= i < |traces| && L.S in traces[i]
    decreases |traces|
  {
    var after := L.StatusAfter(status, traces[0]);
    if after == L.Success {
      assert L.S in traces[0];
    } else {
      SuccessIsWritten(after, traces[1..]);
      var i :| 0 <= i < |traces| - 1 && L.S in traces[1..][i];
      assert L.S in traces[i + 1];
    }
  }

  /**
   * The ledger and the tables together. The file gains k complete copies; a job that ended with nil, its row
   * still there, had exactly k - 1 attempts that stopped at P with their links in, and a job that did not end had
   * k of them; a row that was brought to success has at least one copy behind it.
   */
  lemma CopiesBehindLedger(
      db: Db, texts: seq<string>, file: string, row: Option<L.Task>, envs: seq<L.Env>, ps: seq<Env>)
    requires Consistent(db) && SameJob(row, envs, ps)
    ensures var (h, k) := (L.Job(L.Parse, row, envs), Count(ps, Linked));
      && |h.traces| <= |ps|
      && FileAfter(db, texts, file, ps) == LinkedChunks(db, file) + Repeat(Copy(texts), k)
      && (h.verdict.Done? && h.row.Some? ==> k == StoppedLinked(h.traces, ps) + 1)
      && (!h.verdict.Done? ==> k == StoppedLinked(h.traces, ps))
      && (h.row.Some? && h.row.value.status.Success? && !(row.Some? && row.value.status.Success?) ==> k >= 1)
  {
    hide L.Job, Count, LinkedChunks, Job, Copy, SameJob, StoppedLinked, Successes;
    var h := L.Job(L.Parse, row, envs);
    JobEffect(db, texts, file, ps);
    CopiesByTraces(row, envs, ps);
    L.TraceShape(L.Parse, row, envs);
    SuccessesIff(h.traces);
    L.NilMeansSuccess(L.Parse, row, envs);
    L.StatusOfJob(L.Parse, row, envs);
    if h.row.Some? && h.row.value.status.Success? && !row.value.status.Success? {
      SuccessIsWritten(row.value.status, h.traces);
    }
  }
}
