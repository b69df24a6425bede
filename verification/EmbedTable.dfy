/** The embeddings table and the upsert that writes it. */
module EmbedTable {
  import opened Embeddings
  import opened SeqUtil
  import opened EmbedProtocol

  /** The columns of one row; the key is the chunk id. */
  datatype Row = Row(vector: Vector, model: string, owner: string)

  type Table = map<string, Row>

  /** ON CONFLICT (chunk_id) DO UPDATE: an existing row keeps its owner. */
  function Upsert(table: Table, e: Embedded, model: string, owner: string): Table {
    table[e.chunkId :=
      if e.chunkId in table then table[e.chunkId].(vector := e.vector, model := model)
      else Row(e.vector, model, owner)]
  }

  function UpsertAll(table: Table, rows: seq<Embedded>, model: string, owner: string): Table
    decreases |rows|
  {
    if rows == [] then table
    else Upsert(UpsertAll(table, rows[..|rows| - 1], model, owner), rows[|rows| - 1], model, owner)
  }

  lemma UpsertSnoc(table: Table, rows: seq<Embedded>, e: Embedded, model: string, owner: string)
    ensures UpsertAll(table, rows + [e], model, owner) == Upsert(UpsertAll(table, rows, model, owner), e, model, owner)
  {
    assert (rows + [e])[..|rows|] == rows;
  }

  /** The store behind `embedAndPersist`; the SQL outcome of each statement is given by the environment. */
  class EmbeddingStore {
    var rows: Table
    const model: string

    constructor (model: string)
      ensures rows == map[] && this.model == model
    {
      this.model := model;
      rows := map[];
    }

    /** `good` is how many statements of the batch the server applies before it reports an error. */
    method PersistEmbeddings(results: seq<Embedded>, owner: string, good: nat) returns (ok: bool)
      modifies this
      ensures ok <==> WellDimensioned(results) && good >= |results|
      ensures rows == UpsertAll(old(rows),
                if !WellDimensioned(results) then [] else results[..if good < |results| then good else |results|],
                model, owner)
    {
      var queued: seq<Embedded> := [];
      for i := 0 to |results|
        invariant queued == results[..i] && WellDimensioned(queued)
        invariant rows == old(rows)
      {
        if |results[i].vector| != DIMENSIONS {
          assert results[i] in results;
          return false;
        }
        queued := queued + [results[i]];
      }
      assert queued == results;
      for i := 0 to |queued|
        invariant i <= good
        invariant rows == UpsertAll(old(rows), results[..i], model, owner)
      {
        if i >= good {
          return false;
        }
        assert results[..i + 1] == results[..i] + [results[i]];
        UpsertSnoc(old(rows), results[..i], results[i], model, owner);
        rows := Upsert(rows, results[i], model, owner);
      }
      ok := true;
      assert results[..|results|] == results;
    }

    /** The whole of one batch: embed, compare the count, persist. */
    method EmbedAndPersist(batch: seq<Chunk>, reply: Option<seq<Embedded>>, owner: string, good: nat) returns (ok: bool)
      modifies this
      ensures ok <==> reply.Some? && |reply.value| == |batch| && WellDimensioned(reply.value) && good >= |batch|
      ensures ok ==> rows == UpsertAll(old(rows), reply.value, model, owner)
      ensures rows == if reply.None? || |reply.value| != |batch| || !WellDimensioned(reply.value) then old(rows)
                      else UpsertAll(old(rows), reply.value[..if good < |batch| then good else |batch|], model, owner)
    {
      if reply.None? || |reply.value| != |batch| {
        return false;
      }
      ok := PersistEmbeddings(reply.value, owner, good);
      assert reply.value[..|reply.value|] == reply.value;
    }
  }
}

/**
 * A job's attempts over one shared table: goroutines left over from a returned attempt keep running
 * beside the next one.
 */
module EmbedJob {
  import opened Embeddings
  import opened SeqUtil
  import opened Batching
  import opened EmbedProtocol
  import opened EmbedSafety
  import opened EmbedTable

  /**
   * A deterministic embedder: chunk rows never change once written, so the vector of a chunk depends on
   * nothing but its id.
   */
  datatype World = World(vectorOf: string -> Vector, model: string, owner: string)

  datatype Attempt = Attempt(cfg: Config, state: State)

  datatype Job = Job(attempts: seq<Attempt>, table: Table)

  datatype JobStep =
    | Start(cfg: Config)
    | Act(a: nat, step: Step)

  predicate Shapely(job: Job) {
    forall a :: 0 <= a < |job.attempts| ==> Shaped(job.attempts[a].cfg, job.attempts[a].state)
  }

  function Targets(w: World, batch: seq<Chunk>): (r: seq<Embedded>)
    ensures |r| == |batch|
    ensures forall i :: 0 <= i < |batch| ==> r[i] == Embedded(batch[i].id, w.vectorOf(batch[i].id))
  {
    seq(|batch|, i requires 0 <= i < |batch| => Embedded(batch[i].id, w.vectorOf(batch[i].id)))
  }

  /** The rows a step writes to the table. */
  function Writes(s: State, step: Step): seq<Embedded>
    requires step.PersistReturns? ==>
      step.g < |s.phases| && s.phases[step.g].Persisting? && step.applied <= |s.phases[step.g].results|
  {
    if step.PersistReturns? then s.phases[step.g].results[..step.applied] else []
  }

  /** A retry starts only after the previous attempt returned an error; embedder replies are the targets. */
  predicate JobEnabled(w: World, job: Job, step: JobStep)
    requires Shapely(job)
  {
    match step
    case Start(cfg) =>
      job.attempts == [] ||
      var last := job.attempts[|job.attempts| - 1].state.main;
      last.Returned? && !last.result.Nil?
    case Act(a, st) =>
      && a < |job.attempts|
      && Enabled(job.attempts[a].cfg, job.attempts[a].state, st)
      && (st.EmbedReturns? && st.reply.Some? ==> st.reply.value == Targets(w, job.attempts[a].cfg.batches[st.g]))
  }

  function JobApply(w: World, job: Job, step: JobStep): (job': Job)
    requires Shapely(job) && JobEnabled(w, job, step)
    ensures Shapely(job')
  {
    match step
    case Start(cfg) => job.(attempts := job.attempts + [Attempt(cfg, Init(cfg))])
    case Act(a, st) =>
      var at := job.attempts[a];
      Job(job.attempts[a := at.(state := Apply(at.cfg, at.state, st))],
          UpsertAll(job.table, Writes(at.state, st), w.model, w.owner))
  }

  predicate JobRunnable(w: World, job: Job, steps: seq<JobStep>)
    requires Shapely(job)
    decreases |steps|
  {
    steps == [] || (JobEnabled(w, job, steps[0]) && JobRunnable(w, JobApply(w, job, steps[0]), steps[1..]))
  }

  function JobExec(w: World, job: Job, steps: seq<JobStep>): (end: Job)
    requires Shapely(job) && JobRunnable(w, job, steps)
    ensures Shapely(end)
    decreases |steps|
  {
    if steps == [] then job else JobExec(w, JobApply(w, job, steps[0]), steps[1..])
  }

  // ---------- old or target ----------

  /** What the row of a chunk is once it has been embedded. */
  function TargetRow(w: World, was: Table, id: string): Row {
    if id in was then was[id].(vector := w.vectorOf(id), model := w.model)
    else Row(w.vectorOf(id), w.model, w.owner)
  }

  predicate IsTarget(w: World, was: Table, table: Table, id: string) {
    Get(table, id) == Some(TargetRow(w, was, id))
  }

  predicate IsTargetOrOld(w: World, was: Table, table: Table, id: string) {
    Get(table, id) == Get(was, id) || IsTarget(w, was, table, id)
  }

  ghost predicate TargetRows(w: World, rows: seq<Embedded>) {
    forall i :: 0 <= i < |rows| ==> rows[i].vector == w.vectorOf(rows[i].chunkId)
  }

  predicate Mentions(rows: seq<Embedded>, id: string) {
    exists i :: 0 <= i < |rows| && rows[i].chunkId == id
  }

  /** Writing target rows moves exactly the mentioned chunks to their target. */
  lemma {:induction false} UpsertTargets(w: World, was: Table, table: Table, rows: seq<Embedded>, id: string)
    requires TargetRows(w, rows) && IsTargetOrOld(w, was, table, id)
    ensures var after := UpsertAll(table, rows, w.model, w.owner);
      if Mentions(rows, id) then IsTarget(w, was, after, id) else Get(after, id) == Get(table, id)
  {
    if rows != [] {
      var n := |rows| - 1;
      UpsertTargets(w, was, table, rows[..n], id);
      if Mentions(rows[..n], id) {
        var i :| 0 <= i < n && rows[..n][i].chunkId == id;
        assert rows[i].chunkId == id;
      }
      if Mentions(rows, id) && rows[n].chunkId != id {
        var i :| 0 <= i < |rows| && rows[i].chunkId == id;
        assert rows[..n][i].chunkId == id;
      }
    }
  }

  predicate HasChunk(batches: seq<seq<Chunk>>, id: string) {
    exists b, i :: 0 <= b < |batches| && 0 <= i < |batches[b]| && batches[b][i].id == id
  }

  predicate InJob(job: Job, id: string) {
    exists a :: 0 <= a < |job.attempts| && HasChunk(job.attempts[a].cfg.batches, id)
  }

  predicate InBatch(batch: seq<Chunk>, id: string) {
    exists i :: 0 <= i < |batch| && batch[i].id == id
  }

  ghost predicate AttemptInv(w: World, was: Table, table: Table, at: Attempt) {
    && Inv(at.cfg, at.state)
    && forall b :: 0 <= b < at.cfg.N() ==>
        && (at.state.phases[b].Persisting? ==>
              at.state.phases[b].results == Targets(w, at.cfg.batches[b]))
        && (at.state.outcomes[b].Persisted? ==>
              forall id :: InBatch(at.cfg.batches[b], id) ==> IsTarget(w, was, table, id))
  }

  ghost predicate JobInv(w: World, was: Table, job: Job) {
    && (forall a :: 0 <= a < |job.attempts| ==> AttemptInv(w, was, job.table, job.attempts[a]))
    && (forall id :: IsTargetOrOld(w, was, job.table, id))
    && (forall id :: !InJob(job, id) ==> Get(job.table, id) == Get(was, id))
  }

  lemma TargetsAreTargets(w: World, batch: seq<Chunk>, n: nat)
    requires n <= |batch|
    ensures TargetRows(w, Targets(w, batch)[..n])
    ensures forall id :: Mentions(Targets(w, batch)[..n], id) ==> InBatch(batch, id)
    ensures n == |batch| ==> forall id :: InBatch(batch, id) ==> Mentions(Targets(w, batch)[..n], id)
  {
    var rows := Targets(w, batch)[..n];
    forall id | Mentions(rows, id) ensures InBatch(batch, id) {
      var i :| 0 <= i < |rows| && rows[i].chunkId == id;
      assert batch[i].id == id;
    }
    forall id | n == |batch| && InBatch(batch, id) ensures Mentions(rows, id) {
      var i :| 0 <= i < |batch| && batch[i].id == id;
      assert rows[i].chunkId == id;
    }
  }

  /** The table effect of one goroutine step. */
  lemma ActTable(w: World, was: Table, job: Job, a: nat, st: Step)
    requires Shapely(job) && JobInv(w, was, job) && JobEnabled(w, job, Act(a, st))
    ensures var job' := JobApply(w, job, Act(a, st));
      && (forall id :: IsTargetOrOld(w, was, job'.table, id))
      && (forall id :: IsTarget(w, was, job.table, id) ==> IsTarget(w, was, job'.table, id))
      && (forall id :: !InJob(job, id) ==> Get(job'.table, id) == Get(was, id))
      && (st.PersistReturns? && st.ok ==>
            forall id :: InBatch(job.attempts[a].cfg.batches[st.g], id) ==> IsTarget(w, was, job'.table, id))
  {
    var at := job.attempts[a];
    assert AttemptInv(w, was, job.table, at);
    if st.PersistReturns? {
      var batch := at.cfg.batches[st.g];
      var rows := Writes(at.state, st);
      TargetsAreTargets(w, batch, st.applied);
      forall id
        ensures var after := UpsertAll(job.table, rows, w.model, w.owner);
          if Mentions(rows, id) then IsTarget(w, was, after, id) else Get(after, id) == Get(job.table, id)
      {
        UpsertTargets(w, was, job.table, rows, id);
      }
      forall id | Mentions(rows, id) ensures InJob(job, id) {
        var i :| 0 <= i < |batch| && batch[i].id == id;
        assert at.cfg.batches[st.g][i].id == id;
        assert HasChunk(at.cfg.batches, id);
      }
      forall id ensures IsTargetOrOld(w, was, JobApply(w, job, Act(a, st)).table, id) {
        assert IsTargetOrOld(w, was, job.table, id);
        assert Mentions(rows, id) || !Mentions(rows, id);
      }
    }
  }

  lemma ActAttempt(w: World, was: Table, table: Table, table': Table, at: Attempt, st: Step)
    requires AttemptInv(w, was, table, at) && Enabled(at.cfg, at.state, st)
    requires st.EmbedReturns? && st.reply.Some? ==> st.reply.value == Targets(w, at.cfg.batches[st.g])
    requires forall id :: IsTarget(w, was, table, id) ==> IsTarget(w, was, table', id)
    requires st.PersistReturns? && st.ok ==>
      forall id :: InBatch(at.cfg.batches[st.g], id) ==> IsTarget(w, was, table', id)
    ensures AttemptInv(w, was, table', at.(state := Apply(at.cfg, at.state, st)))
  {
    StepInv(at.cfg, at.state, st);
  }

  lemma InJobKept(w: World, job: Job, step: JobStep, id: string)
    requires Shapely(job) && JobEnabled(w, job, step) && InJob(job, id)
    ensures InJob(JobApply(w, job, step), id)
  {
    var a :| 0 <= a < |job.attempts| && HasChunk(job.attempts[a].cfg.batches, id);
    assert HasChunk(JobApply(w, job, step).attempts[a].cfg.batches, id);
  }

  lemma AllAttempts(w: World, was: Table, job: Job, a: nat, st: Step)
    requires Shapely(job) && JobInv(w, was, job) && JobEnabled(w, job, Act(a, st))
    ensures var job' := JobApply(w, job, Act(a, st));
      forall k :: 0 <= k < |job'.attempts| ==> AttemptInv(w, was, job'.table, job'.attempts[k])
  {
    var job' := JobApply(w, job, Act(a, st));
    ActTable(w, was, job, a, st);
    ActAttempt(w, was, job.table, job'.table, job.attempts[a], st);
    forall k | 0 <= k < |job'.attempts| ensures AttemptInv(w, was, job'.table, job'.attempts[k]) {
      assert AttemptInv(w, was, job.table, job.attempts[k]);
      if k != a { AttemptKept(w, was, job.table, job'.table, job.attempts[k]); }
    }
  }

  lemma AttemptKept(w: World, was: Table, table: Table, table': Table, at: Attempt)
    requires AttemptInv(w, was, table, at)
    requires forall id :: IsTarget(w, was, table, id) ==> IsTarget(w, was, table', id)
    ensures AttemptInv(w, was, table', at)
  {
  }

  lemma JobStepInv(w: World, was: Table, job: Job, step: JobStep)
    requires Shapely(job) && JobInv(w, was, job) && JobEnabled(w, job, step)
    ensures JobInv(w, was, JobApply(w, job, step))
    ensures forall id :: IsTarget(w, was, job.table, id) ==> IsTarget(w, was, JobApply(w, job, step).table, id)
  {
    forall id | InJob(job, id) ensures InJob(JobApply(w, job, step), id) {
      InJobKept(w, job, step, id);
    }
    match step
    case Start(cfg) =>
      InitInv(cfg);
    case Act(a, st) =>
      ActTable(w, was, job, a, st);
      AllAttempts(w, was, job, a, st);
  }

  lemma {:induction false} JobRunInv(w: World, was: Table, job: Job, steps: seq<JobStep>)
    requires Shapely(job) && JobInv(w, was, job) && JobRunnable(w, job, steps)
    ensures JobInv(w, was, JobExec(w, job, steps))
    ensures forall id :: IsTarget(w, was, job.table, id) ==> IsTarget(w, was, JobExec(w, job, steps).table, id)
    decreases |steps|
  {
    if steps != [] {
      JobStepInv(w, was, job, steps[0]);
      JobRunInv(w, was, JobApply(w, job, steps[0]), steps[1..]);
    }
  }

  /**
   * Whatever fails and however the goroutines of all attempts interleave: chunks of the file hold their old
   * row or their target row, every other row is untouched, and a chunk at its target stays there.
   */
  lemma OldOrTarget(w: World, was: Table, before: seq<JobStep>, after: seq<JobStep>)
    requires JobRunnable(w, Job([], was), before)
    requires JobRunnable(w, JobExec(w, Job([], was), before), after)
    ensures var mid := JobExec(w, Job([], was), before);
      var end := JobExec(w, mid, after);
      && (forall id :: IsTargetOrOld(w, was, end.table, id))
      && (forall id :: !InJob(end, id) ==> Get(end.table, id) == Get(was, id))
      && (forall id :: IsTarget(w, was, mid.table, id) ==> IsTarget(w, was, end.table, id))
  {
    JobRunInv(w, was, Job([], was), before);
    JobRunInv(w, was, JobExec(w, Job([], was), before), after);
  }

  /** The table a loop over the chunks, one after another, would leave. */
  function Sequential(w: World, was: Table, chunks: seq<Chunk>): Table {
    UpsertAll(was, Targets(w, chunks), w.model, w.owner)
  }

  /**
   * Convergence: once some attempt has persisted all its batches, and no attempt saw other chunks, the table
   * is the one a sequential loop leaves, whatever failed attempts and leftovers did in between.
   */
  lemma Converges(w: World, was: Table, steps: seq<JobStep>, a: nat)
    requires JobRunnable(w, Job([], was), steps)
    requires var end := JobExec(w, Job([], was), steps);
      && a < |end.attempts| && AllPersisted(end.attempts[a].state)
      && forall id :: InJob(end, id) ==> HasChunk(end.attempts[a].cfg.batches, id)
    ensures var end := JobExec(w, Job([], was), steps);
      end.table == Sequential(w, was, Flatten(end.attempts[a].cfg.batches))
  {
    JobRunInv(w, was, Job([], was), steps);
    var end := JobExec(w, Job([], was), steps);
    var at := end.attempts[a];
    var chunks := Flatten(at.cfg.batches);
    var rows := Targets(w, chunks);
    assert rows[..|chunks|] == rows;
    TargetsAreTargets(w, chunks, |chunks|);
    var seqTable := Sequential(w, was, chunks);
    assert AttemptInv(w, was, end.table, at);
    forall id ensures Get(end.table, id) == Get(seqTable, id) {
      UpsertTargets(w, was, was, rows, id);
      FlattenHasChunk(at.cfg.batches, id);
      if HasChunk(at.cfg.batches, id) {
        var b, i :| 0 <= b < |at.cfg.batches| && 0 <= i < |at.cfg.batches[b]| && at.cfg.batches[b][i].id == id;
        assert at.state.outcomes[b].Persisted?;
        assert InBatch(at.cfg.batches[b], id);
      }
    }
    GetExtensional(end.table, seqTable);
  }

  /** The same for the batches that `chunkBy` cuts: the table is that of a loop over the file's chunks. */
  lemma ConvergesOnChunks(w: World, was: Table, steps: seq<JobStep>, a: nat, chunks: seq<Chunk>, size: int)
    requires JobRunnable(w, Job([], was), steps)
    requires var end := JobExec(w, Job([], was), steps);
      && a < |end.attempts| && AllPersisted(end.attempts[a].state)
      && forall k :: 0 <= k < |end.attempts| ==> end.attempts[k].cfg.batches == Batches(chunks, size)
    ensures JobExec(w, Job([], was), steps).table == Sequential(w, was, chunks)
  {
    hide JobExec, JobRunnable, Sequential, Batches;
    var end := JobExec(w, Job([], was), steps);
    forall id | InJob(end, id) ensures HasChunk(end.attempts[a].cfg.batches, id) {
      var k :| 0 <= k < |end.attempts| && HasChunk(end.attempts[k].cfg.batches, id);
    }
    Converges(w, was, steps, a);
    BatchesPartition(chunks, size);
  }

  lemma FlattenHasChunk(batches: seq<seq<Chunk>>, id: string)
    ensures InBatch(Flatten(batches), id) <==> HasChunk(batches, id)
  {
    if InBatch(Flatten(batches), id) {
      var i :| 0 <= i < |Flatten(batches)| && Flatten(batches)[i].id == id;
      FlattenMember(batches, Flatten(batches)[i]);
    }
    if HasChunk(batches, id) {
      var b, i :| 0 <= b < |batches| && 0 <= i < |batches[b]| && batches[b][i].id == id;
      FlattenMember(batches, batches[b][i]);
    }
  }

  lemma GetExtensional(t: Table, u: Table)
    requires forall id :: Get(t, id) == Get(u, id)
    ensures t == u
  {
    forall id ensures (id in t <==> id in u) && (id in t ==> t[id] == u[id]) {
      assert Get(t, id) == Get(u, id);
    }
  }
}
