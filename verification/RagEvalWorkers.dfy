/**
 * Several evaluation workers at once: the embedding stages of attempts on different records, statement by
 * statement, beside any other writes to the records.
 */
module RagEvalWorkers {
  import opened Embeddings
  import opened SeqUtil
  import opened RagEval

  /** Where a worker's attempt is: it saw no embedding id; it inserted row `n` and has not linked it yet. */
  datatype Phase = Idle | Embedding(id: string) | Inserted(id: string, n: nat) {
    predicate On(record: string) { !Idle? && id == record }
  }

  /** `failures` counts the link statements that failed so far. */
  datatype State = State(db: Db, phases: seq<Phase>, failures: nat)

  datatype Step =
    | Begin(t: nat, id: string)
    | Insert(t: nat, vector: Vector)
    | GiveUp(t: nat)                 // the embedder or the insert failed
    | Link(t: nat)
    | LinkFails(t: nat)
    | Write(id: string, rec: Record) // context, answer or status, by anyone

  /** A record is worked on by one attempt at a time. */
  predicate Free(s: State, id: string) {
    forall t :: 0 <= t < |s.phases| ==> !s.phases[t].On(id)
  }

  predicate Enabled(s: State, step: Step) {
    match step
    case Begin(t, id) =>
      && t < |s.phases| && s.phases[t].Idle? && Free(s, id)
      && id in s.db.records && s.db.records[id].embeddingId.None?
    case Insert(t, vector) => t < |s.phases| && s.phases[t].Embedding? && |vector| == DIMENSIONS
    case GiveUp(t) => t < |s.phases| && s.phases[t].Embedding?
    case Link(t) => t < |s.phases| && s.phases[t].Inserted? && s.phases[t].id in s.db.records
    case LinkFails(t) => t < |s.phases| && s.phases[t].Inserted?
    case Write(id, rec) => id in s.db.records && rec.embeddingId == s.db.records[id].embeddingId
  }

  function SetLink(db: Db, id: string, n: nat): Db
    requires id in db.records
  {
    SetRecord(db, id, db.records[id].(embeddingId := Some(n)))
  }

  function Apply(s: State, step: Step): State
    requires Enabled(s, step)
  {
    match step
    case Begin(t, id) => s.(phases := s.phases[t := Embedding(id)])
    case Insert(t, vector) =>
      State(s.db.(embeddings := s.db.embeddings + [vector]),
            s.phases[t := Inserted(s.phases[t].id, |s.db.embeddings|)], s.failures)
    case GiveUp(t) => s.(phases := s.phases[t := Idle])
    case Link(t) => State(SetLink(s.db, s.phases[t].id, s.phases[t].n), s.phases[t := Idle], s.failures)
    case LinkFails(t) => s.(phases := s.phases[t := Idle], failures := s.failures + 1)
    case Write(id, rec) => s.(db := SetRecord(s.db, id, rec))
  }

  predicate Runnable(s: State, steps: seq<Step>)
    decreases |steps|
  {
    steps == [] || (Enabled(s, steps[0]) && Runnable(Apply(s, steps[0]), steps[1..]))
  }

  function Exec(s: State, steps: seq<Step>): State
    requires Runnable(s, steps)
    decreases |steps|
  {
    if steps == [] then s else Exec(Apply(s, steps[0]), steps[1..])
  }

  function Pending(p: Phase): nat { if p.Inserted? then 1 else 0 }

  predicate LinksExist(db: Db) {
    forall id :: id in db.records && db.records[id].embeddingId.Some? ==>
      db.records[id].embeddingId.value < |db.embeddings|
  }

  /** A pending row exists, no record names it, and its record has no embedding yet. */
  predicate PendingOk(s: State, t: nat)
    requires t < |s.phases|
  {
    var p := s.phases[t];
    && (!p.Idle? ==> p.id in s.db.records && s.db.records[p.id].embeddingId.None?)
    && (p.Inserted? ==> p.n < |s.db.embeddings| && !Named(s.db, p.n))
  }

  /** No two workers are on the same record or hold the same row. */
  predicate Apart(s: State, t: nat, u: nat)
    requires t < |s.phases| && u < |s.phases|
  {
    var (p, q) := (s.phases[t], s.phases[u]);
    && (!p.Idle? && !q.Idle? ==> p.id != q.id)
    && (p.Inserted? && q.Inserted? ==> p.n != q.n)
  }

  predicate Inv(s: State) {
    && LinksExist(s.db)
    && (forall t :: 0 <= t < |s.phases| ==> PendingOk(s, t))
    && (forall t, u :: 0 <= t < u < |s.phases| ==> Apart(s, t, u))
  }

  /** Linking row `n` names it, and names or frees no other. */
  lemma NamedBySetLink(db: Db, id: string, n: nat, m: nat)
    requires id in db.records && db.records[id].embeddingId.None?
    ensures Named(SetLink(db, id, n), m) <==> m == n || Named(db, m)
  {
    var db' := SetLink(db, id, n);
    assert db'.records[id].embeddingId == Some(n);
    if r :| r in db.records && db.records[r].embeddingId == Some(m) {
      assert db'.records[r].embeddingId == Some(m);
    }
    if r :| r in db'.records && db'.records[r].embeddingId == Some(m) {
      assert r != id ==> db.records[r].embeddingId == Some(m);
    }
  }

  /** What a step does to the set of orphans. */
  lemma StepOrphans(s: State, step: Step)
    requires Inv(s) && Enabled(s, step)
    ensures var (was, now) := (Orphans(s.db), Orphans(Apply(s, step).db));
      match step
      case Insert(_, _) => now == was + {|s.db.embeddings|} && |s.db.embeddings| !in was
      case Link(t) => now == was - {s.phases[t].n} && s.phases[t].n in was
      case _ => now == was
  {
    var db' := Apply(s, step).db;
    match step
    case Insert(t, vector) =>
      assert forall n: nat :: Named(db', n) <==> Named(s.db, n);
      assert !Named(s.db, |s.db.embeddings|);
    case Link(t) =>
      assert PendingOk(s, t);
      forall m: nat ensures Named(db', m) <==> m == s.phases[t].n || Named(s.db, m) {
        NamedBySetLink(s.db, s.phases[t].id, s.phases[t].n, m);
      }
    case Write(id, rec) => SameLinksOrphans(s.db, db');
    case _ =>
  }

  /** Every orphan is a row some link statement failed on, or one that is still to be linked. */
  lemma StepCounts(s: State, step: Step)
    requires Inv(s) && Enabled(s, step)
    ensures var s' := Apply(s, step);
      |Orphans(s'.db)| + s.failures + Total(s.phases, Pending) ==
      |Orphans(s.db)| + s'.failures + Total(s'.phases, Pending)
  {
    hide Orphans, Inv;
    StepOrphans(s, step);
    if !step.Write? {
      TotalUpdate(s.phases, step.t, Apply(s, step).phases[step.t], Pending);
    }
  }

  lemma StepInv(s: State, step: Step)
    requires Inv(s) && Enabled(s, step)
    ensures Inv(Apply(s, step))
  {
    var s' := Apply(s, step);
    LinksKept(s, step);
    forall t: nat | t < |s'.phases| ensures PendingOk(s', t) {
      assert PendingOk(s, t);
      PendingKept(s, step, t);
    }
    forall t, u | 0 <= t < u < |s'.phases| ensures Apart(s', t, u) {
      assert Apart(s, t, u) && PendingOk(s, t) && PendingOk(s, u);
    }
  }

  lemma LinksKept(s: State, step: Step)
    requires Inv(s) && Enabled(s, step)
    ensures LinksExist(Apply(s, step).db)
  {
    assert step.Link? ==> PendingOk(s, step.t);
  }

  lemma PendingKept(s: State, step: Step, t: nat)
    requires Inv(s) && Enabled(s, step) && t < |s.phases| && PendingOk(s, t)
    ensures PendingOk(Apply(s, step), t)
  {
    var db' := Apply(s, step).db;
    match step
    case Insert(u, vector) =>
      assert forall n: nat :: Named(db', n) <==> Named(s.db, n);
      assert !Named(s.db, |s.db.embeddings|);
    case Link(u) =>
      assert PendingOk(s, u);
      if t != u {
        assert if t < u then Apart(s, t, u) else Apart(s, u, t);
        if s.phases[t].Inserted? {
          NamedBySetLink(s.db, s.phases[u].id, s.phases[u].n, s.phases[t].n);
        }
      }
    case _ =>
  }

  /**
   * However the workers interleave: the orphans grow by exactly the link statements that failed, plus the rows
   * that are still to be linked.
   */
  lemma {:induction false} OrphansInterleaved(s: State, steps: seq<Step>)
    requires Inv(s) && Runnable(s, steps)
    ensures Inv(Exec(s, steps))
    ensures var end := Exec(s, steps);
      |Orphans(end.db)| + s.failures + Total(s.phases, Pending) ==
      |Orphans(s.db)| + end.failures + Total(end.phases, Pending)
    decreases |steps|
  {
    hide Inv, Orphans, Enabled, Apply;
    if steps != [] {
      StepInv(s, steps[0]);
      StepCounts(s, steps[0]);
      OrphansInterleaved(Apply(s, steps[0]), steps[1..]);
    }
  }

  /** From and to a moment when no worker is under way, the orphans count the failed links exactly. */
  lemma OrphansBetweenQuietMoments(db: Db, workers: nat, steps: seq<Step>)
    requires Sound(db) && Runnable(State(db, seq(workers, _ => Idle), 0), steps)
    requires var end := Exec(State(db, seq(workers, _ => Idle), 0), steps);
      forall t :: 0 <= t < |end.phases| ==> end.phases[t].Idle?
    ensures var end := Exec(State(db, seq(workers, _ => Idle), 0), steps);
      |Orphans(end.db)| == |Orphans(db)| + end.failures
  {
    hide Orphans, Runnable, Exec;
    var s := State(db, seq(workers, _ => Idle), 0);
    var end := Exec(s, steps);
    QuietInv(db, workers);
    OrphansInterleaved(s, steps);
    TotalConstant(s.phases, Pending, 0);
    TotalConstant(end.phases, Pending, 0);
  }

  lemma QuietInv(db: Db, workers: nat)
    requires Sound(db)
    ensures Inv(State(db, seq(workers, _ => Idle), 0))
  {
  }
}
