/** The RAG evaluation worker: one record taken through embed, retrieve, answer and persist, resumed on retries. */
module RagEval {
  import opened Embeddings
  import opened SeqUtil

  datatype Status = Open | Success | Error

  /** A null and an empty embedding id are the same to the worker. */
  datatype Record = Record(
    embeddingId: Option<nat>, context: seq<string>, status: Status, answer: Option<string>,
    dataset: string, evaluation: string)

  /** Embedding rows get fresh ids: their positions. `datasets` holds the reference files of dataset records. */
  datatype Db = Db(
    records: map<string, Record>, embeddings: seq<Vector>, evaluations: map<string, Status>,
    datasets: map<string, seq<string>>)

  /** What the database and the models do in one attempt; a reported SQL error means nothing was written. */
  datatype Env = Env(
    fetchFault: bool,
    vector: Option<Vector>, insertFault: bool, linkFault: bool,
    readFault: bool,
    datasetFault: bool, retrieved: Option<seq<string>>, contextFault: bool,
    answer: Option<string>, resultFault: bool,
    failRecordFault: bool, failEvaluationFault: bool)

  datatype Verdict = Done | Failed | JobCancelled

  /** `asked` is the context that the answer was generated from, if the attempt got that far. */
  datatype Outcome = Outcome(db: Db, verdict: Verdict, asked: Option<seq<string>>)

  function SetRecord(db: Db, id: string, rec: Record): Db {
    db.(records := db.records[id := rec])
  }

  function MarkFailed(db: Db, id: string, evaluation: string, env: Env): Db {
    var db1 :=
      if env.failRecordFault || id !in db.records then db
      else SetRecord(db, id, db.records[id].(status := Error));
    if evaluation == "" || env.failEvaluationFault || evaluation !in db1.evaluations then db1
    else db1.(evaluations := db1.evaluations[evaluation := Error])
  }

  function EmbedStage(db: Db, id: string, env: Env): (r: (Db, Option<Vector>))
    requires id in db.records
    ensures id in r.0.records
  {
    var rec := db.records[id];
    match rec.embeddingId
    case Some(n) => (db, if env.readFault || n >= |db.embeddings| then None else Some(db.embeddings[n]))
    case None =>
      if env.vector.None? || |env.vector.value| != DIMENSIONS || env.insertFault then (db, None)
      else
        var inserted := db.(embeddings := db.embeddings + [env.vector.value]);
        if env.linkFault then (inserted, None)
        else (SetRecord(inserted, id, rec.(embeddingId := Some(|db.embeddings|))), env.vector)
  }

  function ContextStage(db: Db, id: string, vec: Vector, env: Env): (r: (Db, Option<seq<string>>))
    requires id in db.records
    ensures id in r.0.records
  {
    var rec := db.records[id];
    if rec.context != [] then (db, Some(rec.context))
    else if env.datasetFault || rec.dataset !in db.datasets then (db, None)
    else if db.datasets[rec.dataset] == [] || vec == [] then (db, Some([]))
    else if env.retrieved.None? then (db, None)
    else if env.contextFault then (db, env.retrieved)
    else (SetRecord(db, id, rec.(context := env.retrieved.value)), env.retrieved)
  }

  function Attempt(db: Db, id: string, env: Env): Outcome {
    if env.fetchFault then Outcome(MarkFailed(db, id, "", env), Failed, None)
    else if id !in db.records then Outcome(db, JobCancelled, None)
    else
      var evaluation := db.records[id].evaluation;
      var (db1, vec) := EmbedStage(db, id, env);
      if vec.None? then Outcome(MarkFailed(db1, id, evaluation, env), Failed, None)
      else
        var (db2, context) := ContextStage(db1, id, vec.value, env);
        if context.None? then Outcome(MarkFailed(db2, id, evaluation, env), Failed, None)
        else if env.answer.None? || env.resultFault then
          Outcome(MarkFailed(db2, id, evaluation, env), Failed, context)
        else
          Outcome(SetRecord(db2, id, db2.records[id].(status := Success, answer := env.answer)), Done, context)
  }

  // ---------- the code ----------

  class RagEvalDb {
    var db: Db

    constructor (db: Db)
      ensures this.db == db
    {
      this.db := db;
    }

    method Fail(id: string, evaluation: string, env: Env)
      modifies this
      ensures db == MarkFailed(old(db), id, evaluation, env)
    {
      if !env.failRecordFault && id in db.records {
        db := db.(records := db.records[id := db.records[id].(status := Error)]);
      }
      if evaluation != "" && !env.failEvaluationFault && evaluation in db.evaluations {
        db := db.(evaluations := db.evaluations[evaluation := Error]);
      }
    }

    method EmbedQuestion(id: string, env: Env) returns (vec: Option<Vector>)
      requires id in db.records && db.records[id].embeddingId.None?
      modifies this
      ensures (db, vec) == EmbedStage(old(db), id, env)
    {
      if env.vector.None? || |env.vector.value| != DIMENSIONS {
        return None;
      }
      if env.insertFault {
        return None;
      }
      var embeddingId := |db.embeddings|;
      db := db.(embeddings := db.embeddings + [env.vector.value]);
      if env.linkFault {
        return None;
      }
      db := db.(records := db.records[id := db.records[id].(embeddingId := Some(embeddingId))]);
      vec := env.vector;
    }

    method RetrieveContext(id: string, vec: Vector, env: Env) returns (context: Option<seq<string>>)
      requires id in db.records
      modifies this
      ensures (db, context) == ContextStage(old(db), id, vec, env)
    {
      var rec := db.records[id];
      context := Some(rec.context);
      if rec.context == [] {
        if env.datasetFault || rec.dataset !in db.datasets {
          return None;
        }
        if db.datasets[rec.dataset] != [] && vec != [] {
          if env.retrieved.None? {
            return None;
          }
          context := env.retrieved;
          if !env.contextFault {
            db := db.(records := db.records[id := rec.(context := context.value)]);
          }
        }
      }
    }

    method Run(id: string, env: Env) returns (verdict: Verdict, asked: Option<seq<string>>)
      modifies this
      ensures Outcome(db, verdict, asked) == Attempt(old(db), id, env)
    {
      if env.fetchFault {
        Fail(id, "", env);
        return Failed, None;
      }
      if id !in db.records {
        return JobCancelled, None;
      }
      var rec := db.records[id];
      var vec: Option<Vector>;
      if rec.embeddingId.None? {
        vec := EmbedQuestion(id, env);
      } else {
        var n := rec.embeddingId.value;
        vec := if env.readFault || n >= |db.embeddings| then None else Some(db.embeddings[n]);
      }
      if vec.None? {
        Fail(id, rec.evaluation, env);
        return Failed, None;
      }
      var context := RetrieveContext(id, vec.value, env);
      if context.None? {
        Fail(id, rec.evaluation, env);
        return Failed, None;
      }
      if env.answer.None? || env.resultFault {
        Fail(id, rec.evaluation, env);
        return Failed, context;
      }
      db := db.(records := db.records[id := db.records[id].(status := Success, answer := env.answer)]);
      return Done, context;
    }
  }

  // ---------- histories ----------

  /** Attempts of any records' jobs, in the order they ran. */
  type Script = seq<(string, Env)>

  function Run(db: Db, script: Script): Db
    decreases |script|
  {
    if script == [] then db else Run(Attempt(db, script[0].0, script[0].1).db, script[1..])
  }

  /** Every recorded embedding id names an existing row, and every success has an answer. */
  predicate Sound(db: Db) {
    forall id :: id in db.records ==>
      && (db.records[id].embeddingId.Some? ==> db.records[id].embeddingId.value < |db.embeddings|)
      && (db.records[id].status.Success? ==> db.records[id].answer.Some?)
  }

  predicate RecordKept(rec: Record, rec': Record) {
    && (rec.embeddingId.Some? ==> rec'.embeddingId == rec.embeddingId)
    && (rec.context != [] ==> rec'.context == rec.context)
    && (rec.answer.Some? ==> rec'.answer.Some?)
  }

  /** What later attempts never take back. */
  predicate Kept(db: Db, db': Db) {
    && db.embeddings <= db'.embeddings
    && (forall id :: id in db.records ==> id in db'.records && RecordKept(db.records[id], db'.records[id]))
    && (forall e :: e in db.evaluations ==>
          e in db'.evaluations && (db.evaluations[e].Error? ==> db'.evaluations[e].Error?))
  }

  /** Later stages touch neither the embeddings nor which record is linked to which. */
  predicate SameLinks(db: Db, db': Db) {
    && db'.embeddings == db.embeddings
    && db'.records.Keys == db.records.Keys
    && forall id :: id in db.records ==> db'.records[id].embeddingId == db.records[id].embeddingId
  }

  ghost predicate Steps(db: Db, db': Db) {
    Sound(db') && Kept(db, db')
  }

  lemma StepsCompose(a: Db, b: Db, c: Db)
    requires Steps(a, b) && Steps(b, c)
    ensures Steps(a, c)
  {
  }

  lemma MarkFailedSteps(db: Db, id: string, evaluation: string, env: Env)
    requires Sound(db)
    ensures Steps(db, MarkFailed(db, id, evaluation, env)) && SameLinks(db, MarkFailed(db, id, evaluation, env))
  {
  }

  lemma EmbedSteps(db: Db, id: string, env: Env)
    requires Sound(db) && id in db.records
    ensures var db' := EmbedStage(db, id, env).0;
      Steps(db, db') && db'.records[id].context == db.records[id].context
  {
  }

  lemma ContextSteps(db: Db, id: string, vec: Vector, env: Env)
    requires Sound(db) && id in db.records
    ensures var (db', context) := ContextStage(db, id, vec, env);
      && Steps(db, db') && SameLinks(db, db')
      && (db.records[id].context != [] ==> context == Some(db.records[id].context))
  {
  }

  lemma SucceedSteps(db: Db, id: string, answer: Option<string>)
    requires Sound(db) && id in db.records && answer.Some?
    ensures var db' := SetRecord(db, id, db.records[id].(status := Success, answer := answer));
      Steps(db, db') && SameLinks(db, db')
  {
  }

  /** The stages after the embedding stage has given a vector. */
  lemma AfterContext(db1: Db, id: string, evaluation: string, vec: Vector, env: Env, o: Outcome)
    requires Sound(db1) && id in db1.records
    requires var (db2, context) := ContextStage(db1, id, vec, env);
      o == (if context.None? then Outcome(MarkFailed(db2, id, evaluation, env), Failed, None)
            else if env.answer.None? || env.resultFault then
              Outcome(MarkFailed(db2, id, evaluation, env), Failed, context)
            else
              Outcome(SetRecord(db2, id, db2.records[id].(status := Success, answer := env.answer)), Done, context))
    ensures Steps(db1, o.db) && SameLinks(db1, o.db)
    ensures o.asked.Some? && db1.records[id].context != [] ==> o.asked.value == db1.records[id].context
  {
    hide ContextStage, MarkFailed, SetRecord, Kept;
    var (db2, context) := ContextStage(db1, id, vec, env);
    ContextSteps(db1, id, vec, env);
    MarkFailedSteps(db2, id, evaluation, env);
    StepsCompose(db1, db2, MarkFailed(db2, id, evaluation, env));
    if context.Some? && env.answer.Some? && !env.resultFault {
      SucceedSteps(db2, id, env.answer);
      StepsCompose(db1, db2, o.db);
    }
  }

  /** The part of an attempt that follows the embedding stage. */
  lemma AfterEmbedding(db1: Db, db: Db, id: string, env: Env)
    requires Sound(db) && id in db.records && !env.fetchFault && db1 == EmbedStage(db, id, env).0
    ensures var o := Attempt(db, id, env);
      && Steps(db1, o.db) && SameLinks(db1, o.db)
      && (o.asked.Some? && db1.records[id].context != [] ==> o.asked.value == db1.records[id].context)
  {
    hide EmbedStage, ContextStage, MarkFailed, SetRecord, Kept;
    EmbedSteps(db, id, env);
    var evaluation := db.records[id].evaluation;
    var vec := EmbedStage(db, id, env).1;
    if vec.None? {
      MarkFailedSteps(db1, id, evaluation, env);
    } else {
      AfterContext(db1, id, evaluation, vec.value, env, Attempt(db, id, env));
    }
  }

  lemma AttemptKeeps(db: Db, id: string, env: Env)
    requires Sound(db)
    ensures Sound(Attempt(db, id, env).db) && Kept(db, Attempt(db, id, env).db)
    ensures var o := Attempt(db, id, env);
      o.asked.Some? && id in db.records && db.records[id].context != [] ==> o.asked.value == db.records[id].context
  {
    if env.fetchFault {
      MarkFailedSteps(db, id, "", env);
    } else if id in db.records {
      var db1 := EmbedStage(db, id, env).0;
      EmbedSteps(db, id, env);
      AfterEmbedding(db1, db, id, env);
      StepsCompose(db, db1, Attempt(db, id, env).db);
    }
  }

  /**
   * Over any history of attempts: a recorded embedding id is never replaced and names an existing row, a
   * persisted context stays, success means an answer, and a parent evaluation in error stays in error.
   */
  lemma {:induction false} RunKeeps(db: Db, script: Script)
    requires Sound(db)
    ensures Sound(Run(db, script)) && Kept(db, Run(db, script))
    decreases |script|
  {
    if script != [] {
      var db1 := Attempt(db, script[0].0, script[0].1).db;
      AttemptKeeps(db, script[0].0, script[0].1);
      RunKeeps(db1, script[1..]);
    }
  }

  /** A persisted non-empty context is what every later attempt on the record answers from. */
  lemma AnswersFromPersistedContext(db: Db, before: Script, id: string, env: Env)
    requires Sound(db) && id in db.records && db.records[id].context != []
    ensures var o := Attempt(Run(db, before), id, env);
      o.asked.Some? ==> o.asked.value == db.records[id].context
  {
    RunKeeps(db, before);
    AttemptKeeps(Run(db, before), id, env);
  }

  /** The attempt gets as far as retrieval, finds something, and writes it to the record. */
  predicate Retrieves(db: Db, id: string, env: Env) {
    && !env.fetchFault && id in db.records && db.records[id].context == []
    && EmbedStage(db, id, env).1.Some? && EmbedStage(db, id, env).1.value != []
    && !env.datasetFault && db.records[id].dataset in db.datasets && db.datasets[db.records[id].dataset] != []
    && env.retrieved.Some? && env.retrieved.value != [] && !env.contextFault
  }

  lemma RetrievalPersists(db: Db, id: string, env: Env)
    requires Sound(db) && Retrieves(db, id, env)
    ensures env.retrieved.Some? && env.retrieved.value != []
    ensures var o := Attempt(db, id, env);
      o.asked == env.retrieved && id in o.db.records && o.db.records[id].context == env.retrieved.value
  {
    hide MarkFailed, Kept;
    var (db1, vec) := EmbedStage(db, id, env);
    EmbedSteps(db, id, env);
    var (db2, context) := ContextStage(db1, id, vec.value, env);
    assert context == env.retrieved && db2.records[id].context == env.retrieved.value;
    ContextSteps(db1, id, vec.value, env);
    MarkFailedContext(db2, id, db.records[id].evaluation, env);
  }

  lemma MarkFailedContext(db: Db, id: string, evaluation: string, env: Env)
    requires id in db.records
    ensures var db' := MarkFailed(db, id, evaluation, env);
      id in db'.records && db'.records[id].context == db.records[id].context
  {
  }

  /**
   * Resumption: what an attempt retrieved and wrote, it answers from, whatever becomes of it; and so does every
   * later attempt on the record that gets to ask, after any history in between.
   */
  lemma ResumesFromRetrieved(db: Db, id: string, env: Env, later: Script, again: Env)
    requires Sound(db) && Retrieves(db, id, env)
    ensures Attempt(db, id, env).asked == env.retrieved
    ensures var o := Attempt(Run(Attempt(db, id, env).db, later), id, again);
      o.asked.Some? ==> o.asked == env.retrieved
  {
    hide Attempt, Retrieves;
    RetrievalPersists(db, id, env);
    AttemptKeeps(db, id, env);
    AnswersFromPersistedContext(Attempt(db, id, env).db, later, id, again);
  }

  /** The attempt embeds the question, and gets its vector linked. */
  predicate Links(db: Db, id: string, env: Env) {
    !env.fetchFault && id in db.records && db.records[id].embeddingId.None? && EmbedStage(db, id, env).1.Some?
  }

  lemma LinkPersists(db: Db, id: string, env: Env)
    requires Sound(db) && Links(db, id, env)
    ensures env.vector.Some?
    ensures var db' := Attempt(db, id, env).db; var n := |db.embeddings|;
      && id in db'.records && db'.records[id].embeddingId == Some(n)
      && n < |db'.embeddings| && db'.embeddings[n] == env.vector.value
  {
    hide ContextStage, MarkFailed, Attempt, Kept;
    EmbedSteps(db, id, env);
    AfterEmbedding(EmbedStage(db, id, env).0, db, id, env);
  }

  /** Resumption: a question is embedded once, and every later attempt on the record works from that vector. */
  lemma ResumesFromEmbedding(db: Db, id: string, env: Env, later: Script, again: Env)
    requires Sound(db) && Links(db, id, env)
    ensures var db' := Run(Attempt(db, id, env).db, later);
      && id in db'.records
      && (EmbedStage(db', id, again).1.Some? ==> EmbedStage(db', id, again).1 == env.vector)
      && EmbedStage(db', id, again).0 == db'
  {
    hide Attempt, Links, Sound, Run;
    LinkPersists(db, id, env);
    AttemptKeeps(db, id, env);
    RunKeeps(Attempt(db, id, env).db, later);
  }

  /** The context an attempt answers from, by what the record and the dataset hold and what retrieval returns. */
  lemma AskedByGuards(db: Db, id: string, env: Env)
    requires !env.fetchFault && id in db.records
    ensures var (o, rec) := (Attempt(db, id, env), db.records[id]);
      o.asked.Some? ==>
        if rec.context != [] then o.asked == Some(rec.context)
        else
          && rec.dataset in db.datasets
          && if db.datasets[rec.dataset] == [] || NoVector(db, id) then o.asked == Some([])
             else o.asked == env.retrieved // whether or not it could be recorded
    ensures Attempt(db, id, env).asked.Some? <==> !EmbedFails(db, id, env) && !RetrievalFails(db, id, env)
  {
    hide MarkFailed;
    var (db1, vec) := EmbedStage(db, id, env);
    StagesTouchOnlyRecord(db, id, [], env);
    EmbedFailsIff(db, id, env);
    assert db1.records[id].context == db.records[id].context && db1.records[id].dataset == db.records[id].dataset;
  }

  lemma EmbedFailsIff(db: Db, id: string, env: Env)
    requires id in db.records
    ensures var (db1, vec) := EmbedStage(db, id, env);
      && (EmbedFails(db, id, env) <==> vec.None?)
      && (vec.Some? ==> (vec.value == [] <==> NoVector(db, id)))
      && id in db1.records
      && db1.records[id].context == db.records[id].context && db1.records[id].dataset == db.records[id].dataset
  {
  }

  /** Retrieval is recorded exactly when it was due, found something, and its write got through. */
  lemma RecordedContext(db: Db, id: string, env: Env)
    requires !env.fetchFault && id in db.records
    ensures var (o, rec) := (Attempt(db, id, env), db.records[id]);
      && id in o.db.records
      && o.db.records[id].context ==
           if o.asked.Some? && rec.context == [] && rec.dataset in db.datasets && db.datasets[rec.dataset] != []
              && !NoVector(db, id) && !env.contextFault
           then o.asked.value else rec.context
  {
    var (db1, vec) := EmbedStage(db, id, env);
    EmbedFailsIff(db, id, env);
    StagesTouchOnlyRecord(db, id, [], env);
    if vec.Some? {
      var db2 := ContextStage(db1, id, vec.value, env).0;
      MarkFailedContext(db2, id, db.records[id].evaluation, env);
    } else {
      MarkFailedContext(db1, id, db.records[id].evaluation, env);
    }
  }

  // ---------- orphan embeddings ----------

  predicate Named(db: Db, n: nat) {
    exists id :: id in db.records && db.records[id].embeddingId == Some(n)
  }

  /** The embedding rows that no record names. */
  function Orphans(db: Db): (r: set<nat>)
    ensures forall n: nat :: n in r <==> n < |db.embeddings| && !Named(db, n)
  {
    set n: nat | n < |db.embeddings| && !Named(db, n)
  }

  lemma SameLinksOrphans(db: Db, db': Db)
    requires SameLinks(db, db')
    ensures Orphans(db') == Orphans(db)
  {
    forall n: nat ensures Named(db', n) <==> Named(db, n) {
      if id :| id in db.records && db.records[id].embeddingId == Some(n) {
        assert db'.records[id].embeddingId == Some(n);
      }
      if id :| id in db'.records && db'.records[id].embeddingId == Some(n) {
        assert db.records[id].embeddingId == Some(n);
      }
    }
  }

  /** Naming the new row of one record changes nothing about the rows before it. */
  lemma NamedAfterLink(db: Db, db': Db, id: string, n: nat)
    requires Sound(db) && id in db.records && db.records[id].embeddingId.None?
    requires db'.records == db.records[id := db.records[id].(embeddingId := Some(|db.embeddings|))]
    ensures Named(db', n) <==> n == |db.embeddings| || Named(db, n)
  {
    assert db'.records[id].embeddingId == Some(|db.embeddings|);
    if r :| r in db.records && db.records[r].embeddingId == Some(n) {
      assert db'.records[r].embeddingId == Some(n);
    }
    if r :| r in db'.records && db'.records[r].embeddingId == Some(n) {
      assert r != id ==> db.records[r].embeddingId == Some(n);
    }
  }

  lemma EmbedStageOrphans(db: Db, id: string, env: Env)
    requires Sound(db) && !env.fetchFault && id in db.records
    ensures Orphans(EmbedStage(db, id, env).0) ==
      Orphans(db) + (if Orphaning(db, id, env) then {|db.embeddings|} else {})
  {
    var db' := EmbedStage(db, id, env).0;
    if Orphaning(db, id, env) {
      assert forall n: nat :: Named(db', n) <==> Named(db, n);
    } else if db' != db {
      forall n: nat ensures Named(db', n) <==> n == |db.embeddings| || Named(db, n) {
        NamedAfterLink(db, db', id, n);
      }
    }
  }

  /** One attempt: the row it inserted without linking becomes an orphan, and no other row does or ceases to be. */
  lemma AttemptOrphans(db: Db, id: string, env: Env)
    requires Sound(db)
    ensures Orphans(Attempt(db, id, env).db) ==
      Orphans(db) + (if Orphaning(db, id, env) then {|db.embeddings|} else {})
  {
    hide EmbedStage, ContextStage, MarkFailed, Kept, Sound, SameLinks, Named;
    if env.fetchFault {
      MarkFailedSteps(db, id, "", env);
      SameLinksOrphans(db, Attempt(db, id, env).db);
    } else if id in db.records {
      var db1 := EmbedStage(db, id, env).0;
      EmbedStageOrphans(db, id, env);
      AfterEmbedding(db1, db, id, env);
      SameLinksOrphans(db1, Attempt(db, id, env).db);
    }
  }

  function LinkedIds(db: Db): set<string> {
    set id | id in db.records && db.records[id].embeddingId.Some?
  }

  /** The attempt inserted an embedding and then failed to link it. */
  predicate Orphaning(db: Db, id: string, env: Env) {
    && !env.fetchFault && id in db.records && db.records[id].embeddingId.None?
    && env.vector.Some? && |env.vector.value| == DIMENSIONS && !env.insertFault && env.linkFault
  }

  function OrphaningAttempts(db: Db, script: Script): nat
    decreases |script|
  {
    if script == [] then 0
    else
      (if Orphaning(db, script[0].0, script[0].1) then 1 else 0) +
      OrphaningAttempts(Attempt(db, script[0].0, script[0].1).db, script[1..])
  }

  lemma SameLinksCount(db: Db, db': Db)
    requires SameLinks(db, db')
    ensures LinkedIds(db') == LinkedIds(db) && |db'.embeddings| == |db.embeddings|
  {
  }

  lemma EmbedStageCount(db: Db, id: string, env: Env)
    requires !env.fetchFault && id in db.records
    ensures var db' := EmbedStage(db, id, env).0;
      |db'.embeddings| - |db.embeddings| ==
        |LinkedIds(db')| - |LinkedIds(db)| + (if Orphaning(db, id, env) then 1 else 0)
  {
    var db' := EmbedStage(db, id, env).0;
    if db'.records[id].embeddingId.Some? && db.records[id].embeddingId.None? {
      assert LinkedIds(db') == LinkedIds(db) + {id};
    } else {
      assert LinkedIds(db') == LinkedIds(db);
    }
  }

  lemma AttemptEmbeddings(db: Db, id: string, env: Env)
    requires Sound(db)
    ensures var db' := Attempt(db, id, env).db;
      |db'.embeddings| - |db.embeddings| ==
        |LinkedIds(db')| - |LinkedIds(db)| + (if Orphaning(db, id, env) then 1 else 0)
  {
    var db' := Attempt(db, id, env).db;
    if env.fetchFault {
      MarkFailedSteps(db, id, "", env);
      SameLinksCount(db, db');
    } else if id in db.records {
      var db1 := EmbedStage(db, id, env).0;
      EmbedStageCount(db, id, env);
      AfterEmbedding(db1, db, id, env);
      SameLinksCount(db1, db');
    }
  }

  /** Over any history, the rows that no record names grow by exactly the attempts that inserted but failed to link. */
  lemma {:induction false} OrphansCounted(db: Db, script: Script)
    requires Sound(db)
    ensures Orphans(db) <= Orphans(Run(db, script))
    ensures |Orphans(Run(db, script))| == |Orphans(db)| + OrphaningAttempts(db, script)
    decreases |script|
  {
    hide Attempt, Orphaning, Sound, Kept;
    if script != [] {
      AttemptOrphans(db, script[0].0, script[0].1);
      AttemptKeeps(db, script[0].0, script[0].1);
      OrphansCounted(Attempt(db, script[0].0, script[0].1).db, script[1..]);
    }
  }

  /** The other new rows are those of newly linked records. */
  lemma {:induction false} RowsAccounted(db: Db, script: Script)
    requires Sound(db)
    ensures var db' := Run(db, script);
      |db'.embeddings| - |db.embeddings| ==
        |LinkedIds(db')| - |LinkedIds(db)| + OrphaningAttempts(db, script)
    decreases |script|
  {
    if script != [] {
      AttemptEmbeddings(db, script[0].0, script[0].1);
      AttemptKeeps(db, script[0].0, script[0].1);
      RowsAccounted(Attempt(db, script[0].0, script[0].1).db, script[1..]);
    }
  }

  // ---------- verdicts and the parent evaluation ----------

  /** Records other than `id`, all evaluations and all datasets are as before. */
  predicate OnlyRecord(db: Db, db': Db, id: string) {
    && db'.evaluations == db.evaluations && db'.datasets == db.datasets
    && db'.records.Keys == db.records.Keys
    && forall r :: r in db.records && r != id ==> db'.records[r] == db.records[r]
  }

  lemma StagesTouchOnlyRecord(db: Db, id: string, vec: Vector, env: Env)
    requires id in db.records
    ensures OnlyRecord(db, EmbedStage(db, id, env).0, id)
    ensures OnlyRecord(db, ContextStage(db, id, vec, env).0, id)
  {
  }

  /** The database that `fail` is called on, if it is called; otherwise the one the attempt leaves. */
  lemma BeforeFail(db: Db, id: string, env: Env) returns (mid: Db)
    requires !env.fetchFault && id in db.records
    ensures OnlyRecord(db, mid, id)
    ensures var o := Attempt(db, id, env);
      && !o.verdict.JobCancelled?
      && (o.verdict.Failed? ==> o.db == MarkFailed(mid, id, db.records[id].evaluation, env))
      && (o.verdict.Done? ==> o.db == mid && mid.records[id].status.Success? && mid.records[id].answer == env.answer)
  {
    hide EmbedStage, ContextStage, MarkFailed;
    var (db1, vec) := EmbedStage(db, id, env);
    StagesTouchOnlyRecord(db, id, [], env);
    mid := db1;
    if vec.Some? {
      StagesTouchOnlyRecord(db1, id, vec.value, env);
      var (db2, context) := ContextStage(db1, id, vec.value, env);
      mid := db2;
      if context.Some? && env.answer.Some? && !env.resultFault {
        mid := Attempt(db, id, env).db;
      }
    }
  }

  /**
   * What a verdict says: done, a success with this answer; cancelled, a missing record and nothing changed;
   * failed, a record in error unless marking it failed too. No other record is ever touched.
   */
  lemma VerdictMeans(db: Db, id: string, env: Env)
    ensures var o := Attempt(db, id, env);
      && (o.verdict.JobCancelled? <==> !env.fetchFault && id !in db.records)
      && (o.verdict.JobCancelled? ==> o.db == db)
      && (o.verdict.Done? ==>
            id in o.db.records && o.db.records[id].status.Success? && o.db.records[id].answer == env.answer)
      && (o.verdict.Failed? && id in db.records && !env.failRecordFault ==>
            id in o.db.records && o.db.records[id].status.Error?)
      && o.db.records.Keys == db.records.Keys
      && forall r :: r in db.records && r != id ==> o.db.records[r] == db.records[r]
  {
    hide EmbedStage, ContextStage;
    if !env.fetchFault && id in db.records {
      var mid := BeforeFail(db, id, env);
    }
  }

  /** What goes wrong in the embedding stage: reading the linked vector, or making, inserting and linking one. */
  predicate EmbedFails(db: Db, id: string, env: Env)
    requires id in db.records
  {
    match db.records[id].embeddingId
    case Some(n) => env.readFault || n >= |db.embeddings|
    case None => env.vector.None? || |env.vector.value| != 1024 || env.insertFault || env.linkFault
  }

  /** The vector that the attempt works from is empty. */
  predicate NoVector(db: Db, id: string)
    requires id in db.records
  {
    match db.records[id].embeddingId
    case Some(n) => n < |db.embeddings| && db.embeddings[n] == []
    case None => false
  }

  /** What goes wrong in retrieval, if no context is recorded: the dataset, or the search over its files. */
  predicate RetrievalFails(db: Db, id: string, env: Env)
    requires id in db.records
  {
    && db.records[id].context == []
    && (|| env.datasetFault || db.records[id].dataset !in db.datasets
        || (db.datasets[db.records[id].dataset] != [] && !NoVector(db, id) && env.retrieved.None?))
  }

  /** Whether an attempt fails past the fetch, by what the database holds and which calls fail. */
  predicate FailsPastFetch(db: Db, id: string, env: Env) {
    && !env.fetchFault && id in db.records
    && (EmbedFails(db, id, env) || RetrievalFails(db, id, env) || env.answer.None? || env.resultFault)
  }

  lemma FailsIff(db: Db, id: string, env: Env)
    ensures Attempt(db, id, env).verdict.Failed? <==> env.fetchFault || FailsPastFetch(db, id, env)
  {
    hide MarkFailed;
    if !env.fetchFault && id in db.records {
      var (db1, vec) := EmbedStage(db, id, env);
      EmbedFailsIff(db, id, env);
      StagesTouchOnlyRecord(db, id, [], env);
      if vec.Some? {
        assert RetrievalFails(db, id, env) <==> ContextStage(db1, id, vec.value, env).1.None?;
      }
    }
  }

  /** The attempt calls `fail` past the fetch, and its write to evaluation `e` gets through. */
  predicate Marks(db: Db, id: string, env: Env, e: string) {
    && FailsPastFetch(db, id, env)
    && e != "" && db.records[id].evaluation == e && !env.failEvaluationFault
  }

  lemma AttemptEvaluation(db: Db, id: string, env: Env, e: string)
    requires e in db.evaluations
    ensures var db' := Attempt(db, id, env).db;
      && e in db'.evaluations
      && db'.evaluations[e] == if Marks(db, id, env, e) then Error else db.evaluations[e]
  {
    hide EmbedStage, ContextStage, FailsPastFetch;
    FailsIff(db, id, env);
    MissingNotPast(db, id, env);
    if !env.fetchFault && id in db.records {
      var mid := BeforeFail(db, id, env);
    }
  }

  lemma MissingNotPast(db: Db, id: string, env: Env)
    ensures FailsPastFetch(db, id, env) ==> !env.fetchFault && id in db.records
  {
  }

  predicate MarkedIn(db: Db, script: Script, e: string)
    decreases |script|
  {
    script != [] &&
    (Marks(db, script[0].0, script[0].1, e) || MarkedIn(Attempt(db, script[0].0, script[0].1).db, script[1..], e))
  }

  /**
   * After any history the parent evaluation has the status it had, unless one of its records ever failed an
   * attempt: then it is in error, whatever succeeded since.
   */
  lemma {:induction false} EvaluationErrorIff(db: Db, script: Script, e: string)
    requires e in db.evaluations
    ensures var db' := Run(db, script);
      && e in db'.evaluations
      && db'.evaluations[e] == if MarkedIn(db, script, e) then Error else db.evaluations[e]
    decreases |script|
  {
    hide Attempt, Marks;
    if script != [] {
      AttemptEvaluation(db, script[0].0, script[0].1, e);
      EvaluationErrorIff(Attempt(db, script[0].0, script[0].1).db, script[1..], e);
    }
  }

  const SMOOTH := Env(false, Some(seq(DIMENSIONS, _ => 0.0)), false, false, false, false, Some([]), false, Some(""),
                      false, false, false)

  /** The attempt asks for an answer and gets none. */
  const NO_ANSWER := SMOOTH.(answer := None)

  /** One failed attempt followed by a success: the only record succeeds, and its evaluation is in error for good. */
  lemma EvaluationStuckInError(rest: Script)
    ensures var rec := Record(None, [], Open, None, "d", "e");
      var db := Db(map["r" := rec], [], map["e" := Open], map["d" := []]);
      var end := Run(db, [("r", NO_ANSWER), ("r", SMOOTH)]);
      && "r" in end.records && end.records["r"].status.Success?
      && "e" in Run(end, rest).evaluations && Run(end, rest).evaluations["e"].Error?
  {
    var rec := Record(None, [], Open, None, "d", "e");
    var db := Db(map["r" := rec], [], map["e" := Open], map["d" := []]);
    var script := [("r", NO_ANSWER), ("r", SMOOTH)];
    var db1 := Attempt(db, "r", NO_ANSWER).db;
    assert db1.evaluations["e"].Error?;
    var db2 := Attempt(db1, "r", SMOOTH).db;
    assert script[1..] == [("r", SMOOTH)] && script[1..][1..] == [];
    assert Run(db1, script[1..]) == Run(db2, []) == db2;
    assert db2.records["r"].status.Success?;
    RunKeeps(db2, rest);
  }
}
