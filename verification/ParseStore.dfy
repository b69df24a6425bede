/** Parse persistence: chunk rows in one batch, the rows that link them to the file in another, over retries. */
module ParseStore {
  import opened SeqUtil

  datatype ChunkRecord = ChunkRecord(text: string, index: nat)

  datatype Link = Link(chunk: nat, file: string)

  /** The two tables. The server's fresh chunk ids are the positions of the rows. */
  datatype Db = Db(chunks: seq<ChunkRecord>, links: seq<Link>)

  predicate InRange(links: seq<Link>, n: nat) {
    forall i :: 0 <= i < |links| ==> links[i].chunk < n
  }

  /** Every junction row names an existing chunk. */
  predicate Consistent(db: Db) {
    InRange(db.links, |db.chunks|)
  }

  /** One complete copy of the chunker's output, in index order. */
  function Copy(texts: seq<string>): (r: seq<ChunkRecord>)
    ensures |r| == |texts| && forall i :: 0 <= i < |r| ==> r[i] == ChunkRecord(texts[i], i)
  {
    seq(|texts|, i requires 0 <= i < |texts| => ChunkRecord(texts[i], i))
  }

  function Ids(first: nat, n: nat): (r: seq<nat>)
    ensures |r| == n && forall i :: 0 <= i < n ==> r[i] == first + i
  {
    seq(n, i requires 0 <= i < n => first + i)
  }

  /** INSERT ... ON CONFLICT DO NOTHING. */
  function InsertLink(links: seq<Link>, l: Link): seq<Link> {
    if l in links then links else links + [l]
  }

  function InsertLinks(links: seq<Link>, ids: seq<nat>, file: string): seq<Link> {
    if ids == [] then links
    else InsertLink(InsertLinks(links, ids[..|ids| - 1], file), Link(ids[|ids| - 1], file))
  }

  /** The first batch: a row per chunk, all or nothing. */
  function FirstBatch(db: Db, texts: seq<string>): Db {
    db.(chunks := db.chunks + Copy(texts))
  }

  /** The second batch: a link to every chunk of the first. */
  function SecondBatch(db: Db, ids: seq<nat>, file: string): Db {
    db.(links := InsertLinks(db.links, ids, file))
  }

  /** What happens in one attempt; a reported error means that the batch was not applied. */
  datatype Env = Env(reachedPersist: bool, chunksFault: bool, linksFault: bool, closeFault: bool)

  datatype Stage = NotPersisted | Unlinked | Linked

  function StageOf(env: Env): Stage {
    if !env.reachedPersist || env.chunksFault then NotPersisted
    else if env.linksFault then Unlinked
    else Linked
  }

  function Attempt(db: Db, texts: seq<string>, file: string, env: Env): Db {
    match StageOf(env)
    case NotPersisted => db
    case Unlinked => FirstBatch(db, texts)
    case Linked => SecondBatch(FirstBatch(db, texts), Ids(|db.chunks|, |texts|), file)
  }

  /** Work returns nil, which ends the job, when everything was linked and the ledger could be closed. */
  predicate Ends(env: Env) { StageOf(env).Linked? && !env.closeFault }

  function Job(db: Db, texts: seq<string>, file: string, envs: seq<Env>): Db
    decreases |envs|
  {
    if envs == [] then db
    else if Ends(envs[0]) then Attempt(db, texts, file, envs[0])
    else Job(Attempt(db, texts, file, envs[0]), texts, file, envs[1..])
  }

  /** How many attempts of a job reached a stage. */
  function Count(envs: seq<Env>, stage: Stage): nat
    decreases |envs|
  {
    if envs == [] then 0
    else
      var one := if StageOf(envs[0]) == stage then 1 else 0;
      if Ends(envs[0]) then one else one + Count(envs[1..], stage)
  }

  // ---------- the code ----------

  class ParseDb {
    var db: Db

    constructor ()
      ensures db == Db([], [])
    {
      db := Db([], []);
    }

    method PersistChunks(texts: seq<string>, file: string, chunksFault: bool, linksFault: bool) returns (ok: bool)
      modifies this
      ensures db == Attempt(old(db), texts, file, Env(true, chunksFault, linksFault, false))
      ensures ok <==> !chunksFault && !linksFault
    {
      var chunkIDs := new nat[|texts|](_ => 0);
      ok := SendFirst(texts, chunkIDs, chunksFault);
      if ok {
        ok := SendSecond(chunkIDs[..], file, linksFault);
      }
    }

    /** Queues a row per chunk, sends the batch, and reads the generated ids back in order. */
    method SendFirst(texts: seq<string>, chunkIDs: array<nat>, fault: bool) returns (ok: bool)
      requires chunkIDs.Length == |texts|
      modifies this, chunkIDs
      ensures ok <==> !fault
      ensures db == if fault then old(db) else FirstBatch(old(db), texts)
      ensures ok ==> chunkIDs[..] == Ids(|old(db).chunks|, |texts|)
    {
      var queued: seq<ChunkRecord> := [];
      for i := 0 to |texts|
        invariant queued == Copy(texts)[..i] && db == old(db)
      {
        queued := queued + [ChunkRecord(texts[i], i)];
      }
      if fault {
        return false;
      }
      var first := |db.chunks|;
      db := db.(chunks := db.chunks + queued);
      for i := 0 to chunkIDs.Length
        invariant forall j :: 0 <= j < i ==> chunkIDs[j] == first + j
        invariant db == FirstBatch(old(db), texts)
      {
        chunkIDs[i] := first + i;
      }
      ok := true;
    }

    method SendSecond(ids: seq<nat>, file: string, fault: bool) returns (ok: bool)
      modifies this
      ensures ok <==> !fault
      ensures db == if fault then old(db) else SecondBatch(old(db), ids, file)
    {
      if fault {
        return false;
      }
      for i := 0 to |ids|
        invariant db == SecondBatch(old(db), ids[..i], file)
      {
        assert ids[..i + 1][..i] == ids[..i];
        db := db.(links := InsertLink(db.links, Link(ids[i], file)));
      }
      assert ids[..|ids|] == ids;
      ok := true;
    }
  }

  // ---------- properties over all attempts ----------

  /** The chunks linked to a file, in link order. */
  function LinkedChunks(db: Db, file: string): seq<ChunkRecord>
    requires Consistent(db)
  {
    Resolve(db.chunks, db.links, file)
  }

  function Resolve(chunks: seq<ChunkRecord>, links: seq<Link>, file: string): seq<ChunkRecord>
    requires InRange(links, |chunks|)
  {
    if links == [] then []
    else
      var last := links[|links| - 1];
      Resolve(chunks, links[..|links| - 1], file) + (if last.file == file then [chunks[last.chunk]] else [])
  }

  predicate Mentioned(links: seq<Link>, id: nat) {
    exists i :: 0 <= i < |links| && links[i].chunk == id
  }

  /** How many of the first `n` chunks no link mentions. */
  function Orphans(links: seq<Link>, n: nat): nat {
    if n == 0 then 0 else Orphans(links, n - 1) + (if Mentioned(links, n - 1) then 0 else 1)
  }

  lemma {:induction false} ResolveConcat(chunks: seq<ChunkRecord>, a: seq<Link>, b: seq<Link>, file: string)
    requires InRange(a, |chunks|) && InRange(b, |chunks|)
    ensures Resolve(chunks, a + b, file) == Resolve(chunks, a, file) + Resolve(chunks, b, file)
  {
    if b == [] {
      assert a + b == a;
    } else {
      ResolveConcat(chunks, a, b[..|b| - 1], file);
      assert (a + b)[..|a + b| - 1] == a + b[..|b| - 1];
    }
  }

  lemma {:induction false} ResolveFrame(
      chunks: seq<ChunkRecord>, more: seq<ChunkRecord>, links: seq<Link>, file: string)
    requires InRange(links, |chunks|)
    ensures Resolve(chunks + more, links, file) == Resolve(chunks, links, file)
  {
    if links != [] {
      ResolveFrame(chunks, more, links[..|links| - 1], file);
    }
  }

  function LinksOf(ids: seq<nat>, file: string): (r: seq<Link>)
    ensures |r| == |ids| && forall i :: 0 <= i < |r| ==> r[i] == Link(ids[i], file)
  {
    seq(|ids|, i requires 0 <= i < |ids| => Link(ids[i], file))
  }

  /** Links to fresh chunks never conflict. */
  lemma {:induction false} FreshLinks(links: seq<Link>, first: nat, n: nat, file: string)
    requires InRange(links, first)
    ensures InsertLinks(links, Ids(first, n), file) == links + LinksOf(Ids(first, n), file)
  {
    if n > 0 {
      var ids := Ids(first, n);
      assert ids[..n - 1] == Ids(first, n - 1);
      FreshLinks(links, first, n - 1, file);
      assert LinksOf(ids, file) == LinksOf(ids[..n - 1], file) + [Link(ids[n - 1], file)];
    }
  }

  lemma {:induction false} ResolveCopy(chunks: seq<ChunkRecord>, more: seq<ChunkRecord>, n: nat, file: string)
    requires n <= |more|
    ensures InRange(LinksOf(Ids(|chunks|, n), file), |chunks + more|)
    ensures Resolve(chunks + more, LinksOf(Ids(|chunks|, n), file), file) == more[..n]
  {
    var links := LinksOf(Ids(|chunks|, n), file);
    if n > 0 {
      assert links[..n - 1] == LinksOf(Ids(|chunks|, n - 1), file);
      ResolveCopy(chunks, more, n - 1, file);
    }
  }

  lemma {:induction false} OrphansFrame(links: seq<Link>, more: seq<Link>, n: nat)
    requires forall i :: 0 <= i < |more| ==> more[i].chunk >= n
    ensures Orphans(links + more, n) == Orphans(links, n)
  {
    if n > 0 {
      OrphansFrame(links, more, n - 1);
      MentionedConcat(links, more, n - 1);
      assert !Mentioned(more, n - 1);
    }
  }

  lemma MentionedConcat(a: seq<Link>, b: seq<Link>, id: nat)
    ensures Mentioned(a + b, id) <==> Mentioned(a, id) || Mentioned(b, id)
  {
    if i :| 0 <= i < |a| && a[i].chunk == id {
      assert (a + b)[i].chunk == id;
    }
    if i :| 0 <= i < |b| && b[i].chunk == id {
      assert (a + b)[|a| + i].chunk == id;
    }
  }

  /** Linking keeps the links there were, adds one for every id, and never one that is there already. */
  lemma {:induction false} LinksAreDistinct(links: seq<Link>, ids: seq<nat>, file: string)
    requires Distinct(links)
    ensures var after := InsertLinks(links, ids, file);
      && Distinct(after) && links <= after
      && forall i :: 0 <= i < |ids| ==> Link(ids[i], file) in after
  {
    if ids != [] {
      LinksAreDistinct(links, ids[..|ids| - 1], file);
      assert forall i :: 0 <= i < |ids| - 1 ==> ids[..|ids| - 1][i] == ids[i];
    }
  }

  /** Chunks beyond `n` that are all linked, or all unlinked. */
  lemma {:induction false} OrphansBeyond(links: seq<Link>, n: nat, k: nat, linked: bool)
    requires forall id: nat :: n <= id < n + k ==> (Mentioned(links, id) <==> linked)
    ensures Orphans(links, n + k) == Orphans(links, n) + (if linked then 0 else k)
  {
    if k > 0 {
      OrphansBeyond(links, n, k - 1, linked);
    }
  }

  /** One attempt: links in, one more complete copy; links failed, only orphans. */
  lemma AttemptEffect(db: Db, texts: seq<string>, file: string, env: Env)
    requires Consistent(db)
    ensures var db' := Attempt(db, texts, file, env);
      var first := env.reachedPersist && !env.chunksFault;
      && Consistent(db')
      && LinkedChunks(db', file) == LinkedChunks(db, file) + (if first && !env.linksFault then Copy(texts) else [])
      && Orphans(db'.links, |db'.chunks|) ==
           Orphans(db.links, |db.chunks|) + (if first && env.linksFault then |texts| else 0)
      && (!first ==> db' == db)
  {
    match StageOf(env)
    case NotPersisted =>
    case Unlinked =>
      ResolveFrame(db.chunks, Copy(texts), db.links, file);
      OrphansBeyond(db.links, |db.chunks|, |texts|, false);
    case Linked =>
      LinkedEffect(db, texts, file);
  }

  lemma LinkedEffect(db: Db, texts: seq<string>, file: string)
    requires Consistent(db)
    ensures var db' := SecondBatch(FirstBatch(db, texts), Ids(|db.chunks|, |texts|), file);
      && Consistent(db')
      && LinkedChunks(db', file) == LinkedChunks(db, file) + Copy(texts)
      && Orphans(db'.links, |db'.chunks|) == Orphans(db.links, |db.chunks|)
  {
    hide Resolve, Orphans, InsertLinks;
    var n := |db.chunks|;
    var added := LinksOf(Ids(n, |texts|), file);
    var copy := Copy(texts);
    FreshLinks(db.links, n, |texts|, file);
    ResolveFrame(db.chunks, copy, db.links, file);
    ResolveCopy(db.chunks, copy, |texts|, file);
    ResolveConcat(db.chunks + copy, db.links, added, file);
    NoNewOrphans(db.links, n, |texts|, file);
  }

  lemma NoNewOrphans(links: seq<Link>, n: nat, k: nat, file: string)
    requires InRange(links, n)
    ensures Orphans(links + LinksOf(Ids(n, k), file), n + k) == Orphans(links, n)
  {
    hide Orphans;
    var added := LinksOf(Ids(n, k), file);
    OrphansFrame(links, added, n);
    forall id: nat | n <= id < n + k ensures Mentioned(links + added, id) {
      assert added[id - n].chunk == id;
      MentionedConcat(links, added, id);
    }
    OrphansBeyond(links + added, n, k, true);
  }

  /**
   * Whatever fails: every link names an existing chunk; the file gains exactly as many complete,
   * index-ordered copies of the chunker output as attempts got their links in; and every attempt that failed
   * between the batches leaves exactly one copy's worth of orphans.
   */
  lemma {:induction false} JobEffect(db: Db, texts: seq<string>, file: string, envs: seq<Env>)
    requires Consistent(db)
    ensures var db' := Job(db, texts, file, envs);
      && Consistent(db')
      && LinkedChunks(db', file) == LinkedChunks(db, file) + Repeat(Copy(texts), Count(envs, Linked))
      && Orphans(db'.links, |db'.chunks|) == Orphans(db.links, |db.chunks|) + Count(envs, Unlinked) * |texts|
    decreases |envs|
  {
    hide Attempt, LinkedChunks, Orphans, Copy, Consistent;
    if envs != [] {
      var c := Copy(texts);
      AttemptEffect(db, texts, file, envs[0]);
      if Ends(envs[0]) {
        RepeatOnce(c);
      } else {
        JobEffect(Attempt(db, texts, file, envs[0]), texts, file, envs[1..]);
        Associative(LinkedChunks(db, file), c, Repeat(c, Count(envs[1..], Linked)));
        Distribute(Count(envs[1..], Unlinked), |texts|);
      }
    }
  }

  lemma Distribute(n: nat, k: nat)
    ensures (1 + n) * k == k + n * k
  {
  }

  /** Attempt `i` is made, and gets its links in. */
  predicate LinksIn(envs: seq<Env>, i: nat) {
    i < |envs| && StageOf(envs[i]).Linked? && forall m :: 0 <= m < i ==> !Ends(envs[m])
  }

  lemma LinksInTail(envs: seq<Env>, i: nat)
    requires envs != [] && !Ends(envs[0])
    ensures LinksIn(envs[1..], i) <==> LinksIn(envs, i + 1)
  {
    if LinksIn(envs[1..], i) {
      forall m | 0 <= m < i + 1 ensures !Ends(envs[m]) {
        assert m > 0 ==> envs[m] == envs[1..][m - 1];
      }
    }
  }

  /** The file's chunks after a job. */
  ghost function FileAfter(db: Db, texts: seq<string>, file: string, envs: seq<Env>): seq<ChunkRecord>
    requires Consistent(db)
  {
    JobEffect(db, texts, file, envs);
    LinkedChunks(Job(db, texts, file, envs), file)
  }

  /**
   * Safety: as long as every attempt that got its links in could also close, the file has what it had and at
   * most one copy more, whatever else fails.
   */
  lemma {:induction false} ClosingKeepsOneCopy(db: Db, texts: seq<string>, file: string, envs: seq<Env>)
    requires Consistent(db)
    requires forall i: nat :: LinksIn(envs, i) ==> !envs[i].closeFault
    ensures Count(envs, Linked) <= 1
    ensures FileAfter(db, texts, file, envs) ==
      LinkedChunks(db, file) + (if Count(envs, Linked) == 1 then Copy(texts) else [])
    decreases |envs|
  {
    JobEffect(db, texts, file, envs);
    assert envs != [] && StageOf(envs[0]).Linked? ==> LinksIn(envs, 0);
    if envs != [] && !Ends(envs[0]) {
      forall i: nat | LinksIn(envs[1..], i) ensures !envs[1..][i].closeFault {
        LinksInTail(envs, i);
      }
      ClosingKeepsOneCopy(db, texts, file, envs[1..]);
    }
    RepeatOnce(Copy(texts));
  }

  /** What a longer schedule adds: nothing once the job has ended, and its own attempts otherwise. */
  lemma {:induction false} CountAppend(p: seq<Env>, more: seq<Env>, stage: Stage)
    ensures Count(p + more, stage) ==
      Count(p, stage) + (if exists i :: 0 <= i < |p| && Ends(p[i]) then 0 else Count(more, stage))
    decreases |p|
  {
    if p == [] {
      assert p + more == more;
    } else {
      assert (p + more)[1..] == p[1..] + more;
      CountAppend(p[1..], more, stage);
      assert forall i :: 0 < i < |p| ==> p[1..][i - 1] == p[i];
      assert Ends(p[0]) ==> exists i :: 0 <= i < |p| && Ends(p[i]);
    }
  }

  const SMOOTH := Env(true, false, false, false)

  lemma SmoothAdds(p: seq<Env>)
    requires p != [] && LinksIn(p, |p| - 1) && p[|p| - 1].closeFault
    ensures Count(p + [SMOOTH], Linked) == Count(p, Linked) + 1
  {
    CountAppend(p, [SMOOTH], Linked);
    assert Count([SMOOTH], Linked) == 1;
  }

  /** From a failed closing write, with the links in, one more attempt without a fault adds a whole copy. */
  lemma DuplicatesAfterFailedClose(db: Db, texts: seq<string>, file: string, p: seq<Env>)
    requires Consistent(db) && p != [] && LinksIn(p, |p| - 1) && p[|p| - 1].closeFault
    ensures Count(p + [SMOOTH], Linked) == Count(p, Linked) + 1
    ensures FileAfter(db, texts, file, p + [SMOOTH]) == FileAfter(db, texts, file, p) + Copy(texts)
  {
    hide Job, Count, LinkedChunks, Consistent, LinksIn, Copy;
    SmoothAdds(p);
    JobEffect(db, texts, file, p);
    JobEffect(db, texts, file, p + [SMOOTH]);
    RepeatAppend(Copy(texts), Count(p, Linked));
    Associative(LinkedChunks(db, file), Repeat(Copy(texts), Count(p, Linked)), Copy(texts));
  }

  lemma SettledAfterClose(db: Db, texts: seq<string>, file: string, p: seq<Env>, more: seq<Env>)
    requires Consistent(db) && p != [] && LinksIn(p, |p| - 1) && !p[|p| - 1].closeFault
    ensures Count(p + more, Linked) == Count(p, Linked)
    ensures FileAfter(db, texts, file, p + more) == FileAfter(db, texts, file, p)
  {
    hide Job, Count, LinkedChunks, Consistent;
    assert Ends(p[|p| - 1]);
    CountAppend(p, more, Linked);
    JobEffect(db, texts, file, p);
    JobEffect(db, texts, file, p + more);
  }

  /**
   * The closing write decides: once an attempt has its links in, no later attempt can add a copy, whatever
   * happens in it, exactly when that attempt's closing write did not fail.
   */
  lemma SettledIffClosed(db: Db, texts: seq<string>, file: string, p: seq<Env>)
    requires Consistent(db) && p != [] && LinksIn(p, |p| - 1)
    ensures (forall more :: Count(p + more, Linked) == Count(p, Linked)) <==> !p[|p| - 1].closeFault
    ensures (forall more :: FileAfter(db, texts, file, p + more) == FileAfter(db, texts, file, p))
      <==> !p[|p| - 1].closeFault || texts == []
  {
    if p[|p| - 1].closeFault {
      DuplicatesAfterFailedClose(db, texts, file, p);
      if texts == [] {
        forall more ensures FileAfter(db, texts, file, p + more) == FileAfter(db, texts, file, p) {
          NothingToCopy(db, file, p);
          NothingToCopy(db, file, p + more);
        }
      }
    } else {
      forall more
        ensures Count(p + more, Linked) == Count(p, Linked)
        ensures FileAfter(db, texts, file, p + more) == FileAfter(db, texts, file, p)
      {
        SettledAfterClose(db, texts, file, p, more);
      }
    }
  }

  lemma NothingToCopy(db: Db, file: string, envs: seq<Env>)
    requires Consistent(db)
    ensures FileAfter(db, [], file, envs) == LinkedChunks(db, file)
  {
    JobEffect(db, [], file, envs);
    RepeatNothing<ChunkRecord>(Count(envs, Linked));
  }
}
