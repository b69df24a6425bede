/** Memory ingestion: a gatekeeper, five extract-and-store loops, and a transaction per stored memory. */
module MemoryIngest {
  import opened SeqUtil
  import opened BlankText
  import opened BracketScan
  import opened JsonReplies

  datatype Layer = Identity | Activity | Context | Experience | Preference

  /** One extracted row; `first` and `second` are the fields the layer's filter looks at. */
  datatype Memory = Memory(layer: Layer, first: string, second: string)

  /**
   * The filters of the extractors. An activity has a type and a narrative, an experience a situation and an
   * action, and either may be blank; the other layers have one required field.
   */
  predicate Keep(m: Memory) {
    match m.layer
    case Activity => !Blank(m.first) || !Blank(m.second)
    case Experience => !Blank(m.first) || !Blank(m.second)
    case _ => !Blank(m.first)
  }

  /** The text that is embedded and becomes the parent's summary. */
  function Summary(m: Memory): string {
    if m.layer.Activity? then m.second else m.first
  }

  datatype Parent = Parent(layer: Layer, summary: Option<string>)

  datatype Child = Child(parent: nat, memory: Memory)

  /** The parent table and the child tables; generated parent ids are positions. */
  datatype Db = Db(parents: seq<Parent>, children: seq<Child>)

  function Nullable(s: string): Option<string> { if s == "" then None else Some(s) }

  function ParentOf(m: Memory): Parent { Parent(m.layer, Nullable(Summary(m))) }

  /** Parents and children are in one-to-one correspondence, layer by layer. */
  predicate Paired(db: Db) {
    && |db.children| == |db.parents|
    && forall i :: 0 <= i < |db.children| ==>
         db.children[i].parent == i && db.parents[i] == ParentOf(db.children[i].memory)
  }

  // ---------- one stored memory ----------

  /** Which call of one store operation fails; a failed commit means that nothing was committed. */
  datatype StoreEnv = StoreEnv(embed: bool, begin: bool, parent: bool, child: bool, commit: bool)

  predicate Stores(env: StoreEnv) {
    !env.embed && !env.begin && !env.parent && !env.child && !env.commit
  }

  function Insert(db: Db, m: Memory, env: StoreEnv): Db {
    if Stores(env) then Db(db.parents + [ParentOf(m)], db.children + [Child(|db.parents|, m)]) else db
  }

  function InsertAll(db: Db, ms: seq<Memory>, envs: nat -> StoreEnv): Db {
    if ms == [] then db
    else
      var n := |ms| - 1;
      Insert(InsertAll(db, ms[..n], envs), ms[n], envs(n))
  }

  // ---------- one attempt ----------

  datatype Gate = GateChatError | GateMalformed | GateSays(relevant: bool)

  /**
   * The model's and the database's part in one attempt: replies, None when the call fails; what a matched text
   * decodes to, None when it does not decode; and which store operations fail.
   */
  datatype Env = Env(
    gateReply: Option<string>, decodeGate: string -> Option<bool>,
    replies: Layer -> Option<string>, decode: Layer -> string -> Option<seq<Memory>>,
    store: Layer -> nat -> StoreEnv)

  /** The reply decides only when its leftmost object decodes; a malformed one counts as relevant. */
  ghost function GateOf(reply: Option<string>, decode: string -> Option<bool>): Gate {
    if reply.None? then GateChatError
    else
      var r := DecodeMatch(GATEKEEPER, reply.value, decode);
      if r.None? || r.value.None? then GateMalformed else GateSays(r.value.value)
  }

  function Filter(rows: seq<Memory>): seq<Memory> {
    if rows == [] then []
    else Filter(rows[..|rows| - 1]) + (if Keep(rows[|rows| - 1]) then [rows[|rows| - 1]] else [])
  }

  /** No rows when the call fails or the reply does not decode. */
  ghost function Extracted(env: Env, layer: Layer): seq<Memory> {
    if env.replies(layer).None? then []
    else
      var rows := ArrayReply(env.replies(layer).value, env.decode(layer));
      if rows.None? then [] else Filter(rows.value)
  }

  const LAYERS: seq<Layer> := [Identity, Activity, Context, Experience, Preference]

  ghost function StoreLayers(db: Db, env: Env, layers: seq<Layer>): Db {
    if layers == [] then db
    else
      var last := layers[|layers| - 1];
      InsertAll(StoreLayers(db, env, layers[..|layers| - 1]), Extracted(env, last), env.store(last))
  }

  /** The gatekeeper lets the content through. */
  ghost predicate Opens(content: string, env: Env) {
    var gate := GateOf(env.gateReply, env.decodeGate);
    content != "" && (gate.GateMalformed? || (gate.GateSays? && gate.relevant))
  }

  predicate Errs(content: string, env: Env) {
    content != "" && env.gateReply.None?
  }

  ghost function RunSpec(db: Db, content: string, env: Env): Db {
    if Opens(content, env) then StoreLayers(db, env, LAYERS) else db
  }

  lemma FiveLayers(db: Db, env: Env)
    ensures var db1 := InsertAll(db, Extracted(env, Identity), env.store(Identity));
      var db2 := InsertAll(db1, Extracted(env, Activity), env.store(Activity));
      var db3 := InsertAll(db2, Extracted(env, Context), env.store(Context));
      var db4 := InsertAll(db3, Extracted(env, Experience), env.store(Experience));
      StoreLayers(db, env, LAYERS) == InsertAll(db4, Extracted(env, Preference), env.store(Preference))
  {
    hide InsertAll, Extracted;
    LayerSnoc(db, env, 0);
    LayerSnoc(db, env, 1);
    LayerSnoc(db, env, 2);
    LayerSnoc(db, env, 3);
    LayerSnoc(db, env, 4);
    assert LAYERS[..5] == LAYERS && LAYERS[..0] == [];
  }

  lemma LayerSnoc(db: Db, env: Env, k: nat)
    requires k < |LAYERS|
    ensures StoreLayers(db, env, LAYERS[..k + 1]) ==
            InsertAll(StoreLayers(db, env, LAYERS[..k]), Extracted(env, LAYERS[k]), env.store(LAYERS[k]))
  {
    hide InsertAll, Extracted;
    assert LAYERS[..k + 1][..k] == LAYERS[..k];
  }

  method Gatekeeper(reply: Option<string>, decode: string -> Option<bool>) returns (gate: Gate)
    ensures gate == GateOf(reply, decode)
  {
    if reply.None? {
      return GateChatError;
    }
    var r := FindAndDecode(GATEKEEPER, reply.value, decode);
    if r.None? {
      return GateMalformed;
    }
    if r.value.None? {
      return GateMalformed;
    }
    gate := GateSays(r.value.value);
  }

  /** With a reply, only a leftmost object that decodes to "not relevant" stops the extraction. */
  lemma GateOpensIff(content: string, env: Env)
    requires content != "" && env.gateReply.Some?
    ensures Opens(content, env) <==> DecodeMatch(GATEKEEPER, env.gateReply.value, env.decodeGate) != Some(Some(false))
  {
  }

  class IngestStore {
    var db: Db

    constructor ()
      ensures db == Db([], [])
    {
      db := Db([], []);
    }

    /** Parent and child rows go into the transaction's own copy; only the commit publishes them. */
    method RunInsert(m: Memory, env: StoreEnv) returns (ok: bool)
      requires !env.embed
      modifies this
      ensures ok <==> Stores(env)
      ensures db == Insert(old(db), m, env)
    {
      if env.begin {
        return false;
      }
      var tx := db;
      if env.parent {
        return false;
      }
      var parentID := |tx.parents|;
      tx := tx.(parents := tx.parents + [Parent(m.layer, Nullable(Summary(m)))]);
      if env.child {
        return false;
      }
      tx := tx.(children := tx.children + [Child(parentID, m)]);
      if env.commit {
        return false;
      }
      db := tx;
      ok := true;
    }

    method Create(m: Memory, env: StoreEnv) returns (ok: bool)
      modifies this
      ensures ok <==> Stores(env)
      ensures db == Insert(old(db), m, env)
    {
      if env.embed {
        return false;
      }
      ok := RunInsert(m, env);
    }

    /** An extractor: search, decode, and the filtering loop. */
    method Extract(env: Env, layer: Layer) returns (err: bool, out: seq<Memory>)
      ensures err <==> env.replies(layer).None?
      ensures out == Extracted(env, layer)
    {
      out := [];
      if env.replies(layer).None? {
        return true, [];
      }
      var rows := ParseArrayReply(env.replies(layer).value, env.decode(layer));
      if rows.None? {
        return false, [];
      }
      for i := 0 to |rows.value|
        invariant out == Filter(rows.value[..i])
      {
        assert rows.value[..i + 1][..i] == rows.value[..i];
        if Keep(rows.value[i]) {
          out := out + [rows.value[i]];
        }
      }
      assert rows.value[..|rows.value|] == rows.value;
      err := false;
    }

    /** One of the five extract-and-store loops. */
    method StoreLayer(env: Env, layer: Layer) returns (stored: nat)
      modifies this
      ensures db == InsertAll(old(db), Extracted(env, layer), env.store(layer))
      ensures stored == |db.parents| - |old(db).parents|
    {
      stored := 0;
      var err, memories := Extract(env, layer);
      if err {
        return;
      }
      for i := 0 to |memories|
        invariant db == InsertAll(old(db), memories[..i], env.store(layer))
        invariant stored == |db.parents| - |old(db).parents|
      {
        assert memories[..i + 1][..i] == memories[..i];
        var ok := Create(memories[i], env.store(layer)(i));
        if ok {
          stored := stored + 1;
        }
      }
      assert memories[..|memories|] == memories;
    }

    method Run(content: string, env: Env) returns (err: bool, totalStored: nat)
      modifies this
      ensures err <==> Errs(content, env)
      ensures db == RunSpec(old(db), content, env)
      ensures totalStored == |db.parents| - |old(db).parents|
      ensures err ==> db == old(db)
    {
      totalStored := 0;
      if content == "" {
        return false, 0;
      }
      var gate := Gatekeeper(env.gateReply, env.decodeGate);
      if gate.GateChatError? {
        return true, 0;
      }
      if gate.GateSays? && !gate.relevant {
        return false, 0;
      }
      var stored := StoreLayer(env, Identity);
      totalStored := totalStored + stored;
      stored := StoreLayer(env, Activity);
      totalStored := totalStored + stored;
      stored := StoreLayer(env, Context);
      totalStored := totalStored + stored;
      stored := StoreLayer(env, Experience);
      totalStored := totalStored + stored;
      stored := StoreLayer(env, Preference);
      totalStored := totalStored + stored;
      FiveLayers(old(db), env);
      err := false;
    }
  }

  // ---------- what is extracted, and what a row says ----------

  /** The text that a layer asks for is there: its first field, or for an activity or an experience its second. */
  predicate HasRequiredText(m: Memory) {
    !Blank(m.first) || (m.layer in {Activity, Experience} && !Blank(m.second))
  }

  lemma {:induction false} FilterAppends(a: seq<Memory>, b: seq<Memory>)
    ensures Filter(a + b) == Filter(a) + Filter(b)
  {
    hide Keep;
    if b == [] {
      assert a + b == a;
    } else {
      var (front, last) := (b[..|b| - 1], b[|b| - 1]);
      FilterAppends(a, front);
      assert (a + b)[..|a + b| - 1] == a + front;
      Associative(Filter(a), Filter(front), if Keep(last) then [last] else []);
    }
  }

  /** A row is kept as often as it was decoded when it has its required text, and not at all otherwise. */
  lemma {:induction false} FilterCounts(rows: seq<Memory>, m: Memory)
    ensures multiset(Filter(rows))[m] == if HasRequiredText(m) then multiset(rows)[m] else 0
  {
    if rows != [] {
      var n := |rows| - 1;
      FilterCounts(rows[..n], m);
      assert rows == rows[..n] + [rows[n]];
      assert Keep(rows[n]) <==> HasRequiredText(rows[n]);
    }
  }

  /**
   * What an extractor yields of the rows it decodes: each with its required text as often as decoded, no other,
   * and in their order, since filtering is done row by row.
   */
  lemma ExtractedRows(env: Env, layer: Layer, rows: seq<Memory>, more: seq<Memory>, m: Memory)
    requires env.replies(layer).Some? && ArrayReply(env.replies(layer).value, env.decode(layer)) == Some(rows + more)
    ensures multiset(Extracted(env, layer))[m] == if HasRequiredText(m) then multiset(rows + more)[m] else 0
    ensures Extracted(env, layer) == Filter(rows) + Filter(more)
    ensures Filter([m]) == if HasRequiredText(m) then [m] else []
  {
    hide Filter, HasRequiredText, ArrayReply;
    FilterCounts(rows + more, m);
    FilterAppends(rows, more);
    FilterOne(m);
  }

  lemma FilterOne(m: Memory)
    ensures Filter([m]) == if HasRequiredText(m) then [m] else []
  {
    assert [m][..0] == [];
  }

  /**
   * One store operation: nothing on any failure, and otherwise one parent with the layer and its summary, the
   * narrative of an activity and the first field of any other, null for an empty text; and its child.
   */
  lemma InsertMeans(db: Db, m: Memory, env: StoreEnv)
    ensures var db' := Insert(db, m, env);
      if env.embed || env.begin || env.parent || env.child || env.commit then db' == db
      else
        var text := if m.layer == Activity then m.second else m.first;
        && db'.children == db.children + [Child(|db.parents|, m)]
        && db'.parents == db.parents + [Parent(m.layer, if text == "" then None else Some(text))]
  {
  }

  /** An attempt by its guards: empty content, a failed gatekeeper, a rejection, or the five layers in this order. */
  lemma RunMeans(db: Db, content: string, env: Env)
    ensures content == "" ==> RunSpec(db, content, env) == db && !Errs(content, env)
    ensures content != "" && env.gateReply.None? ==> RunSpec(db, content, env) == db && Errs(content, env)
    ensures content != "" && env.gateReply.Some? ==>
      && !Errs(content, env)
      && var says := DecodeMatch(GATEKEEPER, env.gateReply.value, env.decodeGate);
      if says == Some(Some(false)) then RunSpec(db, content, env) == db
      else
        var db1 := InsertAll(db, Extracted(env, Identity), env.store(Identity));
        var db2 := InsertAll(db1, Extracted(env, Activity), env.store(Activity));
        var db3 := InsertAll(db2, Extracted(env, Context), env.store(Context));
        var db4 := InsertAll(db3, Extracted(env, Experience), env.store(Experience));
        RunSpec(db, content, env) == InsertAll(db4, Extracted(env, Preference), env.store(Preference))
  {
    hide InsertAll, Extracted, DecodeMatch;
    FiveLayers(db, env);
  }

  /**
   * An object without braces inside that mentions relevance, after prose without such an object, decides the gate
   * by what it decodes to.
   */
  lemma ObjectDecides(pre: string, a: string, b: string, post: string, decode: string -> Option<bool>)
    requires GATEKEEPER.Free(a) && GATEKEEPER.Free(b) && NoMatch(GATEKEEPER, pre)
    ensures var text := "{" + (a + ("\"relevant\"" + b)) + "}";
      GateOf(Some(pre + text + post), decode) ==
        if decode(text).None? then GateMalformed else GateSays(decode(text).value)
  {
    hide Leftmost, Contains, Pattern.Free;
    var body := a + ("\"relevant\"" + b);
    var text := "{" + body + "}";
    KeyFree();
    FreeConcat(GATEKEEPER, "\"relevant\"", b);
    FreeConcat(GATEKEEPER, a, "\"relevant\"" + b);
    ContainsMiddle(a, "\"relevant\"", b);
    WrappedFoundIff(GATEKEEPER, pre, body, post);
    assert pre + text + post == pre + ['{'] + body + ['}'] + post;
    SearchIs(GATEKEEPER, pre + text + post, Some((|pre|, |pre| + 1 + |body|)));
    assert (pre + text + post)[|pre|..|pre| + |text|] == text;
  }

  lemma KeyFree()
    ensures GATEKEEPER.Free("\"relevant\"")
  {
  }

  /** A reply that never mentions relevance in quotes is malformed to the gatekeeper. */
  lemma NoKeyIsMalformed(reply: string, decode: string -> Option<bool>)
    requires forall k :: 0 <= k <= |reply| ==> !("\"relevant\"" <= reply[k..])
    ensures GateOf(Some(reply), decode) == GateMalformed
  {
    forall i: nat, j: nat ensures !MatchAt(GATEKEEPER, reply, i, j) {
      if i < j < |reply| && Contains(reply[i + 1..j], "\"relevant\"") {
        ContainsWider(reply, i + 1, j, "\"relevant\"");
      }
    }
    SearchIs(GATEKEEPER, reply, None);
  }

  // ---------- what is stored ----------

  /** The extracted memories whose store operation succeeded, in order. */
  function Stored(ms: seq<Memory>, envs: nat -> StoreEnv): seq<Memory> {
    if ms == [] then []
    else
      var n := |ms| - 1;
      Stored(ms[..n], envs) + (if Stores(envs(n)) then [ms[n]] else [])
  }

  ghost function StoredLayers(env: Env, layers: seq<Layer>): seq<Memory> {
    if layers == [] then []
    else
      var last := layers[|layers| - 1];
      StoredLayers(env, layers[..|layers| - 1]) + Stored(Extracted(env, last), env.store(last))
  }

  ghost function ExtractedLayers(env: Env, layers: seq<Layer>): seq<Memory> {
    if layers == [] then []
    else ExtractedLayers(env, layers[..|layers| - 1]) + Extracted(env, layers[|layers| - 1])
  }

  function Memories(db: Db): (r: seq<Memory>)
    ensures |r| == |db.children| && forall i :: 0 <= i < |r| ==> r[i] == db.children[i].memory
  {
    seq(|db.children|, i requires 0 <= i < |db.children| => db.children[i].memory)
  }

  lemma {:induction false} InsertAllStores(db: Db, ms: seq<Memory>, envs: nat -> StoreEnv)
    requires Paired(db)
    ensures Paired(InsertAll(db, ms, envs))
    ensures Memories(InsertAll(db, ms, envs)) == Memories(db) + Stored(ms, envs)
  {
    if ms != [] {
      InsertAllStores(db, ms[..|ms| - 1], envs);
    }
  }

  /** Each extracted memory is stored at most once. */
  lemma {:induction false} StoredPart(ms: seq<Memory>, envs: nat -> StoreEnv)
    ensures multiset(Stored(ms, envs)) <= multiset(ms)
  {
    hide Stores;
    if ms != [] {
      var n := |ms| - 1;
      StoredPart(ms[..n], envs);
      assert ms == ms[..n] + [ms[n]];
    }
  }

  /** All are stored exactly when no store operation failed. */
  lemma {:induction false} StoredAllIff(ms: seq<Memory>, envs: nat -> StoreEnv)
    ensures |Stored(ms, envs)| <= |ms|
    ensures |Stored(ms, envs)| == |ms| <==> forall i :: 0 <= i < |ms| ==> Stores(envs(i))
  {
    hide Stores;
    if ms != [] {
      StoredAllIff(ms[..|ms| - 1], envs);
    }
  }

  lemma {:induction false} LayersStore(db: Db, env: Env, layers: seq<Layer>)
    requires Paired(db)
    ensures Paired(StoreLayers(db, env, layers))
    ensures Memories(StoreLayers(db, env, layers)) == Memories(db) + StoredLayers(env, layers)
    ensures multiset(StoredLayers(env, layers)) <= multiset(ExtractedLayers(env, layers))
  {
    hide InsertAll, Stored, Extracted;
    if layers != [] {
      var n := |layers| - 1;
      LayersStore(db, env, layers[..n]);
      InsertAllStores(StoreLayers(db, env, layers[..n]), Extracted(env, layers[n]), env.store(layers[n]));
      StoredPart(Extracted(env, layers[n]), env.store(layers[n]));
    }
  }

  /** River: attempts until the first nil. */
  ghost function Job(db: Db, content: string, envs: seq<Env>): Db
    decreases |envs|
  {
    if envs == [] then db
    else if Errs(content, envs[0]) then Job(RunSpec(db, content, envs[0]), content, envs[1..])
    else RunSpec(db, content, envs[0])
  }

  /** The attempt that ends the job: the first without an error, if there is one. */
  function LastAttempt(content: string, envs: seq<Env>): (k: nat)
    ensures k <= |envs|
    ensures forall i :: 0 <= i < k ==> Errs(content, envs[i])
    ensures k < |envs| ==> !Errs(content, envs[k])
  {
    if envs == [] || !Errs(content, envs[0]) then 0 else 1 + LastAttempt(content, envs[1..])
  }

  /**
   * Memories are written at most once: of all attempts only the one that ends the job writes, it adds no
   * memory more often than it extracted it, and parents and children stay in bijection throughout.
   */
  lemma {:induction false} JobStoresOnce(db: Db, content: string, envs: seq<Env>)
    requires Paired(db)
    ensures var k := LastAttempt(content, envs);
      var db' := Job(db, content, envs);
      && Paired(db')
      && (if k < |envs| && Opens(content, envs[k])
          then Memories(db') == Memories(db) + StoredLayers(envs[k], LAYERS)
               && multiset(StoredLayers(envs[k], LAYERS)) <= multiset(ExtractedLayers(envs[k], LAYERS))
          else db' == db)
    decreases |envs|
  {
    if envs != [] {
      if Errs(content, envs[0]) {
        JobStoresOnce(db, content, envs[1..]);
      } else {
        LayersStore(db, envs[0], LAYERS);
      }
    }
  }

  /** The other half does not hold: with every commit failing, a run whatever its replies still ends with nil. */
  lemma NilWithNothingStored(content: string, env: Env, db: Db)
    requires (content == "" || env.gateReply.Some?) && forall l, i :: !Stores(env.store(l)(i))
    ensures Job(db, content, [env]) == db && !Errs(content, env)
  {
    NothingStored(db, env, LAYERS);
  }

  lemma {:induction false} NothingInserted(db: Db, ms: seq<Memory>, envs: nat -> StoreEnv)
    requires forall i :: !Stores(envs(i))
    ensures InsertAll(db, ms, envs) == db
  {
    if ms != [] {
      NothingInserted(db, ms[..|ms| - 1], envs);
    }
  }

  lemma {:induction false} NothingStored(db: Db, env: Env, layers: seq<Layer>)
    requires forall l, i :: !Stores(env.store(l)(i))
    ensures StoreLayers(db, env, layers) == db
  {
    if layers != [] {
      var last := layers[|layers| - 1];
      NothingStored(db, env, layers[..|layers| - 1]);
      NothingInserted(db, Extracted(env, last), env.store(last));
    }
  }

  // ---------- all five layers, and the job ----------

  /** Every store operation of the given layers' extracted memories succeeds. */
  ghost predicate AllStore(env: Env, layers: seq<Layer>) {
    forall k, i :: 0 <= k < |layers| && 0 <= i < |Extracted(env, layers[k])| ==> Stores(env.store(layers[k])(i))
  }

  lemma {:induction false} LayersStoredIff(env: Env, layers: seq<Layer>)
    ensures |StoredLayers(env, layers)| <= |ExtractedLayers(env, layers)|
    ensures |StoredLayers(env, layers)| == |ExtractedLayers(env, layers)| <==> AllStore(env, layers)
  {
    hide Stores, Stored, Extracted;
    if layers != [] {
      var n := |layers| - 1;
      LayersStoredIff(env, layers[..n]);
      StoredAllIff(Extracted(env, layers[n]), env.store(layers[n]));
      assert layers == layers[..n] + [layers[n]];
      assert AllStore(env, layers) <==>
        (AllStore(env, layers[..n]) &&
         forall i :: 0 <= i < |Extracted(env, layers[n])| ==> Stores(env.store(layers[n])(i)));
    }
  }

  /** A job stores as many memories as its last attempt extracted exactly when none of the operations failed. */
  lemma JobStoresAllIff(db: Db, content: string, envs: seq<Env>)
    requires Paired(db)
    requires var k := LastAttempt(content, envs); k < |envs| && Opens(content, envs[k])
    ensures var env := envs[LastAttempt(content, envs)];
      |Job(db, content, envs).parents| == |db.parents| + |ExtractedLayers(env, LAYERS)| <==> AllStore(env, LAYERS)
  {
    hide StoredLayers, ExtractedLayers, AllStore, Opens;
    JobStoresOnce(db, content, envs);
    LayersStoredIff(envs[LastAttempt(content, envs)], LAYERS);
  }

  // ---------- replies as the prompts ask for them ----------

  /** Every layer gets a reply with tags, and a decoder that takes no array of strings for rows. */
  ghost predicate AllTagged(env: Env) {
    forall layer: Layer ::
      env.replies(layer).Some? && TaggedReply(env.replies(layer).value) && RejectsLabels(env.decode(layer))
  }

  /**
   * From replies to storage: where each layer's reply is the array the prompts ask for, with tags in some
   * element, every search ends at an array of labels, so the job stores nothing, and still ends with nil.
   */
  lemma TaggedRepliesStoreNothing(db: Db, content: string, env: Env)
    requires AllTagged(env) && env.gateReply.Some?
    ensures Job(db, content, [env]) == db && !Errs(content, env)
  {
    forall layer: Layer ensures Extracted(env, layer) == [] {
      TaggedReplyGivesNoRows(env.replies(layer).value, env.decode(layer));
    }
    NothingExtracted(db, env, LAYERS);
  }

  lemma {:induction false} NothingExtracted(db: Db, env: Env, layers: seq<Layer>)
    requires forall layer: Layer :: Extracted(env, layer) == []
    ensures StoreLayers(db, env, layers) == db
  {
    if layers != [] {
      NothingExtracted(db, env, layers[..|layers| - 1]);
    }
  }
}
