/** The versioned persona document and its append-only history, refreshed by one worker after another. */
module Persona {
  import opened SeqUtil
  import opened BlankText
  import opened BracketScan

  datatype Doc = Doc(id: string, version: nat, tagline: string, persona: string)

  datatype History = History(
    personaId: string, snapshotPersona: string, snapshotTagline: string,
    diffPersona: string, diffTagline: string, previousVersion: nat, nextVersion: nat)

  /** One user's document, if there is one, and its history rows, oldest first. */
  datatype Db = Db(doc: Option<Doc>, history: seq<History>)

  const EMPTY := Db(None, [])

  function DiffOrEmpty(was: string, now: string): string {
    if was == now then "" else now
  }

  /** The zero value that a missing row leaves in `prev`. */
  function Prev(db: Db): Doc {
    if db.doc.Some? then db.doc.value else Doc("", 0, "", "")
  }

  /** ON CONFLICT (user, profile) DO UPDATE keeps the id of the existing document. */
  function UpsertDoc(db: Db, newId: string, version: nat, tagline: string, persona: string): Doc {
    Doc(if db.doc.Some? then db.doc.value.id else newId, version, tagline, persona)
  }

  function Write(db: Db, newId: string, tagline: string, persona: string): Db {
    var prev := Prev(db);
    Db(Some(UpsertDoc(db, newId, prev.version + 1, tagline, persona)),
       db.history + [History(newId, persona, tagline, DiffOrEmpty(prev.persona, persona),
                             DiffOrEmpty(prev.tagline, tagline), prev.version, prev.version + 1)])
  }

  /**
   * The failures and the reply of one refresh; a malformed start date counts as failing to read the memories.
   * `decode` gives the tagline and persona of a matched object, None when it does not decode.
   */
  datatype Env = Env(
    memoriesFault: bool, memories: nat, currentFault: bool,
    reply: Option<string>, decode: string -> Option<(string, string)>,
    beginFault: bool, upsertFault: bool, appendFault: bool, commitFault: bool, newId: string)

  /** Tagline and persona of a reply; a reply without an object that decodes is the persona itself. */
  ghost function ParseReply(
      reply: string, decode: string -> Option<(string, string)>, current: Option<Doc>): (string, string)
  {
    var r := DecodeMatch(PERSONA, reply, decode);
    if r.Some? && r.value.Some? then r.value.value
    else (if current.Some? then current.value.tagline else "", reply)
  }

  method ParsePersonaReply(reply: string, current: Option<Doc>, decode: string -> Option<(string, string)>)
    returns (tagline: string, persona: string)
    ensures (tagline, persona) == ParseReply(reply, decode, current)
  {
    var r := FindAndDecode(PERSONA, reply, decode);
    if r.None? || r.value.None? {
      return if current.Some? then current.value.tagline else "", reply;
    }
    return r.value.value.0, r.value.value.1;
  }

  predicate WriteFails(env: Env) {
    env.beginFault || env.upsertFault || env.appendFault || env.commitFault
  }

  /** What the model's reply says about the user. */
  ghost function Reply(db: Db, env: Env): (string, string) {
    if env.reply.None? then ("", "") else ParseReply(env.reply.value, env.decode, db.doc)
  }

  ghost function Refresh(db: Db, env: Env): Db {
    if env.memoriesFault || env.memories == 0 || env.currentFault || env.reply.None? then db
    else
      var (tagline, persona) := Reply(db, env);
      if Blank(persona) || WriteFails(env) then db else Write(db, env.newId, tagline, persona)
  }

  /** A reply is read by its leftmost object, or else as a whole, under the tagline there was. */
  lemma ReplyByGuards(reply: string, decode: string -> Option<(string, string)>, current: Option<Doc>)
    ensures var found := DecodeMatch(PERSONA, reply, decode);
      var r := ParseReply(reply, decode, current);
      match found
      case Some(Some(says)) => r == says
      case _ => r.1 == reply && (current.Some? ==> r.0 == current.value.tagline) && (current.None? ==> r.0 == "")
  {
  }

  /**
   * An object without braces inside that mentions one of the keys, after prose without such an object, is what
   * the reply says.
   */
  lemma ObjectSpeaks(
      pre: string, a: string, key: string, b: string, post: string,
      decode: string -> Option<(string, string)>, current: Option<Doc>)
    requires key == "\"tagline\"" || key == "\"persona\""
    requires PERSONA.Free(a) && PERSONA.Free(b) && NoMatch(PERSONA, pre)
    ensures var text := "{" + (a + (key + b)) + "}";
      decode(text).Some? ==> ParseReply(pre + text + post, decode, current) == decode(text).value
  {
    hide Leftmost, Contains, Pattern.Free;
    var body := a + (key + b);
    var text := "{" + body + "}";
    KeysFree();
    FreeConcat(PERSONA, key, b);
    FreeConcat(PERSONA, a, key + b);
    ContainsMiddle(a, key, b);
    WrappedFoundIff(PERSONA, pre, body, post);
    assert pre + text + post == pre + ['{'] + body + ['}'] + post;
    SearchIs(PERSONA, pre + text + post, Some((|pre|, |pre| + 1 + |body|)));
    assert (pre + text + post)[|pre|..|pre| + |text|] == text;
  }

  /**
   * A refresh that is due and goes through makes what the reply says the live document, one version on, and
   * records it in one more row; any other changes nothing.
   */
  lemma RefreshMeans(db: Db, env: Env)
    ensures var (db', says) := (Refresh(db, env), Reply(db, env));
      if env.memoriesFault || env.memories == 0 || env.currentFault || env.reply.None? || Blank(says.1)
         || env.beginFault || env.upsertFault || env.appendFault || env.commitFault
      then db' == db
      else
        && db'.doc.Some? && db'.doc.value.tagline == says.0 && db'.doc.value.persona == says.1
        && db'.doc.value.version == (if db.doc.Some? then db.doc.value.version + 1 else 1)
        && |db'.history| == |db.history| + 1 && db'.history[..|db.history|] == db.history
        && db'.history[|db.history|].snapshotTagline == says.0
        && db'.history[|db.history|].snapshotPersona == says.1
  {
    hide Reply, Blank;
  }

  class PersonaStore {
    var db: Db

    constructor ()
      ensures db == EMPTY
    {
      db := EMPTY;
    }

    /** Everything between begin and commit happens on the transaction's own copy. */
    method WritePersona(persona: string, tagline: string, env: Env) returns (ok: bool)
      modifies this
      ensures ok <==> !WriteFails(env)
      ensures db == if ok then Write(old(db), env.newId, tagline, persona) else old(db)
    {
      if env.beginFault {
        return false;
      }
      var tx := db;
      var prev := if tx.doc.Some? then tx.doc.value else Doc("", 0, "", "");
      var nextVersion := if tx.doc.Some? then prev.version + 1 else 1;
      if env.upsertFault {
        return false;
      }
      tx := tx.(doc := Some(if tx.doc.Some?
        then tx.doc.value.(tagline := tagline, persona := persona, version := nextVersion)
        else Doc(env.newId, nextVersion, tagline, persona)));
      if env.appendFault {
        return false;
      }
      tx := tx.(history := tx.history + [History(env.newId, persona, tagline,
        DiffOrEmpty(prev.persona, persona), DiffOrEmpty(prev.tagline, tagline), prev.version, nextVersion)]);
      if env.commitFault {
        return false;
      }
      db := tx;
      ok := true;
    }

    method Run(env: Env) returns (err: bool)
      modifies this
      ensures db == Refresh(old(db), env)
      ensures err <==>
        (|| env.memoriesFault
         || (env.memories > 0 &&
               (|| env.currentFault || env.reply.None?
                || (!Blank(Reply(old(db), env).1) &&
                    (env.beginFault || env.upsertFault || env.appendFault || env.commitFault)))))
      ensures err ==> db == old(db)
      ensures !err && db == old(db) ==> env.memories == 0 || Blank(Reply(old(db), env).1)
    {
      if env.memoriesFault {
        return true;
      }
      if env.memories == 0 {
        return false;
      }
      if env.currentFault || env.reply.None? {
        return true;
      }
      var tagline, persona := ParsePersonaReply(env.reply.value, db.doc, env.decode);
      if Blank(persona) {
        return false;
      }
      var ok := WritePersona(persona, tagline, env);
      err := !ok;
    }
  }

  /** Refreshes one after another, as the queue's single worker runs them. */
  ghost function RunAll(envs: seq<Env>): Db {
    if envs == [] then EMPTY else Refresh(RunAll(envs[..|envs| - 1]), envs[|envs| - 1])
  }

  // ---------- versions ----------

  predicate Chained(db: Db) {
    && (db.doc.None? <==> db.history == [])
    && Prev(db).version == |db.history|
    && forall i :: 0 <= i < |db.history| ==>
         db.history[i].previousVersion == i && db.history[i].nextVersion == i + 1
  }

  /** Each history row is a snapshot of its time, a diff against the row before, and not blank. */
  predicate Recorded(db: Db) {
    && (db.history != [] ==>
          && Prev(db).persona == db.history[|db.history| - 1].snapshotPersona
          && Prev(db).tagline == db.history[|db.history| - 1].snapshotTagline)
    && forall i :: 0 <= i < |db.history| ==> RowRecorded(db.history, i)
  }

  predicate RowRecorded(history: seq<History>, i: nat)
    requires i < |history|
  {
    && !Blank(history[i].snapshotPersona)
    && history[i].diffPersona ==
         DiffOrEmpty(if i == 0 then "" else history[i - 1].snapshotPersona, history[i].snapshotPersona)
    && history[i].diffTagline ==
         DiffOrEmpty(if i == 0 then "" else history[i - 1].snapshotTagline, history[i].snapshotTagline)
  }

  lemma WriteKeeps(db: Db, newId: string, tagline: string, persona: string)
    requires Chained(db) && Recorded(db) && !Blank(persona)
    ensures Chained(Write(db, newId, tagline, persona)) && Recorded(Write(db, newId, tagline, persona))
  {
    var db' := Write(db, newId, tagline, persona);
    forall i | 0 <= i < |db'.history| ensures RowRecorded(db'.history, i) {
      if i < |db.history| {
        assert RowRecorded(db.history, i);
        assert i > 0 ==> db'.history[i - 1] == db.history[i - 1];
      }
    }
  }

  lemma RefreshKeeps(db: Db, env: Env)
    requires Chained(db) && Recorded(db)
    ensures Chained(Refresh(db, env)) && Recorded(Refresh(db, env))
  {
    if Refresh(db, env) != db {
      var (tagline, persona) := Reply(db, env);
      WriteKeeps(db, env.newId, tagline, persona);
    }
  }

  /** Over any serial run, rolled-back refreshes included, the versions are 1, 2, ..., one per history row. */
  lemma {:induction false} VersionsAreContiguous(envs: seq<Env>)
    ensures Chained(RunAll(envs)) && Recorded(RunAll(envs))
  {
    if envs != [] {
      VersionsAreContiguous(envs[..|envs| - 1]);
      RefreshKeeps(RunAll(envs[..|envs| - 1]), envs[|envs| - 1]);
    }
  }

  /** A row's diff is empty exactly when its refresh left the persona as it was; likewise the tagline, or emptied it. */
  lemma DiffsSayWhatChanged(envs: seq<Env>, i: nat)
    requires i < |RunAll(envs).history|
    ensures var h := RunAll(envs).history;
      var (persona, tagline) := if i == 0 then ("", "") else (h[i - 1].snapshotPersona, h[i - 1].snapshotTagline);
      && (h[i].diffPersona == "" <==> h[i].snapshotPersona == persona)
      && (h[i].diffTagline == "" <==> h[i].snapshotTagline == tagline || h[i].snapshotTagline == "")
      && (h[i].diffPersona == "" || h[i].diffPersona == h[i].snapshotPersona)
      && (h[i].diffTagline == "" || h[i].diffTagline == h[i].snapshotTagline)
  {
    hide RunAll, Chained;
    VersionsAreContiguous(envs);
    assert RowRecorded(RunAll(envs).history, i);
  }

  // ---------- replay ----------

  /** An empty diff means "unchanged". */
  function ApplyDiff(current: string, diff: string): string {
    if diff == "" then current else diff
  }

  function ReplayPersona(history: seq<History>): string {
    if history == [] then ""
    else ApplyDiff(ReplayPersona(history[..|history| - 1]), history[|history| - 1].diffPersona)
  }

  function ReplayTagline(history: seq<History>): string {
    if history == [] then ""
    else ApplyDiff(ReplayTagline(history[..|history| - 1]), history[|history| - 1].diffTagline)
  }

  lemma {:induction false} ReplaySnapshot(db: Db, n: nat)
    requires Recorded(db) && n <= |db.history|
    ensures ReplayPersona(db.history[..n]) == if n == 0 then "" else db.history[n - 1].snapshotPersona
  {
    if n > 0 {
      ReplaySnapshot(db, n - 1);
      assert db.history[..n][..n - 1] == db.history[..n - 1];
      assert RowRecorded(db.history, n - 1);
    }
  }

  /** Folding the persona diffs reproduces every snapshot and ends at the live document. */
  lemma PersonaReplays(envs: seq<Env>)
    ensures var db := RunAll(envs);
      && (forall n :: 0 < n <= |db.history| ==>
            ReplayPersona(db.history[..n]) == db.history[n - 1].snapshotPersona)
      && ReplayPersona(db.history) == Prev(db).persona
  {
    var db := RunAll(envs);
    VersionsAreContiguous(envs);
    forall n | 0 < n <= |db.history| ensures ReplayPersona(db.history[..n]) == db.history[n - 1].snapshotPersona {
      ReplaySnapshot(db, n);
    }
    assert db.history[..|db.history|] == db.history;
  }

  /** Some refresh replaced a non-empty tagline by an empty one. */
  predicate Clears(history: seq<History>, i: nat) {
    0 < i < |history| && history[i - 1].snapshotTagline != "" && history[i].snapshotTagline == ""
  }

  lemma {:induction false} TaglineSnapshot(db: Db, n: nat)
    requires Recorded(db) && n <= |db.history|
    requires forall i :: 0 < i < n ==> !Clears(db.history, i)
    ensures ReplayTagline(db.history[..n]) == if n == 0 then "" else db.history[n - 1].snapshotTagline
  {
    if n > 0 {
      TaglineSnapshot(db, n - 1);
      assert db.history[..n][..n - 1] == db.history[..n - 1];
      assert RowRecorded(db.history, n - 1);
      assert n > 1 ==> !Clears(db.history, n - 1);
    }
  }

  predicate TaglinesReplay(history: seq<History>) {
    forall n :: 0 < n <= |history| ==> ReplayTagline(history[..n]) == history[n - 1].snapshotTagline
  }

  predicate NeverCleared(history: seq<History>) {
    forall i :: 0 < i < |history| ==> !Clears(history, i)
  }

  lemma ClearingBreaksReplay(db: Db, i: nat)
    requires Recorded(db) && Clears(db.history, i)
    ensures !TaglinesReplay(db.history)
  {
    var h := db.history;
    assert RowRecorded(h, i);
    assert h[..i + 1][..i] == h[..i];
    assert ReplayTagline(h[..i + 1]) == ReplayTagline(h[..i]);
  }

  /** The tagline diffs replay exactly when no refresh cleared a non-empty tagline. */
  lemma TaglineReplaysIffNeverCleared(envs: seq<Env>)
    ensures var db := RunAll(envs); TaglinesReplay(db.history) <==> NeverCleared(db.history)
  {
    var db := RunAll(envs);
    VersionsAreContiguous(envs);
    if NeverCleared(db.history) {
      forall n | 0 < n <= |db.history| ensures ReplayTagline(db.history[..n]) == db.history[n - 1].snapshotTagline {
        TaglineSnapshot(db, n);
      }
    } else {
      var i :| 0 < i < |db.history| && Clears(db.history, i);
      ClearingBreaksReplay(db, i);
    }
  }

  /** The last tagline before row `n` that was not empty. */
  function LastTagline(history: seq<History>, n: nat): string
    requires n <= |history|
  {
    if n == 0 then ""
    else if history[n - 1].snapshotTagline != "" then history[n - 1].snapshotTagline
    else LastTagline(history, n - 1)
  }

  lemma {:induction false} ReplayIsLastTagline(db: Db, n: nat)
    requires Recorded(db) && n <= |db.history|
    ensures ReplayTagline(db.history[..n]) == LastTagline(db.history, n)
  {
    if n > 0 {
      ReplayIsLastTagline(db, n - 1);
      assert db.history[..n][..n - 1] == db.history[..n - 1];
      assert RowRecorded(db.history, n - 1);
    }
  }

  predicate NeverTagged(history: seq<History>, n: nat)
    requires n <= |history|
  {
    forall i :: 0 <= i < n ==> history[i].snapshotTagline == ""
  }

  lemma {:induction false} LastTaglineEmptyIff(history: seq<History>, n: nat)
    requires n <= |history|
    ensures LastTagline(history, n) == "" <==> NeverTagged(history, n)
  {
    if n > 0 {
      LastTaglineEmptyIff(history, n - 1);
    }
  }

  /** The replayed tagline is the live one exactly when the live one is not empty, or there never was another. */
  lemma LiveTaglineReplaysIff(envs: seq<Env>)
    ensures var db := RunAll(envs);
      ReplayTagline(db.history) == Prev(db).tagline <==>
      Prev(db).tagline != "" || NeverTagged(db.history, |db.history|)
  {
    var db := RunAll(envs);
    VersionsAreContiguous(envs);
    ReplayIsLastTagline(db, |db.history|);
    LastTaglineEmptyIff(db.history, |db.history|);
    assert db.history[..|db.history|] == db.history;
  }

  /** Two replies in the shape of the prompt; the second has an empty tagline. */
  const FIRST_REPLY := "{\"tagline\": \"a\", \"persona\": \"p\"}"
  const CLEARING_REPLY := "{\"tagline\": \"\", \"persona\": \"q\"}"

  /** What these two texts say, and no other. */
  const DECODE: string -> Option<(string, string)> := text =>
    if text == FIRST_REPLY then Some(("a", "p"))
    else if text == CLEARING_REPLY then Some(("", "q"))
    else None

  const FIRST := Env(false, 1, false, Some(FIRST_REPLY), DECODE, false, false, false, false, "id1")
  const CLEARING := FIRST.(reply := Some(CLEARING_REPLY), newId := "id2")

  /** A reply with an empty tagline is not guarded against: after it the replayed tagline is stale. */
  lemma ClearedTaglineIsLost()
    ensures var db := RunAll([FIRST, CLEARING]);
      Prev(db).tagline == "" && ReplayTagline(db.history) == "a"
  {
    hide Refresh;
    RunAllSnoc([], FIRST);
    RunAllSnoc([FIRST], CLEARING);
    assert [] + [FIRST] == [FIRST] && [FIRST] + [CLEARING] == [FIRST, CLEARING];
    var db1 := Write(EMPTY, "id1", "a", "p");
    var db2 := Write(db1, "id2", "", "q");
    WitnessRefreshes();
    assert db1.history[..0] == [] && ReplayTagline(db1.history) == "a";
    assert db2.history[..1] == db1.history;
  }

  lemma WitnessRefreshes()
    ensures Refresh(EMPTY, FIRST) == Write(EMPTY, "id1", "a", "p")
    ensures forall db: Db :: Refresh(db, CLEARING) == Write(db, "id2", "", "q")
  {
    hide Search, Write, DecodeMatch;
    WitnessReplies();
    assert !Blank("p") && !Blank("q") by {
      assert !IsSpace("p"[0]) && !IsSpace("q"[0]);
    }
  }

  const KEY := "\"tagline\""

  /** The part of a reply between the first key and the closing brace. */
  function Rest(tagline: string, persona: string): string {
    ": \"" + (tagline + ("\", " + ("\"persona\"" + (": \"" + (persona + "\"")))))
  }

  function Object(rest: string): string {
    "{" + (KEY + (rest + "}"))
  }

  lemma FirstText()
    ensures FIRST_REPLY == Object(Rest("a", "p"))
  {
  }

  lemma ClearingText()
    ensures CLEARING_REPLY == Object(Rest("", "q"))
  {
  }

  lemma KeysFree()
    ensures PERSONA.Free(KEY) && PERSONA.Free("\"persona\"")
  {
  }

  lemma RestFree(tagline: string, persona: string)
    requires PERSONA.Free(tagline) && PERSONA.Free(persona) && PERSONA.Free("\"persona\"")
    ensures PERSONA.Free(Rest(tagline, persona))
  {
    var colon := ": \"";
    assert PERSONA.Free(colon) && PERSONA.Free("\", ") && PERSONA.Free("\"");
    RestFreeParts(tagline, persona, colon, "\", ", "\"persona\"", "\"");
  }

  lemma RestFreeParts(tagline: string, persona: string, colon: string, comma: string, key: string, quote: string)
    requires PERSONA.Free(tagline) && PERSONA.Free(persona) && PERSONA.Free(colon) && PERSONA.Free(comma)
    requires PERSONA.Free(key) && PERSONA.Free(quote)
    ensures PERSONA.Free(colon + (tagline + (comma + (key + (colon + (persona + quote))))))
  {
    hide Pattern.Free;
    FreeConcat(PERSONA, persona, quote);
    FreeConcat(PERSONA, colon, persona + quote);
    FreeConcat(PERSONA, key, colon + (persona + quote));
    FreeConcat(PERSONA, comma, key + (colon + (persona + quote)));
    FreeConcat(PERSONA, tagline, comma + (key + (colon + (persona + quote))));
    FreeConcat(PERSONA, colon, tagline + (comma + (key + (colon + (persona + quote)))));
  }

  lemma TaglineAccepted(rest: string)
    ensures PERSONA.accepts(KEY + rest)
  {
    var body := KEY + rest;
    assert body[0..] == body && KEY <= body;
    assert Contains(body, KEY);
  }

  lemma ObjectText(rest: string)
    ensures "" + ['{'] + (KEY + rest) + ['}'] + "" == Object(rest)
    ensures Object(rest)[0..|Object(rest)|] == Object(rest)
    ensures |Object(rest)| == |KEY + rest| + 2
  {
  }

  /** An object that starts with a tagline and has no braces inside is found and decoded whole. */
  lemma TaglineObjectFound(rest: string)
    requires PERSONA.Free(KEY) && PERSONA.Free(rest)
    ensures DecodeMatch(PERSONA, Object(rest), DECODE) == Some(DECODE(Object(rest)))
  {
    hide Object, Leftmost, Contains, Pattern.Free;
    FreeConcat(PERSONA, KEY, rest);
    TaglineAccepted(rest);
    ObjectText(rest);
    assert NoMatch(PERSONA, "");
    WrappedFoundIff(PERSONA, "", KEY + rest, "");
    SearchIs(PERSONA, Object(rest), Some((0, 1 + |KEY + rest|)));
  }

  lemma WitnessReplies()
    ensures forall db: Db :: Reply(db, FIRST) == ("a", "p") && Reply(db, CLEARING) == ("", "q")
  {
    hide DecodeMatch, Object, Rest;
    KeysFree();
    RestFree("a", "p");
    RestFree("", "q");
    FirstText();
    ClearingText();
    TaglineObjectFound(Rest("a", "p"));
    TaglineObjectFound(Rest("", "q"));
    assert |FIRST_REPLY| != |CLEARING_REPLY|;
  }

  lemma RunAllSnoc(envs: seq<Env>, env: Env)
    ensures RunAll(envs + [env]) == Refresh(RunAll(envs), env)
  {
    assert (envs + [env])[..|envs|] == envs;
  }

  // ---------- which document a history row names ----------

  function NewIds(envs: seq<Env>): (r: seq<string>)
    ensures |r| == |envs| && forall i :: 0 <= i < |r| ==> r[i] == envs[i].newId
  {
    seq(|envs|, i requires 0 <= i < |envs| => envs[i].newId)
  }

  predicate IdsFrom(history: seq<History>, ids: seq<string>) {
    forall i :: 0 <= i < |history| ==> history[i].personaId in ids
  }

  predicate FirstRowNamesDocument(db: Db) {
    db.history != [] ==>
      db.doc.Some? && forall i :: 0 <= i < |db.history| ==> (db.history[i].personaId == db.doc.value.id <==> i == 0)
  }

  lemma RefreshNames(db: Db, env: Env, ids: seq<string>)
    requires db.doc.None? <==> db.history == []
    requires FirstRowNamesDocument(db) && IdsFrom(db.history, ids) && env.newId !in ids
    ensures FirstRowNamesDocument(Refresh(db, env)) && IdsFrom(Refresh(db, env).history, ids + [env.newId])
  {
    hide Reply;
    assert db.history != [] ==> db.history[0].personaId in ids;
  }

  /**
   * A refresh generates a new id for its history row even though the upsert keeps the document's: given fresh
   * ids, only the first history row names the document.
   */
  lemma {:induction false} OnlyFirstRowNamesDocument(envs: seq<Env>)
    requires Distinct(NewIds(envs))
    ensures FirstRowNamesDocument(RunAll(envs)) && IdsFrom(RunAll(envs).history, NewIds(envs))
  {
    hide Refresh, FirstRowNamesDocument, IdsFrom, Recorded;
    if envs == [] {
      NothingNamed();
    } else {
      var n := |envs| - 1;
      var ids := NewIds(envs[..n]);
      assert NewIds(envs) == ids + [envs[n].newId];
      assert envs[n].newId !in ids;
      assert ids == NewIds(envs)[..n];
      OnlyFirstRowNamesDocument(envs[..n]);
      VersionsAreContiguous(envs[..n]);
      RefreshNames(RunAll(envs[..n]), envs[n], ids);
    }
  }

  lemma NothingNamed()
    ensures FirstRowNamesDocument(EMPTY) && IdsFrom(EMPTY.history, [])
  {
  }
}

/** Interleaved persona transactions, under read committed with the upsert's row lock held to the end. */
module PersonaTransactions {
  import opened SeqUtil

  datatype Phase =
    | Idle
    | Read(prev: nat)      // the version seen by the transaction's own query; 0 for none
    | Upserted(prev: nat)  // holds the row lock
    | Appended(prev: nat)

  /** The committed version (0 before the first) and number of history rows, and the open transactions. */
  datatype State = State(version: nat, rows: nat, phases: seq<Phase>, lock: Option<nat>)

  datatype Step = Begin(t: nat) | Upsert(t: nat) | Append(t: nat) | Commit(t: nat) | Rollback(t: nat)

  predicate Enabled(s: State, step: Step) {
    && step.t < |s.phases|
    && var p := s.phases[step.t];
    match step
    case Begin(t) => p.Idle?
    case Upsert(t) => p.Read? && s.lock.None?
    case Append(t) => p.Upserted?
    case Commit(t) => p.Appended?
    case Rollback(t) => !p.Idle?
  }

  function Unlock(s: State, t: nat): Option<nat> {
    if s.lock == Some(t) then None else s.lock
  }

  function Apply(s: State, step: Step): State
    requires Enabled(s, step)
  {
    var t := step.t;
    match step
    case Begin(_) => s.(phases := s.phases[t := Read(s.version)])
    case Upsert(_) => s.(phases := s.phases[t := Upserted(s.phases[t].prev)], lock := Some(t))
    case Append(_) => s.(phases := s.phases[t := Appended(s.phases[t].prev)])
    case Commit(_) => State(s.phases[t].prev + 1, s.rows + 1, s.phases[t := Idle], Unlock(s, t))
    case Rollback(_) => s.(phases := s.phases[t := Idle], lock := Unlock(s, t))
  }

  function Init(workers: nat): State {
    State(0, 0, seq(workers, _ => Idle), None)
  }

  predicate Runnable(s: State, steps: seq<Step>)
    decreases |steps|
  {
    steps == [] || (Enabled(s, steps[0]) && Runnable(Apply(s, steps[0]), steps[1..]))
  }

  function Exec(s: State, steps: seq<Step>): State
    requires Runnable(s, steps)
    decreases |steps|
  {
    if steps == [] then s else Exec(Apply(s, steps[0]), steps[1..])
  }

  predicate Behind(s: State) {
    && s.version <= s.rows
    && forall t :: 0 <= t < |s.phases| && !s.phases[t].Idle? ==> s.phases[t].prev <= s.rows
  }

  /** However transactions interleave, the version never exceeds the number of history rows. */
  lemma {:induction false} VersionAtMostRows(s: State, steps: seq<Step>)
    requires Behind(s) && Runnable(s, steps)
    ensures Behind(Exec(s, steps))
    decreases |steps|
  {
    if steps != [] {
      VersionAtMostRows(Apply(s, steps[0]), steps[1..]);
    }
  }

  /** Between its upsert and its end a transaction holds the row lock, and only then. */
  predicate Locked(s: State) {
    && (s.lock.Some? ==> s.lock.value < |s.phases|)
    && forall t :: 0 <= t < |s.phases| ==> (s.phases[t].Upserted? || s.phases[t].Appended? <==> s.lock == Some(t))
  }

  /** So no two transactions are between upsert and commit at once. */
  lemma {:induction false} LockExcludes(s: State, steps: seq<Step>)
    requires Locked(s) && Runnable(s, steps)
    ensures Locked(Exec(s, steps))
    ensures var end := Exec(s, steps);
      forall t, u :: 0 <= t < u < |end.phases| ==>
        !(end.phases[t].Upserted? || end.phases[t].Appended?) || !(end.phases[u].Upserted? || end.phases[u].Appended?)
    decreases |steps|
  {
    if steps != [] {
      LockExcludes(Apply(s, steps[0]), steps[1..]);
    }
  }

  /**
   * Nor do they block one another for ever: an open transaction, or the holder of the lock it waits for, has its
   * next write or its commit enabled, and can as well roll back, which frees the lock and leaves nothing behind.
   */
  lemma OpenTransactionsProceed(s: State, t: nat)
    requires Locked(s) && t < |s.phases| && !s.phases[t].Idle?
    ensures var u := if s.phases[t].Read? && s.lock.Some? then s.lock.value else t;
      && (Enabled(s, Upsert(u)) || Enabled(s, Append(u)) || Enabled(s, Commit(u)))
      && Enabled(s, Rollback(u))
      && var end := Apply(s, Rollback(u));
      && end.lock.None? && end.phases == s.phases[u := Idle]
      && end.version == s.version && end.rows == s.rows
  {
  }

  function Commits(steps: seq<Step>): nat {
    if steps == [] then 0 else (if steps[0].Commit? then 1 else 0) + Commits(steps[1..])
  }

  /** However transactions interleave, each commit appends one history row and nothing else does. */
  lemma {:induction false} RowsAreCommits(s: State, steps: seq<Step>)
    requires Runnable(s, steps)
    ensures Exec(s, steps).rows == s.rows + Commits(steps)
    decreases |steps|
  {
    if steps != [] {
      RowsAreCommits(Apply(s, steps[0]), steps[1..]);
    }
  }

  predicate InStep(s: State) {
    && |s.phases| <= 1 && s.version == s.rows
    && (|s.phases| == 1 && !s.phases[0].Idle? ==> s.phases[0].prev == s.version)
  }

  /** With the queue's single worker the version is the number of committed history rows. */
  lemma {:induction false} SingleWorkerVersions(s: State, steps: seq<Step>)
    requires InStep(s) && Runnable(s, steps)
    ensures InStep(Exec(s, steps))
    decreases |steps|
  {
    if steps != [] {
      SingleWorkerVersions(Apply(s, steps[0]), steps[1..]);
    }
  }

  function WholeTransaction(t: nat): seq<Step> {
    [Begin(t), Upsert(t), Append(t), Commit(t)]
  }

  lemma {:induction false} ExecAppend(s: State, a: seq<Step>, b: seq<Step>)
    requires Runnable(s, a) && Runnable(Exec(s, a), b)
    ensures Runnable(s, a + b) && Exec(s, a + b) == Exec(Exec(s, a), b)
    decreases |a|
  {
    if a == [] {
      assert a + b == b;
    } else {
      ExecAppend(Apply(s, a[0]), a[1..], b);
      assert (a + b)[1..] == a[1..] + b;
    }
  }

  lemma WholeTransactionRuns(s: State, t: nat)
    requires t < |s.phases| && s.phases[t].Idle? && s.lock.None?
    ensures Runnable(s, WholeTransaction(t))
    ensures Exec(s, WholeTransaction(t)) == s.(version := s.version + 1, rows := s.rows + 1)
  {
    var steps := WholeTransaction(t);
    var s1 := Apply(s, steps[0]);
    var s2 := Apply(s1, steps[1]);
    var s3 := Apply(s2, steps[2]);
    var s4 := Apply(s3, steps[3]);
    assert s4.phases == s.phases;
    assert steps[3..][1..] == [];
    assert Runnable(s3, steps[3..]) && Exec(s3, steps[3..]) == s4;
    assert steps[2..][1..] == steps[3..];
    assert Runnable(s2, steps[2..]) && Exec(s2, steps[2..]) == s4;
    assert steps[1..][1..] == steps[2..];
    assert Runnable(s1, steps[1..]) && Exec(s1, steps[1..]) == s4;
  }

  lemma {:induction false} ManyTransactions(s: State, t: nat, n: nat) returns (steps: seq<Step>)
    requires t < |s.phases| && s.phases[t].Idle? && s.lock.None?
    ensures Runnable(s, steps) && Exec(s, steps) == s.(version := s.version + n, rows := s.rows + n)
  {
    if n == 0 {
      steps := [];
    } else {
      var before := ManyTransactions(s, t, n - 1);
      WholeTransactionRuns(Exec(s, before), t);
      ExecAppend(s, before, WholeTransaction(t));
      steps := before + WholeTransaction(t);
    }
  }

  /**
   * With two workers the version can fall back arbitrarily far: one transaction reads, the other worker
   * commits n refreshes, and the first then commits version 1 over version n.
   */
  lemma VersionGoesBackwards(workers: nat, n: nat) returns (steps: seq<Step>, commit: Step)
    requires workers >= 2 && n >= 2
    ensures Runnable(Init(workers), steps)
    ensures var s := Exec(Init(workers), steps);
      s.version == n == s.rows && Enabled(s, commit) && Apply(s, commit).version == 1
  {
    var s0 := Apply(Init(workers), Begin(0));
    var first := [Begin(0)];
    assert first[1..] == [];
    assert Runnable(Init(workers), first) && Exec(Init(workers), first) == s0;
    var others := ManyTransactions(s0, 1, n);
    var s1 := Exec(s0, others);
    ExecAppend(Init(workers), first, others);
    var last := [Upsert(0), Append(0)];
    var s2 := Apply(s1, last[0]);
    var s3 := Apply(s2, last[1]);
    assert last[1..] == [Append(0)] && last[1..][1..] == [];
    assert Runnable(s2, last[1..]) && Exec(s2, last[1..]) == s3;
    assert Runnable(s1, last) && Exec(s1, last) == s3;
    ExecAppend(Init(workers), first + others, last);
    steps := first + others + last;
    commit := Commit(0);
  }

  /** The version is the number of history rows in every reachable state exactly when there is at most one worker. */
  lemma VersionCountsRowsIffOneWorker(workers: nat)
    ensures (forall steps :: Runnable(Init(workers), steps) ==>
              Exec(Init(workers), steps).version == Exec(Init(workers), steps).rows) <==> workers <= 1
  {
    hide Runnable, Exec, Enabled, Apply;
    if workers <= 1 {
      forall steps | Runnable(Init(workers), steps)
        ensures Exec(Init(workers), steps).version == Exec(Init(workers), steps).rows
      {
        SingleWorkerVersions(Init(workers), steps);
      }
    } else {
      var steps, commit := VersionGoesBackwards(workers, 2);
      CommitAtEnd(Init(workers), steps, commit);
    }
  }

  lemma CommitAtEnd(s: State, steps: seq<Step>, commit: Step)
    requires Runnable(s, steps) && Enabled(Exec(s, steps), commit)
    requires Exec(s, steps).rows >= 2 && Apply(Exec(s, steps), commit).version == 1
    ensures Runnable(s, steps + [commit]) && Exec(s, steps + [commit]).version != Exec(s, steps + [commit]).rows
  {
    assert [commit][1..] == [];
    var end := Exec(s, steps);
    assert Runnable(end, [commit]) && Exec(end, [commit]) == Apply(end, commit);
    ExecAppend(s, steps, [commit]);
  }
}
