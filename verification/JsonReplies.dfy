/**
 * JSON values as text (sections 4 and 5 of RFC 8259), white space included, and what the array expression finds
 * in them.
 */
module JsonReplies {
  import opened SeqUtil
  import opened BracketScan

  /** Insignificant white space: space, tab, line feed, carriage return. */
  type Space = w: string | forall i :: 0 <= i < |w| ==> w[i] in " \t\n\r"

  /**
   * `lexeme` is a number, true, false or null; strings hold the characters between their quotes. `blank` is
   * what stands between the brackets of an empty array or object.
   */
  datatype Json =
    | Lit(lexeme: string)
    | Str(body: string)
    | Arr(blank: Space, elems: seq<Item>)
    | Obj(blank: Space, fields: seq<Field>)

  /** A value with the white space around it. */
  datatype Item = Item(before: Space, value: Json, after: Space)

  /** A member of an object: a key with the white space around it, a colon, and the value. */
  datatype Field = Field(before: Space, key: string, after: Space, item: Item)

  function Print(v: Json): string {
    match v
    case Lit(lexeme) => lexeme
    case Str(body) => Quoted(body)
    case Arr(blank, elems) => "[" + (Elems(blank, elems) + "]")
    case Obj(blank, fields) => "{" + ((if fields == [] then blank else PrintFields(fields)) + "}")
  }

  function Quoted(s: string): string { "\"" + (s + "\"") }

  /** What stands between the brackets of an array. */
  function Elems(blank: Space, elems: seq<Item>): string
    decreases elems, 1
  {
    if elems == [] then blank else PrintItems(elems)
  }

  function PrintItem(item: Item): string {
    item.before + (Print(item.value) + item.after)
  }

  function PrintItems(elems: seq<Item>): string
    decreases elems, 0
  {
    if elems == [] then ""
    else PrintItem(elems[0]) + (if |elems| == 1 then "" else "," + PrintItems(elems[1..]))
  }

  function PrintField(field: Field): string {
    field.before + (Quoted(field.key) + (field.after + (":" + PrintItem(field.item))))
  }

  function PrintFields(fields: seq<Field>): string {
    if fields == [] then ""
    else PrintField(fields[0]) + (if |fields| == 1 then "" else "," + PrintFields(fields[1..]))
  }

  // ---------- which arrays are found as a whole ----------

  /** No array inside, and no square bracket in any string or lexeme. */
  predicate Flat(v: Json) {
    match v
    case Lit(lexeme) => ARRAY.Free(lexeme)
    case Str(body) => ARRAY.Free(body)
    case Arr(_, _) => false
    case Obj(_, fields) => FlatFields(fields)
  }

  predicate FlatItems(elems: seq<Item>) {
    elems == [] || (Flat(elems[0].value) && FlatItems(elems[1..]))
  }

  predicate FlatFields(fields: seq<Field>) {
    fields == [] || (ARRAY.Free(fields[0].key) && Flat(fields[0].item.value) && FlatFields(fields[1..]))
  }

  lemma FreeSpace(w: Space)
    ensures ARRAY.Free(w)
  {
    forall k | 0 <= k < |w| ensures !ARRAY.IsBracket(w[k]) {
      assert w[k] in " \t\n\r";
    }
  }

  lemma FreeQuoted(s: string)
    ensures ARRAY.Free(Quoted(s)) <==> ARRAY.Free(s)
  {
    FreeConcat(ARRAY, s, "\"");
    FreeConcat(ARRAY, "\"", s + "\"");
  }

  /** The printed text of a value is free of square brackets exactly when the value is flat. */
  lemma {:induction false} FlatIffFree(v: Json)
    ensures Flat(v) <==> ARRAY.Free(Print(v))
  {
    match v
    case Lit(_) =>
    case Str(body) => FreeQuoted(body);
    case Arr(blank, elems) => assert Print(v)[0] == '[';
    case Obj(blank, fields) =>
      FlatFieldsIffFree(fields);
      FreeSpace(blank);
      var inside := if fields == [] then blank else PrintFields(fields);
      FreeConcat(ARRAY, inside, "}");
      FreeConcat(ARRAY, "{", inside + "}");
  }

  lemma {:induction false} FlatItemIffFree(item: Item)
    ensures Flat(item.value) <==> ARRAY.Free(PrintItem(item))
  {
    FlatIffFree(item.value);
    FreeSpace(item.before);
    FreeSpace(item.after);
    FreeConcat(ARRAY, Print(item.value), item.after);
    FreeConcat(ARRAY, item.before, Print(item.value) + item.after);
  }

  lemma {:induction false} FlatItemsIffFree(elems: seq<Item>)
    ensures FlatItems(elems) <==> ARRAY.Free(PrintItems(elems))
  {
    if elems != [] {
      var rest := if |elems| == 1 then "" else "," + PrintItems(elems[1..]);
      FlatItemIffFree(elems[0]);
      FlatItemsIffFree(elems[1..]);
      FreeConcat(ARRAY, ",", PrintItems(elems[1..]));
      FreeConcat(ARRAY, PrintItem(elems[0]), rest);
    }
  }

  lemma {:induction false} FlatFieldIffFree(field: Field)
    ensures ARRAY.Free(field.key) && Flat(field.item.value) <==> ARRAY.Free(PrintField(field))
  {
    FlatItemIffFree(field.item);
    FreeQuoted(field.key);
    FreeSpace(field.before);
    FreeSpace(field.after);
    FreeConcat(ARRAY, ":", PrintItem(field.item));
    FreeConcat(ARRAY, field.after, ":" + PrintItem(field.item));
    FreeConcat(ARRAY, Quoted(field.key), field.after + (":" + PrintItem(field.item)));
    FreeConcat(ARRAY, field.before, Quoted(field.key) + (field.after + (":" + PrintItem(field.item))));
  }

  lemma {:induction false} FlatFieldsIffFree(fields: seq<Field>)
    ensures FlatFields(fields) <==> ARRAY.Free(PrintFields(fields))
  {
    if fields != [] {
      var rest := if |fields| == 1 then "" else "," + PrintFields(fields[1..]);
      FlatFieldIffFree(fields[0]);
      FlatFieldsIffFree(fields[1..]);
      FreeConcat(ARRAY, ",", PrintFields(fields[1..]));
      FreeConcat(ARRAY, PrintField(fields[0]), rest);
    }
  }

  /** The text of an array within a reply. */
  lemma ArrayText(pre: string, blank: Space, elems: seq<Item>, post: string)
    ensures pre + Print(Arr(blank, elems)) + post == pre + ['['] + Elems(blank, elems) + [']'] + post
    ensures |Print(Arr(blank, elems))| == |Elems(blank, elems)| + 2
    ensures ARRAY.Free(Elems(blank, elems)) <==> FlatItems(elems)
  {
    hide PrintItems;
    FreeSpace(blank);
    FlatItemsIffFree(elems);
  }

  /** A JSON array in a reply is recovered exactly when its elements are flat and no match precedes it. */
  lemma ArrayRecoveredIffFlat(pre: string, blank: Space, elems: seq<Item>, post: string)
    ensures var text := Print(Arr(blank, elems));
      Search(ARRAY, pre + text + post) == Some((|pre|, |pre| + |text| - 1)) <==> FlatItems(elems) && NoMatch(ARRAY, pre)
  {
    hide FlatItems, PrintItems, Pattern.Free, Leftmost, NoMatch;
    var text := Print(Arr(blank, elems));
    ArrayText(pre, blank, elems, post);
    WrappedFoundIff(ARRAY, pre, Elems(blank, elems), post);
    SearchIs(ARRAY, pre + text + post, Some((|pre|, |pre| + |text| - 1)));
  }

  predicate HasArrayField(v: Json) {
    v.Obj? && exists k :: 0 <= k < |v.fields| && v.fields[k].item.value.Arr?
  }

  lemma {:induction false} ArrayFieldNotFlat(fields: seq<Field>, k: nat)
    requires k < |fields| && fields[k].item.value.Arr?
    ensures !FlatFields(fields)
  {
    if k > 0 {
      ArrayFieldNotFlat(fields[1..], k - 1);
    }
  }

  lemma {:induction false} NotFlatItem(elems: seq<Item>, i: nat)
    requires i < |elems| && !Flat(elems[i].value)
    ensures !FlatItems(elems)
  {
    if i > 0 {
      NotFlatItem(elems[1..], i - 1);
    }
  }

  /** Once an element has an array field, as the `tags` the prompts ask for, no prose makes the array come out whole. */
  lemma TaggedArrayNeverRecovered(pre: string, blank: Space, elems: seq<Item>, post: string, i: nat)
    requires i < |elems| && HasArrayField(elems[i].value)
    ensures var text := Print(Arr(blank, elems));
      Search(ARRAY, pre + text + post) != Some((|pre|, |pre| + |text| - 1))
  {
    var fields := elems[i].value.fields;
    var k :| 0 <= k < |fields| && fields[k].item.value.Arr?;
    ArrayFieldNotFlat(fields, k);
    NotFlatItem(elems, i);
    ArrayRecoveredIffFlat(pre, blank, elems, post);
  }

  /**
   * Whatever brackets its strings hold, what such an array yields in bracket-free prose is nothing, or a piece
   * of the array that is not all of it.
   */
  lemma TaggedArrayYieldsPart(pre: string, blank: Space, elems: seq<Item>, post: string, i: nat)
    requires i < |elems| && HasArrayField(elems[i].value) && ARRAY.Free(pre) && ARRAY.Free(post)
    ensures var text := Print(Arr(blank, elems));
      var found := Search(ARRAY, pre + text + post);
      found.Some? ==>
        && |pre| <= found.value.0 && found.value.1 < |pre| + |text|
        && found.value.1 - found.value.0 + 1 < |text|
  {
    hide Flat, FlatItems, Print, PrintItems;
    var text := Print(Arr(blank, elems));
    var s := pre + text + post;
    TaggedArrayNeverRecovered(pre, blank, elems, post, i);
    assert forall k :: 0 <= k < |pre| ==> s[k] == pre[k] && !ARRAY.IsBracket(s[k]);
    assert forall k :: |pre| + |text| <= k < |s| ==> s[k] == post[k - |pre| - |text|] && !ARRAY.IsBracket(s[k]);
    var found := Search(ARRAY, s);
    if found.Some? {
      assert MatchAt(ARRAY, s, found.value.0, found.value.1);
    }
  }

  // ---------- what is found instead: the first innermost array ----------

  /** No square bracket in any string or lexeme; arrays are allowed. */
  predicate Clean(v: Json) {
    match v
    case Lit(lexeme) => ARRAY.Free(lexeme)
    case Str(body) => ARRAY.Free(body)
    case Arr(_, elems) => CleanItems(elems)
    case Obj(_, fields) => CleanFields(fields)
  }

  predicate CleanItems(elems: seq<Item>) {
    elems == [] || (Clean(elems[0].value) && CleanItems(elems[1..]))
  }

  predicate CleanFields(fields: seq<Field>) {
    fields == [] || (ARRAY.Free(fields[0].key) && Clean(fields[0].item.value) && CleanFields(fields[1..]))
  }

  predicate HasArray(v: Json) {
    match v
    case Lit(_) => false
    case Str(_) => false
    case Arr(_, _) => true
    case Obj(_, fields) => FieldsHaveArray(fields)
  }

  predicate ItemsHaveArray(elems: seq<Item>) {
    elems != [] && (HasArray(elems[0].value) || ItemsHaveArray(elems[1..]))
  }

  predicate FieldsHaveArray(fields: seq<Field>) {
    fields != [] && (HasArray(fields[0].item.value) || FieldsHaveArray(fields[1..]))
  }

  /** The first array, in the order of the text, that has no array inside. */
  function FirstInner(v: Json): Json
    requires HasArray(v)
  {
    match v
    case Arr(_, elems) => if ItemsHaveArray(elems) then FirstInnerItems(elems) else v
    case Obj(_, fields) => FirstInnerFields(fields)
  }

  function FirstInnerItems(elems: seq<Item>): Json
    requires ItemsHaveArray(elems)
  {
    if HasArray(elems[0].value) then FirstInner(elems[0].value) else FirstInnerItems(elems[1..])
  }

  function FirstInnerFields(fields: seq<Field>): Json
    requires FieldsHaveArray(fields)
  {
    if HasArray(fields[0].item.value) then FirstInner(fields[0].item.value) else FirstInnerFields(fields[1..])
  }

  lemma {:induction false} FlatWithoutArray(v: Json)
    requires Clean(v) && !HasArray(v)
    ensures Flat(v)
  {
    if v.Obj? {
      FieldsFlatWithoutArray(v.fields);
    }
  }

  lemma {:induction false} FieldsFlatWithoutArray(fields: seq<Field>)
    requires CleanFields(fields) && !FieldsHaveArray(fields)
    ensures FlatFields(fields)
  {
    if fields != [] {
      FlatWithoutArray(fields[0].item.value);
      FieldsFlatWithoutArray(fields[1..]);
    }
  }

  lemma {:induction false} ItemsFlatWithoutArray(elems: seq<Item>)
    requires CleanItems(elems) && !ItemsHaveArray(elems)
    ensures FlatItems(elems)
  {
    if elems != [] {
      FlatWithoutArray(elems[0].value);
      ItemsFlatWithoutArray(elems[1..]);
    }
  }

  /** No closing bracket, so nothing that could end a match. */
  predicate Unclosed(s: string) { forall k :: 0 <= k < |s| ==> s[k] != ']' }

  /** `w` is a flat array, and `text` is its text between one that no match ends in and some other. */
  predicate Holds(text: string, a: string, w: Json, c: string) {
    w.Arr? && FlatItems(w.elems) && Unclosed(a) && text == a + Print(w) + c
  }

  lemma HoldsWider(text: string, a: string, w: Json, c: string, before: string, after: string)
    requires Holds(text, a, w, c) && Unclosed(before)
    ensures Holds(before + (text + after), before + a, w, c + after)
  {
    hide Print, FlatItems;
  }

  /** Before its first innermost array, the text of a value only opens brackets. */
  lemma {:induction false} FirstInnerText(v: Json) returns (a: string, c: string)
    requires Clean(v) && HasArray(v)
    ensures Holds(Print(v), a, FirstInner(v), c)
  {
    match v
    case Arr(blank, elems) =>
      if ItemsHaveArray(elems) {
        a, c := ItemsFirstInner(elems);
        HoldsWider(PrintItems(elems), a, FirstInnerItems(elems), c, "[", "]");
        a, c := "[" + a, c + "]";
      } else {
        ItemsFlatWithoutArray(elems);
        a, c := "", "";
        assert Print(v) == "" + Print(v) + "";
      }
    case Obj(blank, fields) =>
      a, c := FieldsFirstInner(fields);
      HoldsWider(PrintFields(fields), a, FirstInnerFields(fields), c, "{", "}");
      a, c := "{" + a, c + "}";
  }

  lemma {:induction false} ItemFirstInner(item: Item) returns (a: string, c: string)
    requires Clean(item.value) && HasArray(item.value)
    ensures Holds(PrintItem(item), a, FirstInner(item.value), c)
  {
    a, c := FirstInnerText(item.value);
    FreeSpace(item.before);
    HoldsWider(Print(item.value), a, FirstInner(item.value), c, item.before, item.after);
    a, c := item.before + a, c + item.after;
  }

  lemma {:induction false} ItemsFirstInner(elems: seq<Item>) returns (a: string, c: string)
    requires CleanItems(elems) && ItemsHaveArray(elems)
    ensures Holds(PrintItems(elems), a, FirstInnerItems(elems), c)
  {
    var first := PrintItem(elems[0]);
    if HasArray(elems[0].value) {
      var rest := if |elems| == 1 then "" else "," + PrintItems(elems[1..]);
      a, c := ItemFirstInner(elems[0]);
      HoldsWider(first, a, FirstInner(elems[0].value), c, "", rest);
      assert "" + (first + rest) == PrintItems(elems);
      a, c := "" + a, c + rest;
    } else {
      FlatWithoutArray(elems[0].value);
      FlatItemIffFree(elems[0]);
      a, c := ItemsFirstInner(elems[1..]);
      UnclosedComma(first);
      HoldsWider(PrintItems(elems[1..]), a, FirstInnerItems(elems[1..]), c, first + ",", "");
      assert (first + ",") + (PrintItems(elems[1..]) + "") == PrintItems(elems);
      a, c := (first + ",") + a, c + "";
    }
  }

  lemma UnclosedComma(s: string)
    requires ARRAY.Free(s)
    ensures Unclosed(s + ",")
  {
    FreeConcat(ARRAY, s, ",");
  }

  lemma {:induction false} FieldFirstInner(field: Field) returns (a: string, c: string)
    requires ARRAY.Free(field.key) && Clean(field.item.value) && HasArray(field.item.value)
    ensures Holds(PrintField(field), a, FirstInner(field.item.value), c)
  {
    a, c := ItemFirstInner(field.item);
    var before := field.before + (Quoted(field.key) + (field.after + ":"));
    FreeSpace(field.before);
    FreeSpace(field.after);
    FreeQuoted(field.key);
    FreeConcat(ARRAY, field.after, ":");
    FreeConcat(ARRAY, Quoted(field.key), field.after + ":");
    FreeConcat(ARRAY, field.before, Quoted(field.key) + (field.after + ":"));
    HoldsWider(PrintItem(field.item), a, FirstInner(field.item.value), c, before, "");
    FieldText(field.before, Quoted(field.key), field.after, PrintItem(field.item));
    a, c := before + a, c + "";
  }

  lemma FieldText(before: string, key: string, after: string, item: string)
    ensures (before + (key + (after + ":"))) + (item + "") == before + (key + (after + (":" + item)))
  {
  }

  lemma {:induction false} FieldsFirstInner(fields: seq<Field>) returns (a: string, c: string)
    requires CleanFields(fields) && FieldsHaveArray(fields)
    ensures Holds(PrintFields(fields), a, FirstInnerFields(fields), c)
  {
    var first := PrintField(fields[0]);
    if HasArray(fields[0].item.value) {
      var rest := if |fields| == 1 then "" else "," + PrintFields(fields[1..]);
      a, c := FieldFirstInner(fields[0]);
      HoldsWider(first, a, FirstInner(fields[0].item.value), c, "", rest);
      assert "" + (first + rest) == PrintFields(fields);
      a, c := "" + a, c + rest;
    } else {
      FlatWithoutArray(fields[0].item.value);
      FlatFieldIffFree(fields[0]);
      a, c := FieldsFirstInner(fields[1..]);
      UnclosedComma(first);
      HoldsWider(PrintFields(fields[1..]), a, FirstInnerFields(fields[1..]), c, first + ",", "");
      assert (first + ",") + (PrintFields(fields[1..]) + "") == PrintFields(fields);
      a, c := (first + ",") + a, c + "";
    }
  }

  /**
   * In a reply without brackets in its strings, after prose that closes no bracket, what is found and decoded is
   * exactly the first innermost array, however deep it lies.
   */
  lemma FirstInnerFound<T>(pre: string, v: Json, post: string, decode: string -> Option<T>)
    requires Clean(v) && HasArray(v) && Unclosed(pre)
    ensures DecodeMatch(ARRAY, pre + Print(v) + post, decode) == Some(decode(Print(FirstInner(v))))
  {
    hide Clean, HasArray, FirstInner, FlatItems, Print;
    var a, c := FirstInnerText(v);
    var w := FirstInner(v);
    var s := pre + Print(v) + post;
    SameText(pre, a, Print(w), c, post);
    NoMatchUnclosed(pre + a);
    ArrayRecoveredIffFlat(pre + a, w.blank, w.elems, c + post);
    assert s == (pre + a) + Print(w) + (c + post);
    assert s[|pre + a|..|pre + a| + |Print(w)|] == Print(w);
  }

  lemma SameText(pre: string, a: string, w: string, c: string, post: string)
    ensures pre + (a + w + c) + post == (pre + a) + w + (c + post)
  {
  }

  lemma NoMatchUnclosed(s: string)
    requires Unclosed(s)
    ensures NoMatch(ARRAY, s)
  {
  }

  /** The rows of a reply: none without a match, and an error (None) when the match does not decode. */
  ghost function ArrayReply<T>(reply: string, decode: string -> Option<seq<T>>): Option<seq<T>> {
    var r := DecodeMatch(ARRAY, reply, decode);
    if r.None? then Some([]) else r.value
  }

  method ParseArrayReply<T>(reply: string, decode: string -> Option<seq<T>>) returns (rows: Option<seq<T>>)
    ensures rows == ArrayReply(reply, decode)
  {
    var r := FindAndDecode(ARRAY, reply, decode);
    rows := if r.None? then Some([]) else r.value;
  }

  /** A flat array after prose without a match is decoded as it stands; a reply without a match has no rows. */
  lemma FlatArrayDecoded<T>(
      pre: string, blank: Space, elems: seq<Item>, post: string, decode: string -> Option<seq<T>>)
    requires FlatItems(elems) && NoMatch(ARRAY, pre)
    ensures var text := Print(Arr(blank, elems)); ArrayReply(pre + text + post, decode) == decode(text)
    ensures ArrayReply(pre, decode) == Some([])
  {
    hide FlatItems, Print;
    var text := Print(Arr(blank, elems));
    ArrayRecoveredIffFlat(pre, blank, elems, post);
    assert (pre + text + post)[|pre|..|pre| + |text|] == text;
    NothingMatched(pre);
  }

  lemma NothingMatched(s: string)
    requires NoMatch(ARRAY, s)
    ensures Search(ARRAY, s) == None
  {
    SearchIs(ARRAY, s, None);
  }

  // ---------- replies of the shape that the prompts ask for ----------

  /** An array of strings, as the value of `tags`. */
  predicate Labels(v: Json) {
    v.Arr? && forall i :: 0 <= i < |v.elems| ==> v.elems[i].value.Str?
  }

  /** An object whose fields are arrays of labels, or have no array at all. */
  predicate Tagged(v: Json) {
    v.Obj? && forall k :: 0 <= k < |v.fields| ==> Labels(v.fields[k].item.value) || !HasArray(v.fields[k].item.value)
  }

  lemma {:induction false} LabelsHaveNoArray(elems: seq<Item>)
    requires forall i :: 0 <= i < |elems| ==> elems[i].value.Str?
    ensures !ItemsHaveArray(elems)
  {
    if elems != [] {
      LabelsHaveNoArray(elems[1..]);
    }
  }

  lemma {:induction false} TaggedFields(fields: seq<Field>)
    requires FieldsHaveArray(fields)
    requires forall k :: 0 <= k < |fields| ==> Labels(fields[k].item.value) || !HasArray(fields[k].item.value)
    ensures Labels(FirstInnerFields(fields))
  {
    if HasArray(fields[0].item.value) {
      LabelsHaveNoArray(fields[0].item.value.elems);
    } else {
      TaggedFields(fields[1..]);
    }
  }

  lemma {:induction false} TaggedItems(elems: seq<Item>)
    requires ItemsHaveArray(elems) && forall i :: 0 <= i < |elems| ==> Tagged(elems[i].value)
    ensures Labels(FirstInnerItems(elems))
  {
    if HasArray(elems[0].value) {
      TaggedFields(elems[0].value.fields);
    } else {
      TaggedItems(elems[1..]);
    }
  }

  /** A reply as the prompts ask for it, at least one element with tags, in prose that closes no bracket. */
  ghost predicate TaggedReply(reply: string) {
    exists pre: string, blank: Space, elems: seq<Item>, post: string ::
      && reply == pre + Print(Arr(blank, elems)) + post && Unclosed(pre)
      && CleanItems(elems) && ItemsHaveArray(elems)
      && forall i :: 0 <= i < |elems| ==> Tagged(elems[i].value)
  }

  /** A decoder of objects finds none in an array of strings: it fails, or the array was empty. */
  ghost predicate RejectsLabels<T(!new)>(decode: string -> Option<seq<T>>) {
    forall w: Json :: Labels(w) ==> decode(Print(w)) == None || decode(Print(w)) == Some([])
  }

  /** Such a reply gives a decoder of objects no row at all. */
  lemma TaggedReplyGivesNoRows<T(!new)>(reply: string, decode: string -> Option<seq<T>>)
    requires TaggedReply(reply) && RejectsLabels(decode)
    ensures ArrayReply(reply, decode) == None || ArrayReply(reply, decode) == Some([])
  {
    var pre: string, blank: Space, elems: seq<Item>, post: string :|
      && reply == pre + Print(Arr(blank, elems)) + post && Unclosed(pre)
      && CleanItems(elems) && ItemsHaveArray(elems)
      && forall i :: 0 <= i < |elems| ==> Tagged(elems[i].value);
    var v := Arr(blank, elems);
    TaggedItems(elems);
    FirstInnerFound(pre, v, post, decode);
    assert Labels(FirstInner(v));
  }

  // ---------- a reply in the shape of the prompts ----------

  const PROMPTED := "[{\"description\": \"d\", \"tags\": [\"x\"]}]"

  const TAGS := Arr("", [Item("", Str("x"), "")])
  const DESCRIPTION := Field("", "description", "", Item(" ", Str("d"), ""))
  const TAGGING := Field(" ", "tags", "", Item(" ", TAGS, ""))
  const DESCRIBED := Item("", Obj("", [DESCRIPTION, TAGGING]), "")

  lemma TagsText()
    ensures Print(TAGS) == "[\"x\"]"
  {
    assert PrintItems([Item("", Str("x"), "")]) == PrintItem(Item("", Str("x"), "")) + "";
  }

  lemma FieldTexts()
    ensures PrintField(DESCRIPTION) == "\"description\": \"d\"" && PrintField(TAGGING) == " \"tags\": [\"x\"]"
  {
    hide PrintItems;
    TagsText();
    assert PrintItem(DESCRIPTION.item) == " \"d\"" && PrintItem(TAGGING.item) == " [\"x\"]";
  }

  lemma FieldsText()
    ensures PrintFields([DESCRIPTION, TAGGING]) == PrintField(DESCRIPTION) + ("," + (PrintField(TAGGING) + ""))
  {
    hide PrintField;
    assert [DESCRIPTION, TAGGING][1..] == [TAGGING];
  }

  function Around(d: string, t: string): string {
    "[{" + (d + ("," + (t + "}]")))
  }

  lemma ItemsText()
    ensures Print(Arr("", [DESCRIBED])) == Around(PrintField(DESCRIPTION), PrintField(TAGGING))
  {
    hide PrintField, PrintFields;
    FieldsText();
    assert PrintItems([DESCRIBED]) == "" + (Print(DESCRIBED.value) + "") + "";
  }

  lemma PromptedText()
    ensures Print(Arr("", [DESCRIBED])) == PROMPTED
  {
    hide Print, PrintField, Around;
    ItemsText();
    FieldTexts();
    PromptedPieces();
  }

  lemma PromptedPieces()
    ensures Around("\"description\": \"d\"", " \"tags\": [\"x\"]") == PROMPTED
  {
  }

  lemma ItemsCons(item: Item, rest: seq<Item>)
    ensures CleanItems([item] + rest) <==> Clean(item.value) && CleanItems(rest)
    ensures ItemsHaveArray([item] + rest) <==> HasArray(item.value) || ItemsHaveArray(rest)
    ensures HasArray(item.value) ==> FirstInnerItems([item] + rest) == FirstInner(item.value)
  {
    hide Clean, HasArray, FirstInner;
    assert ([item] + rest)[1..] == rest;
  }

  lemma FieldsCons(field: Field, rest: seq<Field>)
    ensures CleanFields([field] + rest) <==>
      ARRAY.Free(field.key) && Clean(field.item.value) && CleanFields(rest)
    ensures FieldsHaveArray([field] + rest) <==> HasArray(field.item.value) || FieldsHaveArray(rest)
    ensures HasArray(field.item.value) ==> FirstInnerFields([field] + rest) == FirstInner(field.item.value)
    ensures !HasArray(field.item.value) && FieldsHaveArray(rest) ==>
      FirstInnerFields([field] + rest) == FirstInnerFields(rest)
  {
    hide Clean, HasArray, FirstInner;
    assert ([field] + rest)[1..] == rest;
  }

  lemma TagsShape()
    ensures Clean(TAGS) && HasArray(TAGS) && FirstInner(TAGS) == TAGS && Labels(TAGS)
  {
    ItemsCons(Item("", Str("x"), ""), []);
    assert [Item("", Str("x"), "")] + [] == TAGS.elems;
  }

  lemma DescribedShape()
    ensures Clean(DESCRIBED.value) && HasArray(DESCRIBED.value) && Tagged(DESCRIBED.value)
    ensures FirstInner(DESCRIBED.value) == TAGS
  {
    TagsShape();
    FieldsCons(TAGGING, []);
    FieldsCons(DESCRIPTION, [TAGGING]);
    assert [TAGGING] + [] == [TAGGING] && [DESCRIPTION] + [TAGGING] == [DESCRIPTION, TAGGING];
  }

  lemma PromptedShape()
    ensures CleanItems([DESCRIBED]) && ItemsHaveArray([DESCRIBED]) && Tagged(DESCRIBED.value)
    ensures FirstInner(Arr("", [DESCRIBED])) == TAGS
  {
    hide Clean, HasArray, Tagged, CleanItems, ItemsHaveArray, FirstInnerItems;
    DescribedShape();
    ItemsCons(DESCRIBED, []);
    assert [DESCRIBED] + [] == [DESCRIBED];
    NoItems();
  }

  lemma NoItems()
    ensures CleanItems([]) && !ItemsHaveArray([])
  {
  }

  /** It is a tagged reply, and what is found in it is its array of tags. */
  lemma PromptedIsTagged<T>(decode: string -> Option<T>)
    ensures TaggedReply(PROMPTED)
    ensures DecodeMatch(ARRAY, PROMPTED, decode) == Some(decode("[\"x\"]"))
  {
    hide Print, DecodeMatch, CleanItems, ItemsHaveArray, FirstInner, Tagged;
    var v := Arr("", [DESCRIBED]);
    TagsText();
    PromptedText();
    PromptedShape();
    assert PROMPTED == "" + Print(v) + "";
    FirstInnerFound("", v, "", decode);
  }
}
