/**
 * The regular expressions that fish JSON out of a model's reply: an opening bracket, text free of both
 * brackets that meets some condition, and a closing bracket, leftmost match first.
 */
module BracketScan {
  import opened SeqUtil

  /** The bracket pair and the condition on the text between: none for arrays, a quoted key for objects. */
  datatype Pattern = Pattern(open: char, close: char, accepts: string -> bool) {
    predicate Valid() { open != close }
    predicate IsBracket(c: char) { c == open || c == close }
    predicate Free(s: string) { forall k :: 0 <= k < |s| ==> !IsBracket(s[k]) }
  }

  const ARRAY := Pattern('[', ']', _ => true)
  const GATEKEEPER := Pattern('{', '}', body => Contains(body, "\"relevant\""))
  const PERSONA := Pattern('{', '}', body => Contains(body, "\"tagline\"") || Contains(body, "\"persona\""))

  predicate Contains(s: string, key: string) {
    exists k :: 0 <= k <= |s| && key <= s[k..]
  }

  lemma ContainsMiddle(a: string, key: string, b: string)
    ensures Contains(a + (key + b), key)
  {
    var s := a + (key + b);
    assert s[|a|..] == key + b && key <= s[|a|..];
  }

  lemma ContainsWider(s: string, i: nat, j: nat, key: string)
    requires i <= j <= |s| && Contains(s[i..j], key)
    ensures exists k :: 0 <= k <= |s| && key <= s[k..]
  {
    var k :| 0 <= k <= j - i && key <= s[i..j][k..];
    assert s[i..j][k..] <= s[i + k..];
  }

  /** The text from `i` to `j`, both brackets included, matches the expression. */
  predicate MatchAt(p: Pattern, s: string, i: nat, j: nat) {
    i < j < |s| && s[i] == p.open && s[j] == p.close && p.Free(s[i + 1..j]) && p.accepts(s[i + 1..j])
  }

  /** What a regular-expression search means: a match, and none that starts further left. */
  ghost predicate Leftmost(p: Pattern, s: string, found: Option<(nat, nat)>) {
    match found
    case None => forall i: nat, j: nat :: !MatchAt(p, s, i, j)
    case Some((i, j)) => MatchAt(p, s, i, j) && forall i': nat, j': nat :: MatchAt(p, s, i', j') ==> i <= i'
  }

  /** Text between brackets has no bracket at any position inside. */
  lemma InsideFree(p: Pattern, s: string, i: nat, j: nat, l: nat)
    requires i < l < j <= |s| && p.Free(s[i + 1..j])
    ensures !p.IsBracket(s[l])
  {
    assert s[i + 1..j][l - i - 1] == s[l];
  }

  lemma FreeSnoc(p: Pattern, s: string, c: char)
    ensures p.Free(s + [c]) <==> p.Free(s) && !p.IsBracket(c)
  {
    assert (s + [c])[|s|] == c && forall k :: 0 <= k < |s| ==> (s + [c])[k] == s[k];
  }

  lemma FreeConcat(p: Pattern, a: string, b: string)
    ensures p.Free(a + b) <==> p.Free(a) && p.Free(b)
  {
    if p.Free(a + b) {
      forall k | 0 <= k < |a| ensures !p.IsBracket(a[k]) { assert (a + b)[k] == a[k]; }
      forall k | 0 <= k < |b| ensures !p.IsBracket(b[k]) { assert (a + b)[|a| + k] == b[k]; }
    }
  }

  lemma LeftmostUnique(p: Pattern, s: string, a: Option<(nat, nat)>, b: Option<(nat, nat)>)
    requires Leftmost(p, s, a) && Leftmost(p, s, b)
    ensures a == b
  {
    if a.Some? && b.Some? {
      var (i, j) := a.value;
      var (i', j') := b.value;
      assert MatchAt(p, s, i, j) && MatchAt(p, s, i', j') && i == i';
      if j < j' {
        InsideFree(p, s, i, j', j);
      } else if j' < j {
        InsideFree(p, s, i, j, j');
      }
    }
  }

  lemma LeftmostExists(p: Pattern, s: string)
    ensures exists found :: Leftmost(p, s, found)
  {
    if i: nat, j: nat :| MatchAt(p, s, i, j) {
      var left: nat, end: nat := i, j;
      while exists i': nat, j': nat :: MatchAt(p, s, i', j') && i' < left
        invariant MatchAt(p, s, left, end)
        decreases left
      {
        var i': nat, j': nat :| MatchAt(p, s, i', j') && i' < left;
        left, end := i', j';
      }
      var found: Option<(nat, nat)> := Some((left, end));
      assert Leftmost(p, s, found);
    } else {
      assert Leftmost(p, s, None);
    }
  }

  /** The one result that a search has. */
  ghost function Search(p: Pattern, s: string): (found: Option<(nat, nat)>)
    ensures Leftmost(p, s, found)
    ensures found.Some? ==> found.value.0 < found.value.1 < |s|
  {
    LeftmostExists(p, s);
    var found :| Leftmost(p, s, found);
    found
  }

  /** `l` is an opening bracket with no bracket after it before `k`. */
  predicate OpenSince(p: Pattern, s: string, l: nat, k: nat)
    requires k <= |s|
  {
    l < k && s[l] == p.open && p.Free(s[l + 1..k])
  }

  lemma OpenSinceStep(p: Pattern, s: string, l: nat, k: nat)
    requires p.Valid() && k < |s|
    ensures OpenSince(p, s, l, k + 1) <==>
      (l == k && s[k] == p.open) || (OpenSince(p, s, l, k) && !p.IsBracket(s[k]))
  {
    if l < k {
      assert s[l + 1..k + 1] == s[l + 1..k] + [s[k]];
      FreeSnoc(p, s[l + 1..k], s[k]);
    }
  }

  lemma SearchIs(p: Pattern, s: string, found: Option<(nat, nat)>)
    ensures Leftmost(p, s, found) <==> found == Search(p, s)
  {
    hide Leftmost;
    if Leftmost(p, s, found) {
      LeftmostUnique(p, s, found, Search(p, s));
    }
  }

  /** `last` is the opening bracket, if there is one, that a match ending at `k` would start from. */
  ghost predicate Remembers(p: Pattern, s: string, k: nat, last: Option<nat>)
    requires k <= |s|
  {
    forall l: nat :: OpenSince(p, s, l, k) <==> last == Some(l)
  }

  /** No match ends before `k`. */
  ghost predicate NoneEndsBefore(p: Pattern, s: string, k: nat) {
    forall i: nat, j: nat :: MatchAt(p, s, i, j) ==> j >= k
  }

  predicate EndsMatch(p: Pattern, s: string, k: nat, last: Option<nat>)
    requires k < |s| && (last.Some? ==> last.value < k)
  {
    last.Some? && s[k] == p.close && p.accepts(s[last.value + 1..k])
  }

  function NextLast(p: Pattern, c: char, k: nat, last: Option<nat>): Option<nat> {
    if c == p.open then Some(k) else if c == p.close then None else last
  }

  lemma ScanStarts(p: Pattern, s: string)
    ensures Remembers(p, s, 0, None) && NoneEndsBefore(p, s, 0)
  {
  }

  lemma RememberedBefore(p: Pattern, s: string, k: nat, last: Option<nat>)
    requires k <= |s| && Remembers(p, s, k, last)
    ensures last.Some? ==> last.value < k && OpenSince(p, s, last.value, k)
  {
  }

  lemma RemembersNext(p: Pattern, s: string, k: nat, last: Option<nat>)
    requires p.Valid() && k < |s| && Remembers(p, s, k, last)
    ensures Remembers(p, s, k + 1, NextLast(p, s[k], k, last))
  {
    hide OpenSince;
    forall l: nat ensures OpenSince(p, s, l, k + 1) <==>
      (l == k && s[k] == p.open) || (OpenSince(p, s, l, k) && !p.IsBracket(s[k]))
    {
      OpenSinceStep(p, s, l, k);
    }
    RememberedBefore(p, s, k, last);
  }

  lemma MatchAtEnd(p: Pattern, s: string, i: nat, k: nat)
    requires k < |s|
    ensures MatchAt(p, s, i, k) <==> OpenSince(p, s, i, k) && s[k] == p.close && p.accepts(s[i + 1..k])
  {
  }

  lemma NoneEndsNext(p: Pattern, s: string, k: nat, last: Option<nat>)
    requires k < |s| && Remembers(p, s, k, last) && (last.Some? ==> last.value < k)
    requires NoneEndsBefore(p, s, k) && !EndsMatch(p, s, k, last)
    ensures NoneEndsBefore(p, s, k + 1)
  {
    hide OpenSince, MatchAt;
    forall i: nat, j: nat | MatchAt(p, s, i, j) ensures j >= k + 1 {
      if j == k {
        MatchAtEnd(p, s, i, k);
      }
    }
  }

  /** A match that ends later cannot start earlier: the remembered bracket would lie inside it. */
  lemma ScanStops(p: Pattern, s: string, k: nat, last: Option<nat>)
    requires p.Valid() && k < |s| && Remembers(p, s, k, last) && (last.Some? ==> last.value < k)
    requires NoneEndsBefore(p, s, k) && EndsMatch(p, s, k, last)
    ensures Search(p, s) == Some((last.value, k))
  {
    hide OpenSince;
    var l := last.value;
    MatchAtEnd(p, s, l, k);
    forall i: nat, j: nat | MatchAt(p, s, i, j) ensures l <= i {
      if i < l {
        assert OpenSince(p, s, l, k);
        MatchOpens(p, s, l, k);
        InsideFree(p, s, i, j, l);
      }
    }
    SearchIs(p, s, Some((l, k)));
  }

  lemma MatchOpens(p: Pattern, s: string, i: nat, j: nat)
    requires MatchAt(p, s, i, j)
    ensures i < |s| && p.IsBracket(s[i])
  {
  }

  /** One pass that remembers the last opening bracket decides the search. */
  method Scan(p: Pattern, s: string) returns (found: Option<(nat, nat)>)
    requires p.Valid()
    ensures found == Search(p, s)
  {
    hide Remembers, NoneEndsBefore;
    var last: Option<nat> := None;
    ScanStarts(p, s);
    for k := 0 to |s|
      invariant Remembers(p, s, k, last) && NoneEndsBefore(p, s, k)
    {
      RememberedBefore(p, s, k, last);
      RemembersNext(p, s, k, last);
      if s[k] == p.open {
        NoneEndsNext(p, s, k, last);
        last := Some(k);
      } else if s[k] == p.close {
        if last.Some? && p.accepts(s[last.value + 1..k]) {
          ScanStops(p, s, k, last);
          return Some((last.value, k));
        }
        NoneEndsNext(p, s, k, last);
        last := None;
      } else {
        NoneEndsNext(p, s, k, last);
      }
    }
    found := None;
    NothingFound(p, s);
  }

  lemma NothingFound(p: Pattern, s: string)
    requires NoneEndsBefore(p, s, |s|)
    ensures Search(p, s) == None
  {
    SearchIs(p, s, None);
  }

  /** What the leftmost match decodes to; None without a match. */
  ghost function DecodeMatch<T>(p: Pattern, s: string, decode: string -> Option<T>): Option<Option<T>> {
    match Search(p, s)
    case None => None
    case Some((i, j)) => Some(decode(s[i..j + 1]))
  }

  method FindAndDecode<T>(p: Pattern, s: string, decode: string -> Option<T>) returns (r: Option<Option<T>>)
    requires p.Valid()
    ensures r == DecodeMatch(p, s, decode)
  {
    var found := Scan(p, s);
    if found.None? {
      return None;
    }
    r := Some(decode(s[found.value.0..found.value.1 + 1]));
  }

  predicate NoMatch(p: Pattern, s: string) {
    forall i, j :: 0 <= i < j < |s| ==> !MatchAt(p, s, i, j)
  }

  /**
   * Bracketed text inside prose is found as a whole exactly when the text is itself free of the brackets (and
   * accepted) and the prose before it has no match of its own; what follows does not matter.
   */
  lemma WrappedFoundIff(p: Pattern, pre: string, body: string, post: string)
    requires p.Valid()
    ensures Leftmost(p, pre + [p.open] + body + [p.close] + post, Some((|pre|, |pre| + 1 + |body|)))
      <==> p.Free(body) && p.accepts(body) && NoMatch(p, pre)
  {
    var s := pre + [p.open] + body + [p.close] + post;
    var (a, b) := (|pre|, |pre| + 1 + |body|);
    assert s[a] == p.open && s[b] == p.close && s[a + 1..b] == body;
    assert MatchAt(p, s, a, b) <==> p.Free(body) && p.accepts(body);
    forall i: nat, j: nat | i < a ensures MatchAt(p, s, i, j) <==> MatchAt(p, pre, i, j) {
      if MatchAt(p, s, i, j) {
        if j > a {
          InsideFree(p, s, i, j, a);
        }
        assert s[i + 1..j] == pre[i + 1..j];
      }
      if MatchAt(p, pre, i, j) {
        assert s[i + 1..j] == pre[i + 1..j];
      }
    }
  }
}
