/** Facts about finite sequences that several of the models share. */
module SeqUtil {

  datatype Option<+T> = None | Some(value: T)

  function Get<K, V>(m: map<K, V>, key: K): Option<V> {
    if key in m then Some(m[key]) else None
  }

  function Flatten<T>(parts: seq<seq<T>>): seq<T> {
    if parts == [] then [] else parts[0] + Flatten(parts[1..])
  }

  lemma Associative<T>(a: seq<T>, b: seq<T>, c: seq<T>)
    ensures (a + b) + c == a + (b + c)
  {
  }

  lemma {:induction false} FlattenMember<T>(parts: seq<seq<T>>, x: T)
    ensures x in Flatten(parts) <==> exists i :: 0 <= i < |parts| && x in parts[i]
  {
    if parts != [] {
      FlattenMember(parts[1..], x);
      if i :| 0 <= i < |parts| && x in parts[i] {
        assert i > 0 ==> parts[1..][i - 1] == parts[i];
      }
      if i :| 0 <= i < |parts[1..]| && x in parts[1..][i] {
        assert parts[i + 1] == parts[1..][i];
      }
    }
  }

  function Repeat<T>(s: seq<T>, n: nat): seq<T> {
    if n == 0 then [] else s + Repeat(s, n - 1)
  }

  lemma RepeatOnce<T>(s: seq<T>)
    ensures Repeat(s, 1) == s
  {
    assert Repeat(s, 1) == s + Repeat(s, 0);
  }

  lemma RepeatTwice<T>(s: seq<T>)
    ensures Repeat(s, 2) == s + s
  {
    assert Repeat(s, 2) == s + Repeat(s, 1);
    RepeatOnce(s);
  }

  lemma {:induction false} RepeatAppend<T>(s: seq<T>, n: nat)
    ensures Repeat(s, n + 1) == Repeat(s, n) + s
  {
    if n > 0 {
      RepeatAppend(s, n - 1);
      Associative(s, Repeat(s, n - 1), s);
    }
  }

  lemma {:induction false} RepeatNothing<T>(n: nat)
    ensures Repeat<T>([], n) == []
  {
    if n > 0 {
      RepeatNothing<T>(n - 1);
    }
  }

  /** The images of the elements, joined in order. */
  function ConcatMap<T, U>(s: seq<T>, f: T -> seq<U>): seq<U> {
    if s == [] then [] else ConcatMap(s[..|s| - 1], f) + f(s[|s| - 1])
  }

  lemma ConcatMapAppend<T, U>(s: seq<T>, x: T, f: T -> seq<U>)
    ensures ConcatMap(s + [x], f) == ConcatMap(s, f) + f(x)
  {
    assert (s + [x])[..|s|] == s;
  }

  lemma {:induction false} ConcatMapCons<T, U>(x: T, s: seq<T>, f: T -> seq<U>)
    ensures ConcatMap([x] + s, f) == f(x) + ConcatMap(s, f)
    decreases |s|, 1
  {
    if s == [] {
      assert [x] + s == [] + [x];
      ConcatMapAppend([], x, f);
    } else {
      ConcatMapConsSnoc(x, s[..|s| - 1], s[|s| - 1], f);
      assert s == s[..|s| - 1] + [s[|s| - 1]];
    }
  }

  lemma {:induction false} ConcatMapConsSnoc<T, U>(x: T, front: seq<T>, last: T, f: T -> seq<U>)
    ensures ConcatMap([x] + (front + [last]), f) == f(x) + ConcatMap(front + [last], f)
    decreases |front|, 2
  {
    hide ConcatMap;
    Associative([x], front, [last]);
    ConcatMapAppend([x] + front, last, f);
    ConcatMapAppend(front, last, f);
    ConcatMapCons(x, front, f);
    Associative(f(x), ConcatMap(front, f), f(last));
  }

  /** The sum of a weight over the elements of a sequence. */
  function Total<T>(s: seq<T>, weight: T -> nat): nat {
    if s == [] then 0 else weight(s[0]) + Total(s[1..], weight)
  }

  lemma {:induction false} TotalUpdate<T>(s: seq<T>, i: nat, x: T, weight: T -> nat)
    requires i < |s|
    ensures Total(s[i := x], weight) + weight(s[i]) == Total(s, weight) + weight(x)
  {
    if i == 0 {
      assert s[i := x][1..] == s[1..];
    } else {
      TotalUpdate(s[1..], i - 1, x, weight);
      assert s[i := x][1..] == s[1..][i - 1 := x];
    }
  }

  lemma {:induction false} TotalAtLeast<T>(s: seq<T>, i: nat, weight: T -> nat)
    requires i < |s|
    ensures weight(s[i]) <= Total(s, weight)
  {
    if i > 0 {
      TotalAtLeast(s[1..], i - 1, weight);
    }
  }

  /** A sum of weights that are all `w` is `w` times the length. */
  lemma {:induction false} TotalConstant<T>(s: seq<T>, weight: T -> nat, w: nat)
    requires forall i :: 0 <= i < |s| ==> weight(s[i]) == w
    ensures Total(s, weight) == w * |s|
  {
    if s != [] {
      TotalConstant(s[1..], weight, w);
    }
  }

  lemma {:induction false} TotalPositive<T>(s: seq<T>, weight: T -> nat) returns (i: nat)
    requires Total(s, weight) > 0
    ensures i < |s| && weight(s[i]) > 0
  {
    if weight(s[0]) > 0 {
      i := 0;
    } else {
      i := TotalPositive(s[1..], weight);
      i := i + 1;
    }
  }

  predicate Distinct<T(==)>(s: seq<T>) {
    forall i, j :: 0 <= i < j < |s| ==> s[i] != s[j]
  }

  /** Pigeonhole: distinct numbers below `n` are at most `n`, and `n` of them are all of them. */
  lemma {:induction false} DistinctBelow(s: seq<nat>, n: nat)
    requires Distinct(s)
    requires forall x :: x in s ==> x < n
    ensures |s| <= n
    ensures |s| == n ==> forall b: nat :: b < n ==> b in s
  {
    assert s != [] ==> s[0] in s;
    if n == 0 {
    } else if i :| 0 <= i < |s| && s[i] == n - 1 {
      var rest := s[..i] + s[i + 1..];
      forall x | x in rest ensures x < n - 1 {
        assert x in s && x != n - 1;
      }
      DistinctBelow(rest, n - 1);
      forall b: nat | |s| == n && b < n ensures b in s {
        assert b < n - 1 ==> b in rest;
      }
    } else {
      forall x | x in s ensures x < n - 1 {
        assert x != n - 1;
      }
      DistinctBelow(s, n - 1);
    }
  }

  /** A sequence that mentions every number below `n` has at least `n` elements. */
  lemma {:induction false} CoversBelow(s: seq<nat>, n: nat)
    requires forall b: nat :: b < n ==> b in s
    ensures |s| >= n
  {
    if n > 0 {
      assert n - 1 in s;
      var i :| 0 <= i < |s| && s[i] == n - 1;
      var rest := s[..i] + s[i + 1..];
      forall b: nat | b < n - 1 ensures b in rest {
        assert b in s;
        var j :| 0 <= j < |s| && s[j] == b;
        assert rest[if j < i then j else j - 1] == b;
      }
      CoversBelow(rest, n - 1);
    }
  }
}
