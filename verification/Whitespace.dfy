/** Unicode white space in UTF-8, `strings.TrimSpace`, and text with its white space erased. */
module Whitespace {
  import opened SeqUtil
  import opened Utf8

  predicate Space2(a: byte, b: byte) { a == 0xC2 && (b == 0x85 || b == 0xA0) }

  predicate Space3(a: byte, b: byte, c: byte) {
    || (a == 0xE1 && b == 0x9A && c == 0x80)
    || (a == 0xE2 && b == 0x80 && (0x80 <= c <= 0x8A || c == 0xA8 || c == 0xA9 || c == 0xAF))
    || (a == 0xE2 && b == 0x81 && c == 0x9F)
    || (a == 0xE3 && b == 0x80 && c == 0x80)
  }

  predicate Space1(a: byte) { 9 <= a <= 13 || a == 32 }

  /** The number of bytes of the white-space character at the front of `s`; 0 when there is none. */
  function SpaceAt(s: seq<byte>): (n: nat)
    ensures n <= |s| && (n > 0 ==> CharLen(s) == n)
  {
    if |s| >= 1 && Space1(s[0]) then 1
    else if |s| >= 2 && Space2(s[0], s[1]) then 2
    else if |s| >= 3 && Space3(s[0], s[1], s[2]) then 3
    else 0
  }

  /** The same at the back. */
  function SpaceBefore(s: seq<byte>): (n: nat)
    ensures n <= |s|
  {
    var e := |s|;
    if e >= 1 && Space1(s[e - 1]) then 1
    else if e >= 2 && Space2(s[e - 2], s[e - 1]) then 2
    else if e >= 3 && Space3(s[e - 3], s[e - 2], s[e - 1]) then 3
    else 0
  }

  lemma SpaceBeforeIsSpace(s: seq<byte>)
    ensures var n := SpaceBefore(s); n > 0 ==> SpaceAt(s[|s| - n..]) == n
  {
    var n := SpaceBefore(s);
    var w := s[|s| - n..];
    if n == 1 {
      assert w == [s[|s| - 1]];
    } else if n == 2 {
      assert w == [s[|s| - 2], s[|s| - 1]];
    } else if n == 3 {
      assert w == [s[|s| - 3], s[|s| - 2], s[|s| - 1]];
    }
  }

  function TrimLeft(s: seq<byte>): seq<byte>
    decreases |s|
  {
    if SpaceAt(s) > 0 then TrimLeft(s[SpaceAt(s)..]) else s
  }

  function TrimRight(s: seq<byte>): (r: seq<byte>)
    ensures |r| <= |s|
    decreases |s|
  {
    if SpaceBefore(s) > 0 then TrimRight(s[..|s| - SpaceBefore(s)]) else s
  }

  function TrimSpace(s: seq<byte>): seq<byte> {
    TrimRight(TrimLeft(s))
  }

  function Erase(s: seq<byte>): (r: seq<byte>)
    ensures |r| <= |s|
    decreases |s|
  {
    if s == [] then []
    else if SpaceAt(s) > 0 then Erase(s[SpaceAt(s)..])
    else [s[0]] + Erase(s[1..])
  }

  /** No character can straddle the seam between `a` and `b`. */
  predicate CleanSeam(a: seq<byte>, b: seq<byte>) {
    a == [] || b == [] || a[|a| - 1] < 0x80 || !IsTail(b[0])
  }

  lemma SpaceAtSeam(a: seq<byte>, b: seq<byte>)
    requires a != [] && CleanSeam(a, b)
    ensures SpaceAt(a + b) == SpaceAt(a)
  {
    var s := a + b;
    assert |a| >= 2 ==> s[1] == a[1];
    assert |a| >= 3 ==> s[2] == a[2];
    assert b != [] ==> s[|a|] == b[0];
  }

  lemma SeamOfSuffix(a: seq<byte>, b: seq<byte>, n: nat)
    requires n <= |a| && CleanSeam(a, b)
    ensures CleanSeam(a[n..], b)
  {
    assert n < |a| ==> a[n..][|a[n..]| - 1] == a[|a| - 1];
  }

  lemma {:induction false} EraseConcat(a: seq<byte>, b: seq<byte>)
    requires CleanSeam(a, b)
    ensures Erase(a + b) == Erase(a) + Erase(b)
    decreases |a|
  {
    var s := a + b;
    if a == [] {
      assert s == b;
    } else {
      SpaceAtSeam(a, b);
      var n := if SpaceAt(a) > 0 then SpaceAt(a) else 1;
      var rest := a[n..];
      assert s[n..] == rest + b;
      SeamOfSuffix(a, b, n);
      EraseConcat(rest, b);
      EraseStep(s);
      EraseStep(a);
      assert s[0] == a[0];
      Associative([a[0]], Erase(rest), Erase(b));
    }
  }

  lemma EraseStep(s: seq<byte>)
    requires s != []
    ensures Erase(s) == if SpaceAt(s) > 0 then Erase(s[SpaceAt(s)..]) else [s[0]] + Erase(s[1..])
  {
  }

  lemma {:induction false} EraseTail(b: seq<byte>, m: nat)
    requires m <= |b| && forall k :: 0 <= k < m ==> IsTail(b[k])
    ensures |Erase(b[m..])| <= |Erase(b)|
    decreases m
  {
    if m == 0 {
      assert b[0..] == b;
    } else {
      EraseTail(b[1..], m - 1);
      assert b[1..][m - 1..] == b[m..];
    }
  }

  /** A white-space character of `s` starts before position `k` and ends after it. */
  predicate SplitsSpace(s: seq<byte>, k: nat)
    requires k <= |s|
  {
    exists p :: 0 <= p < k && p + SpaceAt(s[p..]) > k
  }

  lemma InsideSpace(s: seq<byte>, p: nat, k: nat)
    requires p <= |s| && p < k < p + SpaceAt(s[p..])
    ensures k < |s| && IsTail(s[k])
  {
    hide CharLen;
    assert s[p..][k - p] == s[k];
  }

  lemma BoundarySparesSpace(s: seq<byte>, k: nat)
    requires k <= |s| && Boundary(s, k)
    ensures !SplitsSpace(s, k)
  {
    hide SpaceAt, CharLen;
    if p: nat :| p < k && p + SpaceAt(s[p..]) > k {
      InsideSpace(s, p, k);
    }
  }

  /** No white space starts inside the first `m` bytes of `s` but at its front. */
  predicate Solid(s: seq<byte>, m: nat)
    requires m <= |s|
  {
    forall p :: 0 < p < m ==> SpaceAt(s[p..]) == 0
  }

  lemma SpaceIsSolid(s: seq<byte>)
    ensures Solid(s, SpaceAt(s))
  {
    forall p | 0 < p < SpaceAt(s) ensures SpaceAt(s[p..]) == 0 {
      assert s[p..][0] == s[p] && IsTail(s[p]);
    }
  }

  lemma SplitIsLater(s: seq<byte>, m: nat, k: nat, p: nat)
    requires 0 < m <= k <= |s| && SpaceAt(s) <= m && Solid(s, m) && p < k && p + SpaceAt(s[p..]) > k
    ensures p >= m
  {
    hide SpaceAt;
    assert s[0..] == s;
  }

  /** Moving past the front of `s`, white space or not, does not change what a later cut splits. */
  lemma SplitsLater(s: seq<byte>, m: nat, k: nat)
    requires 0 < m <= k <= |s| && SpaceAt(s) <= m && Solid(s, m)
    ensures SplitsSpace(s, k) <==> SplitsSpace(s[m..], k - m)
  {
    hide SpaceAt;
    if p :| 0 <= p < k && p + SpaceAt(s[p..]) > k {
      SplitIsLater(s, m, k, p);
      assert s[m..][p - m..] == s[p..];
    }
    if p :| 0 <= p < k - m && p + SpaceAt(s[m..][p..]) > k - m {
      assert s[m..][p..] == s[p + m..];
    }
  }

  /** What is left of a white-space character that is cut is not white space. */
  lemma CutSpace(a: seq<byte>, b: seq<byte>)
    requires a != [] && SpaceAt(a + b) > |a|
    ensures SpaceAt(a) == 0 && |Erase(a)| > 0
    ensures |Erase((a + b)[SpaceAt(a + b)..])| <= |Erase(b)|
  {
    var s := a + b;
    var n := SpaceAt(s);
    assert s[0] == a[0] && (|a| >= 2 ==> s[1] == a[1]);
    assert forall k :: 0 <= k < n - |a| ==> b[k] == s[|a| + k];
    assert s[n..] == b[n - |a|..];
    EraseTail(b, n - |a|);
    EraseStep(a);
  }

  lemma SpaceAtFront(a: seq<byte>, b: seq<byte>)
    requires a != [] && SpaceAt(a + b) <= |a|
    ensures SpaceAt(a) == SpaceAt(a + b)
  {
    var s := a + b;
    assert s[0] == a[0] && (|a| >= 2 ==> s[1] == a[1]) && (|a| >= 3 ==> s[2] == a[2]);
  }

  /** Joining erases no more than the parts alone exactly when the seam is not inside a white-space character. */
  lemma {:induction false} EraseJoin(a: seq<byte>, b: seq<byte>)
    ensures if SplitsSpace(a + b, |a|) then |Erase(a + b)| < |Erase(a)| + |Erase(b)|
            else Erase(a + b) == Erase(a) + Erase(b)
    decreases |a|
  {
    hide SpaceAt, Erase, SplitsSpace;
    var s := a + b;
    if a == [] {
      assert s == b;
      NothingSplit(s);
    } else if SpaceAt(s) > |a| {
      SplitsFirst(s, |a|);
      CutSpace(a, b);
      EraseStep(s);
    } else {
      var m := if SpaceAt(s) > 0 then SpaceAt(s) else 1;
      SpaceAtFront(a, b);
      SpaceIsSolid(s);
      SolidFront(s, m);
      SplitsLater(s, m, |a|);
      assert s[m..] == a[m..] + b;
      EraseJoin(a[m..], b);
      EraseStep(s);
      EraseStep(a);
      assert s[0] == a[0];
      Associative([a[0]], Erase(a[m..]), Erase(b));
    }
  }

  /** Joining can complete a white-space character that was cut, so it only ever erases more. */
  lemma EraseJoinShorter(a: seq<byte>, b: seq<byte>)
    ensures |Erase(a + b)| <= |Erase(a)| + |Erase(b)|
  {
    hide Erase, SplitsSpace;
    EraseJoin(a, b);
  }

  lemma NothingSplit(s: seq<byte>)
    ensures !SplitsSpace(s, 0) && Erase([]) == []
  {
  }

  lemma SplitsFirst(s: seq<byte>, k: nat)
    requires 0 < k <= |s| && SpaceAt(s) > k
    ensures SplitsSpace(s, k)
  {
    hide SpaceAt;
    assert s[0..] == s;
  }

  lemma SolidFront(s: seq<byte>, m: nat)
    requires s != [] && m == (if SpaceAt(s) > 0 then SpaceAt(s) else 1) && Solid(s, SpaceAt(s))
    ensures m <= |s| && Solid(s, m)
  {
    hide SpaceAt;
  }

  lemma {:induction false} EraseTrimRight(s: seq<byte>)
    ensures Erase(TrimRight(s)) == Erase(s)
    decreases |s|
  {
    var n := SpaceBefore(s);
    if n > 0 {
      var (a, w) := (s[..|s| - n], s[|s| - n..]);
      SpaceBeforeIsSpace(s);
      assert s == a + w && w[n..] == [];
      EraseConcat(a, w);
      EraseTrimRight(a);
    }
  }

  lemma {:induction false} EraseTrimLeft(s: seq<byte>)
    ensures Erase(TrimLeft(s)) == Erase(s)
    decreases |s|
  {
    if SpaceAt(s) > 0 {
      EraseTrimLeft(s[SpaceAt(s)..]);
    }
  }

  /** Trimming removes white space and nothing else. */
  lemma EraseTrim(s: seq<byte>)
    ensures Erase(TrimSpace(s)) == Erase(s)
  {
    EraseTrimRight(TrimLeft(s));
    EraseTrimLeft(s);
  }

  lemma {:induction false} TrimRightEdges(s: seq<byte>)
    requires SpaceAt(s) == 0
    ensures SpaceAt(TrimRight(s)) == 0 && SpaceBefore(TrimRight(s)) == 0
    decreases |s|
  {
    var n := SpaceBefore(s);
    if n > 0 {
      var front := s[..|s| - n];
      assert s == front + s[|s| - n..];
      if front != [] {
        PrefixSpace(front, s[|s| - n..]);
      }
      TrimRightEdges(front);
    }
  }

  lemma PrefixSpace(a: seq<byte>, b: seq<byte>)
    requires SpaceAt(a + b) == 0
    ensures SpaceAt(a) == 0
  {
    var s := a + b;
    assert (|a| >= 1 ==> s[0] == a[0]) && (|a| >= 2 ==> s[1] == a[1]) && (|a| >= 3 ==> s[2] == a[2]);
  }

  lemma {:induction false} TrimLeftEdge(s: seq<byte>)
    ensures SpaceAt(TrimLeft(s)) == 0
    decreases |s|
  {
    if SpaceAt(s) > 0 {
      TrimLeftEdge(s[SpaceAt(s)..]);
    }
  }

  /** Trimmed text neither begins nor ends with a white-space character. */
  lemma TrimmedEdges(s: seq<byte>)
    ensures SpaceAt(TrimSpace(s)) == 0 && SpaceBefore(TrimSpace(s)) == 0
  {
    TrimLeftEdge(s);
    TrimRightEdges(TrimLeft(s));
  }

  lemma {:induction false} ValidTrimRight(s: seq<byte>)
    requires Valid(s)
    ensures Valid(TrimRight(s))
    decreases |s|
  {
    var n := SpaceBefore(s);
    if n > 0 {
      SpaceBeforeIsSpace(s);
      ValidCut(s, |s| - n);
      ValidTrimRight(s[..|s| - n]);
    }
  }

  lemma {:induction false} ValidTrimLeft(s: seq<byte>)
    requires Valid(s)
    ensures Valid(TrimLeft(s))
    decreases |s|
  {
    if SpaceAt(s) > 0 {
      ValidTrimLeft(s[SpaceAt(s)..]);
    }
  }

  lemma ValidTrim(s: seq<byte>)
    requires Valid(s)
    ensures Valid(TrimSpace(s))
  {
    ValidTrimLeft(s);
    ValidTrimRight(TrimLeft(s));
  }

  lemma {:induction false} TrimLeftSuffix(s: seq<byte>)
    ensures |TrimLeft(s)| <= |s| && TrimLeft(s) == s[|s| - |TrimLeft(s)|..]
    decreases |s|
  {
    if SpaceAt(s) > 0 {
      TrimLeftSuffix(s[SpaceAt(s)..]);
    }
  }

  /** Text that ends in white space loses at least one byte. */
  lemma TrimLength(s: seq<byte>)
    ensures |TrimSpace(s)| <= |s|
    ensures s != [] && Space1(s[|s| - 1]) ==> |TrimSpace(s)| < |s|
  {
    hide TrimLeft;
    TrimLeftSuffix(s);
    var l := TrimLeft(s);
    if l != [] && s != [] && Space1(s[|s| - 1]) {
      assert l[|l| - 1] == s[|s| - 1];
      assert SpaceBefore(l) == 1;
    }
  }

  /** Unicode White_Space, by code point. */
  predicate IsSpaceScalar(c: Scalar) {
    || 0x09 <= c <= 0x0D || c == 0x20 || c == 0x85 || c == 0xA0 || c == 0x1680
    || 0x2000 <= c <= 0x200A || c == 0x2028 || c == 0x2029 || c == 0x202F || c == 0x205F || c == 0x3000
  }

  /** The bytes of an encoding by their distance from the lead and tail marks. */
  lemma EncodedBytes(c: Scalar)
    ensures var (n, s) := (c as int, Encode(c));
      && (n < 0x80 ==> |s| == 1 && s[0] as int == n)
      && (0x80 <= n < 0x800 ==>
            |s| == 2 && n == (s[0] as int - 0xC0) * 0x40 + (s[1] as int - 0x80))
      && (0x800 <= n < 0x1_0000 ==>
            |s| == 3 && n == (s[0] as int - 0xE0) * 0x1000 + (s[1] as int - 0x80) * 0x40 + (s[2] as int - 0x80))
      && (0x1_0000 <= n ==> |s| == 4 && s[0] >= 0xF0)
      && (forall k: nat :: 0 < k < |s| ==> IsTail(s[k]))
      && (n >= 0x80 ==> s[0] >= 0xC0)
  {
    Places(c as int);
  }

  lemma ShortSpace(c: Scalar)
    requires c < 0x800
    ensures (SpaceAt(Encode(c)) == |Encode(c)| <==> IsSpaceScalar(c)) && (SpaceAt(Encode(c)) > 0 <==> IsSpaceScalar(c))
    ensures SpaceBefore(Encode(c)) > 0 <==> IsSpaceScalar(c)
  {
    hide Encode;
    EncodedBytes(c);
  }

  lemma LongSpace(c: Scalar)
    requires 0x800 <= c < 0x1_0000
    ensures (SpaceAt(Encode(c)) == |Encode(c)| <==> IsSpaceScalar(c)) && (SpaceAt(Encode(c)) > 0 <==> IsSpaceScalar(c))
    ensures SpaceBefore(Encode(c)) > 0 <==> IsSpaceScalar(c)
  {
    hide Encode;
    EncodedBytes(c);
  }

  lemma LongestNoSpace(c: Scalar)
    requires 0x1_0000 <= c
    ensures SpaceAt(Encode(c)) == 0 && SpaceBefore(Encode(c)) == 0
  {
    hide Encode;
    EncodedBytes(c);
  }

  /** A character's encoding is recognised as white space, from either end, exactly when its code point is. */
  lemma SpaceIffScalar(c: Scalar)
    ensures (SpaceAt(Encode(c)) == |Encode(c)| <==> IsSpaceScalar(c)) && (SpaceAt(Encode(c)) > 0 <==> IsSpaceScalar(c))
    ensures SpaceBefore(Encode(c)) > 0 <==> IsSpaceScalar(c)
  {
    hide SpaceAt, SpaceBefore, Encode;
    EncodedBytes(c);
    if c < 0x800 {
      ShortSpace(c);
    } else if c < 0x1_0000 {
      LongSpace(c);
    } else {
      LongestNoSpace(c);
    }
  }
}
