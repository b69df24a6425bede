/** Well-formed UTF-8 (section 4 of RFC 3629) and where it may be cut. */
module Utf8 {

  newtype byte = x: int | 0 <= x < 0x100

  predicate IsTail(b: byte) { 0x80 <= b < 0xC0 }

  /** The length of the well-formed character at the front of `s`; 0 when there is none. */
  function CharLen(s: seq<byte>): (n: nat)
    ensures n <= |s|
    ensures n > 0 ==> !IsTail(s[0]) && forall k :: 0 < k < n ==> IsTail(s[k])
  {
    if |s| == 0 then 0
    else if s[0] < 0x80 then 1
    else if |s| >= 2 && 0xC2 <= s[0] <= 0xDF && IsTail(s[1]) then 2
    else if |s| >= 3 && IsTail(s[1]) && IsTail(s[2]) && Lead3(s[0], s[1]) then 3
    else if |s| >= 4 && IsTail(s[1]) && IsTail(s[2]) && IsTail(s[3]) && Lead4(s[0], s[1]) then 4
    else 0
  }

  predicate Lead3(a: byte, b: byte) {
    (a == 0xE0 && b >= 0xA0) || 0xE1 <= a <= 0xEC || (a == 0xED && b < 0xA0) || 0xEE <= a <= 0xEF
  }

  predicate Lead4(a: byte, b: byte) {
    (a == 0xF0 && b >= 0x90) || 0xF1 <= a <= 0xF3 || (a == 0xF4 && b < 0x90)
  }

  predicate Valid(s: seq<byte>)
    decreases |s|
  {
    s == [] || (CharLen(s) > 0 && Valid(s[CharLen(s)..]))
  }

  /** The cut before position `k` does not split a character. */
  predicate Boundary(s: seq<byte>, k: nat)
    requires k <= |s|
  {
    k == |s| || !IsTail(s[k])
  }

  lemma CharLenPrefix(a: seq<byte>, b: seq<byte>)
    ensures CharLen(a) > 0 ==> CharLen(a + b) == CharLen(a)
    ensures 0 < CharLen(a + b) <= |a| ==> CharLen(a) == CharLen(a + b)
  {
  }

  lemma {:induction false} ValidConcat(a: seq<byte>, b: seq<byte>)
    requires Valid(a)
    ensures Valid(a + b) <==> Valid(b)
    decreases |a|
  {
    hide CharLen;
    if a == [] {
      assert a + b == b;
    } else {
      var n := CharLen(a);
      CharLenPrefix(a, b);
      ValidConcat(a[n..], b);
      assert (a + b)[n..] == a[n..] + b;
    }
  }

  /** A proper part of the first character is not valid, and neither is what follows it. */
  lemma SplitFirst(s: seq<byte>, k: nat)
    requires CharLen(s) > 0 && 0 < k < CharLen(s)
    ensures !Valid(s[..k]) && !Valid(s[k..])
  {
    CharLenPrefix(s[..k], s[k..]);
    assert s[..k] + s[k..] == s;
    assert IsTail(s[k]) && s[k..][0] == s[k];
  }

  lemma CutLater(s: seq<byte>, k: nat)
    requires k <= |s| && 0 < CharLen(s) <= k
    ensures Valid(s[..k]) <==> Valid(s[CharLen(s)..][..k - CharLen(s)])
    ensures s[CharLen(s)..][k - CharLen(s)..] == s[k..]
  {
    hide CharLen;
    var n := CharLen(s);
    CharLenPrefix(s[..k], s[k..]);
    assert s[..k] + s[k..] == s;
    assert s[n..][..k - n] == s[..k][n..];
    assert s[n..][k - n..] == s[k..];
  }

  /** Either half of a cut is well formed exactly when the cut is at a character boundary. */
  lemma {:induction false} ValidCut(s: seq<byte>, k: nat)
    requires Valid(s) && k <= |s|
    ensures Valid(s[..k]) <==> Boundary(s, k)
    ensures Valid(s[k..]) <==> Boundary(s, k)
    decreases |s|
  {
    hide CharLen;
    if k == 0 || k == |s| {
      assert s[..|s|] == s && s[0..] == s;
    } else if k < CharLen(s) {
      SplitFirst(s, k);
    } else {
      var n := CharLen(s);
      ValidCut(s[n..], k - n);
      CutLater(s, k);
    }
  }

  // ---------- the encoding itself ----------

  /** A Unicode scalar value: any code point but a surrogate. */
  newtype Scalar = c: int | 0 <= c < 0x11_0000 && !(0xD800 <= c < 0xE000)

  function Byte(n: int): byte
    requires 0 <= n < 0x100
  {
    n as byte
  }

  /** The encoding table of section 3 of RFC 3629. */
  function Encode(scalar: Scalar): seq<byte> {
    var c := scalar as int;
    if c < 0x80 then [Byte(c)]
    else if c < 0x800 then [Byte(0xC0 + c / 0x40), Byte(0x80 + c % 0x40)]
    else if c < 0x1_0000 then [Byte(0xE0 + c / 0x1000), Byte(0x80 + c / 0x40 % 0x40), Byte(0x80 + c % 0x40)]
    else
      [Byte(0xF0 + c / 0x4_0000), Byte(0x80 + c / 0x1000 % 0x40), Byte(0x80 + c / 0x40 % 0x40), Byte(0x80 + c % 0x40)]
  }

  /** The scalar value of a well-formed character. */
  function Decode(s: seq<byte>): int
    requires CharLen(s) == |s| > 0
  {
    if |s| == 1 then s[0] as int
    else if |s| == 2 then (s[0] as int - 0xC0) * 0x40 + (s[1] as int - 0x80)
    else if |s| == 3 then
      (s[0] as int - 0xE0) * 0x1000 + (s[1] as int - 0x80) * 0x40 + (s[2] as int - 0x80)
    else
      (s[0] as int - 0xF0) * 0x4_0000 + (s[1] as int - 0x80) * 0x1000
      + (s[2] as int - 0x80) * 0x40 + (s[3] as int - 0x80)
  }

  lemma EncodeIsChar(c: Scalar)
    ensures CharLen(Encode(c)) == |Encode(c)| > 0
  {
    Places(c as int);
  }

  lemma Places(n: nat)
    ensures n == n / 0x40 * 0x40 + n % 0x40
    ensures n / 0x40 == n / 0x1000 * 0x40 + n / 0x40 % 0x40
    ensures n / 0x1000 == n / 0x4_0000 * 0x40 + n / 0x1000 % 0x40
  {
  }

  /** Digits in base 0x40 are read back from the number they make. */
  lemma Digits(a: nat, b: nat, c: nat, d: nat)
    requires b < 0x40 && c < 0x40 && d < 0x40
    ensures var n := a * 0x4_0000 + b * 0x1000 + c * 0x40 + d;
      n / 0x4_0000 == a && n / 0x1000 == a * 0x40 + b && n / 0x1000 % 0x40 == b
      && n / 0x40 == a * 0x1000 + b * 0x40 + c && n / 0x40 % 0x40 == c && n % 0x40 == d
  {
    var n := a * 0x4_0000 + b * 0x1000 + c * 0x40 + d;
    assert n / 0x40 == a * 0x1000 + b * 0x40 + c;
    assert n / 0x1000 == a * 0x40 + b;
  }

  /** The scalar value of a character is in the range of its length. */
  lemma DecodeRange(s: seq<byte>)
    requires CharLen(s) == |s| > 0
    ensures var n := Decode(s);
      && 0 <= n < 0x11_0000 && !(0xD800 <= n < 0xE000)
      && |s| == (if n < 0x80 then 1 else if n < 0x800 then 2 else if n < 0x1_0000 then 3 else 4)
  {
  }

  /** Every well-formed character is the encoding of a scalar value. */
  lemma CharIsEncoding(s: seq<byte>) returns (c: Scalar)
    requires CharLen(s) == |s| > 0
    ensures s == Encode(c)
  {
    DecodeRange(s);
    TailBytes(s);
    c := Decode(s) as Scalar;
    SameBytes(s, c as int);
  }

  lemma TailBytes(s: seq<byte>)
    requires CharLen(s) == |s| > 0
    ensures forall k :: 0 < k < |s| ==> 0x80 <= s[k] < 0xC0
    ensures |s| == 2 ==> s[0] >= 0xC0
    ensures |s| == 3 ==> s[0] >= 0xE0
    ensures |s| == 4 ==> s[0] >= 0xF0
  {
    assert forall k :: 0 < k < |s| ==> IsTail(s[k]);
  }

  lemma SameBytes(s: seq<byte>, n: int)
    requires CharLen(s) == |s| > 0 && n == Decode(s) && 0 <= n < 0x11_0000 && !(0xD800 <= n < 0xE000)
    requires |s| == (if n < 0x80 then 1 else if n < 0x800 then 2 else if n < 0x1_0000 then 3 else 4)
    requires forall k :: 0 < k < |s| ==> 0x80 <= s[k] < 0xC0
    requires (|s| == 2 ==> s[0] >= 0xC0) && (|s| == 3 ==> s[0] >= 0xE0) && (|s| == 4 ==> s[0] >= 0xF0)
    ensures s == Encode(n as Scalar)
  {
    hide CharLen;
    if |s| == 2 {
      Digits(0, 0, s[0] as int - 0xC0, s[1] as int - 0x80);
    } else if |s| == 3 {
      Digits(0, s[0] as int - 0xE0, s[1] as int - 0x80, s[2] as int - 0x80);
    } else if |s| == 4 {
      Digits(s[0] as int - 0xF0, s[1] as int - 0x80, s[2] as int - 0x80, s[3] as int - 0x80);
    }
  }

  function EncodeAll(cs: seq<Scalar>): seq<byte> {
    if cs == [] then [] else Encode(cs[0]) + EncodeAll(cs[1..])
  }

  lemma {:induction false} EncodingsAreValid(cs: seq<Scalar>)
    ensures Valid(EncodeAll(cs))
  {
    if cs != [] {
      hide Encode;
      EncodingsAreValid(cs[1..]);
      EncodeIsChar(cs[0]);
      assert Encode(cs[0])[|Encode(cs[0])|..] == [];
      ValidConcat(Encode(cs[0]), EncodeAll(cs[1..]));
    }
  }

  lemma {:induction false} ValidIsEncoding(s: seq<byte>) returns (cs: seq<Scalar>)
    requires Valid(s)
    ensures s == EncodeAll(cs)
    decreases |s|
  {
    hide CharLen, Encode;
    if s == [] {
      cs := [];
    } else {
      var n := CharLen(s);
      CharLenPrefix(s[..n], s[n..]);
      assert s == s[..n] + s[n..];
      var c := CharIsEncoding(s[..n]);
      var rest := ValidIsEncoding(s[n..]);
      cs := [c] + rest;
      assert cs[1..] == rest;
    }
  }

  /** Valid text is exactly the encodings of sequences of scalar values. */
  lemma ValidIffEncoding(s: seq<byte>)
    ensures Valid(s) <==> exists cs :: s == EncodeAll(cs)
  {
    if Valid(s) {
      var cs := ValidIsEncoding(s);
    }
    if cs :| s == EncodeAll(cs) {
      EncodingsAreValid(cs);
    }
  }
}
