/** Decimal numerals as Go prints floats: fixed point, or with an exponent; and the scanner that reads both. */
module Numerals {
  import opened SeqUtil

  newtype Digit = d: int | 0 <= d < 10

  /**
   * A finite float by its shortest decimal: the digits d1 d2 ... stand for 0.d1d2... times 10 to `point`.
   * Zero has no digits, and may be negative.
   */
  datatype Num = Num(neg: bool, digits: seq<Digit>, point: int) {
    predicate Normal() {
      if digits == [] then point == 0 else digits[0] != 0 && digits[|digits| - 1] != 0
    }
  }

  function DigitChar(d: Digit): char { (d as int + '0' as int) as char }

  predicate IsDigit(c: char) { '0' <= c <= '9' }

  function DigitOf(c: char): Digit
    requires IsDigit(c)
  {
    (c as int - '0' as int) as Digit
  }

  function DigitsText(ds: seq<Digit>): (r: string)
    ensures |r| == |ds| && forall i :: 0 <= i < |ds| ==> r[i] == DigitChar(ds[i])
  {
    seq(|ds|, i requires 0 <= i < |ds| => DigitChar(ds[i]))
  }

  function Zeros(n: nat): (r: seq<Digit>)
    ensures |r| == n && forall i :: 0 <= i < n ==> r[i] == 0
  {
    seq(n, _ => 0)
  }

  // ---------- natural numbers ----------

  function NatDigits(n: nat): (r: seq<Digit>)
    ensures r != []
  {
    if n < 10 then [n as Digit] else NatDigits(n / 10) + [(n % 10) as Digit]
  }

  function NatValue(ds: seq<Digit>): nat {
    if ds == [] then 0 else NatValue(ds[..|ds| - 1]) * 10 + ds[|ds| - 1] as nat
  }

  lemma {:induction false} NatRoundTrip(n: nat)
    ensures NatValue(NatDigits(n)) == n
  {
    var ds := NatDigits(n);
    if n >= 10 {
      NatRoundTrip(n / 10);
      assert ds[..|ds| - 1] == NatDigits(n / 10);
    } else {
      assert ds[..0] == [];
    }
  }

  lemma {:induction false} LeadingZero(ds: seq<Digit>)
    ensures NatValue([0] + ds) == NatValue(ds)
  {
    var all := [0] + ds;
    if ds == [] {
      assert all[..0] == [];
    } else {
      LeadingZero(ds[..|ds| - 1]);
      assert all[..|all| - 1] == [0] + ds[..|ds| - 1];
    }
  }

  // ---------- printing ----------

  function Abs(e: int): nat { if e < 0 then -e else e }

  /** At least two exponent digits. */
  function ExponentDigits(e: int): (r: seq<Digit>)
    ensures r != []
  {
    if Abs(e) < 10 then [0] + NatDigits(Abs(e)) else NatDigits(Abs(e))
  }

  function ExponentText(exp: Option<int>): string {
    match exp
    case None => ""
    case Some(e) => (if e < 0 then "e-" else "e+") + DigitsText(ExponentDigits(e))
  }

  function FractionText(ds: seq<Digit>): string {
    if ds == [] then "" else "." + DigitsText(ds)
  }

  function Numeral(neg: bool, whole: seq<Digit>, fraction: seq<Digit>, exp: Option<int>): string {
    (if neg then "-" else "") + (DigitsText(whole) + (FractionText(fraction) + ExponentText(exp)))
  }

  function WholeDigits(n: Num): seq<Digit> {
    if n.point <= 0 then [0]
    else if n.point >= |n.digits| then n.digits + Zeros(n.point - |n.digits|)
    else n.digits[..n.point]
  }

  function FractionDigits(n: Num): seq<Digit> {
    if n.digits == [] then []
    else if n.point <= 0 then Zeros(-n.point) + n.digits
    else if n.point >= |n.digits| then []
    else n.digits[n.point..]
  }

  /** The 'f' format with the shortest precision. */
  function PrintFixed(n: Num): string {
    Numeral(n.neg, WholeDigits(n), FractionDigits(n), None)
  }

  /** The 'g' format: an exponent below -4 or from `threshold` on is written out. */
  function PrintGeneral(n: Num, threshold: int): string {
    var e := n.point - 1;
    if n.digits != [] && (e < -4 || e >= threshold)
    then Numeral(n.neg, n.digits[..1], n.digits[1..], Some(e))
    else PrintFixed(n)
  }

  // ---------- scanning ----------

  /** The end of the run of digits that starts at `i`. */
  function Run(s: string, i: nat): (j: nat)
    requires i <= |s|
    ensures i <= j <= |s| && forall k :: i <= k < j ==> IsDigit(s[k])
    decreases |s| - i
  {
    if i < |s| && IsDigit(s[i]) then Run(s, i + 1) else i
  }

  function DigitsAt(s: string, i: nat, j: nat): (r: seq<Digit>)
    requires i <= j <= |s| && forall k :: i <= k < j ==> IsDigit(s[k])
    ensures |r| == j - i && forall k :: 0 <= k < |r| ==> r[k] == DigitOf(s[i + k])
  {
    seq(j - i, k requires 0 <= k < j - i => DigitOf(s[i + k]))
  }

  /** The first position from `i` on, and the last up to `j`, whose digit is not zero. */
  function FirstNonZero(ds: seq<Digit>, i: nat): (k: nat)
    requires i <= |ds|
    ensures i <= k <= |ds|
    decreases |ds| - i
  {
    if i < |ds| && ds[i] == 0 then FirstNonZero(ds, i + 1) else i
  }

  function EndNonZero(ds: seq<Digit>, j: nat): (k: nat)
    requires j <= |ds|
    ensures k <= j
  {
    if j > 0 && ds[j - 1] == 0 then EndNonZero(ds, j - 1) else j
  }

  function Normalize(neg: bool, ds: seq<Digit>, point: int): Num {
    var (first, end) := (FirstNonZero(ds, 0), EndNonZero(ds, |ds|));
    if first >= end then Num(neg, [], 0) else Num(neg, ds[first..end], point - first)
  }

  predicate IsSign(c: char) { c == '+' || c == '-' }

  /** The value of an exponent at `x`: 0 if there is none, None if a marker is not followed by digits. */
  function ScanExponent(s: string, x: nat): Option<int>
    requires x <= |s|
  {
    if x == |s| || (s[x] != 'e' && s[x] != 'E') then Some(0)
    else
      var start := if x + 1 < |s| && IsSign(s[x + 1]) then x + 2 else x + 1;
      var end := Run(s, start);
      if end == start then None
      else
        var value: int := NatValue(DigitsAt(s, start, end));
        Some(if s[x + 1] == '-' then -value else value)
  }

  /** The end of an optional fraction at `w`. */
  function FractionEnd(s: string, w: nat): (x: nat)
    requires w <= |s|
    ensures w <= x <= |s|
  {
    if w < |s| && s[w] == '.' then Run(s, w + 1) else w
  }

  function FractionAt(s: string, w: nat): seq<Digit>
    requires w <= |s|
  {
    if w < |s| && s[w] == '.' then DigitsAt(s, w + 1, Run(s, w + 1)) else []
  }

  function SignEnd(s: string): nat { if s != "" && IsSign(s[0]) then 1 else 0 }

  predicate Negative(s: string) { s != "" && s[0] == '-' }

  /**
   * Reads a decimal from the front of the text: a sign, digits with a point among them, an exponent. None when
   * there is no digit before the exponent, or none in it.
   */
  function ScanNum(s: string): Option<Num> {
    var i := SignEnd(s);
    var w := Run(s, i);
    var digits := DigitsAt(s, i, w) + FractionAt(s, w);
    var exponent := ScanExponent(s, FractionEnd(s, w));
    if digits == [] || exponent.None? then None
    else Some(Normalize(Negative(s), digits, (w - i) + exponent.value))
  }

  // ---------- the scanner undoes the printers ----------

  lemma {:induction false} RunIs(s: string, i: nat, j: nat)
    requires i <= j <= |s| && forall k :: i <= k < j ==> IsDigit(s[k])
    requires j == |s| || !IsDigit(s[j])
    ensures Run(s, i) == j
    decreases j - i
  {
    if i < j {
      RunIs(s, i + 1, j);
    }
  }

  /** `part` stands in `s` at `off`. */
  predicate At(s: string, off: nat, part: string) {
    off + |part| <= |s| && forall k :: 0 <= k < |part| ==> s[off + k] == part[k]
  }

  lemma AtConcat(s: string, off: nat, a: string, b: string)
    requires At(s, off, a + b)
    ensures At(s, off, a) && At(s, off + |a|, b)
  {
    assert forall k :: 0 <= k < |a| ==> (a + b)[k] == a[k];
    assert forall k :: 0 <= k < |b| ==> (a + b)[|a| + k] == b[k];
    forall k | 0 <= k < |b| ensures s[off + |a| + k] == b[k] {
      assert s[off + (|a| + k)] == (a + b)[|a| + k];
    }
  }

  lemma RunAt(s: string, i: nat, ds: seq<Digit>)
    requires At(s, i, DigitsText(ds)) && (i + |ds| == |s| || !IsDigit(s[i + |ds|]))
    ensures Run(s, i) == i + |ds| && DigitsAt(s, i, i + |ds|) == ds
  {
    forall k | i <= k < i + |ds| ensures IsDigit(s[k]) && DigitOf(s[k]) == ds[k - i] {
      assert s[i + (k - i)] == DigitsText(ds)[k - i];
    }
    RunIs(s, i, i + |ds|);
  }

  function Exponent(exp: Option<int>): int { if exp.Some? then exp.value else 0 }

  lemma {:induction false} ExponentValue(e: int)
    ensures NatValue(ExponentDigits(e)) == Abs(e)
  {
    hide NatValue;
    NatRoundTrip(Abs(e));
    LeadingZero(NatDigits(Abs(e)));
  }

  lemma MarkAt(s: string, x: nat, e: int)
    requires At(s, x, ExponentText(Some(e)))
    ensures x + 2 <= |s| && s[x] == 'e' && s[x + 1] == (if e < 0 then '-' else '+')
    ensures At(s, x + 2, DigitsText(ExponentDigits(e)))
  {
    hide DigitsText, ExponentDigits;
    var sign := if e < 0 then "e-" else "e+";
    AtConcat(s, x, sign, DigitsText(ExponentDigits(e)));
    assert s[x + 0] == sign[0] && s[x + 1] == sign[1];
  }

  lemma ScanMarked(s: string, x: nat, e: int, digits: seq<Digit>)
    requires x + 2 < |s| && s[x] == 'e' && s[x + 1] == (if e < 0 then '-' else '+')
    requires Run(s, x + 2) == |s| && DigitsAt(s, x + 2, |s|) == digits && NatValue(digits) == Abs(e)
    ensures ScanExponent(s, x) == Some(e)
  {
    hide Run, NatValue;
  }

  lemma ExponentAt(s: string, x: nat, exp: Option<int>)
    requires x <= |s| && At(s, x, ExponentText(exp)) && |s| == x + |ExponentText(exp)|
    ensures ScanExponent(s, x) == Some(Exponent(exp))
    ensures x == |s| || s[x] == 'e'
  {
    hide At, ExponentDigits, Run, NatValue;
    if exp.Some? {
      var e := exp.value;
      MarkAt(s, x, e);
      RunAt(s, x + 2, ExponentDigits(e));
      ExponentValue(e);
      ScanMarked(s, x, e, ExponentDigits(e));
    }
  }

  function Signed(sign: string, value: nat): int {
    if sign == "-" then 0 - value as int else value
  }

  lemma ScanForm(s: string, x: nat, sign: string, start: nat, ds: seq<Digit>)
    requires x < start < |s| && (s[x] == 'e' || s[x] == 'E') && start == x + 1 + |sign| && |sign| <= 1
    requires (sign != "" ==> s[x + 1] == sign[0] && IsSign(sign[0])) && IsDigit(s[start])
    requires Run(s, start) == |s| && DigitsAt(s, start, |s|) == ds
    ensures ScanExponent(s, x) == Some(Signed(sign, NatValue(ds)))
  {
    hide Run, NatValue;
  }

  /** Either marker, and any sign or none, before the digits of an exponent. */
  lemma ExponentForms(s: string, x: nat, sign: string, ds: seq<Digit>)
    requires sign in {"", "+", "-"} && ds != [] && |s| == x + 1 + |sign| + |ds| && (s[x] == 'e' || s[x] == 'E')
    requires At(s, x + 1, sign) && At(s, x + 1 + |sign|, DigitsText(ds))
    ensures ScanExponent(s, x) == Some(Signed(sign, NatValue(ds)))
  {
    hide Run, ScanExponent, NatValue, DigitsText;
    var start := x + 1 + |sign|;
    FirstDigit(s, start, ds);
    RunAt(s, start, ds);
    assert sign != "" ==> s[x + 1 + 0] == sign[0];
    ScanForm(s, x, sign, start, ds);
  }

  lemma FirstDigit(s: string, start: nat, ds: seq<Digit>)
    requires ds != [] && At(s, start, DigitsText(ds))
    ensures start < |s| && IsDigit(s[start])
  {
    assert s[start + 0] == DigitsText(ds)[0];
  }

  lemma FractionIsAt(s: string, w: nat, fraction: seq<Digit>)
    requires At(s, w, FractionText(fraction))
    requires var x := w + |FractionText(fraction)|; x == |s| || s[x] == 'e'
    ensures FractionAt(s, w) == fraction && FractionEnd(s, w) == w + |FractionText(fraction)|
    ensures w == |s| || !IsDigit(s[w])
  {
    hide Run, DigitsAt;
    if fraction != [] {
      AtConcat(s, w, ".", DigitsText(fraction));
      assert s[w + 0] == "."[0];
      RunAt(s, w + 1, fraction);
    }
  }

  /** `s` is a sign, whole digits, a fraction and an exponent, one after the other. */
  predicate Parts(s: string, neg: bool, whole: seq<Digit>, fraction: seq<Digit>, exp: Option<int>) {
    var i := if neg then 1 else 0;
    var x := i + |whole| + |FractionText(fraction)|;
    && (neg ==> At(s, 0, "-"))
    && At(s, i, DigitsText(whole))
    && At(s, i + |whole|, FractionText(fraction))
    && At(s, x, ExponentText(exp)) && |s| == x + |ExponentText(exp)|
  }

  lemma WholeAt(s: string)
    ensures At(s, 0, s)
  {
  }

  lemma NumeralParts(neg: bool, whole: seq<Digit>, fraction: seq<Digit>, exp: Option<int>)
    ensures Parts(Numeral(neg, whole, fraction, exp), neg, whole, fraction, exp)
  {
    hide DigitsText, FractionText, ExponentText, At;
    WholeAt(Numeral(neg, whole, fraction, exp));
    var s := Numeral(neg, whole, fraction, exp);
    var sign := if neg then "-" else "";
    var (p, q) := (FractionText(fraction), ExponentText(exp));
    AtConcat(s, 0, sign, DigitsText(whole) + (p + q));
    AtConcat(s, |sign|, DigitsText(whole), p + q);
    AtConcat(s, |sign| + |whole|, p, q);
  }

  lemma SignOfParts(s: string, neg: bool, whole: seq<Digit>)
    requires whole != []
    requires var i := if neg then 1 else 0; (neg ==> At(s, 0, "-")) && At(s, i, DigitsText(whole))
    ensures SignEnd(s) == (if neg then 1 else 0) && Negative(s) == neg
  {
    var i := if neg then 1 else 0;
    assert s[i + 0] == DigitsText(whole)[0] && IsDigit(s[i]);
    assert neg ==> s[0 + 0] == "-"[0];
  }

  function WholeStart(neg: bool): nat { if neg then 1 else 0 }

  /** The scan from the end of the whole digits on. */
  predicate TailIs(s: string, w: nat, fraction: seq<Digit>, exp: int) {
    && w <= |s| && FractionAt(s, w) == fraction && (w == |s| || !IsDigit(s[w]))
    && ScanExponent(s, FractionEnd(s, w)) == Some(exp)
  }

  lemma TailAt(s: string, w: nat, x: nat, fraction: seq<Digit>, exp: Option<int>)
    requires w <= x <= |s| && x == w + |FractionText(fraction)| && |s| == x + |ExponentText(exp)|
    requires At(s, w, FractionText(fraction)) && At(s, x, ExponentText(exp))
    ensures TailIs(s, w, fraction, Exponent(exp))
  {
    assert ScanExponent(s, x) == Some(Exponent(exp)) && (x == |s| || s[x] == 'e') by {
      ExponentAt(s, x, exp);
    }
    assert FractionAt(s, w) == fraction && FractionEnd(s, w) == x && (w == |s| || !IsDigit(s[w])) by {
      FractionIsAt(s, w, fraction);
    }
  }

  lemma PartsFraction(s: string, neg: bool, whole: seq<Digit>, fraction: seq<Digit>, exp: Option<int>)
    requires Parts(s, neg, whole, fraction, exp)
    ensures TailIs(s, WholeStart(neg) + |whole|, fraction, Exponent(exp))
  {
    hide At, FractionText, ExponentText, TailIs;
    var w := WholeStart(neg) + |whole|;
    TailAt(s, w, w + |FractionText(fraction)|, fraction, exp);
  }

  lemma PartsWhole(s: string, neg: bool, whole: seq<Digit>, fraction: seq<Digit>, exp: Option<int>)
    requires whole != [] && Parts(s, neg, whole, fraction, exp)
    ensures var i := WholeStart(neg);
      && i + |whole| <= |s| && SignEnd(s) == i && Negative(s) == neg
      && Run(s, i) == i + |whole| && DigitsAt(s, i, i + |whole|) == whole
  {
    hide At, DigitsText, FractionText, ExponentText, Run, FractionAt, ScanExponent, FractionEnd;
    PartsFraction(s, neg, whole, fraction, exp);
    RunAt(s, WholeStart(neg), whole);
    SignOfParts(s, neg, whole);
  }

  lemma Assemble(s: string, i: nat, whole: seq<Digit>, fraction: seq<Digit>, exp: int)
    requires whole != [] && i + |whole| <= |s| && SignEnd(s) == i && Run(s, i) == i + |whole|
    requires DigitsAt(s, i, i + |whole|) == whole && TailIs(s, i + |whole|, fraction, exp)
    ensures ScanNum(s) == Some(Normalize(Negative(s), whole + fraction, |whole| + exp))
  {
    hide Normalize, SignEnd, Negative, Run, FractionAt, FractionEnd, ScanExponent;
  }

  lemma PartsScan(s: string, neg: bool, whole: seq<Digit>, fraction: seq<Digit>, exp: Option<int>)
    requires whole != [] && Parts(s, neg, whole, fraction, exp)
    ensures ScanNum(s) == Some(Normalize(neg, whole + fraction, |whole| + Exponent(exp)))
  {
    hide Parts, TailIs, Normalize, Negative, ScanNum;
    PartsFraction(s, neg, whole, fraction, exp);
    PartsWhole(s, neg, whole, fraction, exp);
    Assemble(s, WholeStart(neg), whole, fraction, Exponent(exp));
  }

  lemma NumeralScans(neg: bool, whole: seq<Digit>, fraction: seq<Digit>, exp: Option<int>)
    requires whole != []
    ensures ScanNum(Numeral(neg, whole, fraction, exp)) ==
      Some(Normalize(neg, whole + fraction, |whole| + Exponent(exp)))
  {
    hide *;
    NumeralParts(neg, whole, fraction, exp);
    PartsScan(Numeral(neg, whole, fraction, exp), neg, whole, fraction, exp);
  }

  lemma {:induction false} FirstNonZeroIs(ds: seq<Digit>, i: nat, k: nat)
    requires i <= k < |ds| && ds[k] != 0 && forall m :: i <= m < k ==> ds[m] == 0
    ensures FirstNonZero(ds, i) == k
    decreases k - i
  {
    if i < k {
      FirstNonZeroIs(ds, i + 1, k);
    }
  }

  lemma {:induction false} EndNonZeroIs(ds: seq<Digit>, j: nat, k: nat)
    requires 0 < k <= j <= |ds| && ds[k - 1] != 0 && forall m :: k <= m < j ==> ds[m] == 0
    ensures EndNonZero(ds, j) == k
    decreases j - k
  {
    if k < j {
      EndNonZeroIs(ds, j - 1, k);
    }
  }

  /** Zeros around the digits change nothing but the place of the point. */
  lemma NormalizePadded(neg: bool, ds: seq<Digit>, a: nat, d: seq<Digit>, point: int)
    requires d != [] && d[0] != 0 && d[|d| - 1] != 0
    requires Padded(ds, a, d)
    ensures Normalize(neg, ds, point) == Num(neg, d, point - a)
  {
    assert ds[a + 0] == d[0] && ds[a + (|d| - 1)] == d[|d| - 1];
    FirstNonZeroIs(ds, 0, a);
    EndNonZeroIs(ds, |ds|, a + |d|);
    assert ds[a..a + |d|] == d;
  }

  /** `ds` is `d` with `a` zeros before it and some after. */
  predicate Padded(ds: seq<Digit>, a: nat, d: seq<Digit>) {
    && a + |d| <= |ds|
    && (forall k :: 0 <= k < |d| ==> ds[a + k] == d[k])
    && (forall k :: 0 <= k < a ==> ds[k] == 0)
    && (forall k :: a + |d| <= k < |ds| ==> ds[k] == 0)
  }

  lemma FixedNormalizes(n: Num)
    requires n.Normal() && n.digits != []
    ensures Normalize(n.neg, WholeDigits(n) + FractionDigits(n), |WholeDigits(n)|) == n
  {
    var a := if n.point <= 0 then 1 - n.point else 0;
    NormalizePadded(n.neg, WholeDigits(n) + FractionDigits(n), a, n.digits, |WholeDigits(n)|);
  }

  lemma FixedScans(n: Num)
    requires n.Normal()
    ensures ScanNum(PrintFixed(n)) == Some(n)
  {
    NumeralScans(n.neg, WholeDigits(n), FractionDigits(n), None);
    if n.digits == [] {
      assert WholeDigits(n) + FractionDigits(n) == [0];
      assert FirstNonZero([0], 0) == 1 && EndNonZero([0], 1) == 0;
    } else {
      FixedNormalizes(n);
    }
  }

  lemma ExponentFormNormalizes(n: Num)
    requires n.Normal() && n.digits != []
    ensures Normalize(n.neg, n.digits[..1] + n.digits[1..], n.point) == n
  {
    assert n.digits[..1] + n.digits[1..] == n.digits;
    NormalizePadded(n.neg, n.digits, 0, n.digits, n.point);
  }

  lemma ExponentFormScans(n: Num)
    requires n.Normal() && n.digits != []
    ensures ScanNum(Numeral(n.neg, n.digits[..1], n.digits[1..], Some(n.point - 1))) == Some(n)
  {
    NumeralScans(n.neg, n.digits[..1], n.digits[1..], Some(n.point - 1));
    ExponentFormNormalizes(n);
  }

  /** Either printer, whatever the threshold, is undone by the scanner. */
  lemma GeneralScans(n: Num, threshold: int)
    requires n.Normal()
    ensures ScanNum(PrintGeneral(n, threshold)) == Some(n)
  {
    hide ScanNum, Numeral, PrintFixed;
    FixedScans(n);
    if n.digits != [] {
      ExponentFormScans(n);
    }
  }

  // ---------- the form of the numerals ----------

  /** Fixed point has no digit too many: no zero in front but a lone one, and none at the end of a fraction. */
  lemma FixedIsShortest(n: Num)
    requires n.Normal()
    ensures WholeDigits(n) != [] && (WholeDigits(n)[0] == 0 ==> |WholeDigits(n)| == 1)
    ensures FractionDigits(n) != [] ==> FractionDigits(n)[|FractionDigits(n)| - 1] != 0
    ensures FractionDigits(n) == [] ==> forall i :: 0 <= i < |PrintFixed(n)| ==> PrintFixed(n)[i] != '.'
    ensures forall i :: 0 <= i < |PrintFixed(n)| ==> PrintFixed(n)[i] != 'e'
  {
    DigitsOnly(WholeDigits(n));
    DigitsOnly(FractionDigits(n));
  }

  lemma DigitsOnly(ds: seq<Digit>)
    ensures forall i :: 0 <= i < |ds| ==> IsDigit(DigitsText(ds)[i])
  {
  }

  /** The general format writes an exponent exactly below -4 and from the threshold on. */
  lemma ExponentIff(n: Num, threshold: int)
    requires n.Normal()
    ensures 'e' in PrintGeneral(n, threshold) <==>
      n.digits != [] && (n.point - 1 < -4 || n.point - 1 >= threshold)
  {
    FixedIsShortest(n);
    if n.digits != [] {
      ExponentShown(n.neg, n.digits[..1], n.digits[1..], n.point - 1);
    }
  }

  lemma ExponentShown(neg: bool, whole: seq<Digit>, fraction: seq<Digit>, e: int)
    ensures 'e' in Numeral(neg, whole, fraction, Some(e))
  {
    hide DigitsText, FractionText, ExponentDigits;
    var sign := if neg then "-" else "";
    var front := sign + (DigitsText(whole) + FractionText(fraction));
    assert Numeral(neg, whole, fraction, Some(e)) == front + ExponentText(Some(e));
    assert Numeral(neg, whole, fraction, Some(e))[|front|] == ExponentText(Some(e))[0] == 'e';
  }

  lemma {:induction false} NatDigitsShape(n: nat)
    ensures n > 0 ==> NatDigits(n)[0] != 0
    ensures n >= 10 ==> |NatDigits(n)| >= 2
  {
    if n >= 10 {
      NatDigitsShape(n / 10);
    }
  }

  /** An exponent has at least two digits, and a zero in front only to make them two. */
  lemma ExponentHasTwoDigits(e: int)
    ensures |ExponentDigits(e)| >= 2 && (|ExponentDigits(e)| > 2 ==> ExponentDigits(e)[0] != 0)
  {
    NatDigitsShape(Abs(e));
  }

  predicate NumeralChar(c: char) { IsDigit(c) || c in "+-.e" }

  predicate NumeralText(s: string) { s != "" && forall i :: 0 <= i < |s| ==> NumeralChar(s[i]) }

  lemma NumeralIsText(neg: bool, whole: seq<Digit>, fraction: seq<Digit>, exp: Option<int>)
    requires whole != []
    ensures NumeralText(Numeral(neg, whole, fraction, exp))
  {
    assert forall d: Digit :: IsDigit(DigitChar(d));
    var e := ExponentText(exp);
    assert forall i :: 0 <= i < |e| ==> NumeralChar(e[i]);
    var f := FractionText(fraction);
    assert forall i :: 0 <= i < |f| ==> NumeralChar(f[i]);
  }

  lemma WholeNotEmpty(n: Num)
    requires n.Normal()
    ensures WholeDigits(n) != []
  {
  }

  lemma PrintedIsText(n: Num, threshold: int)
    requires n.Normal()
    ensures NumeralText(PrintFixed(n)) && NumeralText(PrintGeneral(n, threshold))
  {
    hide NumeralText, Numeral, WholeDigits, FractionDigits;
    WholeNotEmpty(n);
    NumeralIsText(n.neg, WholeDigits(n), FractionDigits(n), None);
    if n.digits != [] {
      NumeralIsText(n.neg, n.digits[..1], n.digits[1..], Some(n.point - 1));
    }
  }
}

/** pgvector literals: two printers and one parser. */
module VectorLiteral {
  import opened SeqUtil
  import opened Numerals
  import opened BlankText

  type Numbers = seq<Num>

  predicate Finite(v: Numbers) { forall i :: 0 <= i < |v| ==> v[i].Normal() }

  /** The two printers: `AppendFloat(…, 'f', -1, 32)` and `%g`. */
  datatype Format = Fixed | General(threshold: int) {
    function Print(n: Num): string {
      match this
      case Fixed => PrintFixed(n)
      case General(threshold) => PrintGeneral(n, threshold)
    }
  }

  function Join(parts: seq<string>): string {
    if parts == [] then ""
    else if |parts| == 1 then parts[0]
    else Join(parts[..|parts| - 1]) + "," + parts[|parts| - 1]
  }

  function Printed(v: Numbers, format: Format): (r: seq<string>)
    ensures |r| == |v| && forall i :: 0 <= i < |v| ==> r[i] == format.Print(v[i])
  {
    seq(|v|, i requires 0 <= i < |v| => format.Print(v[i]))
  }

  function Literal(v: Numbers, format: Format): string {
    "[" + Join(Printed(v, format)) + "]"
  }

  /** A literal that still lacks its closing bracket. */
  function Open(v: Numbers, format: Format): string {
    "[" + Join(Printed(v, format))
  }

  lemma JoinSnoc(parts: seq<string>, last: string)
    requires parts != []
    ensures Join(parts + [last]) == Join(parts) + "," + last
  {
    assert (parts + [last])[..|parts|] == parts;
  }

  lemma OpenParts(parts: seq<string>, last: string)
    ensures "[" + Join(parts + [last]) == (if parts == [] then "[" + Join(parts) else "[" + Join(parts) + ",") + last
  {
    if parts != [] {
      JoinSnoc(parts, last);
      Regroup("[", Join(parts), ",", last);
    }
  }

  lemma Regroup(a: string, b: string, c: string, d: string)
    ensures a + ((b + c) + d) == ((a + b) + c) + d
  {
  }

  lemma OpenSnoc(v: Numbers, i: nat, format: Format)
    requires i < |v|
    ensures Open(v[..i + 1], format) ==
      (if i > 0 then Open(v[..i], format) + "," else Open(v[..i], format)) + format.Print(v[i])
  {
    hide Join, Format.Print;
    assert Printed(v[..i + 1], format) == Printed(v[..i], format) + [format.Print(v[i])];
    OpenParts(Printed(v[..i], format), format.Print(v[i]));
  }

  method VectorToPG(v: Numbers, format: Format) returns (b: string)
    ensures b == Literal(v, format)
  {
    b := "[";
    for i := 0 to |v|
      invariant b == Open(v[..i], format)
    {
      OpenSnoc(v, i, format);
      if i > 0 {
        b := b + ",";
      }
      b := b + format.Print(v[i]);
    }
    assert v[..|v|] == v;
    b := b + "]";
  }

  function IndexComma(s: string): (k: nat)
    ensures k <= |s| && ',' !in s[..k] && (k < |s| ==> s[k] == ',')
  {
    if s == "" || s[0] == ',' then 0
    else
      var k := 1 + IndexComma(s[1..]);
      assert s[..k] == [s[0]] + s[1..][..k - 1];
      k
  }

  function Split(s: string): (r: seq<string>)
    ensures r != []
    decreases |s|
  {
    var k := IndexComma(s);
    if k == |s| then [s] else [s[..k]] + Split(s[k + 1..])
  }

  function TrimText(s: string): string
    decreases |s|
  {
    if s == "" then s
    else if IsSpace(s[0]) then TrimText(s[1..])
    else if IsSpace(s[|s| - 1]) then TrimText(s[..|s| - 1])
    else s
  }

  /** A part that does not scan leaves its number zero. */
  function PartValue(p: string): Num {
    var scanned := ScanNum(TrimText(p));
    if scanned.Some? then scanned.value else Num(false, [], 0)
  }

  function Values(parts: seq<string>): (r: Numbers)
    ensures |r| == |parts| && forall i :: 0 <= i < |parts| ==> r[i] == PartValue(parts[i])
  {
    seq(|parts|, i requires 0 <= i < |parts| => PartValue(parts[i]))
  }

  function Unwrap(s: string): string {
    var s1 := if s != "" && s[0] == '[' then s[1..] else s;
    if s1 != "" && s1[|s1| - 1] == ']' then s1[..|s1| - 1] else s1
  }

  function Parsed(s: string): Numbers {
    if Unwrap(s) == "" then [] else Values(Split(Unwrap(s)))
  }

  method ParsePGVector(s: string) returns (out: Numbers)
    ensures out == Parsed(s)
  {
    hide PartValue;
    var t := s;
    if t != "" && t[0] == '[' {
      t := t[1..];
    }
    if t != "" && t[|t| - 1] == ']' {
      t := t[..|t| - 1];
    }
    if t == "" {
      return [];
    }
    var parts := Split(t);
    out := [];
    for i := 0 to |parts|
      invariant out == Values(parts[..i])
    {
      ValuesSnoc(parts, i);
      out := out + [PartValue(parts[i])];
    }
    assert parts[..|parts|] == parts;
  }

  lemma ValuesSnoc(parts: seq<string>, i: nat)
    requires i < |parts|
    ensures Values(parts[..i + 1]) == Values(parts[..i]) + [PartValue(parts[i])]
  {
  }

  /** Joining and splitting around commas are inverse on parts that have none. */
  lemma {:induction false} SplitSnoc(front: string, last: string)
    requires ',' !in last
    ensures Split(front + "," + last) == Split(front) + [last]
    decreases |front|
  {
    hide IndexComma;
    var s := front + "," + last;
    var k := IndexComma(front);
    CommaIn(front, "," + last);
    assert s == front + ("," + last);
    if k == |front| {
      assert s[..k] == front && s[k + 1..] == last;
      NoComma(last);
    } else {
      assert s[..k] == front[..k] && s[k + 1..] == front[k + 1..] + "," + last;
      SplitSnoc(front[k + 1..], last);
    }
  }

  lemma {:induction false} CommaIn(a: string, b: string)
    requires b != "" && b[0] == ','
    ensures IndexComma(a + b) == IndexComma(a)
  {
    if a == "" {
      assert a + b == b;
    } else {
      CommaIn(a[1..], b);
      assert (a + b)[1..] == a[1..] + b;
    }
  }

  lemma {:induction false} NoComma(s: string)
    requires ',' !in s
    ensures IndexComma(s) == |s| && Split(s) == [s]
  {
    if s != "" {
      assert s[0] in s;
      NoComma(s[1..]);
    }
  }

  lemma {:induction false} SplitJoin(parts: seq<string>)
    requires parts != [] && forall i :: 0 <= i < |parts| ==> ',' !in parts[i]
    ensures Split(Join(parts)) == parts
    ensures parts[0] != "" ==> Join(parts) != ""
  {
    if |parts| == 1 {
      NoComma(parts[0]);
    } else {
      var n := |parts| - 1;
      SplitJoin(parts[..n]);
      SplitSnoc(Join(parts[..n]), parts[n]);
      assert parts == parts[..n] + [parts[n]];
    }
  }

  lemma TrimNumeral(s: string)
    requires NumeralText(s)
    ensures TrimText(s) == s && ',' !in s
  {
    assert NumeralChar(s[0]) && NumeralChar(s[|s| - 1]);
    forall i | 0 <= i < |s| ensures s[i] != ',' {
      assert NumeralChar(s[i]);
    }
  }

  lemma PartRoundTrip(n: Num, format: Format)
    requires n.Normal()
    ensures PartValue(format.Print(n)) == n
    ensures ',' !in format.Print(n) && format.Print(n) != ""
  {
    var threshold := if format.General? then format.threshold else 0;
    PrintedIsText(n, threshold);
    FixedScans(n);
    GeneralScans(n, threshold);
    TrimNumeral(format.Print(n));
  }

  /**
   * Every finite vector, the empty one included, comes back from its literal; so the fixed-point and the
   * exponent printer denote the same vector.
   */
  lemma RoundTrip(v: Numbers, format: Format)
    requires Finite(v)
    ensures Parsed(Literal(v, format)) == v
    ensures Parsed(Literal(v, Fixed)) == Parsed(Literal(v, format))
  {
    LiteralParses(v, format);
    LiteralParses(v, Fixed);
  }

  lemma {:induction false} JoinedChars(parts: seq<string>)
    requires forall i :: 0 <= i < |parts| ==> NumeralText(parts[i])
    ensures forall k :: 0 <= k < |Join(parts)| ==> NumeralChar(Join(parts)[k]) || Join(parts)[k] == ','
  {
    if |parts| > 1 {
      JoinedChars(parts[..|parts| - 1]);
    }
  }

  /** A literal is brackets, commas and numerals, with no space between. */
  lemma LiteralChars(v: Numbers, format: Format)
    requires Finite(v)
    ensures var s := Literal(v, format);
      && |s| >= 2 && s[0] == '[' && s[|s| - 1] == ']'
      && forall k :: 0 < k < |s| - 1 ==> NumeralChar(s[k]) || s[k] == ','
  {
    hide NumeralText, Format.Print, Join;
    forall i | 0 <= i < |v| ensures NumeralText(Printed(v, format)[i]) {
      PrintsText(v[i], format);
    }
    JoinedChars(Printed(v, format));
  }

  lemma PrintsText(n: Num, format: Format)
    requires n.Normal()
    ensures NumeralText(format.Print(n))
  {
    hide NumeralText;
    PrintedIsText(n, if format.General? then format.threshold else 0);
  }

  /** White space around a part does not matter, and neither do the brackets. */
  lemma {:induction false} TrimPadded(a: string, s: string, b: string)
    requires Blank(a) && Blank(b) && s != "" && !IsSpace(s[0]) && !IsSpace(s[|s| - 1])
    ensures TrimText(a + s + b) == s
    decreases |a| + |b|
  {
    var t := a + s + b;
    if a != "" {
      assert t[0] == a[0] && t[1..] == a[1..] + s + b;
      TrimPadded(a[1..], s, b);
    } else if b != "" {
      assert t[|t| - 1] == b[|b| - 1] && t[..|t| - 1] == a + s + b[..|b| - 1] && t[0] == s[0];
      TrimPadded(a, s, b[..|b| - 1]);
    } else {
      assert t == s;
    }
  }

  lemma {:induction false} TrimKeepsChars(s: string)
    ensures forall i :: 0 <= i < |TrimText(s)| ==> TrimText(s)[i] in s
    decreases |s|
  {
    if s != "" {
      if IsSpace(s[0]) {
        TrimKeepsChars(s[1..]);
      } else if IsSpace(s[|s| - 1]) {
        TrimKeepsChars(s[..|s| - 1]);
      }
    }
  }

  /** A part without a digit is zero. */
  lemma NoDigitIsZero(p: string)
    requires forall i :: 0 <= i < |p| ==> !IsDigit(p[i])
    ensures PartValue(p) == Num(false, [], 0)
  {
    hide TrimText;
    TrimKeepsChars(p);
    var s := TrimText(p);
    assert forall i :: 0 <= i < |s| ==> !IsDigit(s[i]);
    assert FractionAt(s, Run(s, SignEnd(s))) == [];
  }

  lemma BracketsOptional(inner: string)
    requires inner != "" ==> inner[0] != '[' && inner[|inner| - 1] != ']'
    ensures Parsed(inner) == Parsed("[" + inner + "]")
  {
    hide Values, Split, Unwrap;
    UnwrapWrapped(inner);
    UnwrapBare(inner);
  }

  lemma UnwrapBare(inner: string)
    requires inner != "" ==> inner[0] != '[' && inner[|inner| - 1] != ']'
    ensures Unwrap(inner) == inner
  {
  }

  lemma UnwrapWrapped(inner: string)
    ensures Unwrap("[" + inner + "]") == inner
  {
    var s := "[" + inner + "]";
    assert s[1..] == inner + "]" && (inner + "]")[..|inner|] == inner;
  }

  lemma LiteralParses(v: Numbers, format: Format)
    requires Finite(v)
    ensures Parsed(Literal(v, format)) == v
  {
    var parts := Printed(v, format);
    UnwrapWrapped(Join(parts));
    if v != [] {
      forall i | 0 <= i < |v| ensures PartValue(parts[i]) == v[i] && ',' !in parts[i] && parts[i] != "" {
        PartRoundTrip(v[i], format);
      }
      SplitJoin(parts);
    }
  }
}
