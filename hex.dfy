/**
 * Hexadecimal and binary digit strings as the codec handles them: Python's `int(s, 16)`,
 * `bin(v)[2:]`, `str.zfill`, `int(b, 2)` and the `X` format, together with the
 * digit-by-digit expansion they amount to.
 */
module Hex {
  import opened Bitwise

  predicate IsHexDigit(c: char) {
    '0' <= c <= '9' || 'a' <= c <= 'f' || 'A' <= c <= 'F'
  }

  type HexDigit = c: char | IsHexDigit(c) witness '0'

  /** A binary digit character, as in the strings `bin` produces. */
  type Bit = c: char | c == '0' || c == '1' witness '0'

  predicate IsHex(s: string) {
    forall i :: 0 <= i < |s| ==> IsHexDigit(s[i])
  }

  /** The strings `int(s, 16)` accepts here: at least one hex digit and nothing else. */
  predicate IsHexNumeral(s: string) {
    |s| > 0 && IsHex(s)
  }

  function DigitValue(c: HexDigit): (r: nat)
    ensures r < 16
  {
    if '0' <= c <= '9' then c as int - '0' as int
    else if 'a' <= c <= 'f' then c as int - 'a' as int + 10
    else c as int - 'A' as int + 10
  }

  lemma Pow2Nibble(n: nat)
    ensures Pow2(4 * n + 4) == 16 * Pow2(4 * n)
  {
    Pow2Add(4, 4 * n);
  }

  /** `int(s, 16)` on a string of hex digits. */
  function HexValue(s: seq<HexDigit>): (r: nat)
    ensures r < Pow2(4 * |s|)
  {
    if s == [] then 0
    else
      Pow2Nibble(|s| - 1);
      16 * HexValue(s[..|s| - 1]) + DigitValue(s[|s| - 1])
  }

  /** `int(b, 2)` on a string of binary digits (the empty string gives 0 here; Python raises on it). */
  function BinaryValue(b: seq<Bit>): (r: nat)
    ensures r < Pow2(|b|)
  {
    if b == [] then 0
    else 2 * BinaryValue(b[..|b| - 1]) + (if b[|b| - 1] == '1' then 1 else 0)
  }

  function BitChar(v: nat): Bit
    requires v < 2
  {
    if v == 1 then '1' else '0'
  }

  /** `bin(v)[2:]`: the binary digits of `v` without leading zeros ("0" for zero). */
  function BinaryString(v: nat): (r: seq<Bit>)
    ensures |r| > 0 && BinaryValue(r) == v
    ensures v > 0 ==> r[0] == '1'
    ensures |r| == 1 || r[0] == '1'
    decreases v
  {
    if v < 2 then [BitChar(v)]
    else
      var prefix := BinaryString(v / 2);
      assert (prefix + [BitChar(v % 2)])[..|prefix|] == prefix;
      prefix + [BitChar(v % 2)]
  }

  function Zeros(n: nat): (r: seq<Bit>)
    ensures |r| == n && forall i :: 0 <= i < n ==> r[i] == '0'
  {
    seq(n, _ => '0')
  }

  /** `s.zfill(w)` for a string of binary digits: `s` behind enough zeros to make `w` digits. */
  function ZFill(s: seq<Bit>, w: nat): (r: seq<Bit>)
    ensures |r| == if |s| < w then w else |s|
  {
    if |s| < w then Zeros(w - |s|) + s else s
  }

  /** `zfill` keeps the digits at the end and puts only zeros before them. */
  lemma ZFillPads(s: seq<Bit>, w: nat)
    ensures var r := ZFill(s, w);
      r[|r| - |s|..] == s && forall i :: 0 <= i < |r| - |s| ==> r[i] == '0'
  {
  }

  /** The four bits of one hex digit, most significant first. */
  function Nibble(c: HexDigit): (r: seq<Bit>)
    ensures |r| == 4 && BinaryValue(r) == DigitValue(c)
  {
    var d := DigitValue(c);
    FourBits(d / 8, d / 4 % 2, d / 2 % 2, d % 2);
    [BitChar(d / 8), BitChar(d / 4 % 2), BitChar(d / 2 % 2), BitChar(d % 2)]
  }

  lemma FourBits(w: nat, x: nat, y: nat, z: nat)
    requires w < 2 && x < 2 && y < 2 && z < 2
    ensures BinaryValue([BitChar(w), BitChar(x), BitChar(y), BitChar(z)]) == 8 * w + 4 * x + 2 * y + z
  {
    var r1, r2, r3 := [BitChar(w)], [BitChar(w), BitChar(x)], [BitChar(w), BitChar(x), BitChar(y)];
    var r := r3 + [BitChar(z)];
    assert r1[..0] == [] && r2[..1] == r1 && r3[..2] == r2 && r[..3] == r3;
    assert BinaryValue(r1) == w;
    assert BinaryValue(r2) == 2 * w + x;
    assert BinaryValue(r3) == 4 * w + 2 * x + y;
    assert r == [BitChar(w), BitChar(x), BitChar(y), BitChar(z)];
  }

  /** Digit-by-digit binary expansion of a hex string: `4 * |s|` bits, most significant first. */
  function Nibbles(s: seq<HexDigit>): (r: seq<Bit>)
    ensures |r| == 4 * |s|
  {
    if s == [] then [] else Nibbles(s[..|s| - 1]) + Nibble(s[|s| - 1])
  }

  lemma MulDouble(x: int, p: int)
    ensures 2 * (x * p) == x * (2 * p)
  {
  }

  lemma MulSixteen(x: int, p: int)
    ensures 16 * (x * p) == x * (16 * p)
  {
  }

  lemma {:induction false} BinaryValueConcat(a: seq<Bit>, b: seq<Bit>)
    ensures BinaryValue(a + b) == BinaryValue(a) * Pow2(|b|) + BinaryValue(b)
    decreases |b|
  {
    if b == [] {
      assert a + b == a;
    } else {
      var b' := b[..|b| - 1];
      var bit := if b[|b| - 1] == '1' then 1 else 0;
      assert (a + b)[..|a + b| - 1] == a + b';
      assert (a + b)[|a + b| - 1] == b[|b| - 1];
      BinaryValueConcat(a, b');
      var x, p, y := BinaryValue(a), Pow2(|b'|), BinaryValue(b');
      assert BinaryValue(a + b) == 2 * (x * p + y) + bit;
      assert BinaryValue(b) == 2 * y + bit;
      assert Pow2(|b|) == 2 * p;
      MulDouble(x, p);
    }
  }

  lemma {:induction false} BinaryValueZeros(n: nat)
    ensures BinaryValue(Zeros(n)) == 0
  {
    if n > 0 {
      assert Zeros(n)[..n - 1] == Zeros(n - 1);
      BinaryValueZeros(n - 1);
    }
  }

  /** Two bit strings of one length with one value are the same string. */
  lemma {:induction false} BinaryInjective(a: seq<Bit>, b: seq<Bit>)
    requires |a| == |b| && BinaryValue(a) == BinaryValue(b)
    ensures a == b
    decreases |a|
  {
    if a != [] {
      var n := |a| - 1;
      var ba := if a[n] == '1' then 1 else 0;
      var bb := if b[n] == '1' then 1 else 0;
      DivModUnique(BinaryValue(a), 2, BinaryValue(a[..n]), ba);
      DivModUnique(BinaryValue(b), 2, BinaryValue(b[..n]), bb);
      BinaryInjective(a[..n], b[..n]);
      assert a == a[..n] + [a[n]] && b == b[..n] + [b[n]];
    }
  }

  lemma {:induction false} BinaryStringLength(v: nat, w: nat)
    requires w > 0 && v < Pow2(w)
    ensures |BinaryString(v)| <= w
    decreases v
  {
    if v >= 2 {
      BinaryStringLength(v / 2, w - 1);
    }
  }

  lemma {:induction false} NibblesValue(s: seq<HexDigit>)
    ensures BinaryValue(Nibbles(s)) == HexValue(s)
  {
    if s != [] {
      var s' := s[..|s| - 1];
      var c := s[|s| - 1];
      NibblesValue(s');
      BinaryValueConcat(Nibbles(s'), Nibble(c));
      assert Pow2(4) == 16;
      assert BinaryValue(Nibbles(s)) == BinaryValue(Nibbles(s')) * 16 + DigitValue(c);
    }
  }

  /** Zero-filling does not change the value of a bit string. */
  lemma BinaryValueZFill(b: seq<Bit>, w: nat)
    ensures BinaryValue(ZFill(b, w)) == BinaryValue(b)
  {
    if |b| < w {
      var zs := Zeros(w - |b|);
      BinaryValueConcat(zs, b);
      BinaryValueZeros(w - |b|);
      assert BinaryValue(zs) * Pow2(|b|) == 0;
    }
  }

  /**
   * `bin(int(h, 16))[2:].zfill(4 * len(h))` is the digit-by-digit expansion of `h`:
   * the conversion through an integer never loses or adds a bit.
   */
  lemma HexBits(h: seq<HexDigit>)
    requires |h| > 0
    ensures ZFill(BinaryString(HexValue(h)), 4 * |h|) == Nibbles(h)
  {
    var v := HexValue(h);
    var b := BinaryString(v);
    var z := ZFill(b, 4 * |h|);
    assert |z| == 4 * |h| by {
      BinaryStringLength(v, 4 * |h|);
    }
    assert BinaryValue(z) == v by {
      BinaryValueZFill(b, 4 * |h|);
    }
    assert BinaryValue(Nibbles(h)) == v by {
      NibblesValue(h);
    }
    BinaryInjective(z, Nibbles(h));
  }

  /** The `n` bits at offset `s` of a bit string, as a number: a shift-and-mask of the whole value. */
  lemma BinaryValueSlice(b: seq<Bit>, s: nat, n: nat)
    requires s + n <= |b|
    ensures BinaryValue(b[s..s + n]) == (BinaryValue(b) / Pow2(|b| - s - n)) % Pow2(n)
  {
    var hi, mid, lo := b[..s], b[s..s + n], b[s + n..];
    assert b == (hi + mid) + lo;
    BinaryValueConcat(hi, mid);
    BinaryValueConcat(hi + mid, lo);
    ExtractField(BinaryValue(hi), BinaryValue(mid), BinaryValue(lo), |lo|, n);
  }

  lemma {:induction false} HexValueConcat(a: seq<HexDigit>, b: seq<HexDigit>)
    ensures HexValue(a + b) == HexValue(a) * Pow2(4 * |b|) + HexValue(b)
    decreases |b|
  {
    if b == [] {
      assert a + b == a;
    } else {
      var b' := b[..|b| - 1];
      var c := b[|b| - 1];
      assert (a + b)[..|a + b| - 1] == a + b';
      assert (a + b)[|a + b| - 1] == c;
      HexValueConcat(a, b');
      Pow2Nibble(|b'|);
      var x, p, y := HexValue(a), Pow2(4 * |b'|), HexValue(b');
      assert HexValue(a + b) == 16 * (x * p + y) + DigitValue(c);
      assert HexValue(b) == 16 * y + DigitValue(c);
      MulSixteen(x, p);
    }
  }

  const UpperDigits: string := "0123456789ABCDEF"

  function HexChar(d: nat): (c: HexDigit)
    requires d < 16
    ensures DigitValue(c) == d && !('a' <= c <= 'f')
  {
    UpperDigits[d]
  }

  /** Hex digits with no lower-case letter: what Python's `X` format writes. */
  predicate IsUpper(s: seq<HexDigit>) {
    forall i :: 0 <= i < |s| ==> !('a' <= s[i] <= 'f')
  }

  /** `format(n, "X")`: the upper-case hex digits of `n` without leading zeros. */
  function HexDigits(n: nat): (r: seq<HexDigit>)
    ensures |r| > 0 && IsUpper(r) && HexValue(r) == n
    ensures n > 0 ==> r[0] != '0'
    ensures |r| == 1 || r[0] != '0'
    decreases n
  {
    if n < 16 then [HexChar(n)]
    else
      var prefix := HexDigits(n / 16);
      var r := prefix + [HexChar(n % 16)];
      assert r[..|r| - 1] == prefix;
      r
  }

  lemma {:induction false} HexDigitsLength(n: nat, w: nat)
    requires w > 0 && n < Pow2(4 * w)
    ensures |HexDigits(n)| <= w
    decreases n
  {
    if n >= 16 {
      Pow2Nibble(w - 1);
      HexDigitsLength(n / 16, w - 1);
    }
  }

  /**
   * `format(n, "0{w}X")`: upper-case hex, zero-padded to at least `w` digits. It reads back
   * as `n`, it is exactly `w` digits long whenever `n` fits in `w` digits, a larger `n` is
   * written with its own digits, and no zero is added beyond the width.
   */
  function FormatHex(n: nat, w: nat): (r: seq<HexDigit>)
    ensures IsUpper(r) && HexValue(r) == n && |r| >= w
    ensures w > 0 && n < Pow2(4 * w) ==> |r| == w
    ensures n >= Pow2(4 * w) ==> r == HexDigits(n)
    ensures |r| > w && |r| > 1 ==> r[0] != '0'
  {
    var d := HexDigits(n);
    if |d| < w then
      HexValueZeroPad(d, w - |d|);
      Pow2Monotone(4 * |d|, 4 * w);
      Zeros(w - |d|) + d
    else
      FormatHexWidth(n, w);
      d
  }

  lemma FormatHexWidth(n: nat, w: nat)
    requires |HexDigits(n)| >= w
    ensures w > 0 && n < Pow2(4 * w) ==> |HexDigits(n)| == w
  {
    if w > 0 && n < Pow2(4 * w) {
      HexDigitsLength(n, w);
    }
  }

  /** Leading zeros do not change the value of a hex string. */
  lemma HexValueZeroPad(d: seq<HexDigit>, k: nat)
    ensures IsUpper(d) ==> IsUpper(Zeros(k) + d)
    ensures HexValue(Zeros(k) + d) == HexValue(d)
  {
    var z: seq<HexDigit> := Zeros(k);
    HexValueZeros(k);
    HexValueConcat(z, d);
    assert HexValue(z) * Pow2(4 * |d|) == 0;
  }

  lemma {:induction false} HexValueZeros(n: nat)
    ensures HexValue(Zeros(n)) == 0
  {
    if n > 0 {
      assert Zeros(n)[..n - 1] == Zeros(n - 1);
      HexValueZeros(n - 1);
    }
  }

  /** `'0' * n` as hex digits, worth 0. */
  function ZeroDigits(n: nat): (r: seq<HexDigit>)
    ensures |r| == n && IsUpper(r) && HexValue(r) == 0
  {
    HexValueZeros(n);
    Zeros(n)
  }

  /** An upper-case digit is determined by its value. */
  lemma UpperDigitUnique(a: HexDigit, b: HexDigit)
    requires !('a' <= a <= 'f') && !('a' <= b <= 'f') && DigitValue(a) == DigitValue(b)
    ensures a == b
  {
  }

  /** Upper-case hex strings of the same length and value are equal. */
  lemma {:induction false} UpperHexInjective(a: seq<HexDigit>, b: seq<HexDigit>)
    requires |a| == |b| && IsUpper(a) && IsUpper(b) && HexValue(a) == HexValue(b)
    ensures a == b
  {
    if a != [] {
      var n := |a| - 1;
      DivModUnique(HexValue(a), 16, HexValue(a[..n]), DigitValue(a[n]));
      DivModUnique(HexValue(b), 16, HexValue(b[..n]), DigitValue(b[n]));
      UpperDigitUnique(a[n], b[n]);
      UpperHexInjective(a[..n], b[..n]);
      assert a == a[..n] + [a[n]] && b == b[..n] + [b[n]];
    }
  }

  /** `format(n, "0{w}X")` is the one upper-case string of `w` digits whose value is `n`. */
  lemma FormatHexDigits(n: nat, w: nat, s: seq<HexDigit>)
    requires w > 0 && |s| == w && IsUpper(s) && HexValue(s) == n
    ensures FormatHex(n, w) == s
  {
    UpperHexInjective(FormatHex(n, w), s);
  }

  /** Each of five concatenated digit strings, cut back out. */
  lemma Chunks(a: seq<HexDigit>, b: seq<HexDigit>, c: seq<HexDigit>, d: seq<HexDigit>, e: seq<HexDigit>)
    ensures var s := a + b + c + d + e; var i, j, k := |a|, |a| + |b|, |a| + |b| + |c|;
      s[..i] == a && s[i..j] == b && s[j..k] == c && s[k..k + |d|] == d && s[|s| - |e|..] == e
  {
    var s := a + b + c + d + e;
    var abc := a + b + c;
    assert s == abc + d + e;
    assert abc[..|a|] == a && abc[|a|..|a| + |b|] == b && abc[|a| + |b|..] == c by {
      assert abc == a + (b + c);
    }
    ConcatHalves(abc + d, e);
    ConcatHalves(abc, d);
  }

  /** The two halves of a concatenation, and the prefix of the first half. */
  lemma ConcatHalves(x: seq<HexDigit>, y: seq<HexDigit>)
    ensures (x + y)[..|x|] == x && (x + y)[|x|..] == y
    ensures forall m :: 0 <= m <= |x| ==> (x + y)[..m] == x[..m]
  {
  }
}
