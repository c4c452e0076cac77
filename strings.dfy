/** The Python string operations the codec and its callers rely on: slicing, `in`, `split()`, `int()`, `str()`. */
module Strings {
  import opened Wrappers

  function Min(a: int, b: int): int {
    if a < b then a else b
  }

  /** Python's `s[i:j]` for non-negative bounds: bounds past the end are clamped, an empty range gives "". */
  function Slice<T>(s: seq<T>, i: nat, j: nat): (r: seq<T>)
    ensures |r| == if i < |s| && i < j then Min(j, |s|) - i else 0
    ensures i < |s| && i < j ==> r == s[i..Min(j, |s|)]
  {
    if i < |s| && i < j then s[i..Min(j, |s|)] else []
  }

  /** `s.startswith(p)` */
  predicate StartsWith(s: string, p: string) {
    |p| <= |s| && s[..|p|] == p
  }

  predicate OccursAt(sub: string, s: string, i: nat) {
    i + |sub| <= |s| && s[i..i + |sub|] == sub
  }

  /** `sub in s`, scanning `s` from the left. */
  predicate IsSubstring(sub: string, s: string)
    decreases |s|
  {
    (|sub| <= |s| && s[..|sub|] == sub) || (|s| > 0 && IsSubstring(sub, s[1..]))
  }

  /** The scan finds `sub` exactly when `sub` occurs at some position of `s`. */
  lemma {:induction false} IsSubstringIff(sub: string, s: string)
    ensures IsSubstring(sub, s) <==> exists i: nat :: OccursAt(sub, s, i)
    decreases |s|
  {
    if |sub| <= |s| && s[..|sub|] == sub {
      assert OccursAt(sub, s, 0);
    } else if |s| > 0 {
      IsSubstringIff(sub, s[1..]);
      if IsSubstring(sub, s[1..]) {
        var i: nat :| OccursAt(sub, s[1..], i);
        assert s[1..][i..i + |sub|] == s[i + 1..i + 1 + |sub|];
        assert OccursAt(sub, s, i + 1);
      } else {
        forall i: nat | OccursAt(sub, s, i)
          ensures false
        {
          assert i > 0;
          assert s[1..][i - 1..i - 1 + |sub|] == s[i..i + |sub|];
          assert OccursAt(sub, s[1..], i - 1);
        }
      }
    } else {
      assert forall i: nat :: !OccursAt(sub, s, i);
    }
  }

  /** The characters for which Python's `str.isspace()` holds, where `str.split()` breaks words. */
  predicate IsSpace(c: char) {
    ('\U{9}' <= c <= '\U{D}') || ('\U{1C}' <= c <= '\U{20}') || c == '\U{85}' || c == '\U{A0}'
    || c == '\U{1680}' || ('\U{2000}' <= c <= '\U{200A}') || c == '\U{2028}' || c == '\U{2029}'
    || c == '\U{202F}' || c == '\U{205F}' || c == '\U{3000}'
  }

  predicate NoSpace(w: string) {
    forall i :: 0 <= i < |w| ==> !IsSpace(w[i])
  }

  /** The characters of `s` that are not whitespace, in order. */
  function RemoveSpaces(s: string): string {
    if s == [] then [] else (if IsSpace(s[0]) then [] else [s[0]]) + RemoveSpaces(s[1..])
  }

  function Concat(words: seq<string>): string {
    if words == [] then [] else words[0] + Concat(words[1..])
  }

  /** The two halves of a concatenation, cut back out. */
  lemma SliceConcat<T>(a: seq<T>, b: seq<T>, i: nat, j: nat)
    requires i <= j <= |a| + |b|
    ensures j <= |a| ==> (a + b)[i..j] == a[i..j]
    ensures i >= |a| ==> (a + b)[i..j] == b[i - |a|..j - |a|]
  {
  }

  /** The longest prefix of `s` without whitespace. */
  function TakeWord(s: string): (w: string)
    ensures |w| <= |s| && w == s[..|w|] && NoSpace(w)
    ensures |w| < |s| ==> IsSpace(s[|w|])
  {
    if s == [] || IsSpace(s[0]) then [] else [s[0]] + TakeWord(s[1..])
  }

  lemma {:induction false} RemoveSpacesConcat(a: string, b: string)
    ensures RemoveSpaces(a + b) == RemoveSpaces(a) + RemoveSpaces(b)
  {
    if a != [] {
      assert (a + b)[1..] == a[1..] + b;
      RemoveSpacesConcat(a[1..], b);
    } else {
      assert a + b == b;
    }
  }

  lemma {:induction false} RemoveSpacesWord(w: string)
    requires NoSpace(w)
    ensures RemoveSpaces(w) == w
  {
    if w != [] {
      RemoveSpacesWord(w[1..]);
    }
  }

  /** `s.split()`: the maximal runs of non-whitespace characters, from the left. */
  function Split(s: string): seq<string>
    decreases |s|
  {
    if s == [] then []
    else if IsSpace(s[0]) then Split(s[1..])
    else
      var w := TakeWord(s);
      [w] + Split(s[|w|..])
  }

  /**
   * Every word of `s.split()` is non-empty and free of whitespace, and together the words hold
   * every other character of `s`, in order.
   */
  lemma {:induction false} SplitWords(s: string)
    ensures forall k :: 0 <= k < |Split(s)| ==> |Split(s)[k]| > 0 && NoSpace(Split(s)[k])
    ensures Concat(Split(s)) == RemoveSpaces(s)
    decreases |s|
  {
    if s == [] {
    } else if IsSpace(s[0]) {
      SplitWords(s[1..]);
    } else {
      var w := TakeWord(s);
      var rest := Split(s[|w|..]);
      SplitWords(s[|w|..]);
      assert s == w + s[|w|..];
      RemoveSpacesConcat(w, s[|w|..]);
      RemoveSpacesWord(w);
      assert ([w] + rest)[1..] == rest;
    }
  }

  /** A whitespace-free word followed by nothing or by whitespace is the word `TakeWord` cuts. */
  lemma {:induction false} TakeWordPrefix(w: string, rest: string)
    requires NoSpace(w) && (rest == [] || IsSpace(rest[0]))
    ensures TakeWord(w + rest) == w
  {
    if w == [] {
      assert w + rest == rest;
    } else {
      assert (w + rest)[1..] == w[1..] + rest;
      TakeWordPrefix(w[1..], rest);
    }
  }

  /** A leading whitespace-free run that ends at whitespace or at the end of the text is, whole, the first word of `s.split()`. */
  lemma SplitFirstWord(w: string, rest: string)
    requires |w| > 0 && NoSpace(w) && (rest == [] || IsSpace(rest[0]))
    ensures Split(w + rest) == [w] + Split(rest)
  {
    var s := w + rest;
    assert s[0] == w[0];
    TakeWordPrefix(w, rest);
    assert s[|w|..] == rest;
  }

  /**
   * A whitespace character in front of `t` is skipped. With `Split([]) == []` and
   * `SplitFirstWord` this pins `s.split()` down completely: words are exactly the maximal
   * whitespace-free runs.
   */
  lemma SplitSkipSpace(c: char, t: string)
    requires IsSpace(c)
    ensures Split([c] + t) == Split(t)
  {
    assert ([c] + t)[1..] == t;
  }

  /** Two words joined by one space split back into those two words. */
  lemma SplitTwoWords(a: string, b: string)
    requires |a| > 0 && |b| > 0 && NoSpace(a) && NoSpace(b)
    ensures Split(a + " " + b) == [a, b]
  {
    assert a + " " + b == a + (" " + b);
    SplitFirstWord(a, " " + b);
    assert (" " + b)[1..] == b;
    SplitFirstWord(b, []);
    assert b + [] == b;
  }

  predicate IsDigit(c: char) {
    '0' <= c <= '9'
  }

  predicate AllDigits(w: string) {
    forall i :: 0 <= i < |w| ==> IsDigit(w[i])
  }

  function DecimalValue(w: string): nat
    requires AllDigits(w)
  {
    if w == [] then 0 else 10 * DecimalValue(w[..|w| - 1]) + (w[|w| - 1] as int - '0' as int)
  }

  /** `int(w)` on a word of ASCII decimal digits; `None` where the model has Python raise. */
  function ParseInt(w: string): (r: Option<nat>)
    ensures r.Some? <==> |w| > 0 && AllDigits(w)
  {
    if |w| > 0 && AllDigits(w) then Some(DecimalValue(w)) else None
  }

  /** `str(n)`, which `int` reads back as `n`. */
  function DecimalString(n: nat): (r: string)
    ensures ParseInt(r) == Some(n)
    ensures NoSpace(r)
    decreases n
  {
    var d := [(('0' as int) + n % 10) as char];
    assert d[0] as int - '0' as int == n % 10;
    assert AllDigits(d) && DecimalValue(d) == n % 10 by {
      assert d[..0] == [];
    }
    if n < 10 then
      assert d[..0] == [];
      d
    else
      var prefix := DecimalString(n / 10);
      assert (prefix + d)[..|prefix|] == prefix;
      prefix + d
  }
}
