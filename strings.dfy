/**
 * The JavaScript string operations the service relies on, on `seq<char>`:
 * `toUpperCase`, `trim`, `split` on a one-character separator and
 * `parseInt(s, 10)`.  Only the ASCII letters are case-mapped.
 */
module Strings {
  import opened Wrappers

  /** JavaScript truthiness of a string-valued property: present and non-empty. */
  predicate Truthy(p: Option<string>) {
    p.Some? && p.value != ""
  }

  // ---------------------------------------------------------------- case

  predicate IsLower(c: char) { 'a' <= c <= 'z' }

  function UpperChar(c: char): char {
    if IsLower(c) then (c as int - 'a' as int + 'A' as int) as char else c
  }

  /** `s.toUpperCase()` restricted to ASCII letters. */
  function Upper(s: string): (r: string)
    ensures |r| == |s|
    ensures forall i :: 0 <= i < |s| ==> r[i] == UpperChar(s[i])
  {
    if s == [] then [] else [UpperChar(s[0])] + Upper(s[1..])
  }

  /** Upper-casing leaves no lower-case ASCII letter behind. */
  lemma UpperHasNoLower(s: string)
    ensures forall i :: 0 <= i < |Upper(s)| ==> !IsLower(Upper(s)[i])
  {
  }

  /** Upper-casing twice is upper-casing once. */
  lemma UpperIdempotent(s: string)
    ensures Upper(Upper(s)) == Upper(s)
  {
  }

  // ------------------------------------------------------------ whitespace

  /** The ASCII members of ECMAScript's WhiteSpace and LineTerminator sets. */
  predicate IsWhitespace(c: char) {
    c == ' ' || c == '\t' || c == '\n' || c == '\r' || c == '\U{000B}' || c == '\U{000C}'
  }

  function TrimStart(s: string): (r: string)
    ensures |r| <= |s| && r == s[|s| - |r|..]
    ensures r == [] || !IsWhitespace(r[0])
    ensures forall i :: 0 <= i < |s| - |r| ==> IsWhitespace(s[i])
  {
    if s != [] && IsWhitespace(s[0]) then TrimStart(s[1..]) else s
  }

  function TrimEnd(s: string): (r: string)
    ensures |r| <= |s| && r == s[..|r|]
    ensures r == [] || !IsWhitespace(r[|r| - 1])
    ensures forall i :: |r| <= i < |s| ==> IsWhitespace(s[i])
  {
    if s != [] && IsWhitespace(s[|s| - 1]) then TrimEnd(s[..|s| - 1]) else s
  }

  /** `s.trim()`: the result neither starts nor ends with whitespace. */
  function Trim(s: string): (r: string)
    ensures r == [] || (!IsWhitespace(r[0]) && !IsWhitespace(r[|r| - 1]))
  {
    TrimEnd(TrimStart(s))
  }

  /**
   * The trimmed string is a contiguous piece of `s`, and everything cut off
   * on either side is whitespace.
   */
  lemma {:induction false} TrimPiece(s: string)
    ensures var r := Trim(s);
            var i := |s| - |TrimStart(s)|;
            && i + |r| <= |s|
            && (forall k :: 0 <= k < |r| ==> r[k] == s[i + k])
            && (forall k :: 0 <= k < i ==> IsWhitespace(s[k]))
            && (forall k :: i + |r| <= k < |s| ==> IsWhitespace(s[k]))
  {
    PieceOfSuffix(s, TrimStart(s), |s| - |TrimStart(s)|);
  }

  lemma {:induction false} PieceOfSuffix(s: string, t: string, i: nat)
    requires i <= |s| && t == s[i..]
    ensures var r := TrimEnd(t);
            && i + |r| <= |s|
            && (forall k :: 0 <= k < |r| ==> r[k] == s[i + k])
            && (forall k :: i + |r| <= k < |s| ==> IsWhitespace(s[k]))
  {
    var r := TrimEnd(t);
    forall k | 0 <= k < |r| ensures r[k] == s[i + k] {
      assert r[k] == t[k];
    }
    forall k | i + |r| <= k < |s| ensures IsWhitespace(s[k]) {
      assert s[k] == t[k - i];
    }
  }

  lemma WhitespaceUpper(c: char)
    ensures IsWhitespace(UpperChar(c)) == IsWhitespace(c)
  {
  }

  lemma {:induction false} TrimStartUpper(s: string)
    ensures TrimStart(Upper(s)) == Upper(TrimStart(s))
    decreases |s|
  {
    if s != [] {
      var u := Upper(s);
      assert u == [UpperChar(s[0])] + Upper(s[1..]);
      assert u[1..] == Upper(s[1..]);
      WhitespaceUpper(s[0]);
      if IsWhitespace(s[0]) {
        TrimStartUpper(s[1..]);
      }
    }
  }

  lemma UpperPrefix(s: string, n: nat)
    requires n <= |s|
    ensures Upper(s)[..n] == Upper(s[..n])
  {
  }

  lemma {:induction false} TrimEndUpper(s: string)
    ensures TrimEnd(Upper(s)) == Upper(TrimEnd(s))
    decreases |s|
  {
    if s != [] {
      var u := Upper(s);
      UpperPrefix(s, |s| - 1);
      WhitespaceUpper(s[|s| - 1]);
      if IsWhitespace(s[|s| - 1]) {
        TrimEndUpper(s[..|s| - 1]);
      }
    }
  }

  /** Upper-casing and trimming commute, so the order in which the two setters run is immaterial. */
  lemma UpperTrimCommute(s: string)
    ensures Trim(Upper(s)) == Upper(Trim(s))
  {
    TrimStartUpper(s);
    TrimEndUpper(TrimStart(s));
  }

  /** Whatever order the setters run in, the stored string has no lower-case letter. */
  lemma TrimUpperHasNoLower(s: string)
    ensures forall i :: 0 <= i < |Trim(Upper(s))| ==> !IsLower(Trim(Upper(s))[i])
  {
    UpperTrimCommute(s);
    UpperHasNoLower(Trim(s));
  }

  // ----------------------------------------------------------------- split

  /** `s.split(sep)` for a one-character separator: always at least one segment. */
  function Split(s: string, sep: char): (r: seq<string>)
    ensures |r| >= 1
    ensures forall k :: 0 <= k < |r| ==> sep !in r[k]
    decreases |s|
  {
    if s == [] then [[]]
    else if s[0] == sep then [[]] + Split(s[1..], sep)
    else var rest := Split(s[1..], sep); [[s[0]] + rest[0]] + rest[1..]
  }

  /** `segments.join(sep)`. */
  function Join(segments: seq<string>, sep: char): string {
    if |segments| <= 1 then (if segments == [] then [] else segments[0])
    else segments[0] + [sep] + Join(segments[1..], sep)
  }

  /** Splitting loses nothing: joining the segments back gives the original string. */
  lemma {:induction false} JoinSplit(s: string, sep: char)
    ensures Join(Split(s, sep), sep) == s
    decreases |s|
  {
    if s == [] {
    } else if s[0] == sep {
      JoinSplit(s[1..], sep);
      assert Split(s, sep) == [[]] + Split(s[1..], sep);
    } else {
      var rest := Split(s[1..], sep);
      JoinSplit(s[1..], sep);
      if |rest| == 1 {
      } else {
        assert [s[0]] + rest[0] + [sep] + Join(rest[1..], sep) == [s[0]] + (rest[0] + [sep] + Join(rest[1..], sep));
      }
    }
  }

  /** The segments of a string that is a separator-free word followed by separator-prefixed parts. */
  lemma {:induction false} SplitConcat(w: string, sep: char, tail: string)
    requires sep !in w
    ensures Split(w + [sep] + tail, sep) == [w] + Split(tail, sep)
    decreases |w|
  {
    if w == [] {
      assert w + [sep] + tail == [sep] + tail;
      assert ([sep] + tail)[1..] == tail;
    } else {
      assert (w + [sep] + tail)[1..] == w[1..] + [sep] + tail;
      SplitConcat(w[1..], sep, tail);
      assert [w[0]] + w[1..] == w;
    }
  }

  /** A string with no separator is a single segment. */
  lemma {:induction false} SplitNoSeparator(w: string, sep: char)
    requires sep !in w
    ensures Split(w, sep) == [w]
    decreases |w|
  {
    if w != [] {
      SplitNoSeparator(w[1..], sep);
      assert [w[0]] + w[1..] == w;
    }
  }

  // -------------------------------------------------------------- parseInt

  predicate IsDigit(c: char) { '0' <= c <= '9' }

  /** The longest prefix of decimal digits. */
  function DigitPrefix(s: string): (r: string)
    ensures |r| <= |s| && r == s[..|r|]
    ensures forall i :: 0 <= i < |r| ==> IsDigit(r[i])
    ensures |r| < |s| ==> !IsDigit(s[|r|])
  {
    if s != [] && IsDigit(s[0]) then [s[0]] + DigitPrefix(s[1..]) else []
  }

  function DigitValue(c: char): nat requires IsDigit(c) { c as int - '0' as int }

  /** The value of a string of decimal digits, most significant first. */
  function DigitsValue(ds: string): nat
    requires forall i :: 0 <= i < |ds| ==> IsDigit(ds[i])
  {
    if ds == [] then 0 else DigitsValue(ds[..|ds| - 1]) * 10 + DigitValue(ds[|ds| - 1])
  }

  /**
   * `parseInt(s, 10)`: skip leading whitespace, read an optional sign and the
   * digits that follow; `None` stands for NaN (no digit at all).
   */
  function ParseInt(s: string): (r: Option<int>)
    ensures r.None? <==> DigitPrefix(SignFree(TrimStart(s))) == []
  {
    var t := TrimStart(s);
    var ds := DigitPrefix(SignFree(t));
    var magnitude: int := if ds == [] then 0 else DigitsValue(ds);
    if ds == [] then None
    else if t[0] == '-' then Some(-magnitude)
    else Some(magnitude)
  }

  function SignFree(t: string): string {
    if t != [] && (t[0] == '-' || t[0] == '+') then t[1..] else t
  }

  function DigitChar(d: nat): (c: char)
    requires d < 10
    ensures IsDigit(c) && DigitValue(c) == d
  {
    ('0' as int + d) as char
  }

  /** The decimal rendering of a natural number, as `String(n)` gives it. */
  function ShowNat(n: nat): (r: string)
    ensures r != [] && forall i :: 0 <= i < |r| ==> IsDigit(r[i])
  {
    if n < 10 then [DigitChar(n)] else ShowNat(n / 10) + [DigitChar(n % 10)]
  }

  /** The decimal rendering of an integer, with a leading `-` when negative. */
  function ShowInt(k: int): string {
    if k < 0 then "-" + ShowNat(-k) else ShowNat(k)
  }

  lemma {:induction false} DigitsValueShowNat(n: nat)
    ensures DigitsValue(ShowNat(n)) == n
  {
    if n >= 10 {
      var s := ShowNat(n);
      assert s[..|s| - 1] == ShowNat(n / 10);
      DigitsValueShowNat(n / 10);
    }
  }

  lemma DigitPrefixAll(s: string)
    requires forall i :: 0 <= i < |s| ==> IsDigit(s[i])
    ensures DigitPrefix(s) == s
  {
  }

  /** `parseInt` reads back what `String` wrote. */
  lemma ParseShowInt(k: int)
    ensures ParseInt(ShowInt(k)) == Some(k)
  {
    var s := ShowInt(k);
    var digits := if k < 0 then ShowNat(-k) else ShowNat(k);
    assert TrimStart(s) == s;
    assert SignFree(s) == digits;
    DigitPrefixAll(digits);
    DigitsValueShowNat(if k < 0 then -k else k);
  }
}
