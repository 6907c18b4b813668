/**
 * String primitives with the meaning JavaScript gives them: `trim`, `split` on one
 * character, `includes`, `startsWith`, ASCII `toLowerCase`, and the character classes
 * the source's regular expressions use.  Strings are `seq<char>`.
 */
module Text {

  /** The characters JavaScript's `\s` and `String.prototype.trim` treat as white space
      (WhiteSpace and LineTerminator of ECMA-262). */
  predicate IsSpace(c: char) {
    || ('\t' <= c <= '\r')
    || c == ' ' || c == '\U{00A0}' || c == '\U{1680}'
    || ('\U{2000}' <= c <= '\U{200A}')
    || c == '\U{2028}' || c == '\U{2029}' || c == '\U{202F}' || c == '\U{205F}'
    || c == '\U{3000}' || c == '\U{FEFF}'
  }

  /** The characters a regular expression's `.` does not match. */
  predicate IsLineTerminator(c: char) {
    c == '\n' || c == '\r' || c == '\U{2028}' || c == '\U{2029}'
  }

  /** `[a-zA-Z0-9_-]`, the alphabet of Gmail thread ids. */
  predicate IsTokenChar(c: char) {
    ('a' <= c <= 'z') || ('A' <= c <= 'Z') || ('0' <= c <= '9') || c == '_' || c == '-'
  }

  /** `\d` without the `u` flag. */
  predicate IsDigit(c: char) {
    '0' <= c <= '9'
  }

  predicate AllTokenChars(s: string) {
    forall k :: 0 <= k < |s| ==> IsTokenChar(s[k])
  }

  /** A string matching `^[a-zA-Z0-9_-]{16,}$`. */
  predicate IsToken(s: string) {
    |s| >= 16 && AllTokenChars(s)
  }

  /** Length of the longest run of characters satisfying `p` that starts at `i`. */
  function Run(s: string, i: nat, p: char -> bool): (n: nat)
    requires i <= |s|
    ensures i + n <= |s|
    ensures forall k :: i <= k < i + n ==> p(s[k])
    ensures i + n == |s| || !p(s[i + n])
    decreases |s| - i
  {
    if i == |s| || !p(s[i]) then 0 else 1 + Run(s, i + 1, p)
  }

  /** The maximal run is the only run that ends at a character outside `p` or at the end. */
  lemma RunIsMaximal(s: string, i: nat, j: nat, p: char -> bool)
    requires i <= j <= |s|
    requires forall k :: i <= k < j ==> p(s[k])
    requires j == |s| || !p(s[j])
    ensures Run(s, i, p) == j - i
  {
  }

  /** `w` occurs in `s` at position `p`. */
  predicate HasAt(s: string, p: nat, w: string) {
    p + |w| <= |s| && s[p..p + |w|] == w
  }

  predicate StartsWith(s: string, w: string) {
    HasAt(s, 0, w)
  }

  // ---------------------------------------------------------------------------
  // trim

  /** Number of white-space characters at the end of `s`. */
  function TrailingSpaces(s: string): (n: nat)
    ensures n <= |s|
    ensures forall k :: |s| - n <= k < |s| ==> IsSpace(s[k])
    ensures n == |s| || !IsSpace(s[|s| - n - 1])
  {
    if s == [] || !IsSpace(s[|s| - 1]) then 0 else 1 + TrailingSpaces(s[..|s| - 1])
  }

  /** `String.prototype.trim`: `s` without the white space at both ends. */
  function Trim(s: string): (r: string)
    ensures |r| <= |s|
    ensures r == [] || (!IsSpace(r[0]) && !IsSpace(r[|r| - 1]))
  {
    var a := Run(s, 0, IsSpace);
    if a == |s| then [] else s[a..|s| - TrailingSpaces(s)]
  }

  /** What `trim` removes is white space, from both ends and nowhere else. */
  lemma {:induction false} TrimRemovesEnds(s: string)
    ensures exists a, b :: s == a + Trim(s) + b && AllSpace(a) && AllSpace(b)
  {
    var n := Run(s, 0, IsSpace);
    var m := if n == |s| then 0 else TrailingSpaces(s);
    var a, t, b := s[..n], Trim(s), s[|s| - m..];
    assert t == s[n..|s| - m];
    assert s == a + t + b by {
      assert s == s[..n] + s[n..|s| - m] + s[|s| - m..];
    }
    forall k | 0 <= k < |a| ensures IsSpace(a[k]) {
      assert a[k] == s[k];
    }
    forall k | 0 <= k < |b| ensures IsSpace(b[k]) {
      assert b[k] == s[|s| - m + k];
    }
    assert AllSpace(a) && AllSpace(b);
  }

  predicate AllSpace(s: string) {
    forall k :: 0 <= k < |s| ==> IsSpace(s[k])
  }

  /** A string with no white space at its ends is its own trim. */
  lemma TrimOfUnpadded(s: string)
    requires s == [] || (!IsSpace(s[0]) && !IsSpace(s[|s| - 1]))
    ensures Trim(s) == s
  {
    if s != [] {
      RunIsMaximal(s, 0, 0, IsSpace);
    }
  }

  /** Trimming twice is trimming once. */
  lemma TrimIdempotent(s: string)
    ensures Trim(Trim(s)) == Trim(s)
  {
    TrimOfUnpadded(Trim(s));
  }

  /** A thread id has nothing for `trim` to remove. */
  lemma TrimOfTokenChars(s: string)
    requires AllTokenChars(s)
    ensures Trim(s) == s
  {
    if s != [] {
      assert IsTokenChar(s[0]) && IsTokenChar(s[|s| - 1]);
    }
    TrimOfUnpadded(s);
  }

  /** `body.trim() || '(no content)'`. */
  function BodyOrNoContent(text: string): (r: string)
    ensures r != [] && Trim(r) == r
    ensures Trim(text) != [] ==> r == Trim(text)
  {
    var t := Trim(text);
    if t != [] then
      TrimIdempotent(text);
      t
    else
      TrimOfUnpadded("(no content)");
      "(no content)"
  }

  /** `!s.trim()`: empty or white space only. */
  predicate IsBlank(s: string) {
    Trim(s) == []
  }

  /** `String(c).repeat(n)`. */
  function Repeat(c: char, n: nat): (r: string)
    ensures |r| == n
    ensures forall k :: 0 <= k < n ==> r[k] == c
  {
    if n == 0 then [] else Repeat(c, n - 1) + [c]
  }

  // ---------------------------------------------------------------------------
  // includes

  /** `s.includes(w)`, computed by scanning `s`. */
  predicate Includes(s: string, w: string)
    decreases |s|
  {
    StartsWith(s, w) || (|s| > 0 && Includes(s[1..], w))
  }

  /** `Includes` holds exactly when `w` occurs somewhere in `s`. */
  lemma {:induction false} IncludesIff(s: string, w: string)
    ensures Includes(s, w) <==> exists p :: 0 <= p && HasAt(s, p, w)
    decreases |s|
  {
    if StartsWith(s, w) {
      assert HasAt(s, 0, w);
    } else if |s| == 0 {
      forall p | 0 <= p ensures !HasAt(s, p, w) {
      }
    } else {
      IncludesIff(s[1..], w);
      if Includes(s[1..], w) {
        var p :| 0 <= p && HasAt(s[1..], p, w);
        assert s[p + 1..p + 1 + |w|] == s[1..][p..p + |w|];
        assert HasAt(s, p + 1, w);
      } else {
        forall p | 0 <= p && HasAt(s, p, w) ensures false {
          assert p != 0;
          assert s[1..][p - 1..p - 1 + |w|] == s[p..p + |w|];
          assert HasAt(s[1..], p - 1, w);
        }
      }
    }
  }

  // ---------------------------------------------------------------------------
  // toLowerCase

  function LowerChar(c: char): char {
    if 'A' <= c <= 'Z' then (c as int + 32) as char else c
  }

  /** `toLowerCase` restricted to ASCII letters. */
  function Lower(s: string): (r: string)
    ensures |r| == |s|
    ensures forall k :: 0 <= k < |s| ==> r[k] == LowerChar(s[k])
  {
    seq(|s|, k requires 0 <= k < |s| => LowerChar(s[k]))
  }

  // ---------------------------------------------------------------------------
  // split on one character, and the join it inverts

  /** `s.split(sep)` for a one-character separator: always at least one piece. */
  function Split(s: string, sep: char): (r: seq<string>)
    ensures |r| >= 1
    ensures forall k :: 0 <= k < |r| ==> sep !in r[k]
  {
    if s == [] then [[]]
    else
      var rest := Split(s[1..], sep);
      if s[0] == sep then [[]] + rest
      else [[s[0]] + rest[0]] + rest[1..]
  }

  function Join(pieces: seq<string>, sep: char): string
    requires |pieces| >= 1
  {
    if |pieces| == 1 then pieces[0] else pieces[0] + [sep] + Join(pieces[1..], sep)
  }

  /** Splitting loses nothing: the pieces joined with the separator give back the input. */
  lemma {:induction false} SplitJoin(s: string, sep: char)
    ensures Join(Split(s, sep), sep) == s
  {
    if s != [] {
      var rest := Split(s[1..], sep);
      SplitJoin(s[1..], sep);
      if s[0] == sep {
        assert Split(s, sep) == [[]] + rest;
        assert ([[]] + rest)[1..] == rest;
      } else {
        var r := Split(s, sep);
        assert r == [[s[0]] + rest[0]] + rest[1..];
        if |rest| == 1 {
          assert Join(r, sep) == [s[0]] + rest[0];
        } else {
          assert r[1..] == rest[1..];
          assert Join(rest, sep) == rest[0] + [sep] + Join(rest[1..], sep);
        }
      }
    }
  }

  /** Concatenation of a list of strings. */
  function Concat(ss: seq<string>): string {
    if ss == [] then [] else Concat(ss[..|ss| - 1]) + ss[|ss| - 1]
  }

  lemma ConcatSnoc(ss: seq<string>, s: string)
    ensures Concat(ss + [s]) == Concat(ss) + s
  {
    assert (ss + [s])[..|ss|] == ss;
  }

  lemma {:induction false} ConcatAppend(a: seq<string>, b: seq<string>)
    ensures Concat(a + b) == Concat(a) + Concat(b)
    decreases |b|
  {
    if b == [] {
      assert a + b == a;
    } else {
      assert (a + b)[..|a + b| - 1] == a + b[..|b| - 1];
      ConcatAppend(a, b[..|b| - 1]);
    }
  }

  // ---------------------------------------------------------------------------
  // decimal rendering of a counter (template literal `${n}`)

  function DigitChar(d: nat): char
    requires d < 10
  {
    ('0' as int + d) as char
  }

  function NatToString(n: nat): (r: string)
    ensures |r| >= 1
    ensures forall k :: 0 <= k < |r| ==> IsDigit(r[k])
    ensures n > 0 ==> r[0] != '0'
  {
    if n < 10 then [DigitChar(n)] else NatToString(n / 10) + [DigitChar(n % 10)]
  }

  function DigitsValue(s: string): nat
    requires forall k :: 0 <= k < |s| ==> IsDigit(s[k])
  {
    if s == [] then 0
    else
      assert IsDigit(s[|s| - 1]);
      10 * DigitsValue(s[..|s| - 1]) + (s[|s| - 1] as int - '0' as int)
  }

  /** The rendered counter reads back as the same number. */
  lemma {:induction false} NatToStringValue(n: nat)
    ensures DigitsValue(NatToString(n)) == n
  {
    if n >= 10 {
      NatToStringValue(n / 10);
      var r := NatToString(n);
      assert r[..|r| - 1] == NatToString(n / 10);
    }
  }
}
