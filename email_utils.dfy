/**
 * Recognising Gmail thread references in free text (utils/emailUtils.ts).
 *
 * Each regular expression of the source is a hand-written matcher over `seq<char>`
 * that follows the JavaScript engine's backtracking order: leftmost start position,
 * greedy `\d+` and `{16,}`, lazy `.*?`, alternatives tried left to right.
 */
module EmailUtils {
  import opened Wrappers
  import opened Text

  datatype EmailUrlInfo = EmailUrlInfo(threadId: string, isValid: bool)

  const Invalid := EmailUrlInfo("", false)

  const MailboxPrefix := "https://mail.google.com/mail/u/"
  const MailHostPath := "mail.google.com/mail/"
  const MailUrlPrefix := "https://mail.google.com/mail/"

  /** `[/?#]` */
  predicate IsDelimiter(c: char) {
    c == '/' || c == '?' || c == '#'
  }

  /** `^https://mail\.google\.com/mail/u/\d+/?$`: a mailbox URL with no thread in it. */
  predicate IsBareMailboxUrl(s: string) {
    && StartsWith(s, MailboxPrefix)
    && var d := |MailboxPrefix|;
       var n := Run(s, d, IsDigit);
       && n > 0
       && (d + n == |s| || (d + n + 1 == |s| && s[d + n] == '/'))
  }

  // ---------------------------------------------------------------------------
  // pieces shared by the patterns

  /** `([a-zA-Z0-9_-]{16,})` with nothing required after it: the greedy run at `i`. */
  function TokenAt(s: string, i: nat): (r: Option<string>)
    ensures r.Some? ==> IsToken(r.value) && i + |r.value| <= |s|
    ensures r.Some? ==> i + |r.value| == |s| || !IsTokenChar(s[i + |r.value|])
  {
    if i > |s| then None
    else
      var n := Run(s, i, IsTokenChar);
      if n >= 16 then Some(s[i..i + n]) else None
  }

  /** `([a-zA-Z0-9_-]{16,})(?:[/?#]|$)`: backtracking to a shorter run never helps, since
      the character after a shorter run is a token character, so the capture is the
      maximal run and it must stop at a delimiter or at the end. */
  function TokenBeforeDelimiter(s: string, i: nat): (r: Option<string>)
    ensures r.Some? ==> IsToken(r.value) && i + |r.value| <= |s|
    ensures r.Some? ==> i + |r.value| == |s| || IsDelimiter(s[i + |r.value|])
  {
    if i > |s| then None
    else
      var n := Run(s, i, IsTokenChar);
      if n >= 16 && (i + n == |s| || IsDelimiter(s[i + n])) then Some(s[i..i + n]) else None
  }

  /** `(?:inbox|sent|all|search)` at `q`: the length of the word that matches, or 0.
      No two of the words can match at one position. */
  function FolderLength(s: string, q: nat): nat {
    if HasAt(s, q, "inbox") then 5
    else if HasAt(s, q, "sent") then 4
    else if HasAt(s, q, "all") then 3
    else if HasAt(s, q, "search") then 6
    else 0
  }

  /** A `/` at `k` followed by a delimited token. */
  predicate SlashBeforeToken(s: string, k: nat) {
    k < |s| && s[k] == '/' && TokenBeforeDelimiter(s, k + 1).Some?
  }

  /** The lazy `.*?/` of `mail\.google\.com/mail/.*?/(token)(?:[/?#]|$)` started at `q`:
      the first `/` at or after `q`, with no line terminator before it, after which a
      delimited token follows. */
  function LazySlash(s: string, q: nat): (r: Option<nat>)
    requires q <= |s|
    ensures r.Some? ==> q <= r.value < |s| && SlashBeforeToken(s, r.value)
    ensures r.Some? ==> forall k :: q <= k < r.value ==> !IsLineTerminator(s[k]) && !SlashBeforeToken(s, k)
    decreases |s| - q
  {
    if q == |s| then None
    else if SlashBeforeToken(s, q) then Some(q)
    else if IsLineTerminator(s[q]) then None
    else LazySlash(s, q + 1)
  }

  // ---------------------------------------------------------------------------
  // the five patterns of parseGmailUrl, each tried at one start position

  datatype UrlPattern =
    | HashFolder   // https://mail.google.com/mail/u/\d+/#(?:inbox|sent|all|search)/(token)
    | Folder       // https://mail.google.com/mail/u/\d+/(?:inbox|sent|all|search)/(token)
    | MailPath     // mail.google.com/mail/.*?/(token)(?:[/?#]|$)
    | Marker       // [#/](token)(?:[/?#]|$)
    | WholeToken   // ^(token)$

  const UrlPatterns: seq<UrlPattern> := [HashFolder, Folder, MailPath, Marker, WholeToken]

  /** The mailbox form, with `sep` ("/#" or "/") between the account number and the folder. */
  function MailboxFolderCapture(s: string, p: nat, sep: string): (r: Option<string>)
    ensures r.Some? ==> IsToken(r.value)
  {
    if !HasAt(s, p, MailboxPrefix) then None
    else
      var d := p + |MailboxPrefix|;
      var n := Run(s, d, IsDigit);
      if n == 0 || !HasAt(s, d + n, sep) then None
      else
        var f := d + n + |sep|;
        var w := FolderLength(s, f);
        if w == 0 || !HasAt(s, f + w, "/") then None else TokenAt(s, f + w + 1)
  }

  /** Group 1 of `pat` when the match starts at `p`. */
  function CaptureAt(pat: UrlPattern, s: string, p: nat): (r: Option<string>)
    ensures r.Some? ==> IsToken(r.value)
  {
    match pat
    case HashFolder => MailboxFolderCapture(s, p, "/#")
    case Folder => MailboxFolderCapture(s, p, "/")
    case MailPath =>
      if !HasAt(s, p, MailHostPath) then None
      else
        var j := LazySlash(s, p + |MailHostPath|);
        if j.None? then None else TokenBeforeDelimiter(s, j.value + 1)
    case Marker =>
      if p < |s| && (s[p] == '#' || s[p] == '/') then TokenBeforeDelimiter(s, p + 1) else None
    case WholeToken =>
      if p == 0 && IsToken(s) then Some(s) else None
  }

  /** The first index at or after `p` where `xs` holds a value: how a regular expression
      search picks the leftmost start position among those where the pattern matches. */
  function FirstSomeAt<T>(xs: seq<Option<T>>, p: nat): (r: Option<nat>)
    requires p <= |xs|
    ensures r.Some? ==> p <= r.value < |xs| && xs[r.value].Some?
    ensures forall q :: p <= q < |xs| && (r.None? || q < r.value) ==> xs[q].None?
    decreases |xs| - p
  {
    if p == |xs| then None
    else if xs[p].Some? then Some(p)
    else FirstSomeAt(xs, p + 1)
  }

  /** The index a search finds is the one position with a value and none before it. */
  lemma {:induction false} FirstSomeAtIsFirst<T>(xs: seq<Option<T>>, p: nat, q: nat)
    requires p <= q < |xs| && xs[q].Some?
    requires forall q' :: p <= q' < q ==> xs[q'].None?
    ensures FirstSomeAt(xs, p) == Some(q)
    decreases q - p
  {
    if p < q {
      FirstSomeAtIsFirst(xs, p + 1, q);
    }
  }

  /** The capture of `pat` at every start position `0..|s|`. */
  function PositionCaptures(pat: UrlPattern, s: string): (r: seq<Option<string>>)
    ensures |r| == |s| + 1
    ensures forall q :: 0 <= q <= |s| ==> r[q] == CaptureAt(pat, s, q)
  {
    seq(|s| + 1, q requires 0 <= q <= |s| => CaptureAt(pat, s, q))
  }

  /** `s.match(pat)?.[1]`: the capture at the leftmost start position where `pat` matches. */
  function Leftmost(pat: UrlPattern, s: string): (r: Option<string>)
    ensures r.Some? ==> IsToken(r.value)
    ensures r.None? <==> forall q :: 0 <= q <= |s| ==> CaptureAt(pat, s, q).None?
  {
    var caps := PositionCaptures(pat, s);
    match FirstSomeAt(caps, 0)
    case None => None
    case Some(q) => caps[q]
  }

  /** The match starts at the first position where the pattern can match. */
  lemma LeftmostIsFirst(pat: UrlPattern, s: string, q: nat)
    requires q <= |s| && CaptureAt(pat, s, q).Some?
    requires forall q' :: 0 <= q' < q ==> CaptureAt(pat, s, q').None?
    ensures Leftmost(pat, s) == CaptureAt(pat, s, q)
  {
    FirstSomeAtIsFirst(PositionCaptures(pat, s), 0, q);
  }

  /** Group 1 of each pattern of `UrlPatterns`, in order. */
  function Captures(s: string): (r: seq<Option<string>>)
    ensures |r| == |UrlPatterns|
    ensures forall k :: 0 <= k < |r| ==> r[k] == Leftmost(UrlPatterns[k], s)
  {
    seq(|UrlPatterns|, k requires 0 <= k < |UrlPatterns| => Leftmost(UrlPatterns[k], s))
  }

  predicate AllTokens(caps: seq<Option<string>>) {
    forall k :: 0 <= k < |caps| && caps[k].Some? ==> IsToken(caps[k].value)
  }

  /** The loop over the patterns, given each pattern's capture: the first pattern that
      matched, with its capture trimmed; a capture shorter than 16 after trimming moves
      on to the next pattern. */
  function TryPatterns(caps: seq<Option<string>>, k: nat): (r: Option<string>)
    requires k <= |caps| && AllTokens(caps)
    ensures r.Some? ==> IsToken(r.value)
    decreases |caps| - k
  {
    if k == |caps| then None
    else
      match caps[k]
      case Some(c) =>
        var t := Trim(c);
        if |t| < 16 then TryPatterns(caps, k + 1)
        else
          TrimOfTokenChars(c);
          Some(t)
      case None => TryPatterns(caps, k + 1)
  }

  /** The first pattern with a match decides, and its capture is returned unchanged: a
      capture holds token characters only, so trimming never shortens it. */
  lemma {:induction false} TryPatternsFirst(caps: seq<Option<string>>, k: nat, i: nat)
    requires k <= i < |caps| && AllTokens(caps)
    requires caps[i].Some?
    requires forall j :: k <= j < i ==> caps[j].None?
    ensures TryPatterns(caps, k) == caps[i]
    decreases i - k
  {
    if k < i {
      TryPatternsFirst(caps, k + 1, i);
    } else {
      TrimOfTokenChars(caps[i].value);
    }
  }

  /** The loop finds nothing exactly when no pattern matches. */
  lemma {:induction false} TryPatternsNone(caps: seq<Option<string>>, k: nat)
    requires k <= |caps| && AllTokens(caps)
    ensures TryPatterns(caps, k).None? <==> forall j :: k <= j < |caps| ==> caps[j].None?
    decreases |caps| - k
  {
    if k < |caps| {
      if caps[k].Some? {
        TryPatternsFirst(caps, k, k);
      } else {
        TryPatternsNone(caps, k + 1);
      }
    }
  }

  // ---------------------------------------------------------------------------
  // the last-segment fallback: cleanUrl.split(/[/?#]/).filter(Boolean)

  /** Length of the run of non-delimiters at the end of `s`. */
  function TrailingSegmentLength(s: string): (n: nat)
    ensures n <= |s|
    ensures forall k :: |s| - n <= k < |s| ==> !IsDelimiter(s[k])
    ensures n < |s| ==> IsDelimiter(s[|s| - n - 1])
  {
    if s == [] || IsDelimiter(s[|s| - 1]) then 0 else 1 + TrailingSegmentLength(s[..|s| - 1])
  }

  /** The non-empty pieces of `s` between delimiters, in order. */
  function Segments(s: string): (r: seq<string>)
    ensures forall k :: 0 <= k < |r| ==> r[k] != [] && forall c :: c in r[k] ==> !IsDelimiter(c)
  {
    if s == [] then []
    else if IsDelimiter(s[|s| - 1]) then Segments(s[..|s| - 1])
    else
      var n := TrailingSegmentLength(s);
      Segments(s[..|s| - n]) + [s[|s| - n..]]
  }

  /** `s` with every delimiter removed. */
  function WithoutDelimiters(s: string): string {
    if s == [] then []
    else WithoutDelimiters(s[..|s| - 1]) + (if IsDelimiter(s[|s| - 1]) then [] else [s[|s| - 1]])
  }

  lemma {:induction false} WithoutDelimitersAppend(a: string, b: string)
    ensures WithoutDelimiters(a + b) == WithoutDelimiters(a) + WithoutDelimiters(b)
    decreases |b|
  {
    if b != [] {
      assert (a + b)[..|a + b| - 1] == a + b[..|b| - 1];
      WithoutDelimitersAppend(a, b[..|b| - 1]);
    } else {
      assert a + b == a;
    }
  }

  lemma {:induction false} WithoutDelimitersOfPlain(s: string)
    requires forall k :: 0 <= k < |s| ==> !IsDelimiter(s[k])
    ensures WithoutDelimiters(s) == s
    decreases |s|
  {
    if s != [] {
      WithoutDelimitersOfPlain(s[..|s| - 1]);
    }
  }

  /** The segments hold every non-delimiter character of the input, in order, and nothing else. */
  lemma {:induction false} SegmentsCoverInput(s: string)
    ensures Concat(Segments(s)) == WithoutDelimiters(s)
    decreases |s|
  {
    if s == [] {
    } else if IsDelimiter(s[|s| - 1]) {
      var init := s[..|s| - 1];
      SegmentsCoverInput(init);
      assert Segments(s) == Segments(init);
      assert WithoutDelimiters(s) == WithoutDelimiters(init) + [];
      assert WithoutDelimiters(init) + [] == WithoutDelimiters(init);
    } else {
      var n := TrailingSegmentLength(s);
      var front, back := s[..|s| - n], s[|s| - n..];
      SegmentsCoverInput(front);
      assert Segments(s) == Segments(front) + [back];
      ConcatSnoc(Segments(front), back);
      assert s == front + back;
      WithoutDelimitersAppend(front, back);
      forall k | 0 <= k < |back| ensures !IsDelimiter(back[k]) {
        assert back[k] == s[|s| - n + k];
      }
      WithoutDelimitersOfPlain(back);
    }
  }

  // ---------------------------------------------------------------------------
  // parseGmailUrl

  /** `url.startsWith('@') ? url.slice(1) : url` */
  function CleanUrl(url: string): (r: string)
    ensures |url| > 0 && url[0] == '@' ==> url == ['@'] + r
    ensures (|url| == 0 || url[0] != '@') ==> r == url
  {
    if |url| > 0 && url[0] == '@' then url[1..] else url
  }

  /** parseGmailUrl: an empty input and every failure give an empty, invalid id; every
      valid id is a 16+ character token. */
  function ParseGmailUrl(url: string): (r: EmailUrlInfo)
    ensures url == [] ==> r == Invalid
    ensures !r.isValid ==> r.threadId == []
    ensures r.isValid ==> IsToken(r.threadId)
  {
    if url == [] then Invalid else ParseClean(CleanUrl(url))
  }

  /** parseGmailUrl after the leading '@' is dropped. */
  function ParseClean(clean: string): (r: EmailUrlInfo)
    ensures !r.isValid ==> r.threadId == []
    ensures r.isValid ==> IsToken(r.threadId)
  {
    if IsBareMailboxUrl(clean) then Invalid
    else
      match TryPatterns(Captures(clean), 0)
      case Some(id) => EmailUrlInfo(id, true)
      case None =>
        var segments := Segments(clean);
        if |segments| > 0 && IsToken(segments[|segments| - 1])
        then EmailUrlInfo(segments[|segments| - 1], true)
        else Invalid
  }

  /** One leading '@' is dropped before matching, and only one. */
  lemma ParseSkipsOneAt(s: string)
    requires s != [] && s[0] != '@'
    ensures ParseGmailUrl(['@'] + s) == ParseGmailUrl(s)
  {
    assert CleanUrl(['@'] + s) == s;
  }

  /** The mailbox URL without a thread, with or without a trailing '/', is rejected. */
  lemma BareMailboxRejected(account: string, slash: bool)
    requires account != [] && forall k :: 0 <= k < |account| ==> IsDigit(account[k])
    ensures ParseGmailUrl(MailboxPrefix + account + (if slash then "/" else "")) == Invalid
  {
    var tail := if slash then "/" else "";
    var s := MailboxPrefix + account + tail;
    var d := |MailboxPrefix|;
    assert s[..d] == MailboxPrefix;
    assert s[d..d + |account|] == account;
    if slash {
      assert s[d + |account|] == '/';
    }
    RunIsMaximal(s, d, d + |account|, IsDigit);
    assert IsBareMailboxUrl(s);
    assert CleanUrl(s) == s;
  }

  /** The patterns are tried in order and the first that matches decides the id; the
      last-segment fallback is not consulted then. */
  lemma FirstPatternWins(url: string, i: nat)
    requires url != [] && i < |UrlPatterns|
    requires !IsBareMailboxUrl(CleanUrl(url))
    requires Leftmost(UrlPatterns[i], CleanUrl(url)).Some?
    requires forall j :: 0 <= j < i ==> Leftmost(UrlPatterns[j], CleanUrl(url)).None?
    ensures ParseGmailUrl(url) == EmailUrlInfo(Leftmost(UrlPatterns[i], CleanUrl(url)).value, true)
  {
    var caps := Captures(CleanUrl(url));
    TryPatternsFirst(caps, 0, i);
  }

  /** When no pattern matches, the result is decided by the last segment alone. */
  lemma FallbackWhenNoPattern(url: string)
    requires url != []
    requires !IsBareMailboxUrl(CleanUrl(url))
    requires forall j :: 0 <= j < |UrlPatterns| ==> Leftmost(UrlPatterns[j], CleanUrl(url)).None?
    ensures var segments := Segments(CleanUrl(url));
      ParseGmailUrl(url).isValid <==> |segments| > 0 && IsToken(segments[|segments| - 1])
  {
    TryPatternsNone(Captures(CleanUrl(url)), 0);
  }

  // ---------------------------------------------------------------------------
  // extractEmailUrls

  datatype ReferencePattern =
    | UrlReference   // @?https://mail.google.com/mail/.*?/[a-zA-Z0-9_-]{16,}(?:[/?#]|$)  (global)
    | BareReference  // (?:^|\s)([a-zA-Z0-9_-]{16,})(?:\s|$)                             (global)

  /** `[a-zA-Z0-9_-]{16,}(?:\s|$)` at `i`: where the match ends, after the white space it consumes. */
  function TokenBeforeSpaceEnd(s: string, i: nat): (r: Option<nat>)
    ensures r.Some? ==> i + 16 <= r.value <= |s|
    ensures r.Some? ==> AllTokenChars(s[i..i + 16])
  {
    if i > |s| then None
    else
      var n := Run(s, i, IsTokenChar);
      if n < 16 then None
      else if i + n == |s| then Some(|s|)
      else if IsSpace(s[i + n]) then Some(i + n + 1)
      else None
  }

  /** `@?https://mail.google.com/mail/.*?/[a-zA-Z0-9_-]{16,}(?:[/?#]|$)` at `p`: where the
      match ends, after the delimiter it consumes. */
  function UrlMatchEnd(s: string, p: nat): (r: Option<nat>)
    ensures r.Some? ==> p < r.value <= |s|
  {
    var h := if p < |s| && s[p] == '@' then p + 1 else p;
    if !HasAt(s, h, MailUrlPrefix) then None
    else
      var j := LazySlash(s, h + |MailUrlPrefix|);
      if j.None? then None
      else
        var e := TokenEndAfterSlash(s, j.value);
        Some(if e < |s| then e + 1 else e)
  }

  /** Where the token after the slash at `k` ends. */
  function TokenEndAfterSlash(s: string, k: nat): (e: nat)
    requires SlashBeforeToken(s, k)
    ensures k + 16 < e <= |s|
  {
    k + 1 + |TokenBeforeDelimiter(s, k + 1).value|
  }

  /** `(?:^|\s)[a-zA-Z0-9_-]{16,}(?:\s|$)` at `p`: `^` is tried before `\s`. */
  function BareMatchEnd(s: string, p: nat): (r: Option<nat>)
    ensures r.Some? ==> p < r.value <= |s|
  {
    if p == 0 && TokenBeforeSpaceEnd(s, 0).Some? then TokenBeforeSpaceEnd(s, 0)
    else if p < |s| && IsSpace(s[p]) then TokenBeforeSpaceEnd(s, p + 1)
    else None
  }

  /** Where a match of `pat` that starts at `p` ends (the whole match, not a group). */
  function MatchEnd(pat: ReferencePattern, s: string, p: nat): (r: Option<nat>)
    ensures r.Some? ==> p < r.value <= |s|
  {
    match pat
    case UrlReference => UrlMatchEnd(s, p)
    case BareReference => BareMatchEnd(s, p)
  }

  /** Where the match of `pat` starting at each position `0..|s|` ends. */
  function MatchEnds(pat: ReferencePattern, s: string): (r: seq<Option<nat>>)
    ensures |r| == |s| + 1
    ensures forall q :: 0 <= q <= |s| ==> r[q] == MatchEnd(pat, s, q)
  {
    seq(|s| + 1, q requires 0 <= q <= |s| => MatchEnd(pat, s, q))
  }

  /** Every match ends after it starts and inside the input. */
  predicate EndsAdvance(ends: seq<Option<nat>>) {
    forall q :: 0 <= q < |ends| && ends[q].Some? ==> q < ends[q].value < |ends|
  }

  /** `s.match(pat)` with the `g` flag: every match, each search resuming where the
      previous match ended. */
  function AllMatches(pat: ReferencePattern, s: string, from: nat): (r: seq<string>)
    requires from <= |s|
    ensures forall k :: 0 <= k < |r| ==> r[k] != []
  {
    ScanMatches(s, MatchEnds(pat, s), from)
  }

  function ScanMatches(s: string, ends: seq<Option<nat>>, from: nat): (r: seq<string>)
    requires |ends| == |s| + 1 && EndsAdvance(ends) && from <= |s|
    ensures forall k :: 0 <= k < |r| ==> r[k] != []
    decreases |s| - from
  {
    match FirstSomeAt(ends, from)
    case None => []
    case Some(p) =>
      var e := ends[p].value;
      [s[p..e]] + ScanMatches(s, ends, e)
  }

  /** The trimmed matches that pass the `cleaned && cleaned.length >= 16` test. */
  function Cleaned(matches: seq<string>): (r: seq<string>)
    ensures forall k :: 0 <= k < |r| ==> |r[k]| >= 16 && Trim(r[k]) == r[k]
  {
    if matches == [] then []
    else
      var c := Trim(matches[|matches| - 1]);
      TrimIdempotent(matches[|matches| - 1]);
      Cleaned(matches[..|matches| - 1]) + (if c != [] && |c| >= 16 then [c] else [])
  }

  const ReferencePatterns: seq<ReferencePattern> := [UrlReference, BareReference]

  /** The cleaned matches of each list in `lists`, in order. */
  function CleanedAll(lists: seq<seq<string>>): seq<string> {
    if lists == [] then [] else CleanedAll(lists[..|lists| - 1]) + Cleaned(lists[|lists| - 1])
  }

  lemma CleanedAllPair(a: seq<string>, b: seq<string>)
    ensures CleanedAll([a, b]) == Cleaned(a) + Cleaned(b)
  {
    assert [a, b][..1] == [a];
    assert [a][..0] == [];
    assert CleanedAll([a]) == Cleaned(a);
  }

  /** Every string the two patterns offer, URL matches first. */
  function Candidates(text: string): (r: seq<string>)
    ensures forall k :: 0 <= k < |r| ==> |r[k]| >= 16 && Trim(r[k]) == r[k]
  {
    Cleaned(AllMatches(UrlReference, text, 0)) + Cleaned(AllMatches(BareReference, text, 0))
  }

  predicate Distinct(s: seq<string>) {
    forall i, j :: 0 <= i < j < |s| ==> s[i] != s[j]
  }

  /** The elements of `s` in first-occurrence order, as a `Set` iterates them. */
  function Dedup(s: seq<string>): (r: seq<string>)
    ensures Distinct(r)
    ensures forall x :: x in r <==> x in s
  {
    if s == [] then []
    else
      var d := Dedup(s[..|s| - 1]);
      var x := s[|s| - 1];
      if x in d then d else d + [x]
  }

  /** Position of the first occurrence of `x` in `s`. */
  function FirstIndex(s: seq<string>, x: string): (i: nat)
    requires x in s
    ensures i < |s| && s[i] == x
    ensures forall k :: 0 <= k < i ==> s[k] != x
  {
    if s[0] == x then 0 else 1 + FirstIndex(s[1..], x)
  }

  /** An occurrence with no earlier occurrence is the first one. */
  lemma {:induction false} FirstIndexUnique(s: seq<string>, x: string, i: nat)
    requires i < |s| && s[i] == x
    requires forall k :: 0 <= k < i ==> s[k] != x
    ensures FirstIndex(s, x) == i
  {
    if i > 0 {
      assert s[0] != x;
      assert s[1..][i - 1] == x;
      FirstIndexUnique(s[1..], x, i - 1);
    }
  }

  lemma FirstIndexOfPrefix(s: seq<string>, x: string, n: nat)
    requires n <= |s| && x in s[..n]
    ensures FirstIndex(s, x) == FirstIndex(s[..n], x)
  {
    var i' := FirstIndex(s[..n], x);
    assert s[i'] == s[..n][i'];
    FirstIndexUnique(s, x, i');
  }

  /** The deduplicated list keeps first-occurrence order. */
  lemma {:induction false} DedupOrder(s: seq<string>)
    ensures forall i, j :: 0 <= i < j < |Dedup(s)| ==>
      FirstIndex(s, Dedup(s)[i]) < FirstIndex(s, Dedup(s)[j])
    decreases |s|
  {
    if s != [] {
      var front := s[..|s| - 1];
      var d := Dedup(front);
      var x := s[|s| - 1];
      DedupOrder(front);
      forall y | y in d ensures FirstIndex(s, y) == FirstIndex(front, y) {
        assert s[..|s| - 1] == front;
        FirstIndexOfPrefix(s, y, |s| - 1);
      }
      if x !in d {
        assert x !in front;
        FirstIndexUnique(s, x, |s| - 1);
        forall i, j | 0 <= i < j < |Dedup(s)|
          ensures FirstIndex(s, Dedup(s)[i]) < FirstIndex(s, Dedup(s)[j])
        {
          assert Dedup(s) == d + [x];
          if j == |d| {
            assert Dedup(s)[i] == d[i] && d[i] in d;
          } else {
            assert Dedup(s)[i] == d[i] && Dedup(s)[j] == d[j];
          }
        }
      }
    }
  }

  /** extractEmailUrls: the distinct trimmed candidates of length at least 16, in the
      order a `Set` built over the URL matches and then the bare-id matches yields them. */
  method ExtractEmailUrls(text: string) returns (urls: seq<string>)
    ensures urls == Dedup(Candidates(text))
    ensures Distinct(urls)
    ensures forall u :: u in urls ==> |u| >= 16 && Trim(u) == u
    ensures forall u :: u in urls <==> u in Candidates(text)
  {
    ghost var lists := [AllMatches(UrlReference, text, 0), AllMatches(BareReference, text, 0)];
    urls := [];
    for k := 0 to |ReferencePatterns|
      invariant urls == Dedup(CleanedAll(lists[..k]))
    {
      var matches := AllMatches(ReferencePatterns[k], text, 0);
      assert matches == lists[k];
      assert lists[..k + 1][..k] == lists[..k];
      urls := AddCleaned(urls, CleanedAll(lists[..k]), matches);
    }
    assert lists[..|ReferencePatterns|] == lists;
    CleanedAllPair(lists[0], lists[1]);
  }

  /** The `forEach` over one pattern's matches: each trimmed match of length 16 or more
      is added to the set unless it is already there. */
  method AddCleaned(urls: seq<string>, ghost seen: seq<string>, matches: seq<string>) returns (out: seq<string>)
    requires urls == Dedup(seen)
    ensures out == Dedup(seen + Cleaned(matches))
  {
    out := urls;
    assert seen + Cleaned(matches[..0]) == seen;
    for j := 0 to |matches|
      invariant out == Dedup(seen + Cleaned(matches[..j]))
    {
      var cleaned := Trim(matches[j]);
      ghost var before := seen + Cleaned(matches[..j]);
      CleanedSnoc(matches, j);
      if cleaned != [] && |cleaned| >= 16 {
        assert seen + Cleaned(matches[..j + 1]) == before + [cleaned];
        DedupSnoc(before, cleaned);
        if cleaned !in out {
          out := out + [cleaned];
        }
      } else {
        assert seen + Cleaned(matches[..j + 1]) == before;
      }
    }
    assert matches[..|matches|] == matches;
  }

  lemma CleanedSnoc(m: seq<string>, j: nat)
    requires j < |m|
    ensures var c := Trim(m[j]);
      Cleaned(m[..j + 1]) == Cleaned(m[..j]) + (if c != [] && |c| >= 16 then [c] else [])
  {
    assert m[..j + 1][..j] == m[..j];
  }

  lemma DedupSnoc(s: seq<string>, x: string)
    ensures Dedup(s + [x]) == if x in Dedup(s) then Dedup(s) else Dedup(s) + [x]
  {
    assert (s + [x])[..|s|] == s;
  }

  /** After deduplication, an element of the first list comes before every element that
      only the second list holds. */
  lemma {:induction false} DedupKeepsFrontFirst(a: seq<string>, b: seq<string>, u: string, x: string)
    requires u in a && x in b && x !in a
    ensures exists i, j :: 0 <= i < j < |Dedup(a + b)| && Dedup(a + b)[i] == u && Dedup(a + b)[j] == x
  {
    var c := a + b;
    var d := Dedup(c);
    assert c[..|a|] == a;
    FirstIndexOfPrefix(c, u, |a|);
    assert FirstIndex(c, u) < |a|;
    forall k | 0 <= k < |a| ensures c[k] != x {
      assert c[k] == a[k];
    }
    assert FirstIndex(c, u) < FirstIndex(c, x);
    assert u in c && x in c;
    assert u in d && x in d;
    var i :| 0 <= i < |d| && d[i] == u;
    var j :| 0 <= j < |d| && d[j] == x;
    DedupOrder(c);
    assert FirstIndex(c, d[i]) < FirstIndex(c, d[j]);
    assert i < j;
    assert 0 <= i < j < |d| && d[i] == u && d[j] == x;
  }

  /** A candidate that the URL pattern offers comes before every candidate that only the
      bare-id pattern offers. */
  lemma UrlReferencesFirst(text: string, u: string, b: string)
    requires u in Cleaned(AllMatches(UrlReference, text, 0))
    requires b in Cleaned(AllMatches(BareReference, text, 0))
    requires b !in Cleaned(AllMatches(UrlReference, text, 0))
    ensures var d := Dedup(Candidates(text));
      exists i, j :: 0 <= i < j < |d| && d[i] == u && d[j] == b
  {
    DedupKeepsFrontFirst(Cleaned(AllMatches(UrlReference, text, 0)), Cleaned(AllMatches(BareReference, text, 0)), u, b);
  }

  // ---------------------------------------------------------------------------
  // isEmailRequest

  const EmailKeywords: seq<string> := ["email", "gmail", "mail.google.com", "draft", "reply", "respond"]

  /** `/[a-zA-Z0-9_-]{16,}/.test(s)`, computed in one pass with a running count. */
  function TokenRunFrom(s: string, i: nat, run: nat): bool
    requires i <= |s|
    decreases |s| - i
  {
    if run >= 16 then true
    else if i == |s| then false
    else TokenRunFrom(s, i + 1, if IsTokenChar(s[i]) then run + 1 else 0)
  }

  /** Some 16 consecutive characters of `s` are all token characters. */
  ghost predicate HasTokenWindow(s: string) {
    exists p :: TokenWindowAt(s, p)
  }

  /** The 16 characters from `p` are all token characters. */
  predicate TokenWindowAt(s: string, p: nat) {
    p + 16 <= |s| && AllTokenChars(s[p..p + 16])
  }

  /** The one-pass count finds a window exactly when there is one. `run` is the length of
      the token run that ends just before `i`. */
  lemma {:induction false} TokenRunFromIff(s: string, i: nat, run: nat)
    requires i <= |s| && run <= i && run <= 16
    requires AllTokenChars(s[i - run..i])
    requires run < 16 ==> i == run || !IsTokenChar(s[i - run - 1])
    requires forall p: nat :: p + 16 <= i ==> !TokenWindowAt(s, p)
    ensures TokenRunFrom(s, i, run) <==> HasTokenWindow(s)
    decreases |s| - i
  {
    if run >= 16 {
      assert TokenWindowAt(s, i - 16);
    } else if i == |s| {
      forall p: nat ensures !TokenWindowAt(s, p) {
      }
    } else {
      var run' := if IsTokenChar(s[i]) then run + 1 else 0;
      if IsTokenChar(s[i]) {
        assert s[i + 1 - run'..i + 1] == s[i - run..i] + [s[i]];
      }
      if run' == 16 {
        assert TokenWindowAt(s, i + 1 - 16);
        assert TokenRunFrom(s, i + 1, run');
        return;
      }
      forall p: nat | p + 16 <= i + 1 ensures !TokenWindowAt(s, p) {
        if p + 16 == i + 1 {
          var w := s[p..p + 16];
          if !IsTokenChar(s[i]) {
            assert w[15] == s[i];
          } else {
            // the run before `i` is shorter than 15, so the window reaches past its start
            assert w[14 - run] == s[i - run - 1];
          }
        }
      }
      TokenRunFromIff(s, i + 1, run');
    }
  }

  /** `lower.includes(w1) || lower.includes(w2) || …` over the keywords in order. */
  predicate IncludesAny(lower: string, words: seq<string>) {
    words != [] && (Includes(lower, words[0]) || IncludesAny(lower, words[1..]))
  }

  lemma {:induction false} IncludesAnyIff(lower: string, words: seq<string>)
    ensures IncludesAny(lower, words) <==> exists w, p :: w in words && HasAt(lower, p, w)
  {
    if words != [] {
      IncludesIff(lower, words[0]);
      IncludesAnyIff(lower, words[1..]);
      if exists w, p :: w in words && HasAt(lower, p, w) {
        var w, p :| w in words && HasAt(lower, p, w);
        if w != words[0] {
          assert w in words[1..];
        }
      }
    }
  }

  /** isEmailRequest: a keyword in the lower-cased text, or a thread-id-like run. */
  predicate IsEmailRequest(text: string) {
    IncludesAny(Lower(text), EmailKeywords) || TokenRunFrom(text, 0, 0)
  }

  /** isEmailRequest holds exactly when the lower-cased text contains one of the keywords
      or the text contains 16 consecutive token characters. */
  lemma IsEmailRequestIff(text: string)
    ensures IsEmailRequest(text) <==>
      (exists w, p :: w in EmailKeywords && HasAt(Lower(text), p, w)) || HasTokenWindow(text)
  {
    IncludesAnyIff(Lower(text), EmailKeywords);
    assert AllTokenChars(text[0..0]);
    TokenRunFromIff(text, 0, 0);
  }
}
