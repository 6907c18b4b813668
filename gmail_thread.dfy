/**
 * The `GET /api/google/gmail/thread` handler: request validation, the
 * case-insensitive header lookup, the base64url normalisation and padding done
 * before decoding a body, the depth-first walk of the MIME part tree, the shaping
 * of each message, and the fallback from a thread id to a message id.
 *
 * The session lookup, the environment, the Gmail API and the clock are inputs; the
 * byte-level base64 decode and UTF-8 conversion is the function `decode`.
 */
module GmailThread {
  import opened Wrappers
  import opened Text

  // ---------------------------------------------------------------------------
  // Data as the Gmail API delivers it

  /** An entry of `payload.headers`; `NullHeader` is a `null` entry, `value == ""`
      stands for an empty or missing value (both are falsy). */
  datatype Header = NullHeader | Header(name: Option<string>, value: string)

  /** A MIME part.  `Null` is a `null`/`undefined` part; `data == ""` stands for a
      missing `body`, a missing `body.data` or an empty one (all falsy); a missing
      `parts` behaves as an empty list. */
  datatype Part = Null | Part(headers: seq<Header>, data: string, parts: seq<Part>)

  datatype Message = Message(id: Option<string>, threadId: Option<string>, payload: Part)

  /** One entry of the `messages` array the handler returns. */
  datatype ThreadMessage = ThreadMessage(
    id: Option<string>, threadId: Option<string>,
    subject: string, from: string, date: string, body: string)

  // ---------------------------------------------------------------------------
  // Header lookup: `headers.find(h => h.name?.toLowerCase() === key)?.value`

  datatype Lookup = Found(value: string) | Missing | Throws

  /** `h` is a header whose name, lower-cased, is `key`. */
  predicate NameIs(h: Header, key: string) {
    h.Header? && h.name.Some? && Lower(h.name.value) == key
  }

  /** `find` stops at the first match; a `null` entry met before it throws. */
  function FindHeader(hs: seq<Header>, key: string): Lookup {
    if hs == [] then Missing
    else if hs[0].NullHeader? then Throws
    else if NameIs(hs[0], key) then Found(hs[0].value)
    else FindHeader(hs[1..], key)
  }

  /** The first header whose name matches decides, whatever follows it. */
  lemma {:induction false} FindHeaderFirstMatch(hs: seq<Header>, key: string, i: nat)
    requires i < |hs| && NameIs(hs[i], key)
    requires forall j :: 0 <= j < i ==> hs[j].Header? && !NameIs(hs[j], key)
    ensures FindHeader(hs, key) == Found(hs[i].value)
  {
    if i > 0 {
      FindHeaderFirstMatch(hs[1..], key, i - 1);
    }
  }

  /** With no `null` entry and no matching name, the lookup misses. */
  lemma {:induction false} FindHeaderNoMatch(hs: seq<Header>, key: string)
    requires forall j :: 0 <= j < |hs| ==> hs[j].Header? && !NameIs(hs[j], key)
    ensures FindHeader(hs, key) == Missing
  {
    if hs != [] {
      FindHeaderNoMatch(hs[1..], key);
    }
  }

  /** A hit is the first entry that is `null` or matches: nothing before it does. */
  lemma {:induction false} FindHeaderSound(hs: seq<Header>, key: string)
    ensures FindHeader(hs, key).Found? ==>
      exists i :: 0 <= i < |hs| && NameIs(hs[i], key) && hs[i].value == FindHeader(hs, key).value
        && forall j :: 0 <= j < i ==> hs[j].Header? && !NameIs(hs[j], key)
  {
    if hs != [] && hs[0].Header? && !NameIs(hs[0], key) {
      FindHeaderSound(hs[1..], key);
      if FindHeader(hs[1..], key).Found? {
        var i :| 0 <= i < |hs[1..]| && NameIs(hs[1..][i], key) && hs[1..][i].value == FindHeader(hs[1..], key).value
          && forall j :: 0 <= j < i ==> hs[1..][j].Header? && !NameIs(hs[1..][j], key);
        assert NameIs(hs[i + 1], key);
        forall j | 0 <= j < i + 1 ensures hs[j].Header? && !NameIs(hs[j], key) {
          if j > 0 { assert hs[j] == hs[1..][j - 1]; }
        }
      }
    } else if hs != [] && NameIs(hs[0], key) {
      assert NameIs(hs[0], key);
    }
  }

  /** `lookup?.value || fallback`: a missing or empty value gives the fallback. */
  function ValueOr(l: Lookup, fallback: string): string
    requires !l.Throws?
  {
    if l.Found? && l.value != "" then l.value else fallback
  }

  // ---------------------------------------------------------------------------
  // decodeBody: base64url (RFC 4648 section 5) to base64 (section 4), then pad

  /** The alphabet of RFC 4648 section 5 (it coincides with the thread-id alphabet). */
  predicate IsBase64UrlChar(c: char) {
    IsTokenChar(c)
  }

  /** The alphabet of RFC 4648 section 4, without the pad character. */
  predicate IsBase64Char(c: char) {
    ('a' <= c <= 'z') || ('A' <= c <= 'Z') || ('0' <= c <= '9') || c == '+' || c == '/'
  }

  function NormalizeChar(c: char): char {
    if c == '-' then '+' else if c == '_' then '/' else c
  }

  /** `data.replace(/-/g, '+').replace(/_/g, '/')`. */
  function Normalize(s: string): (r: string)
    ensures |r| == |s|
    ensures '-' !in r && '_' !in r
    ensures forall k :: 0 <= k < |s| && s[k] != '-' && s[k] != '_' ==> r[k] == s[k]
  {
    seq(|s|, k requires 0 <= k < |s| => NormalizeChar(s[k]))
  }

  /** Section 5 text normalises to section 4 text. */
  lemma NormalizeAlphabet(s: string)
    requires forall k :: 0 <= k < |s| ==> IsBase64UrlChar(s[k])
    ensures forall k :: 0 <= k < |s| ==> IsBase64Char(Normalize(s)[k])
  {
  }

  function UrlSafeChar(c: char): char {
    if c == '+' then '-' else if c == '/' then '_' else c
  }

  /** The section 4 to section 5 mapping, the inverse of `Normalize`. */
  function UrlSafe(s: string): (r: string)
    ensures |r| == |s|
  {
    seq(|s|, k requires 0 <= k < |s| => UrlSafeChar(s[k]))
  }

  /** On section 5 text, normalising loses nothing. */
  lemma UrlSafeNormalize(s: string)
    requires forall k :: 0 <= k < |s| ==> IsBase64UrlChar(s[k])
    ensures UrlSafe(Normalize(s)) == s
  {
    var r := UrlSafe(Normalize(s));
    forall k | 0 <= k < |s| ensures r[k] == s[k] {
      assert IsTokenChar(s[k]);
    }
  }

  /** `pad ? s + '='.repeat(4 - pad) : s` with `pad = s.length % 4`. */
  function Pad(s: string): (r: string)
    ensures |r| % 4 == 0
    ensures |s| <= |r| < |s| + 4
    ensures r[..|s|] == s
    ensures forall k :: |s| <= k < |r| ==> r[k] == '='
  {
    var pad := |s| % 4;
    if pad != 0 then s + Repeat('=', 4 - pad) else s
  }

  /** The padded length is the least multiple of 4 that is at least the input length. */
  lemma PadIsLeast(s: string, m: nat)
    requires m % 4 == 0 && |s| <= m
    ensures |Pad(s)| <= m
  {
  }

  /** Text whose length is already a multiple of 4 is not padded. */
  lemma PadAligned(s: string)
    requires |s| % 4 == 0
    ensures Pad(s) == s
  {
  }

  /** What `Buffer.from(padded, 'base64')` receives from section 5 text: section 4
      characters followed by fewer than four '=', in a length divisible by 4. */
  lemma {:induction false} PaddedIsBase64(s: string)
    requires forall k :: 0 <= k < |s| ==> IsBase64UrlChar(s[k])
    ensures var p := Pad(Normalize(s));
      |p| % 4 == 0 && |p| - |s| < 4
      && (forall k :: 0 <= k < |s| ==> IsBase64Char(p[k]))
      && (forall k :: |s| <= k < |p| ==> p[k] == '=')
  {
    NormalizeAlphabet(s);
    var p := Pad(Normalize(s));
    forall k | 0 <= k < |s| ensures IsBase64Char(p[k]) {
      assert p[k] == p[..|s|][k] == Normalize(s)[k];
    }
  }

  /** `decodeBody(data)`; `decode` is the byte decode and UTF-8 conversion. */
  function DecodeBody(data: string, decode: string -> string): string {
    decode(Pad(Normalize(data)))
  }

  // ---------------------------------------------------------------------------
  // processPart: the depth-first walk that appends to `body`

  /** What `processPart(part)` appends: the decoded data of a part that has it (its
      children are not visited), else its children's text in order.  A `null` part
      throws inside the `try` and appends nothing. */
  function PartText(p: Part, decode: string -> string): string
    decreases p
  {
    match p
    case Null => ""
    case Part(_, data, parts) =>
      if data != "" then DecodeBody(data, decode) else PartsText(parts, decode)
  }

  function PartsText(ps: seq<Part>, decode: string -> string): string
    decreases ps
  {
    if ps == [] then "" else PartsText(ps[..|ps| - 1], decode) + PartText(ps[|ps| - 1], decode)
  }

  /** `processPart(part)` run against the captured accumulator `body`. */
  method ProcessPart(p: Part, body: string, decode: string -> string) returns (out: string)
    ensures out == body + PartText(p, decode)
    decreases p
  {
    out := body;
    match p
    case Null =>
    case Part(_, data, parts) =>
      if data != "" {
        out := out + DecodeBody(data, decode);
      } else {
        for i := 0 to |parts|
          invariant out == body + PartsText(parts[..i], decode)
        {
          assert parts[..i + 1][..i] == parts[..i];
          out := ProcessPart(parts[i], out, decode);
        }
        assert parts[..|parts|] == parts;
      }
  }

  /** The data strings the walk decodes, in document order: a part with data is a
      leaf, whatever children it has. */
  function Leaves(p: Part): (r: seq<string>)
    ensures forall k :: 0 <= k < |r| ==> r[k] != ""
    decreases p
  {
    match p
    case Null => []
    case Part(_, data, parts) => if data != "" then [data] else LeavesOf(parts)
  }

  function LeavesOf(ps: seq<Part>): (r: seq<string>)
    ensures forall k :: 0 <= k < |r| ==> r[k] != ""
    decreases ps
  {
    if ps == [] then [] else LeavesOf(ps[..|ps| - 1]) + Leaves(ps[|ps| - 1])
  }

  function DecodeAll(ds: seq<string>, decode: string -> string): (r: seq<string>)
    ensures |r| == |ds|
    ensures forall k :: 0 <= k < |ds| ==> r[k] == DecodeBody(ds[k], decode)
  {
    seq(|ds|, k requires 0 <= k < |ds| => DecodeBody(ds[k], decode))
  }

  /** The body is the concatenation of the decoded leaves in document order. */
  lemma {:induction false} PartTextIsLeaves(p: Part, decode: string -> string)
    ensures PartText(p, decode) == Concat(DecodeAll(Leaves(p), decode))
    decreases p, 1
  {
    match p
    case Null =>
    case Part(_, data, parts) =>
      if data != "" {
        assert DecodeAll([data], decode) == [] + [DecodeBody(data, decode)];
        assert Concat([] + [DecodeBody(data, decode)]) == Concat([]) + DecodeBody(data, decode);
      } else {
        PartsTextIsLeaves(parts, decode);
      }
  }

  lemma {:induction false} PartsTextIsLeaves(ps: seq<Part>, decode: string -> string)
    ensures PartsText(ps, decode) == Concat(DecodeAll(LeavesOf(ps), decode))
    decreases ps, 0
  {
    if ps != [] {
      var init, last := ps[..|ps| - 1], ps[|ps| - 1];
      assert PartsText(ps, decode) == PartsText(init, decode) + PartText(last, decode);
      assert LeavesOf(ps) == LeavesOf(init) + Leaves(last);
      PartsTextIsLeaves(init, decode);
      PartTextIsLeaves(last, decode);
      DecodeAllAppend(LeavesOf(init), Leaves(last), decode);
      ConcatAppend(DecodeAll(LeavesOf(init), decode), DecodeAll(Leaves(last), decode));
    }
  }

  lemma DecodeAllAppend(a: seq<string>, b: seq<string>, decode: string -> string)
    ensures DecodeAll(a + b, decode) == DecodeAll(a, decode) + DecodeAll(b, decode)
  {
  }

  // ---------------------------------------------------------------------------
  // Shaping one message

  /** `x || fallback` on an optional string. */
  function OrDefault(o: Option<string>, fallback: string): string {
    if o.Some? && o.value != "" then o.value else fallback
  }

  function HeadersOf(m: Message): seq<Header> {
    if m.payload.Null? then [] else m.payload.headers
  }

  /** The header lookups are the only step that can throw for a message. */
  predicate HeadersThrow(m: Message) {
    var hs := HeadersOf(m);
    FindHeader(hs, "subject").Throws? || FindHeader(hs, "from").Throws? || FindHeader(hs, "date").Throws?
  }

  /** The entry produced when processing a message throws; `now` is the ISO time. */
  function Placeholder(m: Message, requested: string, now: string): (r: ThreadMessage)
    ensures r.threadId == Some(OrDefault(m.threadId, requested))
    ensures r.id == Some(OrDefault(m.id, "unknown"))
  {
    ThreadMessage(Some(OrDefault(m.id, "unknown")), Some(OrDefault(m.threadId, requested)),
      "(error processing message)", "(unknown)", now, "Error processing this message.")
  }

  /** The per-message callback of the `map` (its `try` and its `catch`). */
  function ShapeMessage(m: Message, requested: string, now: string, decode: string -> string): (r: ThreadMessage)
    ensures r.body != [] && Trim(r.body) == r.body
  {
    var hs := HeadersOf(m);
    if HeadersThrow(m) then
      TrimOfUnpadded("Error processing this message.");
      Placeholder(m, requested, now)
    else
      ThreadMessage(m.id, m.threadId,
        ValueOr(FindHeader(hs, "subject"), "(no subject)"),
        ValueOr(FindHeader(hs, "from"), ""),
        ValueOr(FindHeader(hs, "date"), ""),
        BodyOrNoContent(PartText(m.payload, decode)))
  }

  /** A message whose headers are well formed keeps its ids, takes Subject, From and
      Date from the first matching header (or the defaults), and its body from the
      part walk. */
  lemma ShapeWellFormed(m: Message, requested: string, now: string, decode: string -> string)
    requires forall j :: 0 <= j < |HeadersOf(m)| ==> HeadersOf(m)[j].Header?
    ensures var r := ShapeMessage(m, requested, now, decode);
      && r.id == m.id && r.threadId == m.threadId
      && r.subject != "" && r.body != []
      && (FindHeader(HeadersOf(m), "subject").Missing? ==> r.subject == "(no subject)")
      && (FindHeader(HeadersOf(m), "subject").Found? && FindHeader(HeadersOf(m), "subject").value != "" ==>
            r.subject == FindHeader(HeadersOf(m), "subject").value)
      && (FindHeader(HeadersOf(m), "subject").Found? && FindHeader(HeadersOf(m), "subject").value == "" ==>
            r.subject == "(no subject)")
      && (FindHeader(HeadersOf(m), "from").Found? ==> r.from == FindHeader(HeadersOf(m), "from").value)
      && (FindHeader(HeadersOf(m), "from").Missing? ==> r.from == "")
      && (FindHeader(HeadersOf(m), "date").Found? ==> r.date == FindHeader(HeadersOf(m), "date").value)
      && (FindHeader(HeadersOf(m), "date").Missing? ==> r.date == "")
      && (Trim(PartText(m.payload, decode)) != [] ==> r.body == Trim(PartText(m.payload, decode)))
  {
    NoNullNeverThrows(HeadersOf(m), "subject");
    NoNullNeverThrows(HeadersOf(m), "from");
    NoNullNeverThrows(HeadersOf(m), "date");
  }

  lemma {:induction false} NoNullNeverThrows(hs: seq<Header>, key: string)
    requires forall j :: 0 <= j < |hs| ==> hs[j].Header?
    ensures !FindHeader(hs, key).Throws?
  {
    if hs != [] {
      NoNullNeverThrows(hs[1..], key);
    }
  }

  /** `messages.map(...)`: one entry per fetched message, in the same order. */
  function ShapeAll(ms: seq<Message>, requested: string, now: string, decode: string -> string): (r: seq<ThreadMessage>)
    ensures |r| == |ms|
    ensures forall i :: 0 <= i < |ms| ==> r[i] == ShapeMessage(ms[i], requested, now, decode)
  {
    seq(|ms|, i requires 0 <= i < |ms| => ShapeMessage(ms[i], requested, now, decode))
  }

  // ---------------------------------------------------------------------------
  // The handler

  /** `req.query.threadId`: absent, one value, or a repeated parameter (an array). */
  datatype QueryValue = Absent | One(s: string) | Many(values: seq<string>)

  datatype Request = Request(httpMethod: string, threadId: QueryValue)

  /** `GOOGLE_CLIENT_ID` and `GOOGLE_CLIENT_SECRET`; `""` stands for unset. */
  datatype Env = Env(clientId: string, clientSecret: string)

  /** An error thrown by a call; `code` is its optional `code` property. */
  datatype ApiError = ApiError(message: string, code: Option<int>)

  /** The Gmail API as the handler sees it.  `threads(id)` is `threads.get`, whose
      `data.messages` may be missing (`None`); `messagesGet(id)` is `messages.get`,
      yielding `data.threadId` (`""` when missing). */
  datatype Gmail = Gmail(
    list: Option<ApiError>,
    threads: string -> Result<Option<seq<Message>>, ApiError>,
    messagesGet: string -> Result<string, ApiError>)

  datatype Body =
    | ErrorBody(error: string, details: Option<string>, code: Option<int>)
    | Messages(messages: seq<ThreadMessage>)

  datatype Response = Response(status: int, body: Body)

  predicate ValidThreadId(q: QueryValue) {
    q.One? && q.s != ""
  }

  /** `error.code || 500`. */
  function CodeOr500(code: Option<int>): (c: int)
    ensures c != 0
    ensures code.Some? && code.value != 0 ==> c == code.value
  {
    if code.Some? && code.value != 0 then code.value else 500
  }

  /** The inner `catch`: 500 with the error's message and a code defaulting to 500. */
  function Failed(e: ApiError): Response {
    Response(500, ErrorBody("Failed to fetch email thread", Some(e.message), Some(CodeOr500(e.code))))
  }

  /** The thread fetch after validation, with its fallback through `messages.get`. */
  function FetchThread(id: string, api: Gmail, now: string, decode: string -> string): (r: Response)
    ensures r.status == 200 || r.status == 500
    ensures r.status == 500 ==> r.body.ErrorBody? && r.body.code.Some? && r.body.code.value != 0
  {
    if api.list.Some? then Failed(api.list.value)
    else match api.threads(id)
      case Success(Some(ms)) => Response(200, Messages(ShapeAll(ms, id, now, decode)))
      case _ =>
        match api.messagesGet(id)
        case Failure(e) => Failed(e)
        case Success(t) =>
          if t == "" then Failed(ApiError("No thread ID found in message", None))
          else match api.threads(t)
            case Failure(e) => Failed(e)
            case Success(None) => Failed(ApiError("Thread has no messages", None))
            case Success(Some(ms)) => Response(200, Messages(ShapeAll(ms, id, now, decode)))
  }

  /** The whole handler.  `session` is the outcome of `getSession`: the access token
      (`""` when there is no session or no token) or the error it threw. */
  function Handle(req: Request, session: Result<string, ApiError>, env: Env, api: Gmail,
                  now: string, decode: string -> string): (r: Response)
    ensures req.httpMethod != "GET" ==> r.status == 405
    ensures req.httpMethod == "GET" && session == Success("") ==> r.status == 401
    ensures req.httpMethod == "GET" && session.Success? && session.value != "" && !ValidThreadId(req.threadId)
      ==> r.status == 400
    ensures req.httpMethod == "GET" && session.Success? && session.value != "" && ValidThreadId(req.threadId)
      && (env.clientId == "" || env.clientSecret == "")
      ==> r == Response(500, ErrorBody("Server configuration error", None, None))
    ensures r.status == 200 ==>
      req.httpMethod == "GET" && session.Success? && session.value != "" && ValidThreadId(req.threadId)
      && env.clientId != "" && env.clientSecret != "" && api.list.None?
  {
    if req.httpMethod != "GET" then Response(405, ErrorBody("Method not allowed", None, None))
    else match session
      case Failure(e) => Response(500, ErrorBody("Failed to fetch email thread", Some(e.message), e.code))
      case Success(token) =>
        if token == "" then Response(401, ErrorBody("Not authenticated", None, None))
        else if !ValidThreadId(req.threadId) then Response(400, ErrorBody("Thread ID is required", None, None))
        else if env.clientId == "" || env.clientSecret == "" then
          Response(500, ErrorBody("Server configuration error", None, None))
        else FetchThread(req.threadId.s, api, now, decode)
  }

  /** A thread found under the requested id is returned as is, one entry per message. */
  lemma DirectThread(id: string, api: Gmail, now: string, decode: string -> string, ms: seq<Message>)
    requires api.list.None? && api.threads(id) == Success(Some(ms))
    ensures FetchThread(id, api, now, decode) == Response(200, Messages(ShapeAll(ms, id, now, decode)))
  {
  }

  /** When the id is not a thread (or the thread has no `messages`), it is tried as a
      message id and that message's thread is returned; placeholders still default
      to the requested id. */
  lemma FallbackThread(id: string, t: string, api: Gmail, now: string, decode: string -> string, ms: seq<Message>)
    requires api.list.None? && !(api.threads(id).Success? && api.threads(id).value.Some?)
    requires api.messagesGet(id) == Success(t) && t != ""
    requires api.threads(t) == Success(Some(ms))
    ensures FetchThread(id, api, now, decode) == Response(200, Messages(ShapeAll(ms, id, now, decode)))
  {
  }

  /** A message without a thread id ends in the 500 response. */
  lemma MessageWithoutThread(id: string, api: Gmail, now: string, decode: string -> string)
    requires api.list.None? && !(api.threads(id).Success? && api.threads(id).value.Some?)
    requires api.messagesGet(id) == Success("")
    ensures FetchThread(id, api, now, decode)
      == Response(500, ErrorBody("Failed to fetch email thread", Some("No thread ID found in message"), Some(500)))
  {
  }

  /** Every 200 response is the shaped content of a thread the API returned, reached
      either directly or through the message whose id was requested. */
  lemma SuccessIsAThread(id: string, api: Gmail, now: string, decode: string -> string)
    requires FetchThread(id, api, now, decode).status == 200
    ensures exists t, ms ::
      && api.threads(t) == Success(Some(ms))
      && (t == id || api.messagesGet(id) == Success(t))
      && FetchThread(id, api, now, decode).body == Messages(ShapeAll(ms, id, now, decode))
  {
    if api.threads(id).Success? && api.threads(id).value.Some? {
      var ms := api.threads(id).value.value;
      assert api.threads(id) == Success(Some(ms));
    } else {
      var t := api.messagesGet(id).value;
      var ms := api.threads(t).value.value;
      assert api.threads(t) == Success(Some(ms));
    }
  }
}
