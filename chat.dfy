/**
 * The chat component's `handleSend`: the guard on the input, the thread it posts to,
 * the user message and the empty assistant placeholder it appends, the email context
 * it sends along, the fold over the streamed reply that grows the placeholder, and
 * the error text that replaces the last assistant message when anything fails.
 *
 * The network is given as data: what `createThread` returns, what the messages
 * endpoint answers and the chunks its body yields.  `JSON.parse` is the parameter
 * `parse`, and the thread lookups of the email service are the parameter `threadFor`.
 */
module Chat {
  import opened Wrappers
  import opened Text
  import opened Sorting
  import opened Seqs
  import opened EmailStore
  import EmailUtils
  import EmailService

  datatype Role = User | Assistant | System

  datatype ChatMessage = ChatMessage(role: Role, content: string)

  const ErrorText := "Error: Failed to get response"
  const DataPrefix := "data: "
  const DoneMarker := "[DONE]"
  const ContentBlockDelta := "content_block_delta"

  /** What the fold reads from a parsed event: its `type`, and `delta?.text`, with
      `""` standing for a missing or empty text. */
  datatype StreamEvent = StreamEvent(eventType: string, deltaText: string)

  /** The answer of the messages endpoint: the `fetch` threw, or a reply with
      `response.ok`, whether it has a body, the decoded chunks the reader yields, and
      whether the read after the last chunk throws instead of reporting `done`. */
  datatype Reply =
    | NetworkFailure
    | Replied(ok: bool, hasBody: bool, chunks: seq<string>, readFails: bool)

  /** The JSON body posted to `/api/openai/threads/{threadId}/messages`. */
  datatype Request = Request(threadId: string, content: string, assistantId: string, context: string)

  // ---------------------------------------------------------------------------
  // The last assistant message

  /** `lastMessage.content = text` when there is a last message and it is the
      assistant's; every other message, and every role, stays as it was. */
  function SetLastAssistant(ms: seq<ChatMessage>, text: string): (r: seq<ChatMessage>)
    ensures |r| == |ms|
    ensures forall k :: 0 <= k < |ms| - 1 ==> r[k] == ms[k]
    ensures forall k :: 0 <= k < |ms| ==> r[k].role == ms[k].role
    ensures ms != [] && ms[|ms| - 1].role == Assistant ==> r[|ms| - 1].content == text
    ensures ms == [] || ms[|ms| - 1].role != Assistant ==> r == ms
  {
    if ms != [] && ms[|ms| - 1].role == Assistant then ms[|ms| - 1 := ChatMessage(Assistant, text)]
    else ms
  }

  /** A later update of the last assistant message overrides an earlier one. */
  lemma SetLastTwice(ms: seq<ChatMessage>, a: string, b: string)
    ensures SetLastAssistant(SetLastAssistant(ms, a), b) == SetLastAssistant(ms, b)
  {
  }

  /** The messages as the fold leaves them once `acc` has been accumulated: untouched
      while nothing has arrived, otherwise the last assistant message shows `acc`. */
  function Shown(ms: seq<ChatMessage>, acc: string): seq<ChatMessage> {
    if acc == [] then ms else SetLastAssistant(ms, acc)
  }

  // ---------------------------------------------------------------------------
  // One line of the stream

  /** `line.slice(5).trim()` of a line the fold looks at: one that is not blank and
      starts with `data: `. */
  function Payload(line: string): Option<string> {
    if IsBlank(line) || !StartsWith(line, DataPrefix) then None else Some(Trim(line[5..]))
  }

  /** The text one line adds to the accumulated answer; `""` for a skipped line, the
      `[DONE]` marker, a payload that does not parse and any other event. */
  function LineDelta(line: string, parse: string -> Option<StreamEvent>): string {
    match Payload(line)
    case None => ""
    case Some(data) =>
      if data == DoneMarker then ""
      else
        match parse(data)
        case None => ""
        case Some(e) => if e.eventType == ContentBlockDelta then e.deltaText else ""
  }

  /** A line starting with `data: ` is never blank, so the prefix alone decides. */
  lemma DataLineNotBlank(line: string)
    requires StartsWith(line, DataPrefix)
    ensures !IsBlank(line)
  {
    assert line[0] == 'd';
    assert !IsSpace(line[0]);
    assert Run(line, 0, IsSpace) == 0;
    var n := TrailingSpaces(line);
    assert n < |line|;
    assert Trim(line) == line[0..|line| - n];
  }

  /** A line contributes text exactly when it is a `data: ` line whose trimmed payload
      is not `[DONE]` and parses to a `content_block_delta` event with a non-empty
      text, and then it contributes that text. */
  lemma LineDeltaIff(line: string, parse: string -> Option<StreamEvent>)
    ensures LineDelta(line, parse) != [] <==>
      && StartsWith(line, DataPrefix)
      && Trim(line[5..]) != DoneMarker
      && parse(Trim(line[5..])).Some?
      && parse(Trim(line[5..])).value.eventType == ContentBlockDelta
      && parse(Trim(line[5..])).value.deltaText != []
    ensures LineDelta(line, parse) != [] ==> LineDelta(line, parse) == parse(Trim(line[5..])).value.deltaText
  {
    if StartsWith(line, DataPrefix) {
      DataLineNotBlank(line);
    }
  }

  // ---------------------------------------------------------------------------
  // The fold over the chunks

  /** The text the lines of one chunk add, in order. */
  function LinesText(lines: seq<string>, parse: string -> Option<StreamEvent>): string {
    if lines == [] then [] else LinesText(lines[..|lines| - 1], parse) + LineDelta(lines[|lines| - 1], parse)
  }

  /** The accumulated text after the chunks, each split on `'\n'` on its own. */
  function ChunksText(chunks: seq<string>, parse: string -> Option<StreamEvent>): string {
    if chunks == [] then []
    else ChunksText(chunks[..|chunks| - 1], parse) + LinesText(Split(chunks[|chunks| - 1], '\n'), parse)
  }

  lemma LinesTextStep(lines: seq<string>, j: nat, parse: string -> Option<StreamEvent>)
    requires j < |lines|
    ensures LinesText(lines[..j + 1], parse) == LinesText(lines[..j], parse) + LineDelta(lines[j], parse)
  {
    PrefixStep(lines, j);
  }

  lemma ChunksTextStep(chunks: seq<string>, c: nat, parse: string -> Option<StreamEvent>)
    requires c < |chunks|
    ensures ChunksText(chunks[..c + 1], parse) == ChunksText(chunks[..c], parse) + LinesText(Split(chunks[c], '\n'), parse)
  {
    PrefixStep(chunks, c);
  }

  /** The lines of the stream in arrival order. */
  function AllLines(chunks: seq<string>): seq<string> {
    if chunks == [] then [] else AllLines(chunks[..|chunks| - 1]) + Split(chunks[|chunks| - 1], '\n')
  }

  /** The texts of the `content_block_delta` events, in arrival order. */
  function Deltas(lines: seq<string>, parse: string -> Option<StreamEvent>): (r: seq<string>)
    ensures forall k :: 0 <= k < |r| ==> r[k] != []
  {
    if lines == [] then []
    else
      var d := LineDelta(lines[|lines| - 1], parse);
      Deltas(lines[..|lines| - 1], parse) + (if d != [] then [d] else [])
  }

  lemma {:induction false} LinesTextIsDeltas(lines: seq<string>, parse: string -> Option<StreamEvent>)
    ensures LinesText(lines, parse) == Concat(Deltas(lines, parse))
  {
    if lines != [] {
      var init := lines[..|lines| - 1];
      var d := LineDelta(lines[|lines| - 1], parse);
      LinesTextIsDeltas(init, parse);
      if d != [] {
        ConcatSnoc(Deltas(init, parse), d);
      } else {
        assert Deltas(lines, parse) == Deltas(init, parse);
      }
    }
  }

  lemma {:induction false} LinesTextAppend(a: seq<string>, b: seq<string>, parse: string -> Option<StreamEvent>)
    ensures LinesText(a + b, parse) == LinesText(a, parse) + LinesText(b, parse)
    decreases |b|
  {
    if b == [] {
      assert a + b == a;
    } else {
      var init := b[..|b| - 1];
      assert (a + b)[..|a + b| - 1] == a + init;
      assert (a + b)[|a + b| - 1] == b[|b| - 1];
      LinesTextAppend(a, init, parse);
      AppendAssoc(LinesText(a, parse), LinesText(init, parse), LineDelta(b[|b| - 1], parse));
    }
  }

  lemma {:induction false} ChunksTextIsLines(chunks: seq<string>, parse: string -> Option<StreamEvent>)
    ensures ChunksText(chunks, parse) == LinesText(AllLines(chunks), parse)
  {
    if chunks != [] {
      var init := chunks[..|chunks| - 1];
      ChunksTextIsLines(init, parse);
      LinesTextAppend(AllLines(init), Split(chunks[|chunks| - 1], '\n'), parse);
    }
  }

  /** The accumulated text is the concatenation of the delta texts of the stream, in
      the order they arrived. */
  lemma StreamTextIsDeltas(chunks: seq<string>, parse: string -> Option<StreamEvent>)
    ensures ChunksText(chunks, parse) == Concat(Deltas(AllLines(chunks), parse))
  {
    ChunksTextIsLines(chunks, parse);
    LinesTextIsDeltas(AllLines(chunks), parse);
  }

  /** A line that contributes nothing, such as `data: [DONE]` or a payload that does
      not parse, is passed over and the lines after it are still read. */
  lemma SkippedLine(a: seq<string>, line: string, b: seq<string>, parse: string -> Option<StreamEvent>)
    requires LineDelta(line, parse) == []
    ensures LinesText(a + [line] + b, parse) == LinesText(a, parse) + LinesText(b, parse)
  {
    LinesTextAppend(a + [line], b, parse);
    LinesTextAppend(a, [line], parse);
    LinesOne(line, parse);
  }

  /** The `[DONE]` marker does not end the read loop. */
  lemma DoneDoesNotStop(a: seq<string>, b: seq<string>, parse: string -> Option<StreamEvent>)
    ensures LinesText(a + ["data: [DONE]"] + b, parse) == LinesText(a, parse) + LinesText(b, parse)
  {
    var line := "data: [DONE]";
    assert StartsWith(line, DataPrefix);
    DataLineNotBlank(line);
    var rest := line[5..];
    assert rest == " [DONE]";
    assert Run(rest, 0, IsSpace) == 1 by {
      RunIsMaximal(rest, 0, 1, IsSpace);
    }
    assert TrailingSpaces(rest) == 0;
    assert Trim(rest) == DoneMarker;
    SkippedLine(a, line, b, parse);
  }

  /** A payload that does not parse is logged and passed over. */
  lemma UnparseableSkipped(a: seq<string>, line: string, b: seq<string>, parse: string -> Option<StreamEvent>)
    requires Payload(line).Some? && parse(Payload(line).value).None?
    ensures LinesText(a + [line] + b, parse) == LinesText(a, parse) + LinesText(b, parse)
  {
    SkippedLine(a, line, b, parse);
  }

  /** The parser of the example below: the payload `x` is a delta event with text `x`. */
  function ExampleParse(data: string): Option<StreamEvent> {
    if data == "x" then Some(StreamEvent(ContentBlockDelta, "x")) else None
  }

  lemma WholeLineRead()
    ensures LineDelta("data: x", ExampleParse) == "x"
  {
    var whole := "data: x";
    assert StartsWith(whole, DataPrefix);
    DataLineNotBlank(whole);
    assert whole[5..] == " x";
    assert Run(" x", 0, IsSpace) == 1 by {
      RunIsMaximal(" x", 0, 1, IsSpace);
    }
    assert TrailingSpaces(" x") == 0;
    assert Trim(whole[5..]) == "x";
  }

  lemma CutLineLost()
    ensures LineDelta("data", ExampleParse) == ""
    ensures LineDelta(": x", ExampleParse) == ""
  {
    assert !StartsWith("data", DataPrefix);
    assert ": x"[0] != DataPrefix[0];
    assert !StartsWith(": x", DataPrefix);
  }

  lemma LinesOne(line: string, parse: string -> Option<StreamEvent>)
    ensures LinesText([line], parse) == LineDelta(line, parse)
  {
    assert [line][..0] == [];
  }

  lemma ChunksTwo(c1: string, c2: string, parse: string -> Option<StreamEvent>)
    ensures ChunksText([c1], parse) == LinesText(Split(c1, '\n'), parse)
    ensures ChunksText([c1, c2], parse) == LinesText(Split(c1, '\n'), parse) + LinesText(Split(c2, '\n'), parse)
  {
    assert [c1][..0] == [];
    assert [c1, c2][..1] == [c1];
  }

  /** An example of chunks being split on their own: an event line cut in two by a
      chunk boundary is lost, where the same text in one chunk is read.  The general
      statement, for every stream, is ChunksTextIsLines: the fold reads the lines of
      each chunk's own split, in order. */
  lemma NoReassembly()
    ensures ChunksText(["data: x"], ExampleParse) == "x"
    ensures ChunksText(["data", ": x"], ExampleParse) == ""
  {
    SplitNoSeparator("data: x");
    SplitNoSeparator("data");
    SplitNoSeparator(": x");
    ChunksTwo("data: x", "", ExampleParse);
    ChunksTwo("data", ": x", ExampleParse);
    LinesOne("data: x", ExampleParse);
    LinesOne("data", ExampleParse);
    LinesOne(": x", ExampleParse);
    WholeLineRead();
    CutLineLost();
  }

  /** A string without the separator splits into itself. */
  lemma {:induction false} SplitNoSeparator(s: string)
    requires '\n' !in s
    ensures Split(s, '\n') == [s]
  {
    if s != [] {
      assert '\n' !in s[1..];
      SplitNoSeparator(s[1..]);
      assert [s[0]] + s[1..] == s;
    }
  }

  // ---------------------------------------------------------------------------
  // The email context

  const RequestedHeader := "\nREQUESTED EMAIL THREAD(S):\n" + Repeat('-', 30) + "\n"
  const RecentHeader := "\nRECENT EMAILS:\n" + Repeat('-', 30) + "\n"
  const RecentLimit := 10

  /** What `formatEmailThread` yields for a thread's messages. */
  function FormattedThread(ms: seq<EmailMessage>, dateKey: string -> int, locale: string -> string): string {
    EmailService.ThreadHeader()
      + Concat(EmailService.Blocks(SortByKey(ms, EmailService.OldestFirstKey(dateKey)), locale))
  }

  /** The text one extracted reference adds: the formatted thread when the reference
      parses to a thread id and the thread is found, nothing otherwise. */
  function ReferenceText(url: string, threadFor: string -> Option<seq<EmailMessage>>,
                         dateKey: string -> int, locale: string -> string): string {
    var info := EmailUtils.ParseGmailUrl(url);
    if info.isValid && info.threadId != [] then
      match threadFor(info.threadId)
      case None => []
      case Some(ms) => FormattedThread(ms, dateKey, locale)
    else []
  }

  function ThreadSection(urls: seq<string>, threadFor: string -> Option<seq<EmailMessage>>,
                         dateKey: string -> int, locale: string -> string): string {
    if urls == [] then []
    else ThreadSection(urls[..|urls| - 1], threadFor, dateKey, locale) + ReferenceText(urls[|urls| - 1], threadFor, dateKey, locale)
  }

  /** The emails the recent-email context lists: the ten newest, newest first. */
  function Newest(emails: seq<EmailMessage>, dateKey: string -> int): seq<EmailMessage> {
    var sorted := SortByKey(emails, NewestFirstKey(dateKey));
    if |sorted| <= RecentLimit then sorted else sorted[..RecentLimit]
  }

  function RecentEntry(e: EmailMessage, locale: string -> string): string {
    "\nFrom: " + e.from + "\nDate: " + locale(e.date) + "\nSubject: " + e.subject
      + "\nPreview: " + e.snippet + "\n" + Repeat('-', 30) + "\n"
  }

  function Entries(es: seq<EmailMessage>, locale: string -> string): string {
    if es == [] then [] else Entries(es[..|es| - 1], locale) + RecentEntry(es[|es| - 1], locale)
  }

  function TotalLine(n: nat): string {
    "\nTotal emails in store: " + NatToString(n) + "\n"
  }

  function RecentEmails(emails: seq<EmailMessage>, dateKey: string -> int, locale: string -> string): string {
    RecentHeader + Entries(Newest(emails, dateKey), locale) + TotalLine(|emails|)
  }

  /** The context sent with the message: nothing unless the text asks about email;
      the requested threads when it names any; otherwise the recent emails, if any. */
  function EmailContext(input: string, emails: seq<EmailMessage>, threadFor: string -> Option<seq<EmailMessage>>,
                        dateKey: string -> int, locale: string -> string): string {
    if !EmailUtils.IsEmailRequest(input) then []
    else
      var urls := EmailUtils.Dedup(EmailUtils.Candidates(input));
      if urls != [] then RequestedHeader + ThreadSection(urls, threadFor, dateKey, locale)
      else if emails != [] then RecentEmails(emails, dateKey, locale)
      else []
  }

  lemma ThreadSectionStep(urls: seq<string>, i: nat, threadFor: string -> Option<seq<EmailMessage>>,
                          dateKey: string -> int, locale: string -> string)
    requires i < |urls|
    ensures ThreadSection(urls[..i + 1], threadFor, dateKey, locale)
      == ThreadSection(urls[..i], threadFor, dateKey, locale) + ReferenceText(urls[i], threadFor, dateKey, locale)
  {
    PrefixStep(urls, i);
  }

  lemma EntriesStep(es: seq<EmailMessage>, i: nat, locale: string -> string)
    requires i < |es|
    ensures Entries(es[..i + 1], locale) == Entries(es[..i], locale) + RecentEntry(es[i], locale)
  {
    PrefixStep(es, i);
  }

  /** The loop over the extracted references: each adds its formatted thread. */
  method RequestedThreads(urls: seq<string>, threadFor: string -> Option<seq<EmailMessage>>,
                          dateKey: string -> int, locale: string -> string) returns (section: string)
    ensures section == ThreadSection(urls, threadFor, dateKey, locale)
  {
    section := [];
    for i := 0 to |urls|
      invariant section == ThreadSection(urls[..i], threadFor, dateKey, locale)
    {
      var piece := ThreadText(urls[i], threadFor, dateKey, locale);
      ThreadSectionStep(urls, i, threadFor, dateKey, locale);
      section := section + piece;
    }
    TakeAll(urls);
  }

  /** The loop over the ten newest emails, between the header and the total count. */
  method RecentContext(emails: seq<EmailMessage>, dateKey: string -> int, locale: string -> string)
    returns (text: string)
    ensures text == RecentEmails(emails, dateKey, locale)
  {
    var top := Newest(emails, dateKey);
    var entries := [];
    for i := 0 to |top|
      invariant entries == Entries(top[..i], locale)
    {
      EntriesStep(top, i, locale);
      entries := entries + RecentEntry(top[i], locale);
    }
    TakeAll(top);
    text := RecentHeader + entries + TotalLine(|emails|);
  }

  /** The context-building part of `handleSend`. */
  method BuildEmailContext(input: string, emails: seq<EmailMessage>, threadFor: string -> Option<seq<EmailMessage>>,
                           dateKey: string -> int, locale: string -> string) returns (context: string)
    ensures context == EmailContext(input, emails, threadFor, dateKey, locale)
  {
    context := [];
    if EmailUtils.IsEmailRequest(input) {
      var urls := EmailUtils.ExtractEmailUrls(input);
      if |urls| > 0 {
        var section := RequestedThreads(urls, threadFor, dateKey, locale);
        context := RequestedHeader + section;
      }
      if |emails| > 0 && |urls| == 0 {
        context := RecentContext(emails, dateKey, locale);
      }
    }
  }

  /** One pass of the loop over the references: parse, look the thread up, format it. */
  method ThreadText(url: string, threadFor: string -> Option<seq<EmailMessage>>,
                    dateKey: string -> int, locale: string -> string) returns (text: string)
    ensures text == ReferenceText(url, threadFor, dateKey, locale)
  {
    text := [];
    var info := EmailUtils.ParseGmailUrl(url);
    if info.isValid && info.threadId != [] {
      var thread := threadFor(info.threadId);
      if thread.Some? {
        text := EmailService.FormatEmailThread(thread.value, dateKey, locale);
      }
    }
  }

  /** The recent-email context lists at most ten emails, newest first, each one of the
      store's, and none that it leaves out is newer than one it lists. */
  lemma RecentSelection(emails: seq<EmailMessage>, dateKey: string -> int)
    ensures |Newest(emails, dateKey)| == (if |emails| <= RecentLimit then |emails| else RecentLimit)
    ensures multiset(Newest(emails, dateKey)) <= multiset(emails)
    ensures forall i, j :: 0 <= i < j < |Newest(emails, dateKey)| ==>
      dateKey(Newest(emails, dateKey)[i].date) >= dateKey(Newest(emails, dateKey)[j].date)
    ensures forall e, f :: e in Newest(emails, dateKey) && f in multiset(emails) - multiset(Newest(emails, dateKey)) ==>
      dateKey(e.date) >= dateKey(f.date)
  {
    NewestOrdered(emails, dateKey);
    NewestAreNewest(emails, dateKey);
  }

  lemma NewestOrdered(emails: seq<EmailMessage>, dateKey: string -> int)
    ensures forall i, j :: 0 <= i < j < |Newest(emails, dateKey)| ==>
      dateKey(Newest(emails, dateKey)[i].date) >= dateKey(Newest(emails, dateKey)[j].date)
  {
    var key := NewestFirstKey(dateKey);
    var sorted := SortByKey(emails, key);
    SortSorted(emails, key);
    var top := Newest(emails, dateKey);
    forall i, j | 0 <= i < j < |top| ensures dateKey(top[i].date) >= dateKey(top[j].date) {
      assert top[i] == sorted[i] && top[j] == sorted[j];
      assert key(sorted[i]) <= key(sorted[j]);
    }
  }

  lemma NewestAreNewest(emails: seq<EmailMessage>, dateKey: string -> int)
    ensures multiset(Newest(emails, dateKey)) <= multiset(emails)
    ensures forall e, f :: e in Newest(emails, dateKey) && f in multiset(emails) - multiset(Newest(emails, dateKey)) ==>
      dateKey(e.date) >= dateKey(f.date)
  {
    var key := NewestFirstKey(dateKey);
    var sorted := SortByKey(emails, key);
    SortSorted(emails, key);
    var top := Newest(emails, dateKey);
    var n := |top|;
    assert top == sorted[..n];
    SortedPrefixFirst(sorted, emails, n, key);
    forall e, f | e in top && f in multiset(emails) - multiset(top)
      ensures dateKey(e.date) >= dateKey(f.date)
    {
      assert key(e) <= key(f);
    }
  }

  /** The thread header and the recent-email header differ at their fourth character. */
  lemma HeadersDiffer(rest: string)
    ensures !StartsWith(RequestedHeader + rest, RecentHeader)
  {
    assert (RequestedHeader + rest)[3] == RequestedHeader[3] == 'Q';
    assert RecentHeader[3] == 'C';
  }

  lemma NoReferencesIff(input: string)
    ensures EmailUtils.Dedup(EmailUtils.Candidates(input)) == [] <==> EmailUtils.Candidates(input) == []
  {
    if EmailUtils.Candidates(input) != [] {
      assert EmailUtils.Candidates(input)[0] in EmailUtils.Dedup(EmailUtils.Candidates(input));
    }
  }

  /** The recent emails are sent exactly when the text asks about email, names no
      thread and the store holds emails; they then make up the whole context. */
  lemma RecentOnlyWithoutReferences(input: string, emails: seq<EmailMessage>,
                                    threadFor: string -> Option<seq<EmailMessage>>,
                                    dateKey: string -> int, locale: string -> string)
    ensures StartsWith(EmailContext(input, emails, threadFor, dateKey, locale), RecentHeader) <==>
      EmailUtils.IsEmailRequest(input) && EmailUtils.Candidates(input) == [] && emails != []
    ensures StartsWith(EmailContext(input, emails, threadFor, dateKey, locale), RecentHeader) ==>
      EmailContext(input, emails, threadFor, dateKey, locale) == RecentEmails(emails, dateKey, locale)
  {
    var urls := EmailUtils.Dedup(EmailUtils.Candidates(input));
    NoReferencesIff(input);
    if EmailUtils.IsEmailRequest(input) {
      if urls != [] {
        HeadersDiffer(ThreadSection(urls, threadFor, dateKey, locale));
      } else if emails != [] {
        var rest := Entries(Newest(emails, dateKey), locale) + TotalLine(|emails|);
        AppendAssoc(RecentHeader, Entries(Newest(emails, dateKey), locale), TotalLine(|emails|));
        assert (RecentHeader + rest)[..|RecentHeader|] == RecentHeader;
      }
    }
  }

  // ---------------------------------------------------------------------------
  // A send, as a function of what the network does

  /** The guard of `handleSend`: a blank input or no selected assistant. */
  predicate Ignored(input: string, assistant: string) {
    IsBlank(input) || assistant == []
  }

  /** `currentThread || await createThread()`: `created` is what `createThread`
      returns, `None` for the `null` of its catch. */
  function ThreadIdFor(current: string, created: Option<string>): string {
    if current != [] then current else if created.Some? then created.value else []
  }

  /** What the reply does to the messages once the placeholder is in place. */
  function AfterReply(ms: seq<ChatMessage>, reply: Reply, parse: string -> Option<StreamEvent>): seq<ChatMessage> {
    match reply
    case NetworkFailure => SetLastAssistant(ms, ErrorText)
    case Replied(ok, hasBody, chunks, readFails) =>
      if !ok || !hasBody then SetLastAssistant(ms, ErrorText)
      else
        var shown := Shown(ms, ChunksText(chunks, parse));
        if readFails then SetLastAssistant(shown, ErrorText) else shown
  }

  /** The messages after a send that passed the guard. */
  function SendMessages(ms: seq<ChatMessage>, input: string, threadId: string, reply: Reply,
                        parse: string -> Option<StreamEvent>): seq<ChatMessage> {
    if threadId == [] then SetLastAssistant(ms, ErrorText)
    else AfterReply(ms + [ChatMessage(User, input), ChatMessage(Assistant, [])], reply, parse)
  }

  /** Whether the reply ends in the catch. */
  predicate ReplyFails(reply: Reply) {
    reply.NetworkFailure? || !reply.ok || !reply.hasBody || reply.readFails
  }

  /** With a thread, a send keeps the history and appends the user message and then
      the assistant's, whatever the reply. */
  lemma SendAppendsPair(ms: seq<ChatMessage>, input: string, threadId: string, reply: Reply,
                        parse: string -> Option<StreamEvent>)
    requires threadId != []
    ensures var r := SendMessages(ms, input, threadId, reply, parse);
      && |r| == |ms| + 2
      && r[..|ms|] == ms
      && r[|ms|] == ChatMessage(User, input)
      && r[|ms| + 1].role == Assistant
  {
    var m1 := ms + [ChatMessage(User, input), ChatMessage(Assistant, [])];
    var r := SendMessages(ms, input, threadId, reply, parse);
    assert r[..|ms|] == ms by {
      forall k | 0 <= k < |ms| ensures r[k] == ms[k] {
        assert m1[k] == ms[k];
      }
    }
  }

  /** A reply read to its end leaves the answer, the concatenated delta texts, in the
      assistant message appended for it. */
  lemma StreamedAnswer(ms: seq<ChatMessage>, input: string, threadId: string, reply: Reply,
                       parse: string -> Option<StreamEvent>)
    requires threadId != [] && !ReplyFails(reply)
    ensures var r := SendMessages(ms, input, threadId, reply, parse);
      r[|ms| + 1] == ChatMessage(Assistant, Concat(Deltas(AllLines(reply.chunks), parse)))
  {
    StreamTextIsDeltas(reply.chunks, parse);
  }

  /** A reply that fails at any point leaves the error text in the appended assistant
      message, whatever had been streamed before. */
  lemma FailedReplyShowsError(ms: seq<ChatMessage>, input: string, threadId: string, reply: Reply,
                              parse: string -> Option<StreamEvent>)
    requires threadId != [] && ReplyFails(reply)
    ensures var r := SendMessages(ms, input, threadId, reply, parse);
      r[|ms| + 1] == ChatMessage(Assistant, ErrorText)
  {
  }

  /** Without a thread nothing is appended: the error text goes to the previous last
      message when it is the assistant's, and the rest of the history is untouched. */
  lemma NoThreadReusesLastAnswer(ms: seq<ChatMessage>, input: string, reply: Reply,
                                 parse: string -> Option<StreamEvent>)
    ensures var r := SendMessages(ms, input, [], reply, parse);
      && |r| == |ms|
      && (forall k :: 0 <= k < |ms| - 1 ==> r[k] == ms[k])
      && (ms != [] && ms[|ms| - 1].role == Assistant ==> r[|ms| - 1] == ChatMessage(Assistant, ErrorText))
  {
  }

  // ---------------------------------------------------------------------------
  // The component

  /** The component's state that `handleSend` reads and writes.  `""` stands for a
      `null` assistant or thread. */
  class ChatSession {
    var userInput: string
    var messages: seq<ChatMessage>
    var isLoading: bool
    var selectedAssistant: string
    var currentThread: string
    var emails: seq<EmailMessage>

    /** The state at the moment a send starts. */
    constructor(input: string, history: seq<ChatMessage>, assistant: string, thread: string, stored: seq<EmailMessage>)
      ensures userInput == input && messages == history && !isLoading
      ensures selectedAssistant == assistant && currentThread == thread && emails == stored
    {
      userInput := input;
      messages := history;
      isLoading := false;
      selectedAssistant := assistant;
      currentThread := thread;
      emails := stored;
    }

    /** The reader loop: each chunk is split into lines, and each delta text is added
        to the accumulated text, which the last assistant message then shows. */
    method ReadStream(chunks: seq<string>, parse: string -> Option<StreamEvent>) returns (acc: string)
      modifies this
      ensures acc == ChunksText(chunks, parse)
      ensures messages == Shown(old(messages), acc)
      ensures userInput == old(userInput) && isLoading == old(isLoading)
      ensures selectedAssistant == old(selectedAssistant) && currentThread == old(currentThread)
      ensures emails == old(emails)
    {
      acc := [];
      for c := 0 to |chunks|
        invariant acc == ChunksText(chunks[..c], parse)
        invariant messages == Shown(old(messages), acc)
        invariant userInput == old(userInput) && isLoading == old(isLoading)
        invariant selectedAssistant == old(selectedAssistant) && currentThread == old(currentThread)
        invariant emails == old(emails)
      {
        ChunksTextStep(chunks, c, parse);
        acc := ReadChunk(chunks[c], parse, acc, old(messages));
      }
      TakeAll(chunks);
    }

    /** One chunk: split on `'\n'`, each line read in turn. */
    method ReadChunk(chunk: string, parse: string -> Option<StreamEvent>, acc0: string,
                     ghost history: seq<ChatMessage>) returns (acc: string)
      requires messages == Shown(history, acc0)
      modifies this
      ensures acc == acc0 + LinesText(Split(chunk, '\n'), parse)
      ensures messages == Shown(history, acc)
      ensures userInput == old(userInput) && isLoading == old(isLoading)
      ensures selectedAssistant == old(selectedAssistant) && currentThread == old(currentThread)
      ensures emails == old(emails)
    {
      var lines := Split(chunk, '\n');
      acc := acc0;
      for j := 0 to |lines|
        invariant acc == acc0 + LinesText(lines[..j], parse)
        invariant messages == Shown(history, acc)
        invariant userInput == old(userInput) && isLoading == old(isLoading)
        invariant selectedAssistant == old(selectedAssistant) && currentThread == old(currentThread)
        invariant emails == old(emails)
      {
        var d := LineText(lines[j], parse);
        LinesTextStep(lines, j, parse);
        AppendAssoc(acc0, LinesText(lines[..j], parse), d);
        if d != [] {
          SetLastTwice(history, acc, acc + d);
          acc := acc + d;
          messages := SetLastAssistant(messages, acc);
        }
      }
      TakeAll(lines);
    }

    /** The body of the loop over a chunk's lines, up to the text it would add. */
    static method LineText(line: string, parse: string -> Option<StreamEvent>) returns (d: string)
      ensures d == LineDelta(line, parse)
    {
      d := [];
      if !IsBlank(line) && StartsWith(line, DataPrefix) {
        var data := Trim(line[5..]);
        if data != DoneMarker {
          var event := parse(data);
          if event.Some? && event.value.eventType == ContentBlockDelta {
            d := event.value.deltaText;
          }
        }
      }
    }

    /** `handleSend`.  `created` is what `createThread` returns when it is called,
        `reply` what the messages endpoint does; the result is the request posted. */
    method HandleSend(created: Option<string>, reply: Reply, parse: string -> Option<StreamEvent>,
                      threadFor: string -> Option<seq<EmailMessage>>, dateKey: string -> int,
                      locale: string -> string) returns (sent: Option<Request>)
      modifies this
      ensures Ignored(old(userInput), old(selectedAssistant)) ==>
        && sent == None && userInput == old(userInput) && messages == old(messages)
        && isLoading == old(isLoading) && currentThread == old(currentThread)
      ensures !Ignored(old(userInput), old(selectedAssistant)) ==>
        var threadId := ThreadIdFor(old(currentThread), created);
        && userInput == [] && !isLoading && currentThread == threadId
        && messages == SendMessages(old(messages), old(userInput), threadId, reply, parse)
        && sent == (if threadId == [] then None
                    else Some(Request(threadId, old(userInput), old(selectedAssistant),
                                      EmailContext(old(userInput), old(emails), threadFor, dateKey, locale))))
      ensures selectedAssistant == old(selectedAssistant) && emails == old(emails)
    {
      sent := None;
      if Ignored(userInput, selectedAssistant) {
        return;
      }
      isLoading := true;
      var input := userInput;
      userInput := [];
      var threadId := currentThread;
      if threadId == [] && created.Some? {
        currentThread := created.value;
        threadId := created.value;
      }
      if threadId == [] {
        messages := SetLastAssistant(messages, ErrorText);
      } else {
        var context := BuildEmailContext(input, emails, threadFor, dateKey, locale);
        sent := Some(Request(threadId, input, selectedAssistant, context));
        Exchange(input, reply, parse);
      }
      isLoading := false;
    }

    /** From the user message to the end of the reply, once a thread is known. */
    method Exchange(input: string, reply: Reply, parse: string -> Option<StreamEvent>)
      modifies this
      ensures messages == AfterReply(old(messages) + [ChatMessage(User, input), ChatMessage(Assistant, [])], reply, parse)
      ensures userInput == old(userInput) && isLoading == old(isLoading)
      ensures selectedAssistant == old(selectedAssistant) && currentThread == old(currentThread)
      ensures emails == old(emails)
    {
      ghost var history := messages;
      messages := messages + [ChatMessage(User, input)];
      messages := messages + [ChatMessage(Assistant, [])];
      assert messages == history + [ChatMessage(User, input), ChatMessage(Assistant, [])];
      if reply.NetworkFailure? || !reply.ok || !reply.hasBody {
        messages := SetLastAssistant(messages, ErrorText);
      } else {
        var acc := ReadStream(reply.chunks, parse);
        if reply.readFails {
          messages := SetLastAssistant(messages, ErrorText);
        }
      }
    }
  }
}
