# electron-me email assistant core, in Dafny

A model of the email-handling core of electron-me, a desktop chat client for OpenAI
assistants with Gmail access, along with proofs about it. The model covers:

- **Email service** (`services/emailService.ts`). The in-memory store of Gmail
  threads keyed by thread id, with its sync bookkeeping (`lastSyncTime`,
  `isSyncing`, `lastSyncError`). It also covers the retrying fetch, the sync, the
  status summary, the single-thread fetch, the thread resolver, the draft result
  and the formatting of a thread for the assistant.
- **Gmail reference parsing** (`utils/emailUtils.ts`). `parseGmailUrl`,
  `extractEmailUrls` and `isEmailRequest`. Each regular expression is a
  hand-written matcher over `seq<char>` that follows the backtracking order of
  JavaScript regular expressions.
- **The thread endpoint** (`pages/api/google/gmail/thread.ts`). Request
  validation, the case-insensitive header lookup, and the base64url-to-base64
  normalisation and `=` padding of RFC 4648 (sections 4 and 5). It also covers the
  depth-first walk of the MIME part tree, the shaping of each message, and the
  fallback from a thread id to a message id.
- **The chat component's `handleSend`** (`components/OpenAIChat.tsx`). The guard,
  the user message and the assistant placeholder, and the email context. It also
  covers the fold over the streamed `data:` lines, which is a simplified reading of
  the Server-Sent Events `data` field, and the error path.

Modules:

| file | module | what |
|---|---|---|
| wrappers.dfy | Wrappers | `Option`, `Result` |
| seqs.dfy | Seqs | small sequence facts |
| text.dfy | Text | JavaScript `trim`, `split`, `includes`, `toLowerCase` on ASCII, `repeat`, number rendering |
| sorting.dfy | Sorting | the stable sort by a numeric key that `Array.prototype.sort` with a subtracting comparator performs |
| retry.dfy | Retry | `fetchWithRetry` over a scripted server |
| email_store.dfy | EmailStore | the store value, grouping by thread, the status summary |
| email_service.dfy | EmailService | the service state as a class; sync, resolver, draft, formatting |
| email_utils.dfy | EmailUtils | the Gmail reference matchers |
| gmail_thread.dfy | GmailThread | the `GET /api/google/gmail/thread` handler |
| chat.dfy | Chat | `handleSend` and the chat state it changes, as a class |

These effects become inputs:

- Every HTTP endpoint is a scripted `Server`, which holds the answer to the n-th
  request and to the n-th session refresh. Waits are returned as `Sleep` events.
- The clock is an integer `now` in milliseconds.
- Parsing a date is a function `dateKey: string -> int`, and `toLocaleString` is
  a function `locale`.
- `JSON.parse` of a stream payload is a function `parse`.
- Decoding base64 bytes to UTF-8 is a function `decode`.
- The Gmail API calls are the fields of a `Gmail` value.
- In `handleSend`, the email service's thread resolver is a function `threadFor`.

Two behaviours of the code that are easy to misread:

- The chat component appends each delta text to the running answer, and the last
  assistant message shows the whole answer so far (components/OpenAIChat.tsx:291-298).
- When the refetch of a partly loaded cached thread fails, `fetchEmailThread` does
  not return the cached messages. It falls through to the staleness check and the
  direct fetch (services/emailService.ts:248-254).

## Model

| member | source | states |
|---|---|---|
| Text.Trim | utils/emailUtils.ts:39 | the result is no longer than the input and neither starts nor ends with JavaScript white space |
| Text.TrimRemovesEnds | utils/emailUtils.ts:95 | the input is white space, then the trimmed text, then white space |
| Text.TrimIdempotent | utils/emailUtils.ts:95 | trimming twice is trimming once |
| Text.TrimOfTokenChars | utils/emailUtils.ts:39-40 | a string of `[A-Za-z0-9_-]` characters is unchanged by trimming, so a captured id never shrinks below 16 |
| Text.BodyOrNoContent | pages/api/google/gmail/thread.ts:118 | the body is never empty and is already trimmed; a non-blank text gives its trimmed form |
| Text.Lower | utils/emailUtils.ts:112 | same length, each character mapped by the ASCII lower-casing |
| Text.IncludesIff | utils/emailUtils.ts:114-119 | `includes` holds exactly when the word occurs at some position |
| Text.Split | components/OpenAIChat.tsx:275 | at least one piece, and no piece holds the separator |
| Text.SplitJoin | components/OpenAIChat.tsx:275 | joining the pieces with the separator gives back the input |
| Text.NatToStringValue | services/emailService.ts:337 | the decimal rendering of a message number denotes that number |
| Text.RunIsMaximal | utils/emailUtils.ts:25-33 | a greedy run of a character class ends exactly at the first character outside the class |
| Sorting.SortSorted | services/emailService.ts:26-28 | the sort orders by the key and is a permutation of its input |
| Sorting.SortOfSorted | services/emailService.ts:332-334 | sorting an already ordered list leaves it as it is |
| Sorting.SortedPrefixFirst | components/OpenAIChat.tsx:211 | a prefix of a sorted permutation is drawn from the input, and no element outside it sorts before one in it |
| Retry.Backoff | services/emailService.ts:71 | each wait lies between 1000 and 5000 ms |
| Retry.BackoffSchedule | services/emailService.ts:71-77 | the waits after attempts 0, 1 and 2 are 1000, 2000 and 4000 ms, and 5000 ms after that |
| Retry.FetchWithRetry | services/emailService.ts:44-82 | the loop's outcome and its calls, refreshes and waits are those of the attempt-by-attempt definition |
| Retry.ReturnsFirstTerminal | services/emailService.ts:45-79 | the response returned is the first one with a 2xx or 404 status, whatever network errors, failed refreshes or other statuses came before it |
| Retry.ReturnedIsTerminal | services/emailService.ts:50-53 | every returned response has a 2xx or 404 status and is one of the server's answers |
| Retry.AtMostRetriesCalls | services/emailService.ts:45 | the endpoint is called at most `retries` times |
| Retry.WaitsAreBackoffs | services/emailService.ts:70-78 | every wait follows a non-terminal attempt, lasts `min(1000·2^i, 5000)` ms, and never follows a 401 whose refresh answered |
| Retry.RefreshOnlyAfter401 | services/emailService.ts:63-68 | a session refresh is only issued after a 401 |
| Retry.UnauthorizedRetriesAtOnce | services/emailService.ts:63-68 | a 401 issues one refresh and moves to the next attempt with no wait |
| Retry.ExhaustedThrowsMax | services/emailService.ts:74-81 | when no attempt gets a 2xx or 404 and the last one does not throw, the call throws `Max retries reached`; earlier errors are caught |
| Retry.LastNetworkErrorRethrown | services/emailService.ts:74-76 | when no earlier attempt gets a 2xx or 404, a network error on the last attempt is rethrown unchanged |
| EmailStore.Put | services/emailService.ts:178-183 | pushing a message keeps the store well formed |
| EmailStore.StoreSet | services/emailService.ts:288 | assigning a thread's messages replaces that entry only, and an existing key keeps its place |
| EmailStore.Group | services/emailService.ts:177-185 | the grouped store is well formed |
| EmailStore.GroupContents | services/emailService.ts:177-185 | the store's keys are exactly the input's thread ids, and each holds its thread's messages in input order |
| EmailStore.GroupPermutes | services/emailService.ts:177-185 | the store holds exactly the input messages |
| EmailStore.GroupKeepsCount | services/emailService.ts:177-185 | the store holds as many messages as the input |
| EmailStore.PutAddsOne | services/emailService.ts:183 | a push adds exactly that message to the store |
| EmailStore.Summarize | services/emailService.ts:23-42 | thread count is the number of keys; `hasData` iff there is one; message count is the list's length; the list is a newest-first permutation of the stored messages |
| EmailStore.KeysCountOrder | services/emailService.ts:31 | the number of keys equals the number of threads in insertion order |
| EmailStore.StatusOfGroup | services/emailService.ts:23-42 | after grouping, the status counts and lists exactly the grouped messages |
| EmailService.CountMissing | services/emailService.ts:154-158 | no invalid message is counted exactly when every message has an id and a thread id |
| EmailService.GroupMessages | services/emailService.ts:177-185 | the grouping fails exactly when a thread id names an inherited object member, and otherwise yields the grouped store |
| EmailService.SyncSkipped | services/emailService.ts:86-96 | a sync already in progress, or an unforced one within five minutes of the last with a non-empty store, makes no request and changes nothing |
| EmailService.SyncFlagAndFailure | services/emailService.ts:98-208 | a sync that ran releases the flag; a failed one keeps the store and the sync time and records its error; a successful one clears the error |
| EmailService.SyncEmptyList | services/emailService.ts:139-142 | an empty list ends the sync with the store and sync time unchanged |
| EmailService.SyncSucceeds | services/emailService.ts:165-187 | a non-empty list of valid messages rebuilds the store as the grouped list (its threads exactly, each in input order, the same messages) and sets the sync time to `now` |
| EmailService.SyncRebuild | services/emailService.ts:134-201 | the store changes only for a non-empty list of valid messages; it then holds exactly the input's threads, in input order, with as many messages as the input, and the sync time is `now` |
| EmailService.SyncWellFormed | services/emailService.ts:84-209 | a sync keeps the store well formed |
| EmailService.SingleThread | services/emailService.ts:216-230 | a thread is returned exactly for a 2xx answer whose `messages` is an array, and it is that array |
| EmailService.FetchSingleThread | services/emailService.ts:211-235 | the result is the thread the retried fetch yields, or null |
| EmailService.CreateEmailDraft | services/emailService.ts:308-326 | true exactly when the retried fetch returns a 2xx answer with `success: true` |
| EmailService.FullyLoadedHit | services/emailService.ts:255-260 | a cached thread whose messages are all fully loaded is returned with no request and no change |
| EmailService.ResultIsStored | services/emailService.ts:242-305 | a returned thread is the one the store then holds under the requested id, and the store stays well formed |
| EmailService.AfterCacheStored | services/emailService.ts:264-294 | after a cache miss, a returned thread is the one stored under the requested id |
| EmailService.DirectStored | services/emailService.ts:283-294 | a directly fetched thread is stored under the requested id |
| EmailService.PartialCacheNotReturned | services/emailService.ts:248-254 | when the refetch of a partly loaded thread fails and the direct fetch fails, the answer is null, not the cached messages |
| EmailService.FailedSyncGivesNull | services/emailService.ts:265-305 | a stale store whose forced sync fails gives null and no direct fetch |
| EmailService.EmailService.constructor | services/emailService.ts:17-21 | the store starts empty, never synced, not syncing, with no error |
| EmailService.EmailService.Status | services/emailService.ts:23-42 | the counts, `hasData` and the newest-first list follow from the store, and the bookkeeping fields are reported as they are |
| EmailService.EmailService.SyncEmails | services/emailService.ts:84-209 | the new state, result and request trace are those of the sync definition |
| EmailService.EmailService.Rebuild | services/emailService.ts:165-201 | a rebuild that throws leaves the previous store; otherwise the store is the grouped input |
| EmailService.EmailService.SetThread | services/emailService.ts:288 | the store gets the thread under the id and nothing else changes |
| EmailService.EmailService.FetchEmailThread | services/emailService.ts:237-306 | the new state, result and request trace are those of the resolver definition |
| EmailService.FormatEmailThread | services/emailService.ts:328-346 | the text is the header followed by one block per message, in date order, numbered from 1 |
| EmailService.FormatOrder | services/emailService.ts:332-343 | the formatted messages are a permutation of the thread, oldest first, one block each |
| EmailUtils.TokenAt | utils/emailUtils.ts:33 | a captured token has 16 or more token characters and is a maximal run |
| EmailUtils.TokenBeforeDelimiter | utils/emailUtils.ts:29-31 | the captured id is a maximal token run followed by `/`, `?`, `#` or the end |
| EmailUtils.LazySlash | utils/emailUtils.ts:29 | the lazy `.*?/` stops at the first slash, on the same line, after which a delimited token follows |
| EmailUtils.FirstSomeAtIsFirst | utils/emailUtils.ts:37 | a search reports the leftmost position where the pattern matches |
| EmailUtils.Leftmost | utils/emailUtils.ts:37-38 | a capture is a token, and there is none exactly when no start position matches |
| EmailUtils.LeftmostIsFirst | utils/emailUtils.ts:37 | the capture is the one at the leftmost matching position |
| EmailUtils.TryPatternsFirst | utils/emailUtils.ts:36-50 | the first pattern that matches decides the id, and its capture is returned unchanged |
| EmailUtils.TryPatternsNone | utils/emailUtils.ts:36-50 | the loop finds nothing exactly when no pattern matches |
| EmailUtils.TrailingSegmentLength | utils/emailUtils.ts:53-54 | the last segment is the run after the last delimiter |
| EmailUtils.Segments | utils/emailUtils.ts:53 | the segments are non-empty and hold no delimiter |
| EmailUtils.SegmentsCoverInput | utils/emailUtils.ts:53 | the segments, joined, are the input with its delimiters removed |
| EmailUtils.CleanUrl | utils/emailUtils.ts:14 | one leading `@` is dropped, and nothing else changes |
| EmailUtils.ParseGmailUrl | utils/emailUtils.ts:6-80 | an empty input is invalid; every invalid result has an empty id; every valid id is 16 or more token characters |
| EmailUtils.ParseSkipsOneAt | utils/emailUtils.ts:14 | `@` followed by a reference parses like the reference |
| EmailUtils.BareMailboxRejected | utils/emailUtils.ts:17-20 | the mailbox URL with no thread, with or without a final `/`, is invalid |
| EmailUtils.FirstPatternWins | utils/emailUtils.ts:36-50 | the first pattern that matches gives the id, and the fallback is not consulted |
| EmailUtils.FallbackWhenNoPattern | utils/emailUtils.ts:52-61 | with no pattern matching, the result is valid exactly when the last segment is a token |
| EmailUtils.TokenBeforeSpaceEnd | utils/emailUtils.ts:88 | a match covers 16 token characters and ends inside the text |
| EmailUtils.UrlMatchEnd | utils/emailUtils.ts:87 | a URL match ends after it starts and inside the text |
| EmailUtils.BareMatchEnd | utils/emailUtils.ts:88 | a bare-id match ends after it starts and inside the text |
| EmailUtils.AllMatches | utils/emailUtils.ts:93 | every global match is non-empty |
| EmailUtils.Cleaned | utils/emailUtils.ts:94-99 | every kept match is trimmed and has 16 or more characters |
| EmailUtils.Candidates | utils/emailUtils.ts:86-100 | every candidate is trimmed and has 16 or more characters |
| EmailUtils.Dedup | utils/emailUtils.ts:91-102 | the set's contents are distinct and are exactly the candidates |
| EmailUtils.DedupOrder | utils/emailUtils.ts:91-102 | the set yields its elements in first-occurrence order |
| EmailUtils.DedupKeepsFrontFirst | utils/emailUtils.ts:92-100 | an element of the first list comes before every element only the second list holds |
| EmailUtils.UrlReferencesFirst | utils/emailUtils.ts:86-102 | URL matches come before bare ids that only the second pattern finds |
| EmailUtils.ExtractEmailUrls | utils/emailUtils.ts:82-109 | the result is the distinct, trimmed candidates of 16 or more characters, in the set's order |
| EmailUtils.AddCleaned | utils/emailUtils.ts:94-99 | the `forEach` adds each kept match unless it is already present |
| EmailUtils.TokenRunFromIff | utils/emailUtils.ts:120 | the one-pass count finds a 16-character token window exactly when one exists |
| EmailUtils.IncludesAnyIff | utils/emailUtils.ts:113-119 | the chain of `includes` holds exactly when some keyword occurs |
| EmailUtils.IsEmailRequestIff | utils/emailUtils.ts:111-121 | a request is about email exactly when the lower-cased text holds a keyword or the text holds 16 consecutive token characters |
| GmailThread.FindHeaderFirstMatch | pages/api/google/gmail/thread.ts:70-72 | the first header whose lower-cased name matches gives the value |
| GmailThread.FindHeaderNoMatch | pages/api/google/gmail/thread.ts:70-72 | with no matching header the lookup finds nothing |
| GmailThread.FindHeaderSound | pages/api/google/gmail/thread.ts:70-72 | a value found belongs to a matching header with no match before it |
| GmailThread.NoNullNeverThrows | pages/api/google/gmail/thread.ts:70-72 | a lookup over non-null headers never throws |
| GmailThread.Normalize | pages/api/google/gmail/thread.ts:81 | `-` and `_` are replaced, the length and every other character are kept |
| GmailThread.NormalizeAlphabet | pages/api/google/gmail/thread.ts:81 | a base64url text becomes a base64 text |
| GmailThread.UrlSafeNormalize | pages/api/google/gmail/thread.ts:81 | the mapping back to the URL-safe alphabet restores the input |
| GmailThread.Pad | pages/api/google/gmail/thread.ts:83-84 | the padded length is a multiple of 4, less than 4 over the input, and the added characters are `=` |
| GmailThread.PadIsLeast | pages/api/google/gmail/thread.ts:83-84 | the padded length is the least multiple of 4 not below the input's length |
| GmailThread.PadAligned | pages/api/google/gmail/thread.ts:84 | an aligned input gets no padding |
| GmailThread.PaddedIsBase64 | pages/api/google/gmail/thread.ts:81-84 | the normalised and padded body is well-formed base64 |
| GmailThread.ProcessPart | pages/api/google/gmail/thread.ts:93-105 | the recursive walk appends the part's text to the body |
| GmailThread.Leaves | pages/api/google/gmail/thread.ts:95-101 | the data the walk reads is non-empty |
| GmailThread.DecodeAll | pages/api/google/gmail/thread.ts:96 | each datum is decoded on its own |
| GmailThread.PartTextIsLeaves | pages/api/google/gmail/thread.ts:93-105 | the body is the decoded data of the parts with data, depth-first in document order, children of such parts skipped |
| GmailThread.PartsTextIsLeaves | pages/api/google/gmail/thread.ts:98-100 | the children are visited in order |
| GmailThread.Placeholder | pages/api/google/gmail/thread.ts:120-129 | a failed message keeps its id or `unknown`, and its thread id defaults to the requested id |
| GmailThread.ShapeMessage | pages/api/google/gmail/thread.ts:66-131 | every shaped body is non-empty and trimmed |
| GmailThread.ShapeWellFormed | pages/api/google/gmail/thread.ts:69-119 | a message keeps its ids; Subject, From and Date are the values of the first header whose lower-cased name matches, with `(no subject)` for a missing or empty subject and `""` for a missing from or date; the body is the trimmed walk when non-blank |
| GmailThread.ShapeAll | pages/api/google/gmail/thread.ts:66-131 | one result per message, in order |
| GmailThread.CodeOr500 | pages/api/google/gmail/thread.ts:234 | the code is the error's code when truthy and otherwise 500 |
| GmailThread.FetchThread | pages/api/google/gmail/thread.ts:44-236 | the fetch answers 200 or 500, and a 500 carries a non-zero code |
| GmailThread.Handle | pages/api/google/gmail/thread.ts:5-251 | non-GET gives 405, then no token 401, then a bad id 400, then missing credentials 500; a 200 passed every check |
| GmailThread.DirectThread | pages/api/google/gmail/thread.ts:55-134 | a thread found by the id is returned shaped |
| GmailThread.FallbackThread | pages/api/google/gmail/thread.ts:135-221 | otherwise the id is taken as a message id and that message's thread is returned |
| GmailThread.MessageWithoutThread | pages/api/google/gmail/thread.ts:145-235 | a message with no thread id ends in the 500 error response |
| GmailThread.SuccessIsAThread | pages/api/google/gmail/thread.ts:134-221 | every 200 answer is a thread found directly or through the message |
| Chat.SetLastAssistant | components/OpenAIChat.tsx:294-317 | only the last message changes, only when it is the assistant's, and then shows the text |
| Chat.SetLastTwice | components/OpenAIChat.tsx:294-301 | a later update of the last message overrides an earlier one |
| Chat.DataLineNotBlank | components/OpenAIChat.tsx:278 | a `data: ` line is never blank |
| Chat.LineDeltaIff | components/OpenAIChat.tsx:277-305 | a line adds text exactly when it is a `data: ` line whose trimmed payload is not `[DONE]` and parses to a `content_block_delta` with text, and adds that text |
| Chat.Deltas | components/OpenAIChat.tsx:290-291 | every delta appended is non-empty |
| Chat.LinesTextIsDeltas | components/OpenAIChat.tsx:277-306 | a chunk's text is its deltas concatenated |
| Chat.LinesTextAppend | components/OpenAIChat.tsx:277-306 | the lines contribute independently, in order |
| Chat.ChunksTextIsLines | components/OpenAIChat.tsx:266-307 | the fold over chunks is the fold over the lines of each chunk's own split, in order, with no line carried across chunks |
| Chat.StreamTextIsDeltas | components/OpenAIChat.tsx:264-301 | the accumulated text is the delta texts concatenated in arrival order |
| Chat.SkippedLine | components/OpenAIChat.tsx:278-284 | a line that adds nothing is passed over and the read goes on |
| Chat.DoneDoesNotStop | components/OpenAIChat.tsx:281-284 | `[DONE]` does not end the read loop |
| Chat.UnparseableSkipped | components/OpenAIChat.tsx:303-305 | an unparseable payload is skipped and the read goes on |
| Chat.WholeLineRead | components/OpenAIChat.tsx:278-291 | a whole `data: x` line adds `x` |
| Chat.CutLineLost | components/OpenAIChat.tsx:278 | the two halves of that line add nothing |
| Chat.LinesOne | components/OpenAIChat.tsx:277 | one line adds its own delta |
| Chat.ChunksTwo | components/OpenAIChat.tsx:273-277 | each chunk is split on its own |
| Chat.NoReassembly | components/OpenAIChat.tsx:273-275 | an example: a line cut across two chunks is lost, where in one chunk it is read (the general fact is Chat.ChunksTextIsLines) |
| Chat.SplitNoSeparator | components/OpenAIChat.tsx:275 | a chunk without a newline is one line |
| Chat.ThreadSectionStep | components/OpenAIChat.tsx:191-199 | each reference adds its text after those before it |
| Chat.EntriesStep | components/OpenAIChat.tsx:211-214 | each recent email adds its entry after those before it |
| Chat.RequestedThreads | components/OpenAIChat.tsx:191-199 | the loop adds, in order, the formatted thread of each reference that parses and is found |
| Chat.ThreadText | components/OpenAIChat.tsx:192-198 | one reference gives its formatted thread, or nothing |
| Chat.RecentContext | components/OpenAIChat.tsx:204-216 | header, the ten newest entries, and the total count |
| Chat.BuildEmailContext | components/OpenAIChat.tsx:183-218 | nothing unless the text asks about email; the requested threads when it names any; otherwise the recent emails if there are any |
| Chat.RecentSelection | components/OpenAIChat.tsx:206-211 | at most ten emails, newest first, drawn from the store, none left out newer than one shown |
| Chat.NewestOrdered | components/OpenAIChat.tsx:206-208 | the listed emails are newest first |
| Chat.NewestAreNewest | components/OpenAIChat.tsx:206-211 | the listed emails come from the store and none left out is newer |
| Chat.HeadersDiffer | components/OpenAIChat.tsx:190-204 | the thread section never starts with the recent-emails header |
| Chat.NoReferencesIff | components/OpenAIChat.tsx:189-203 | no reference is extracted exactly when there is no candidate |
| Chat.RecentOnlyWithoutReferences | components/OpenAIChat.tsx:184-217 | recent emails are sent exactly when the text asks about email, names no reference and the store has emails, and are then the whole context |
| Chat.SendAppendsPair | components/OpenAIChat.tsx:170-177 | with a thread, the history is kept and the user message then an assistant message are appended |
| Chat.StreamedAnswer | components/OpenAIChat.tsx:264-307 | a reply read to its end leaves the concatenated deltas in the appended assistant message |
| Chat.FailedReplyShowsError | components/OpenAIChat.tsx:253-317 | a failing reply leaves the error text in the appended assistant message |
| Chat.NoThreadReusesLastAnswer | components/OpenAIChat.tsx:164-317 | without a thread nothing is appended and the error text goes to the previous assistant message |
| Chat.ChatSession.constructor | components/OpenAIChat.tsx:155 | the session holds the given input, history, assistant, thread and emails, not loading |
| Chat.ChatSession.ReadStream | components/OpenAIChat.tsx:262-307 | the accumulated text is the chunk fold, and the last assistant message shows it |
| Chat.ChatSession.ReadChunk | components/OpenAIChat.tsx:273-306 | a chunk adds its lines' deltas, and the messages show the new total |
| Chat.ChatSession.LineText | components/OpenAIChat.tsx:277-305 | the loop body yields the line's delta |
| Chat.ChatSession.Exchange | components/OpenAIChat.tsx:170-317 | the pair is appended, then the reply is streamed or the error text shown |
| Chat.ChatSession.HandleSend | components/OpenAIChat.tsx:155-321 | a blank input or no assistant changes nothing; otherwise the input is cleared, loading ends, the thread is kept or created, the messages are those of the send, and the request carries the email context |

## Left out

- `electron/main.ts`, the React rendering, the settings page, the header and layout
  components: process I/O and UI.
- `pages/api/google/gmail/messages.ts`, `draft.ts`, `calendar.ts`, `status.ts`, the
  OpenAI `assistants` and `threads` routes, and the server-side relay
  `pages/api/openai/threads/[threadId]/messages.ts`: these are thin wrappers over
  client libraries that are not visible here. Their answers are scripted inputs.
- Real waiting, `Date.now()`, `new Date(...)`, `toLocaleString`, `JSON.parse`,
  `Buffer` base64 decoding and `TextDecoder`: these are inputs (a `Sleep` event,
  `now`, `dateKey`, `locale`, `parse`, `decode`, chunks that arrive already decoded).
- Concurrency: `Promise.all` over messages is a sequential, order-preserving map,
  and overlapping calls to the service are not modelled.
- Logging to the console.
- The calendar context of `handleSend` (components/OpenAIChat.tsx:221-240), which
  depends on calendar state outside the email core.
- Chat.ChatSession.HandleSend: the thread lookups it makes through
  `fetchEmailThread` are the function `threadFor`. The changes those lookups make
  to the service's state between calls are not modelled; `fetchEmailThread`
  itself is modelled in full by EmailService.EmailService.FetchEmailThread.
- Chat.ChatSession.HandleSend: React's batched state updates are applied in
  order as value replacements. The in-place mutation of `lastMessage.content`,
  which also alters the previous state array, is not modelled as aliasing.
- Chat.ChatSession.HandleSend: a `createThread` answer without an `id` counts as
  no thread, as it does in the `if (!threadId)` check.
- A `delta.text` that is truthy but not a string: the parsed event carries the
  text as a string.
- Invalid dates (`NaN` from `getTime`): `dateKey` gives every date an integer.
- The key order of the store object: keys are kept in insertion order, which is the property order
  JavaScript objects use except for integer-like keys. Gmail thread ids are
  hexadecimal strings, so the integer-like exception is not modelled.
- EmailService.EmailService.SyncEmails: a thread id named after an inherited
  member of `Object.prototype` makes the grouping `push` throw, and the store is
  restored. This is modelled. The same ids in `fetchEmailThread`'s lookups, and
  `"__proto__"` as a key, are not modelled.
- EmailService.EmailService.SyncEmails: `null` entries in the message list, which
  make the validation filter throw, are not modelled.
- EmailService.EmailService.SyncEmails: `lastSyncTime` is set to the same `now`
  the freshness check reads; the few milliseconds a sync takes are not modelled.
- EmailService.EmailService.Status: `lastSyncError` is reported as the error
  value, not as its message string.
- Text.Lower: only ASCII letters are lower-cased. No keyword of `isEmailRequest`
  can be formed by lower-casing a non-ASCII character, so the test gives the same
  answer. The same holds for the header-name match of the thread endpoint
  (GmailThread.NameIs): no non-ASCII character lower-cases into a letter of
  "subject", "from" or "date" alone, so the lookup finds the same header.
- Stability of the sorts: the sort is stable, as `Array.prototype.sort` is, but
  stability is not stated as a lemma.
