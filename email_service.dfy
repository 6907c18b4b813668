/**
 * The email service: the module-level store with its sync bookkeeping
 * (`lastSyncTime`, `isSyncing`, `lastSyncError`), `syncEmails`, `fetchSingleThread`,
 * the thread resolver `fetchEmailThread`, `createEmailDraft` and
 * `formatEmailThread`.
 *
 * Every endpoint is a scripted `Server` (see module Retry) and the clock is the
 * integer `now` in milliseconds.
 */
module EmailService {
  import opened Wrappers
  import opened Text
  import opened Retry
  import opened Sorting
  import opened EmailStore
  import opened Seqs

  /** The default `retries` of `fetchWithRetry`. */
  const Retries := 3

  /** Five minutes, in milliseconds. */
  const FreshnessMs := 5 * 60 * 1000

  datatype State = State(store: Store, lastSyncTime: Option<int>, isSyncing: bool, lastSyncError: Option<SyncError>)

  // ---------------------------------------------------------------------------
  // syncEmails, as a function of the state before it

  datatype SyncRun = SyncRun(state: State, result: Result<(), SyncError>, events: seq<Event>)

  /** A message the validation step rejects: no `id` or no `threadId`. */
  predicate MissingIds(m: EmailMessage) {
    m.id == "" || m.threadId == ""
  }

  function CountMissing(ms: seq<EmailMessage>): (n: nat)
    ensures n == 0 <==> forall k :: 0 <= k < |ms| ==> !MissingIds(ms[k])
  {
    if ms == [] then 0 else CountMissing(ms[..|ms| - 1]) + (if MissingIds(ms[|ms| - 1]) then 1 else 0)
  }

  /** Some message names a thread id on which the grouping `push` throws. */
  predicate HasInheritedKey(ms: seq<EmailMessage>) {
    exists k :: 0 <= k < |ms| && IsInherited(ms[k].threadId)
  }

  lemma InheritedStep(ms: seq<EmailMessage>, i: nat)
    requires i < |ms|
    ensures HasInheritedKey(ms[..i + 1]) <==> HasInheritedKey(ms[..i]) || IsInherited(ms[i].threadId)
  {
    if HasInheritedKey(ms[..i + 1]) && !IsInherited(ms[i].threadId) {
      var k :| 0 <= k < i + 1 && IsInherited(ms[..i + 1][k].threadId);
      assert ms[..i][k] == ms[k];
    }
    if HasInheritedKey(ms[..i]) {
      var k :| 0 <= k < i && IsInherited(ms[..i][k].threadId);
      assert ms[..i + 1][k] == ms[k];
    }
    if IsInherited(ms[i].threadId) {
      assert ms[..i + 1][i] == ms[i];
    }
  }

  /** The last sync happened less than five minutes before `now`. */
  predicate RecentSync(st: State, now: int) {
    st.lastSyncTime.Some? && now - st.lastSyncTime.value < FreshnessMs
  }

  /** The two early returns of `syncEmails`. */
  predicate SkipsSync(st: State, force: bool, now: int) {
    st.isSyncing || (!force && RecentSync(st, now) && |st.store.order| > 0)
  }

  /** The `catch` and `finally` of a sync that failed with `e`. */
  function SyncFailed(st: State, e: SyncError, events: seq<Event>): SyncRun {
    SyncRun(State(st.store, st.lastSyncTime, false, Some(e)), Failure(e), events)
  }

  function SyncSpec(st: State, force: bool, now: int, server: Server<ListPayload>): SyncRun
    requires WellFormed(st.store)
  {
    if SkipsSync(st, force, now) then SyncRun(st, Success(()), [])
    else
      var run := Attempts(server, Retries, 0);
      match run.outcome
      case Threw(e) => SyncFailed(st, FetchFailed(e), run.events)
      case Returned(status, payload) =>
        if !IsOk(status) then SyncFailed(st, HttpError(status), run.events)
        else match payload
          case BadJson => SyncFailed(st, InvalidJson, run.events)
          case NotAnArray => SyncFailed(st, InvalidFormat, run.events)
          case Items(ms) =>
            if ms == [] then SyncRun(State(st.store, st.lastSyncTime, false, None), Success(()), run.events)
            else if CountMissing(ms) > 0 then SyncFailed(st, MissingFields(CountMissing(ms)), run.events)
            else if HasInheritedKey(ms) then SyncFailed(st, RebuildFailed, run.events)
            else SyncRun(State(Group(ms), Some(now), false, None), Success(()), run.events)
  }

  /** A skipped sync makes no request and changes nothing. */
  lemma SyncSkipped(st: State, force: bool, now: int, server: Server<ListPayload>)
    requires WellFormed(st.store) && SkipsSync(st, force, now)
    ensures SyncSpec(st, force, now, server) == SyncRun(st, Success(()), [])
  {
  }

  /** A sync that ran releases the flag; a failed one leaves the store and the sync
      time as they were and records its error. */
  lemma SyncFlagAndFailure(st: State, force: bool, now: int, server: Server<ListPayload>)
    requires WellFormed(st.store) && !SkipsSync(st, force, now)
    ensures var r := SyncSpec(st, force, now, server);
      && !r.state.isSyncing
      && (r.result.Failure? ==>
            r.state.store == st.store && r.state.lastSyncTime == st.lastSyncTime
            && r.state.lastSyncError == Some(r.result.error))
      && (r.result.Success? ==> r.state.lastSyncError.None?)
  {
  }

  /** An empty list ends the sync successfully with the store and the sync time as
      they were. */
  lemma SyncEmptyList(st: State, force: bool, now: int, server: Server<ListPayload>, status: int)
    requires WellFormed(st.store) && !SkipsSync(st, force, now) && IsOk(status)
    requires Attempts(server, Retries, 0).outcome == Returned(status, Items([]))
    ensures SyncSpec(st, force, now, server)
      == SyncRun(State(st.store, st.lastSyncTime, false, None), Success(()), Attempts(server, Retries, 0).events)
  {
  }

  /** Only a non-empty, valid list changes the store; it then holds exactly the
      input's threads, each with its messages in input order, and `lastSyncTime` is
      `now`.  A rebuild that throws restores the previous store. */
  lemma SyncRebuild(st: State, force: bool, now: int, server: Server<ListPayload>, t: string)
    requires WellFormed(st.store) && !SkipsSync(st, force, now)
    ensures var r := SyncSpec(st, force, now, server);
      r.state.store != st.store ==>
        var o := Attempts(server, Retries, 0).outcome;
        && o.Returned? && IsOk(o.status) && o.payload.Items?
        && o.payload.messages != [] && CountMissing(o.payload.messages) == 0 && !HasInheritedKey(o.payload.messages)
        && r.result.Success? && r.state.lastSyncTime == Some(now)
        && (t in r.state.store.threads <==> HasThread(o.payload.messages, t))
        && (t in r.state.store.threads ==> r.state.store.threads[t] == OfThread(o.payload.messages, t))
        && |AllMessages(r.state.store)| == |o.payload.messages|
  {
    var r := SyncSpec(st, force, now, server);
    var run := Attempts(server, Retries, 0);
    var o := run.outcome;
    if r.state.store != st.store {
      assert o.Returned? && IsOk(o.status) && o.payload.Items?;
      var ms := o.payload.messages;
      assert ms != [] && CountMissing(ms) == 0 && !HasInheritedKey(ms);
      assert r == SyncRun(State(Group(ms), Some(now), false, None), Success(()), run.events);
      GroupContents(ms, t);
      GroupKeepsCount(ms);
    }
  }

  /** A non-empty list of valid messages whose thread ids are all plain keys ends the
      sync successfully: the store is rebuilt from the list, holding exactly its
      threads, each with its messages in input order, and `lastSyncTime` is `now`. */
  lemma SyncSucceeds(st: State, force: bool, now: int, server: Server<ListPayload>, t: string)
    requires WellFormed(st.store) && !SkipsSync(st, force, now)
    requires var o := Attempts(server, Retries, 0).outcome;
      && o.Returned? && IsOk(o.status) && o.payload.Items?
      && o.payload.messages != [] && CountMissing(o.payload.messages) == 0
      && !HasInheritedKey(o.payload.messages)
    ensures var r := SyncSpec(st, force, now, server);
      var ms := Attempts(server, Retries, 0).outcome.payload.messages;
      && r.result.Success? && r.state.lastSyncTime == Some(now) && !r.state.isSyncing
      && r.state.store == Group(ms)
      && (t in r.state.store.threads <==> HasThread(ms, t))
      && (t in r.state.store.threads ==> r.state.store.threads[t] == OfThread(ms, t))
      && multiset(AllMessages(r.state.store)) == multiset(ms)
  {
    var ms := Attempts(server, Retries, 0).outcome.payload.messages;
    GroupContents(ms, t);
    GroupPermutes(ms);
  }

  // ---------------------------------------------------------------------------
  // fetchSingleThread and createEmailDraft

  /** The thread a `fetchSingleThread` outcome yields, or `null`. */
  function SingleThread(o: Outcome<ListPayload>): (r: Option<seq<EmailMessage>>)
    ensures r.Some? <==> o.Returned? && IsOk(o.status) && o.payload.Items?
    ensures r.Some? ==> r.value == o.payload.messages
  {
    if o.Returned? && IsOk(o.status) && o.payload.Items? then Some(o.payload.messages) else None
  }

  method FetchSingleThread(server: Server<ListPayload>) returns (r: Option<seq<EmailMessage>>, events: seq<Event>)
    ensures r == SingleThread(Attempts(server, Retries, 0).outcome)
    ensures events == Attempts(server, Retries, 0).events
  {
    var out;
    out, events := FetchWithRetry(server, Retries);
    if out.Threw? || !IsOk(out.status) {
      return None, events;
    }
    match out.payload
    case Items(ms) => r := Some(ms);
    case _ => r := None;
  }

  /** The body of a draft reply: not JSON, or JSON with a `success` flag. */
  datatype DraftPayload = DraftBadJson | DraftReply(success: bool)

  method CreateEmailDraft(server: Server<DraftPayload>) returns (ok: bool, events: seq<Event>)
    ensures ok <==> var o := Attempts(server, Retries, 0).outcome;
      o.Returned? && IsOk(o.status) && o.payload == DraftReply(true)
    ensures events == Attempts(server, Retries, 0).events
  {
    var out;
    out, events := FetchWithRetry(server, Retries);
    if out.Threw? || !IsOk(out.status) {
      return false, events;
    }
    ok := out.payload.DraftReply? && out.payload.success;
  }

  // ---------------------------------------------------------------------------
  // fetchEmailThread, as a function of the state before it

  datatype ThreadRun = ThreadRun(state: State, result: Option<seq<EmailMessage>>, events: seq<Event>)

  predicate NeedsFullContent(ms: seq<EmailMessage>) {
    exists k :: 0 <= k < |ms| && !ms[k].isFullyLoaded
  }

  /** The store is empty, never synced, or synced more than five minutes ago. */
  predicate Stale(st: State, now: int) {
    |st.store.order| == 0 || st.lastSyncTime.None? || now - st.lastSyncTime.value > FreshnessMs
  }

  function WithThread(st: State, t: string, ms: seq<EmailMessage>): State
    requires WellFormed(st.store)
  {
    st.(store := StoreSet(st.store, t, ms))
  }

  /** The last step: fetch the thread directly and store it under `t`. */
  function DirectSpec(st: State, t: string, direct: Server<ListPayload>, events: seq<Event>): ThreadRun
    requires WellFormed(st.store)
  {
    var run := Attempts(direct, Retries, 0);
    var r := SingleThread(run.outcome);
    if r.Some? then ThreadRun(WithThread(st, t, r.value), r, events + run.events)
    else ThreadRun(st, None, events + run.events)
  }

  /** What follows when the cache did not answer: a forced sync if the store is
      stale (its failure ends in `null`), a second look, then the direct fetch. */
  function AfterCacheSpec(st: State, t: string, now: int, sync: Server<ListPayload>,
                          direct: Server<ListPayload>, events: seq<Event>): ThreadRun
    requires WellFormed(st.store)
  {
    if Stale(st, now) then
      var s := SyncSpec(st, true, now, sync);
      if s.result.Failure? then ThreadRun(s.state, None, events + s.events)
      else if t in s.state.store.threads then ThreadRun(s.state, Some(s.state.store.threads[t]), events + s.events)
      else
        assert WellFormed(s.state.store);
        DirectSpec(s.state, t, direct, events + s.events)
    else DirectSpec(st, t, direct, events)
  }

  function ResolveSpec(st: State, t: string, now: int, refetch: Server<ListPayload>,
                       sync: Server<ListPayload>, direct: Server<ListPayload>): ThreadRun
    requires WellFormed(st.store)
  {
    if t in st.store.threads && !NeedsFullContent(st.store.threads[t]) then
      ThreadRun(st, Some(st.store.threads[t]), [])
    else if t in st.store.threads then
      var run := Attempts(refetch, Retries, 0);
      var full := SingleThread(run.outcome);
      if full.Some? then ThreadRun(WithThread(st, t, full.value), full, run.events)
      else AfterCacheSpec(st, t, now, sync, direct, run.events)
    else AfterCacheSpec(st, t, now, sync, direct, [])
  }

  /** A cached thread whose messages are all fully loaded is returned with no request. */
  lemma FullyLoadedHit(st: State, t: string, now: int, refetch: Server<ListPayload>,
                       sync: Server<ListPayload>, direct: Server<ListPayload>)
    requires WellFormed(st.store) && t in st.store.threads
    requires forall k :: 0 <= k < |st.store.threads[t]| ==> st.store.threads[t][k].isFullyLoaded
    ensures ResolveSpec(st, t, now, refetch, sync, direct) == ThreadRun(st, Some(st.store.threads[t]), [])
  {
  }

  /** A thread the resolver returns is the one the store then holds under `t`. */
  lemma ResultIsStored(st: State, t: string, now: int, refetch: Server<ListPayload>,
                       sync: Server<ListPayload>, direct: Server<ListPayload>)
    requires WellFormed(st.store)
    ensures var r := ResolveSpec(st, t, now, refetch, sync, direct);
      && WellFormed(r.state.store)
      && (r.result.Some? ==> t in r.state.store.threads && r.state.store.threads[t] == r.result.value)
  {
    var run := Attempts(refetch, Retries, 0);
    AfterCacheStored(st, t, now, sync, direct, run.events);
    AfterCacheStored(st, t, now, sync, direct, []);
  }

  lemma AfterCacheStored(st: State, t: string, now: int, sync: Server<ListPayload>,
                         direct: Server<ListPayload>, events: seq<Event>)
    requires WellFormed(st.store)
    ensures var r := AfterCacheSpec(st, t, now, sync, direct, events);
      && WellFormed(r.state.store)
      && (r.result.Some? ==> t in r.state.store.threads && r.state.store.threads[t] == r.result.value)
  {
    if Stale(st, now) {
      var s := SyncSpec(st, true, now, sync);
      SyncWellFormed(st, true, now, sync);
      DirectStored(s.state, t, direct, events + s.events);
    } else {
      DirectStored(st, t, direct, events);
    }
  }

  lemma SyncWellFormed(st: State, force: bool, now: int, server: Server<ListPayload>)
    requires WellFormed(st.store)
    ensures WellFormed(SyncSpec(st, force, now, server).state.store)
  {
  }

  lemma DirectStored(st: State, t: string, direct: Server<ListPayload>, events: seq<Event>)
    requires WellFormed(st.store)
    ensures var r := DirectSpec(st, t, direct, events);
      && WellFormed(r.state.store)
      && (r.result.Some? ==> t in r.state.store.threads && r.state.store.threads[t] == r.result.value)
  {
  }

  /** When the refetch of a partly loaded cached thread fails, the cached messages are
      not returned: with a fresh store and a failing direct fetch the answer is `null`. */
  lemma PartialCacheNotReturned(st: State, t: string, now: int, refetch: Server<ListPayload>,
                                sync: Server<ListPayload>, direct: Server<ListPayload>)
    requires WellFormed(st.store) && t in st.store.threads && NeedsFullContent(st.store.threads[t])
    requires SingleThread(Attempts(refetch, Retries, 0).outcome).None? && !Stale(st, now)
    requires SingleThread(Attempts(direct, Retries, 0).outcome).None?
    ensures ResolveSpec(st, t, now, refetch, sync, direct).result.None?
  {
  }

  /** A stale store whose forced sync fails gives `null` and no direct fetch. */
  lemma FailedSyncGivesNull(st: State, t: string, now: int, refetch: Server<ListPayload>,
                            sync: Server<ListPayload>, direct: Server<ListPayload>)
    requires WellFormed(st.store) && t !in st.store.threads && Stale(st, now)
    requires SyncSpec(st, true, now, sync).result.Failure?
    ensures ResolveSpec(st, t, now, refetch, sync, direct)
      == ThreadRun(SyncSpec(st, true, now, sync).state, None, SyncSpec(st, true, now, sync).events)
  {
    assert [] + SyncSpec(st, true, now, sync).events == SyncSpec(st, true, now, sync).events;
  }

  // ---------------------------------------------------------------------------
  // The service state and its operations

  /** The grouping `forEach` run on a fresh object: `None` when a `push` throws
      because a thread id names an inherited member. */
  method GroupMessages(ms: seq<EmailMessage>) returns (r: Option<Store>)
    ensures r.None? <==> HasInheritedKey(ms)
    ensures r.Some? ==> r.value == Group(ms)
  {
    var built := Empty;
    var i := 0;
    while i < |ms|
      invariant i <= |ms| && built == Group(ms[..i])
      invariant !HasInheritedKey(ms[..i])
    {
      if IsInherited(ms[i].threadId) {
        return None;
      }
      GroupStep(ms, i);
      InheritedStep(ms, i);
      built := Put(built, ms[i]);
      i := i + 1;
    }
    TakeAll(ms);
    r := Some(built);
  }

  class EmailService {
    var store: Store
    var lastSyncTime: Option<int>
    var isSyncing: bool
    var lastSyncError: Option<SyncError>

    function Snapshot(): State
      reads this
    {
      State(store, lastSyncTime, isSyncing, lastSyncError)
    }

    predicate Valid()
      reads this
    {
      WellFormed(store)
    }

    /** The module's initial state: an empty store, never synced. */
    constructor ()
      ensures Valid() && Snapshot() == State(Empty, None, false, None)
    {
      store := Empty;
      lastSyncTime := None;
      isSyncing := false;
      lastSyncError := None;
    }

    /** `getEmailStoreStatus`. */
    function Status(dateKey: string -> int, locale: string -> string): (r: StoreStatus)
      reads this
      requires Valid()
      ensures r.threadCount == |store.threads| && (r.hasData <==> |store.threads| > 0)
      ensures r.messageCount == |AllMessages(store)| && multiset(r.allEmails) == multiset(AllMessages(store))
      ensures r.isSyncing == isSyncing && r.lastSyncError == lastSyncError && r.lastSyncTime == lastSyncTime
      ensures forall i, j :: 0 <= i < j < |r.allEmails| ==> dateKey(r.allEmails[i].date) >= dateKey(r.allEmails[j].date)
    {
      Summarize(store, lastSyncTime, isSyncing, lastSyncError, dateKey, locale)
    }

    method SyncEmails(force: bool, now: int, server: Server<ListPayload>) returns (result: Result<(), SyncError>, events: seq<Event>)
      requires Valid()
      modifies this
      ensures Valid()
      ensures SyncRun(Snapshot(), result, events) == SyncSpec(old(Snapshot()), force, now, server)
    {
      if isSyncing {
        return Success(()), [];
      }
      var hasRecentSync := lastSyncTime.Some? && now - lastSyncTime.value < FreshnessMs;
      if !force && hasRecentSync && |store.order| > 0 {
        return Success(()), [];
      }
      isSyncing := true;
      lastSyncError := None;
      var out;
      out, events := FetchWithRetry(server, Retries);
      var error: SyncError;
      if out.Threw? {
        error := FetchFailed(out.error);
      } else if !IsOk(out.status) {
        error := HttpError(out.status);
      } else if out.payload.BadJson? {
        error := InvalidJson;
      } else if out.payload.NotAnArray? {
        error := InvalidFormat;
      } else {
        var ms := out.payload.messages;
        if |ms| == 0 {
          isSyncing := false;
          return Success(()), events;
        }
        var missing := CountMissing(ms);
        if missing > 0 {
          error := MissingFields(missing);
        } else {
          var failed := Rebuild(ms);
          if !failed {
            lastSyncTime := Some(now);
            isSyncing := false;
            return Success(()), events;
          }
          error := RebuildFailed;
        }
      }
      lastSyncError := Some(error);
      isSyncing := false;
      result := Failure(error);
    }

    /** The clearing and the grouping `forEach`; when a `push` throws, the store is
        left as it was before (the source restores its snapshot) and `failed` is set. */
    method Rebuild(ms: seq<EmailMessage>) returns (failed: bool)
      requires Valid()
      modifies this
      ensures Valid()
      ensures failed == HasInheritedKey(ms)
      ensures store == if failed then old(store) else Group(ms)
      ensures lastSyncTime == old(lastSyncTime) && isSyncing == old(isSyncing) && lastSyncError == old(lastSyncError)
    {
      var grouped := GroupMessages(ms);
      if grouped.None? {
        return true;
      }
      store := grouped.value;
      failed := false;
    }

    /** `emailStore[t] = ms`. */
    method SetThread(t: string, ms: seq<EmailMessage>)
      requires Valid()
      modifies this
      ensures Valid() && Snapshot() == WithThread(old(Snapshot()), t, ms)
    {
      store := StoreSet(store, t, ms);
    }

    method FetchEmailThread(t: string, now: int, refetch: Server<ListPayload>,
                            sync: Server<ListPayload>, direct: Server<ListPayload>)
      returns (r: Option<seq<EmailMessage>>, events: seq<Event>)
      requires Valid()
      modifies this
      ensures Valid()
      ensures ThreadRun(Snapshot(), r, events) == ResolveSpec(old(Snapshot()), t, now, refetch, sync, direct)
    {
      events := [];
      if t in store.threads {
        var messages := store.threads[t];
        var needsFullContent := exists k :: 0 <= k < |messages| && !messages[k].isFullyLoaded;
        if needsFullContent {
          var fullThread;
          fullThread, events := FetchSingleThread(refetch);
          if fullThread.Some? {
            SetThread(t, fullThread.value);
            return fullThread, events;
          }
        } else {
          return Some(messages), [];
        }
      }
      ghost var before := Snapshot();
      ghost var eventsBefore := events;
      if |store.order| == 0 || lastSyncTime.None? || now - lastSyncTime.value > FreshnessMs {
        var syncResult, syncEvents := SyncEmails(true, now, sync);
        events := events + syncEvents;
        if syncResult.Failure? {
          return None, events;
        }
        if t in store.threads {
          return Some(store.threads[t]), events;
        }
      }
      ghost var middle := Snapshot();
      var messages, directEvents := FetchSingleThread(direct);
      events := events + directEvents;
      if messages.Some? {
        SetThread(t, messages.value);
        return messages, events;
      }
      r := None;
    }
  }

  // ---------------------------------------------------------------------------
  // formatEmailThread

  /** The comparator `a.date - b.date`: oldest first. */
  function OldestFirstKey(dateKey: string -> int): EmailMessage -> int {
    (m: EmailMessage) => dateKey(m.date)
  }

  function ThreadHeader(): string {
    "\n\nREQUESTED EMAIL THREAD:\n" + Repeat('=', 50) + "\n"
  }

  /** The text for the message numbered `n`; `locale` is `toLocaleString` of a date. */
  function MessageBlock(m: EmailMessage, n: nat, locale: string -> string): string {
    "\nMessage " + NatToString(n) + ":\n"
      + "From: " + m.from + "\n"
      + "Date: " + locale(m.date) + "\n"
      + "Subject: " + m.subject + "\n\n"
      + BodyOrNoContent(if m.body.Some? then m.body.value else "") + "\n"
      + "\n" + Repeat('-', 50) + "\n"
  }

  /** The blocks of `ms`, numbered 1, 2, ... */
  function Blocks(ms: seq<EmailMessage>, locale: string -> string): (r: seq<string>)
    ensures |r| == |ms|
  {
    if ms == [] then [] else Blocks(ms[..|ms| - 1], locale) + [MessageBlock(ms[|ms| - 1], |ms|, locale)]
  }

  lemma BlocksStep(ms: seq<EmailMessage>, i: nat, locale: string -> string)
    requires i < |ms|
    ensures Concat(Blocks(ms[..i + 1], locale)) == Concat(Blocks(ms[..i], locale)) + MessageBlock(ms[i], i + 1, locale)
  {
    PrefixStep(ms, i);
    ConcatSnoc(Blocks(ms[..i], locale), MessageBlock(ms[i], i + 1, locale));
  }

  method FormatEmailThread(messages: seq<EmailMessage>, dateKey: string -> int, locale: string -> string)
    returns (text: string)
    ensures var sorted := SortByKey(messages, OldestFirstKey(dateKey));
      text == ThreadHeader() + Concat(Blocks(sorted, locale))
  {
    text := ThreadHeader();
    var sorted := SortByKey(messages, OldestFirstKey(dateKey));
    for i := 0 to |sorted|
      invariant text == ThreadHeader() + Concat(Blocks(sorted[..i], locale))
    {
      var block := MessageBlock(sorted[i], i + 1, locale);
      BlocksStep(sorted, i, locale);
      AppendAssoc(ThreadHeader(), Concat(Blocks(sorted[..i], locale)), block);
      text := text + block;
    }
    TakeAll(sorted);
  }

  /** The formatted thread shows every message once, oldest first, numbered 1, 2, ...
      with a non-blank body. */
  lemma FormatOrder(messages: seq<EmailMessage>, dateKey: string -> int, locale: string -> string)
    ensures var sorted := SortByKey(messages, OldestFirstKey(dateKey));
      && multiset(sorted) == multiset(messages)
      && (forall i, j :: 0 <= i < j < |sorted| ==> dateKey(sorted[i].date) <= dateKey(sorted[j].date))
      && |Blocks(sorted, locale)| == |messages|
  {
    SortSorted(messages, OldestFirstKey(dateKey));
  }
}
