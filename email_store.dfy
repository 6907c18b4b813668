/**
 * The in-memory email store as a value: the JavaScript object from thread id to
 * that thread's messages, with its keys in insertion order, the grouping that
 * `syncEmails` performs, the flattening `Object.values(store).flat()`, and the
 * summary returned by `getEmailStoreStatus`.
 */
module EmailStore {
  import opened Wrappers
  import opened Sorting
  import Retry
  import opened Seqs

  /** `EmailMessage`; `""` stands for a missing `id` or `threadId`. */
  datatype EmailMessage = EmailMessage(
    id: string, threadId: string, subject: string, from: string, date: string,
    body: Option<string>, snippet: string, isFullyLoaded: bool)

  /** The body of a reply listing messages: not JSON, JSON whose `messages` is not an
      array, or the array. */
  datatype ListPayload = BadJson | NotAnArray | Items(messages: seq<EmailMessage>)

  /** Why a sync failed; it is kept as `lastSyncError`. */
  datatype SyncError =
    | FetchFailed(cause: Retry.FetchError)
    | HttpError(status: int)
    | InvalidJson
    | InvalidFormat
    | MissingFields(count: nat)
    | RebuildFailed

  /** The store object: its own keys in insertion order, and the value of each key. */
  datatype Store = Store(order: seq<string>, threads: map<string, seq<EmailMessage>>)

  const Empty := Store([], map[])

  predicate Distinct(ks: seq<string>) {
    forall i, j :: 0 <= i < j < |ks| ==> ks[i] != ks[j]
  }

  /** The key list and the map describe the same keys, each once. */
  predicate WellFormed(st: Store) {
    && Distinct(st.order)
    && (forall t :: t in st.threads ==> t in st.order)
    && (forall i :: 0 <= i < |st.order| ==> st.order[i] in st.threads)
  }

  /** The names of the members of `Object.prototype`, which a plain object literal
      inherits: `{}[k]` is truthy for each of them and is not an array. */
  const InheritedKeys: set<string> := {
    "constructor", "__defineGetter__", "__defineSetter__", "hasOwnProperty",
    "__lookupGetter__", "__lookupSetter__", "isPrototypeOf", "propertyIsEnumerable",
    "toString", "valueOf", "__proto__", "toLocaleString"
  }

  /** `{}[t]` is an inherited member rather than a missing key. */
  predicate IsInherited(t: string) {
    t in InheritedKeys
  }

  /** One step of the grouping `forEach`: create the thread's list when the key is
      new, then push the message onto it. */
  function Put(st: Store, m: EmailMessage): (r: Store)
    requires WellFormed(st)
    ensures WellFormed(r)
  {
    var t := m.threadId;
    if t in st.threads then Store(st.order, st.threads[t := st.threads[t] + [m]])
    else
      assert forall i :: 0 <= i < |st.order| ==> st.order[i] != t;
      Store(st.order + [t], st.threads[t := [m]])
  }

  /** `store[t] = v`: replaces the list of an existing key, or adds a new last key. */
  function StoreSet(st: Store, t: string, v: seq<EmailMessage>): (r: Store)
    requires WellFormed(st)
    ensures WellFormed(r)
    ensures r.threads == st.threads[t := v]
    ensures t in st.threads ==> r.order == st.order
  {
    if t in st.threads then Store(st.order, st.threads[t := v])
    else
      assert forall i :: 0 <= i < |st.order| ==> st.order[i] != t;
      Store(st.order + [t], st.threads[t := v])
  }

  /** The store rebuilt from an empty object by the grouping loop. */
  function Group(ms: seq<EmailMessage>): (r: Store)
    ensures WellFormed(r)
  {
    if ms == [] then Empty else Put(Group(ms[..|ms| - 1]), ms[|ms| - 1])
  }

  /** One more pass of the grouping loop. */
  lemma GroupStep(ms: seq<EmailMessage>, i: nat)
    requires i < |ms|
    ensures Group(ms[..i + 1]) == Put(Group(ms[..i]), ms[i])
  {
    PrefixStep(ms, i);
  }

  /** The messages of `ms` that belong to thread `t`, in input order. */
  function OfThread(ms: seq<EmailMessage>, t: string): (r: seq<EmailMessage>)
    ensures forall k :: 0 <= k < |r| ==> r[k].threadId == t
  {
    if ms == [] then []
    else OfThread(ms[..|ms| - 1], t) + (if ms[|ms| - 1].threadId == t then [ms[|ms| - 1]] else [])
  }

  predicate HasThread(ms: seq<EmailMessage>, t: string) {
    exists k :: 0 <= k < |ms| && ms[k].threadId == t
  }

  /** After grouping, the keys are exactly the thread ids of the input and each holds
      that thread's messages in input order. */
  lemma {:induction false} GroupContents(ms: seq<EmailMessage>, t: string)
    ensures t in Group(ms).threads <==> HasThread(ms, t)
    ensures t in Group(ms).threads ==> Group(ms).threads[t] == OfThread(ms, t)
  {
    if ms != [] {
      var init, m := ms[..|ms| - 1], ms[|ms| - 1];
      GroupContents(init, t);
      if HasThread(init, t) {
        var k :| 0 <= k < |init| && init[k].threadId == t;
        assert ms[k].threadId == t;
      }
      if HasThread(ms, t) && m.threadId != t {
        var k :| 0 <= k < |ms| && ms[k].threadId == t;
        assert init[k].threadId == t;
      }
      if t in Group(ms).threads && t !in Group(init).threads {
        assert m.threadId == t;
        NoThreadNoMessages(init, t);
      }
    }
  }

  lemma {:induction false} NoThreadNoMessages(ms: seq<EmailMessage>, t: string)
    requires !HasThread(ms, t)
    ensures OfThread(ms, t) == []
  {
    if ms != [] {
      var init := ms[..|ms| - 1];
      forall k | 0 <= k < |init| ensures init[k].threadId != t {
        assert init[k] == ms[k];
      }
      NoThreadNoMessages(init, t);
    }
  }

  /** `Object.values(store).flat()`: the threads' lists in key order. */
  function Flatten(order: seq<string>, threads: map<string, seq<EmailMessage>>): seq<EmailMessage> {
    if order == [] then []
    else
      var t := order[|order| - 1];
      Flatten(order[..|order| - 1], threads) + (if t in threads then threads[t] else [])
  }

  function AllMessages(st: Store): seq<EmailMessage> {
    Flatten(st.order, st.threads)
  }

  lemma {:induction false} FlattenOtherKey(order: seq<string>, threads: map<string, seq<EmailMessage>>, t: string, v: seq<EmailMessage>)
    requires t !in order
    ensures Flatten(order, threads[t := v]) == Flatten(order, threads)
  {
    if order != [] {
      FlattenOtherKey(order[..|order| - 1], threads, t, v);
    }
  }

  lemma {:induction false} FlattenPush(order: seq<string>, threads: map<string, seq<EmailMessage>>, t: string, m: EmailMessage)
    requires Distinct(order) && t in order && t in threads
    ensures multiset(Flatten(order, threads[t := threads[t] + [m]])) == multiset(Flatten(order, threads)) + multiset{m}
  {
    var init, last := order[..|order| - 1], order[|order| - 1];
    var th := threads[t := threads[t] + [m]];
    if last == t {
      assert t !in init;
      FlattenOtherKey(init, threads, t, threads[t] + [m]);
    } else {
      assert Distinct(init);
      assert t in init;
      FlattenPush(init, threads, t, m);
    }
  }

  lemma PutAddsOne(st: Store, m: EmailMessage)
    requires WellFormed(st)
    ensures multiset(AllMessages(Put(st, m))) == multiset(AllMessages(st)) + multiset{m}
  {
    var t := m.threadId;
    if t in st.threads {
      FlattenPush(st.order, st.threads, t, m);
    } else {
      FlattenOtherKey(st.order, st.threads, t, [m]);
      assert (st.order + [t])[..|st.order|] == st.order;
    }
  }

  /** Grouping neither loses nor duplicates a message. */
  lemma {:induction false} GroupPermutes(ms: seq<EmailMessage>)
    ensures multiset(AllMessages(Group(ms))) == multiset(ms)
  {
    if ms != [] {
      var init, m := ms[..|ms| - 1], ms[|ms| - 1];
      assert Group(ms) == Put(Group(init), m);
      GroupPermutes(init);
      PutAddsOne(Group(init), m);
      MultisetSnoc(ms);
    }
  }

  /** The total message count of the grouped store equals the input length. */
  lemma GroupKeepsCount(ms: seq<EmailMessage>)
    ensures |AllMessages(Group(ms))| == |ms|
  {
    GroupPermutes(ms);
    assert |multiset(AllMessages(Group(ms)))| == |multiset(ms)|;
  }

  // ---------------------------------------------------------------------------
  // getEmailStoreStatus

  datatype StoreStatus = StoreStatus(
    threadCount: nat, messageCount: nat, lastSyncTime: Option<int>, isSyncing: bool,
    lastSyncError: Option<SyncError>, hasData: bool,
    newestEmail: Option<string>, oldestEmail: Option<string>,
    allEmails: seq<EmailMessage>)

  /** The sort key of `getEmailStoreStatus`: newer dates first. */
  function NewestFirstKey(dateKey: string -> int): EmailMessage -> int {
    (m: EmailMessage) => -dateKey(m.date)
  }

  /** `e?.date ? toLocaleString(e.date) : null` for the first or last sorted message. */
  function ShownDate(sorted: seq<EmailMessage>, first: bool, locale: string -> string): Option<string> {
    if sorted == [] then None
    else
      var e := if first then sorted[0] else sorted[|sorted| - 1];
      if e.date != "" then Some(locale(e.date)) else None
  }

  /** The summary of the store.  `dateKey` is `new Date(date).getTime()`, `locale` is
      `new Date(date).toLocaleString()`. */
  function Summarize(st: Store, lastSyncTime: Option<int>, isSyncing: bool, lastSyncError: Option<SyncError>,
                     dateKey: string -> int, locale: string -> string): (r: StoreStatus)
    requires WellFormed(st)
    ensures r.threadCount == |st.threads|
    ensures r.hasData <==> |st.threads| > 0
    ensures r.messageCount == |r.allEmails|
    ensures multiset(r.allEmails) == multiset(AllMessages(st))
    ensures forall i, j :: 0 <= i < j < |r.allEmails| ==> dateKey(r.allEmails[i].date) >= dateKey(r.allEmails[j].date)
  {
    var all := AllMessages(st);
    var sorted := SortByKey(all, NewestFirstKey(dateKey));
    SortSorted(all, NewestFirstKey(dateKey));
    KeysCountOrder(st);
    StoreStatus(
      |st.order|, |all|, lastSyncTime, isSyncing,
      lastSyncError,
      |st.order| > 0,
      ShownDate(sorted, true, locale), ShownDate(sorted, false, locale),
      sorted)
  }

  lemma KeysCountOrder(st: Store)
    requires WellFormed(st)
    ensures |st.threads| == |st.order|
  {
    DistinctCard(st.order);
    assert st.threads.Keys == set t | t in st.order;
  }

  lemma {:induction false} DistinctCard(ks: seq<string>)
    requires Distinct(ks)
    ensures |set t | t in ks| == |ks|
  {
    if ks != [] {
      var init := ks[..|ks| - 1];
      DistinctCard(init);
      assert (set t | t in ks) == (set t | t in init) + {ks[|ks| - 1]};
    }
  }

  /** The status counts for a freshly grouped store. */
  lemma StatusOfGroup(ms: seq<EmailMessage>, dateKey: string -> int, locale: string -> string,
                      lastSyncTime: Option<int>)
    ensures var r := Summarize(Group(ms), lastSyncTime, false, None, dateKey, locale);
      r.messageCount == |ms| && multiset(r.allEmails) == multiset(ms) && (r.hasData <==> ms != [])
  {
    GroupPermutes(ms);
    GroupKeepsCount(ms);
    if ms != [] {
      GroupContents(ms, ms[0].threadId);
    }
  }
}
