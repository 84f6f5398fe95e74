/**
 * One invocation of RSS2Telegram: check the settings, take the fetched
 * feed, read the watermark, deliver every new item oldest first, and
 * advance the watermark.
 *
 * Fetching, HTML conversion and delivery are collaborators whose outcomes
 * are parameters: `fetch` is the parsed feed or the fetch error, `convert`
 * the converter, and `sendOk(i)` whether the POST for feed item `i`
 * succeeded. Each delivery is recorded as an `Attempt`.
 */
module Rss2Telegram {
  import opened Wrappers
  import opened Feed
  import opened Message
  import opened Config
  import opened Store

  /** One delivery request: which feed item, the text sent, and whether the POST succeeded. */
  datatype Attempt = Attempt(index: nat, item: Item, text: string, delivered: bool)

  datatype FetchError = FetchError

  datatype Error = ConfigFailed(reason: ConfigError) | FetchFailed(fetch: FetchError) | StoreFailed(store: StoreError)

  /** The items of a sequence of attempts, in order. */
  function ItemsOf(attempts: seq<Attempt>): seq<Item>
  {
    seq(|attempts|, k requires 0 <= k < |attempts| => attempts[k].item)
  }

  /** `a` is the delivery of feed item `a.index`, with its message text and the POST's outcome. */
  predicate IsAttemptOf(a: Attempt, items: seq<Item>, convert: string -> Option<string>, sendOk: nat -> bool)
  {
    a.index < |items| && items[a.index] == a.item
    && a.text == MessageText(a.item, convert) && a.delivered == sendOk(a.index)
  }

  /**
   * The deliveries of a run against watermark `w`: exactly the new items,
   * from the highest index down, each with its text and outcome.
   */
  predicate AttemptsMatch(attempts: seq<Attempt>, items: seq<Item>, w: int,
                          convert: string -> Option<string>, sendOk: nat -> bool)
  {
    ItemsOf(attempts) == Processed(items, w)
    && (forall k :: 0 <= k < |attempts| ==> IsAttemptOf(attempts[k], items, convert, sendOk))
    && (forall k, l :: 0 <= k < l < |attempts| ==> attempts[k].index > attempts[l].index)
  }

  /**
   * The selection loop: walk the feed from the last item to the first,
   * skip items without a publish time or not after the watermark, and for
   * every other item record it as `newPublishedAt` and deliver it. A failed
   * delivery does not stop the loop.
   */
  method DeliverNew(items: seq<Item>, publishedAt: int,
                    convert: string -> Option<string>, sendOk: nat -> bool)
    returns (attempts: seq<Attempt>, newPublishedAt: int)
    ensures AttemptsMatch(attempts, items, publishedAt, convert, sendOk)
    ensures newPublishedAt == NewPublishedAt(items, publishedAt)
  {
    attempts := [];
    newPublishedAt := ZeroTime;
    var i: int := |items| - 1;
    while 0 <= i
      invariant -1 <= i < |items|
      invariant ItemsOf(attempts) == Processed(items[i + 1..], publishedAt)
      invariant forall k :: 0 <= k < |attempts| ==>
        i < attempts[k].index && IsAttemptOf(attempts[k], items, convert, sendOk)
      invariant forall k, l :: 0 <= k < l < |attempts| ==> attempts[k].index > attempts[l].index
      invariant newPublishedAt == NewPublishedAt(items[i + 1..], publishedAt)
      decreases i
    {
      assert items[i..][0] == items[i] && items[i..][1..] == items[i + 1..];
      if items[i].published.Some? {
        if items[i].published.value > publishedAt {
          newPublishedAt := items[i].published.value;
          var text := MessageText(items[i], convert);
          var ok := sendOk(i);
          assert ItemsOf(attempts + [Attempt(i, items[i], text, ok)]) == ItemsOf(attempts) + [items[i]];
          attempts := attempts + [Attempt(i, items[i], text, ok)];
        }
      }
      i := i - 1;
    }
  }

  /** Every item passed to delivery has a publish time strictly after the watermark. */
  lemma AttemptedAreNew(attempts: seq<Attempt>, items: seq<Item>, w: int,
                        convert: string -> Option<string>, sendOk: nat -> bool)
    requires AttemptsMatch(attempts, items, w, convert, sendOk)
    ensures forall k :: 0 <= k < |attempts| ==>
      attempts[k].item.published.Some? && attempts[k].item.published.value > w
    ensures |attempts| == |Filter(items, w)|
  {
    forall k | 0 <= k < |attempts|
      ensures IsNew(attempts[k].item, w)
    {
      assert Processed(items, w)[k] in Processed(items, w);
      ProcessedMembership(items, w, attempts[k].item);
    }
    ProcessedIsReversedFilter(items, w);
  }

  /**
   * Whatever their delivery outcome, the last attempted item sets the new
   * watermark, and on a newest-first feed the value written is at least the
   * time of every attempted item, failed ones included.
   */
  lemma FailedDeliveriesStillAdvance(attempts: seq<Attempt>, items: seq<Item>, w: int,
                                     convert: string -> Option<string>, sendOk: nat -> bool)
    requires AttemptsMatch(attempts, items, w, convert, sendOk)
    ensures attempts != [] ==> attempts[|attempts| - 1].item.published == Some(NewPublishedAt(items, w))
    ensures NewestFirst(items) ==> forall k :: 0 <= k < |attempts| ==>
      attempts[k].item.published.Some? && attempts[k].item.published.value <= NewPublishedAt(items, w)
  {
    NewPublishedAtIsLowestSelected(items, w);
    if NewestFirst(items) {
      NewestFirstCovers(items, w);
      WatermarkAdvances(items, w);
      forall k | 0 <= k < |attempts|
        ensures attempts[k].item in Filter(items, w)
      {
        assert Processed(items, w)[k] in Processed(items, w);
        ProcessedMembership(items, w, attempts[k].item);
        FilterMembership(items, w, attempts[k].item);
      }
    }
  }

  /** The watermark read for the configured (chat, feed) from a store that answers. */
  function StoredWatermark(chats: Chats, s: Settings): int
  {
    ReadPublishedAt(Lookup(chats, s.chatID), s.feedURL).value
  }

  /** The store after a run over `items` whose reads and writes all succeed. */
  function AfterRun(chats: Chats, s: Settings, items: seq<Item>): Chats
  {
    var n := NewPublishedAt(items, StoredWatermark(chats, s));
    if n == ZeroTime then chats else Upsert(chats, s.chatID, s.feedURL, n)
  }

  /**
   * A successful run leaves the watermark at `NextWatermark`: it never moves
   * back, and no entry but the run's own (chat, feed) changes.
   */
  lemma {:induction false} RunAdvancesWatermark(chats: Chats, s: Settings, items: seq<Item>, c: string, u: string)
    ensures StoredWatermark(AfterRun(chats, s, items), s) == NextWatermark(items, StoredWatermark(chats, s))
    ensures StoredWatermark(AfterRun(chats, s, items), s) >= StoredWatermark(chats, s)
    ensures c != s.chatID || u != s.feedURL ==>
      ReadPublishedAt(Lookup(AfterRun(chats, s, items), c), u) == ReadPublishedAt(Lookup(chats, c), u)
  {
    var w := StoredWatermark(chats, s);
    var n := NewPublishedAt(items, w);
    WatermarkAdvances(items, w);
    if n != ZeroTime {
      ReadAfterUpsert(chats, s.chatID, s.feedURL, n, s.chatID, s.feedURL);
      ReadAfterUpsert(chats, s.chatID, s.feedURL, n, c, u);
    }
  }

  /**
   * On a newest-first feed, a second run right after a successful one
   * delivers nothing, provided the store holds no time before the zero time
   * (which every run preserves).
   */
  lemma RerunDeliversNothing(chats: Chats, s: Settings, items: seq<Item>)
    requires NonNegative(chats) && NewestFirst(items)
    ensures NonNegative(AfterRun(chats, s, items))
    ensures Filter(items, StoredWatermark(AfterRun(chats, s, items), s)) == []
  {
    var w := StoredWatermark(chats, s);
    NonNegativeRead(chats, s.chatID, s.feedURL);
    WatermarkAdvances(items, w);
    RunAdvancesWatermark(chats, s, items, s.chatID, s.feedURL);
    RerunSelectsNothing(items, w);
  }

  /**
   * One invocation. Errors stop it at the first failing step: a missing
   * setting (before anything is fetched), the fetch, the watermark read
   * (nothing is delivered), or the watermark write (after all deliveries).
   * `fetched` says whether the feed was fetched at all; it is set by the
   * method itself, so the evidence that nothing is fetched on a missing
   * setting is that `err`, `attempts` and the store then do not depend on
   * `fetch`.
   */
  method RSS2Telegram(settings: Settings, fetch: Result<seq<Item>, FetchError>, store: WatermarkStore,
                      readFault: bool, updateFault: bool, setFault: bool,
                      convert: string -> Option<string>, sendOk: nat -> bool)
    returns (err: Option<Error>, fetched: bool, attempts: seq<Attempt>)
    modifies store
    ensures fetched <==> Validate(settings).None?
    ensures !fetched ==> err == Some(ConfigFailed(Validate(settings).value))
    ensures fetched && fetch.Failure? ==> err == Some(FetchFailed(fetch.error))
    ensures fetched && fetch.Success? && readFault ==> err == Some(StoreFailed(BackendError))
    ensures !fetched || fetch.Failure? || readFault ==> attempts == [] && store.chats == old(store.chats)
    ensures fetched && fetch.Success? && !readFault ==>
      var w := StoredWatermark(old(store.chats), settings);
      var n := NewPublishedAt(fetch.value, w);
      AttemptsMatch(attempts, fetch.value, w, convert, sendOk)
      && (n == ZeroTime ==> err == None && store.chats == old(store.chats))
      && (n != ZeroTime ==>
            (err.Some? <==> updateFault || (settings.chatID !in old(store.chats) && setFault))
            && (err.Some? ==> err == Some(StoreFailed(BackendError)) && store.chats == old(store.chats))
            && (err.None? ==> store.chats == Upsert(old(store.chats), settings.chatID, settings.feedURL, n)))
      && (!updateFault && !setFault ==> err == None && store.chats == AfterRun(old(store.chats), settings, fetch.value))
  {
    attempts := [];
    fetched := false;
    var invalid := Validate(settings);
    if invalid.Some? {
      return Some(ConfigFailed(invalid.value)), fetched, attempts;
    }
    fetched := true;
    if fetch.Failure? {
      return Some(FetchFailed(fetch.error)), fetched, attempts;
    }
    var items := fetch.value;
    var read := ReadPublishedAt(store.Get(settings.chatID, readFault), settings.feedURL);
    if read.Failure? {
      return Some(StoreFailed(read.error)), fetched, attempts;
    }
    var newPublishedAt;
    attempts, newPublishedAt := DeliverNew(items, read.value, convert, sendOk);
    if newPublishedAt != ZeroTime {
      var writeErr := store.WritePublishedAt(settings.chatID, settings.feedURL, newPublishedAt, updateFault, setFault);
      if writeErr.Some? {
        assert writeErr.value == BackendError;
        return Some(StoreFailed(writeErr.value)), fetched, attempts;
      }
    }
    return None, fetched, attempts;
  }
}
