/**
 * `ingestCoinDesk`: register the source, fetch and read the feed, then for
 * each item resolve its fields, normalise its markup, fingerprint it, skip
 * it when its guid is already stored, and insert it otherwise. A failure
 * while handling one item is recorded and the loop goes on; a failure to
 * register the source or to fetch the feed ends the run.
 *
 * What the service takes from its host is a parameter: the fetched and
 * parsed feed (`Fetched`), and in `Host` the SHA-256 digest, the
 * conversion `new Date(v).toISOString()` (none for an invalid date, where
 * `toISOString` throws) and the clock read once per item.
 */
module RssIngest {
  import opened Wrappers
  import opened JsValues
  import opened FeedItems
  import opened ArticleStore
  import Fingerprint

  datatype Host = Host(
    sha256: string -> string,
    isoDate: Value -> Option<string>,
    clock: nat -> string)

  const SourceName := "CoinDesk"
  const SourceUrl := "https://www.coindesk.com"
  const SourceWeight: real := 1.0

  /** The message of the `RangeError` that `toISOString` raises on an invalid date. */
  const InvalidTimeValue := "Invalid time value"

  /** The outcome of `fetch(rssUrl)` with the body already parsed, or the reason it was rejected. */
  datatype Fetched = Unreachable(reason: string) | Response(status: int, feed: Value)

  /** `resp.ok` */
  predicate Ok(status: int) {
    200 <= status <= 299
  }

  /** What ends a run before or instead of the item loop. */
  datatype RunError = RegistrationFailed(error: StoreError) | FetchFailed(message: string)

  datatype ItemError = ItemError(guid: Value, error: string)

  datatype IngestResult = IngestResult(
    sourceId: Option<int>,
    upsertedSources: nat,
    inserted: nat,
    skippedExisting: nat,
    errors: seq<ItemError>)

  datatype ItemOutcome = Inserted | Skipped | Failed(error: string)

  // ---------------------------------------------------------------------
  // Reading the feed
  // ---------------------------------------------------------------------

  /** `feed?.rss?.channel || feed?.channel` */
  function Channel(feed: Value): (r: Value)
    ensures r == Get(Get(feed, "rss"), "channel") || r == Get(feed, "channel")
    ensures Truthy(Get(Get(feed, "rss"), "channel")) ==> r == Get(Get(feed, "rss"), "channel")
    ensures Truthy(r) <==> Truthy(Get(Get(feed, "rss"), "channel")) || Truthy(Get(feed, "channel"))
  {
    OrElse(Get(Get(feed, "rss"), "channel"), Get(feed, "channel"))
  }

  /** `asArray(channel?.item || [])` */
  function ItemsOf(feed: Value): (r: seq<Value>)
    ensures Get(Channel(feed), "item").Arr? ==> r == Get(Channel(feed), "item").elems
    ensures !Get(Channel(feed), "item").Arr? && Truthy(Get(Channel(feed), "item")) ==> r == [Get(Channel(feed), "item")]
    ensures !Truthy(Get(Channel(feed), "item")) ==> r == []
  {
    AsArray(OrElse(Get(Channel(feed), "item"), Arr([])))
  }

  /** `channel?.language` */
  function FeedLanguage(feed: Value): (r: Value)
    ensures !Channel(feed).Obj? ==> r == Undefined
    ensures Channel(feed).Obj? && "language" in Channel(feed).fields ==> r == Channel(feed).fields["language"]
    ensures Channel(feed).Obj? && "language" !in Channel(feed).fields ==> r == Undefined
  {
    Get(Channel(feed), "language")
  }

  // ---------------------------------------------------------------------
  // One item
  // ---------------------------------------------------------------------

  /** The text and fingerprint of an item, computed before the store is consulted. */
  datatype Digest = Digest(text: string, hash: string)

  function DigestItem(it: FeedItem, host: Host): (r: Result<Digest, string>)
    ensures r.Failure? <==> ContentText(it.contentHtml).Failure?
    ensures r.Success? ==> r.value.text == ContentText(it.contentHtml).value
    ensures r.Success? ==> r.value.hash == Fingerprint.HashContent(host.sha256, [it.guid, it.link, it.title, Str(r.value.text)])
  {
    match ContentText(it.contentHtml)
    case Failure(e) => Failure(e)
    case Success(text) => Success(Digest(text, Fingerprint.HashContent(host.sha256, [it.guid, it.link, it.title, Str(text)])))
  }

  /** `v ?? null` */
  function OrNull(v: Value): (r: Value)
    ensures r != Undefined
    ensures !Nullish(v) ==> r == v
    ensures Nullish(v) ==> r == Null
  {
    Coalesce(v, Null)
  }

  /**
   * The insert payload. A truthy `pubDate` that is not a valid date makes
   * `toISOString` throw, so the item fails instead of being stored with no
   * date; a missing `pubDate` is stored as null.
   */
  function BuildArticle(sourceId: int, it: FeedItem, d: Digest, language: Value, now: string, host: Host): (r: Result<Article, string>)
    ensures r.Failure? <==> Truthy(it.pubDateRaw) && host.isoDate(it.pubDateRaw).None?
    ensures r.Failure? ==> r.error == InvalidTimeValue
    ensures r.Success? ==> (r.value.pubDate.None? <==> !Truthy(it.pubDateRaw))
    ensures r.Success? ==> (r.value.categories.None? <==> it.categories == [])
    ensures r.Success? ==> r.value.guid != Undefined && r.value.link != Undefined && r.value.title != Undefined
    ensures r.Success? ==> r.value.author != Undefined && r.value.feedLanguage != Undefined
    ensures r.Success? && !Nullish(it.guid) ==> r.value.guid == it.guid
    ensures r.Success? && Nullish(it.guid) ==> r.value.guid == Null
    ensures r.Success? ==> r.value.sourceId == sourceId && r.value.contentText == d.text
    ensures r.Success? ==> r.value.hash == d.hash && r.value.firstSeenAt == now
    ensures r.Success? ==> r.value.link == OrNull(it.link) && r.value.title == OrNull(it.title)
    ensures r.Success? ==> r.value.description == OrNull(it.description) && r.value.author == OrNull(it.author)
    ensures r.Success? ==> r.value.feedLanguage == OrNull(language) && r.value.contentHtml == it.contentHtml
    ensures r.Success? ==> r.value.categories == CategoriesColumn(it.categories)
    ensures r.Success? && Truthy(it.pubDateRaw) ==> r.value.pubDate == host.isoDate(it.pubDateRaw)
  {
    var pubDate: Result<Option<string>, string> :=
      if !Truthy(it.pubDateRaw) then Success(None)
      else match host.isoDate(it.pubDateRaw)
        case None => Failure(InvalidTimeValue)
        case Some(iso) => Success(Some(iso));
    if pubDate.Failure? then Failure(pubDate.error)
    else
      Success(Article(
        sourceId,
        OrNull(it.guid),
        OrNull(it.link),
        OrNull(it.title),
        OrNull(it.description),
        it.contentHtml,
        d.text,
        OrNull(it.author),
        CategoriesColumn(it.categories),
        pubDate.value,
        OrNull(language),
        d.hash,
        now))
  }

  /** The record an item would be stored as, or why it cannot be, leaving the guid lookup aside. */
  function ItemRecord(sourceId: int, raw: Value, k: nat, language: Value, host: Host): Result<Article, string>
  {
    var it := ResolveItem(raw);
    match DigestItem(it, host)
    case Failure(e) => Failure(e)
    case Success(d) => BuildArticle(sourceId, it, d, language, host.clock(k), host)
  }

  /**
   * An item fails to become a record exactly when its markup cannot be
   * normalised or its truthy date is invalid; a record carries the source
   * id, the `k`-th clock reading and the resolved guid (null when absent).
   */
  lemma ItemRecordStamped(sourceId: int, raw: Value, k: nat, language: Value, host: Host)
    ensures ItemRecord(sourceId, raw, k, language, host).Failure?
        <==> (ContentText(ResolveItem(raw).contentHtml).Failure?
              || (Truthy(ResolveItem(raw).pubDateRaw) && host.isoDate(ResolveItem(raw).pubDateRaw).None?))
    ensures var r := ItemRecord(sourceId, raw, k, language, host);
      r.Success? ==> r.value.sourceId == sourceId && r.value.firstSeenAt == host.clock(k) && r.value.guid == OrNull(ResolveItem(raw).guid)
  {
  }

  /** The guid the dedup lookup uses. */
  function ItemGuid(raw: Value): Value {
    ResolveItem(raw).guid
  }

  /**
   * The body of the `try` block for the `k`-th item. An item whose truthy
   * guid is already stored is skipped and never inserted; an item without
   * a truthy guid is never looked up, so it is never skipped; an inserted
   * item is stored as `ItemRecord` builds it.
   */
  method ProcessItem(store: Store, sourceId: int, raw: Value, k: nat, language: Value, host: Host)
    returns (outcome: ItemOutcome)
    requires store.Valid() && UniqueGuids(store.articles)
    modifies store
    ensures store.Valid() && UniqueGuids(store.articles)
    ensures store.sources == old(store.sources) && store.nextSourceId == old(store.nextSourceId)
    ensures outcome.Inserted? ==> ItemRecord(sourceId, raw, k, language, host).Success?
    ensures outcome.Inserted? ==> store.articles == old(store.articles) + [ItemRecord(sourceId, raw, k, language, host).value]
    ensures !outcome.Inserted? ==> store.articles == old(store.articles)
    ensures outcome.Skipped? ==> Truthy(ItemGuid(raw)) && HoldsGuid(old(store.articles), ItemGuid(raw))
    ensures Truthy(ItemGuid(raw)) && HoldsGuid(old(store.articles), ItemGuid(raw)) ==> !outcome.Inserted?
    ensures outcome.Inserted? && Truthy(ItemGuid(raw)) ==> HoldsGuid(store.articles, ItemGuid(raw))
    ensures ContentText(ResolveItem(raw).contentHtml).Failure? ==> outcome == Failed(ReplaceNotAFunction)
    ensures !Truthy(ItemGuid(raw)) && ItemRecord(sourceId, raw, k, language, host).Failure?
            ==> outcome == Failed(ItemRecord(sourceId, raw, k, language, host).error)
  {
    var it := ResolveItem(raw);
    var digest := DigestItem(it, host);
    if digest.Failure? {
      return Failed(digest.error);
    }
    var record := BuildArticle(sourceId, it, digest.value, language, host.clock(k), host);
    outcome := LookupAndInsert(store, it.guid, record);
  }

  /**
   * The store side of one item: the guid lookup when the guid is truthy,
   * then the insert of the record built from the item, unless building it
   * failed. The record is a value computed from the item alone, so
   * building it before or after the lookup makes no difference.
   */
  method LookupAndInsert(store: Store, guid: Value, record: Result<Article, string>) returns (outcome: ItemOutcome)
    requires store.Valid() && UniqueGuids(store.articles)
    requires record.Success? ==> record.value.guid == OrNull(guid)
    modifies store
    ensures store.Valid() && UniqueGuids(store.articles)
    ensures store.sources == old(store.sources) && store.nextSourceId == old(store.nextSourceId)
    ensures outcome.Inserted? ==> record.Success? && store.articles == old(store.articles) + [record.value]
    ensures !outcome.Inserted? ==> store.articles == old(store.articles)
    ensures outcome.Skipped? ==> Truthy(guid) && HoldsGuid(old(store.articles), guid)
    ensures Truthy(guid) && HoldsGuid(old(store.articles), guid) ==> !outcome.Inserted?
    ensures outcome.Inserted? && Truthy(guid) ==> HoldsGuid(store.articles, guid)
    ensures record.Failure? ==> !outcome.Inserted?
    ensures !Truthy(guid) && record.Failure? ==> outcome == Failed(record.error)
  {
    if Truthy(guid) {
      var existing := store.FindByGuid(guid);
      if existing.Failure? {
        return Failed(existing.error.message);
      }
      if existing.value {
        return Skipped;
      }
    }
    if record.Failure? {
      return Failed(record.error);
    }
    AppendKeepsUnique(store.articles, record.value);
    var insertError := store.Insert(record.value);
    if insertError.Some? {
      return Failed(insertError.value.message);
    }
    assert store.articles[|store.articles| - 1] == record.value;
    outcome := Inserted;
  }

  // ---------------------------------------------------------------------
  // The counters
  // ---------------------------------------------------------------------

  function CountInserted(trace: seq<ItemOutcome>): nat {
    if trace == [] then 0
    else CountInserted(trace[..|trace| - 1]) + (if trace[|trace| - 1].Inserted? then 1 else 0)
  }

  function CountSkipped(trace: seq<ItemOutcome>): nat {
    if trace == [] then 0
    else CountSkipped(trace[..|trace| - 1]) + (if trace[|trace| - 1].Skipped? then 1 else 0)
  }

  /** The `errors` list: one entry per failed item, in feed order, carrying the item's raw `guid`. */
  function ErrorsOf(items: seq<Value>, trace: seq<ItemOutcome>): seq<ItemError>
    requires |items| == |trace|
  {
    if trace == [] then []
    else
      var n := |trace| - 1;
      ErrorsOf(items[..n], trace[..n])
        + (if trace[n].Failed? then [ItemError(Get(items[n], "guid"), trace[n].error)] else [])
  }

  /** Every processed item is counted exactly once: inserted, skipped or in `errors`. */
  lemma {:induction false} TallyCoversEveryItem(items: seq<Value>, trace: seq<ItemOutcome>)
    requires |items| == |trace|
    ensures CountInserted(trace) + CountSkipped(trace) + |ErrorsOf(items, trace)| == |trace|
    decreases |trace|
  {
    if trace != [] {
      var n := |trace| - 1;
      TallyCoversEveryItem(items[..n], trace[..n]);
    }
  }

  /** The `errors` list holds the failed items in feed order, each with its message. */
  lemma {:induction false} ErrorsAreTheFailures(items: seq<Value>, trace: seq<ItemOutcome>, i: nat)
    requires |items| == |trace| && i < |trace| && trace[i].Failed?
    ensures ItemError(Get(items[i], "guid"), trace[i].error) in ErrorsOf(items, trace)
    decreases |trace|
  {
    var n := |trace| - 1;
    if i < n {
      ErrorsAreTheFailures(items[..n], trace[..n], i);
    }
  }

  /** With no insertion in the trace the insert counter is zero. */
  lemma {:induction false} NoInsertionCountsZero(trace: seq<ItemOutcome>)
    requires forall i :: 0 <= i < |trace| ==> !trace[i].Inserted?
    ensures CountInserted(trace) == 0
    decreases |trace|
  {
    if trace != [] {
      NoInsertionCountsZero(trace[..|trace| - 1]);
    }
  }

  // ---------------------------------------------------------------------
  // The run
  // ---------------------------------------------------------------------

  /** No item whose truthy guid was already stored in `before` was inserted. */
  predicate NotStoredAgain(before: seq<Article>, items: seq<Value>, trace: seq<ItemOutcome>)
    requires |items| == |trace|
  {
    forall i :: 0 <= i < |trace| && Truthy(ItemGuid(items[i])) && HoldsGuid(before, ItemGuid(items[i])) ==> !trace[i].Inserted?
  }

  /** Every item that did not fail and has a truthy guid has that guid stored in `after`. */
  predicate GuidsKept(after: seq<Article>, items: seq<Value>, trace: seq<ItemOutcome>)
    requires |items| == |trace|
  {
    forall i :: 0 <= i < |trace| && !trace[i].Failed? && Truthy(ItemGuid(items[i])) ==> HoldsGuid(after, ItemGuid(items[i]))
  }

  /** Every item has a truthy guid that `before` already holds. */
  predicate AllStored(before: seq<Article>, items: seq<Value>) {
    forall i :: 0 <= i < |items| ==> Truthy(ItemGuid(items[i])) && HoldsGuid(before, ItemGuid(items[i]))
  }

  /**
   * What the outcome of one item depends on: the record it would be stored
   * as (or why it cannot be), its guid, and whether its markup fails to
   * normalise.
   */
  datatype ItemView = ItemView(record: Result<Article, string>, guid: Value, markupFails: bool)

  function ViewOf(sourceId: int, raw: Value, k: nat, language: Value, host: Host): ItemView {
    ItemView(ItemRecord(sourceId, raw, k, language, host), ItemGuid(raw), ContentText(ResolveItem(raw).contentHtml).Failure?)
  }

  /** The view of every item, the `k`-th item read at the `k`-th tick of the clock. */
  function Views(sourceId: int, items: seq<Value>, language: Value, host: Host): (r: seq<ItemView>)
    ensures |r| == |items|
    ensures forall k :: 0 <= k < |items| ==> r[k] == ViewOf(sourceId, items[k], k, language, host)
  {
    seq(|items|, k requires 0 <= k < |items| => ViewOf(sourceId, items[k], k, language, host))
  }

  /**
   * What an outcome says about its item: only an item whose record can be
   * built is inserted; only an item with a truthy guid is skipped, so an
   * item without one is always attempted; markup that is not a string
   * fails the item before any lookup; and an item without a guid whose
   * record cannot be built (an invalid date) fails with that reason.
   */
  predicate OutcomeFits(v: ItemView, outcome: ItemOutcome) {
    && (outcome.Inserted? ==> v.record.Success?)
    && (outcome.Skipped? ==> Truthy(v.guid))
    && (v.markupFails ==> outcome == Failed(ReplaceNotAFunction))
    && (!Truthy(v.guid) && v.record.Failure? ==> outcome == Failed(v.record.error))
  }

  predicate OutcomesAgree(views: seq<ItemView>, trace: seq<ItemOutcome>)
    requires |views| == |trace|
  {
    forall i :: 0 <= i < |trace| ==> OutcomeFits(views[i], trace[i])
  }

  /** The records a run appends: the record of every inserted item, in feed order. */
  function InsertedRecords(views: seq<ItemView>, trace: seq<ItemOutcome>): (r: seq<Article>)
    requires |views| == |trace|
  {
    if trace == [] then []
    else
      var n := |trace| - 1;
      InsertedRecords(views[..n], trace[..n])
        + (if trace[n].Inserted? && views[n].record.Success? then [views[n].record.value] else [])
  }

  /** One appended record per `Inserted` outcome, so the store grows by exactly the insert counter. */
  lemma {:induction false} InsertedRecordsCount(views: seq<ItemView>, trace: seq<ItemOutcome>)
    requires |views| == |trace| && OutcomesAgree(views, trace)
    ensures |InsertedRecords(views, trace)| == CountInserted(trace)
    decreases |trace|
  {
    if trace != [] {
      var n := |trace| - 1;
      assert forall i :: 0 <= i < n ==> views[..n][i] == views[i] && trace[..n][i] == trace[i];
      InsertedRecordsCount(views[..n], trace[..n]);
    }
  }

  /** The store after the first items is the store before them plus their records, and each outcome fits its item. */
  predicate Recorded(before: seq<Article>, after: seq<Article>, views: seq<ItemView>, trace: seq<ItemOutcome>)
    requires |views| == |trace|
  {
    after == before + InsertedRecords(views, trace) && OutcomesAgree(views, trace)
  }

  /** One more item keeps `Recorded`. */
  lemma StepRecorded(before: seq<Article>, mid: seq<Article>, after: seq<Article>,
                     views: seq<ItemView>, trace: seq<ItemOutcome>, view: ItemView, outcome: ItemOutcome)
    requires |views| == |trace| && Recorded(before, mid, views, trace)
    requires OutcomeFits(view, outcome)
    requires outcome.Inserted? ==> view.record.Success? && after == mid + [view.record.value]
    requires !outcome.Inserted? ==> after == mid
    ensures Recorded(before, after, views + [view], trace + [outcome])
  {
    var views', trace' := views + [view], trace + [outcome];
    assert views'[..|trace|] == views && trace'[..|trace|] == trace;
    forall j | 0 <= j < |trace'| ensures OutcomeFits(views'[j], trace'[j]) {
      if j < |trace| {
        assert views'[j] == views[j] && trace'[j] == trace[j];
      }
    }
  }

  /**
   * The dedup gate as one item saw it, `seen` being the store at the moment
   * of its lookup: it is skipped only when `seen` holds its guid, and an
   * item whose truthy guid `seen` holds is never inserted.
   */
  predicate GateFits(seen: seq<Article>, v: ItemView, outcome: ItemOutcome) {
    && (outcome.Skipped? ==> HoldsGuid(seen, v.guid))
    && (Truthy(v.guid) && HoldsGuid(seen, v.guid) ==> !outcome.Inserted?)
  }

  /**
   * Every item met the gate against the store as the run had left it: the
   * store before the run plus the records of the earlier inserted items.
   * So of two items with the same guid the first is the one stored.
   */
  predicate Gated(before: seq<Article>, views: seq<ItemView>, trace: seq<ItemOutcome>)
    requires |views| == |trace|
  {
    forall i :: 0 <= i < |trace| ==> GateFits(before + InsertedRecords(views[..i], trace[..i]), views[i], trace[i])
  }

  /** One more item keeps `Gated`. */
  lemma StepGated(before: seq<Article>, views: seq<ItemView>, trace: seq<ItemOutcome>, view: ItemView, outcome: ItemOutcome)
    requires |views| == |trace| && Gated(before, views, trace)
    requires GateFits(before + InsertedRecords(views, trace), view, outcome)
    ensures Gated(before, views + [view], trace + [outcome])
  {
    var views', trace' := views + [view], trace + [outcome];
    forall j | 0 <= j < |trace'|
      ensures GateFits(before + InsertedRecords(views'[..j], trace'[..j]), views'[j], trace'[j])
    {
      assert views'[..j] == views[..j] && trace'[..j] == trace[..j];
      if j < |trace| {
        assert views'[j] == views[j] && trace'[j] == trace[j];
      } else {
        assert views[..j] == views && trace[..j] == trace;
      }
    }
  }

  /** An inserted item whose record was built is among the records the run appends. */
  lemma {:induction false} InsertedRecordsHas(views: seq<ItemView>, trace: seq<ItemOutcome>, i: nat)
    requires |views| == |trace| && i < |trace| && trace[i].Inserted? && views[i].record.Success?
    ensures views[i].record.value in InsertedRecords(views, trace)
    decreases |trace|
  {
    var n := |trace| - 1;
    if i < n {
      assert views[..n][i] == views[i] && trace[..n][i] == trace[i];
      InsertedRecordsHas(views[..n], trace[..n], i);
    }
  }

  /**
   * Of two items with the same truthy guid, once the earlier one is
   * inserted the later one never is: its lookup finds the earlier record.
   */
  lemma SameGuidStoredOnce(before: seq<Article>, sourceId: int, items: seq<Value>, language: Value, host: Host,
                           trace: seq<ItemOutcome>, i: nat, j: nat)
    requires |items| == |trace|
    requires Gated(before, Views(sourceId, items, language, host), trace)
    requires OutcomesAgree(Views(sourceId, items, language, host), trace)
    requires i < j < |trace| && trace[i].Inserted?
    requires Truthy(ItemGuid(items[i])) && ItemGuid(items[j]) == ItemGuid(items[i])
    ensures !trace[j].Inserted?
  {
    var views := Views(sourceId, items, language, host);
    var g := ItemGuid(items[i]);
    ItemRecordStamped(sourceId, items[i], i, language, host);
    assert OutcomeFits(views[i], trace[i]);
    assert views[..j][i] == views[i] && trace[..j][i] == trace[i];
    InsertedRecordsHas(views[..j], trace[..j], i);
    var appended := InsertedRecords(views[..j], trace[..j]);
    var rec := views[i].record.value;
    var k :| 0 <= k < |appended| && appended[k] == rec;
    var seen := before + appended;
    assert seen[|before| + k] == rec && rec.guid == g;
    assert HoldsGuid(seen, g);
    assert GateFits(seen, views[j], trace[j]);
  }

  lemma PrefixExtends<T>(items: seq<T>, i: nat)
    requires i < |items|
    ensures items[..i + 1] == items[..i] + [items[i]]
  {
  }

  /** The counters and the `errors` list agree with the outcomes so far. */
  predicate Tallied(items: seq<Value>, trace: seq<ItemOutcome>, inserted: nat, skipped: nat, errors: seq<ItemError>)
    requires |items| == |trace|
  {
    inserted == CountInserted(trace) && skipped == CountSkipped(trace) && errors == ErrorsOf(items, trace)
  }

  /** One more processed item moves exactly one counter, or adds one entry to `errors`. */
  lemma StepCounts(items: seq<Value>, trace: seq<ItemOutcome>, item: Value, outcome: ItemOutcome,
                   inserted: nat, skipped: nat, errors: seq<ItemError>)
    requires |items| == |trace| && Tallied(items, trace, inserted, skipped, errors)
    ensures Tallied(items + [item], trace + [outcome],
                    inserted + (if outcome.Inserted? then 1 else 0),
                    skipped + (if outcome.Skipped? then 1 else 0),
                    errors + (if outcome.Failed? then [ItemError(Get(item, "guid"), outcome.error)] else []))
  {
    assert (trace + [outcome])[..|trace|] == trace;
    assert (items + [item])[..|items|] == items;
  }

  /** One more processed item keeps both guid properties of the loop. */
  lemma StepKeepsGuids(before: seq<Article>, mid: seq<Article>, after: seq<Article>,
                       items: seq<Value>, trace: seq<ItemOutcome>, item: Value, outcome: ItemOutcome)
    requires |items| == |trace| && before <= mid <= after
    requires GuidsKept(mid, items, trace) && NotStoredAgain(before, items, trace)
    requires outcome.Skipped? ==> Truthy(ItemGuid(item)) && HoldsGuid(mid, ItemGuid(item))
    requires outcome.Inserted? && Truthy(ItemGuid(item)) ==> HoldsGuid(after, ItemGuid(item))
    requires Truthy(ItemGuid(item)) && HoldsGuid(before, ItemGuid(item)) ==> !outcome.Inserted?
    ensures GuidsKept(after, items + [item], trace + [outcome])
    ensures NotStoredAgain(before, items + [item], trace + [outcome])
  {
    var items', trace' := items + [item], trace + [outcome];
    forall j | 0 <= j < |trace'| && !trace'[j].Failed? && Truthy(ItemGuid(items'[j]))
      ensures HoldsGuid(after, ItemGuid(items'[j]))
    {
      if j < |items| {
        assert items'[j] == items[j] && trace'[j] == trace[j];
        HoldsGuidGrows(mid, after, ItemGuid(items[j]));
      } else if outcome.Skipped? {
        HoldsGuidGrows(mid, after, ItemGuid(item));
      }
    }
  }

  /** The message of the error thrown for a response that is not OK. */
  function FetchErrorMessage(status: int): string {
    "Failed to fetch RSS " + ToStr(Num(status))
  }

  /** The `i`-th item in the loop, with what it does to the guid properties of the run. */
  method ProcessNext(store: Store, sourceId: int, items: seq<Value>, i: nat, language: Value, host: Host,
                     ghost before: seq<Article>, ghost trace: seq<ItemOutcome>)
    returns (outcome: ItemOutcome)
    requires i < |items| && |trace| == i
    requires store.Valid() && UniqueGuids(store.articles) && before <= store.articles
    requires NotStoredAgain(before, items[..i], trace) && GuidsKept(store.articles, items[..i], trace)
    modifies store
    ensures store.Valid() && UniqueGuids(store.articles)
    ensures store.sources == old(store.sources) && store.nextSourceId == old(store.nextSourceId)
    ensures OutcomeFits(ViewOf(sourceId, items[i], i, language, host), outcome)
    ensures GateFits(old(store.articles), ViewOf(sourceId, items[i], i, language, host), outcome)
    ensures outcome.Inserted? ==> store.articles == old(store.articles) + [ItemRecord(sourceId, items[i], i, language, host).value]
    ensures !outcome.Inserted? ==> store.articles == old(store.articles)
    ensures NotStoredAgain(before, items[..i] + [items[i]], trace + [outcome])
    ensures GuidsKept(store.articles, items[..i] + [items[i]], trace + [outcome])
  {
    var item := items[i];
    ghost var g := ItemGuid(item);
    if Truthy(g) && HoldsGuid(before, g) {
      HoldsGuidGrows(before, store.articles, g);
    }
    ghost var mid := store.articles;
    outcome := ProcessItem(store, sourceId, item, i, language, host);
    StepKeepsGuids(before, mid, store.articles, items[..i], trace, item, outcome);
  }

  /**
   * The `for` loop over the items. `trace` records the outcome of every
   * item in feed order; the counters and the `errors` list are read off it.
   */
  method ProcessItems(store: Store, sourceId: int, items: seq<Value>, language: Value, host: Host)
    returns (inserted: nat, skipped: nat, errors: seq<ItemError>, ghost trace: seq<ItemOutcome>)
    requires store.Valid() && UniqueGuids(store.articles)
    modifies store
    ensures store.Valid() && UniqueGuids(store.articles)
    ensures store.sources == old(store.sources) && store.nextSourceId == old(store.nextSourceId)
    ensures |trace| == |items|
    ensures inserted == CountInserted(trace) && skipped == CountSkipped(trace)
    ensures errors == ErrorsOf(items, trace)
    ensures old(store.articles) <= store.articles
    ensures |store.articles| == |old(store.articles)| + inserted
    ensures store.articles == old(store.articles) + InsertedRecords(Views(sourceId, items, language, host), trace)
    ensures OutcomesAgree(Views(sourceId, items, language, host), trace)
    ensures Gated(old(store.articles), Views(sourceId, items, language, host), trace)
    ensures NotStoredAgain(old(store.articles), items, trace)
    ensures GuidsKept(store.articles, items, trace)
  {
    ghost var before := store.articles;
    ghost var views := Views(sourceId, items, language, host);
    inserted, skipped, errors, trace := 0, 0, [], [];
    for i := 0 to |items|
      invariant store.Valid() && UniqueGuids(store.articles)
      invariant store.sources == old(store.sources) && store.nextSourceId == old(store.nextSourceId)
      invariant |trace| == i
      invariant Tallied(items[..i], trace, inserted, skipped, errors)
      invariant before <= store.articles && |store.articles| == |before| + inserted
      invariant Recorded(before, store.articles, views[..i], trace)
      invariant Gated(before, views[..i], trace)
      invariant NotStoredAgain(before, items[..i], trace)
      invariant GuidsKept(store.articles, items[..i], trace)
    {
      var item := items[i];
      ghost var mid := store.articles;
      var outcome := ProcessNext(store, sourceId, items, i, language, host, before, trace);
      StepCounts(items[..i], trace, item, outcome, inserted, skipped, errors);
      StepRecorded(before, mid, store.articles, views[..i], trace, views[i], outcome);
      StepGated(before, views[..i], trace, views[i], outcome);
      PrefixExtends(items, i);
      PrefixExtends(views, i);
      trace := trace + [outcome];
      match outcome
      case Inserted => inserted := inserted + 1;
      case Skipped => skipped := skipped + 1;
      case Failed(e) => errors := errors + [ItemError(Get(item, "guid"), e)];
    }
    assert items[..|items|] == items;
    assert Tallied(items, trace, inserted, skipped, errors);
    assert views[..|items|] == views;
  }

  /** One ingestion run. */
  method IngestCoinDesk(store: Store, fetched: Fetched, host: Host)
    returns (r: Result<IngestResult, RunError>, ghost trace: seq<ItemOutcome>)
    requires store.Valid() && UniqueGuids(store.articles)
    modifies store
    ensures store.Valid() && UniqueGuids(store.articles)
    // a failed run inserts nothing; a failed registration changes nothing at all
    ensures r.Failure? ==> store.articles == old(store.articles)
    ensures r.Failure? && r.error.RegistrationFailed? ==> store.sources == old(store.sources)
    ensures fetched.Unreachable? ==> r.Failure?
    ensures fetched.Response? && !Ok(fetched.status) ==> r.Failure?
    ensures fetched.Response? && Ok(fetched.status) && r.Failure? ==> r.error.RegistrationFailed?
    ensures fetched.Unreachable? && r.Failure? && r.error.FetchFailed? ==> r.error.message == fetched.reason
    // unless registration failed, the CoinDesk row was upserted on its url and no other row changed
    ensures !(r.Failure? && r.error.RegistrationFailed?) ==> (SourceUrl in store.sources &&
              store.sources == old(store.sources)[SourceUrl := SourceRow(store.sources[SourceUrl].id, SourceName, SourceUrl, SourceWeight)])
    ensures !(r.Failure? && r.error.RegistrationFailed?) && SourceUrl in old(store.sources) ==> (SourceUrl in store.sources &&
              store.sources[SourceUrl].id == old(store.sources)[SourceUrl].id)
    ensures !(r.Failure? && r.error.RegistrationFailed?) && SourceUrl !in old(store.sources) ==> (SourceUrl in store.sources &&
              forall u :: u in old(store.sources) ==> old(store.sources)[u].id != store.sources[SourceUrl].id)
    ensures r.Failure? && r.error.FetchFailed? && fetched.Response? ==> r.error.message == FetchErrorMessage(fetched.status)
    // a completed run registered the source and accounted for every item
    ensures r.Success? ==> fetched.Response? && Ok(fetched.status)
    ensures r.Success? ==> SourceUrl in store.sources && r.value.sourceId == Some(store.sources[SourceUrl].id)
    ensures r.Success? ==> r.value.upsertedSources == 1
    ensures r.Success? ==> |trace| == |ItemsOf(fetched.feed)|
    ensures r.Success? ==> r.value.inserted == CountInserted(trace) && r.value.skippedExisting == CountSkipped(trace)
    ensures r.Success? ==> r.value.errors == ErrorsOf(ItemsOf(fetched.feed), trace)
    ensures r.Success? ==> old(store.articles) <= store.articles
    ensures r.Success? ==> |store.articles| == |old(store.articles)| + r.value.inserted
    // what it appended: the record of every inserted item, each item's outcome agreeing with the item
    ensures r.Success? ==> (r.value.sourceId.Some? &&
              store.articles == old(store.articles) + InsertedRecords(Views(r.value.sourceId.value, ItemsOf(fetched.feed), FeedLanguage(fetched.feed), host), trace))
    ensures r.Success? ==> (r.value.sourceId.Some? &&
              OutcomesAgree(Views(r.value.sourceId.value, ItemsOf(fetched.feed), FeedLanguage(fetched.feed), host), trace))
    // each lookup saw the store as the run had left it, so of two items with one guid the first is stored
    ensures r.Success? ==> (r.value.sourceId.Some? &&
              Gated(old(store.articles), Views(r.value.sourceId.value, ItemsOf(fetched.feed), FeedLanguage(fetched.feed), host), trace))
    // an item whose guid was stored before the run is never inserted again
    ensures r.Success? ==> NotStoredAgain(old(store.articles), ItemsOf(fetched.feed), trace)
    // afterwards every item that did not fail has its guid stored, so a run over such a feed inserts nothing
    ensures r.Success? ==> GuidsKept(store.articles, ItemsOf(fetched.feed), trace)
    ensures r.Success? && AllStored(old(store.articles), ItemsOf(fetched.feed)) ==> r.value.inserted == 0
  {
    trace := [];
    var upserted := store.UpsertSource(SourceName, SourceUrl, SourceWeight);
    if upserted.Failure? {
      return Failure(RegistrationFailed(upserted.error)), trace;
    }
    var sourceId := upserted.value;
    if fetched.Unreachable? {
      return Failure(FetchFailed(fetched.reason)), trace;
    }
    if !Ok(fetched.status) {
      return Failure(FetchFailed(FetchErrorMessage(fetched.status))), trace;
    }
    var items := ItemsOf(fetched.feed);
    var language := FeedLanguage(fetched.feed);
    var inserted, skipped, errors;
    inserted, skipped, errors, trace := ProcessItems(store, sourceId, items, language, host);
    if AllStored(old(store.articles), items) {
      NoInsertionCountsZero(trace);
    }
    r := Success(IngestResult(Some(sourceId), 1, inserted, skipped, errors));
  }
}
