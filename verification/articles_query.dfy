/**
 * The read side of the articles API: how each query is put together
 * (filters, row range, row limit), how a page of rows becomes a response
 * (`count`, `hasMore`, the echoed filters), and how the statistics fold
 * groups rows by source name.
 *
 * The database is a parameter `db` that answers a query with rows or an
 * error; which rows a query selects is not modelled, except for the row
 * window, whose meaning (`range(from, to)` keeps positions `from` to `to`
 * of the ordered matches, both included) is stated by `Selected`.
 */
module ArticlesQuery {
  import opened Wrappers
  import opened JsValues

  /** One filter of the query builder: `gte`, `lte` or `eq` on a column. */
  datatype Condition =
    | AtLeast(column: string, bound: Value)
    | AtMost(column: string, bound: Value)
    | Equals(column: string, value: Value)

  /** `range(from, to)`: row positions `from` through `to`, both included. */
  datatype RowRange = RowRange(from: int, to: int)

  /** A query on one table; the list queries order by `pub_date`, newest first, and the statistics query sets no order. */
  datatype Query = Query(table: string, conditions: seq<Condition>, range: Option<RowRange>, rowLimit: Option<int>)

  /** What the database answers: the rows (`data`, possibly null) or an error with its `message`. */
  datatype QueryResult =
    | Rows(data: Option<seq<Value>>)
    | DbError(message: Value)

  /** `ArticlesFilter`; fields the caller left out are `Undefined`. */
  datatype ArticlesFilter = ArticlesFilter(
    startDate: Value,
    endDate: Value,
    sourceId: Value,
    sourceName: Value,
    limit: int,
    offset: int)

  datatype Pagination = Pagination(limit: int, offset: int, hasMore: bool)

  /** `ArticlesResponse`; `success` is always true and is not represented. */
  datatype ArticlesResponse = ArticlesResponse(data: seq<Value>, count: nat, filters: ArticlesFilter, pagination: Pagination)

  /** `StatsResponse`; `success` is always true and is not represented. */
  datatype StatsResponse = StatsResponse(totalArticles: nat, bySource: map<string, nat>, startDate: Value, endDate: Value)

  const PubDate := "pub_date"
  const DefaultSourceLimit := 50
  const DefaultRecentLimit := 10

  // ---------------------------------------------------------------------
  // Building the queries
  // ---------------------------------------------------------------------

  /**
   * The two date filters shared by the article list and the statistics:
   * `gte('pub_date', startDate)` when `startDate` is truthy, then
   * `lte('pub_date', endDate)` when `endDate` is truthy.
   */
  method ApplyDateBounds(q: Query, startDate: Value, endDate: Value) returns (r: Query)
    ensures r.table == q.table && r.range == q.range && r.rowLimit == q.rowLimit
    ensures q.conditions <= r.conditions && |r.conditions| <= |q.conditions| + 2
    ensures Truthy(startDate) ==> AtLeast(PubDate, startDate) in r.conditions
    ensures Truthy(endDate) ==> AtMost(PubDate, endDate) in r.conditions
    ensures forall c :: c in r.conditions ==>
              c in q.conditions || (Truthy(startDate) && c == AtLeast(PubDate, startDate)) || (Truthy(endDate) && c == AtMost(PubDate, endDate))
  {
    r := q;
    if Truthy(startDate) {
      r := r.(conditions := r.conditions + [AtLeast(PubDate, startDate)]);
    }
    if Truthy(endDate) {
      r := r.(conditions := r.conditions + [AtMost(PubDate, endDate)]);
    }
  }

  /**
   * The query of `getFilteredArticles`: rows `offset` to `offset + limit - 1`,
   * a date filter for each truthy date, a source filter only for a truthy
   * `sourceId` (so `0` filters nothing), and never a filter on `sourceName`.
   */
  method FilteredArticlesQuery(f: ArticlesFilter) returns (q: Query)
    ensures q.table == "articles" && q.rowLimit.None?
    ensures q.range == Some(RowRange(f.offset, f.offset + f.limit - 1))
    ensures q.range.value.to - q.range.value.from + 1 == f.limit
    ensures AtLeast(PubDate, f.startDate) in q.conditions <==> Truthy(f.startDate)
    ensures AtMost(PubDate, f.endDate) in q.conditions <==> Truthy(f.endDate)
    ensures Equals("source_id", f.sourceId) in q.conditions <==> Truthy(f.sourceId)
    ensures forall c :: c in q.conditions ==>
              c == AtLeast(PubDate, f.startDate) || c == AtMost(PubDate, f.endDate) || c == Equals("source_id", f.sourceId)
    ensures |q.conditions| <= 3
  {
    q := Query("articles", [], Some(RowRange(f.offset, f.offset + f.limit - 1)), None);
    q := ApplyDateBounds(q, f.startDate, f.endDate);
    if Truthy(f.sourceId) {
      q := q.(conditions := q.conditions + [Equals("source_id", f.sourceId)]);
    }
  }

  /** The query of `getArticlesStats`: no row range and no limit, a date filter for each truthy date. */
  method StatsQuery(startDate: Value, endDate: Value) returns (q: Query)
    ensures q.table == "articles" && q.range.None? && q.rowLimit.None?
    ensures AtLeast(PubDate, startDate) in q.conditions <==> Truthy(startDate)
    ensures AtMost(PubDate, endDate) in q.conditions <==> Truthy(endDate)
    ensures forall c :: c in q.conditions ==> c == AtLeast(PubDate, startDate) || c == AtMost(PubDate, endDate)
    ensures |q.conditions| <= 2
  {
    q := Query("articles", [], None, None);
    q := ApplyDateBounds(q, startDate, endDate);
  }

  /** The query of `getArticlesBySource`: an `eq` on the embedded `sources.name` and rows `offset` to `offset + limit - 1`. */
  function BySourceQuery(sourceName: string, limit: int, offset: int): (q: Query)
    ensures q.conditions == [Equals("sources.name", Str(sourceName))]
    ensures q.range.Some? && q.range.value.from == offset && q.range.value.to - q.range.value.from + 1 == limit
    ensures q.rowLimit.None?
  {
    Query("articles", [Equals("sources.name", Str(sourceName))], Some(RowRange(offset, offset + limit - 1)), None)
  }

  /** The query of `getRecentArticles`: no filter, the first `limit` rows. */
  function RecentQuery(limit: int): (q: Query)
    ensures q.conditions == [] && q.range.None? && q.rowLimit == Some(limit)
  {
    Query("articles", [], None, Some(limit))
  }

  // ---------------------------------------------------------------------
  // The row window
  // ---------------------------------------------------------------------

  /**
   * The rows a range selects from the ordered matches `rows`: those at
   * positions `range.from` through `range.to` that exist.
   */
  function Selected(rows: seq<Value>, range: RowRange): (r: seq<Value>)
    requires 0 <= range.from
    ensures |r| <= if range.to < range.from then 0 else range.to - range.from + 1
    ensures forall i :: 0 <= i < |r| ==> range.from + i < |rows| && r[i] == rows[range.from + i]
    ensures range.from <= range.to + 1 && range.from <= |rows| ==>
              range.from + |r| == (if range.to + 1 < |rows| then range.to + 1 else |rows|)
  {
    if range.to < range.from || |rows| <= range.from then []
    else rows[range.from..if range.to + 1 < |rows| then range.to + 1 else |rows|]
  }

  /** `.limit(n)` on the ordered matches: the first `n` rows, or all of them. */
  function FirstRows(rows: seq<Value>, n: nat): (r: seq<Value>)
    ensures |r| == if n < |rows| then n else |rows|
    ensures r <= rows
  {
    if n < |rows| then rows[..n] else rows
  }

  /** `data?.length === limit` */
  predicate FullPage(data: Option<seq<Value>>, limit: int) {
    data.Some? && |data.value| == limit
  }

  /**
   * A page of a window of `limit` rows starting at `offset` holds at most
   * `limit` rows, in order; it is full whenever enough rows remain, and a
   * page that is not full is the last one: no matching row lies beyond it.
   */
  lemma PageOfWindow(rows: seq<Value>, offset: int, limit: int)
    requires 0 <= offset && 0 <= limit
    ensures var page := Selected(rows, RowRange(offset, offset + limit - 1));
      && |page| <= limit
      && (offset + limit <= |rows| ==> FullPage(Some(page), limit))
      && (!FullPage(Some(page), limit) ==> |rows| <= offset + |page|)
  {
    var page := Selected(rows, RowRange(offset, offset + limit - 1));
    if offset + limit <= |rows| && limit > 0 {
      assert offset + |page| == offset + limit;
    }
  }

  /**
   * `hasMore` is a guess: when the matches end exactly at the end of a
   * full page, the page claims more rows although none follow.
   */
  lemma FullLastPage(rows: seq<Value>, offset: int, limit: int)
    requires 0 <= offset && 0 < limit && |rows| == offset + limit
    ensures var page := Selected(rows, RowRange(offset, offset + limit - 1));
      FullPage(Some(page), limit) && |rows| == offset + |page|
  {
    var page := Selected(rows, RowRange(offset, offset + limit - 1));
    assert offset + |page| == |rows|;
  }

  // ---------------------------------------------------------------------
  // Responses
  // ---------------------------------------------------------------------

  /** `data || []` */
  function RowsOrEmpty(data: Option<seq<Value>>): (r: seq<Value>)
    ensures data.Some? ==> r == data.value
    ensures data.None? ==> r == []
  {
    if data.Some? then data.value else []
  }

  /** The message of the error thrown for a failed query: the method's own prefix and the error's `message`. */
  function FailureMessage(prefix: string, message: Value): (r: string)
    ensures |prefix| <= |r| && r[..|prefix|] == prefix && r[|prefix|..] == ToStr(message)
  {
    prefix + ToStr(message)
  }

  /**
   * A page of articles: `data || []`, `count` its length (`data?.length || 0`),
   * `hasMore` when a row list of exactly `limit` rows came back, or the
   * error thrown when the query failed.
   */
  function Page(prefix: string, result: QueryResult, filters: ArticlesFilter, limit: int, offset: int): (r: Result<ArticlesResponse, string>)
    ensures r.Failure? <==> result.DbError?
    ensures result.DbError? ==> r.error == FailureMessage(prefix, result.message)
    ensures r.Success? ==> r.value.count == |r.value.data| && r.value.filters == filters
    ensures r.Success? ==> r.value.data == RowsOrEmpty(result.data)
    ensures r.Success? ==> r.value.pagination.limit == limit && r.value.pagination.offset == offset
    ensures r.Success? ==> (r.value.pagination.hasMore <==> result.data.Some? && |result.data.value| == limit)
  {
    match result
    case DbError(message) => Failure(FailureMessage(prefix, message))
    case Rows(data) =>
      var rows := RowsOrEmpty(data);
      Success(ArticlesResponse(rows, |rows|, filters, Pagination(limit, offset, FullPage(data, limit))))
  }

  /** `getFilteredArticles(filters)` against the database `db`; `q` is the query it sends. */
  method GetFilteredArticles(f: ArticlesFilter, db: Query -> QueryResult) returns (r: Result<ArticlesResponse, string>, q: Query)
    ensures q.range == Some(RowRange(f.offset, f.offset + f.limit - 1))
    ensures AtLeast(PubDate, f.startDate) in q.conditions <==> Truthy(f.startDate)
    ensures AtMost(PubDate, f.endDate) in q.conditions <==> Truthy(f.endDate)
    ensures forall c :: c in q.conditions ==> c == AtLeast(PubDate, f.startDate) || c == AtMost(PubDate, f.endDate) || c == Equals("source_id", f.sourceId)
    ensures Equals("source_id", f.sourceId) in q.conditions <==> Truthy(f.sourceId)
    ensures r == Page("Failed to fetch articles: ", db(q), f, f.limit, f.offset)
  {
    var query := FilteredArticlesQuery(f);
    q := query;
    r := Page("Failed to fetch articles: ", db(query), f, f.limit, f.offset);
  }

  /**
   * `getArticlesBySource(sourceName, limit = 50, offset = 0)` against `db`:
   * the echoed filters hold only the source name, the limit and the offset.
   */
  function GetArticlesBySource(sourceName: string, limit: Option<int>, offset: Option<int>, db: Query -> QueryResult): (r: Result<ArticlesResponse, string>)
    ensures var l := if limit.Some? then limit.value else DefaultSourceLimit;
            var o := if offset.Some? then offset.value else 0;
            r == Page("Failed to fetch articles by source: ", db(BySourceQuery(sourceName, l, o)),
                      ArticlesFilter(Undefined, Undefined, Undefined, Str(sourceName), l, o), l, o)
    ensures r.Success? ==> r.value.filters.sourceName == Str(sourceName) && r.value.filters.sourceId == Undefined
  {
    var l := if limit.Some? then limit.value else DefaultSourceLimit;
    var o := if offset.Some? then offset.value else 0;
    Page("Failed to fetch articles by source: ", db(BySourceQuery(sourceName, l, o)),
         ArticlesFilter(Undefined, Undefined, Undefined, Str(sourceName), l, o), l, o)
  }

  /**
   * `getRecentArticles(limit = 10)` against `db`: the offset reported is
   * always 0 and `hasMore` is always false, however many rows there are.
   */
  function GetRecentArticles(limit: Option<int>, db: Query -> QueryResult): (r: Result<ArticlesResponse, string>)
    ensures var l := if limit.Some? then limit.value else DefaultRecentLimit;
            db(RecentQuery(l)).DbError? ==> r == Failure(FailureMessage("Failed to fetch getRecentArticles: ", db(RecentQuery(l)).message))
    ensures var l := if limit.Some? then limit.value else DefaultRecentLimit;
            r.Success? ==> r.value.data == RowsOrEmpty(db(RecentQuery(l)).data) && r.value.count == |r.value.data|
    ensures var l := if limit.Some? then limit.value else DefaultRecentLimit;
            r.Success? <==> !db(RecentQuery(l)).DbError?
    ensures var l := if limit.Some? then limit.value else DefaultRecentLimit;
            r.Success? ==> r.value.pagination.limit == l && r.value.filters.limit == l
    ensures r.Success? ==> r.value.pagination.offset == 0 && r.value.filters.offset == 0 && !r.value.pagination.hasMore
  {
    var l := if limit.Some? then limit.value else DefaultRecentLimit;
    match db(RecentQuery(l))
    case DbError(message) => Failure(FailureMessage("Failed to fetch getRecentArticles: ", message))
    case Rows(data) =>
      var rows := RowsOrEmpty(data);
      Success(ArticlesResponse(rows, |rows|, ArticlesFilter(Undefined, Undefined, Undefined, Undefined, l, 0), Pagination(l, 0, false)))
  }

  /** The row limit of a query, or none (0) when it has no valid one. */
  function LimitOf(q: Query): nat {
    if q.rowLimit.Some? && q.rowLimit.value >= 0 then q.rowLimit.value else 0
  }

  /** With more matches than the limit, the recent page is full yet reports no further rows. */
  lemma RecentPageHidesMore(rows: seq<Value>, n: nat)
    requires n < |rows|
    ensures var r := GetRecentArticles(Some(n), (q: Query) => Rows(Some(FirstRows(rows, LimitOf(q)))));
      r.Success? && r.value.count == n < |rows| && !r.value.pagination.hasMore
  {
  }

  // ---------------------------------------------------------------------
  // Statistics
  // ---------------------------------------------------------------------

  /**
   * The source name of a row: the `name` of the first element when
   * `sources` is an array, the `name` of `sources` otherwise, and
   * `'Unknown'` when that name is falsy.
   */
  function SourceName(article: Value): (r: Value)
    ensures Truthy(r)
    ensures var s := Get(article, "sources");
            var name := if s.Arr? then Get(At(s, 0), "name") else Get(s, "name");
            r == (if Truthy(name) then name else Str("Unknown"))
  {
    var s := Get(article, "sources");
    if s.Arr? then OrElse(Get(At(s, 0), "name"), Str("Unknown"))
    else OrElse(Get(s, "name"), Str("Unknown"))
  }

  /** The property key `bySource[sourceName]` uses: the name as a string. */
  function SourceKey(article: Value): (r: string)
    ensures SourceName(article).Str? ==> r == SourceName(article).s
    ensures !Get(article, "sources").Arr? && !Truthy(Get(Get(article, "sources"), "name")) ==> r == "Unknown"
  {
    ToStr(SourceName(article))
  }

  function SourceKeys(rows: seq<Value>): (r: seq<string>)
    ensures |r| == |rows|
    ensures forall i :: 0 <= i < |rows| ==> r[i] == SourceKey(rows[i])
  {
    seq(|rows|, i requires 0 <= i < |rows| => SourceKey(rows[i]))
  }

  /** One more row for `key`: `(bySource[key] || 0) + 1`. */
  function Bump(m: map<string, nat>, key: string): (r: map<string, nat>)
    ensures r.Keys == m.Keys + {key}
    ensures r[key] == (if key in m then m[key] else 0) + 1
    ensures forall k :: k in m && k != key ==> r[k] == m[k]
  {
    m[key := (if key in m then m[key] else 0) + 1]
  }

  /** The counts per key of `keys`, adding the rows in order. */
  function Tally(keys: seq<string>): map<string, nat> {
    if keys == [] then map[] else Bump(Tally(keys[..|keys| - 1]), keys[|keys| - 1])
  }

  lemma TallyExtend(keys: seq<string>, k: string)
    ensures Tally(keys + [k]) == Bump(Tally(keys), k)
  {
    assert (keys + [k])[..|keys|] == keys;
  }

  lemma TallyStep(keys: seq<string>, i: nat)
    requires i < |keys|
    ensures Tally(keys[..i + 1]) == Bump(Tally(keys[..i]), keys[i])
  {
    assert keys[..i + 1] == keys[..i] + [keys[i]];
    TallyExtend(keys[..i], keys[i]);
  }

  /** The sum of all counts. */
  ghost function SumCounts(m: map<string, nat>): nat
    decreases |m|
  {
    if m == map[] then 0
    else
      var k :| k in m;
      m[k] + SumCounts(m - {k})
  }

  /** The sum does not depend on which key is taken out first. */
  lemma {:induction false} SumCountsRemove(m: map<string, nat>, k: string)
    requires k in m
    ensures SumCounts(m) == m[k] + SumCounts(m - {k})
    decreases |m|
  {
    var j :| j in m && SumCounts(m) == m[j] + SumCounts(m - {j});
    if j != k {
      SumCountsRemove(m - {j}, k);
      SumCountsRemove(m - {k}, j);
      assert m - {j} - {k} == m - {k} - {j};
    }
  }

  /** One more row adds one to the sum. */
  lemma SumCountsBump(m: map<string, nat>, key: string)
    ensures SumCounts(Bump(m, key)) == SumCounts(m) + 1
  {
    var b := Bump(m, key);
    SumCountsRemove(b, key);
    if key in m {
      SumCountsRemove(m, key);
      assert b - {key} == m - {key};
    } else {
      assert b - {key} == m;
    }
  }

  /** Every row is counted once: the counts sum to the number of rows. */
  lemma {:induction false} TallySum(keys: seq<string>)
    ensures SumCounts(Tally(keys)) == |keys|
    decreases |keys|
  {
    if keys != [] {
      TallySum(keys[..|keys| - 1]);
      SumCountsBump(Tally(keys[..|keys| - 1]), keys[|keys| - 1]);
    }
  }

  /** The keys are exactly the names that occur, and each count is how often its name occurs. */
  lemma {:induction false} TallyCounts(keys: seq<string>)
    ensures forall k :: k in Tally(keys) <==> k in keys
    ensures forall k :: k in Tally(keys) ==> Tally(keys)[k] == multiset(keys)[k]
    decreases |keys|
  {
    if keys != [] {
      var init := keys[..|keys| - 1];
      TallyCounts(init);
      assert keys == init + [keys[|keys| - 1]];
    }
  }

  /**
   * The `forEach` of `getArticlesStats`, with `bySource` as a map: each row
   * adds one to the count of its source name.
   */
  method GroupBySource(rows: seq<Value>) returns (bySource: map<string, nat>)
    ensures bySource == Tally(SourceKeys(rows))
    ensures SumCounts(bySource) == |rows|
    ensures forall k :: k in bySource <==> k in SourceKeys(rows)
    ensures forall k :: k in bySource ==> bySource[k] == multiset(SourceKeys(rows))[k]
  {
    ghost var keys := SourceKeys(rows);
    bySource := map[];
    var i := 0;
    while i < |rows|
      invariant 0 <= i <= |rows|
      invariant bySource == Tally(keys[..i])
    {
      var key := SourceKey(rows[i]);
      var n := if key in bySource then bySource[key] else 0;
      bySource := bySource[key := n + 1];
      TallyStep(keys, i);
      i := i + 1;
    }
    assert keys[..i] == keys;
    TallySum(keys);
    TallyCounts(keys);
  }

  /** `getArticlesStats(startDate, endDate)` against `db`; `q` is the query it sends. */
  method GetArticlesStats(startDate: Value, endDate: Value, db: Query -> QueryResult) returns (r: Result<StatsResponse, string>, q: Query)
    ensures q.range.None? && q.rowLimit.None?
    ensures AtLeast(PubDate, startDate) in q.conditions <==> Truthy(startDate)
    ensures AtMost(PubDate, endDate) in q.conditions <==> Truthy(endDate)
    ensures forall c :: c in q.conditions ==> c == AtLeast(PubDate, startDate) || c == AtMost(PubDate, endDate)
    ensures r.Failure? <==> db(q).DbError?
    ensures db(q).DbError? ==> r.error == FailureMessage("Failed to fetch articles stats: ", db(q).message)
    ensures r.Success? ==> r.value.totalArticles == |RowsOrEmpty(db(q).data)|
    ensures r.Success? ==> SumCounts(r.value.bySource) == r.value.totalArticles
    ensures r.Success? ==> r.value.bySource == Tally(SourceKeys(RowsOrEmpty(db(q).data)))
    ensures r.Success? ==> r.value.startDate == (if Truthy(startDate) then startDate else Str("all"))
    ensures r.Success? ==> r.value.endDate == (if Truthy(endDate) then endDate else Str("all"))
  {
    var query := StatsQuery(startDate, endDate);
    q := query;
    match db(query)
    case DbError(message) =>
      r := Failure(FailureMessage("Failed to fetch articles stats: ", message));
    case Rows(data) =>
      var rows := RowsOrEmpty(data);
      var bySource := GroupBySource(rows);
      r := Success(StatsResponse(|rows|, bySource, OrElse(startDate, Str("all")), OrElse(endDate, Str("all"))));
  }

  // ---------------------------------------------------------------------
  // The fold as written, on a plain object
  // ---------------------------------------------------------------------

  /** The one key whose assignment on a plain object does not create a property. */
  const ProtoKey := "__proto__"

  /**
   * One step of the fold with `bySource = {}`: `bySource['__proto__']`
   * reads `Object.prototype`, `+ 1` turns it into a string, and assigning
   * a string to `__proto__` is ignored; any other key counts as in `Bump`.
   */
  function PlainObjectBump(m: map<string, nat>, key: string): (r: map<string, nat>)
    ensures ProtoKey in r <==> ProtoKey in m
    ensures key == ProtoKey ==> r == m
    ensures key != ProtoKey ==> key in r && r[key] == (if key in m then m[key] else 0) + 1
    ensures r.Keys == (if key == ProtoKey then m.Keys else m.Keys + {key})
    ensures forall k :: k in m && k != key ==> r[k] == m[k]
  {
    if key == ProtoKey then m else Bump(m, key)
  }

  /** The fold with `bySource = {}`: it never holds a `__proto__` count. */
  function PlainObjectTally(keys: seq<string>): (r: map<string, nat>)
    ensures ProtoKey !in r
  {
    if keys == [] then map[] else PlainObjectBump(PlainObjectTally(keys[..|keys| - 1]), keys[|keys| - 1])
  }

  /** The fold as written is the intended one without the `__proto__` entry. */
  lemma {:induction false} PlainObjectDropsProto(keys: seq<string>)
    ensures PlainObjectTally(keys) == Tally(keys) - {ProtoKey}
    decreases |keys|
  {
    if keys != [] {
      var init := keys[..|keys| - 1];
      PlainObjectDropsProto(init);
      var k := keys[|keys| - 1];
      if k == ProtoKey {
        assert Bump(Tally(init), k) - {ProtoKey} == Tally(init) - {ProtoKey};
      } else {
        assert Bump(Tally(init), k) - {ProtoKey} == Bump(Tally(init) - {ProtoKey}, k);
      }
    }
  }

  /** With the fold as written, the counts miss every row of a source named `__proto__`. */
  lemma PlainObjectUndercounts(keys: seq<string>)
    ensures SumCounts(PlainObjectTally(keys)) == |keys| - multiset(keys)[ProtoKey]
  {
    PlainObjectDropsProto(keys);
    TallySum(keys);
    TallyCounts(keys);
    if ProtoKey in Tally(keys) {
      SumCountsRemove(Tally(keys), ProtoKey);
    } else {
      assert Tally(keys) - {ProtoKey} == Tally(keys);
    }
  }

  /** One row from a source named `__proto__`: one article in total, no count at all. */
  lemma ProtoSourceUncounted()
    ensures var keys := SourceKeys([Obj(map["sources" := Obj(map["name" := Str(ProtoKey)])])]);
      |keys| == 1 && PlainObjectTally(keys) == map[] && Tally(keys) == map[ProtoKey := 1]
  {
    var keys := SourceKeys([Obj(map["sources" := Obj(map["name" := Str(ProtoKey)])])]);
    assert keys == [ProtoKey];
    assert keys[..0] == [];
  }
}
