/**
 * The two tables the ingestion service writes, `sources` and `articles`,
 * as an object whose operations may fail. A failure is not under the
 * caller's control (the network, a row-level security policy, a
 * constraint), so each operation chooses nondeterministically whether it
 * fails; when it fails it changes nothing, and when it succeeds it does
 * exactly what the query asks.
 */
module ArticleStore {
  import opened Wrappers
  import opened JsValues

  datatype SourceRow = SourceRow(id: int, name: string, url: string, weight: real)

  /** One row of `articles`, as the insert payload of the ingestion loop builds it. */
  datatype Article = Article(
    sourceId: int,
    guid: Value,
    link: Value,
    title: Value,
    description: Value,
    contentHtml: Value,
    contentText: string,
    author: Value,
    categories: Option<seq<Value>>,
    pubDate: Option<string>,
    feedLanguage: Value,
    hash: string,
    firstSeenAt: string)

  /** The error object of the store client: a machine-readable code and a message. */
  datatype StoreError = StoreError(code: string, message: string)

  /** Some stored article carries this guid. */
  predicate HoldsGuid(articles: seq<Article>, guid: Value) {
    exists i :: 0 <= i < |articles| && articles[i].guid == guid
  }

  /**
   * No truthy guid is stored twice. The store itself does not enforce
   * this: the ingestion loop keeps it by looking each truthy guid up
   * before it inserts.
   */
  predicate UniqueGuids(articles: seq<Article>) {
    forall i, j :: 0 <= i < j < |articles| && Truthy(articles[i].guid) ==> articles[i].guid != articles[j].guid
  }

  /** Appending never loses a stored guid. */
  lemma HoldsGuidGrows(a: seq<Article>, b: seq<Article>, guid: Value)
    requires a <= b && HoldsGuid(a, guid)
    ensures HoldsGuid(b, guid)
  {
    var i :| 0 <= i < |a| && a[i].guid == guid;
    assert b[i] == a[i];
  }

  /** Appending an article whose guid is falsy or new keeps the guids unique. */
  lemma AppendKeepsUnique(articles: seq<Article>, a: Article)
    requires UniqueGuids(articles)
    requires !Truthy(a.guid) || !HoldsGuid(articles, a.guid)
    ensures UniqueGuids(articles + [a])
  {
    var s := articles + [a];
    forall i, j | 0 <= i < j < |s| && Truthy(s[i].guid) ensures s[i].guid != s[j].guid {
      assert s[i] == articles[i];
    }
  }

  class Store {
    /** `sources`, keyed by its conflict column `url`. */
    var sources: map<string, SourceRow>
    var nextSourceId: int
    var articles: seq<Article>

    /** Each source row sits under its own url, and the ids are distinct and below `nextSourceId`. */
    ghost predicate Valid()
      reads this
    {
      && (forall u :: u in sources ==> sources[u].url == u && sources[u].id < nextSourceId)
      && (forall u, v :: u in sources && v in sources && u != v ==> sources[u].id != sources[v].id)
    }

    constructor ()
      ensures Valid()
      ensures sources == map[] && articles == []
    {
      sources := map[];
      nextSourceId := 1;
      articles := [];
    }

    /**
     * `upsert(source, { onConflict: 'url' }).select('id').single()`: a row
     * with the same url keeps its id and takes the new name and weight;
     * otherwise a row with a fresh id is added.
     */
    method UpsertSource(name: string, url: string, weight: real) returns (r: Result<int, StoreError>)
      requires Valid()
      modifies this
      ensures Valid()
      ensures articles == old(articles)
      ensures r.Failure? ==> sources == old(sources) && nextSourceId == old(nextSourceId)
      ensures r.Success? ==> sources == old(sources)[url := SourceRow(r.value, name, url, weight)]
      ensures r.Success? && url in old(sources) ==> r.value == old(sources)[url].id
      ensures r.Success? && url !in old(sources) ==> forall u :: u in old(sources) ==> old(sources)[u].id != r.value
    {
      var fails: bool := *;
      if fails {
        var e: StoreError := *;
        return Failure(e);
      }
      var id: int;
      if url in sources {
        id := sources[url].id;
      } else {
        id := nextSourceId;
        nextSourceId := nextSourceId + 1;
      }
      sources := sources[url := SourceRow(id, name, url, weight)];
      r := Success(id);
    }

    /** `select('id').eq('guid', guid).limit(1).maybeSingle()`: whether a stored article has this guid. */
    method FindByGuid(guid: Value) returns (r: Result<bool, StoreError>)
      ensures r.Success? ==> (r.value <==> HoldsGuid(articles, guid))
    {
      var fails: bool := *;
      if fails {
        var e: StoreError := *;
        return Failure(e);
      }
      r := Success(exists k | 0 <= k < |articles| :: articles[k].guid == guid);
    }

    /** `insert(payload)`: the article is appended, or nothing changes. */
    method Insert(a: Article) returns (r: Option<StoreError>)
      requires Valid()
      modifies this
      ensures Valid()
      ensures sources == old(sources) && nextSourceId == old(nextSourceId)
      ensures r.None? ==> articles == old(articles) + [a]
      ensures r.Some? ==> articles == old(articles)
    {
      var fails: bool := *;
      if fails {
        var e: StoreError := *;
        return Some(e);
      }
      articles := articles + [a];
      r := None;
    }
  }
}
