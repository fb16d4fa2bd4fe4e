/**
 * How the ingestion service reads one parsed feed item: `asArray`, the
 * priority order in which each field is looked up, and the conversion of
 * the content markup to text.
 *
 * The XML parser hands back a tree of `Value`s: an element becomes an
 * object keyed by child-element and attribute name (attributes without a
 * prefix), a repeated element becomes an array, text becomes a string
 * (or a number, when it reads as one), and an element that carries both
 * attributes and text keeps the text under `#text`.
 */
module FeedItems {
  import opened Wrappers
  import opened JsValues
  import TextNormalizer

  /** `asArray(v)`: an array as it is, a truthy value as a one-element list, anything falsy as the empty list. */
  function AsArray(v: Value): (r: seq<Value>)
    ensures v.Arr? ==> r == v.elems
    ensures !v.Arr? && Truthy(v) ==> r == [v]
    ensures !Truthy(v) ==> r == []
  {
    if v.Arr? then v.elems else if Truthy(v) then [v] else []
  }

  /** Normalising twice changes nothing more. */
  lemma AsArrayIdempotent(v: Value)
    ensures AsArray(Arr(AsArray(v))) == AsArray(v)
  {
  }

  /** The fields of one item, after the lookups of the ingestion loop. */
  datatype FeedItem = FeedItem(
    guid: Value,
    link: Value,
    title: Value,
    description: Value,
    contentHtml: Value,
    pubDateRaw: Value,
    author: Value,
    categories: seq<Value>)

  /** `typeof c === 'string' ? c : c?.['#text'] ?? ''` */
  function CategoryLabel(c: Value): (r: Value)
    ensures c.Str? ==> r == c
    ensures !c.Str? && !Nullish(Get(c, "#text")) ==> r == Get(c, "#text")
    ensures !c.Str? && Nullish(Get(c, "#text")) ==> r == Str("")
  {
    if c.Str? then c else Coalesce(Get(c, "#text"), Str(""))
  }

  function CategoryLabels(cs: seq<Value>): (r: seq<Value>)
    ensures |r| == |cs|
    ensures forall i :: 0 <= i < |cs| ==> r[i] == CategoryLabel(cs[i])
  {
    if cs == [] then [] else [CategoryLabel(cs[0])] + CategoryLabels(cs[1..])
  }

  /**
   * The field lookups for one item: the guid's `#text` before the guid
   * itself; `content:encoded`, then `content`, then the description, then
   * `''` for the markup; `author` before `dc:creator`; the categories
   * normalised to a list of labels.
   */
  function ResolveItem(item: Value): (r: FeedItem)
    ensures !Nullish(r.contentHtml)
    ensures r.link == Get(item, "link") && r.title == Get(item, "title") && r.pubDateRaw == Get(item, "pubDate")
    ensures r.description == Get(item, "description")
    ensures |r.categories| == |AsArray(Get(item, "category"))|
  {
    var guid := Coalesce(Coalesce(Get(Get(item, "guid"), "#text"), Get(item, "guid")), Undefined);
    var description := Get(item, "description");
    var contentHtml := Coalesce(Coalesce(Get(item, "content:encoded"), Get(item, "content")), Undefined);
    var author := Coalesce(Coalesce(Get(item, "author"), Get(item, "dc:creator")), Undefined);
    FeedItem(
      guid,
      Get(item, "link"),
      Get(item, "title"),
      description,
      Coalesce(Coalesce(contentHtml, description), Str("")),
      Get(item, "pubDate"),
      author,
      CategoryLabels(AsArray(Get(item, "category"))))
  }

  /** The first of `vs` that is neither undefined nor null, and undefined if there is none. */
  function FirstPresent(vs: seq<Value>): (r: Value)
    ensures Nullish(r) ==> forall i :: 0 <= i < |vs| ==> Nullish(vs[i])
    ensures !Nullish(r) ==> exists k :: 0 <= k < |vs| && r == vs[k] && forall i :: 0 <= i < k ==> Nullish(vs[i])
  {
    if vs == [] then Undefined
    else if !Nullish(vs[0]) then vs[0]
    else
      var r := FirstPresent(vs[1..]);
      assert forall i :: 1 <= i < |vs| ==> vs[i] == vs[1..][i - 1];
      r
  }

  /** The guid is the guid's `#text` when it has one, and otherwise the guid element itself. */
  lemma GuidPriority(item: Value)
    ensures ResolveItem(item).guid == FirstPresent([Get(Get(item, "guid"), "#text"), Get(item, "guid")])
  {
    var vs := [Get(Get(item, "guid"), "#text"), Get(item, "guid")];
    assert vs[1..] == [Get(item, "guid")] && vs[1..][1..] == [];
    if Nullish(vs[0]) {
      assert FirstPresent(vs) == FirstPresent(vs[1..]);
      if Nullish(vs[1]) {
        assert FirstPresent(vs[1..]) == FirstPresent([]);
      }
    }
  }

  /** The markup comes from `content:encoded`, `content`, `description`, in that order, and is `''` when none is present. */
  lemma ContentPriority(item: Value)
    ensures ResolveItem(item).contentHtml
         == Coalesce(FirstPresent([Get(item, "content:encoded"), Get(item, "content"), Get(item, "description")]), Str(""))
    ensures !Nullish(ResolveItem(item).contentHtml)
  {
    var vs := [Get(item, "content:encoded"), Get(item, "content"), Get(item, "description")];
    assert vs[1..] == [Get(item, "content"), Get(item, "description")];
    assert vs[1..][1..] == [Get(item, "description")] && vs[1..][1..][1..] == [];
    if Nullish(vs[0]) {
      assert FirstPresent(vs) == FirstPresent(vs[1..]);
      if Nullish(vs[1]) {
        assert FirstPresent(vs[1..]) == FirstPresent(vs[1..][1..]);
        if Nullish(vs[2]) {
          assert FirstPresent(vs[1..][1..]) == FirstPresent([]);
        }
      }
    }
  }

  /** The author is `author`, and `dc:creator` only when there is no `author`. */
  lemma AuthorPriority(item: Value)
    ensures ResolveItem(item).author == FirstPresent([Get(item, "author"), Get(item, "dc:creator")])
  {
    var vs := [Get(item, "author"), Get(item, "dc:creator")];
    assert vs[1..] == [Get(item, "dc:creator")] && vs[1..][1..] == [];
    if Nullish(vs[0]) {
      assert FirstPresent(vs) == FirstPresent(vs[1..]);
      if Nullish(vs[1]) {
        assert FirstPresent(vs[1..]) == FirstPresent([]);
      }
    }
  }

  /**
   * Every label is the label of the category at the same position: the
   * category string itself, else its present `#text`, else `''`.
   */
  lemma CategoryLabelsFromCategories(item: Value)
    ensures |ResolveItem(item).categories| == |AsArray(Get(item, "category"))|
    ensures forall i :: 0 <= i < |AsArray(Get(item, "category"))| ==>
              ResolveItem(item).categories[i] == CategoryLabel(AsArray(Get(item, "category"))[i])
    ensures forall i :: 0 <= i < |AsArray(Get(item, "category"))| ==>
              var c := AsArray(Get(item, "category"))[i];
              if c.Str? then ResolveItem(item).categories[i] == c
              else ResolveItem(item).categories[i] == Get(c, "#text") || ResolveItem(item).categories[i] == Str("")
    ensures Get(item, "category").Str? && Get(item, "category").s != ""
            ==> ResolveItem(item).categories == [Get(item, "category")]
    ensures !Truthy(Get(item, "category")) ==> ResolveItem(item).categories == []
  {
  }

  /** The message of the `TypeError` that `html.replace` raises on a value that is not a string. */
  const ReplaceNotAFunction := "html.replace is not a function"

  /**
   * `stripHtmlToText(content_html)`: a falsy value gives `''`, a string is
   * normalised, and any other truthy value makes `html.replace` throw.
   */
  function ContentText(html: Value): (r: Result<string, string>)
    ensures !Truthy(html) ==> r == Success("")
    ensures html.Str? ==> r == Success(TextNormalizer.StripHtmlToText(html.s))
    ensures Truthy(html) && !html.Str? ==> r == Failure(ReplaceNotAFunction)
  {
    if !Truthy(html) then Success("")
    else if html.Str? then Success(TextNormalizer.StripHtmlToText(html.s))
    else Failure(ReplaceNotAFunction)
  }

  /** `categories?.length ? categories : null`: a list with no label is stored as null. */
  function CategoriesColumn(labels: seq<Value>): (r: Option<seq<Value>>)
    ensures r.None? <==> labels == []
    ensures r.Some? ==> r.value == labels
  {
    if |labels| > 0 then Some(labels) else None
  }
}
