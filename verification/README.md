# CoinDesk feed ingestion and article queries, modelled in Dafny

This project models the two services of the articles backend that contain real logic.

**The RSS ingestion service** (`RssIngestService`) has four parts:

- `stripHtmlToText` turns an item's HTML into plain text through a fixed chain of global regular-expression replacements.
- `hashContent` fingerprints an item by joining its truthy fields with newlines, cutting the result to 1,000,000 characters and hashing it with SHA-256.
- Each parsed feed item is read with a fixed priority order per field.
- `ingestCoinDesk` registers the CoinDesk source, fetches the feed, and walks the items.
  - An item whose guid is already stored is skipped; any other item is inserted.
  - A failure on one item is recorded in `errors` and the walk goes on.

**The query service** (`ArticlesQueryService`) answers three kinds of request:

- paged article lists, whose row window is `range(offset, offset + limit - 1)` and which report `count` and `hasMore`;
- recent articles;
- statistics, which fold the rows into a count per source name.

## How the model is organised

- `wrappers.dfy`: `Option` and `Result`.
- `js_values.dfy`: JavaScript values as the XML parser and the database client hand them over. It covers truthiness, `??`, `||`, `?.[key]` and `String(v)`.
- `text_normalizer.dfy`: `stripHtmlToText`.
  - `Rewrite` is the left-to-right scan of `String.prototype.replace` with a global regular expression.
  - Each regular expression is a matcher that returns the length of the match at the start of its argument.
- `fingerprint.dfy`: the string that `hashContent` hands to SHA-256.
- `feed_items.dfy`: `asArray` and the per-item field lookups.
- `article_store.dfy`: the `sources` and `articles` tables, as a class whose operations may fail at any call.
- `rss_ingest.dfy`: the `ingestCoinDesk` loop.
  - Its counters are tied to a ghost trace of the per-item outcomes.
  - The guid properties of the run are kept as loop invariants.
- `articles_query.dfy`: query building, paging, responses and the statistics fold.

What the services take from their host becomes a parameter:

- the SHA-256 digest;
- `new Date(v).toISOString()`, which is partial because an invalid date throws;
- the clock;
- the fetched and parsed feed;
- the database's answer to a query.

## Model

| member | source | states |
|---|---|---|
| JsValues.Truthy | src/articles/rss-ingest.service.ts:45 | Undefined, null, `false` and `0` are falsy, and `true` and every non-zero number are truthy. Arrays and objects are always truthy, even when empty. A string is truthy exactly when it is non-empty. |
| JsValues.Coalesce | src/articles/rss-ingest.service.ts:101 | `a ?? b` is `b` when `a` is nullish and `a` otherwise, so it is nullish only when both are. On a truthy left side it agrees with `a || b`. Unlike `||`, it keeps a falsy left side that is not nullish, such as `''` or `0`. |
| JsValues.ToStr | src/articles/articles-query.service.ts:164 | A string converts to itself. An integer converts to an optional minus sign, present exactly for negatives, followed by decimal digits. An empty array, or one holding a single nullish element, converts to `''`. |
| JsValues.ToStrDecimal | src/articles/articles-query.service.ts:164 | The digits of a converted integer denote its absolute value, with no leading zero. |
| JsValues.OrElse | src/articles/articles-query.service.ts:161-163 | `a || b` is `a` when `a` is truthy and `b` otherwise, so the result is truthy exactly when either operand is. |
| JsValues.Get | src/articles/rss-ingest.service.ts:101-109 | `v?.[key]` is the object's own field when it has one, and undefined when it has none or when `v` is not an object. Inherited properties are not modelled (see Left out). |
| JsValues.At | src/articles/articles-query.service.ts:162 | `v[i]` is the array's element at `i`, and undefined past the end or when `v` is not an array. |
| TextNormalizer.RewriteKeeps | src/articles/rss-ingest.service.ts:25-40 | A global `replace` whose pattern matches at no position returns the text unchanged. |
| TextNormalizer.RewriteNoLonger | src/articles/rss-ingest.service.ts:25-40 | A global `replace` never lengthens the text when the replacement is no longer than any match. |
| TextNormalizer.FindCI | src/articles/rss-ingest.service.ts:25 | The lazy `[\s\S]*?` before a closing tag. The result is the first position at or after `from` where the closing tag starts, ignoring ASCII case. If there is none, no position matches. |
| TextNormalizer.ScriptMatch | src/articles/rss-ingest.service.ts:25 | A `<script…</script>` match stays inside the string. It starts with `<script` and ends with `</script>`, both in any letter case, so it is at least 16 characters long. |
| TextNormalizer.StyleMatch | src/articles/rss-ingest.service.ts:25 | A `<style…</style>` match stays inside the string. It starts with `<style` and ends with `</style>`, both in any letter case, so it is at least 14 characters long. |
| TextNormalizer.ScriptElementMatch | src/articles/rss-ingest.service.ts:25 | On `<script` + body + `</script>`, where the body holds no closing tag, the match covers exactly the whole element. |
| TextNormalizer.ElementMatchOfElement | src/articles/rss-ingest.service.ts:25 | For any lower-case opening and closing tag, an element whose body holds no closing tag is matched exactly up to the end of its closing tag. |
| TextNormalizer.ScriptElementRemoved | src/articles/rss-ingest.service.ts:25 | A whole lower-case script element, whose body holds no closing tag in any letter case, is deleted. The rest of the text is rewritten as if the element were absent. |
| TextNormalizer.RemoveScriptsAndStyles | src/articles/rss-ingest.service.ts:25 | Deleting the script and style elements never lengthens the text. |
| TextNormalizer.BlockCloseMatch | src/articles/rss-ingest.service.ts:28 | A match of the block-closing pattern stays inside the string and starts with `</`. |
| TextNormalizer.BlockCloseToNewline | src/articles/rss-ingest.service.ts:28 | Turning each closing block tag into a newline never lengthens the text. |
| TextNormalizer.BlockCloseInContext | src/articles/rss-ingest.service.ts:28 | A complete block-closing tag inside text becomes exactly one newline. The text on each side is rewritten independently. |
| TextNormalizer.BrMatch | src/articles/rss-ingest.service.ts:29 | A `<br>` match stays inside the string and starts with `<b` in either case. |
| TextNormalizer.BreakToNewline | src/articles/rss-ingest.service.ts:29 | Turning each line-break tag, with the newline after it, into one newline never lengthens the text. |
| TextNormalizer.BrMatchOfTag | src/articles/rss-ingest.service.ts:29 | On `<br`, any whitespace, an optional `/` and `>`, the match covers the tag and at most one newline right after it. |
| TextNormalizer.BreakInContext | src/articles/rss-ingest.service.ts:29 | Inside text, a line-break tag and one newline following it become a single newline. |
| TextNormalizer.BreakOfTag | src/articles/rss-ingest.service.ts:29 | A line-break tag at the start of the text becomes a newline and absorbs one following newline. |
| TextNormalizer.TagMatch | src/articles/rss-ingest.service.ts:31 | A `<[^>]+>` match stays inside the string and starts with `<`. |
| TextNormalizer.RemoveTags | src/articles/rss-ingest.service.ts:31 | Deleting the remaining tags never lengthens the text. |
| TextNormalizer.RemoveTagsLeavesNoTag | src/articles/rss-ingest.service.ts:31 | After tag removal, no position starts a `<…>` tag. A leading character other than `<` survives. A `>` in the output was already in the input. |
| TextNormalizer.RemoveTagsIdempotent | src/articles/rss-ingest.service.ts:31 | Removing tags a second time changes nothing. |
| TextNormalizer.MarkupStagesKeep | src/articles/rss-ingest.service.ts:25-31 | Text without `<` passes the script, block, break and tag stages unchanged. |
| TextNormalizer.DecodeEntities | src/articles/rss-ingest.service.ts:32-38 | Decoding never lengthens the text, since each entity is longer than its character. |
| TextNormalizer.DecodeEntitiesKeepsPlainText | src/articles/rss-ingest.service.ts:32-38 | Text without `&` is unchanged by the six entity replacements. |
| TextNormalizer.EntitiesDecodeInSequence | src/articles/rss-ingest.service.ts:32-38 | The replacements run one after another, so `&amp;lt;` is decoded twice, to `<`. |
| TextNormalizer.BlankMatch | src/articles/rss-ingest.service.ts:40 | A `[\t ]+` match stays inside the string and starts with a tab or space. |
| TextNormalizer.NewlinesMatch | src/articles/rss-ingest.service.ts:40 | A `\n{3,}` match stays inside the string and starts with three newlines. |
| TextNormalizer.CollapseBlanks | src/articles/rss-ingest.service.ts:40 | Collapsing each run of tabs and spaces into one space never lengthens the text. |
| TextNormalizer.CollapseBlanksShape | src/articles/rss-ingest.service.ts:40 | After `[\t ]+` is replaced by a space, no tab is left and no two spaces are adjacent. A leading space means the input began with a blank. |
| TextNormalizer.CollapseBlanksKeeps | src/articles/rss-ingest.service.ts:40 | Text with no tab and no double space is unchanged by the collapse. |
| TextNormalizer.CapNewlines | src/articles/rss-ingest.service.ts:40 | Capping each run of three or more newlines at two never lengthens the text. |
| TextNormalizer.CapNewlinesNoTriple | src/articles/rss-ingest.service.ts:40 | After `\n{3,}` is replaced by two newlines, no three newlines are adjacent. |
| TextNormalizer.CapNewlinesKeepsNoTab | src/articles/rss-ingest.service.ts:40 | Capping newlines introduces no tab. |
| TextNormalizer.CapNewlinesKeepsNoDoubleSpace | src/articles/rss-ingest.service.ts:40 | Capping newlines introduces no double space. |
| TextNormalizer.CapNewlinesShape | src/articles/rss-ingest.service.ts:40 | Capping newlines leaves no triple newline and keeps the no-tab and no-double-space shapes. |
| TextNormalizer.CapNewlinesKeeps | src/articles/rss-ingest.service.ts:40 | Text without three adjacent newlines is unchanged by the cap. |
| TextNormalizer.TrimStart | src/articles/rss-ingest.service.ts:40 | The result is a suffix of the input. Every removed character is JavaScript whitespace, and the result does not start with whitespace. |
| TextNormalizer.TrimEnd | src/articles/rss-ingest.service.ts:40 | The result is a prefix of the input. Every removed character is JavaScript whitespace, and the result does not end with whitespace. |
| TextNormalizer.Trim | src/articles/rss-ingest.service.ts:40 | `trim` never lengthens the text and leaves no whitespace at either end. Text that neither starts nor ends with whitespace is returned unchanged. |
| TextNormalizer.TrimStartKeepsShape | src/articles/rss-ingest.service.ts:40 | Trimming the start keeps the no-tab, no-double-space and no-triple-newline shapes. |
| TextNormalizer.TrimEndKeepsShape | src/articles/rss-ingest.service.ts:40 | Trimming the end keeps the no-tab, no-double-space and no-triple-newline shapes. |
| TextNormalizer.TrimShape | src/articles/rss-ingest.service.ts:40 | `trim` produces trimmed text and keeps the three shapes. |
| TextNormalizer.StripHtmlToText | src/articles/rss-ingest.service.ts:22-41 | The empty input gives `''`. The text is never longer than the markup. |
| TextNormalizer.StripHtmlToTextIsCanonical | src/articles/rss-ingest.service.ts:22-41 | Every result is trimmed and holds no tab, no two adjacent spaces and no three adjacent newlines. The empty input gives `''`. |
| TextNormalizer.CanonicalPlainTextIsFixed | src/articles/rss-ingest.service.ts:22-41 | Text that is already canonical and has no `<` or `&` is returned unchanged. |
| TextNormalizer.ParagraphMarkup | src/articles/rss-ingest.service.ts:25-31 | The markup stages turn `<p>u<br/>v</p>` into `u\nv\n`, for lines u and v without `<` where v is non-empty and does not start with a newline. The break absorbs one following newline, so for an empty v the result is `u\n`. |
| TextNormalizer.TwoLinesText | src/articles/rss-ingest.service.ts:32-40 | Decoding, collapsing, capping and trimming turn `u\nv\n` into `u\nv` for plain lines u and v: non-empty, trimmed, and free of `<`, `&`, newlines, tabs and double spaces. |
| TextNormalizer.ParagraphWithBreak | src/articles/rss-ingest.service.ts:22-41 | `stripHtmlToText("<p>" + u + "<br/>" + v + "</p>")` is `u + "\n" + v` for any two plain lines (as in `TwoLinesText`), such as `Hello` and `World`. |
| Fingerprint.TruthyParts | src/articles/rss-ingest.service.ts:45 | `filter(Boolean)` keeps only truthy parts, keeps every truthy part, and adds none. |
| Fingerprint.TruthyPartsAppend | src/articles/rss-ingest.service.ts:45 | The filter distributes over concatenation. |
| Fingerprint.JoinLines | src/articles/rss-ingest.service.ts:45 | `join('\n')` of no values is `''`. The string of the first value starts the join, and with two or more values a newline follows it. |
| Fingerprint.HashInput | src/articles/rss-ingest.service.ts:45 | The hashed string is a prefix of the newline join of the truthy parts. It equals the whole join when the join fits in 1,000,000 characters, and is exactly 1,000,000 characters long otherwise. |
| Fingerprint.HashContent | src/articles/rss-ingest.service.ts:43-47 | The fingerprint is the digest of `HashInput` and of nothing else. |
| Fingerprint.FalsyPartIgnored | src/articles/rss-ingest.service.ts:45 | Inserting a falsy part (`undefined`, `''`, and so on) anywhere leaves the hashed string unchanged. |
| Fingerprint.JoinLinesInjective | src/articles/rss-ingest.service.ts:45 | The newline join of non-empty single-line strings determines the list. |
| Fingerprint.HashInputInjective | src/articles/rss-ingest.service.ts:45 | Below the cap, distinct lists of non-empty single-line fields never give the same hashed string. |
| Fingerprint.FieldPositionNotHashed | src/articles/rss-ingest.service.ts:115 | A value given as the guid with no link hashes like the same value given as the link with no guid. |
| FeedItems.AsArray | src/articles/rss-ingest.service.ts:96 | An array is returned as it is, a truthy value becomes a one-element list, and a falsy value becomes `[]`. |
| FeedItems.AsArrayIdempotent | src/articles/rss-ingest.service.ts:96 | Normalising an already-normalised list changes nothing. |
| FeedItems.ResolveItem | src/articles/rss-ingest.service.ts:101-108 | The markup is never nullish. Link, title, description and pubDate are read as they are. There is one category label per normalised category; which label each one gives is `CategoryLabelsFromCategories`. |
| FeedItems.FirstPresent | src/articles/rss-ingest.service.ts:101-107 | A chain of `??` gives the first operand that is not nullish, every operand before it being nullish, and is nullish only when every operand is. |
| FeedItems.GuidPriority | src/articles/rss-ingest.service.ts:101 | The guid is the first present of `guid['#text']` and `guid`. |
| FeedItems.ContentPriority | src/articles/rss-ingest.service.ts:105-113 | The markup is the first present of `content:encoded`, `content` and `description`, else `''`. It is never nullish. |
| FeedItems.AuthorPriority | src/articles/rss-ingest.service.ts:107 | The author is the first present of `author` and `dc:creator`. |
| FeedItems.CategoryLabel | src/articles/rss-ingest.service.ts:108 | A string category is its own label. Otherwise the label is its present `#text`, else `''`. |
| FeedItems.CategoryLabels | src/articles/rss-ingest.service.ts:108 | There is one label per category, in order. |
| FeedItems.CategoryLabelsFromCategories | src/articles/rss-ingest.service.ts:96-108 | There is one label per normalised category, and each is `CategoryLabel` of the category at its position. So a string category is its own label, and any other category gives its `#text` or `''`. A non-empty string category gives itself as the only label. A falsy category field gives no labels. |
| FeedItems.ContentText | src/articles/rss-ingest.service.ts:114 | Falsy markup gives `''` and a string is normalised. Any other truthy value fails with the `TypeError` of `html.replace`. |
| FeedItems.CategoriesColumn | src/articles/rss-ingest.service.ts:142 | The column is null exactly when there are no labels, and the labels otherwise. |
| ArticleStore.Store.UpsertSource | src/articles/rss-ingest.service.ts:56-60 | On success the row for the url is replaced or added; an existing url keeps its id and a new url gets an id no other row has. On failure nothing changes. Articles never change. |
| ArticleStore.Store.FindByGuid | src/articles/rss-ingest.service.ts:120-125 | A successful lookup answers whether some stored article has the guid. |
| ArticleStore.Store.Insert | src/articles/rss-ingest.service.ts:149 | On success the article is appended. On failure nothing changes. The source rows are untouched, so the store stays valid. |
| RssIngest.Channel | src/articles/rss-ingest.service.ts:91 | The channel is `rss.channel` when that is truthy, and `channel` otherwise. It is truthy exactly when one of the two is. |
| RssIngest.ItemsOf | src/articles/rss-ingest.service.ts:91-99 | The loop walks the channel's `item` array, a single item as a one-element list, or nothing. |
| RssIngest.FeedLanguage | src/articles/rss-ingest.service.ts:93 | The language is the channel's `language` field. It is undefined when the channel is not an object or has no such field. |
| RssIngest.DigestItem | src/articles/rss-ingest.service.ts:112-115 | The item fails exactly when its markup cannot be normalised. Otherwise the text is the normalised markup and the hash covers guid, link, title and text. |
| RssIngest.OrNull | src/articles/rss-ingest.service.ts:135-144 | `v ?? null` is null for undefined and null, and keeps any present value. |
| RssIngest.BuildArticle | src/articles/rss-ingest.service.ts:133-147 | The payload fails with `Invalid time value` exactly when a truthy pubDate is not a valid date. Otherwise the date is the ISO form of a truthy pubDate and null for a falsy one. Guid, link, title, description, author and feed language are each the value `?? null`. The markup is kept. Categories are null exactly when there are none, and the labels otherwise. Source id, text, hash and first-seen time are the given ones. |
| RssIngest.ItemRecordStamped | src/articles/rss-ingest.service.ts:112-147 | An item fails to become a record exactly when its markup cannot be normalised or its truthy date is invalid. A record carries the source id, the clock reading for its position and the resolved guid, which is null when absent. |
| RssIngest.LookupAndInsert | src/articles/rss-ingest.service.ts:118-151 | The dedup gate. A truthy guid already stored is never inserted. A skip happens only for a truthy stored guid. An inserted record is appended as built, and only then does the store change. A failed record is never inserted. An item without a guid whose record fails is a failure with that reason. Guids stay unique. |
| RssIngest.ProcessItem | src/articles/rss-ingest.service.ts:100-151 | The `try` body for one item. The dedup gate holds for the item's resolved guid. An inserted item is stored exactly as `ItemRecord` builds it. Markup that cannot be normalised fails the item without touching the store. An item without a guid whose record fails (an invalid date) is a failure with that reason. |
| RssIngest.TallyCoversEveryItem | src/articles/rss-ingest.service.ts:99-156 | Each item is counted exactly once, as inserted, skipped or an `ErrorsOf` entry: `inserted + skippedExisting + errors.length` is the number of items. |
| RssIngest.ErrorsAreTheFailures | src/articles/rss-ingest.service.ts:152-155 | Every failed item has an entry in `ErrorsOf`, carrying its raw `guid` and its error message. |
| RssIngest.InsertedRecordsCount | src/articles/rss-ingest.service.ts:149-151 | A run appends one record per `Inserted` outcome, so the store grows by exactly `inserted`. |
| RssIngest.ProcessNext | src/articles/rss-ingest.service.ts:99-156 | One loop step extends the trace. The outcome fits the item: it is inserted only when its record can be built, skipped only with a truthy guid, failed with the `TypeError` when its markup is not a string, and failed with the record's reason when it has no guid and its record fails. On an insert the store grows by exactly the item's record; otherwise it is unchanged. The run's guid properties are preserved. |
| RssIngest.ProcessItems | src/articles/rss-ingest.service.ts:99-156 | The counters and error list are those of the outcome trace, which has one entry per item. The store afterwards is the store before plus, in feed order, the record of each inserted item, so it grows by exactly `inserted`. Each outcome fits its item, as in `ProcessNext`. Each lookup sees the store as the run has left it: an item is skipped only when that store holds its guid, and an item whose truthy guid it holds is never inserted. So a guid stored before the loop, or by an earlier item, is never inserted again. Every non-failed item's truthy guid is stored afterwards. |
| RssIngest.SameGuidStoredOnce | src/articles/rss-ingest.service.ts:118-131 | Of two items in one run that share a truthy guid, the later one is never inserted once the earlier one was. |
| RssIngest.IngestCoinDesk | src/articles/rss-ingest.service.ts:49-159 | A failed registration changes nothing. Otherwise the CoinDesk row is upserted on its url, keeping its id when the url was registered and taking an id no other row has when it was not, and no other source row changes. An unreachable fetch fails the run with its reason, and a non-OK response fails it with `Failed to fetch RSS <status>`; neither inserts anything. An OK fetch fails only on registration. A completed run reports the CoinDesk id and `upsertedSources` 1. It appends exactly the records of the inserted items, in feed order, and each outcome fits its item. Each lookup sees the store as the run has left it, as in `ProcessItems`. It accounts for every item and never re-inserts a stored guid. It inserts nothing when every item's guid is already stored. |
| ArticlesQuery.ApplyDateBounds | src/articles/articles-query.service.ts:69-75 | `gte` is added exactly when startDate is truthy, and `lte` exactly when endDate is truthy. No other condition is added and nothing else changes. |
| ArticlesQuery.FilteredArticlesQuery | src/articles/articles-query.service.ts:55-80 | The window is `offset .. offset + limit - 1`, i.e. `limit` positions. Each of the date bounds and `source_id` is a filter exactly when its value is truthy. There are no other filters. |
| ArticlesQuery.StatsQuery | src/articles/articles-query.service.ts:130-140 | The statistics query has no window and no limit, and filters by date only on truthy bounds. |
| ArticlesQuery.BySourceQuery | src/articles/articles-query.service.ts:209-222 | The query is the `sources.name` filter with a window of `limit` positions from `offset`. |
| ArticlesQuery.RecentQuery | src/articles/articles-query.service.ts:248-260 | There are no filters and no window, only the row limit. |
| ArticlesQuery.Selected | src/articles/articles-query.service.ts:67 | `range(from, to)` yields the existing rows at positions `from` through `to`, in order. These are all such rows, so there are at most `to - from + 1`. |
| ArticlesQuery.FirstRows | src/articles/articles-query.service.ts:260 | `limit(n)` yields the first `n` rows, or all when there are fewer. |
| ArticlesQuery.PageOfWindow | src/articles/articles-query.service.ts:67 | A page holds at most `limit` rows and is full whenever enough rows remain. A page that is not full leaves no row beyond it. |
| ArticlesQuery.FullLastPage | src/articles/articles-query.service.ts:97 | When the rows end exactly at the window's end, the page is full although no row follows. So `hasMore` can be true with nothing more. |
| ArticlesQuery.RowsOrEmpty | src/articles/articles-query.service.ts:91 | Null data becomes the empty list; rows are returned as they are. |
| ArticlesQuery.FailureMessage | src/articles/articles-query.service.ts:86 | The error text is the prefix followed by the database message. |
| ArticlesQuery.Page | src/articles/articles-query.service.ts:84-99 | The page fails exactly on a database error, with the prefixed message. `count` is the number of returned rows (0 for null data). `hasMore` holds exactly when non-null data has `limit` rows. Filters, limit and offset are echoed. |
| ArticlesQuery.GetFilteredArticles | src/articles/articles-query.service.ts:52-100 | The query it sends has the window `offset .. offset + limit - 1`. Each of startDate, endDate and sourceId is a filter exactly when it is truthy, and there is no other filter. The response is `Page` of the database's answer to that query. |
| ArticlesQuery.GetArticlesBySource | src/articles/articles-query.service.ts:206-240 | The defaults are limit 50 and offset 0. The response is `Page` of the by-source query and echoes the source name, not a source id. |
| ArticlesQuery.GetRecentArticles | src/articles/articles-query.service.ts:245-278 | The default limit is 10. The call succeeds exactly when the database answers without error, and an error gives its prefixed message. The data is the returned rows and `count` is their number. The limit is echoed in the pagination and the filters. The offset is always 0 and `hasMore` always false. |
| ArticlesQuery.RecentPageHidesMore | src/articles/articles-query.service.ts:275 | With more matches than the limit, the recent page holds `limit` rows and still reports no more. |
| ArticlesQuery.SourceName | src/articles/articles-query.service.ts:161-163 | The name is the first embedded source's `name` for an array, the object's `name` otherwise, and `Unknown` when that is falsy. It is always truthy. |
| ArticlesQuery.SourceKey | src/articles/articles-query.service.ts:161-164 | A string source name is its own key. A row with no embedded array whose source name is falsy is keyed `Unknown`. |
| ArticlesQuery.Bump | src/articles/articles-query.service.ts:164 | The key's count rises by one, starting from 0. Every other key keeps its count. |
| ArticlesQuery.SumCountsBump | src/articles/articles-query.service.ts:164 | One bump raises the sum of the counts by exactly one. |
| ArticlesQuery.TallySum | src/articles/articles-query.service.ts:160-165 | The counts of the fold sum to the number of rows. |
| ArticlesQuery.TallyCounts | src/articles/articles-query.service.ts:160-165 | In `Tally`, the fold of the bumps over the names, a key is present exactly when some row has that source name. Its count is the number of such rows. |
| ArticlesQuery.GroupBySource | src/articles/articles-query.service.ts:159-165 | Models the intended fold, in which every name counts (see Left out). The `forEach` fold yields the tally of the rows' source names. Its counts sum to the number of rows and count each name's rows exactly. |
| ArticlesQuery.GetArticlesStats | src/articles/articles-query.service.ts:127-171 | Models the intended `bySource` (see Left out). The query it sends has no window and no limit, and filters by date exactly for truthy bounds. The call fails exactly on a database error, with the prefixed message. `totalArticles` is the number of rows (0 for null data). `bySource` is the tally of the rows' source names and sums to `totalArticles`. Absent date bounds are reported as `all`. |
| ArticlesQuery.PlainObjectBump | src/articles/articles-query.service.ts:164 | One step on the plain object never creates or removes a `__proto__` count, and a `__proto__` step leaves the object unchanged. Any other key's count rises by one, starting from 0, and adds only that key. Every other key keeps its count. |
| ArticlesQuery.PlainObjectTally | src/articles/articles-query.service.ts:159-165 | The fold as written never holds a `__proto__` count. |
| ArticlesQuery.PlainObjectDropsProto | src/articles/articles-query.service.ts:152-164 | The fold on a plain object equals the intended tally with the `__proto__` entry removed. |
| ArticlesQuery.PlainObjectUndercounts | src/articles/articles-query.service.ts:152-164 | On a plain object the counts sum to the number of rows minus the rows named `__proto__`. |
| ArticlesQuery.ProtoSourceUncounted | src/articles/articles-query.service.ts:151-165 | A single row from a source named `__proto__` gives `totalArticles` 1 but an empty `bySource`. |

## Behaviour worth noting

- **Malformed publication date.** `new Date(raw)` on an unparseable string gives an Invalid Date, which is truthy. So `toISOString()` throws, and the item is reported in `errors` instead of being stored with a null date (`RssIngest.BuildArticle`). The throw happens after the dedup lookup, so an already-stored item with a bad date is still counted as skipped.
- **Fingerprint and field order.** The falsy fields are filtered out before joining, so a value's position is not part of what is hashed (`Fingerprint.FieldPositionNotHashed`).
- **Failed inserts.** Every insert error, a unique-constraint violation included, becomes an `errors` entry. None is counted as a skip.
- **Error entries.** An entry carries the item's raw `guid` field, which may be an object holding `#text`, rather than the resolved guid.

## Left out

- SHA-256 itself, which is the `sha256` parameter. Only the string handed to it is modelled.
- The XML parser. The feed arrives already parsed as a `Value` tree. A document that fails to parse is not modelled.
- `fetch` and `resp.text()`. The response is the `Fetched` parameter.
- `Date` parsing, ISO formatting and the clock, which are the `Host` parameters.
- Logging: the row-level security message, `logger.warn`, `logger.error` and `console.log`. These only write to the log.
- `mediaContent`: it is looked up but never used.
- Floating-point numbers, `NaN` and UTF-16 surrogate pairs. Numbers are integers and strings are sequences of code points.
- The stringification of a thrown value (`e?.message || e`). Item errors carry the message strings the model produces.
- Which rows a database query selects. This covers filtering and ordering by `pub_date`, and whether `.eq('sources.name', …)` on an embedded resource filters the parent rows. The database is the `db` parameter; only the row window (`Selected`, `FirstRows`) is given a meaning.
- Concurrent ingestion runs, and the atomicity of the lookup followed by the insert.
- `getAllSources` and `getArticleById`, which are plain reads with no logic of their own.
- The controllers, the AI analysis services and the module wiring.
- The `success: true` field of the responses, which is constant.
- TextNormalizer.ScriptMatch: the contract states the opening and closing tags of a match, but not that the closing tag is the first one after the opening. That is proved on whole elements by `ScriptElementMatch`.
- TextNormalizer.StyleMatch: the contract states the opening and closing tags of a match, but not that the closing tag is the first one after the opening. That follows from `ElementMatchOfElement`.
- TextNormalizer.BlockCloseMatch: the contract states only that a match starts with `</`. What it matches is its definition, used on whole tags by `BlockCloseInContext`.
- TextNormalizer.BrMatch: the contract states only that a match starts with `<b`. Its extent on a whole tag is `BrMatchOfTag`.
- TextNormalizer.TagMatch: the contract states only that a match starts with `<`. What is left after all matches are removed is `RemoveTagsLeavesNoTag`.
- TextNormalizer.BlankMatch: the contract states only that a match starts with a tab or space. The effect of the whole replacement is `CollapseBlanksShape`.
- TextNormalizer.NewlinesMatch: the contract states only that a match starts with three newlines. The effect of the whole replacement is `CapNewlinesNoTriple`.
- JsValues.Get: inherited properties are not modelled. The one that matters is `String.prototype.link`: for an item that the parser yields as a string (an `<item>` holding only text, or nothing), `item?.link` is that method in the source. The fingerprint then hashes the method's source text, while the model reads `link` as undefined. The JSON body of the insert drops a function-valued field, so the source sends no `link`, where the model sends null.
- FeedItems.ResolveItem: the label of each category is stated by the lemma `CategoryLabelsFromCategories`, not by the function's own contract.
- ArticlesQuery.GetArticlesStats: `bySource` is the intended tally, in which every source name counts. The fold as written, on a plain object, is `PlainObjectTally`, which drops `__proto__` (see Findings). Other names inherited from `Object.prototype` are not modelled.
- ArticlesQuery.PlainObjectTally: only the key `__proto__` is modelled as special. Other names inherited from `Object.prototype` (`constructor`, `toString`, …) make `(bySource[name] || 0) + 1` a string, and that is not modelled.

## Findings

| source | as written | input that shows it | evidently intended | confidence | as-written member | corrected member |
|---|---|---|---|---|---|---|
| src/articles/articles-query.service.ts:152-164 | `bySource` is a plain object `{}`. For the name `__proto__`, `bySource[name]` reads `Object.prototype`, so `+ 1` gives a string, and assigning a string to `__proto__` is ignored. The rows of that source are never counted. | One row whose source name is `__proto__`: `totalArticles` is 1 and `bySource` is `{}` | every source name, `__proto__` included, gets its row count, and the counts sum to `totalArticles` | not executed | ArticlesQuery.PlainObjectUndercounts | ArticlesQuery.GroupBySource |
