# News ingestion core, modelled in Dafny

This project models the ingestion path of a startup news-sentiment
pipeline. For each startup it fetches news from NewsAPI. It drops
articles whose URL was already seen, merges and filters their text,
scores the texts with a sentiment model, and stores one row per article
in a single database transaction. An orchestrator runs this for two
groups of startups, retries transient failures and counts the results.

The model has one module per source file:

- `TextUtils` (`text_utils.dfy`) covers `merge_text` and `truncate_content`.
  - `str.strip()` is modelled on the exact set of characters for which
    Python's `str.isspace()` holds.
  - `rsplit(' ', 1)[0]` is `BeforeLastSpace`.
- `CacheUtils` (`cache_utils.dfy`) models the process-wide URL cache as a
  `UrlCache` object with a `set` field.
  - `reset_url_cache`, `fetch_existing_urls_cache` and `check_duplicacy`
    are its methods.
  - The URLs read from the article table are an input: `None` stands for
    the read raising.
- `NewsApi` (`news_api.dfy`) covers `build_query`, the key cycle (the
  class `KeyRing`) and the pagination loop of `fetch_articles`.
  - The HTTP call is a function `provider` from a request to a page or
    `Failed`.
  - The ghost functions `Collected` and `Requests` state what the loop
    returns and how many keys it draws.
- `PipelineUtils` (`pipeline_utils.dfy`) covers `process_and_store_articles`
  and its two wrappers.
  - The outside world is bundled in an `Env`: provider, stored URLs,
    scorer, fresh ids and database fault.
  - The early returns and the transaction are specified by the stage
    functions `AfterFetch`, `AfterDedup`, `AfterFilter` and `AfterBatch`.
    The imperative methods are proved to compute them.
  - The articles table is a class whose insert is all-or-nothing.
- `Pipeline` (`pipeline.dfy`) covers `run_with_retries`, the status
  mapping of `process_missing`/`process_existing`, the worker count, the
  split into missing and existing startups, and the summary counts of
  `final_pipeline`.
  - A task is an attempt script: its k-th call returns a value or raises.
  - The completion order of a phase is an input, which may be any
    permutation of that phase's startups.
- `Articles` (`articles.dfy`) holds the shared values: `Option`, the
  article record and Python string truthiness.
- `Seqs` (`seqs.dfy`) holds the generic list helpers: comprehension with a
  condition, mapping, flattening, `join` and counting.

Some facts the proofs bring out:

- The `if not batch` return in `process_and_store_articles` can never be
  taken. When scoring returns anything, the zip of three non-empty,
  aligned lists is non-empty (`BatchNeverEmpty`).
- Stored content can be up to 303 characters, because the three-character
  ellipsis comes after the 300-character cut. The source comments
  mention 300 characters.

Some behaviour of the code is easy to miss. The model follows the code in
each case:

- `reset_url_cache` (src/utils/cache_utils.py:10-14) is never called by
  `final_pipeline` (src/pipeline/__init__.py:100-143), so the URL cache is
  not cleared at the start of a run.
- An insert failure does not propagate. It is logged and rolled back, and
  the connection is closed (src/utils/pipeline_utils.py:90-95).
- A scoring failure, like every other exception inside
  `process_and_store_articles`, is logged and swallowed by the wrappers
  (src/utils/pipeline_utils.py:105-108 and 115-118). So it never reaches
  the orchestrator's `"failed"` status.
- The first phase calls `process_and_store_initial_articles` (the 30-day
  lookback), but its results carry the phase name `"missing"`
  (src/pipeline/__init__.py:47-58).

## Model

| member | source | states |
|---|---|---|
| TextUtils.LStrip | src/utils/text_utils.py:3 | `lstrip` removes exactly a whitespace prefix: the result is a suffix, the removed part is all whitespace, and the result does not start with whitespace |
| TextUtils.RStrip | src/utils/text_utils.py:3 | `rstrip` removes exactly a whitespace suffix: the result is a prefix, the removed part is all whitespace, and the result does not end with whitespace |
| TextUtils.Strip | src/utils/text_utils.py:9 | `strip()` leaves no whitespace at either end and is the identity on already stripped text |
| TextUtils.StripSurrounded | src/utils/text_utils.py:3 | stripping whitespace + stripped non-empty text + whitespace gives back exactly that text |
| TextUtils.MergeText | src/utils/text_utils.py:1-3 | `merge_text` never returns the empty string and its result has no surrounding whitespace |
| TextUtils.MergeBlank | src/utils/text_utils.py:2-3 | absent, empty or blank description and content merge to `"."` |
| TextUtils.MergeStrippedParts | src/utils/text_utils.py:1-3 | stripped description and non-empty stripped content merge to `desc + ". " + cont` verbatim, an absent description counting as `""` |
| TextUtils.MergeBlankContent | src/utils/text_utils.py:2-3 | with blank or absent content only the description and its full stop remain |
| TextUtils.BeforeLastSpace | src/utils/text_utils.py:12 | `t.rsplit(' ', 1)[0]` is the prefix of `t` before its last `' '` (no `' '` after it), or all of `t` when it has no `' '` |
| TextUtils.StripPrefix | src/utils/text_utils.py:12-13 | stripping a prefix of stripped text keeps a prefix of it and removes only whitespace, and keeps a non-empty prefix non-empty |
| TextUtils.TruncateAtWord | src/utils/text_utils.py:12-13 | the long case: the result is a stripped prefix of the input, cut at or before the last `' '` within the limit with only whitespace dropped, then `"..."`; its length is at most limit + 3 |
| TextUtils.TruncateContent | src/utils/text_utils.py:6-13 | falsy input gives `""`; a stripped input within the limit is returned stripped (so stripped short text is unchanged); a longer one is truncated at a word as above; the result never exceeds limit + 3 |
| CacheUtils.NewArticles | src/utils/cache_utils.py:34 | the comprehension keeps exactly the input articles whose URL is truthy and not seen; all new gives the input unchanged; none new gives `[]` |
| CacheUtils.UrlsOf | src/utils/cache_utils.py:35 | the URLs added to the cache are exactly those of the articles with a truthy URL: every such URL is in, the empty string never is, and each one comes from an article |
| CacheUtils.NewArticlesInOrder | src/utils/cache_utils.py:34 | the articles kept are a subsequence of the input: input order is preserved |
| CacheUtils.Hydrated | src/utils/cache_utils.py:21-24 | hydration never drops a cached URL, and the answer differs from the cache itself only when the cache was empty, in which case it is the stored URLs (or `None` when reading them raised) |
| CacheUtils.SecondCheckIsEmpty | src/utils/cache_utils.py:18-38 | repeating the filter on the same articles, after their URLs were added and with storage unchanged, keeps nothing |
| CacheUtils.SameNewUrlKeptTwice | src/utils/cache_utils.py:34-36 | two articles with the same new URL in one call are both kept, because membership is tested before the update |
| CacheUtils.UrlCache.constructor | src/utils/cache_utils.py:6 | the cache starts empty |
| CacheUtils.UrlCache.Reset | src/utils/cache_utils.py:10-14 | after a reset the cache is empty |
| CacheUtils.UrlCache.FetchExisting | src/utils/cache_utils.py:18-27 | returns the hydrated set; only an empty cache reads storage and becomes the stored set; a failed read leaves the cache alone |
| CacheUtils.UrlCache.CheckDuplicacy | src/utils/cache_utils.py:30-38 | returns exactly the new articles in order; the cache becomes the hydrated set plus their URLs, only grows, and contains every returned URL; a failed read returns nothing and changes nothing |
| CacheUtils.CheckTwice | src/utils/cache_utils.py:30-38 | calling `check_duplicacy` twice on the same articles, with storage unchanged, returns `[]` the second time |
| NewsApi.Split | src/utils/sentiment_utils.py:36 | `split(',')` gives at least one part, no part contains `,`, and joining the parts with `,` gives back the string |
| NewsApi.Keywords | src/utils/sentiment_utils.py:34-37 | falsy keywords give none; a list is used as it is; a string not starting with `[` is split on `,` |
| NewsApi.KeywordTerms | src/utils/sentiment_utils.py:37 | one quoted term per keyword |
| NewsApi.BuildQuery | src/utils/sentiment_utils.py:27-38 | `build_query` is the four base terms joined by `" OR "`, followed by one `" OR "`-clause per trimmed, quoted keyword of the parsed helping words |
| NewsApi.BaseTermsJoined | src/utils/sentiment_utils.py:28-38 | the four base terms joined with `" OR "` are `"name"`, `"name" startup`, `"name" company`, `"name" India`, in that order |
| NewsApi.QueryWithoutKeywords | src/utils/sentiment_utils.py:28-38 | with falsy keywords the query is exactly the four base terms |
| NewsApi.QueryShape | src/utils/sentiment_utils.py:27-38 | the query is the four base terms followed by one `" OR "`-clause per trimmed, quoted keyword, in keyword order |
| NewsApi.TwoKeywordQuery | src/utils/sentiment_utils.py:27-38 | two trimmed keywords follow the base terms as two quoted clauses, in order |
| NewsApi.KeyRing.constructor | src/utils/sentiment_utils.py:11-15 | the key cycle needs at least one key and starts at the first |
| NewsApi.KeyRing.Next | src/utils/sentiment_utils.py:15-18 | the k-th call (from 0) returns `keys[k mod n]` and advances the ring by one |
| NewsApi.NextPosition | src/utils/sentiment_utils.py:15-18 | advancing the cycle by one moves its position by one, wrapping to 0 after the last key |
| NewsApi.ResponseWithKey | src/utils/sentiment_utils.py:49-58 | the request for page p of a call is made with key number `drawn + p - 1` of the cycle |
| NewsApi.FetchedPagesAreResponses | src/utils/sentiment_utils.py:48-78 | pages are requested as 1, 2, 3, ... and each fetched page is the non-empty response to its own request |
| NewsApi.FetchedPagesAreFull | src/utils/sentiment_utils.py:75-78 | every fetched page except the last has at least 100 articles |
| NewsApi.FetchedPagesEnd | src/utils/sentiment_utils.py:61-76 | when no short page ended the loop, the request after the last page fetched failed or came back empty |
| NewsApi.CollectedPages | src/utils/sentiment_utils.py:45-81 | the result is the in-order concatenation of the fetched pages; one request per page plus the final failed or empty one |
| NewsApi.Collected | src/utils/sentiment_utils.py:47-81 | what the loop collects from a page on: nothing exactly when that page's request fails or comes back empty, and otherwise a list that starts with that page's articles |
| NewsApi.Requests | src/utils/sentiment_utils.py:47-78 | the requests the loop makes from a page on: at least one, and at most one per page up to the termination bound |
| NewsApi.ThreePages | src/utils/sentiment_utils.py:48-81 | pages of 100, 100 and 40 articles give 240 articles after three requests |
| NewsApi.FetchPages | src/utils/sentiment_utils.py:45-81 | the `while True` loop returns the collected articles and draws one key per request made; the ring stays valid |
| NewsApi.PageStep | src/utils/sentiment_utils.py:63-77 | one loop turn: a failed or empty response ends the call with nothing added and one request; a short page is added and ends it; a full page is added and the next page is requested |
| NewsApi.FetchArticles | src/utils/sentiment_utils.py:41-81 | `fetch_articles` builds the query and returns what the pagination loop collects for it |
| PipelineUtils.MergeAndFilter | src/utils/pipeline_utils.py:42-48 | the loop keeps exactly the articles whose merged text is long enough, in order, with their merged texts alongside |
| PipelineUtils.KeepOrDrop | src/utils/pipeline_utils.py:43-48 | one loop turn appends the article and its text exactly when the text is valid |
| PipelineUtils.KeptTexts | src/utils/pipeline_utils.py:42-48 | texts and articles stay aligned (`contents[i]` is the merged text of `valid[i]`); every kept text has at least 30 characters and no surrounding whitespace; an article is kept iff valid; order is preserved |
| PipelineUtils.ValidIffLongEnough | src/utils/pipeline_utils.py:45 | an article is kept exactly when its merged text has at least 30 characters (the empty-text test never decides), and a kept text has no surrounding whitespace |
| PipelineUtils.RowOf | src/utils/pipeline_utils.py:63-73 | a row carries the startup id and the article URL; its content is at most 303 characters and is the merged text itself when that is short; its title is the article's title when truthy and `"untitled"` otherwise |
| PipelineUtils.Batch | src/utils/pipeline_utils.py:61-73 | the batch has `min` of the three list lengths rows (zip truncates); row i carries fresh id i, the startup id, the i-th article's URL, the i-th sentiment and score, a content of at most 303 characters that is the i-th text itself when short, and a non-empty title |
| PipelineUtils.BuildBatch | src/utils/pipeline_utils.py:61-73 | the loop over the zipped triples builds exactly that batch |
| PipelineUtils.ArticlesTable.InsertBatch | src/utils/pipeline_utils.py:80-95 | all or nothing: the table gains every row when the commit succeeds and none otherwise; no transaction is left open and the connection is closed on every path |
| PipelineUtils.AfterFetch | src/utils/pipeline_utils.py:30-39 | an insert happens only after a non-empty fetch and a successful read of the stored URLs, and only with a non-empty batch |
| PipelineUtils.AfterDedup | src/utils/pipeline_utils.py:36-52 | an insert happens only when deduplication left articles, and with a non-empty batch |
| PipelineUtils.AfterFilter | src/utils/pipeline_utils.py:50-77 | an insert happens only when there are valid texts, and with a non-empty batch |
| PipelineUtils.AfterBatch | src/utils/pipeline_utils.py:75-95 | the batch is committed exactly when it is non-empty and the insert succeeds; a rollback keeps the batch |
| PipelineUtils.ProcessAndStore | src/utils/pipeline_utils.py:20-95 | `process_and_store_articles` ends as the stage functions say; the table gains exactly the committed rows; the cache gains the new URLs unless fetch or storage read stopped the call; the key ring has advanced by one key per request made |
| PipelineUtils.StoreNew | src/utils/pipeline_utils.py:36-48 | steps 3 to 6 on the deduplicated articles end as `AfterDedup` says, with the table gaining exactly the committed rows |
| PipelineUtils.ScoreAndStore | src/utils/pipeline_utils.py:50-77 | scoring, batch building and insert end as `AfterFilter` says |
| PipelineUtils.StoreBatch | src/utils/pipeline_utils.py:75-95 | the `if not batch` test and the insert end as `AfterBatch` says |
| PipelineUtils.ProcessAndStoreInitialArticles | src/utils/pipeline_utils.py:101-108 | a 30-day lookback; any exception is logged and swallowed; the table gains exactly the committed rows, the cache its new URLs, and the key ring one key per request |
| PipelineUtils.ProcessAndStoreDailyArticles | src/utils/pipeline_utils.py:111-118 | a 1-day lookback; any exception is logged and swallowed; the table gains exactly the committed rows, the cache its new URLs, and the key ring one key per request |
| PipelineUtils.InsertedRowsAreNew | src/utils/pipeline_utils.py:30-73 | every stored row has the startup id, content of at most 303 characters and a title; its URL was not seen before; it comes from a fetched article whose merged text is valid |
| PipelineUtils.InsertedRowSource | src/utils/pipeline_utils.py:61-73 | each committed row comes from a kept article with the same URL |
| PipelineUtils.BatchNeverEmpty | src/utils/pipeline_utils.py:50-77 | the `if not batch` return is never taken |
| PipelineUtils.ScoredBatchNonEmpty | src/utils/pipeline_utils.py:55-77 | on aligned texts the insert is reached exactly when there are texts and the scorer returns a non-empty result |
| PipelineUtils.InsertNeedsEveryStage | src/utils/pipeline_utils.py:30-58 | the insert is reached iff the fetch, deduplication, the length filter and scoring each yield something |
| PipelineUtils.FetchedUrlsCached | src/utils/cache_utils.py:35-36 | after a call that got past the fetch and the storage read, every truthy fetched URL is in the cache |
| PipelineUtils.AllNew | src/utils/pipeline_utils.py:36-39 | against an empty cache, articles with truthy URLs all pass deduplication |
| PipelineUtils.ShortDropped | src/utils/pipeline_utils.py:42-48 | a short middle article is dropped and the other two go on with their merged texts |
| PipelineUtils.TwoScoredStored | src/utils/pipeline_utils.py:55-89 | two texts with two scores and no database fault: the two-row batch is committed |
| PipelineUtils.ThreeFetchedTwoStored | src/utils/pipeline_utils.py:30-95 | three new articles, one too short: exactly the two rows built from the other two are committed, in fetch order |
| Pipeline.RetryEnds | src/pipeline/__init__.py:22-33 | the retries end at the first call that does not raise a transient error, or at call `retries`, and the outcome is that call's |
| Pipeline.Retry | src/pipeline/__init__.py:17-33 | `run_with_retries` falls through exactly when the loop never runs (negative `retries`); a returned value or re-raised error is that of one of the calls numbered 0 to `retries` |
| Pipeline.RetryReturns | src/pipeline/__init__.py:22-31 | `run_with_retries` returns v iff some call within the first `retries + 1` returns v after transient errors only |
| Pipeline.FatalNotRetried | src/pipeline/__init__.py:32-33 | a non-transient error is re-raised at once and never retried |
| Pipeline.AllTransientReraised | src/pipeline/__init__.py:26-29 | when all `retries + 1` calls raise transient errors the last one is re-raised |
| Pipeline.RunWithRetries | src/pipeline/__init__.py:17-33 | the loop computes the retry outcome; it makes at most `retries + 1` calls, none when `retries` is negative; every call but the last raised a transient error; it sleeps once per retry |
| Pipeline.StatusOfTask | src/pipeline/__init__.py:41-58 | with two retries: `"success"` iff one of three calls succeeds after transient errors only; `"db_error"` iff all three raise transient errors and the third is an `OperationalError` |
| Pipeline.StatusOf | src/pipeline/__init__.py:44-58 | the except clauses: `"success"` exactly when the retried task did not raise, `"db_error"` exactly when it re-raised an `OperationalError`, `"failed"` otherwise |
| Pipeline.ProcessStartup | src/pipeline/__init__.py:38-58 | `process_missing`/`process_existing` never raise; the result carries the startup's name, the phase and the status of the retried task |
| Pipeline.WorkerCount | src/pipeline/__init__.py:106-108 | a truthy `max_workers` is used unchanged; otherwise 2 to 10 workers, half the CPUs between 4 and 21 CPUs, 2 below 4 CPUs or when the count is unknown, 10 from 20 CPUs on |
| Pipeline.ExistingStartups | src/pipeline/__init__.py:123-125 | the existing startups are exactly those of all startups whose id is not a missing startup's |
| Pipeline.StartupsPartitioned | src/pipeline/__init__.py:123-125 | each startup is handled by exactly one phase; existing startups are disjoint from the missing ones and keep the order of all startups |
| Pipeline.RunPhase | src/pipeline/__init__.py:115-120 | a phase appends one result per startup, in completion order |
| Pipeline.PhaseResultsPermuted | src/pipeline/__init__.py:118-120 | whatever the completion order, a phase yields the same results up to order |
| Pipeline.PhaseTagged | src/pipeline/__init__.py:128-133 | every result of a phase carries that phase |
| Pipeline.FinalPipeline | src/pipeline/__init__.py:100-143 | one result per missing startup, then one per existing startup, phase-1 results first; the success count counts the successes; successes plus failures equal the number of results |
| Seqs.MapPermutation | src/pipeline/__init__.py:118-120 | reordering the inputs reorders the outputs: mapping preserves permutations |
| Seqs.CountSplit | src/pipeline/__init__.py:139-141 | every result is counted by exactly one of a predicate and its negation |

## Left out

- Transport retries, timeout and JSON decoding are not modelled. These are
  the `Retry`/`HTTPAdapter` backoff (src/utils/sentiment_utils.py:20-24),
  the 15-second timeout and `response.json()`.
  - A response is already a page of articles or `Failed`.
  - A JSON decoding error, which the source does not catch and which the
    wrappers would then swallow, is not a modelled path.
- Dates: the `from`/`to` window is represented by the `days` field of a
  request.
- `time.sleep`, `time.time` durations (the `"time"` field), `save_summary`
  and all logging are left out. Sleeps are counted, not timed.
- Foreign code becomes inputs:
  - `sentiment_score_batch` is the opaque `scorer`, which may raise or
    return any number of results; scores are `real`s.
  - `uuid4` is the `newId` input.
  - `json.loads` in `build_query` is the `parseJson` input.
  - `fetch_existing_urls`, `fetch_missing_startups` and `fetch_startups`
    are inputs.
- Database failure modes are an input `DbFault`: connect fails, the i-th
  row fails, or the commit fails. SQL itself and constraint checking are
  not modelled.
- Concurrency is not modelled.
  - `ThreadPoolExecutor` and `as_completed` are replaced by a completion
    order, which may be any permutation of the phase's startups.
  - Races on the shared URL cache between worker threads are not
    modelled.
- Tasks are attempt scripts, not calls into `PipelineUtils`. The source's
  wiring does not compose:
  - the orchestrator imports names its package does not define;
  - it passes two arguments to the three-argument wrappers;
  - it unpacks 2-tuples from 3-column startup rows.
  The wrappers also swallow every exception, so the retries would never
  fire. `run_with_retries` and the status mapping are modelled on their
  own.
- Startups are modelled as (id, name, keywords) records.
- NewsApi.FetchPages: termination is assumed through the ghost bound
  `StopsBy`, under which every request for that page or later ends the
  loop. The source loops for as long as the provider keeps returning full
  pages.
- NewsApi.Keywords: the JSON-array branch is whatever `parseJson`
  returns, so nothing is stated about it.
- Articles are typed records of optional strings. Non-string JSON values
  in the provider's articles are not modelled.
- The cache timestamp `_EXISTING_URLS_CACHE_TS` is not modelled.
- Pipeline.RunWithRetries: the `delay` argument and the `*args` passed to
  the task are not modelled.
