/** The per-startup ingestion of `process_and_store_articles`: fetch, drop
    URLs already seen, merge and filter the texts, score them, build the
    insert batch and store it in one transaction. The pieces of the outside
    world the function touches are inputs (`Env`): the news provider, the
    stored URL set, the sentiment scorer, the fresh row ids and the database
    fault, if any. */
module PipelineUtils {
  import opened Articles
  import opened Seqs
  import opened TextUtils
  import opened CacheUtils
  import opened NewsApi

  /** Merged texts shorter than this are dropped. */
  const MinContentLength: nat := 30
  /** `days` of the initial and of the daily wrapper. */
  const InitialLookbackDays: nat := 30
  const DailyLookbackDays: nat := 1

  /** The inputs that stand for I/O and foreign code: `parseJson` for
      `json.loads`, `provider` for the HTTP call, `stored` for the URLs read
      from the article table (`None` when that read raises), `scorer` for
      `sentiment_score_batch`, `newId(i)` for the `uuid4` of the i-th row and
      `fault` for what goes wrong in the database. */
  datatype Env = Env(
    parseJson: string -> seq<string>,
    provider: Request -> PageResult,
    stored: Option<set<string>>,
    scorer: seq<string> -> ScoreResult,
    newId: nat -> string,
    fault: DbFault)

  /** `merge_text(article.get("description"), article.get("content"))` */
  function MergedText(a: Article): string
  {
    MergeText(a.description, a.content)
  }

  /** The article survives `if not content or len(content) < 30: continue`. */
  predicate IsValid(a: Article)
  {
    var content := MergedText(a);
    !(content == "" || |content| < MinContentLength)
  }

  /** The empty-text test is subsumed by the length test: an article is
      kept exactly when its merged text has at least 30 characters, and a
      kept text has no surrounding whitespace. */
  lemma ValidIffLongEnough(a: Article)
    ensures IsValid(a) <==> |MergedText(a)| >= MinContentLength
    ensures IsValid(a) ==> IsStripped(MergedText(a))
  {
  }

  /** Step 3: the merged texts and the articles they came from, for the
      articles whose merged text is long enough, in input order. */
  method MergeAndFilter(articles: seq<Article>) returns (contents: seq<string>, valid: seq<Article>)
    ensures valid == Filter(articles, IsValid)
    ensures contents == Map(MergedText, valid)
  {
    contents, valid := [], [];
    var i := 0;
    while i < |articles|
      invariant 0 <= i <= |articles|
      invariant valid == Filter(articles[..i], IsValid)
      invariant contents == Map(MergedText, valid)
    {
      var article := articles[i];
      var content := MergeText(article.description, article.content);
      KeepOrDrop(articles, i, valid, contents);
      i := i + 1;
      if content == "" || |content| < MinContentLength {
        continue;
      }
      contents := contents + [content];
      valid := valid + [article];
    }
    assert articles[..i] == articles;
  }

  /** One turn of the loop of `MergeAndFilter`: a valid article and its text
      are appended, an invalid one changes nothing. */
  lemma KeepOrDrop(articles: seq<Article>, i: nat, valid: seq<Article>, contents: seq<string>)
    requires i < |articles|
    requires valid == Filter(articles[..i], IsValid) && contents == Map(MergedText, valid)
    ensures var a := articles[i];
            if IsValid(a) then
              Filter(articles[..i + 1], IsValid) == valid + [a] && Map(MergedText, valid + [a]) == contents + [MergedText(a)]
            else
              Filter(articles[..i + 1], IsValid) == valid
  {
    TakeOneMore(articles, i);
    FilterSnoc(articles[..i], articles[i], IsValid);
    MapSnoc(MergedText, valid, articles[i]);
  }

  /** The kept texts line up with the kept articles, each is long enough and
      has no surrounding whitespace, and the kept articles are exactly the
      valid ones, in input order. */
  lemma KeptTexts(articles: seq<Article>)
    ensures var valid := Filter(articles, IsValid);
            var contents := Map(MergedText, valid);
            && |contents| == |valid|
            && (forall i | 0 <= i < |valid| ::
                  contents[i] == MergedText(valid[i]) && |contents[i]| >= MinContentLength && IsStripped(contents[i]))
            && (forall a | a in articles :: a in valid <==> IsValid(a))
            && IsSubsequence(valid, articles)
  {
    var valid := Filter(articles, IsValid);
    forall i | 0 <= i < |valid|
      ensures Map(MergedText, valid)[i] == MergedText(valid[i])
    {
      MapAt(MergedText, valid, i);
    }
    forall i | 0 <= i < |valid| ensures IsValid(valid[i]) {
      FilterMembership(articles, IsValid, valid[i]);
    }
    forall a | a in articles ensures a in valid <==> IsValid(a) {
      FilterMembership(articles, IsValid, a);
    }
    FilterIsSubsequence(articles, IsValid);
  }

  /** One `(sentiment, score)` pair of the scorer; the score is a real. */
  datatype Sentiment = Sentiment(sentiment: string, score: real)

  /** What `sentiment_score_batch(contents)` does: raise, or return one
      result per text (possibly none). */
  datatype ScoreResult = ScorerRaised | Scored(results: seq<Sentiment>)

  /** One tuple of the insert batch, field by field. */
  datatype Row = Row(
    id: string,
    content: string,
    publishedAt: Option<string>,
    sentiment: string,
    score: real,
    startupId: string,
    title: string,
    url: Option<string>)

  /** The row stored for article `a` with sentiment `s` and merged text
      `content`. */
  function RowOf(startupId: string, id: string, a: Article, s: Sentiment, content: string): (row: Row)
    ensures row.startupId == startupId && row.url == a.url
    ensures |row.content| <= DefaultLimit + |Ellipsis|
    ensures IsStripped(content) && |content| <= DefaultLimit ==> row.content == content
    ensures row.title != "" && (Truthy(a.title) ==> row.title == a.title.value)
    ensures !Truthy(a.title) ==> row.title == "untitled"
  {
    Row(id, TruncateContent(Some(content), DefaultLimit), a.publishedAt, s.sentiment, s.score, startupId,
        OrElse(a.title, "untitled"), a.url)
  }

  function Min(a: nat, b: nat): nat
  {
    if a <= b then a else b
  }

  /** `zip(valid_articles, results, contents)`: stops at the shortest. */
  function ZipLength(valid: seq<Article>, results: seq<Sentiment>, contents: seq<string>): nat
  {
    Min(Min(|valid|, |results|), |contents|)
  }

  /** The insert batch: one row per zipped triple. */
  function Batch(startupId: string, valid: seq<Article>, results: seq<Sentiment>, contents: seq<string>,
                 newId: nat -> string): (batch: seq<Row>)
    ensures |batch| == ZipLength(valid, results, contents)
    ensures forall i | 0 <= i < |batch| ::
              && batch[i].id == newId(i)
              && batch[i].startupId == startupId && batch[i].url == valid[i].url
              && batch[i].sentiment == results[i].sentiment && batch[i].score == results[i].score
              && |batch[i].content| <= DefaultLimit + |Ellipsis|
              && (IsStripped(contents[i]) && |contents[i]| <= DefaultLimit ==> batch[i].content == contents[i])
              && batch[i].title != ""
  {
    var n := ZipLength(valid, results, contents);
    seq(n, i requires 0 <= i < n => RowOf(startupId, newId(i), valid[i], results[i], contents[i]))
  }

  /** Step 5: the loop over the zipped triples. */
  method BuildBatch(startupId: string, valid: seq<Article>, results: seq<Sentiment>, contents: seq<string>,
                    newId: nat -> string) returns (batch: seq<Row>)
    ensures batch == Batch(startupId, valid, results, contents, newId)
  {
    batch := [];
    var i := 0;
    while i < |valid| && i < |results| && i < |contents|
      invariant 0 <= i <= ZipLength(valid, results, contents)
      invariant batch == Batch(startupId, valid, results, contents, newId)[..i]
    {
      var truncated := TruncateContent(Some(contents[i]), DefaultLimit);
      var row := Row(newId(i), truncated, valid[i].publishedAt, results[i].sentiment, results[i].score,
                     startupId, OrElse(valid[i].title, "untitled"), valid[i].url);
      BatchStep(startupId, valid, results, contents, newId, i, batch, row);
      batch := batch + [row];
      i := i + 1;
    }
  }

  /** One turn of the loop of `BuildBatch`: the tuple it appends is the next
      row of the batch. */
  lemma BatchStep(startupId: string, valid: seq<Article>, results: seq<Sentiment>, contents: seq<string>,
                  newId: nat -> string, i: nat, batch: seq<Row>, row: Row)
    requires i < ZipLength(valid, results, contents)
    requires batch == Batch(startupId, valid, results, contents, newId)[..i]
    requires row == Row(newId(i), TruncateContent(Some(contents[i]), DefaultLimit), valid[i].publishedAt,
                        results[i].sentiment, results[i].score, startupId, OrElse(valid[i].title, "untitled"),
                        valid[i].url)
    ensures batch + [row] == Batch(startupId, valid, results, contents, newId)[..i + 1]
  {
    var all := Batch(startupId, valid, results, contents, newId);
    assert all[i] == RowOf(startupId, newId(i), valid[i], results[i], contents[i]);
    TakeOneMore(all, i);
  }

  /** What goes wrong in the database, if anything: opening the connection
      raises, the insert of row `row` raises, or the commit raises. */
  datatype DbFault = NoFault | ConnectFails | InsertFailsAt(row: nat) | CommitFails

  datatype InsertResult = ConnectRaised | CommittedAll | RolledBackAll

  /** The result of inserting `n` rows under `fault`. */
  function InsertResultOf(n: nat, fault: DbFault): InsertResult
  {
    match fault
    case NoFault => CommittedAll
    case ConnectFails => ConnectRaised
    case InsertFailsAt(k) => if k < n then RolledBackAll else CommittedAll
    case CommitFails => RolledBackAll
  }

  /** The `Articles` table with the transaction of the connection in use:
      `pending` holds the rows inserted but not yet committed. */
  class ArticlesTable {
    var rows: seq<Row>
    var pending: seq<Row>
    var openConnections: nat

    /** No transaction is left open between calls. */
    ghost predicate Valid()
      reads this
    {
      pending == []
    }

    constructor (rows: seq<Row>)
      ensures Valid() && this.rows == rows && openConnections == 0
    {
      this.rows := rows;
      pending := [];
      openConnections := 0;
    }

    /** Step 6: open a connection (which may raise, before the `try`),
        `executemany` the batch, commit; on any error roll back and log;
        close the connection in every case. */
    method InsertBatch(batch: seq<Row>, fault: DbFault) returns (result: InsertResult)
      requires Valid()
      modifies this
      ensures Valid() && openConnections == old(openConnections)
      ensures result == InsertResultOf(|batch|, fault)
      ensures rows == if result == CommittedAll then old(rows) + batch else old(rows)
    {
      if fault == ConnectFails {
        return ConnectRaised;
      }
      openConnections := openConnections + 1;
      var failed := false;
      var i := 0;
      while i < |batch|
        invariant 0 <= i <= |batch| && pending == batch[..i]
        invariant rows == old(rows) && openConnections == old(openConnections) + 1
        invariant !(fault.InsertFailsAt? && fault.row < i)
      {
        if fault == InsertFailsAt(i) {
          failed := true;
          break;
        }
        pending := pending + [batch[i]];
        i := i + 1;
      }
      if !failed && fault == CommitFails {
        failed := true;
      }
      if failed {
        pending := [];
        result := RolledBackAll;
      } else {
        assert batch[..i] == batch;
        rows := rows + pending;
        pending := [];
        result := CommittedAll;
      }
      openConnections := openConnections - 1;
    }
  }

  /** Where an exception escaped `process_and_store_articles`. */
  datatype Stage = StorageRead | Scoring | Connect

  /** How one call of `process_and_store_articles` ended: one of its early
      returns, after the insert, or with an exception. `NoBatch` is the
      `if not batch` return. */
  datatype Outcome =
    | NoArticles
    | NoNewArticles
    | NoValidContent
    | NoScores
    | NoBatch
    | Inserted(batch: seq<Row>)
    | RolledBack(batch: seq<Row>)
    | Raised(stage: Stage)

  /** The rows an outcome adds to the table. */
  function InsertedRows(o: Outcome): seq<Row>
  {
    if o.Inserted? then o.batch else []
  }

  /** Everything after the fetch, for the fetched `articles` and the cache
      contents `seen` that deduplication tests against (`None` when reading
      the stored URLs raised). */
  function AfterFetch(articles: seq<Article>, seen: Option<set<string>>, startupId: string, env: Env): (o: Outcome)
    ensures o.Inserted? || o.RolledBack? ==> articles != [] && seen.Some? && o.batch != []
  {
    if articles == [] then NoArticles
    else if seen.None? then Raised(StorageRead)
    else AfterDedup(NewArticles(articles, seen.value), startupId, env)
  }

  /** Everything after deduplication left `newArticles`. */
  function AfterDedup(newArticles: seq<Article>, startupId: string, env: Env): (o: Outcome)
    ensures o.Inserted? || o.RolledBack? ==> newArticles != [] && o.batch != []
  {
    if newArticles == [] then NoNewArticles
    else
      var valid := Filter(newArticles, IsValid);
      AfterFilter(valid, Map(MergedText, valid), startupId, env)
  }

  /** Scoring the kept `contents` of the `valid` articles, and what follows. */
  function AfterFilter(valid: seq<Article>, contents: seq<string>, startupId: string, env: Env): (o: Outcome)
    ensures o.Inserted? || o.RolledBack? ==> contents != [] && o.batch != []
  {
    if contents == [] then NoValidContent
    else
      match env.scorer(contents)
      case ScorerRaised => Raised(Scoring)
      case Scored(results) =>
        if results == [] then NoScores
        else AfterBatch(Batch(startupId, valid, results, contents, env.newId), env.fault)
  }

  /** The `if not batch` test and the insert. */
  function AfterBatch(batch: seq<Row>, fault: DbFault): (o: Outcome)
    ensures o.Inserted? || o.RolledBack? ==> o.batch == batch && batch != []
    ensures o.Inserted? <==> batch != [] && InsertResultOf(|batch|, fault) == CommittedAll
  {
    if batch == [] then NoBatch
    else
      match InsertResultOf(|batch|, fault)
      case ConnectRaised => Raised(Connect)
      case CommittedAll => Inserted(batch)
      case RolledBackAll => RolledBack(batch)
  }

  /** The cache after the call: deduplication only runs on a non-empty
      fetch, and changes nothing when reading the stored URLs raised. */
  function CacheAfter(cached: set<string>, articles: seq<Article>, seen: Option<set<string>>): set<string>
  {
    if articles == [] || seen.None? then cached
    else seen.value + UrlsOf(NewArticles(articles, seen.value))
  }

  /** The articles `fetch_articles` returns for this startup. */
  ghost function Fetched(name: string, words: HelpingWords, days: nat, env: Env, keys: seq<string>, drawn: nat,
                         bound: nat): seq<Article>
    requires keys != [] && StopsBy(env.provider, bound)
  {
    Collected(env.provider, Search(BuildQuery(name, words, env.parseJson), days, keys, drawn), 1, bound)
  }

  /** `process_and_store_articles` */
  method ProcessAndStore(startupId: string, startupName: string, helpingWords: HelpingWords, days: nat,
                         env: Env, ring: KeyRing, cache: UrlCache, db: ArticlesTable, ghost bound: nat)
    returns (outcome: Outcome)
    requires ring.Valid() && db.Valid() && StopsBy(env.provider, bound)
    modifies ring, cache, db
    ensures ring.Valid() && db.Valid() && db.openConnections == old(db.openConnections)
    ensures var fetched := Fetched(startupName, helpingWords, days, env, ring.keys, old(ring.drawn), bound);
            var seen := Hydrated(old(cache.urls), env.stored);
            && outcome == AfterFetch(fetched, seen, startupId, env)
            && db.rows == old(db.rows) + InsertedRows(outcome)
            && cache.urls == CacheAfter(old(cache.urls), fetched, seen)
    ensures ring.drawn == old(ring.drawn) + Requests(env.provider, Search(BuildQuery(startupName, helpingWords, env.parseJson), days, ring.keys, old(ring.drawn)), 1, bound)
  {
    var articles := FetchArticles(startupName, helpingWords, env.parseJson, days, env.provider, ring, bound);
    if articles == [] {
      return NoArticles;
    }
    var passed := cache.CheckDuplicacy(articles, env.stored);
    if passed.None? {
      return Raised(StorageRead);
    }
    outcome := StoreNew(passed.value, startupId, env, db);
  }

  /** Steps 3 to 6 of `process_and_store_articles`, on the articles that
      passed deduplication: merge and filter, then the rest. */
  method StoreNew(newArticles: seq<Article>, startupId: string, env: Env, db: ArticlesTable)
    returns (outcome: Outcome)
    requires db.Valid()
    modifies db
    ensures db.Valid() && db.openConnections == old(db.openConnections)
    ensures outcome == AfterDedup(newArticles, startupId, env)
    ensures db.rows == old(db.rows) + InsertedRows(outcome)
  {
    if newArticles == [] {
      return NoNewArticles;
    }
    var contents, valid := MergeAndFilter(newArticles);
    outcome := ScoreAndStore(valid, contents, startupId, env, db);
  }

  /** Steps 4 to 6: score the kept texts, build the batch, insert it. */
  method ScoreAndStore(valid: seq<Article>, contents: seq<string>, startupId: string, env: Env, db: ArticlesTable)
    returns (outcome: Outcome)
    requires db.Valid()
    modifies db
    ensures db.Valid() && db.openConnections == old(db.openConnections)
    ensures outcome == AfterFilter(valid, contents, startupId, env)
    ensures db.rows == old(db.rows) + InsertedRows(outcome)
  {
    if contents == [] {
      return NoValidContent;
    }
    var scoring := env.scorer(contents);
    if scoring.ScorerRaised? {
      return Raised(Scoring);
    }
    var results := scoring.results;
    if results == [] {
      return NoScores;
    }
    var batch := BuildBatch(startupId, valid, results, contents, env.newId);
    outcome := StoreBatch(batch, env.fault, db);
  }

  /** Step 6 behind the `if not batch` test. */
  method StoreBatch(batch: seq<Row>, fault: DbFault, db: ArticlesTable) returns (outcome: Outcome)
    requires db.Valid()
    modifies db
    ensures db.Valid() && db.openConnections == old(db.openConnections)
    ensures outcome == AfterBatch(batch, fault)
    ensures db.rows == old(db.rows) + InsertedRows(outcome)
  {
    if batch == [] {
      return NoBatch;
    }
    var inserted := db.InsertBatch(batch, fault);
    match inserted
    case ConnectRaised => outcome := Raised(Connect);
    case CommittedAll => outcome := Inserted(batch);
    case RolledBackAll => outcome := RolledBack(batch);
  }

  /** The exception a wrapper logs and swallows, if any. */
  function Logged(o: Outcome): Option<Stage>
  {
    if o.Raised? then Some(o.stage) else None
  }

  /** `process_and_store_initial_articles`: the 30-day lookback; any
      exception is logged and swallowed. */
  method ProcessAndStoreInitialArticles(startupId: string, startupName: string, helpingWords: HelpingWords,
                                        env: Env, ring: KeyRing, cache: UrlCache, db: ArticlesTable,
                                        ghost bound: nat)
    returns (logged: Option<Stage>)
    requires ring.Valid() && db.Valid() && StopsBy(env.provider, bound)
    modifies ring, cache, db
    ensures ring.Valid() && db.Valid() && db.openConnections == old(db.openConnections)
    ensures var fetched := Fetched(startupName, helpingWords, InitialLookbackDays, env, ring.keys, old(ring.drawn), bound);
            var seen := Hydrated(old(cache.urls), env.stored);
            var outcome := AfterFetch(fetched, seen, startupId, env);
            && logged == Logged(outcome)
            && db.rows == old(db.rows) + InsertedRows(outcome)
            && cache.urls == CacheAfter(old(cache.urls), fetched, seen)
    ensures ring.drawn == old(ring.drawn) + Requests(env.provider, Search(BuildQuery(startupName, helpingWords, env.parseJson), InitialLookbackDays, ring.keys, old(ring.drawn)), 1, bound)
  {
    var outcome := ProcessAndStore(startupId, startupName, helpingWords, InitialLookbackDays, env, ring, cache, db, bound);
    logged := Logged(outcome);
  }

  /** `process_and_store_daily_articles`: the 1-day lookback; any exception
      is logged and swallowed. */
  method ProcessAndStoreDailyArticles(startupId: string, startupName: string, helpingWords: HelpingWords,
                                      env: Env, ring: KeyRing, cache: UrlCache, db: ArticlesTable,
                                      ghost bound: nat)
    returns (logged: Option<Stage>)
    requires ring.Valid() && db.Valid() && StopsBy(env.provider, bound)
    modifies ring, cache, db
    ensures ring.Valid() && db.Valid() && db.openConnections == old(db.openConnections)
    ensures var fetched := Fetched(startupName, helpingWords, DailyLookbackDays, env, ring.keys, old(ring.drawn), bound);
            var seen := Hydrated(old(cache.urls), env.stored);
            var outcome := AfterFetch(fetched, seen, startupId, env);
            && logged == Logged(outcome)
            && db.rows == old(db.rows) + InsertedRows(outcome)
            && cache.urls == CacheAfter(old(cache.urls), fetched, seen)
    ensures ring.drawn == old(ring.drawn) + Requests(env.provider, Search(BuildQuery(startupName, helpingWords, env.parseJson), DailyLookbackDays, ring.keys, old(ring.drawn)), 1, bound)
  {
    var outcome := ProcessAndStore(startupId, startupName, helpingWords, DailyLookbackDays, env, ring, cache, db, bound);
    logged := Logged(outcome);
  }

  /** The call got as far as the insert (whatever the insert then did). */
  predicate ReachesInsert(o: Outcome)
  {
    o.Inserted? || o.RolledBack? || o == Raised(Connect)
  }

  /** Every row written comes from a fetched article that passed
      deduplication and the length filter, carries the startup's id and a
      short content, and has a title. */
  lemma InsertedRowsAreNew(articles: seq<Article>, seen: Option<set<string>>, startupId: string, env: Env)
    requires AfterFetch(articles, seen, startupId, env).Inserted?
    ensures seen.Some?
    ensures var rows := AfterFetch(articles, seen, startupId, env).batch;
            && rows != []
            && forall row | row in rows ::
                 && row.startupId == startupId
                 && |row.content| <= DefaultLimit + |Ellipsis|
                 && row.title != ""
                 && row.url.Some? && row.url.value !in seen.value
                 && exists a | a in articles :: a.url == row.url && IsValid(a)
  {
    var newOnes := NewArticles(articles, seen.value);
    var valid := Filter(newOnes, IsValid);
    assert AfterFetch(articles, seen, startupId, env) == AfterFilter(valid, Map(MergedText, valid), startupId, env);
    var rows := AfterFetch(articles, seen, startupId, env).batch;
    forall row | row in rows
      ensures row.startupId == startupId && |row.content| <= DefaultLimit + |Ellipsis| && row.title != ""
      ensures row.url.Some? && row.url.value !in seen.value
      ensures exists a | a in articles :: a.url == row.url && IsValid(a)
    {
      var a := InsertedRowSource(valid, Map(MergedText, valid), startupId, env, row);
      FilterMembership(newOnes, IsValid, a);
    }
  }

  /** The kept article a stored row was built from. */
  lemma InsertedRowSource(valid: seq<Article>, contents: seq<string>, startupId: string, env: Env, row: Row)
    returns (a: Article)
    requires AfterFilter(valid, contents, startupId, env).Inserted?
    requires row in AfterFilter(valid, contents, startupId, env).batch
    ensures a in valid && a.url == row.url
    ensures row.startupId == startupId && |row.content| <= DefaultLimit + |Ellipsis| && row.title != ""
  {
    var results := env.scorer(contents).results;
    var rows := Batch(startupId, valid, results, contents, env.newId);
    assert AfterFilter(valid, contents, startupId, env).batch == rows;
    var i :| 0 <= i < |rows| && rows[i] == row;
    a := valid[i];
  }

  /** The `if not batch` return is never taken: the texts, the articles they
      come from and (once the scorer returned something) the results are all
      non-empty, so the zip is too. */
  lemma BatchNeverEmpty(articles: seq<Article>, seen: Option<set<string>>, startupId: string, env: Env)
    ensures AfterFetch(articles, seen, startupId, env) != NoBatch
  {
    if articles != [] && seen.Some? {
      var newOnes := NewArticles(articles, seen.value);
      if newOnes != [] {
        var valid := Filter(newOnes, IsValid);
        assert AfterFetch(articles, seen, startupId, env) == AfterFilter(valid, Map(MergedText, valid), startupId, env);
        ScoredBatchNonEmpty(valid, Map(MergedText, valid), startupId, env);
      }
    }
  }

  /** The scoring stage on aligned texts never ends at `if not batch`, and
      reaches the insert exactly when there are texts and scores. */
  lemma ScoredBatchNonEmpty(valid: seq<Article>, contents: seq<string>, startupId: string, env: Env)
    requires |valid| == |contents|
    ensures AfterFilter(valid, contents, startupId, env) != NoBatch
    ensures ReachesInsert(AfterFilter(valid, contents, startupId, env)) <==>
              contents != [] && env.scorer(contents).Scored? && env.scorer(contents).results != []
  {
  }

  /** The insert is reached exactly when every earlier stage yields
      something: the fetch, deduplication, the length filter and the
      scorer. */
  lemma InsertNeedsEveryStage(articles: seq<Article>, seen: Option<set<string>>, startupId: string, env: Env)
    ensures ReachesInsert(AfterFetch(articles, seen, startupId, env)) <==>
              && articles != [] && seen.Some?
              && var valid := Filter(NewArticles(articles, seen.value), IsValid);
                 && valid != []
                 && var scoring := env.scorer(Map(MergedText, valid));
                    scoring.Scored? && scoring.results != []
  {
    if articles != [] && seen.Some? {
      var newOnes := NewArticles(articles, seen.value);
      var valid := Filter(newOnes, IsValid);
      if newOnes != [] {
        assert AfterFetch(articles, seen, startupId, env) == AfterFilter(valid, Map(MergedText, valid), startupId, env);
        ScoredBatchNonEmpty(valid, Map(MergedText, valid), startupId, env);
      } else {
        assert valid == [];
      }
    }
  }

  /** After a non-empty fetch whose deduplication could read the stored URLs,
      every truthy URL among the fetched articles is in the cache. */
  lemma FetchedUrlsCached(cached: set<string>, articles: seq<Article>, seen: Option<set<string>>)
    requires articles != [] && seen.Some?
    ensures forall a | a in articles && Truthy(a.url) :: a.url.value in CacheAfter(cached, articles, seen)
  {
    forall a | a in articles && Truthy(a.url) ensures a.url.value in CacheAfter(cached, articles, seen) {
      if a.url.value !in seen.value {
        assert a in NewArticles(articles, seen.value);
      }
    }
  }

  /** Three fetched articles with URLs, none stored yet, one of them too short:
      the scorer sees the two long texts, and the two rows built from them
      are committed, in fetch order. */
  lemma ThreeFetchedTwoStored(a: Article, short: Article, b: Article, s1: Sentiment, s2: Sentiment,
                              startupId: string, env: Env)
    requires Truthy(a.url) && Truthy(short.url) && Truthy(b.url)
    requires IsValid(a) && !IsValid(short) && IsValid(b)
    requires env.scorer([MergedText(a), MergedText(b)]) == Scored([s1, s2]) && env.fault == NoFault
    ensures var batch := Batch(startupId, [a, b], [s1, s2], [MergedText(a), MergedText(b)], env.newId);
            |batch| == 2 && AfterFetch([a, short, b], Some({}), startupId, env) == Inserted(batch)
  {
    AllNew(a, short, b, startupId, env);
    ShortDropped(a, short, b, startupId, env);
    TwoScoredStored(a, b, [MergedText(a), MergedText(b)], s1, s2, startupId, env);
  }

  /** The short middle article is filtered out; the other two go on to
      scoring with their merged texts. */
  lemma ShortDropped(a: Article, short: Article, b: Article, startupId: string, env: Env)
    requires IsValid(a) && !IsValid(short) && IsValid(b)
    ensures AfterDedup([a, short, b], startupId, env)
         == AfterFilter([a, b], [MergedText(a), MergedText(b)], startupId, env)
  {
    FilterDropsMiddle(a, short, b, IsValid);
    MapTwo(MergedText, a, b);
  }

  /** Two kept articles, two texts, two scores and no database fault: the
      batch built from both is committed. */
  lemma TwoScoredStored(a: Article, b: Article, contents: seq<string>, s1: Sentiment, s2: Sentiment,
                        startupId: string, env: Env)
    requires |contents| == 2 && env.scorer(contents) == Scored([s1, s2]) && env.fault == NoFault
    ensures var batch := Batch(startupId, [a, b], [s1, s2], contents, env.newId);
            |batch| == 2 && AfterFilter([a, b], contents, startupId, env) == Inserted(batch)
  {
    var batch := Batch(startupId, [a, b], [s1, s2], contents, env.newId);
    assert AfterFilter([a, b], contents, startupId, env) == AfterBatch(batch, env.fault);
  }

  /** Against an empty cache articles with truthy URLs are all new, so all
      of them reach the validity filter. */
  lemma AllNew(a: Article, short: Article, b: Article, startupId: string, env: Env)
    requires Truthy(a.url) && Truthy(short.url) && Truthy(b.url)
    ensures AfterFetch([a, short, b], Some({}), startupId, env) == AfterDedup([a, short, b], startupId, env)
  {
    var fetched := [a, short, b];
    forall x | x in fetched
      ensures Truthy(x.url)
    {
      assert x == a || x == short || x == b;
    }
    assert NewArticles(fetched, {}) == fetched;
  }
}
