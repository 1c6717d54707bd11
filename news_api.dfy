/** The NewsAPI client: the search query built for a startup, the round-robin
    API key ring, and the pagination loop of `fetch_articles`. The HTTP call
    is a function `provider` from the request to the page it returns (or
    `Failed` for a request that raised); the transport's own retries, the
    timeout and the sleep between pages are not modelled. */
module NewsApi {
  import opened Articles
  import opened Seqs
  import opened TextUtils

  /** `"pageSize": 100`, also the "last page" threshold of the loop. */
  const PageSize: nat := 100

  /** `helping_words` as the pipeline may receive it: absent, a list, or a
      string (comma-separated, or a JSON array when it starts with `[`). */
  datatype HelpingWords = NoWords | WordList(words: seq<string>) | WordString(text: string)

  /** Python truthiness of `helping_words`. */
  predicate IsTruthy(h: HelpingWords)
  {
    match h
    case NoWords => false
    case WordList(ws) => ws != []
    case WordString(t) => t != ""
  }

  function FirstIndexOf(s: string, c: char): (i: nat)
    requires c in s
    ensures i < |s| && s[i] == c && c !in s[..i]
  {
    if s[0] == c then 0
    else
      var i := 1 + FirstIndexOf(s[1..], c);
      assert s[..i] == [s[0]] + s[1..][..i - 1];
      i
  }

  /** `s.split(sep)`: at least one part, no part contains `sep`, and joining
      the parts with `sep` gives back `s`. */
  function Split(s: string, sep: char): (parts: seq<string>)
    ensures parts != []
    ensures forall p | p in parts :: sep !in p
    ensures Join([sep], parts) == s
    decreases |s|
  {
    if sep !in s then [s]
    else
      var i := FirstIndexOf(s, sep);
      var rest := Split(s[i + 1..], sep);
      var parts := [s[..i]] + rest;
      assert parts[1..] == rest;
      assert s == s[..i] + [sep] + s[i + 1..];
      parts
  }

  /** The keyword list `build_query` extends the base terms with; a string
      that starts with `[` (once stripped) is handed to `parseJson`, which
      stands for `json.loads`. */
  function Keywords(h: HelpingWords, parseJson: string -> seq<string>): (r: seq<string>)
    ensures !IsTruthy(h) ==> r == []
    ensures h.WordList? ==> r == h.words
    ensures h.WordString? && h.text != "" && !StartsWithBracket(h.text) ==>
              Join([','], r) == h.text && forall w | w in r :: ',' !in w
  {
    match h
    case NoWords => []
    case WordList(ws) => ws
    case WordString(t) =>
      if t == "" then []
      else if StartsWithBracket(t) then parseJson(t)
      else Split(t, ',')
  }

  /** `helping_words.strip().startswith('[')` */
  predicate StartsWithBracket(t: string)
  {
    var s := Strip(t);
    s != [] && s[0] == '['
  }

  /** `f'"{w}"'` */
  function Quote(w: string): string
  {
    "\"" + w + "\""
  }

  function BaseTerms(name: string): seq<string>
  {
    [Quote(name), Quote(name) + " startup", Quote(name) + " company", Quote(name) + " India"]
  }

  /** `[f'"{word.strip()}"' for word in words]` */
  function KeywordTerms(words: seq<string>): (terms: seq<string>)
    ensures |terms| == |words|
  {
    if words == [] then []
    else KeywordTerms(words[..|words| - 1]) + [Quote(Strip(words[|words| - 1]))]
  }

  function QueryTerms(name: string, words: seq<string>): seq<string>
  {
    BaseTerms(name) + KeywordTerms(words)
  }

  /** `build_query` */
  function BuildQuery(name: string, h: HelpingWords, parseJson: string -> seq<string>): (q: string)
    ensures q == BaseQuery(name) + KeywordClauses(Keywords(h, parseJson))
  {
    QueryShape(name, Keywords(h, parseJson));
    Join(" OR ", QueryTerms(name, Keywords(h, parseJson)))
  }

  /** The query of the four base terms alone. */
  function BaseQuery(name: string): (q: string)
  {
    var n := Quote(name);
    n + " OR " + (n + " startup") + " OR " + (n + " company") + " OR " + (n + " India")
  }

  lemma BaseTermsJoined(name: string)
    ensures Join(" OR ", BaseTerms(name)) == BaseQuery(name)
  {
    var b := BaseTerms(name);
    JoinFour(" OR ", b[0], b[1], b[2], b[3]);
    assert b == [b[0], b[1], b[2], b[3]];
  }

  /** Without (truthy) keywords the query is exactly the four base terms. */
  lemma QueryWithoutKeywords(name: string, h: HelpingWords, parseJson: string -> seq<string>)
    requires !IsTruthy(h)
    ensures BuildQuery(name, h, parseJson) == BaseQuery(name)
  {
    assert QueryTerms(name, []) == BaseTerms(name);
    BaseTermsJoined(name);
  }

  /** One " OR "-clause per keyword, each quoted and trimmed. */
  function KeywordClauses(words: seq<string>): string
  {
    if words == [] then ""
    else KeywordClauses(words[..|words| - 1]) + " OR " + Quote(Strip(words[|words| - 1]))
  }

  /** The query is the four base terms followed by one clause per keyword,
      in keyword order. */
  lemma {:induction false} QueryShape(name: string, words: seq<string>)
    ensures Join(" OR ", QueryTerms(name, words)) == BaseQuery(name) + KeywordClauses(words)
  {
    if words == [] {
      assert QueryTerms(name, words) == BaseTerms(name);
      BaseTermsJoined(name);
    } else {
      var init, last := words[..|words| - 1], words[|words| - 1];
      var terms, term := QueryTerms(name, init), Quote(Strip(last));
      QueryShape(name, init);
      assert QueryTerms(name, words) == terms + [term] by {
        AppendAssoc(BaseTerms(name), KeywordTerms(init), [term]);
      }
      JoinAppend(" OR ", terms, term);
      AppendAssoc(BaseQuery(name) + KeywordClauses(init), " OR ", term);
      AppendAssoc(BaseQuery(name), KeywordClauses(init), " OR " + term);
      AppendAssoc(KeywordClauses(init), " OR ", term);
    }
  }

  /** A startup with two already trimmed keywords: the two quoted keywords
      follow the four base terms, in order. */
  lemma TwoKeywordQuery(name: string, first: string, second: string, parseJson: string -> seq<string>)
    requires IsStripped(first) && IsStripped(second)
    ensures BuildQuery(name, WordList([first, second]), parseJson)
         == BaseQuery(name) + " OR " + Quote(first) + " OR " + Quote(second)
  {
    var words := Keywords(WordList([first, second]), parseJson);
    assert words == [first, second];
    TwoClauses(first, second);
    ReassociateFive(BaseQuery(name), " OR ", Quote(first), " OR ", Quote(second));
  }

  lemma ReassociateFive<T>(a: seq<T>, b: seq<T>, c: seq<T>, d: seq<T>, e: seq<T>)
    ensures a + (b + c + d + e) == a + b + c + d + e
  {
    AppendAssoc(a, b + c + d, e);
    AppendAssoc(a, b + c, d);
    AppendAssoc(a, b, c);
  }

  lemma TwoClauses(first: string, second: string)
    requires IsStripped(first) && IsStripped(second)
    ensures KeywordClauses([first, second]) == " OR " + Quote(first) + " OR " + Quote(second)
  {
    var words := [first, second];
    ClausesOfTwo(words);
    assert words[0] == first && words[1] == second;
    assert Strip(first) == first && Strip(second) == second;
  }

  lemma ClausesOfTwo(words: seq<string>)
    requires |words| == 2
    ensures KeywordClauses(words) == " OR " + Quote(Strip(words[0])) + " OR " + Quote(Strip(words[1]))
  {
    var sep, q1, q2 := " OR ", Quote(Strip(words[0])), Quote(Strip(words[1]));
    var init := words[..1];
    assert init[..0] == [] && init[0] == words[0];
    var c1 := KeywordClauses(init);
    assert c1 == sep + q1 by {
      assert |init| == 1 && KeywordClauses(init[..0]) == "";
      assert c1 == KeywordClauses(init[..0]) + sep + Quote(Strip(init[0]));
    }
    assert KeywordClauses(words) == c1 + sep + q2;
  }

  /** The `cycle` over the configured API keys: `index` is the iterator's
      position, `drawn` counts the keys handed out so far. */
  class KeyRing {
    const keys: seq<string>
    var index: nat
    ghost var drawn: nat

    ghost predicate Valid()
      reads this
    {
      keys != [] && index == drawn % |keys|
    }

    /** The ring always holds at least one key: the key list is the
        `NEWS_API` variable split at commas, and an unset variable gives the
        one-key list `[""]`. */
    constructor (keys: seq<string>)
      requires keys != []
      ensures Valid() && this.keys == keys && drawn == 0
    {
      this.keys := keys;
      index := 0;
      drawn := 0;
    }

    /** `get_news_api_key`: the k-th call (counting from 0) returns
        `keys[k % |keys|]`. */
    method Next() returns (key: string)
      requires Valid()
      modifies this
      ensures Valid() && drawn == old(drawn) + 1
      ensures key == keys[old(drawn) % |keys|]
    {
      key := keys[index];
      index := if index + 1 == |keys| then 0 else index + 1;
      NextPosition(drawn, |keys|);
      drawn := drawn + 1;
    }
  }

  /** The remainder is determined by any decomposition `x == q * n + r`. */
  lemma ModUnique(x: int, n: int, q: int, r: int)
    requires n > 0 && 0 <= r < n && x == q * n + r
    ensures x % n == r
  {
    var q', r' := x / n, x % n;
    assert x == q' * n + r';
    var k := q - q';
    assert k * n == r' - r;
    if k >= 1 {
      assert k * n == n + (k - 1) * n;
    } else if k <= -1 {
      assert k * n == -n + (k + 1) * n;
    }
  }

  /** Advancing the ring by one key moves its position by one, wrapping. */
  lemma NextPosition(d: nat, n: nat)
    requires n > 0
    ensures (d + 1) % n == if d % n + 1 == n then 0 else d % n + 1
  {
    var q, r := d / n, d % n;
    assert d == q * n + r;
    if r + 1 == n {
      assert d + 1 == (q + 1) * n + 0;
      ModUnique(d + 1, n, q + 1, 0);
    } else {
      ModUnique(d + 1, n, q, r + 1);
    }
  }

  /** The parameters of one request; `from`/`to` are given by `days`. */
  datatype Request = Request(query: string, days: nat, apiKey: string, pageSize: nat, page: nat)

  /** What one request yields: `Failed` when `requests` raised (after the
      transport's retries), otherwise the page's `articles` (`[]` when the
      field is absent). */
  datatype PageResult = Failed | Page(articles: seq<Article>)

  /** The loop stops after this response. */
  predicate EndsPagination(r: PageResult)
  {
    r.Failed? || |r.articles| < PageSize
  }

  /** The loop stops after this response without appending anything. */
  predicate EndsEmpty(r: PageResult)
  {
    r.Failed? || r.articles == []
  }

  /** Termination of the `while True` loop: every request for page `bound`
      or later is a last page. */
  ghost predicate StopsBy(provider: Request -> PageResult, bound: nat)
  {
    forall r: Request {:trigger provider(r)} :: bound <= r.page ==> EndsPagination(provider(r))
  }

  /** What stays fixed during one `fetch_articles` call: the query, the
      lookback in days, the key list and the number of keys drawn before it. */
  datatype Search = Search(query: string, days: nat, keys: seq<string>, drawn: nat)

  /** The response to the request for `page`, made with the next key of the
      ring: the `page`-th request of the call draws key number
      `drawn + page - 1`. */
  function Response(provider: Request -> PageResult, s: Search, page: nat): PageResult
    requires s.keys != []
  {
    provider(Request(s.query, s.days, s.keys[(s.drawn + page - 1) % |s.keys|], PageSize, page))
  }

  lemma ResponseWithKey(provider: Request -> PageResult, s: Search, page: nat, key: string, d: nat)
    requires s.keys != [] && d == s.drawn + page - 1 && key == s.keys[d % |s.keys|]
    ensures provider(Request(s.query, s.days, key, PageSize, page)) == Response(provider, s, page)
  {
  }

  /** The pages `fetch_articles` appends, from `page` on: responses are
      appended until one fails, comes back empty, or is short (appended, then
      the loop ends). */
  ghost function FetchedPages(provider: Request -> PageResult, s: Search, page: nat, bound: nat)
    : seq<seq<Article>>
    requires s.keys != [] && StopsBy(provider, bound)
    decreases bound - page
  {
    var r := Response(provider, s, page);
    if EndsEmpty(r) then []
    else if |r.articles| < PageSize then [r.articles]
    else
      assert page < bound;
      [r.articles] + FetchedPages(provider, s, page + 1, bound)
  }

  /** Page `page + i` came back as the non-empty `pages[i]`, for every `i`. */
  ghost predicate AreResponses(provider: Request -> PageResult, s: Search, page: nat, pages: seq<seq<Article>>)
    requires s.keys != []
  {
    forall i | 0 <= i < |pages| :: Response(provider, s, page + i) == Page(pages[i]) && pages[i] != []
  }

  /** Each page fetched is the non-empty response to its own request. */
  lemma {:induction false} FetchedPagesAreResponses(provider: Request -> PageResult, s: Search, page: nat, bound: nat)
    requires s.keys != [] && StopsBy(provider, bound)
    decreases bound - page
    ensures AreResponses(provider, s, page, FetchedPages(provider, s, page, bound))
  {
    var r := Response(provider, s, page);
    if !EndsEmpty(r) && |r.articles| >= PageSize {
      assert page < bound;
      var rest := FetchedPages(provider, s, page + 1, bound);
      FetchedPagesAreResponses(provider, s, page + 1, bound);
      var pages := [r.articles] + rest;
      assert FetchedPages(provider, s, page, bound) == pages;
      forall i | 0 <= i < |pages|
        ensures Response(provider, s, page + i) == Page(pages[i]) && pages[i] != []
      {
        if i > 0 {
          var j := i - 1;
          assert pages[i] == rest[j] && page + i == (page + 1) + j;
        }
      }
    }
  }

  /** Every page but the last is a full page. */
  ghost predicate FullButLast(pages: seq<seq<Article>>)
  {
    forall i | 0 <= i < |pages| - 1 :: |pages[i]| >= PageSize
  }

  /** Every page fetched but the last is a full page. */
  lemma {:induction false} FetchedPagesAreFull(provider: Request -> PageResult, s: Search, page: nat, bound: nat)
    requires s.keys != [] && StopsBy(provider, bound)
    decreases bound - page
    ensures FullButLast(FetchedPages(provider, s, page, bound))
  {
    var r := Response(provider, s, page);
    if !EndsEmpty(r) && |r.articles| >= PageSize {
      assert page < bound;
      var rest := FetchedPages(provider, s, page + 1, bound);
      FetchedPagesAreFull(provider, s, page + 1, bound);
      var pages := [r.articles] + rest;
      assert FetchedPages(provider, s, page, bound) == pages;
      forall i | 1 <= i < |pages| - 1 ensures |pages[i]| >= PageSize {
        assert pages[i] == rest[i - 1];
      }
    }
  }

  /** Pagination stops exactly at the first failed, empty or short response:
      when no short page ended it, the request after the last page fetched
      failed or came back empty. */
  lemma {:induction false} FetchedPagesEnd(provider: Request -> PageResult, s: Search, page: nat, bound: nat)
    requires s.keys != [] && StopsBy(provider, bound)
    decreases bound - page
    ensures var pages := FetchedPages(provider, s, page, bound);
            pages == [] || |pages[|pages| - 1]| >= PageSize ==> EndsEmpty(Response(provider, s, page + |pages|))
  {
    var r := Response(provider, s, page);
    var pages := FetchedPages(provider, s, page, bound);
    if EndsEmpty(r) {
      assert pages == [];
    } else if |r.articles| < PageSize {
      assert pages == [r.articles];
    } else {
      assert page < bound;
      FetchedPagesEnd(provider, s, page + 1, bound);
      var rest := FetchedPages(provider, s, page + 1, bound);
      assert pages == [r.articles] + rest;
      assert page + |pages| == page + 1 + |rest|;
      if rest != [] {
        assert pages[|pages| - 1] == rest[|rest| - 1];
      }
    }
  }

  /** Requests made (and keys drawn) for the pages fetched: one per page,
      plus the final failed or empty request unless a short page ended it. */
  function RequestsMade(pages: seq<seq<Article>>): nat
  {
    if pages != [] && |pages[|pages| - 1]| < PageSize then |pages| else |pages| + 1
  }

  /** The articles `fetch_articles` collects from `page` on. */
  ghost function Collected(provider: Request -> PageResult, s: Search, page: nat, bound: nat): (c: seq<Article>)
    requires s.keys != [] && StopsBy(provider, bound)
    decreases bound - page
    ensures c == [] <==> EndsEmpty(Response(provider, s, page))
    ensures !EndsEmpty(Response(provider, s, page)) ==> Response(provider, s, page).articles <= c
  {
    var r := Response(provider, s, page);
    if EndsEmpty(r) then []
    else if |r.articles| < PageSize then r.articles
    else
      assert page < bound;
      r.articles + Collected(provider, s, page + 1, bound)
  }

  /** The requests `fetch_articles` makes from `page` on. */
  ghost function Requests(provider: Request -> PageResult, s: Search, page: nat, bound: nat): (n: nat)
    requires s.keys != [] && StopsBy(provider, bound)
    decreases bound - page
    ensures 1 <= n
    ensures page <= bound ==> n <= bound + 1 - page
  {
    if EndsPagination(Response(provider, s, page)) then 1
    else
      assert page < bound;
      1 + Requests(provider, s, page + 1, bound)
  }

  /** The collected articles are the fetched pages, concatenated, and one
      request is made per page plus the last failed or empty one. */
  lemma {:induction false} CollectedPages(provider: Request -> PageResult, s: Search, page: nat, bound: nat)
    requires s.keys != [] && StopsBy(provider, bound)
    decreases bound - page
    ensures var pages := FetchedPages(provider, s, page, bound);
            && Collected(provider, s, page, bound) == Concat(pages)
            && Requests(provider, s, page, bound) == RequestsMade(pages)
  {
    var r := Response(provider, s, page);
    if EndsEmpty(r) {
    } else if |r.articles| < PageSize {
      assert FetchedPages(provider, s, page, bound) == [r.articles];
      assert Concat([r.articles]) == r.articles + Concat([]);
    } else {
      assert page < bound;
      CollectedPages(provider, s, page + 1, bound);
      var rest := FetchedPages(provider, s, page + 1, bound);
      var pages := [r.articles] + rest;
      assert FetchedPages(provider, s, page, bound) == pages;
      assert pages[1..] == rest;
      assert rest != [] ==> pages[|pages| - 1] == rest[|rest| - 1];
    }
  }

  /** `fetch_articles`: builds the query for the startup, then requests
      pages 1, 2, ... drawing a fresh key for each, and returns the articles
      of the pages fetched, in order. */
  method FetchArticles(startupName: string, helpingWords: HelpingWords, parseJson: string -> seq<string>,
                       days: nat, provider: Request -> PageResult, ring: KeyRing, ghost bound: nat)
    returns (articles: seq<Article>)
    requires ring.Valid() && StopsBy(provider, bound)
    modifies ring
    ensures ring.Valid()
    ensures var search := Search(BuildQuery(startupName, helpingWords, parseJson), days, ring.keys, old(ring.drawn));
            && articles == Collected(provider, search, 1, bound)
            && ring.drawn == old(ring.drawn) + Requests(provider, search, 1, bound)
  {
    var query := BuildQuery(startupName, helpingWords, parseJson);
    articles := FetchPages(query, days, provider, ring, bound);
  }

  /** One turn of the pagination loop: what the response to `page` adds to
      the collected articles and to the requests made. */
  lemma PageStep(provider: Request -> PageResult, s: Search, page: nat, bound: nat)
    requires s.keys != [] && StopsBy(provider, bound)
    ensures var r := Response(provider, s, page);
            if EndsEmpty(r) then Collected(provider, s, page, bound) == [] && Requests(provider, s, page, bound) == 1
            else if |r.articles| < PageSize then
              Collected(provider, s, page, bound) == r.articles && Requests(provider, s, page, bound) == 1
            else
              && page < bound
              && Collected(provider, s, page, bound) == r.articles + Collected(provider, s, page + 1, bound)
              && Requests(provider, s, page, bound) == 1 + Requests(provider, s, page + 1, bound)
  {
    var r := Response(provider, s, page);
    if !EndsEmpty(r) && |r.articles| >= PageSize {
      assert page < bound;
    }
  }

  /** The pagination loop of `fetch_articles` for a built query. */
  method FetchPages(query: string, days: nat, provider: Request -> PageResult, ring: KeyRing, ghost bound: nat)
    returns (articles: seq<Article>)
    requires ring.Valid() && StopsBy(provider, bound)
    modifies ring
    ensures ring.Valid()
    ensures var search := Search(query, days, ring.keys, old(ring.drawn));
            && articles == Collected(provider, search, 1, bound)
            && ring.drawn == old(ring.drawn) + Requests(provider, search, 1, bound)
  {
    ghost var search := Search(query, days, ring.keys, ring.drawn);
    articles := [];
    var page := 1;
    while true
      invariant ring.Valid() && ring.keys == search.keys
      invariant 1 <= page
      invariant ring.drawn == search.drawn + page - 1
      invariant Collected(provider, search, 1, bound) == articles + Collected(provider, search, page, bound)
      invariant Requests(provider, search, 1, bound) == page - 1 + Requests(provider, search, page, bound)
      decreases bound + 1 - page
    {
      ghost var d := ring.drawn;
      var key := ring.Next();
      var response := provider(Request(query, days, key, PageSize, page));
      ResponseWithKey(provider, search, page, key, d);
      PageStep(provider, search, page, bound);
      if response.Failed? || response.articles == [] {
        break;
      }
      ghost var before := articles;
      articles := articles + response.articles;
      if |response.articles| < PageSize {
        break;
      }
      AppendAssoc(before, response.articles, Collected(provider, search, page + 1, bound));
      page := page + 1;
    }
  }

  /** Pages of 100, 100 and 40 articles: three requests, 240 articles. */
  lemma ThreePages(a: Article, search: Search)
    requires search.keys != []
    ensures var provider := (r: Request) =>
              if r.page <= 2 then Page(seq(100, _ => a)) else if r.page == 3 then Page(seq(40, _ => a)) else Failed;
            && StopsBy(provider, 3)
            && |Collected(provider, search, 1, 3)| == 240
            && Requests(provider, search, 1, 3) == 3
  {
    var provider := (r: Request) =>
      if r.page <= 2 then Page(seq(100, _ => a)) else if r.page == 3 then Page(seq(40, _ => a)) else Failed;
    assert StopsBy(provider, 3);
    assert |Collected(provider, search, 3, 3)| == 40;
    assert |Collected(provider, search, 2, 3)| == 140;
    assert Requests(provider, search, 2, 3) == 2;
  }

}
