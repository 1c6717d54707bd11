/** The process-wide URL duplicate cache. The module-level set of seen URLs
    becomes a `UrlCache` object; reading the stored URLs is an input that
    either yields the set of URLs in the article table or fails (`None`), in
    which case the reading call raises. */
module CacheUtils {
  import opened Articles
  import opened Seqs

  /** The article has a truthy `url` that is not among `seen`. */
  predicate IsNew(a: Article, seen: set<string>)
  {
    Truthy(a.url) && a.url.value !in seen
  }

  /** The comprehension of `check_duplicacy`: the articles with a new URL,
      in input order, tested against `seen` as it was when the call started. */
  function NewArticles(articles: seq<Article>, seen: set<string>): (r: seq<Article>)
    ensures forall a | a in r :: a in articles && IsNew(a, seen)
    ensures forall a | a in articles && IsNew(a, seen) :: a in r
    ensures (forall a | a in articles :: IsNew(a, seen)) ==> r == articles
    ensures (forall a | a in articles :: !IsNew(a, seen)) ==> r == []
  {
    var p := (a: Article) => IsNew(a, seen);
    var r := Filter(articles, p);
    KeepAll(articles, p);
    DropAll(articles, p);
    forall a | a in r || a in articles ensures a in r <==> a in articles && IsNew(a, seen) {
      FilterMembership(articles, p, a);
    }
    r
  }

  /** `{a['url'] for a in articles if a.get('url')}` */
  function UrlsOf(articles: seq<Article>): (urls: set<string>)
    ensures "" !in urls
    ensures forall a | a in articles && Truthy(a.url) :: a.url.value in urls
    ensures forall u | u in urls :: exists a | a in articles :: a.url == Some(u)
  {
    set a | a in articles && Truthy(a.url) :: a.url.value
  }

  /** What `fetch_existing_urls_cache` returns for the cache contents
      `cached`: the cache itself when it is non-empty, otherwise the stored
      URLs (`None` when reading them raises). */
  function Hydrated(cached: set<string>, stored: Option<set<string>>): (r: Option<set<string>>)
    ensures r.Some? ==> cached <= r.value
    ensures r != Some(cached) ==> cached == {} && r == stored
  {
    if cached != {} then Some(cached) else stored
  }

  /** Every article the filter lets through is in input order. */
  lemma NewArticlesInOrder(articles: seq<Article>, seen: set<string>)
    ensures IsSubsequence(NewArticles(articles, seen), articles)
  {
    FilterIsSubsequence(articles, (a: Article) => IsNew(a, seen));
  }

  /** Applying the filter a second time, to the same articles, after their
      URLs were added to the cache (and with the stored URLs unchanged) lets
      nothing through: the cache is either no longer empty, or it was empty
      and nothing passed the first time. */
  lemma SecondCheckIsEmpty(articles: seq<Article>, cached: set<string>, stored: set<string>)
    requires Hydrated(cached, Some(stored)).Some?
    ensures var seen := Hydrated(cached, Some(stored)).value;
            var first := NewArticles(articles, seen);
            var again := Hydrated(seen + UrlsOf(first), Some(stored));
            again.Some? && NewArticles(articles, again.value) == []
  {
    var seen := Hydrated(cached, Some(stored)).value;
    var first := NewArticles(articles, seen);
    var after := seen + UrlsOf(first);
    var again := Hydrated(after, Some(stored)).value;
    if after == {} {
      forall a | a in articles ensures !IsNew(a, seen) {
      }
      assert seen == {} && stored == {};
      assert again == seen;
    } else {
      assert again == after;
      forall a | a in articles && Truthy(a.url) ensures a.url.value in again {
        if a.url.value !in seen {
          assert a in first;
        }
      }
    }
  }

  /** Two articles in one call with the same new URL are both returned:
      membership is tested against the cache as it was before the call. */
  lemma SameNewUrlKeptTwice(a: Article, b: Article, seen: set<string>)
    requires IsNew(a, seen) && b.url == a.url
    ensures NewArticles([a, b], seen) == [a, b]
  {
  }

  class UrlCache {
    /** `_EXISTING_URLS_CACHE` */
    var urls: set<string>

    constructor ()
      ensures urls == {}
    {
      urls := {};
    }

    /** `reset_url_cache` */
    method Reset()
      modifies this
      ensures urls == {}
    {
      urls := {};
    }

    /** `fetch_existing_urls_cache`: a non-empty cache is returned as it is,
        without reading storage; an empty one is replaced by the stored URLs.
        `None` stands for the storage read raising, which leaves the cache
        alone. */
    method FetchExisting(stored: Option<set<string>>) returns (existing: Option<set<string>>)
      modifies this
      ensures existing == Hydrated(old(urls), stored)
      ensures urls == if existing.Some? then existing.value else old(urls)
    {
      if urls != {} {
        return Some(urls);
      }
      if stored.None? {
        return None;
      }
      urls := stored.value;
      existing := Some(urls);
    }

    /** `check_duplicacy`: keeps the articles whose URL is truthy and not in
        the (hydrated) cache, then adds their URLs to the cache. `None` when
        hydration had to read storage and the read raised. */
    method CheckDuplicacy(articles: seq<Article>, stored: Option<set<string>>) returns (passed: Option<seq<Article>>)
      modifies this
      ensures Hydrated(old(urls), stored).None? ==> passed.None? && urls == old(urls)
      ensures Hydrated(old(urls), stored).Some? ==>
                var seen := Hydrated(old(urls), stored).value;
                && passed == Some(NewArticles(articles, seen))
                && urls == seen + UrlsOf(passed.value)
      ensures old(urls) <= urls
      ensures passed.Some? ==> forall a | a in passed.value :: a.url.value in urls
    {
      var existing := FetchExisting(stored);
      if existing.None? {
        return None;
      }
      var newArticles := NewArticles(articles, existing.value);
      urls := urls + UrlsOf(newArticles);
      passed := Some(newArticles);
    }
  }

  /** Calling `check_duplicacy` twice on the same articles, with storage
      unchanged, yields nothing the second time. */
  method CheckTwice(cache: UrlCache, articles: seq<Article>, stored: set<string>)
    returns (first: Option<seq<Article>>, second: Option<seq<Article>>)
    modifies cache
    ensures first.Some? && second == Some([])
  {
    ghost var cached := cache.urls;
    first := cache.CheckDuplicacy(articles, Some(stored));
    second := cache.CheckDuplicacy(articles, Some(stored));
    SecondCheckIsEmpty(articles, cached, stored);
  }
}
