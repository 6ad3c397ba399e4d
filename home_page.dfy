/** The home page: its locale-prefixed links and the loading of the latest
    posts and key metrics. */
module HomePage {
  import opened Common
  import Middleware
  import Content
  import DataFetcher

  /** `getLocalizedHref`: both locales are prefixed, `/` becoming the bare
      locale path. */
  function LocalizedHref(locale: Locale, path: string): (r: string)
    ensures StartsWith(r, "/" + LocaleCode(locale))
    ensures path == "/" ==> r == "/" + LocaleCode(locale)
    ensures path != "/" ==> r == "/" + LocaleCode(locale) + path
  {
    var prefix := "/" + LocaleCode(locale);
    PrefixStartsWith(prefix, path);
    if path == "/" then prefix else prefix + path
  }

  /** The links the page renders: the two hero buttons, the "all posts"
      link, one link per shown post, and the closing call to action. */
  function Links(locale: Locale, posts: seq<Content.BlogPost>): (r: seq<string>)
    ensures |r| == |posts| + 4
  {
    [LocalizedHref(locale, "/blog"), LocalizedHref(locale, "/dashboards/makro"), LocalizedHref(locale, "/blog")]
    + PostLinks(locale, posts)
    + [LocalizedHref(locale, "/dashboards/makro")]
  }

  function PostLinks(locale: Locale, posts: seq<Content.BlogPost>): (r: seq<string>)
    ensures |r| == |posts|
    ensures forall i :: 0 <= i < |posts| ==> r[i] == LocalizedHref(locale, "/blog/" + posts[i].slug)
  {
    if posts == [] then [] else [LocalizedHref(locale, "/blog/" + posts[0].slug)] + PostLinks(locale, posts[1..])
  }

  /** Every link to a path under `/` passes the middleware unchanged. */
  lemma HrefPasses(locale: Locale, path: string)
    requires StartsWith(path, "/")
    ensures Middleware.Handle(LocalizedHref(locale, path)) == Middleware.PassThrough
  {
    var r := LocalizedHref(locale, path);
    if path != "/" {
      assert r == "/" + LocaleCode(locale) + path;
      assert r[..4] == "/" + LocaleCode(locale) + "/";
    }
    if locale == Sv {
      assert !Middleware.LacksLocale(r, "sv");
    } else {
      assert !Middleware.LacksLocale(r, "en");
    }
  }

  /** Distinct paths under `/` get distinct links, in each locale. */
  lemma HrefInjective(locale: Locale, p: string, q: string)
    requires StartsWith(p, "/") && StartsWith(q, "/")
    requires LocalizedHref(locale, p) == LocalizedHref(locale, q)
    ensures p == q
  {
    var r := LocalizedHref(locale, p);
    if p != "/" && q != "/" {
      assert r[3..] == p && r[3..] == q;
    }
  }

  lemma RootedPath(s: string)
    requires s != [] && s[0] == '/'
    ensures StartsWith(s, "/")
  {
    assert s[..1] == [s[0]];
  }

  /** No link of the home page is ever redirected. */
  lemma LinksPass(locale: Locale, posts: seq<Content.BlogPost>)
    ensures forall i :: 0 <= i < |Links(locale, posts)| ==>
      Middleware.Handle(Links(locale, posts)[i]) == Middleware.PassThrough
  {
    var blog := LocalizedHref(locale, "/blog");
    var makro := LocalizedHref(locale, "/dashboards/makro");
    var middle := PostLinks(locale, posts);
    var r := Links(locale, posts);
    assert r == [blog, makro, blog] + middle + [makro];
    RootedPath("/blog");
    RootedPath("/dashboards/makro");
    HrefPasses(locale, "/blog");
    HrefPasses(locale, "/dashboards/makro");
    forall i | 0 <= i < |r| ensures Middleware.Handle(r[i]) == Middleware.PassThrough {
      if i < 3 {
        assert r[i] == [blog, makro, blog][i];
      } else if i < 3 + |posts| {
        var path := "/blog/" + posts[i - 3].slug;
        RootedPath(path);
        HrefPasses(locale, path);
        assert r[i] == middle[i - 3];
      } else {
        assert r[i] == makro;
      }
    }
  }

  datatype HomeData = HomeData(blogPosts: seq<Content.BlogPost>, keyMetrics: seq<DataFetcher.Metric>, loading: bool)

  /** The page's data: `posts` and `metrics` are what the two loads return, None when one throws. */
  function LoadHome(posts: Option<seq<Content.BlogPost>>, metrics: Option<seq<DataFetcher.Metric>>): (r: HomeData)
    ensures |r.blogPosts| <= 3
    ensures posts.None? || metrics.None? ==> r.loading && r.blogPosts == [] && r.keyMetrics == []
    ensures posts.Some? && metrics.Some? ==>
      !r.loading && r.keyMetrics == metrics.value
      && |r.blogPosts| == (if |posts.value| < 3 then |posts.value| else 3)
      && r.blogPosts == posts.value[..|r.blogPosts|]
  {
    if posts.None? || metrics.None? then HomeData([], [], true)
    else HomeData(FirstN(posts.value, 3), metrics.value, false)
  }
}
