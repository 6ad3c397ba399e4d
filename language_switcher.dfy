/** The language switcher's link for each locale from the current path. */
module LanguageSwitcher {
  import opened Common
  import Middleware

  /** `basePath`: the current path with a raw leading `/en` removed, or `/`
      when nothing remains. */
  function BasePath(pathname: string): (r: string)
    ensures StartsWith(pathname, "/en") ==> r == (if |pathname| == 3 then "/" else pathname[3..])
    ensures !StartsWith(pathname, "/en") ==> r == pathname
  {
    if StartsWith(pathname, "/en") then (if pathname[3..] == "" then "/" else pathname[3..]) else pathname
  }

  /** `getLocalizedPath(locale)`; a missing or empty path is None or "". */
  function LocalizedPath(pathname: Option<string>, locale: Locale): (r: string)
    ensures pathname.None? || pathname == Some("") ==> r == (if locale == Sv then "/" else "/en")
    ensures locale == En ==> StartsWith(r, "/en")
  {
    if pathname.None? || pathname.value == "" then (if locale == Sv then "/" else "/en")
    else
      var base := BasePath(pathname.value);
      if locale == Sv then base
      else if base == "/" then "/en"
      else
        PrefixStartsWith("/en", base);
        "/en" + base
  }

  /** Switching to Swedish strips one raw `/en` prefix, and leaves any
      other path unchanged. */
  lemma SwitchToSwedish(p: string)
    requires p != ""
    ensures StartsWith(p, "/en") ==> LocalizedPath(Some(p), Sv) == (if |p| == 3 then "/" else p[3..])
    ensures !StartsWith(p, "/en") ==> LocalizedPath(Some(p), Sv) == p
  {
  }

  /** Switching to English on a path that already starts with `/en` (other
      than `/en/`) gives it back unchanged. */
  lemma EnglishIdempotent(p: string)
    requires StartsWith(p, "/en") && p != "/en/"
    ensures LocalizedPath(Some(p), En) == p
  {
    assert p == p[..3] + p[3..];
  }

  /** The prefix test is on raw characters: `/english` loses its first
      three characters. */
  lemma RawPrefix()
    ensures LocalizedPath(Some("/english"), Sv) == "glish"
    ensures LocalizedPath(Some("/english"), En) == "/english"
  {
    assert "/english"[..3] == "/en";
  }

  /** From a Swedish page, the English link and back leads to the same
      page. */
  lemma RoundTrip(p: string)
    requires p != "" && !StartsWith(p, "/en")
    ensures LocalizedPath(Some(LocalizedPath(Some(p), En)), Sv) == p
  {
    var e := LocalizedPath(Some(p), En);
    if p != "/" {
      assert e == "/en" + p;
      assert e[3..] == p;
    }
  }

  /** From a Swedish page under `/`, the English link is not redirected. */
  lemma EnglishLinkPasses(p: string)
    requires StartsWith(p, "/") && !StartsWith(p, "/en")
    ensures Middleware.Handle(LocalizedPath(Some(p), En)) == Middleware.PassThrough
  {
    var e := LocalizedPath(Some(p), En);
    if p != "/" {
      assert e == "/en" + p;
      assert e[..4] == "/en/";
    }
  }
}
