/** The site footer's quick links. Its `getLocalizedHref` is the same
    English-only prefixing as the header's, `Header.LocalizedHref`. */
module Footer {
  import opened Common
  import Middleware
  import Translations
  import Header

  /** The label of the last quick link, which is not in the tables. */
  function SwishLabel(locale: Locale): string {
    if locale == Sv then "Svenska Betalningar" else "Swedish Payments"
  }

  const QUICK_PATHS: seq<string> := ["/", "/blog", "/dashboards/makro", "/dashboards/swish"]

  function Heading(locale: Locale): string {
    Translations.GetTranslation(Translations.Nav(Translations.NavNavigation), locale)
  }

  function QuickLinks(locale: Locale): (r: seq<Header.NavItem>)
    ensures |r| == |QUICK_PATHS|
    ensures forall i :: 0 <= i < |r| ==> r[i].href == Header.LocalizedHref(locale, QUICK_PATHS[i])
  {
    [ Header.NavItem(Translations.GetTranslation(Translations.Nav(Translations.NavHome), locale), Header.LocalizedHref(locale, "/")),
      Header.NavItem(Translations.GetTranslation(Translations.Nav(Translations.NavBlog), locale), Header.LocalizedHref(locale, "/blog")),
      Header.NavItem(Translations.GetTranslation(Translations.Nav(Translations.NavMacro), locale), Header.LocalizedHref(locale, "/dashboards/makro")),
      Header.NavItem(SwishLabel(locale), Header.LocalizedHref(locale, "/dashboards/swish")) ]
  }

  /** The quick links are the header's navigation followed by the swish
      dashboard: the first three carry the same labels and links. */
  lemma QuickLinksExtendNavigation(locale: Locale)
    ensures QuickLinks(locale)[..3] == Header.Navigation(locale)
    ensures QuickLinks(locale)[3].name == (if locale == Sv then "Svenska Betalningar" else "Swedish Payments")
  {
  }

  /** English quick links get `/en` (the home link becoming `/en`); in any
      other locale the paths are left bare, so the middleware redirects them. */
  lemma QuickLinkHrefs(locale: Locale)
    ensures locale == En ==> QuickLinks(locale)[0].href == "/en"
    ensures locale == En ==> forall i :: 1 <= i < 4 ==> QuickLinks(locale)[i].href == "/en" + QUICK_PATHS[i]
    ensures locale == Sv ==> forall i :: 0 <= i < 4 ==>
      Middleware.Handle(QuickLinks(locale)[i].href) == Middleware.Redirect("/sv" + QUICK_PATHS[i])
  {
    if locale == Sv {
      forall i | 0 <= i < 4
        ensures Middleware.Handle(QuickLinks(locale)[i].href) == Middleware.Redirect("/sv" + QUICK_PATHS[i])
      {
        var p := QUICK_PATHS[i];
        assert p == "/" || p[1] == 'b' || p[1] == 'd';
        Middleware.NoLocaleLetter(p);
        Header.HrefRouting(locale, p);
      }
    }
  }
}
