/** The site header: its links, which only the English locale prefixes,
    and the mobile menu's open/closed state. */
module Header {
  import opened Common
  import Middleware
  import Translations

  /** `getLocalizedHref`: `/en` before the path in English, the path
      itself in any other locale. */
  function LocalizedHref(locale: Locale, path: string): (r: string)
    ensures locale == En ==> StartsWith(r, "/en")
    ensures locale == En && path == "/" ==> r == "/en"
    ensures locale == En && path != "/" ==> r == "/en" + path
    ensures locale != En ==> r == path
  {
    if locale == En then
      PrefixStartsWith("/en", path);
      if path == "/" then "/en" else "/en" + path
    else path
  }

  /** English links to paths under `/` pass the middleware; every other
      link that carries no locale is redirected to its Swedish form. */
  lemma HrefRouting(locale: Locale, path: string)
    ensures locale == En && StartsWith(path, "/") ==>
      Middleware.Handle(LocalizedHref(locale, path)) == Middleware.PassThrough
    ensures locale == Sv && Middleware.MissingLocale(path) ==>
      Middleware.Handle(LocalizedHref(locale, path)) == Middleware.Redirect("/sv" + path)
  {
    if locale == En && StartsWith(path, "/") && path != "/" {
      var r := LocalizedHref(locale, path);
      assert r == "/en" + path;
      assert r[..4] == "/en/";
    }
  }

  datatype NavItem = NavItem(name: string, href: string)

  const NAV_PATHS: seq<string> := ["/", "/blog", "/dashboards/makro"]

  function Navigation(locale: Locale): (r: seq<NavItem>)
    ensures |r| == |NAV_PATHS|
    ensures forall i :: 0 <= i < |r| ==> r[i].href == LocalizedHref(locale, NAV_PATHS[i])
  {
    [ NavItem(Translations.GetTranslation(Translations.Nav(Translations.NavHome), locale), LocalizedHref(locale, "/")),
      NavItem(Translations.GetTranslation(Translations.Nav(Translations.NavBlog), locale), LocalizedHref(locale, "/blog")),
      NavItem(Translations.GetTranslation(Translations.Nav(Translations.NavMacro), locale), LocalizedHref(locale, "/dashboards/makro")) ]
  }

  /** The navigation is home, blog and macro, named from the locale's
      table; in Swedish each link is redirected, in English none is. */
  lemma NavigationLinks(locale: Locale)
    ensures locale == Sv ==> [Navigation(locale)[0].name, Navigation(locale)[1].name, Navigation(locale)[2].name] == ["Hem", "Blogg", "Makroekonomi"]
    ensures locale == En ==> [Navigation(locale)[0].name, Navigation(locale)[1].name, Navigation(locale)[2].name] == ["Home", "Blog", "Macroeconomics"]
    ensures forall i :: 0 <= i < 3 ==>
      Middleware.Handle(Navigation(locale)[i].href) ==
        if locale == Sv then Middleware.Redirect("/sv" + NAV_PATHS[i]) else Middleware.PassThrough
  {
    NavigationRouting(locale);
  }

  lemma NavigationRouting(locale: Locale)
    ensures forall i :: 0 <= i < |NAV_PATHS| ==>
      Middleware.Handle(LocalizedHref(locale, NAV_PATHS[i])) ==
        if locale == Sv then Middleware.Redirect("/sv" + NAV_PATHS[i]) else Middleware.PassThrough
  {
    LinkRouting(locale, "/");
    LinkRouting(locale, "/blog");
    LinkRouting(locale, "/dashboards/makro");
  }

  /** A link to a path with no locale segment passes in English and is
      redirected in Swedish. */
  lemma LinkRouting(locale: Locale, p: string)
    requires p == "/" || (|p| >= 2 && p[0] == '/' && p[1] != 's' && p[1] != 'e')
    ensures Middleware.Handle(LocalizedHref(locale, p)) ==
      if locale == Sv then Middleware.Redirect("/sv" + p) else Middleware.PassThrough
  {
    assert StartsWith(p, "/") by { assert p[..1] == "/"; }
    Middleware.NoLocaleLetter(p);
    HrefRouting(locale, p);
  }

  /** The mobile menu of one rendered header. */
  class Menu {
    var isMenuOpen: bool

    constructor()
      ensures !isMenuOpen
    {
      isMenuOpen := false;
    }

    /** The menu button. */
    method Toggle()
      modifies this
      ensures isMenuOpen == !old(isMenuOpen)
    {
      isMenuOpen := !isMenuOpen;
    }

    /** Clicking a link of the mobile navigation closes the menu. */
    method FollowMobileLink()
      modifies this
      ensures !isMenuOpen
    {
      isMenuOpen := false;
    }

    /** The links the mobile navigation shows: all of them while open,
        none while closed. */
    function MobileLinks(locale: Locale): (r: seq<NavItem>)
      reads this
      ensures isMenuOpen ==> r == Navigation(locale)
      ensures !isMenuOpen ==> r == []
    {
      if isMenuOpen then Navigation(locale) else []
    }
  }
}
