/** The request middleware: a path that carries no locale is redirected to
    the Swedish one. */
module Middleware {
  import opened Common

  datatype Response = PassThrough | Redirect(target: string)

  /** `pathname` neither is `/<code>` nor starts with `/<code>/`. */
  predicate LacksLocale(pathname: string, code: string) {
    !StartsWith(pathname, "/" + code + "/") && pathname != "/" + code
  }

  /** `['sv', 'en'].every(...)`: the path carries neither locale. */
  predicate MissingLocale(pathname: string) {
    LacksLocale(pathname, "sv") && LacksLocale(pathname, "en")
  }

  function Handle(pathname: string): (r: Response)
    ensures r.Redirect? <==> MissingLocale(pathname)
    ensures r.Redirect? ==> r.target == "/sv" + pathname
  {
    if MissingLocale(pathname) then Redirect("/sv" + pathname) else PassThrough
  }

  /** The root, and every path whose second character cannot begin a
      locale code, carry no locale. */
  lemma NoLocaleLetter(pathname: string)
    requires pathname == "/" || (|pathname| >= 2 && pathname[1] != 's' && pathname[1] != 'e')
    ensures MissingLocale(pathname)
  {
    if |pathname| >= 4 {
      assert pathname[..4][1] == pathname[1];
    }
  }

  /** The paths that pass through are exactly `/sv`, `/en` and the paths
      under `/sv/` or `/en/`. */
  lemma PassesExactly(pathname: string)
    ensures Handle(pathname) == PassThrough <==>
      (exists l: Locale :: pathname == "/" + LocaleCode(l))
      || (exists l: Locale, rest: string :: pathname == "/" + LocaleCode(l) + "/" + rest)
  {
    if Handle(pathname) == PassThrough {
      if StartsWith(pathname, "/sv/") {
        assert pathname == "/" + LocaleCode(Sv) + "/" + pathname[4..];
      } else if StartsWith(pathname, "/en/") {
        assert pathname == "/" + LocaleCode(En) + "/" + pathname[4..];
      } else if pathname == "/sv" {
        assert pathname == "/" + LocaleCode(Sv);
      } else {
        assert pathname == "/" + LocaleCode(En);
      }
    }
    if l: Locale :| pathname == "/" + LocaleCode(l) {
      assert l == Sv ==> !LacksLocale(pathname, "sv");
      assert l == En ==> !LacksLocale(pathname, "en");
    }
    if l: Locale, rest: string :| pathname == "/" + LocaleCode(l) + "/" + rest {
      PrefixStartsWith("/" + LocaleCode(l) + "/", rest);
      assert l == Sv ==> !LacksLocale(pathname, "sv");
      assert l == En ==> !LacksLocale(pathname, "en");
    }
  }

  /** A redirect target is never redirected again: for a path that starts
      with `/`, the target starts with `/sv/`. */
  lemma RedirectOnce(pathname: string)
    requires StartsWith(pathname, "/")
    ensures Handle(pathname).Redirect? ==> StartsWith(Handle(pathname).target, "/sv/")
    ensures Handle(pathname).Redirect? ==> Handle(Handle(pathname).target) == PassThrough
  {
    if Handle(pathname).Redirect? {
      var t := "/sv" + pathname;
      assert t[..4] == "/sv/";
    }
  }

  /** The locale must be followed by `/` or end the path: `/svenska` and
      `/english` are redirected. */
  lemma WholeSegmentOnly()
    ensures Handle("/svenska") == Redirect("/sv/svenska")
    ensures Handle("/english") == Redirect("/sv/english")
  {
    assert "/svenska"[..4][3] != "/sv/"[3] && "/svenska"[..4][1] != "/en/"[1];
    assert "/english"[..4][3] != "/en/"[3] && "/english"[..4][1] != "/sv/"[1];
  }
}
