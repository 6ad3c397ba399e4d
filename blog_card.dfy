/** A blog post's card: the reading-time estimate and its link. */
module BlogCard {
  import opened Common
  import Middleware

  /** `s.split(sep)` for a one-character separator. */
  function Split(s: string, sep: char): (r: seq<string>)
    ensures |r| >= 1
  {
    if s == [] then [""]
    else
      var rest := Split(s[1..], sep);
      if s[0] == sep then [""] + rest
      else [[s[0]] + rest[0]] + rest[1..]
  }

  /** Splitting yields one piece more than there are separators. */
  lemma {:induction false} SplitLength(s: string, sep: char)
    ensures |Split(s, sep)| == Count(s, sep) + 1
  {
    if s != [] {
      SplitLength(s[1..], sep);
    }
  }

  /** Joining the pieces with the separator gives the text back. */
  lemma {:induction false} SplitJoin(s: string, sep: char)
    ensures Join(Split(s, sep), [sep]) == s
  {
    if s != [] {
      var rest := Split(s[1..], sep);
      SplitJoin(s[1..], sep);
      if s[0] == sep {
        assert Split(s, sep)[1..] == rest;
        assert s == [s[0]] + s[1..];
      } else {
        JoinHead(s[0], rest, [sep]);
        assert s == [s[0]] + s[1..];
      }
    }
  }

  lemma JoinHead(c: char, items: seq<string>, sep: string)
    requires items != []
    ensures Join([[c] + items[0]] + items[1..], sep) == [c] + Join(items, sep)
  {
    var xs := [[c] + items[0]] + items[1..];
    assert xs[1..] == items[1..];
  }

  /** `content.split(' ').length`. */
  function WordCount(content: string): (n: nat)
    ensures n == Count(content, ' ') + 1
  {
    SplitLength(content, ' ');
    |Split(content, ' ')|
  }

  /** `Math.ceil(words / 200)`. */
  function ReadingTime(words: nat): (m: nat)
    ensures words > 0 ==> 200 * (m - 1) < words <= 200 * m
    ensures words == 0 ==> m == 0
  {
    (words + 199) / 200
  }

  /** At least one minute for any text, one minute up to 200 words, and
      never fewer minutes for more words. */
  lemma ReadingTimeBounds(content: string, more: nat)
    ensures ReadingTime(WordCount(content)) >= 1
    ensures WordCount(content) <= 200 ==> ReadingTime(WordCount(content)) == 1
    ensures ReadingTime(WordCount(content)) <= ReadingTime(WordCount(content) + more)
  {
  }

  function ReadingTimeText(content: string, locale: Locale): (r: string)
    ensures locale == Sv ==> EndsWith(r, " min läsning")
    ensures locale != Sv ==> EndsWith(r, " min read")
    ensures StartsWith(r, NatToString(ReadingTime(WordCount(content))))
    ensures r == NatToString(ReadingTime(WordCount(content))) + (if locale == Sv then " min läsning" else " min read")
  {
    var minutes := NatToString(ReadingTime(WordCount(content)));
    var suffix := if locale == Sv then " min läsning" else " min read";
    PrefixStartsWith(minutes, suffix);
    assert (minutes + suffix)[|minutes + suffix| - |suffix|..] == suffix;
    minutes + suffix
  }

  /** The post's link: under `/en/blog/` in English, `/blog/` otherwise. */
  function Href(slug: string, locale: Locale): (r: string)
    ensures locale == En ==> StartsWith(r, "/en/blog/") && r[9..] == slug
    ensures locale != En ==> StartsWith(r, "/blog/") && r[6..] == slug
  {
    if locale == En then
      PrefixStartsWith("/en/blog/", slug);
      "/en/blog/" + slug
    else
      PrefixStartsWith("/blog/", slug);
      "/blog/" + slug
  }

  /** An English card link passes the middleware; a Swedish one is
      redirected to `/sv/blog/<slug>`. */
  lemma HrefRouting(slug: string, locale: Locale)
    ensures locale == En ==> Middleware.Handle(Href(slug, locale)) == Middleware.PassThrough
    ensures locale == Sv ==> Middleware.Handle(Href(slug, locale)) == Middleware.Redirect("/sv/blog/" + slug)
  {
    var r := Href(slug, locale);
    if locale == En {
      assert r[..4] == "/en/";
    } else {
      assert r[..4][1] == 'b';
      assert "/sv" + r == "/sv/blog/" + slug;
    }
  }
}
