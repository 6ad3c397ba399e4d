/** The blog loader: which files of the blog directory become posts, the
    defaults a post's missing fields take, the newest-first ordering, the
    lookup of one post by slug, and the check that a localized file exists. */
module Content {
  import opened Common

  // ---------------------------------------------------------------------
  // Files and posts

  datatype Ext = Md | Html

  function ExtText(e: Ext): string {
    if e == Md then "md" else "html"
  }

  /** What the front-matter parser yields for a Markdown file: each field of
      the front matter (None when absent) and the body that follows it. */
  datatype FrontMatter = FrontMatter(
    title: Option<string>,
    excerpt: Option<string>,
    date: Option<string>,
    author: Option<string>,
    tags: Option<seq<string>>,
    body: string)

  /** A file of the blog directory: its name, its text, and what the
      front-matter parser makes of that text. */
  datatype File = File(name: string, text: string, front: FrontMatter)

  datatype BlogPost = BlogPost(
    slug: string,
    title: string,
    excerpt: string,
    content: string,
    date: string,
    author: string,
    tags: seq<string>,
    locale: Locale)

  /** The three groups of the file-name pattern `^(.+)\.(sv|en)\.(md|html)$`. */
  datatype NameMatch = NameMatch(slug: string, locale: Locale, ext: Ext)

  /** The characters a regular expression's `.` does not match. */
  predicate IsLineTerminator(c: char) {
    c == '\n' || c == '\r' || c == '\U{2028}' || c == '\U{2029}'
  }

  predicate NoTerminator(s: string) {
    forall k :: 0 <= k < |s| ==> !IsLineTerminator(s[k])
  }

  /** `<slug>.<locale>.<ext>`. */
  function FileName(slug: string, locale: Locale, ext: Ext): string {
    slug + "." + LocaleCode(locale) + "." + ExtText(ext)
  }

  /** The text `.md` or `.html` a file name ends with. */
  function ExtSuffix(e: Ext): (r: string)
    ensures r == "." + ExtText(e)
  {
    if e == Md then ".md" else ".html"
  }

  lemma SplitSuffix(name: string, suffix: string)
    requires EndsWith(name, suffix)
    ensures name == name[..|name| - |suffix|] + suffix
  {
  }

  function SplitExt(name: string): (r: Option<(string, Ext)>)
    ensures r.Some? ==> name == r.value.0 + "." + ExtText(r.value.1)
  {
    if EndsWith(name, ExtSuffix(Md)) then
      SplitSuffix(name, ExtSuffix(Md));
      Some((name[..|name| - 3], Md))
    else if EndsWith(name, ExtSuffix(Html)) then
      SplitSuffix(name, ExtSuffix(Html));
      Some((name[..|name| - 5], Html))
    else None
  }

  /** Matching a file name against `^(.+)\.(sv|en)\.(md|html)$`. The
      extension and the locale are fixed-width suffixes, so the greedy slug
      group takes everything before them; it must be non-empty and, as `.`
      requires, free of line terminators. */
  function ParseName(name: string): (r: Option<NameMatch>)
    ensures r.Some? ==> name == FileName(r.value.slug, r.value.locale, r.value.ext)
    ensures r.Some? ==> r.value.slug != [] && NoTerminator(r.value.slug)
  {
    match SplitExt(name)
    case None => None
    case Some((stem, ext)) =>
      if |stem| < 4 then None
      else
        var slug := stem[..|stem| - 3];
        var tag := stem[|stem| - 3..];
        assert stem == slug + tag;
        if tag != LocaleTag(Sv) && tag != LocaleTag(En) then None
        else if !NoTerminator(slug) then None
        else Some(NameMatch(slug, if tag == LocaleTag(Sv) then Sv else En, ext))
  }

  /** The text `.sv` or `.en` before the extension. */
  function LocaleTag(l: Locale): (r: string)
    ensures r == "." + LocaleCode(l) && |r| == 3
  {
    if l == Sv then ".sv" else ".en"
  }

  lemma SuffixSplit(a: string, b: string)
    ensures EndsWith(a + b, b) && (a + b)[..|a|] == a && (a + b)[|a|..] == b
  {
  }

  lemma SuffixOfConcat(a: string, b: string, c: string)
    requires |c| <= |b|
    ensures EndsWith(a + b, c) <==> EndsWith(b, c)
  {
    assert (a + b)[|a + b| - |c|..] == b[|b| - |c|..];
  }

  /** Every name of the form `<slug>.<locale>.<ext>` with a non-empty slug
      free of line terminators matches, with exactly those groups. Together
      with `ParseName`'s contract: a name matches if and only if it has
      that form. */
  lemma ParseFileName(slug: string, locale: Locale, ext: Ext)
    requires slug != [] && NoTerminator(slug)
    ensures ParseName(FileName(slug, locale, ext)) == Some(NameMatch(slug, locale, ext))
  {
    var stem := slug + LocaleTag(locale);
    FileNameParts(slug, locale, ext);
    SplitFileName(stem, ext);
    StemParts(slug, LocaleTag(locale));
    ParseSplitName(FileName(slug, locale, ext), stem, ext, locale);
  }

  lemma FileNameParts(slug: string, locale: Locale, ext: Ext)
    ensures FileName(slug, locale, ext) == (slug + LocaleTag(locale)) + ExtSuffix(ext)
  {
  }

  lemma StemParts(slug: string, tag: string)
    requires |tag| == 3
    ensures |slug + tag| >= 3
    ensures (slug + tag)[..|slug + tag| - 3] == slug && (slug + tag)[|slug + tag| - 3..] == tag
  {
  }

  /** The locale tag and the slug group of a name whose extension split off. */
  lemma ParseSplitName(name: string, stem: string, ext: Ext, locale: Locale)
    requires SplitExt(name) == Some((stem, ext)) && |stem| >= 4
    requires stem[|stem| - 3..] == LocaleTag(locale) && NoTerminator(stem[..|stem| - 3])
    ensures ParseName(name) == Some(NameMatch(stem[..|stem| - 3], locale, ext))
  {
    if locale == En {
      assert LocaleTag(En)[1] != LocaleTag(Sv)[1];
    }
  }

  /** The extension of `<stem>.<ext>` splits off exactly. */
  lemma SplitFileName(stem: string, ext: Ext)
    ensures SplitExt(stem + ExtSuffix(ext)) == Some((stem, ext))
  {
    var suffix := ExtSuffix(ext);
    SuffixSplit(stem, suffix);
    if ext == Html {
      SuffixOfConcat(stem, suffix, ExtSuffix(Md));
      assert suffix[2] != ExtSuffix(Md)[0];
    }
  }

  /** The slug group is greedy: in `a.sv.en.md` it is `a.sv`. */
  lemma GreedySlug()
    ensures ParseName("a.sv.en.md") == Some(NameMatch("a.sv", En, Md))
  {
    ParseFileName("a.sv", En, Md);
    assert FileName("a.sv", En, Md) == "a.sv.en.md";
  }

  // ---------------------------------------------------------------------
  // The `<title>` of an HTML file: `/<title>(.*?)<\/title>/i`

  function LowerAscii(c: char): char {
    if 'A' <= c <= 'Z' then (c as int + 32) as char else c
  }

  /** `s` has the lower-case ASCII text `p` at position `i`, ignoring the
      case of ASCII letters (the pattern's `i` flag). */
  predicate FoldAt(s: string, i: nat, p: string)
    ensures FoldAt(s, i, p) ==> i + |p| <= |s|
    decreases |p|
  {
    if p == [] then i <= |s|
    else i < |s| && LowerAscii(s[i]) == p[0] && FoldAt(s, i + 1, p[1..])
  }

  /** The lazy `(.*?)` followed by the closing tag, from position `j`: the
      first position where the closing tag starts, provided no line
      terminator comes before it. */
  function CloseFrom(s: string, j: nat): (r: Option<nat>)
    ensures r.Some? ==> j <= r.value && FoldAt(s, r.value, "</title>")
    decreases |s| - j
  {
    if FoldAt(s, j, "</title>") then Some(j)
    else if j >= |s| || IsLineTerminator(s[j]) then None
    else CloseFrom(s, j + 1)
  }

  /** The captured title of the leftmost match starting at `i` or later. */
  function TitleFrom(s: string, i: nat): Option<string>
    decreases |s| - i
  {
    if i + 7 > |s| then None
    else if FoldAt(s, i, "<title>") && CloseFrom(s, i + 7).Some? then
      Some(s[i + 7..CloseFrom(s, i + 7).value])
    else TitleFrom(s, i + 1)
  }

  function TitleOf(s: string): Option<string> {
    TitleFrom(s, 0)
  }

  lemma {:induction false} CloseFromClean(s: string, j: nat)
    requires CloseFrom(s, j).Some?
    ensures NoTerminator(s[j..CloseFrom(s, j).value])
    decreases |s| - j
  {
    if !FoldAt(s, j, "</title>") {
      CloseFromClean(s, j + 1);
      assert s[j..CloseFrom(s, j).value] == [s[j]] + s[j + 1..CloseFrom(s, j).value];
    }
  }

  /** Where the match TitleFrom(s, i) found starts. */
  function MatchStart(s: string, i: nat): nat
    requires TitleFrom(s, i).Some?
    decreases |s| - i
  {
    if FoldAt(s, i, "<title>") && CloseFrom(s, i + 7).Some? then i else MatchStart(s, i + 1)
  }

  /** `<title>` at `p`, then the text `t`, then the first `</title>` after it. */
  predicate TitleAt(s: string, p: nat, t: string) {
    FoldAt(s, p, "<title>") && p + 7 + |t| <= |s| && s[p + 7..p + 7 + |t|] == t
    && CloseFrom(s, p + 7) == Some(p + 7 + |t|)
  }

  /** A found title sits between an opening tag at or after `i` and the
      first closing tag after it, and holds no line terminator. */
  lemma {:induction false} TitleSound(s: string, i: nat)
    requires TitleFrom(s, i).Some?
    ensures NoTerminator(TitleFrom(s, i).value)
    ensures i <= MatchStart(s, i) && TitleAt(s, MatchStart(s, i), TitleFrom(s, i).value)
    decreases |s| - i
  {
    if FoldAt(s, i, "<title>") && CloseFrom(s, i + 7).Some? {
      var e := CloseFrom(s, i + 7).value;
      var t := s[i + 7..e];
      assert TitleFrom(s, i).value == t;
      assert MatchStart(s, i) == i;
      assert i + 7 + |t| == e;
      assert TitleAt(s, i, t);
      CloseFromClean(s, i + 7);
    } else {
      assert TitleFrom(s, i) == TitleFrom(s, i + 1);
      assert MatchStart(s, i) == MatchStart(s, i + 1);
      TitleSound(s, i + 1);
    }
  }

  lemma {:induction false} CloseAfterText(s: string, j: nat, e: nat)
    requires j <= e && FoldAt(s, e, "</title>")
    requires forall k :: j <= k < e ==> s[k] != '<' && !IsLineTerminator(s[k])
    ensures CloseFrom(s, j) == Some(e)
    decreases e - j
  {
    if j < e {
      assert !FoldAt(s, j, "</title>") by {
        assert "</title>"[0] == '<';
        assert LowerAscii(s[j]) != '<';
      }
      CloseAfterText(s, j + 1, e);
    }
  }

  /** A literal without upper-case letters is found where it occurs. */
  lemma {:induction false} FoldLiteral(pre: string, p: string, post: string)
    requires forall k :: 0 <= k < |p| ==> !('A' <= p[k] <= 'Z')
    ensures FoldAt(pre + (p + post), |pre|, p)
    decreases |p|
  {
    var s := pre + (p + post);
    if p != [] {
      assert s == (pre + [p[0]]) + (p[1..] + post);
      assert s[|pre|] == p[0];
      assert forall k :: 0 <= k < |p[1..]| ==> p[1..][k] == p[k + 1];
      FoldLiteral(pre + [p[0]], p[1..], post);
    }
  }

  /** A document that opens with `<title>`, then the text `t` free of `<`
      and line terminators, then `</title>`, has title `t`. */
  lemma TitleBetween(s: string, t: string)
    requires FoldAt(s, 0, "<title>") && 7 + |t| <= |s| && s[7..7 + |t|] == t
    requires FoldAt(s, 7 + |t|, "</title>")
    requires NoTerminator(t) && forall k :: 0 <= k < |t| ==> t[k] != '<'
    ensures TitleOf(s) == Some(t)
  {
    forall k | 7 <= k < 7 + |t| ensures s[k] != '<' && !IsLineTerminator(s[k]) {
      assert s[k] == t[k - 7];
    }
    CloseAfterText(s, 7, 7 + |t|);
  }

  /** A document that opens with `<title>t</title>` has title `t` when `t`
      holds no `<` and no line terminator. */
  lemma TitleOfLeading(t: string, rest: string)
    requires NoTerminator(t)
    requires forall k :: 0 <= k < |t| ==> t[k] != '<'
    ensures TitleOf("<title>" + (t + ("</title>" + rest))) == Some(t)
  {
    var s := "<title>" + (t + ("</title>" + rest));
    assert [] + s == s;
    FoldLiteral([], "<title>", t + ("</title>" + rest));
    var head := "<title>" + t;
    assert s == head + ("</title>" + rest);
    FoldLiteral(head, "</title>", rest);
    assert |head| == 7 + |t|;
    assert s[7..7 + |t|] == t;
    TitleBetween(s, t);
  }

  // ---------------------------------------------------------------------
  // Defaults

  /** JavaScript's `x || d` on an optional string: the value unless it is
      absent or empty. */
  function OrElse(x: Option<string>, d: string): string {
    if x.Some? && x.value != "" then x.value else d
  }

  const DEFAULT_AUTHOR := "PayPro Team"

  /** The post a matching file yields; `now` is the ISO time stamp used
      where a date is missing. */
  function PostOf(f: File, m: NameMatch, now: string): BlogPost {
    if m.ext == Html then
      BlogPost(m.slug, OrElse(TitleOf(f.text), m.slug), "", f.text, now, DEFAULT_AUTHOR, [], m.locale)
    else
      BlogPost(m.slug, OrElse(f.front.title, m.slug), OrElse(f.front.excerpt, ""), f.front.body,
        OrElse(f.front.date, now), OrElse(f.front.author, DEFAULT_AUTHOR),
        if f.front.tags.Some? then f.front.tags.value else [], m.locale)
  }

  /** The defaults a post's fields take. */
  lemma PostDefaults(f: File, m: NameMatch, now: string)
    ensures PostOf(f, m, now).slug == m.slug && PostOf(f, m, now).locale == m.locale
    ensures PostOf(f, m, now).title != "" || m.slug == ""
    ensures m.ext == Html ==>
      PostOf(f, m, now).title == (if TitleOf(f.text).Some? && TitleOf(f.text).value != "" then TitleOf(f.text).value else m.slug)
    ensures m.ext == Html ==>
      PostOf(f, m, now).excerpt == "" && PostOf(f, m, now).tags == [] && PostOf(f, m, now).author == "PayPro Team"
      && PostOf(f, m, now).date == now && PostOf(f, m, now).content == f.text
    ensures m.ext == Md && (f.front.title.None? || f.front.title == Some("")) ==> PostOf(f, m, now).title == m.slug
    ensures m.ext == Md && (f.front.author.None? || f.front.author == Some("")) ==> PostOf(f, m, now).author == "PayPro Team"
    ensures m.ext == Md && f.front.excerpt.None? ==> PostOf(f, m, now).excerpt == ""
    ensures m.ext == Md && f.front.tags.None? ==> PostOf(f, m, now).tags == []
    ensures m.ext == Md && f.front.date.None? ==> PostOf(f, m, now).date == now
    ensures m.ext == Md ==> PostOf(f, m, now).content == f.front.body
  {
  }

  // ---------------------------------------------------------------------
  // getBlogPosts

  /** File `f` yields post `p` for the requested locale. */
  predicate Produces(f: File, locale: Locale, now: string, p: BlogPost) {
    ParseName(f.name).Some? && ParseName(f.name).value.locale == locale
    && p == PostOf(f, ParseName(f.name).value, now)
  }

  /** The posts pushed by the loop over the directory listing, in listing order. */
  function Collected(files: seq<File>, locale: Locale, now: string): (r: seq<BlogPost>)
    ensures |r| <= |files|
  {
    if files == [] then []
    else
      var init := Collected(files[..|files| - 1], locale, now);
      var last := files[|files| - 1];
      match ParseName(last.name)
      case Some(m) => if m.locale == locale then init + [PostOf(last, m, now)] else init
      case None => init
  }

  lemma {:induction false} CollectedMembers(files: seq<File>, locale: Locale, now: string, p: BlogPost)
    ensures p in Collected(files, locale, now) <==> exists f :: f in files && Produces(f, locale, now, p)
  {
    if files != [] {
      var init := files[..|files| - 1];
      var last := files[|files| - 1];
      assert files == init + [last];
      CollectedMembers(init, locale, now, p);
      if p in Collected(files, locale, now) && p !in Collected(init, locale, now) {
        assert Produces(last, locale, now, p);
      }
    }
  }

  lemma CollectedStep(files: seq<File>, i: nat, locale: Locale, now: string)
    requires i < |files|
    ensures Collected(files[..i + 1], locale, now) ==
      if ParseName(files[i].name).Some? && ParseName(files[i].name).value.locale == locale
      then Collected(files[..i], locale, now) + [PostOf(files[i], ParseName(files[i].name).value, now)]
      else Collected(files[..i], locale, now)
  {
    assert files[..i + 1][..i] == files[..i];
    assert files[..i + 1][i] == files[i];
  }

  /** The sort key of the comparator `b.date - a.date`: newest first. */
  function NewestFirst(timeOf: string -> int): BlogPost -> int {
    (p: BlogPost) => -timeOf(p.date)
  }

  /** What `getBlogPosts` returns for a directory listing (None: the
      directory does not exist); `timeOf` is the date parser. */
  function BlogPosts(dir: Option<seq<File>>, locale: Locale, now: string, timeOf: string -> int): seq<BlogPost> {
    if dir.None? then [] else SortBy(Collected(dir.value, locale, now), NewestFirst(timeOf))
  }

  method GetBlogPosts(dir: Option<seq<File>>, locale: Locale, now: string, timeOf: string -> int)
    returns (posts: seq<BlogPost>)
    ensures posts == BlogPosts(dir, locale, now, timeOf)
  {
    if dir.None? {
      return [];
    }
    var fileNames := dir.value;
    posts := [];
    for i := 0 to |fileNames|
      invariant posts == Collected(fileNames[..i], locale, now)
    {
      CollectedStep(fileNames, i, locale, now);
      var fileName := fileNames[i];
      var m := ParseName(fileName.name);
      if m.Some? && m.value.locale == locale {
        posts := posts + [PostOf(fileName, m.value, now)];
      }
    }
    assert fileNames[..|fileNames|] == fileNames;
    posts := SortBy(posts, NewestFirst(timeOf));
  }

  /** A missing directory gives no posts, and there are never more posts
      than files. */
  lemma BlogPostsCount(dir: Option<seq<File>>, locale: Locale, now: string, timeOf: string -> int)
    ensures dir.None? ==> BlogPosts(dir, locale, now, timeOf) == []
    ensures dir.Some? ==> |BlogPosts(dir, locale, now, timeOf)| <= |dir.value|
  {
  }

  /** The posts are exactly those the matching files of the requested locale
      yield, and each carries that locale and the slug of its file name. */
  lemma BlogPostsMembers(files: seq<File>, locale: Locale, now: string, timeOf: string -> int, p: BlogPost)
    ensures p in BlogPosts(Some(files), locale, now, timeOf) <==> exists f :: f in files && Produces(f, locale, now, p)
    ensures p in BlogPosts(Some(files), locale, now, timeOf) ==>
      p.locale == locale && exists f, e :: f in files && f.name == FileName(p.slug, locale, e)
  {
    SortByMembers(Collected(files, locale, now), NewestFirst(timeOf), p);
    CollectedMembers(files, locale, now, p);
  }

  /** The posts are ordered newest first and are a permutation of those the
      loop collected. */
  lemma BlogPostsNewestFirst(files: seq<File>, locale: Locale, now: string, timeOf: string -> int)
    ensures forall i, j :: 0 <= i < j < |BlogPosts(Some(files), locale, now, timeOf)| ==>
      timeOf(BlogPosts(Some(files), locale, now, timeOf)[i].date) >= timeOf(BlogPosts(Some(files), locale, now, timeOf)[j].date)
    ensures multiset(BlogPosts(Some(files), locale, now, timeOf)) == multiset(Collected(files, locale, now))
  {
    var r := BlogPosts(Some(files), locale, now, timeOf);
    forall i, j | 0 <= i < j < |r| ensures timeOf(r[i].date) >= timeOf(r[j].date) {
      assert NewestFirst(timeOf)(r[i]) <= NewestFirst(timeOf)(r[j]);
    }
  }

  // ---------------------------------------------------------------------
  // getBlogPost

  /** No post before position `i` has the slug. */
  predicate FirstHas(posts: seq<BlogPost>, i: nat, slug: string)
    requires i <= |posts|
  {
    forall k :: 0 <= k < i ==> posts[k].slug != slug
  }

  /** `posts.find(post => post.slug === slug) || null`: nothing when no post
      has the slug, otherwise a post that has it (the first, by FindFirst). */
  function Find(posts: seq<BlogPost>, slug: string): (r: Option<BlogPost>)
    ensures r.None? <==> forall p :: p in posts ==> p.slug != slug
    ensures r.Some? ==> r.value in posts && r.value.slug == slug
  {
    if posts == [] then None
    else if posts[0].slug == slug then Some(posts[0])
    else
      var r := Find(posts[1..], slug);
      assert posts == [posts[0]] + posts[1..];
      r
  }

  /** The post found is the first one carrying the slug. */
  lemma {:induction false} FindFirst(posts: seq<BlogPost>, slug: string, i: nat)
    requires i < |posts| && posts[i].slug == slug && FirstHas(posts, i, slug)
    ensures Find(posts, slug) == Some(posts[i])
  {
    if i > 0 {
      assert posts[0].slug != slug;
      assert posts[1..][i - 1] == posts[i];
      assert FirstHas(posts[1..], i - 1, slug) by {
        forall k | 0 <= k < i - 1 ensures posts[1..][k].slug != slug {
          assert posts[1..][k] == posts[k + 1];
        }
      }
      FindFirst(posts[1..], slug, i - 1);
    }
  }

  function GetBlogPost(dir: Option<seq<File>>, slug: string, locale: Locale, now: string, timeOf: string -> int): Option<BlogPost> {
    Find(BlogPosts(dir, locale, now, timeOf), slug)
  }

  /** A file of the requested locale whose name carries the slug. */
  predicate HasFileFor(files: seq<File>, slug: string, locale: Locale) {
    exists f :: f in files && ParseName(f.name).Some? && ParseName(f.name).value.slug == slug
      && ParseName(f.name).value.locale == locale
  }

  /** A post is found exactly when a file of the requested locale carries the
      slug in its name; the found post has that slug and locale. */
  lemma GetBlogPostFound(files: seq<File>, slug: string, locale: Locale, now: string, timeOf: string -> int)
    ensures GetBlogPost(Some(files), slug, locale, now, timeOf).Some? <==> HasFileFor(files, slug, locale)
    ensures GetBlogPost(Some(files), slug, locale, now, timeOf).Some? ==>
      GetBlogPost(Some(files), slug, locale, now, timeOf).value.slug == slug
      && GetBlogPost(Some(files), slug, locale, now, timeOf).value.locale == locale
    ensures GetBlogPost(None, slug, locale, now, timeOf).None?
  {
    var r := GetBlogPost(Some(files), slug, locale, now, timeOf);
    if r.Some? {
      FoundHasFile(files, slug, locale, now, timeOf);
    }
    if HasFileFor(files, slug, locale) {
      FileIsFound(files, slug, locale, now, timeOf);
    }
  }

  lemma FoundHasFile(files: seq<File>, slug: string, locale: Locale, now: string, timeOf: string -> int)
    requires GetBlogPost(Some(files), slug, locale, now, timeOf).Some?
    ensures HasFileFor(files, slug, locale)
    ensures GetBlogPost(Some(files), slug, locale, now, timeOf).value.locale == locale
  {
    var p := GetBlogPost(Some(files), slug, locale, now, timeOf).value;
    assert p.slug == slug;
    BlogPostsMembers(files, locale, now, timeOf, p);
    var f :| f in files && Produces(f, locale, now, p);
    assert ParseName(f.name).value.slug == p.slug;
  }

  lemma FileIsFound(files: seq<File>, slug: string, locale: Locale, now: string, timeOf: string -> int)
    requires HasFileFor(files, slug, locale)
    ensures GetBlogPost(Some(files), slug, locale, now, timeOf).Some?
  {
    var f :| f in files && ParseName(f.name).Some? && ParseName(f.name).value.slug == slug
      && ParseName(f.name).value.locale == locale;
    var p := PostOf(f, ParseName(f.name).value, now);
    assert Produces(f, locale, now, p);
    BlogPostsMembers(files, locale, now, timeOf, p);
    assert p.slug == slug;
  }

  // ---------------------------------------------------------------------
  // getPageContent

  datatype PageContent = PageContent(title: string, content: string, locale: Locale)

  /** `pages` maps the file names of the pages directory to their parsed
      front matter. */
  function GetPageContent(pages: map<string, FrontMatter>, page: string, locale: Locale): (r: Option<PageContent>)
    ensures r.Some? <==> page + "." + LocaleCode(locale) + ".md" in pages
    ensures r.Some? ==> r.value.locale == locale && r.value.content == pages[page + "." + LocaleCode(locale) + ".md"].body
    ensures r.Some? ==> r.value.title == OrElse(pages[page + "." + LocaleCode(locale) + ".md"].title, page)
  {
    var name := page + "." + LocaleCode(locale) + ".md";
    if name !in pages then None
    else Some(PageContent(OrElse(pages[name].title, page), pages[name].body, locale))
  }

  // ---------------------------------------------------------------------
  // contentExists

  datatype ContentKind = Blog | Page

  /** `blogFiles` and `pageFiles` are the names present in the blog and the
      pages directories. */
  method ContentExists(blogFiles: set<string>, pageFiles: set<string>, slug: string, locale: Locale, kind: ContentKind)
    returns (r: bool)
    ensures r <==> (FileName(slug, locale, Md) in (if kind == Blog then blogFiles else pageFiles)
      || FileName(slug, locale, Html) in (if kind == Blog then blogFiles else pageFiles))
  {
    var directory := if kind == Blog then blogFiles else pageFiles;
    var extensions := [Md, Html];
    for i := 0 to |extensions|
      invariant forall k :: 0 <= k < i ==> FileName(slug, locale, extensions[k]) !in directory
    {
      if FileName(slug, locale, extensions[i]) in directory {
        return true;
      }
    }
    assert extensions[0] == Md && extensions[1] == Html;
    return false;
  }

  /** For a slug the file-name pattern accepts, a localized file exists
      exactly when some name in the directory matches with that slug and
      locale, that is, when the blog loader would find a post for it. */
  lemma ContentExistsMatchesLoader(names: set<string>, slug: string, locale: Locale)
    requires slug != [] && NoTerminator(slug)
    ensures (FileName(slug, locale, Md) in names || FileName(slug, locale, Html) in names) <==>
      exists n :: n in names && ParseName(n).Some? && ParseName(n).value.slug == slug && ParseName(n).value.locale == locale
  {
    ParseFileName(slug, locale, Md);
    ParseFileName(slug, locale, Html);
    if n :| n in names && ParseName(n).Some? && ParseName(n).value.slug == slug && ParseName(n).value.locale == locale {
      assert n == FileName(slug, locale, ParseName(n).value.ext);
    }
  }
}
