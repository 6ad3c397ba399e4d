/** The text helpers of create_production_preview.py: the URL slug, the SEO
    keyword list, the removal of AI references, and where the preview file
    is written.

    Python's Unicode-aware `lower()`, `\w` and `\s` are modelled on the
    Latin-1 range (U+0000..U+00FF), which covers the Swedish and English
    titles the script is written for; characters beyond it are neither word
    nor space characters here and `lower()` leaves them alone. */
module ProductionPreview {
  import opened Common

  // ---------------------------------------------------------------------
  // Character classes

  /** `str.lower()` on one Latin-1 character. */
  function Lower(c: char): (r: char)
    ensures ('A' <= c <= 'Z') || IsUpperLatin1(c) ==> r == (c as int + 32) as char
    ensures !('A' <= c <= 'Z') && !IsUpperLatin1(c) ==> r == c
    ensures !('A' <= r <= 'Z') && !IsUpperLatin1(r)
  {
    if 'A' <= c <= 'Z' || IsUpperLatin1(c) then (c as int + 32) as char else c
  }

  /** The upper-case letters U+00C0..U+00DE except the multiplication sign. */
  predicate IsUpperLatin1(c: char) {
    '\U{00C0}' <= c <= '\U{00DE}' && c != '\U{00D7}'
  }

  /** Python's `\w`: letters, digits (including the superscripts and
      vulgar fractions, which count as numeric) and the underscore. */
  predicate IsWord(c: char) {
    ('a' <= c <= 'z') || ('A' <= c <= 'Z') || ('0' <= c <= '9') || c == '_'
    || c == '\U{00AA}' || c == '\U{00B2}' || c == '\U{00B3}' || c == '\U{00B5}'
    || c == '\U{00B9}' || c == '\U{00BA}' || ('\U{00BC}' <= c <= '\U{00BE}')
    || ('\U{00C0}' <= c <= '\U{00FF}' && c != '\U{00D7}' && c != '\U{00F7}')
  }

  /** Python's `\s`: ASCII whitespace, the information separators U+001C..
      U+001F, NEXT LINE and NO-BREAK SPACE. */
  predicate IsSpace(c: char) {
    ('\t' <= c <= '\r') || c == ' ' || ('\U{001C}' <= c <= '\U{001F}')
    || c == '\U{0085}' || c == '\U{00A0}'
  }

  /** Lower-casing twice is lower-casing once. */
  lemma LowerIdempotent(c: char)
    ensures Lower(Lower(c)) == Lower(c)
  {
  }

  lemma WordIsNotSpace(c: char)
    ensures !(IsWord(c) && IsSpace(c))
    ensures !IsWord('-') && !IsSpace('-') && !IsWord(',') && !IsWord('.')
  {
  }

  function LowerAll(s: string): (r: string)
    ensures |r| == |s|
    ensures forall i :: 0 <= i < |s| ==> r[i] == Lower(s[i])
  {
    seq(|s|, i requires 0 <= i < |s| => Lower(s[i]))
  }

  /** `s.replace(from, to)` for single characters. */
  function ReplaceChar(s: string, from: char, to: char): (r: string)
    ensures |r| == |s|
    ensures forall i :: 0 <= i < |s| ==> r[i] == if s[i] == from then to else s[i]
  {
    seq(|s|, i requires 0 <= i < |s| => if s[i] == from then to else s[i])
  }

  // ---------------------------------------------------------------------
  // create_slug

  predicate DashOrSpace(c: char) {
    c == '-' || IsSpace(c)
  }

  /** `re.sub(r'[^\w\s-]', '', s)`: keep word, space and '-' characters. */
  function KeepSlugChars(s: string): (r: string)
    ensures forall i :: 0 <= i < |r| ==> IsWord(r[i]) || DashOrSpace(r[i])
    ensures Subsequence(r, s)
    ensures forall c :: IsWord(c) || DashOrSpace(c) ==> multiset(r)[c] == multiset(s)[c]
  {
    if s == [] then []
    else
      var rest := KeepSlugChars(s[1..]);
      assert s == [s[0]] + s[1..];
      assert multiset(s) == multiset{s[0]} + multiset(s[1..]);
      if IsWord(s[0]) || DashOrSpace(s[0]) then
        assert ([s[0]] + rest)[1..] == rest;
        [s[0]] + rest
      else
        rest
  }

  /** The rest of `s` after its leading run of '-' and space characters. */
  function DropRun(s: string): (r: string)
    ensures |r| <= |s| && r == s[|s| - |r|..]
    ensures forall i :: 0 <= i < |s| - |r| ==> DashOrSpace(s[i])
    ensures r == [] || !DashOrSpace(r[0])
    ensures s != [] && DashOrSpace(s[0]) ==> |r| < |s|
    ensures s != [] && !DashOrSpace(s[0]) ==> r == s
  {
    if s != [] && DashOrSpace(s[0]) then DropRun(s[1..]) else s
  }

  predicate NoDoubleDash(s: string) {
    forall i :: 0 <= i < |s| - 1 ==> !(s[i] == '-' && s[i + 1] == '-')
  }

  /** `re.sub(r'[-\s]+', '-', s)`: every maximal run of '-' and space
      characters becomes a single '-'. */
  function Collapse(s: string): (r: string)
    ensures r == [] <==> s == []
    ensures s != [] && !DashOrSpace(s[0]) ==> r[0] == s[0]
    ensures s != [] && DashOrSpace(s[0]) ==> r[0] == '-'
    ensures (forall i :: 0 <= i < |s| ==> !DashOrSpace(s[i])) ==> r == s
    ensures s != [] && (forall i :: 0 <= i < |s| ==> DashOrSpace(s[i])) ==> r == "-"
    decreases |s|
  {
    if s == [] then []
    else if DashOrSpace(s[0]) then
      var t := DropRun(s);
      assert (forall i :: 0 <= i < |s| ==> DashOrSpace(s[i])) ==> t == [] by {
        if t != [] {
          assert t[0] == s[|s| - |t|];
        }
      }
      "-" + Collapse(t)
    else
      var t := s[1..];
      assert forall i :: 0 <= i < |t| ==> t[i] == s[i + 1];
      [s[0]] + Collapse(t)
  }

  /** Where `a` ends and `b` begins cannot be inside a run of '-' and
      space characters, DropRun treats `a + b` piece by piece. */
  lemma {:induction false} DropRunAppend(a: string, b: string)
    ensures DropRun(a) != [] ==> DropRun(a + b) == DropRun(a) + b
    ensures DropRun(a) == [] && (b == [] || !DashOrSpace(b[0])) ==> DropRun(a + b) == b
    decreases |a|
  {
    if a == [] {
      assert a + b == b;
    } else {
      AppendTail(a, b);
      if DashOrSpace(a[0]) {
        DropRunAppend(a[1..], b);
        DropRunStep(a);
        DropRunStep(a + b);
      }
    }
  }

  lemma DropRunStep(s: string)
    requires s != [] && DashOrSpace(s[0])
    ensures DropRun(s) == DropRun(s[1..])
  {
  }

  /** Collapsing works run by run: cutting the text anywhere but inside a
      run of '-' and space characters, each piece collapses on its own.
      Together with the two cases of Collapse's contract (text without such
      characters is kept, a whole run becomes "-"), this says that every
      maximal run becomes exactly one '-' and nothing else changes. */
  lemma {:induction false} CollapseSplit(a: string, b: string)
    requires a == [] || b == [] || !DashOrSpace(a[|a| - 1]) || !DashOrSpace(b[0])
    ensures Collapse(a + b) == Collapse(a) + Collapse(b)
    decreases |a|, 1
  {
    if a == [] {
      assert a + b == b;
    } else if !DashOrSpace(a[0]) {
      CollapseSplitKeep(a, b);
    } else {
      CollapseSplitRun(a, b);
    }
  }

  lemma {:induction false} CollapseSplitKeep(a: string, b: string)
    requires a != [] && !DashOrSpace(a[0])
    requires b == [] || !DashOrSpace(a[|a| - 1]) || !DashOrSpace(b[0])
    ensures Collapse(a + b) == Collapse(a) + Collapse(b)
    decreases |a|, 0
  {
    var t := a[1..];
    assert t != [] ==> t[|t| - 1] == a[|a| - 1];
    CollapseSplit(t, b);
    CollapseKeepStep(a, b);
  }

  lemma {:induction false} CollapseSplitRun(a: string, b: string)
    requires a != [] && DashOrSpace(a[0])
    requires b == [] || !DashOrSpace(a[|a| - 1]) || !DashOrSpace(b[0])
    ensures Collapse(a + b) == Collapse(a) + Collapse(b)
    decreases |a|, 0
  {
    var t := DropRun(a);
    DropRunAppend(a, b);
    if t != [] {
      assert t[|t| - 1] == a[|a| - 1];
      CollapseSplit(t, b);
      CollapseRunStep(a, b);
    } else {
      assert DashOrSpace(a[|a| - 1]);
      CollapseWholeRun(a, b);
    }
  }

  lemma CollapseKeepStep(a: string, b: string)
    requires a != [] && !DashOrSpace(a[0])
    requires Collapse(a[1..] + b) == Collapse(a[1..]) + Collapse(b)
    ensures Collapse(a + b) == Collapse(a) + Collapse(b)
  {
    AppendTail(a, b);
    CollapseKept(a);
    CollapseKept(a + b);
    AppendAssoc([a[0]], Collapse(a[1..]), Collapse(b));
  }

  lemma CollapseRunStep(a: string, b: string)
    requires a != [] && DashOrSpace(a[0]) && DropRun(a) != []
    requires DropRun(a + b) == DropRun(a) + b
    requires Collapse(DropRun(a) + b) == Collapse(DropRun(a)) + Collapse(b)
    ensures Collapse(a + b) == Collapse(a) + Collapse(b)
  {
    AppendTail(a, b);
    CollapseRun(a);
    CollapseRun(a + b);
    AppendAssoc("-", Collapse(DropRun(a)), Collapse(b));
  }

  lemma CollapseWholeRun(a: string, b: string)
    requires a != [] && DashOrSpace(a[0]) && DropRun(a) == []
    requires DropRun(a + b) == b
    ensures Collapse(a + b) == Collapse(a) + Collapse(b)
  {
    AppendTail(a, b);
    CollapseRun(a);
    CollapseRun(a + b);
  }

  lemma CollapseKept(s: string)
    requires s != [] && !DashOrSpace(s[0])
    ensures Collapse(s) == [s[0]] + Collapse(s[1..])
  {
  }

  lemma CollapseRun(s: string)
    requires s != [] && DashOrSpace(s[0])
    ensures Collapse(s) == "-" + Collapse(DropRun(s))
  {
  }

  /** `lstrip('-')`: drops the leading '-' characters and nothing else. */
  function StripLeading(s: string): (r: string)
    ensures |r| <= |s| && r == s[|s| - |r|..]
    ensures forall i :: 0 <= i < |s| - |r| ==> s[i] == '-'
    ensures r == [] || r[0] != '-'
  {
    if s != [] && s[0] == '-' then StripLeading(s[1..]) else s
  }

  /** `rstrip('-')`: drops the trailing '-' characters and nothing else. */
  function StripTrailing(s: string): (r: string)
    ensures |r| <= |s| && r == s[..|r|]
    ensures forall i :: |r| <= i < |s| ==> s[i] == '-'
    ensures r == [] || r[|r| - 1] != '-'
  {
    if s != [] && s[|s| - 1] == '-' then StripTrailing(s[..|s| - 1]) else s
  }

  /** `r` sits in `s` at offset `a`, and everything of `s` before and after
      it is '-'. */
  predicate DashFramed(s: string, a: nat, r: string) {
    a + |r| <= |s| && r == s[a..a + |r|]
    && (forall i :: 0 <= i < a ==> s[i] == '-') && (forall i :: a + |r| <= i < |s| ==> s[i] == '-')
  }

  /** `s.strip('-')`: the part of `s` left once the '-' characters at both
      ends are dropped; it neither starts nor ends with '-'. */
  function StripDashes(s: string): (r: string)
    ensures |r| <= |s|
    ensures r == [] || (r[0] != '-' && r[|r| - 1] != '-')
  {
    StripTrailing(StripLeading(s))
  }

  /** `strip('-')` removes only dashes, and only at the two ends. */
  lemma StripDashesFramed(s: string)
    ensures exists a: nat :: DashFramed(s, a, StripDashes(s))
  {
    var l := StripLeading(s);
    var r := StripDashes(s);
    assert r == StripTrailing(l);
    StripFrame(s, l, r);
    var a: nat := |s| - |l|;
    assert DashFramed(s, a, r);
  }

  /** Dashes cut from the front of `s` (giving `l`) and then from the back
      of `l` (giving `r`) frame `r` inside `s`. */
  lemma StripFrame(s: string, l: string, r: string)
    requires |l| <= |s| && l == s[|s| - |l|..] && forall i :: 0 <= i < |s| - |l| ==> s[i] == '-'
    requires |r| <= |l| && r == l[..|r|] && forall i :: |r| <= i < |l| ==> l[i] == '-'
    requires l == [] || l[0] != '-'
    requires r == [] || r[|r| - 1] != '-'
    ensures DashFramed(s, |s| - |l|, r)
    ensures r == [] || (r[0] != '-' && r[|r| - 1] != '-')
  {
    var a: nat := |s| - |l|;
    forall i | a + |r| <= i < |s| ensures s[i] == '-' {
      assert s[i] == l[i - a];
    }
    assert r == s[a..a + |r|];
    if r != [] {
      assert r[0] == l[0];
    }
  }

  /** The first two steps of create_slug: lower-case, then å and ä become
      'a' and ö becomes 'o' (so Å and Ä become 'a' and Ö becomes 'o'). */
  function Prepare(title: string): (r: string)
    ensures |r| == |title|
    ensures forall i :: 0 <= i < |title| && (Lower(title[i]) == 'å' || Lower(title[i]) == 'ä') ==> r[i] == 'a'
    ensures forall i :: 0 <= i < |title| && Lower(title[i]) == 'ö' ==> r[i] == 'o'
    ensures forall i :: 0 <= i < |title| && Lower(title[i]) != 'å' && Lower(title[i]) != 'ä' && Lower(title[i]) != 'ö' ==> r[i] == Lower(title[i])
  {
    ReplaceChar(ReplaceChar(ReplaceChar(LowerAll(title), 'å', 'a'), 'ä', 'a'), 'ö', 'o')
  }

  /** create_slug(title). */
  function CreateSlug(title: string): string {
    StripDashes(Collapse(KeepSlugChars(Prepare(title))))
  }

  /** A character a slug may hold: '-' or a lower-case word character other
      than å, ä and ö. */
  predicate SlugChar(c: char) {
    c == '-' || (IsWord(c) && Lower(c) == c && c != 'å' && c != 'ä' && c != 'ö')
  }

  /** What create_slug produces: slug characters only (so no whitespace), no
      "--", and no '-' at either end. */
  predicate IsSlug(s: string) {
    (forall i :: 0 <= i < |s| ==> SlugChar(s[i]))
    && NoDoubleDash(s) && (s == [] || (s[0] != '-' && s[|s| - 1] != '-'))
  }

  /** A character the filtered text may hold: a slug character, a space
      or '-'. */
  predicate SlugInput(c: char) {
    DashOrSpace(c) || SlugChar(c)
  }

  /** A character lower-casing and the Swedish replacements leave alone. */
  predicate Settled(c: char) {
    Lower(c) == c && c != 'å' && c != 'ä' && c != 'ö'
  }

  lemma {:induction false} KeepSlugCharsShape(s: string)
    requires forall i :: 0 <= i < |s| ==> Settled(s[i])
    ensures forall i :: 0 <= i < |KeepSlugChars(s)| ==> SlugInput(KeepSlugChars(s)[i])
    decreases |s|
  {
    if s != [] {
      var t := s[1..];
      assert forall i :: 0 <= i < |t| ==> t[i] == s[i + 1];
      KeepSlugCharsShape(t);
      var rest := KeepSlugChars(t);
      if IsWord(s[0]) || DashOrSpace(s[0]) {
        var r := [s[0]] + rest;
        assert KeepSlugChars(s) == r;
        assert SlugInput(s[0]);
        assert forall i :: 0 < i < |r| ==> r[i] == rest[i - 1];
      } else {
        assert KeepSlugChars(s) == rest;
        assert forall i :: 0 <= i < |rest| ==> SlugInput(rest[i]);
      }
    }
  }

  lemma {:induction false} KeepSlugCharsIdentity(s: string)
    requires forall i :: 0 <= i < |s| ==> IsWord(s[i]) || DashOrSpace(s[i])
    ensures KeepSlugChars(s) == s
    decreases |s|
  {
    if s != [] {
      var t := s[1..];
      assert forall i :: 0 <= i < |t| ==> t[i] == s[i + 1];
      KeepSlugCharsIdentity(t);
      assert s == [s[0]] + t;
    }
  }

  /** The tail Collapse continues with after the first character. */
  function CollapseTail(s: string): (t: string)
    requires s != []
    ensures |t| < |s| && t == s[|s| - |t|..]
    ensures Collapse(s) == [Collapse(s)[0]] + Collapse(t)
    ensures DashOrSpace(s[0]) ==> t == [] || !DashOrSpace(t[0])
  {
    if DashOrSpace(s[0]) then DropRun(s) else s[1..]
  }

  /** The collapsed text has no "--". */
  lemma {:induction false} CollapseNoDoubleDash(s: string)
    ensures NoDoubleDash(Collapse(s))
    decreases |s|
  {
    if s != [] {
      var t := CollapseTail(s);
      CollapseNoDoubleDash(t);
      var c := Collapse(t);
      var r := Collapse(s);
      assert c == [] || c[0] != '-' || r[0] != '-';
      forall i | 0 <= i < |r| - 1 ensures !(r[i] == '-' && r[i + 1] == '-') {
        if i > 0 {
          assert r[i] == c[i - 1] && r[i + 1] == c[i];
        }
      }
    }
  }

  /** Collapsing a text of slug characters, spaces and '-' leaves slug
      characters only. */
  lemma {:induction false} CollapseSlugChars(s: string)
    requires forall i :: 0 <= i < |s| ==> SlugInput(s[i])
    ensures forall i :: 0 <= i < |Collapse(s)| ==> SlugChar(Collapse(s)[i])
    decreases |s|
  {
    if s != [] {
      var t := CollapseTail(s);
      assert forall i :: 0 <= i < |t| ==> t[i] == s[|s| - |t| + i];
      CollapseSlugChars(t);
      var c := Collapse(t);
      var r := Collapse(s);
      assert SlugChar(r[0]);
      assert forall i :: 0 < i < |r| ==> r[i] == c[i - 1];
    }
  }

  lemma PrepareSettled(title: string)
    ensures forall i :: 0 <= i < |Prepare(title)| ==> Settled(Prepare(title)[i])
  {
    var lowered := LowerAll(title);
    forall i | 0 <= i < |lowered| ensures Lower(lowered[i]) == lowered[i] {
      LowerIdempotent(title[i]);
    }
  }

  /** Every character is a slug character and no "--" occurs. */
  predicate SlugBody(s: string) {
    (forall i :: 0 <= i < |s| ==> SlugChar(s[i])) && NoDoubleDash(s)
  }

  lemma DropFirstSlugBody(s: string)
    requires s != [] && SlugBody(s)
    ensures SlugBody(s[1..])
  {
    var t := s[1..];
    assert forall i :: 0 <= i < |t| ==> t[i] == s[i + 1];
  }

  lemma DropLastSlugBody(s: string)
    requires s != [] && SlugBody(s)
    ensures SlugBody(s[..|s| - 1])
  {
    var t := s[..|s| - 1];
    assert forall i :: 0 <= i < |t| ==> t[i] == s[i];
  }

  lemma {:induction false} StripLeadingSlugBody(s: string)
    requires SlugBody(s)
    ensures SlugBody(StripLeading(s))
    decreases |s|
  {
    if s != [] && s[0] == '-' {
      DropFirstSlugBody(s);
      StripLeadingSlugBody(s[1..]);
    }
  }

  lemma {:induction false} StripTrailingSlugBody(s: string)
    requires SlugBody(s)
    ensures SlugBody(StripTrailing(s))
    decreases |s|
  {
    if s != [] && s[|s| - 1] == '-' {
      DropLastSlugBody(s);
      StripTrailingSlugBody(s[..|s| - 1]);
    }
  }

  /** Stripping the end dashes of a text made of slug characters without
      "--" gives a slug. */
  lemma StripGivesSlug(collapsed: string)
    requires forall i :: 0 <= i < |collapsed| ==> SlugChar(collapsed[i])
    requires NoDoubleDash(collapsed)
    ensures IsSlug(StripDashes(collapsed))
  {
    var l := StripLeading(collapsed);
    var r := StripTrailing(l);
    StripLeadingSlugBody(collapsed);
    StripTrailingSlugBody(l);
    if r != [] {
      assert r[0] == l[0];
    }
  }

  /** create_slug's output is always a slug. */
  lemma CreateSlugIsSlug(title: string)
    ensures IsSlug(CreateSlug(title))
  {
    var prepared := Prepare(title);
    PrepareSettled(title);
    var kept := KeepSlugChars(prepared);
    KeepSlugCharsShape(prepared);
    CollapseNoDoubleDash(kept);
    CollapseSlugChars(kept);
    StripGivesSlug(Collapse(kept));
  }

  lemma {:induction false} CollapseOfSlug(s: string)
    requires forall i :: 0 <= i < |s| ==> !IsSpace(s[i])
    requires NoDoubleDash(s)
    ensures Collapse(s) == s
    decreases |s|
  {
    if s != [] {
      SlugTail(s);
      CollapseOfSlug(s[1..]);
      CollapseSlugHead(s);
      assert s == [s[0]] + s[1..];
    }
  }

  lemma SlugTail(s: string)
    requires s != [] && (forall i :: 0 <= i < |s| ==> !IsSpace(s[i])) && NoDoubleDash(s)
    ensures forall i :: 0 <= i < |s[1..]| ==> !IsSpace(s[1..][i])
    ensures NoDoubleDash(s[1..])
  {
    assert forall i :: 0 <= i < |s[1..]| ==> s[1..][i] == s[i + 1];
  }

  lemma CollapseSlugHead(s: string)
    requires s != [] && (forall i :: 0 <= i < |s| ==> !IsSpace(s[i])) && NoDoubleDash(s)
    ensures Collapse(s) == [s[0]] + Collapse(s[1..])
  {
    if s[0] == '-' {
      assert |s| == 1 || (s[1] != '-' && !IsSpace(s[1]));
      CollapseLoneDash(s);
    } else {
      CollapseKept(s);
    }
  }

  lemma CollapseLoneDash(s: string)
    requires s != [] && DashOrSpace(s[0]) && (|s| == 1 || !DashOrSpace(s[1]))
    ensures Collapse(s) == "-" + Collapse(s[1..])
  {
    CollapseRun(s);
    DropRunStep(s);
    assert DropRun(s[1..]) == s[1..];
  }

  /** create_slug is idempotent: a slug is its own slug. */
  lemma CreateSlugIdempotent(title: string)
    ensures CreateSlug(CreateSlug(title)) == CreateSlug(title)
  {
    var s := CreateSlug(title);
    CreateSlugIsSlug(title);
    SlugFixed(s);
  }

  /** Every pass of create_slug leaves a slug unchanged. */
  lemma SlugFixed(s: string)
    requires IsSlug(s)
    ensures CreateSlug(s) == s
  {
    assert LowerAll(s) == s;
    assert Prepare(s) == s;
    assert forall i :: 0 <= i < |s| ==> IsWord(s[i]) || DashOrSpace(s[i]);
    KeepSlugCharsIdentity(s);
    forall i | 0 <= i < |s| ensures !IsSpace(s[i]) {
      WordIsNotSpace(s[i]);
    }
    CollapseOfSlug(s);
  }

  // ---------------------------------------------------------------------
  // extract_keywords

  const STOPWORDS: seq<string> := ["och", "för", "av", "på", "med", "till", "från", "som", "är", "i", "det", "en", "att"]
  const SITE_KEYWORD: string := "PayPro.se"
  const MAX_KEYWORDS: nat := 8

  predicate AllWord(w: string) {
    forall i :: 0 <= i < |w| ==> IsWord(w[i])
  }

  /** The leading run of word characters of `s`. */
  function WordRun(s: string): (r: string)
    ensures |r| <= |s| && r == s[..|r|]
    ensures AllWord(r)
    ensures |r| == |s| || !IsWord(s[|r|])
    ensures s != [] && IsWord(s[0]) ==> |r| > 0
  {
    if s != [] && IsWord(s[0]) then [s[0]] + WordRun(s[1..]) else []
  }

  /** `re.findall(r'\b\w+\b', s)`: the maximal runs of word characters, in
      order (a greedy `\w+` between two word boundaries is a maximal run). */
  function Words(s: string): (r: seq<string>)
    ensures forall k :: 0 <= k < |r| ==> r[k] != [] && AllWord(r[k])
    ensures (forall i :: 0 <= i < |s| ==> !IsWord(s[i])) ==> r == []
    ensures s != [] && AllWord(s) ==> r == [s]
    decreases |s|
  {
    if s == [] then []
    else if !IsWord(s[0]) then
      var t := s[1..];
      assert forall i :: 0 <= i < |t| ==> t[i] == s[i + 1];
      Words(t)
    else
      var w := WordRun(s);
      assert AllWord(s) ==> w == s;
      assert s[|s|..] == [];
      [w] + Words(s[|w|..])
  }

  /** WordRun of `a + b` is that of `a` when the run ends inside `a`, and
      is `a` itself when `a` is one run that `b` does not continue. */
  lemma {:induction false} WordRunAppend(a: string, b: string)
    ensures |WordRun(a)| < |a| ==> WordRun(a + b) == WordRun(a)
    ensures a != [] && AllWord(a) && (b == [] || !IsWord(b[0])) ==> WordRun(a + b) == a
    decreases |a|
  {
    if a != [] && IsWord(a[0]) {
      assert (a + b)[1..] == a[1..] + b;
      var t := a[1..];
      assert forall i :: 0 <= i < |t| ==> t[i] == a[i + 1];
      WordRunAppend(t, b);
      if t == [] {
        assert a[1..] + b == b;
      }
    }
  }

  /** findall works run by run: cutting the text anywhere but inside a run
      of word characters, each piece yields its own words. With the two
      cases of Words' contract (no word character gives no word, one whole
      run gives itself), this says that the words are exactly the maximal
      runs of word characters, in order. */
  lemma {:induction false} WordsSplit(a: string, b: string)
    requires a == [] || b == [] || !IsWord(a[|a| - 1]) || !IsWord(b[0])
    ensures Words(a + b) == Words(a) + Words(b)
    decreases |a|, 1
  {
    if a == [] {
      assert a + b == b;
    } else if !IsWord(a[0]) {
      WordsSplitSkip(a, b);
    } else if |WordRun(a)| < |a| {
      WordsSplitRun(a, b);
    } else {
      WordsWhole(a, b);
    }
  }

  lemma {:induction false} WordsSplitSkip(a: string, b: string)
    requires a != [] && !IsWord(a[0])
    requires b == [] || !IsWord(a[|a| - 1]) || !IsWord(b[0])
    ensures Words(a + b) == Words(a) + Words(b)
    decreases |a|, 0
  {
    var t := a[1..];
    WordsSkip(a, b);
    assert t != [] ==> t[|t| - 1] == a[|a| - 1];
    WordsSplit(t, b);
  }

  lemma {:induction false} WordsSplitRun(a: string, b: string)
    requires a != [] && IsWord(a[0]) && |WordRun(a)| < |a|
    requires b == [] || !IsWord(a[|a| - 1]) || !IsWord(b[0])
    ensures Words(a + b) == Words(a) + Words(b)
    decreases |a|, 0
  {
    var w := WordRun(a);
    var t := a[|w|..];
    WordsRun(a, b);
    assert t[|t| - 1] == a[|a| - 1];
    WordsSplit(t, b);
    AppendAssoc([w], Words(t), Words(b));
  }

  lemma WordsSkip(a: string, b: string)
    requires a != [] && !IsWord(a[0])
    ensures Words(a + b) == Words(a[1..] + b) && Words(a) == Words(a[1..])
  {
    assert (a + b)[0] == a[0] && (a + b)[1..] == a[1..] + b;
  }

  lemma WordsRun(a: string, b: string)
    requires a != [] && IsWord(a[0]) && |WordRun(a)| < |a|
    ensures var w := WordRun(a);
      Words(a + b) == [w] + Words(a[|w|..] + b) && Words(a) == [w] + Words(a[|w|..])
  {
    var w := WordRun(a);
    WordRunAppend(a, b);
    assert (a + b)[0] == a[0];
    assert (a + b)[|w|..] == a[|w|..] + b;
  }

  lemma WordsWhole(a: string, b: string)
    requires a != [] && IsWord(a[0]) && |WordRun(a)| == |a|
    requires b == [] || !IsWord(b[0])
    ensures Words(a + b) == Words(a) + Words(b)
  {
    assert WordRun(a) == a;
    WordRunAppend(a, b);
    assert (a + b)[0] == a[0];
    assert (a + b)[|a|..] == b;
    assert a[|a|..] == [];
    assert Words(a) == [a] + Words([]);
  }



  predicate Qualifies(w: string) {
    w !in STOPWORDS && |w| > 3
  }

  /** `[word for word in words if word not in stopwords and len(word) > 3]`. */
  function Qualifying(ws: seq<string>): (r: seq<string>)
    ensures forall k :: 0 <= k < |r| ==> r[k] in ws && Qualifies(r[k])
    ensures Subsequence(r, ws)
    ensures forall w :: Qualifies(w) ==> multiset(r)[w] == multiset(ws)[w]
    ensures (forall k :: 0 <= k < |ws| ==> AllWord(ws[k])) ==> forall k :: 0 <= k < |r| ==> AllWord(r[k])
  {
    if ws == [] then []
    else
      var rest := Qualifying(ws[1..]);
      ConsParts(ws);
      if Qualifies(ws[0]) then
        assert ([ws[0]] + rest)[1..] == rest;
        [ws[0]] + rest
      else
        rest
  }

  /** The list extract_keywords joins: the qualifying lower-cased title words
      followed by "PayPro.se", cut to eight items. */
  function KeywordList(title: string): (r: seq<string>)
    ensures 1 <= |r| <= MAX_KEYWORDS
  {
    FirstN(Qualifying(Words(LowerAll(title))) + [SITE_KEYWORD], MAX_KEYWORDS)
  }

  /** extract_keywords(title). */
  function ExtractKeywords(title: string): string {
    Join(KeywordList(title), ", ")
  }

  lemma {:induction false} JoinCommas(items: seq<string>)
    requires forall k :: 0 <= k < |items| ==> Count(items[k], ',') == 0
    ensures Count(Join(items, ", "), ',') == if items == [] then 0 else |items| - 1
  {
    if |items| > 1 {
      JoinCommas(items[1..]);
      CountAppend(items[0], ", ", ',');
      CountAppend(items[0] + ", ", Join(items[1..], ", "), ',');
    }
  }

  lemma {:induction false} NoCommaInWord(w: string)
    requires AllWord(w)
    ensures Count(w, ',') == 0
  {
    if w != [] {
      NoCommaInWord(w[1..]);
    }
  }

  /** The keyword string holds between one and eight comma-separated items:
      no item contains a comma, so the commas are exactly the separators. */
  lemma KeywordCount(title: string)
    ensures Count(ExtractKeywords(title), ',') + 1 == |KeywordList(title)| <= MAX_KEYWORDS
  {
    var q := Qualifying(Words(LowerAll(title)));
    var full := q + [SITE_KEYWORD];
    var items := KeywordList(title);
    assert items == full[..|items|];
    SiteKeywordNoComma();
    forall k | 0 <= k < |full| ensures Count(full[k], ',') == 0 {
      if k < |q| {
        NoCommaInWord(q[k]);
      }
    }
    forall k | 0 <= k < |items| ensures Count(items[k], ',') == 0 {
      assert items[k] == full[k];
    }
    JoinCommas(items);
  }

  lemma SiteKeywordNoComma()
    ensures Count(SITE_KEYWORD, ',') == 0
  {
    AbsentCount(SITE_KEYWORD, ',');
  }

  lemma {:induction false} AbsentCount(s: string, c: char)
    requires c !in s
    ensures Count(s, c) == 0
  {
    if s != [] {
      assert s[0] in s;
      assert forall k :: 0 <= k < |s[1..]| ==> s[1..][k] == s[k + 1];
      AbsentCount(s[1..], c);
    }
  }

  /** Every keyword other than "PayPro.se" is a qualifying word of the
      lower-cased title, and the keywords keep the title's word order. */
  lemma KeywordsFromTitle(title: string)
    ensures var items := KeywordList(title);
      var words := Words(LowerAll(title));
      (forall k :: 0 <= k < |items| ==> items[k] == SITE_KEYWORD || (items[k] in words && Qualifies(items[k])))
      && Subsequence(items[..|items| - 1], words)
  {
    var words := Words(LowerAll(title));
    KeywordsFromOf(words, Qualifying(words));
  }

  lemma KeywordsFromOf(words: seq<string>, q: seq<string>)
    requires forall k :: 0 <= k < |q| ==> q[k] in words && Qualifies(q[k])
    requires Subsequence(q, words)
    ensures var items := FirstN(q + [SITE_KEYWORD], MAX_KEYWORDS);
      |items| >= 1
      && (forall k :: 0 <= k < |items| ==> items[k] == SITE_KEYWORD || (items[k] in words && Qualifies(items[k])))
      && Subsequence(items[..|items| - 1], words)
  {
    var items := FirstN(q + [SITE_KEYWORD], MAX_KEYWORDS);
    forall k | 0 <= k < |items|
      ensures items[k] == SITE_KEYWORD || (items[k] in words && Qualifies(items[k]))
    {
      assert items[k] == (q + [SITE_KEYWORD])[k];
    }
    var init := items[..|items| - 1];
    if |q| < MAX_KEYWORDS {
      assert init == q;
    } else {
      assert init == q[..MAX_KEYWORDS - 1];
      PrefixSubsequence(q, MAX_KEYWORDS - 1);
      SubsequenceTrans(init, q, words);
    }
  }

  lemma {:induction false} PrefixSubsequence<T>(s: seq<T>, n: nat)
    requires n <= |s|
    ensures Subsequence(s[..n], s)
    decreases |s|
  {
    if n == |s| {
      assert s[..n] == s;
      SubsequenceRefl(s);
    } else {
      assert s == s[..|s| - 1] + [s[|s| - 1]];
      PrefixSubsequence(s[..|s| - 1], n);
      assert s[..|s| - 1][..n] == s[..n];
      SnocSubsequence(s[..n], s[..|s| - 1], s[|s| - 1]);
    }
  }

  lemma {:induction false} SnocSubsequence<T>(a: seq<T>, b: seq<T>, x: T)
    requires Subsequence(a, b)
    ensures Subsequence(a, b + [x])
    decreases |b|
  {
    if a != [] {
      assert (b + [x])[1..] == b[1..] + [x];
      if a[0] == b[0] {
        SnocSubsequence(a[1..], b[1..], x);
      } else {
        SnocSubsequence(a, b[1..], x);
      }
    }
  }

  /** "PayPro.se" is in the list exactly when fewer than eight words
      qualify, and it is then the last item. */
  lemma SiteKeywordLast(title: string)
    ensures var items := KeywordList(title);
      var q := Qualifying(Words(LowerAll(title)));
      (SITE_KEYWORD in items <==> |q| < MAX_KEYWORDS)
      && (|q| < MAX_KEYWORDS ==> items[|items| - 1] == SITE_KEYWORD)
  {
    SiteKeywordPlacement(Qualifying(Words(LowerAll(title))));
  }

  lemma SiteKeywordPlacement(q: seq<string>)
    requires forall k :: 0 <= k < |q| ==> AllWord(q[k])
    ensures var items := FirstN(q + [SITE_KEYWORD], MAX_KEYWORDS);
      (SITE_KEYWORD in items <==> |q| < MAX_KEYWORDS)
      && (|q| < MAX_KEYWORDS ==> items[|items| - 1] == SITE_KEYWORD)
  {
    var items := FirstN(q + [SITE_KEYWORD], MAX_KEYWORDS);
    assert SITE_KEYWORD[6] == '.';
    WordIsNotSpace('.');
    forall k | 0 <= k < |q| ensures q[k] != SITE_KEYWORD {
      if |q[k]| == |SITE_KEYWORD| {
        assert IsWord(q[k][6]);
      }
    }
    if |q| >= MAX_KEYWORDS {
      assert items == q[..MAX_KEYWORDS];
      assert forall k :: 0 <= k < |items| ==> items[k] == q[k];
    } else {
      assert items == q + [SITE_KEYWORD];
    }
  }

  /** The keywords are the first qualifying words, in order; when fewer than
      eight words qualify, every qualifying word of the title is a keyword. */
  lemma KeywordsComplete(title: string)
    ensures var words := Words(LowerAll(title));
      var q := Qualifying(words);
      var items := KeywordList(title);
      (forall k :: 0 <= k < |items| && k < |q| ==> items[k] == q[k])
      && (|q| < MAX_KEYWORDS ==> forall k :: 0 <= k < |words| && Qualifies(words[k]) ==> words[k] in items)
  {
    var words := Words(LowerAll(title));
    KeywordsCompleteOf(words, Qualifying(words));
  }

  lemma KeywordsCompleteOf(words: seq<string>, q: seq<string>)
    requires forall w :: Qualifies(w) ==> multiset(q)[w] == multiset(words)[w]
    ensures var items := FirstN(q + [SITE_KEYWORD], MAX_KEYWORDS);
      (forall k :: 0 <= k < |items| && k < |q| ==> items[k] == q[k])
      && (|q| < MAX_KEYWORDS ==> forall k :: 0 <= k < |words| && Qualifies(words[k]) ==> words[k] in items)
  {
    var items := FirstN(q + [SITE_KEYWORD], MAX_KEYWORDS);
    forall k | 0 <= k < |items| && k < |q| ensures items[k] == q[k] {
      assert items[k] == (q + [SITE_KEYWORD])[k];
    }
    if |q| < MAX_KEYWORDS {
      assert items == q + [SITE_KEYWORD];
      forall k | 0 <= k < |words| && Qualifies(words[k]) ensures words[k] in items {
        assert words[k] in multiset(words);
        assert words[k] in multiset(q);
      }
    }
  }

  // ---------------------------------------------------------------------
  // clean_ai_references: six case-insensitive patterns of the form
  //   <head> [.*? <literal>] .*? (?=\n|\.|<)

  /** The start of a pattern: a literal, or `\d+\s*agents?`. */
  datatype Head = Literal(text: string) | CountedAgents

  /** A head, optionally a lazy `.*?` up to a second literal, then a lazy
      `.*?` up to (not including) a newline, '.' or '<'. */
  datatype Pattern = Pattern(head: Head, via: Option<string>)

  const PATTERNS: seq<Pattern> := [
    Pattern(Literal("CrewAI"), None),
    Pattern(Literal("AI"), Some("agent")),
    Pattern(Literal("Generated by"), None),
    Pattern(Literal("Multi-agent"), None),
    Pattern(CountedAgents, None),
    Pattern(Literal("Production Ready"), None)
  ]

  predicate WellFormed(p: Pattern) {
    (p.head.Literal? ==> p.head.text != []) && (p.via.Some? ==> p.via.value != [])
  }

  /** re.IGNORECASE on the ASCII letters the patterns are written in. */
  function Fold(c: char): char {
    if 'A' <= c <= 'Z' then (c as int + 32) as char else c
  }

  predicate LiteralAt(s: string, i: nat, x: string) {
    i + |x| <= |s| && forall k :: 0 <= k < |x| ==> Fold(s[i + k]) == Fold(x[k])
  }

  predicate IsDigit(c: char) {
    '0' <= c <= '9'
  }

  predicate IsTerminator(c: char) {
    c == '\n' || c == '.' || c == '<'
  }

  /** The end of the run of characters satisfying IsDigit (digits) or
      IsSpace (spaces) starting at `i`. */
  function DigitsEnd(s: string, i: nat): (j: nat)
    requires i <= |s|
    ensures i <= j <= |s| && (j == |s| || !IsDigit(s[j]))
    decreases |s| - i
  {
    if i < |s| && IsDigit(s[i]) then DigitsEnd(s, i + 1) else i
  }

  function SpacesEnd(s: string, i: nat): (j: nat)
    requires i <= |s|
    ensures i <= j <= |s|
    decreases |s| - i
  {
    if i < |s| && IsSpace(s[i]) then SpacesEnd(s, i + 1) else i
  }

  /** Where the head of a pattern ends when it matches at `i`. For
      `\d+\s*agents?` the greedy runs cannot give back characters (a shorter
      run leaves a digit or space where 'a' is needed), and whether 's' is
      taken cannot change where the lazy tail stops ('s' is no terminator),
      so the head ends after "agent". */
  function HeadEnd(h: Head, s: string, i: nat): (r: Option<nat>)
    requires i <= |s|
    ensures r.Some? ==> i < r.value <= |s| || (h.Literal? && h.text == [] && r.value == i)
    ensures h.Literal? ==> (r.Some? <==> LiteralAt(s, i, h.text))
  {
    match h
    case Literal(x) => if LiteralAt(s, i, x) then Some(i + |x|) else None
    case CountedAgents =>
      if i < |s| && IsDigit(s[i]) then
        var j := SpacesEnd(s, DigitsEnd(s, i));
        if LiteralAt(s, j, "agent") then Some(j + 5) else None
      else None
  }

  /** The lazy `.*?(?=\n|\.|<)` from `p`: the first terminator at or after
      `p`; no match when the text ends first. */
  function ToTerminator(s: string, p: nat): (r: Option<nat>)
    requires p <= |s|
    ensures r.Some? ==> p <= r.value < |s| && IsTerminator(s[r.value])
    ensures r.Some? ==> forall k :: p <= k < r.value ==> !IsTerminator(s[k])
    ensures r.None? ==> forall k :: p <= k < |s| ==> !IsTerminator(s[k])
    decreases |s| - p
  {
    if p == |s| then None
    else if IsTerminator(s[p]) then Some(p)
    else ToTerminator(s, p + 1)
  }

  /** The lazy `.*?<x>.*?(?=\n|\.|<)` from `p`: the nearest occurrence of
      `x` from which a terminator is reached, where the first `.*?` cannot
      cross a newline; later occurrences are tried when one fails. */
  function ViaToTerminator(x: string, s: string, p: nat): (r: Option<nat>)
    requires p <= |s|
    ensures r.Some? ==> p <= r.value < |s| && IsTerminator(s[r.value])
    decreases |s| - p
  {
    if LiteralAt(s, p, x) && ToTerminator(s, p + |x|).Some? then ToTerminator(s, p + |x|)
    else if p < |s| && s[p] != '\n' then ViaToTerminator(x, s, p + 1)
    else None
  }

  /** The end of the match of `pat` starting at `i`, if there is one. */
  function MatchAt(pat: Pattern, s: string, i: nat): (r: Option<nat>)
    requires WellFormed(pat) && i <= |s|
    ensures r.Some? ==> i < r.value < |s| && IsTerminator(s[r.value])
    ensures r.Some? && pat.head.Literal? ==> LiteralAt(s, i, pat.head.text)
  {
    match HeadEnd(pat.head, s, i)
    case None => None
    case Some(p) =>
      if pat.via.None? then ToTerminator(s, p) else ViaToTerminator(pat.via.value, s, p)
  }

  /** `re.sub(pattern, '', s[i..], flags=re.IGNORECASE)`: scanning left to
      right, each match is deleted and the scan resumes after it; elsewhere
      the character is kept. */
  function ReSubFrom(pat: Pattern, s: string, i: nat): (r: string)
    requires WellFormed(pat) && i <= |s|
    ensures Subsequence(r, s[i..])
    decreases |s| - i
  {
    if i == |s| then []
    else match MatchAt(pat, s, i)
      case Some(j) =>
        var rest := ReSubFrom(pat, s, j);
        assert s[i..] == s[i..j] + s[j..];
        SubsequencePrepend(rest, s[i..j], s[j..]);
        rest
      case None =>
        var rest := ReSubFrom(pat, s, i + 1);
        assert s[i..][1..] == s[i + 1..];
        [s[i]] + rest
  }

  function ReSub(pat: Pattern, s: string): (r: string)
    requires WellFormed(pat)
    ensures Subsequence(r, s)
  {
    assert s[0..] == s;
    ReSubFrom(pat, s, 0)
  }

  /** A text in which the pattern matches nowhere is left unchanged. */
  lemma {:induction false} ReSubNoMatch(pat: Pattern, s: string, i: nat)
    requires WellFormed(pat) && i <= |s|
    requires forall k :: i <= k <= |s| ==> MatchAt(pat, s, k).None?
    ensures ReSubFrom(pat, s, i) == s[i..]
    decreases |s| - i
  {
    if i < |s| {
      ReSubNoMatch(pat, s, i + 1);
      assert s[i..] == [s[i]] + s[i + 1..];
    }
  }

  /** The patterns applied in order, as clean_ai_references does. */
  function CleanAll(ps: seq<Pattern>, s: string): (r: string)
    requires forall k :: 0 <= k < |ps| ==> WellFormed(ps[k])
    ensures Subsequence(r, s)
    ensures ps == [] ==> r == s
  {
    if ps == [] then
      SubsequenceRefl(s);
      s
    else
      var prev := CleanAll(ps[..|ps| - 1], s);
      var r := ReSub(ps[|ps| - 1], prev);
      SubsequenceTrans(r, prev, s);
      r
  }

  /** clean_ai_references(content): the text with the six patterns removed
      one after the other. It only deletes characters. */
  method CleanAiReferences(content: string) returns (cleaned: string)
    ensures cleaned == CleanAll(PATTERNS, content)
    ensures Subsequence(cleaned, content)
  {
    cleaned := content;
    SubsequenceRefl(content);
    assert PATTERNS[..0] == [];
    for k := 0 to |PATTERNS|
      invariant cleaned == CleanAll(PATTERNS[..k], content)
      invariant Subsequence(cleaned, content)
    {
      var next := ReSub(PATTERNS[k], cleaned);
      SubsequenceTrans(next, cleaned, content);
      assert PATTERNS[..k + 1][..k] == PATTERNS[..k];
      cleaned := next;
    }
    assert PATTERNS[..|PATTERNS|] == PATTERNS;
  }

  /** A removed span starts with the pattern's literal and stops right
      before a newline, '.' or '<', which is kept. */
  lemma MatchShape(pat: Pattern, s: string, i: nat)
    requires WellFormed(pat) && i <= |s| && MatchAt(pat, s, i).Some?
    ensures var j := MatchAt(pat, s, i).value;
      IsTerminator(s[j]) && (pat.head.Literal? ==> LiteralAt(s, i, pat.head.text))
      && (pat.via.None? && pat.head.Literal? ==> forall k :: i + |pat.head.text| <= k < j ==> !IsTerminator(s[k]))
  {
  }

  /** Example: a sentence naming CrewAI loses the name up to the full stop. */
  lemma CleanExample()
    ensures ReSub(PATTERNS[0], "crewai x.") == "."
  {
    var s := "crewai x.";
    assert LiteralAt(s, 0, "CrewAI");
    assert ToTerminator(s, 6) == Some(8);
    assert MatchAt(PATTERNS[0], s, 0) == Some(8);
    assert MatchAt(PATTERNS[0], s, 8) == None;
    assert ReSubFrom(PATTERNS[0], s, 9) == [];
  }

  // ---------------------------------------------------------------------
  // create_production_preview

  /** `os.path.join(a, b)` for POSIX paths. */
  function PathJoin(a: string, b: string): string {
    if StartsWith(b, "/") then b
    else if a == [] || EndsWith(a, "/") then a + b
    else a + "/" + b
  }

  /** The fields create_production_preview substitutes into its HTML
      template; the template text itself is not modelled. The content is
      embedded as given: the function does not call clean_ai_references. */
  datatype Preview = Preview(title: string, description: string, keywords: string, author: string,
                             category: string, readingTime: string, wordCount: string, content: string)


  /** `os.path.join(output_dir, f"{slug}-preview.html")`. */
  function SlugFile(outputDir: string, slug: string): string {
    PathJoin(outputDir, slug + "-preview.html")
  }

  /** The path create_production_preview writes to for a title. */
  function PreviewPath(outputDir: string, title: string): string {
    SlugFile(outputDir, CreateSlug(title))
  }

  /** For a slug that does not start with '/' the file is placed inside
      `output_dir`: the path is the directory, a separator where one is
      missing, the slug, and "-preview.html". */
  lemma SlugFileShape(outputDir: string, slug: string)
    requires slug == [] || slug[0] != '/'
    ensures var sep := if outputDir == [] || EndsWith(outputDir, "/") then "" else "/";
      SlugFile(outputDir, slug) == outputDir + (sep + (slug + "-preview.html"))
      && StartsWith(SlugFile(outputDir, slug), outputDir)
  {
    var name := slug + "-preview.html";
    assert name != [] && name[0] != '/' by {
      assert name[0] == if slug == [] then '-' else slug[0];
    }
    JoinRelative(outputDir, name);
  }

  /** `os.path.join(a, b)` for a relative `b` places `b` under `a`. */
  lemma JoinRelative(a: string, b: string)
    requires b != [] && b[0] != '/'
    ensures var sep := if a == [] || EndsWith(a, "/") then "" else "/";
      PathJoin(a, b) == a + (sep + b) && StartsWith(PathJoin(a, b), a)
  {
    assert !StartsWith(b, "/") by {
      assert b[..1] == [b[0]];
    }
    if a == [] || EndsWith(a, "/") {
      assert b == "" + b;
      PrefixStartsWith(a, b);
    } else {
      assert a + "/" + b == a + ("/" + b);
      PrefixStartsWith(a, "/" + b);
    }
  }

  /** A slug is made of slug characters, so it never starts with '/'. */
  lemma SlugNotAbsolute(title: string)
    ensures CreateSlug(title) == [] || CreateSlug(title)[0] != '/'
  {
    var slug := CreateSlug(title);
    CreateSlugIsSlug(title);
    if slug != [] {
      SlashNotSlugChar();
      assert SlugChar(slug[0]);
    }
  }

  lemma SlashNotSlugChar()
    ensures !SlugChar('/')
  {
  }

  lemma PreviewPathShape(outputDir: string, title: string)
    ensures var sep := if outputDir == [] || EndsWith(outputDir, "/") then "" else "/";
      PreviewPath(outputDir, title) == outputDir + (sep + (CreateSlug(title) + "-preview.html"))
      && StartsWith(PreviewPath(outputDir, title), outputDir)
  {
    SlugNotAbsolute(title);
    SlugFileShape(outputDir, CreateSlug(title));
  }

  /** create_production_preview: writes the preview under its path, touching
      no other file, and returns the path. */
  method CreateProductionPreview(files: map<string, Preview>, title: string, content: string, description: string,
                                 author: string, category: string, readingTime: string, wordCount: string,
                                 outputDir: string)
    returns (path: string, written: map<string, Preview>)
    ensures path == PreviewPath(outputDir, title)
    ensures written == files[path := Preview(title, description, ExtractKeywords(title), author, category,
                                             readingTime, wordCount, content)]
  {
    var keywords := ExtractKeywords(title);
    var slug := CreateSlug(title);
    path := SlugFile(outputDir, slug);
    written := files[path := Preview(title, description, keywords, author, category, readingTime, wordCount, content)];
  }

  /** The defaults of the keyword arguments. */
  const DEFAULT_AUTHOR: string := "PayPro.se Editorial Team"
  const DEFAULT_CATEGORY: string := "Financial Analysis & Market Trends"
  const DEFAULT_READING_TIME: string := "8-10 minutes"
  const DEFAULT_WORD_COUNT: string := "2,400"
  const DEFAULT_OUTPUT_DIR: string := "previews"

  /** A slug file under a directory name that does not end in '/' lies
      below that directory. */
  lemma InsideDirectory(dir: string, slug: string)
    requires dir != [] && dir[|dir| - 1] != '/'
    requires slug == [] || slug[0] != '/'
    ensures StartsWith(SlugFile(dir, slug), dir + "/")
  {
    var name := slug + "-preview.html";
    SlugFileShape(dir, slug);
    assert !EndsWith(dir, "/") by {
      assert dir[|dir| - 1..] == [dir[|dir| - 1]];
    }
    assert dir + ("/" + name) == (dir + "/") + name;
    PrefixStartsWith(dir + "/", name);
  }

  /** With the default directory the preview lands in "previews/". */
  lemma DefaultDirectory(title: string)
    ensures StartsWith(PreviewPath(DEFAULT_OUTPUT_DIR, title), "previews/")
  {
    SlugNotAbsolute(title);
    DefaultDirectoryFor(CreateSlug(title));
  }

  lemma DefaultDirectoryFor(slug: string)
    requires slug == [] || slug[0] != '/'
    ensures StartsWith(SlugFile(DEFAULT_OUTPUT_DIR, slug), "previews/")
  {
    assert DEFAULT_OUTPUT_DIR[|DEFAULT_OUTPUT_DIR| - 1] == 's';
    InsideDirectory(DEFAULT_OUTPUT_DIR, slug);
    assert DEFAULT_OUTPUT_DIR + "/" == "previews/";
  }
}
