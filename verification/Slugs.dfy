/**
 * The concept slug grammar and the mapping into it (src/export/markdown.ts).
 *
 * slugify, and the slugs that file paths yield.
 */
module Slugs {
  import opened Wrappers
  import opened Text

  const SLUG_MAX := 127

  predicate Alnum(c: char) { 'a' <= c <= 'z' || '0' <= c <= '9' }

  predicate SlugChar(c: char) { Alnum(c) || c == '-' }

  /** ^[a-z0-9][a-z0-9-]{0,126}$ */
  predicate Slug(s: string) {
    1 <= |s| <= SLUG_MAX && Alnum(s[0]) && forall i :: 0 <= i < |s| ==> SlugChar(s[i])
  }

  /** Runs of foreign characters as one hyphen each. */
  function Hyphenate(s: string): string {
    if s == "" then ""
    else if Alnum(s[0]) then [s[0]] + Hyphenate(s[1..])
    else if |s| > 1 && !Alnum(s[1]) then Hyphenate(s[1..])
    else "-" + Hyphenate(s[1..])
  }

  function DropLeading(s: string): string {
    if s != "" && s[0] == '-' then DropLeading(s[1..]) else s
  }

  function DropTrailing(s: string): string {
    if s != "" && s[|s| - 1] == '-' then DropTrailing(s[..|s| - 1]) else s
  }

  function Cut(s: string): string { if |s| <= SLUG_MAX then s else s[..SLUG_MAX] }

  /** slugify, after lower-casing. */
  function Fold(s: string): string {
    var slug := DropTrailing(Cut(DropTrailing(DropLeading(Hyphenate(s)))));
    if slug == "" then "untitled" else slug
  }

  /** Lower-casing is JavaScript's; all that matters is that it leaves slug text alone. */
  type Lower = string -> string

  ghost predicate LeavesSlugs(lower: Lower) {
    forall s :: LeavesAlone(lower, s)
  }

  predicate LeavesAlone(lower: Lower, s: string) { (forall i :: 0 <= i < |s| ==> SlugChar(s[i])) ==> lower(s) == s }

  function Slugify(lower: Lower, value: string): string { Fold(lower(value)) }

  /** Slugs slugify leaves alone: no hyphen at either end, and never two in a row. */
  predicate Canonical(s: string) {
    Slug(s) && s[|s| - 1] != '-' && forall i :: 0 <= i < |s| - 1 && s[i] == '-' ==> s[i + 1] != '-'
  }

  /** Slug characters, with no two hyphens in a row. */
  predicate Single(s: string) {
    && (forall i :: 0 <= i < |s| ==> SlugChar(s[i]))
    && (forall i :: 0 <= i < |s| - 1 && s[i] == '-' ==> s[i + 1] != '-')
  }

  lemma {:induction false} HyphenateIsSingle(s: string)
    ensures Single(Hyphenate(s))
    ensures s != "" && Alnum(s[0]) ==> Hyphenate(s) != "" && Hyphenate(s)[0] == s[0]
    decreases |s|
  {
    if s != "" {
      HyphenateIsSingle(s[1..]);
      if !Alnum(s[0]) && (|s| == 1 || Alnum(s[1])) {
        assert s[1..] == "" || Alnum(Hyphenate(s[1..])[0]);
      }
    }
  }

  lemma {:induction false} DropLeadingKeeps(s: string)
    requires Single(s)
    ensures Single(DropLeading(s)) && (DropLeading(s) != "" ==> DropLeading(s)[0] != '-')
    decreases |s|
  {
    if s != "" && s[0] == '-' { DropLeadingKeeps(s[1..]); }
  }

  lemma {:induction false} DropTrailingKeeps(s: string)
    requires Single(s)
    ensures Single(DropTrailing(s)) && DropTrailing(s) <= s
    ensures DropTrailing(s) != "" ==> DropTrailing(s)[|DropTrailing(s)| - 1] != '-'
    decreases |s|
  {
    if s != "" && s[|s| - 1] == '-' { DropTrailingKeeps(s[..|s| - 1]); }
  }

  /** Whatever the input, the result is a canonical slug. */
  lemma SlugifyIsCanonical(lower: Lower, value: string)
    ensures Canonical(Slugify(lower, value))
  {
    var h := Hyphenate(lower(value));
    HyphenateIsSingle(lower(value));
    DropLeadingKeeps(h);
    var l := DropLeading(h);
    DropTrailingKeeps(l);
    var t := DropTrailing(l);
    assert Single(Cut(t));
    DropTrailingKeeps(Cut(t));
    var u := DropTrailing(Cut(t));
    assert u != "" ==> u[0] == t[0] == l[0];
  }

  lemma {:induction false} HyphenateFixes(s: string)
    requires Single(s)
    ensures Hyphenate(s) == s
    decreases |s|
  {
    if s != "" { HyphenateFixes(s[1..]); }
  }

  /** slugify changes exactly the texts that are not canonical slugs; so it is idempotent. */
  lemma SlugifyFixes(lower: Lower, s: string)
    requires LeavesSlugs(lower)
    ensures Slugify(lower, s) == s <==> Canonical(s)
    ensures Slugify(lower, Slugify(lower, s)) == Slugify(lower, s)
  {
    SlugifyIsCanonical(lower, s);
    if Canonical(s) { CanonicalIsFixed(lower, s); }
    CanonicalIsFixed(lower, Slugify(lower, s));
  }

  lemma CanonicalIsFixed(lower: Lower, s: string)
    requires LeavesSlugs(lower) && Canonical(s)
    ensures Slugify(lower, s) == s
  {
    assert LeavesAlone(lower, s);
    HyphenateFixes(s);
  }

  /** The letters and digits of a text, in order. */
  function Letters(s: string): string {
    if s == "" then "" else (if 'a' <= s[0] <= 'z' || '0' <= s[0] <= '9' then [s[0]] else "") + Letters(s[1..])
  }

  lemma {:induction false} LettersOfConcat(a: string, b: string)
    ensures Letters(a + b) == Letters(a) + Letters(b)
    decreases |a|
  {
    if a == "" {
      assert a + b == b;
    } else {
      var ab := a + b;
      assert ab[0] == a[0] && ab[1..] == a[1..] + b;
      LettersOfConcat(a[1..], b);
      var first := if 'a' <= a[0] <= 'z' || '0' <= a[0] <= '9' then [a[0]] else "";
      assert Letters(ab) == first + (Letters(a[1..]) + Letters(b)) == first + Letters(a[1..]) + Letters(b);
    }
  }

  lemma {:induction false} HyphenateKeepsLetters(s: string)
    ensures Letters(Hyphenate(s)) == Letters(s) && |Hyphenate(s)| <= |s|
    decreases |s|
  {
    if s != "" {
      HyphenateKeepsLetters(s[1..]);
      if Alnum(s[0]) {
        assert ([s[0]] + Hyphenate(s[1..]))[1..] == Hyphenate(s[1..]);
      } else {
        assert ("-" + Hyphenate(s[1..]))[1..] == Hyphenate(s[1..]);
      }
    }
  }

  lemma {:induction false} DropLeadingKeepsLetters(s: string)
    ensures Letters(DropLeading(s)) == Letters(s) && |DropLeading(s)| <= |s|
    decreases |s|
  {
    if s != "" && s[0] == '-' { DropLeadingKeepsLetters(s[1..]); }
  }

  lemma {:induction false} DropTrailingKeepsLetters(s: string)
    ensures Letters(DropTrailing(s)) == Letters(s) && |DropTrailing(s)| <= |s|
    decreases |s|
  {
    if s != "" && s[|s| - 1] == '-' {
      var init := s[..|s| - 1];
      DropTrailingKeepsLetters(init);
      LettersOfConcat(init, "-");
      assert s == init + "-" && Letters("-") == "";
    }
  }

  /**
   * What slugify keeps: the letters and digits of the lower-cased text, all of them in order when it is not longer
   * than a slug may be, and otherwise those of a first part; a text without any becomes "untitled".
   */
  lemma SlugifyKeepsLetters(lower: Lower, value: string)
    ensures Letters(lower(value)) == "" <==> DropTrailing(DropLeading(Hyphenate(lower(value)))) == ""
    ensures Letters(lower(value)) == "" ==> Slugify(lower, value) == "untitled"
    ensures Letters(lower(value)) != "" ==> Letters(Slugify(lower, value)) <= Letters(lower(value))
    ensures Letters(lower(value)) != "" && |lower(value)| <= 127 ==>
      Letters(Slugify(lower, value)) == Letters(lower(value))
  {
    var s := lower(value);
    var h, l := Hyphenate(s), DropLeading(Hyphenate(s));
    var t := DropTrailing(l);
    HyphenateIsSingle(s);
    DropLeadingKeeps(h);
    DropTrailingKeeps(l);
    HyphenateKeepsLetters(s);
    DropLeadingKeepsLetters(h);
    DropTrailingKeepsLetters(l);
    DropTrailingKeepsLetters(Cut(t));
    assert t == Cut(t) + t[|Cut(t)|..];
    LettersOfConcat(Cut(t), t[|Cut(t)|..]);
    if t != "" {
      assert t[0] == l[0] && Alnum(t[0]);
      var u := DropTrailing(Cut(t));
      assert Single(Cut(t));
      DropTrailingKeeps(Cut(t));
      assert Letters(Cut(t)) != "";
      assert u != "";
    }
  }

  /** A slug that is not canonical: slugify moves it. */
  lemma SlugsMayMove()
    ensures Slug("a--b") && !Canonical("a--b")
  {
    assert "a--b"[1] == '-' && "a--b"[2] == '-';
  }

  // ---------------------------------------------------------------- paths

  predicate EndsWithMd(path: string) {
    |path| >= 3 && path[|path| - 3] == '.' && (path[|path| - 2] == 'm' || path[|path| - 2] == 'M')
      && (path[|path| - 1] == 'd' || path[|path| - 1] == 'D')
  }

  /** A path without its extension, whatever its case. */
  function Stem(path: string): string { if EndsWithMd(path) then path[..|path| - 3] else path }

  function SlugFromPath(lower: Lower, path: string, prefix: string): string {
    var relative := if prefix <= path then path[|prefix|..] else path;
    if Slug(Stem(relative)) then Stem(relative) else Slugify(lower, Stem(relative))
  }

  /** Every path yields a slug, and the path a slug was filed under yields that slug. */
  lemma PathYieldsSlug(lower: Lower, path: string, prefix: string)
    ensures Slug(SlugFromPath(lower, path, prefix))
  {
    var relative := if prefix <= path then path[|prefix|..] else path;
    SlugifyIsCanonical(lower, Stem(relative));
  }

  lemma FiledSlugReturns(lower: Lower, prefix: string, slug: string)
    requires Slug(slug)
    ensures SlugFromPath(lower, prefix + slug + ".md", prefix) == slug
  {
    var path := prefix + slug + ".md";
    assert path[|prefix|..] == slug + ".md";
    assert (slug + ".md")[..|slug|] == slug;
  }

  /** The last segment of a path. */
  function Base(path: string): string {
    var parts := Split(path, '/');
    SplitIsNonEmpty(path, '/');
    parts[|parts| - 1]
  }

  lemma {:induction false} SplitIsNonEmpty(s: string, c: char)
    ensures Split(s, c) != []
    decreases |s|
  {
  }

  /** The file name of something filed one directory down. */
  lemma BaseOfFiled(dir: string, name: string)
    requires Free(dir, '/') && Free(name, '/')
    ensures Base(dir + "/" + name) == name
  {
    var parts := [dir, name];
    assert parts[1..] == [name];
    assert Join(parts, '/') == dir + "/" + name;
    SplitJoin(parts, '/');
  }
}
