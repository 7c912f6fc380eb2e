/**
 * The charter (src/domain/charter.ts).
 *
 * A document made of the authored text and a derived overview between markers, written
 * back as a whole, and the history of authored revisions, of which at most one is current.
 */
module Charter {
  import opened Wrappers
  import opened Text
  import opened Lines

  // ------------------------------------------------------------- document

  const CHARTER_OPEN := "<!-- wikikit:charter -->"
  const CHARTER_CLOSE := "<!-- /wikikit:charter -->"
  const OVERVIEW_OPEN := "<!-- wikikit:overview -->"
  const OVERVIEW_CLOSE := "<!-- /wikikit:overview -->"
  // In three parts, each short enough for the verifier to see its characters.
  const PLACEHOLDER := "_No charter written " + "yet. Edit this section " + "to steer synthesis._"
  const CHARTER_MAX_CHARS := 8000

  datatype Entry = Entry(slug: string, summary: string)
  datatype Overview = Overview(concepts: nat, decisions: nat, sources: nat, index: seq<Entry>)
  datatype Detail = Detail(name: string, markdown: string, overview: Overview)

  function IndexLines(index: seq<Entry>): seq<string> {
    if index == [] then []
    else
      var last := index[|index| - 1];
      IndexLines(index[..|index| - 1]) + ["- [[" + last.slug + "]] \U{2014} " + Inline(last.summary)]
  }

  function RenderOverview(o: Overview): string {
    Join(["- Concepts: " + Decimal(o.concepts), "- Decisions: " + Decimal(o.decisions),
      "- Sources: " + Decimal(o.sources)]
         + (if o.index == [] then [] else ["", "### Concept index", ""] + IndexLines(o.index)), '\n')
  }

  function Heading(name: string): string { "# " + Inline(name) + " \U{2014} Charter" }

  function Authored(markdown: string): string { if Trim(markdown) == "" then PLACEHOLDER else Trim(markdown) }

  function RenderCharter(d: Detail): string {
    Join([Heading(d.name), "", CHARTER_OPEN, Authored(d.markdown), CHARTER_CLOSE, "", "## Overview (derived)", "",
          OVERVIEW_OPEN, RenderOverview(d.overview), OVERVIEW_CLOSE, ""], '\n')
  }

  lemma {:induction false} IndexLineIs(index: seq<Entry>, k: nat)
    requires k < |index|
    ensures |IndexLines(index)| == |index|
    ensures IndexLines(index)[k] == "- [[" + index[k].slug + "]] \U{2014} " + Inline(index[k].summary)
    decreases |index|
  {
    if k < |index| - 1 {
      IndexLineIs(index[..|index| - 1], k);
    } else if |index| > 1 {
      IndexLineIs(index[..|index| - 1], 0);
    }
  }

  function Counts(concepts: nat, decisions: nat, sources: nat): seq<string> {
    ["- Concepts: " + Decimal(concepts), "- Decisions: " + Decimal(decisions), "- Sources: " + Decimal(sources)]
  }

  /** The overview: the three counts, one to a line, and the index under its heading when there is one. */
  lemma OverviewSays(o: Overview)
    ensures RenderOverview(o)
      == Join(Counts(o.concepts, o.decisions, o.sources)
              + (if |o.index| == 0 then [] else ["", "### Concept index", ""] + IndexLines(o.index)), '\n')
  {
  }

  function Between(text: string, open: string, close: string): Option<string> {
    var start := IndexOf(text, open);
    if start.None? then None
    else
      var rest := text[start.value + |open|..];
      var end := IndexOf(rest, close);
      if end.None? then None else Some(rest[..end.value])
  }

  datatype Parsed = Parsed(authored: string, overview: Option<string>)

  function ParseCharter(body: string): Parsed {
    var marked := Between(body, CHARTER_OPEN, CHARTER_CLOSE);
    var overview := Between(body, OVERVIEW_OPEN, OVERVIEW_CLOSE);
    Parsed(Trim(if marked.Some? then marked.value else body), if overview.Some? then Some(Trim(overview.value))
      else None)
  }

  predicate Marker(p: string) { p != "" && Free(p, '\n') }

  /** What lies between two markers on lines of their own, when the text before does not hold the first. */
  lemma BetweenMarkers(pre: string, mid: string, post: string, open: string, close: string)
    requires Marker(open) && Marker(close) && !Contains(pre, open) && !Contains(open, close)
    ensures var text := pre + "\n" + (open + "\n" + (mid + "\n" + (close + "\n" + post)));
      Between(text, open, close) == Some(if Contains(mid, close) then "\n" + mid[..IndexOf(mid, close).value]
        else "\n" + mid + "\n")
  {
    var tail := mid + "\n" + (close + "\n" + post);
    OpenFound(pre, tail, open);
    CloseFound(mid, post, close);
    BetweenIs(pre + "\n" + (open + "\n" + tail), open, close, "" + "\n" + tail, |pre| + 1,
              1 + if Contains(mid, close) then IndexOf(mid, close).value else |mid| + 1);
    if Contains(mid, close) {
      CutInside(mid, tail, IndexOf(mid, close).value);
    } else {
      CutAfter(mid, close + "\n" + post);
    }
  }

  lemma OpenFound(pre: string, tail: string, open: string)
    requires Marker(open) && !Contains(pre, open)
    ensures IndexOf(pre + "\n" + (open + "\n" + tail), open) == Some(|pre| + 1)
    ensures (pre + "\n" + (open + "\n" + tail))[|pre| + 1 + |open|..] == "" + "\n" + tail
  {
    FirstLine(open, tail);
    FoundAfter(pre, open + "\n" + tail, open);
  }

  lemma BetweenIs(text: string, open: string, close: string, rest: string, start: nat, end: nat)
    requires IndexOf(text, open) == Some(start) && start + |open| <= |text| && text[start + |open|..] == rest
    requires IndexOf(rest, close) == Some(end) && end <= |rest|
    ensures Between(text, open, close) == Some(rest[..end])
  {
  }

  lemma CutInside(mid: string, tail: string, j: nat)
    requires j <= |mid| && mid <= tail
    ensures ("" + "\n" + tail)[..1 + j] == "\n" + mid[..j]
  {
  }

  lemma CutAfter(mid: string, more: string)
    ensures ("" + "\n" + (mid + "\n" + more))[..1 + |mid| + 1] == "\n" + mid + "\n"
  {
  }

  lemma CloseFound(mid: string, post: string, close: string)
    requires Marker(close)
    ensures IndexOf("" + "\n" + (mid + "\n" + (close + "\n" + post)), close)
      == Some(1 + if Contains(mid, close) then IndexOf(mid, close).value else |mid| + 1)
  {
    var tail := mid + "\n" + (close + "\n" + post);
    FirstLine(close, post);
    AbsentFromBoth(mid, close + "\n" + post, close);
    Longer("", close);
    FoundAfter("", tail, close);
    if Contains(mid, close) {
      FoundBefore(mid, close + "\n" + post, close);
    } else {
      FoundAfter(mid, close + "\n" + post, close);
    }
  }

  /** A text that starts with the pattern holds it at its start. */
  lemma FirstLine(p: string, tail: string)
    ensures Contains(p + "\n" + tail, p) && IndexOf(p + "\n" + tail, p) == Some(0)
  {
    assert OccursAt(p + "\n" + tail, p, 0);
  }

  // -------------------------------------------- when a half comes back at all

  /** Markers start and end with characters that trimming keeps. */
  predicate Solid(p: string) { Marker(p) && !White(p[0]) && !White(p[|p| - 1]) }

  /** Where the text before holds the opening marker, that one opens, and the half is read from there. */
  predicate HalfReturns(pre: string, mid: string, open: string, close: string) {
    if Contains(pre, open) then Between(pre, open, close).Some? && Trim(Between(pre, open, close).value) == Trim(mid)
    else !Contains(mid, close)
  }

  function Document(pre: string, mid: string, post: string, open: string, close: string): string {
    pre + "\n" + (open + "\n" + (mid + "\n" + (close + "\n" + post)))
  }

  /** What is found between two markers on lines of their own trims to what was put there exactly then. */
  lemma HalfExactly(pre: string, mid: string, post: string, open: string, close: string)
    requires Solid(open) && Solid(close) && !Contains(open, close) && mid != "" && !White(mid[0])
    ensures var b := Between(Document(pre, mid, post, open, close), open, close);
      b.Some? && (Trim(b.value) == Trim(mid) <==> HalfReturns(pre, mid, open, close))
  {
    if Contains(pre, open) {
      OpenedEarly(pre, mid, post, open, close);
    } else {
      BetweenMarkers(pre, mid, post, open, close);
      if Contains(mid, close) {
        TrimmedCut(mid, close, IndexOf(mid, close).value);
      } else {
        TrimOfFramed(mid);
      }
    }
  }

  /** What follows the first occurrence. */
  function Following(text: string, p: string): string
    requires Contains(text, p)
  {
    text[IndexOf(text, p).value + |p|..]
  }

  lemma OpenedEarly(pre: string, mid: string, post: string, open: string, close: string)
    requires Solid(open) && Solid(close) && !Contains(open, close) && mid != "" && !White(mid[0]) && Contains(pre, open)
    ensures var b := Between(Document(pre, mid, post, open, close), open, close);
      && (Between(pre, open, close).Some? ==> b == Between(pre, open, close))
      && (Between(pre, open, close).None? ==> b.Some? && Trim(b.value) != Trim(mid) && Trim(b.value) != "")
  {
    var tail := open + "\n" + (mid + "\n" + (close + "\n" + post));
    var text, rest := pre + "\n" + tail, Following(pre, open);
    FoundBefore(pre, tail, open);
    var start := IndexOf(pre, open).value;
    assert text[start + |open|..] == rest + "\n" + tail;
    if Contains(rest, close) {
      FoundBefore(rest, tail, close);
      var end := IndexOf(rest, close).value;
      BetweenIs(text, open, close, rest + "\n" + tail, start, end);
      assert (rest + "\n" + tail)[..end] == rest[..end];
    } else {
      var end := EndsLate(rest, mid, post, open, close);
      BetweenIs(text, open, close, rest + "\n" + tail, start, end);
    }
  }

  /** The half then takes in the second opening marker, and so is not what was put there. */
  lemma EndsLate(rest: string, mid: string, post: string, open: string, close: string)
    returns (end: nat)
    requires Solid(open) && Solid(close) && !Contains(open, close) && mid != "" && !White(mid[0])
    requires !Contains(rest, close)
    ensures var text := rest + "\n" + (open + "\n" + (mid + "\n" + (close + "\n" + post)));
      && IndexOf(text, close) == Some(end) && end <= |text|
      && Trim(text[..end]) != Trim(mid) && Trim(text[..end]) != ""
  {
    var closing := close + "\n" + post;
    var tail := mid + "\n" + closing;
    var text := rest + "\n" + (open + "\n" + tail);
    FirstLine(close, post);
    AbsentFromBoth(mid, closing, close);
    AbsentFromBoth(open, tail, close);
    FoundAfter(rest, open + "\n" + tail, close);
    FoundAfter(open, tail, close);
    end := |rest| + 1 + |open| + 1 + IndexOf(tail, close).value;
    assert text[|rest| + 1] == open[0];
    TrimSpan(text[..end], |rest| + 1, |rest| + 1);
    if Contains(mid, close) {
      FoundBefore(mid, closing, close);
      HoldsNoClose(text, close, end, mid);
    } else {
      FoundAfter(mid, closing, close);
      TakesInMore(text, mid, |rest| + 1, |open| + 1, end);
    }
  }

  /** What precedes the closing marker does not hold it, and what was put there does. */
  lemma HoldsNoClose(text: string, close: string, end: nat, mid: string)
    requires Solid(close) && IndexOf(text, close) == Some(end) && end <= |text|
    requires mid != "" && !White(mid[0]) && Contains(mid, close)
    ensures Trim(text[..end]) != Trim(mid)
  {
    var j := TrimKeeps(mid, close);
    var k := TrimIsInside(text[..end]);
    var inside := Trim(text[..end]);
    if OccursAt(inside, close, j) {
      OccursInside(text, end, k, inside, close, j);
      assert false;
    }
  }

  lemma TrimKeeps(mid: string, close: string) returns (j: nat)
    requires Solid(close) && mid != "" && !White(mid[0]) && Contains(mid, close)
    ensures OccursAt(Trim(mid), close, j)
  {
    j := IndexOf(mid, close).value;
    OccursChar(mid, close, j, |close| - 1);
    TrimEndKeeps(mid, j + |close| - 1);
    TrimEndShape(mid);
    assert TrimEnd(mid)[j..j + |close|] == mid[j..j + |close|];
  }

  lemma OccursInside(text: string, end: nat, k: nat, inside: string, p: string, j: nat)
    requires end <= |text| && k + |inside| <= end && text[..end][k..k + |inside|] == inside && OccursAt(inside, p, j)
    ensures k + j + |p| <= end && OccursAt(text, p, k + j)
  {
    forall i | 0 <= i < |p| ensures text[k + j + i] == p[i] {
      OccursChar(inside, p, j, i);
      assert text[..end][k..k + |inside|][j + i] == text[k + j + i];
    }
  }

  lemma TakesInMore(text: string, mid: string, i: nat, gap: nat, end: nat)
    requires mid != "" && !White(mid[0]) && gap > 0 && i + gap + |mid| <= end <= |text|
    requires !White(text[i]) && text[i + gap..i + gap + |mid|] == mid
    ensures Trim(text[..end]) != Trim(mid)
  {
    TrimEndKeeps(mid, 0);
    TrimEndShape(mid);
    var last := |TrimEnd(mid)| - 1;
    assert text[i + gap + last] == text[i + gap..i + gap + |mid|][last] == mid[last] == TrimEnd(mid)[last];
    TrimSpan(text[..end], i, i + gap + last);
  }

  // ----------------------------------------------------------- round trip

  lemma MarkersAreLines()
    ensures Marker(CHARTER_OPEN) && Marker(CHARTER_CLOSE) && Marker(OVERVIEW_OPEN) && Marker(OVERVIEW_CLOSE)
  {
  }

  lemma MarkersAreApart()
    ensures !Contains(CHARTER_OPEN, CHARTER_CLOSE) && !Contains(OVERVIEW_OPEN, OVERVIEW_CLOSE)
    ensures !Contains(CHARTER_OPEN, OVERVIEW_OPEN) && !Contains(CHARTER_CLOSE, OVERVIEW_OPEN)
    ensures !Contains("", OVERVIEW_OPEN) && !Contains("", CHARTER_OPEN)
  {
    Longer(CHARTER_OPEN, CHARTER_CLOSE);
    Longer(OVERVIEW_OPEN, OVERVIEW_CLOSE);
    Longer(CHARTER_OPEN, OVERVIEW_OPEN);
    forall i | 0 <= i <= |CHARTER_CLOSE| ensures !OccursAt(CHARTER_CLOSE, OVERVIEW_OPEN, i) {
      if OccursAt(CHARTER_CLOSE, OVERVIEW_OPEN, i) { OccursChar(CHARTER_CLOSE, OVERVIEW_OPEN, i, 5); }
    }
  }

  lemma PlaceholderIsPlain()
    ensures Free(PLACEHOLDER, '<') && Trimmed(PLACEHOLDER) && PLACEHOLDER != ""
  {
    var x, y, z := "_No charter written ", "yet. Edit this section ", "to steer synthesis._";
    assert Free(x, '<') && Free(y, '<') && Free(z, '<');
    ConcatFree(x, y, '<');
    ConcatFree(x + y, z, '<');
    assert PLACEHOLDER[0] == '_' && PLACEHOLDER[|PLACEHOLDER| - 1] == '_';
  }

  lemma ConcatFree(a: string, b: string, c: char)
    requires Free(a, c) && Free(b, c)
    ensures Free(a + b, c)
  {
  }

  lemma FixedTextIsUnmarked()
    ensures !Contains("## Overview (derived)", OVERVIEW_OPEN)
    ensures !Contains(PLACEHOLDER, CHARTER_CLOSE) && !Contains(PLACEHOLDER, OVERVIEW_OPEN)
  {
    PlaceholderIsPlain();
    NoLt(PLACEHOLDER, CHARTER_CLOSE);
    NoLt(PLACEHOLDER, OVERVIEW_OPEN);
    NoLt("## Overview (derived)", OVERVIEW_OPEN);
  }

  lemma NoLt(text: string, p: string)
    requires p != "" && p[0] == '<' && Free(text, '<')
    ensures !Contains(text, p)
  {
    forall i | 0 <= i <= |text| ensures !OccursAt(text, p, i) {
      if OccursAt(text, p, i) { OccursChar(text, p, i, 0); }
    }
  }

  lemma Longer(text: string, p: string)
    requires |text| < |p|
    ensures !Contains(text, p)
  {
  }

  /** The document in two halves: heading, authored text and the rest; then overview and end. */
  function Tail(d: Detail): string {
    OVERVIEW_OPEN + "\n" + (RenderOverview(d.overview) + "\n" + (OVERVIEW_CLOSE + "\n" + ""))
  }

  function Middle(d: Detail): string { Authored(d.markdown) + "\n" + (CHARTER_CLOSE + "\n" + Rest(d)) }

  function Rest(d: Detail): string { "" + "\n" + ("## Overview (derived)" + "\n" + ("" + "\n" + Tail(d))) }

  lemma JoinCons(line: string, lines: seq<string>)
    requires lines != []
    ensures Join([line] + lines, '\n') == line + "\n" + Join(lines, '\n')
  {
    assert ([line] + lines)[1..] == lines;
  }

  lemma {:induction false} JoinBoth(a: seq<string>, b: seq<string>)
    requires a != [] && b != []
    ensures Join(a + b, '\n') == Join(a, '\n') + "\n" + Join(b, '\n')
    decreases |a|
  {
    assert a + b == [a[0]] + (a[1..] + b);
    JoinCons(a[0], a[1..] + b);
    if |a| == 1 {
      assert a[1..] + b == b;
    } else {
      JoinBoth(a[1..], b);
      JoinCons(a[0], a[1..]);
      assert a == [a[0]] + a[1..];
    }
  }

  lemma TailShape(d: Detail)
    ensures Join(["", "## Overview (derived)", "", OVERVIEW_OPEN, RenderOverview(d.overview), OVERVIEW_CLOSE, ""], '\n')
      == Rest(d)
  {
    var o := RenderOverview(d.overview);
    JoinCons(OVERVIEW_CLOSE, [""]);
    JoinCons(o, [OVERVIEW_CLOSE, ""]);
    JoinCons(OVERVIEW_OPEN, [o, OVERVIEW_CLOSE, ""]);
    JoinCons("", [OVERVIEW_OPEN, o, OVERVIEW_CLOSE, ""]);
    JoinCons("## Overview (derived)", ["", OVERVIEW_OPEN, o, OVERVIEW_CLOSE, ""]);
    JoinCons("", ["## Overview (derived)", "", OVERVIEW_OPEN, o, OVERVIEW_CLOSE, ""]);
  }

  lemma DocumentShape(d: Detail)
    ensures RenderCharter(d) == (Heading(d.name) + "\n" + "") + "\n" + (CHARTER_OPEN + "\n" + Middle(d))
  {
    var top, mid := [Heading(d.name), ""], [CHARTER_OPEN, Authored(d.markdown), CHARTER_CLOSE];
    var end := ["", "## Overview (derived)", "", OVERVIEW_OPEN, RenderOverview(d.overview), OVERVIEW_CLOSE, ""];
    TailShape(d);
    assert [Heading(d.name)] + [""] == top && [CHARTER_OPEN] + [Authored(d.markdown), CHARTER_CLOSE] == mid;
    assert [Authored(d.markdown)] + [CHARTER_CLOSE] == [Authored(d.markdown), CHARTER_CLOSE];
    assert [Heading(d.name), "", CHARTER_OPEN, Authored(d.markdown), CHARTER_CLOSE, "", "## Overview (derived)", "",
            OVERVIEW_OPEN, RenderOverview(d.overview), OVERVIEW_CLOSE, ""] == top + mid + end;
    JoinBoth(top + mid, end);
    JoinBoth(top, mid);
    JoinCons(Heading(d.name), [""]);
    JoinCons(CHARTER_OPEN, [Authored(d.markdown), CHARTER_CLOSE]);
    JoinCons(Authored(d.markdown), [CHARTER_CLOSE]);
    MoveBreaks(Join(top, '\n'), Authored(d.markdown), Rest(d));
  }

  lemma MoveBreaks(top: string, a: string, rest: string)
    ensures (top + "\n" + (CHARTER_OPEN + "\n" + (a + "\n" + CHARTER_CLOSE))) + "\n" + rest
      == top + "\n" + (CHARTER_OPEN + "\n" + (a + "\n" + (CHARTER_CLOSE + "\n" + rest)))
  {
  }

  lemma MarkersAreSolid()
    ensures Solid(CHARTER_OPEN) && Solid(CHARTER_CLOSE) && Solid(OVERVIEW_OPEN) && Solid(OVERVIEW_CLOSE)
  {
  }

  lemma CutIsShorter(cut: string)
    ensures |Trim("\n" + cut)| <= |cut|
  {
    TrimTrims("\n" + cut);
    assert ("\n" + cut)[1..] == cut;
    TrimStartShape(cut);
    TrimEndShape(TrimStart(cut));
  }

  /** An empty line after a text changes nothing between its markers. */
  lemma BetweenOfLine(pre: string, open: string, close: string)
    requires Marker(open) && Marker(close)
    ensures Contains(pre + "\n" + "", open) <==> Contains(pre, open)
    ensures Between(pre + "\n" + "", open, close) == Between(pre, open, close)
  {
    AbsentFromBoth(pre, "", open);
    Longer("", open);
    Longer("", close);
    if Contains(pre, open) {
      FoundBefore(pre, "", open);
      var start, rest := IndexOf(pre, open).value, Following(pre, open);
      assert (pre + "\n" + "")[start + |open|..] == rest + "\n" + "";
      AbsentFromBoth(rest, "", close);
      if Contains(rest, close) {
        FoundBefore(rest, "", close);
        assert (rest + "\n" + "")[..IndexOf(rest, close).value] == rest[..IndexOf(rest, close).value];
      }
    }
  }

  /**
   * The authored half comes back exactly when it does not hold its own end marker; under a
   * heading that holds the opening marker, exactly when the heading repeats it between markers.
   */
  lemma AuthoredHalf(d: Detail)
    ensures ParseCharter(RenderCharter(d)).authored == Authored(d.markdown)
      <==> HalfReturns(Heading(d.name), Authored(d.markdown), CHARTER_OPEN, CHARTER_CLOSE)
  {
    var a := Authored(d.markdown);
    TrimTrims(d.markdown);
    PlaceholderIsPlain();
    TrimTrims(a);
    DocumentShape(d);
    MarkersAreSolid();
    MarkersAreApart();
    BetweenOfLine(Heading(d.name), CHARTER_OPEN, CHARTER_CLOSE);
    HalfExactly(Heading(d.name) + "\n" + "", a, Rest(d), CHARTER_OPEN, CHARTER_CLOSE);
  }

  /** The stored text is read back from a heading that holds the opening marker, or from its own place. */
  predicate StoredReturns(d: Detail) {
    if Contains(Heading(d.name), CHARTER_OPEN) then
      var between := Between(Heading(d.name), CHARTER_OPEN, CHARTER_CLOSE);
      between.Some? && Trim(between.value) == Trim(d.markdown)
    else Trim(d.markdown) != "" && !Contains(Trim(d.markdown), CHARTER_CLOSE)
  }

  /** So the stored text comes back exactly when it is not empty and does not hold its end marker. */
  lemma CharterRoundTrips(d: Detail)
    ensures ParseCharter(RenderCharter(d)).authored == Trim(d.markdown) <==> StoredReturns(d)
  {
    AuthoredHalf(d);
    FixedTextIsUnmarked();
    TrimTrims(d.markdown);
    TrimTrims(Trim(d.markdown));
    if Trim(d.markdown) == "" { NothingComesBack(d); }
  }

  lemma NothingComesBack(d: Detail)
    requires Trim(d.markdown) == ""
    ensures ParseCharter(RenderCharter(d)).authored == "" <==> StoredReturns(d)
  {
    PlaceholderIsPlain();
    FixedTextIsUnmarked();
    DocumentShape(d);
    MarkersAreSolid();
    MarkersAreApart();
    var pre := Heading(d.name) + "\n" + "";
    BetweenOfLine(Heading(d.name), CHARTER_OPEN, CHARTER_CLOSE);
    if Contains(pre, CHARTER_OPEN) {
      OpenedEarly(pre, PLACEHOLDER, Rest(d), CHARTER_OPEN, CHARTER_CLOSE);
    } else {
      AuthoredHalf(d);
    }
  }

  /** The overview half comes back exactly when it does not hold its own end marker, or the text before repeats it. */
  lemma OverviewHalf(d: Detail)
    ensures ParseCharter(RenderCharter(d)).overview.Some?
    ensures ParseCharter(RenderCharter(d)).overview == Some(Trim(RenderOverview(d.overview)))
      <==> HalfReturns(OverviewPrefix(d), RenderOverview(d.overview), OVERVIEW_OPEN, OVERVIEW_CLOSE)
  {
    OverviewShape(d);
    MarkersAreSolid();
    MarkersAreApart();
    StartsWithDash(d.overview);
    HalfExactly(OverviewPrefix(d), RenderOverview(d.overview), "", OVERVIEW_OPEN, OVERVIEW_CLOSE);
  }

  function OverviewPrefix(d: Detail): string {
    (Heading(d.name) + "\n" + "") + "\n" + (CHARTER_OPEN + "\n" + (Authored(d.markdown) + "\n" + (CHARTER_CLOSE + "\n" +
      ("" + "\n" + ("## Overview (derived)" + "\n" + "")))))
  }

  lemma OverviewShape(d: Detail)
    ensures RenderCharter(d) == OverviewPrefix(d) + "\n" + Tail(d)
  {
    DocumentShape(d);
    Reassociate(Heading(d.name) + "\n" + "", Authored(d.markdown), Tail(d));
  }

  lemma Reassociate(top: string, a: string, tail: string)
    ensures top + "\n" + (CHARTER_OPEN + "\n"
      + (a + "\n" + (CHARTER_CLOSE + "\n" + ("" + "\n" + ("## Overview (derived)" + "\n" + ("" + "\n" + tail))))))
      == (top + "\n" + (CHARTER_OPEN + "\n" + (a + "\n"
        + (CHARTER_CLOSE + "\n" + ("" + "\n" + ("## Overview (derived)" + "\n" + "")))))) + "\n" + tail
  {
  }

  /** The text before holds the overview's opening marker exactly when the heading or the authored text does. */
  lemma OpensBefore(d: Detail)
    ensures Contains(OverviewPrefix(d), OVERVIEW_OPEN)
      <==> Contains(Heading(d.name), OVERVIEW_OPEN) || Contains(Authored(d.markdown), OVERVIEW_OPEN)
  {
    var p := OVERVIEW_OPEN;
    MarkersAreLines();
    MarkersAreApart();
    FixedTextIsUnmarked();
    var l1 := "## Overview (derived)" + "\n" + "";
    var l2 := "" + "\n" + l1;
    var l3 := CHARTER_CLOSE + "\n" + l2;
    var l4 := Authored(d.markdown) + "\n" + l3;
    var l5 := CHARTER_OPEN + "\n" + l4;
    AbsentFromBoth("## Overview (derived)", "", p);
    AbsentFromBoth("", l1, p);
    AbsentFromBoth(CHARTER_CLOSE, l2, p);
    AbsentFromBoth(Authored(d.markdown), l3, p);
    AbsentFromBoth(CHARTER_OPEN, l4, p);
    AbsentFromBoth(Heading(d.name), "", p);
    AbsentFromBoth(Heading(d.name) + "\n" + "", l5, p);
  }

  lemma StartsWithDash(o: Overview)
    ensures RenderOverview(o) != "" && RenderOverview(o)[0] == '-'
  {
    var first := "- Concepts: " + Decimal(o.concepts);
    var lines := [first, "- Decisions: " + Decimal(o.decisions), "- Sources: " + Decimal(o.sources)]
      + (if o.index == [] then [] else ["", "### Concept index", ""] + IndexLines(o.index));
    assert lines[0] == first && Join(lines, '\n') == first + ['\n'] + Join(lines[1..], '\n');
  }

  lemma TrimOfFramed(o: string)
    requires o != "" && !White(o[0])
    ensures Trim("\n" + o + "\n") == Trim(o)
  {
    assert ("\n" + o + "\n")[1..] == o + "\n";
    assert (o + "\n")[0] == o[0] && TrimStart(o + "\n") == o + "\n" && TrimStart(o) == o;
    assert (o + "\n")[..|o|] == o;
    assert TrimEnd(o + "\n") == TrimEnd(o);
  }

  /** A cut at a marker loses characters that trimming would not. */
  lemma TrimmedCut(o: string, close: string, j: nat)
    requires Solid(close) && o != "" && !White(o[0]) && FirstAt(o, close, j)
    ensures Trim("\n" + o[..j]) != Trim(o)
  {
    CutIsShorter(o[..j]);
    OccursChar(o, close, j, 0);
    TrimEndKeeps(o, j);
  }

  // -------------------------------------------------------------- history

  datatype Row = Row(rev: nat, current: bool, markdown: string, base: Option<nat>)
  datatype Written = Written(rev: Option<nat>, ingest: Option<string>)

  /** Revisions 1..n, at most the newest of them current, every text within the limit and trimmed. */
  predicate Valid(rows: seq<Row>) {
    forall i :: 0 <= i < |rows| ==> Fits(rows, i)
  }

  predicate Fits(rows: seq<Row>, i: nat)
    requires i < |rows|
  {
    rows[i].rev == i + 1 && (rows[i].current ==> i == |rows| - 1) && Trimmed(rows[i].markdown) &&
      |rows[i].markdown| <= CHARTER_MAX_CHARS
  }

  function Current(rows: seq<Row>): Option<Row> {
    if rows != [] && rows[|rows| - 1].current then Some(rows[|rows| - 1]) else None
  }

  function CurrentText(rows: seq<Row>): string { if Current(rows).Some? then Current(rows).value.markdown else "" }

  function CurrentRev(rows: seq<Row>): Option<nat> {
    if Current(rows).Some? then Some(Current(rows).value.rev) else None
  }

  /** The history with nothing current. */
  function Retired(rows: seq<Row>): seq<Row> {
    seq(|rows|, i requires 0 <= i < |rows| => rows[i].(current := false))
  }

  /** The overview half, when it is not the one current knowledge renders: what goes to review. */
  function Routed(written: Option<string>, overview: Overview): Option<string> {
    if written.Some? && written.value != Trim(RenderOverview(overview)) then written else None
  }

  lemma ParsedIsTrimmed(body: string)
    ensures Trimmed(ParseCharter(body).authored)
  {
    var marked := Between(body, CHARTER_OPEN, CHARTER_CLOSE);
    TrimTrims(if marked.Some? then marked.value else body);
  }

  class History {
    var rows: seq<Row>

    constructor ()
      ensures rows == []
    {
      rows := [];
    }

    method FindCurrent() returns (at: Option<nat>)
      requires Valid(rows)
      ensures at == if Current(rows).Some? then Some(|rows| - 1) else None
    {
      for i := 0 to |rows|
        invariant forall k :: 0 <= k < i ==> !rows[k].current
      {
        if rows[i].current {
          assert Fits(rows, i);
          return Some(i);
        }
      }
      return None;
    }

    method Supersede(at: nat)
      requires Valid(rows) && Current(rows).Some? && at == |rows| - 1
      modifies this
      ensures rows == Retired(old(rows))
    {
      forall i | 0 <= i < |rows| - 1 ensures !rows[i].current { assert Fits(rows, i); }
      rows := rows[at := rows[at].(current := false)];
    }

    method NextRev() returns (next: nat)
      requires Valid(rows)
      ensures next == |rows| + 1
    {
      var max := 0;
      for i := 0 to |rows|
        invariant max == i
      {
        assert Fits(rows, i);
        if rows[i].rev > max { max := rows[i].rev; }
      }
      next := max + 1;
    }

    /** One transaction: the current revision is superseded and the next one becomes current. */
    method Append(authored: string) returns (next: nat)
      requires Valid(rows) && Trimmed(authored) && |authored| <= CHARTER_MAX_CHARS
      modifies this
      ensures Valid(rows) && next == |rows|
      ensures rows == Retired(old(rows)) + [Row(|old(rows)| + 1, true, authored, CurrentRev(old(rows)))]
    {
      var at := FindCurrent();
      var base := if at.Some? then Some(rows[at.value].rev) else None;
      next := NextRev();
      NothingElseCurrent(rows);
      if at.Some? { Supersede(at.value); }
      rows := rows + [Row(next, true, authored, base)];
      forall i | 0 <= i < |rows| ensures Fits(rows, i) { assert i < |old(rows)| ==> Fits(old(rows), i); }
    }

    /**
     * writeCharter: the authored half becomes the next revision unless it is what is
     * stored already; an edited overview half goes to review, never to the history.
     */
    method Write(body: string, overview: Overview) returns (r: Option<Written>)
      requires Valid(rows)
      modifies this
      ensures Valid(rows)
      ensures r.None? <==> |ParseCharter(body).authored| > 8000
      ensures r.None? ==> rows == old(rows)
      ensures r.Some? ==> r.value.ingest == Routed(ParseCharter(body).overview, overview)
      ensures r.Some? && ParseCharter(body).authored == CurrentText(old(rows))
        ==> rows == old(rows) && r.value.rev == CurrentRev(rows)
      ensures r.Some? && ParseCharter(body).authored != CurrentText(old(rows)) ==>
        && rows == Retired(old(rows)) + [Row(|old(rows)| + 1, true, ParseCharter(body).authored, CurrentRev(old(rows)))]
        && r.value.rev == Some(|rows|)
    {
      var parsed := ParseCharter(body);
      if |parsed.authored| > CHARTER_MAX_CHARS { return None; }
      ParsedIsTrimmed(body);
      var ingest := Routed(parsed.overview, overview);
      var at := FindCurrent();
      var text := if at.Some? then rows[at.value].markdown else "";
      if at.Some? { assert Fits(rows, at.value); }
      TrimTrims(text);
      if Trim(text) == parsed.authored {
        return Some(Written(if at.Some? then Some(rows[at.value].rev) else None, ingest));
      }
      var next := Append(parsed.authored);
      return Some(Written(Some(next), ingest));
    }

    /** deleteCharter: nothing is current, nothing is lost. */
    method Delete()
      requires Valid(rows)
      modifies this
      ensures Valid(rows) && rows == Retired(old(rows))
    {
      NothingElseCurrent(rows);
      var at := FindCurrent();
      if at.Some? { Supersede(at.value); }
      forall i | 0 <= i < |rows| ensures Fits(rows, i) { assert Fits(old(rows), i); }
    }

    /**
     * Writing back the document as it was rendered changes nothing exactly when the stored text
     * comes back, and opens nothing exactly when the overview does.
     */
    method WriteBack(name: string, overview: Overview) returns (r: Option<Written>)
      requires Valid(rows)
      modifies this
      ensures Valid(rows)
      ensures var d := Detail(name, CurrentText(old(rows)), overview);
        && (r.None? <==> |ParseCharter(RenderCharter(d)).authored| > 8000)
        && (rows == old(rows) <==> r.None? || StoredReturns(d))
        && (r.Some? && StoredReturns(d) ==> r.value.rev == CurrentRev(old(rows)))
        && (r.Some? ==> (r.value.ingest.None?
             <==> HalfReturns(OverviewPrefix(d), RenderOverview(overview), OVERVIEW_OPEN, OVERVIEW_CLOSE)))
    {
      var at := FindCurrent();
      var text := if at.Some? then rows[at.value].markdown else "";
      if at.Some? { assert Fits(rows, at.value); }
      TrimTrims(text);
      var d := Detail(name, text, overview);
      CharterRoundTrips(d);
      OverviewHalf(d);
      r := Write(RenderCharter(d), overview);
    }
  }

  lemma NothingElseCurrent(rows: seq<Row>)
    requires Valid(rows)
    ensures Current(rows).None? ==> Retired(rows) == rows
  {
    forall i | 0 <= i < |rows| && Current(rows).None? ensures !rows[i].current { assert Fits(rows, i); }
  }
}
