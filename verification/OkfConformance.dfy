/**
 * Conformance to Open Knowledge Format v0.1, section 9 (src/export/okf.ts).
 *
 * The index and the log an export derives, the checker, and exactly which exports pass it.
 */
module OkfConformance {
  import opened Wrappers
  import opened Text
  import opened Lines
  import opened Slugs
  import opened Frontmatter
  import opened Bundles
  import opened OkfBundles

  // -------------------------------------------------------------- checker

  datatype Issue = Issue(path: string, rule: string)

  predicate Digits(s: string) { s != "" && forall i :: 0 <= i < |s| ==> '0' <= s[i] <= '9' }

  /** "<major>.<minor>" */
  predicate Version(s: string) { exists i :: 0 < i < |s| - 1 && s[i] == '.' && Digits(s[..i]) && Digits(s[i + 1..]) }

  predicate VersionFits(v: Option<Value>) { v.Some? ==> v.value.Str? && Version(v.value.s) }

  /** Blank, a heading or a bullet. */
  predicate IndexLine(line: string) {
    var t := Trim(line);
    t == "" || t[0] == '#' || "* " <= t || "- " <= t
  }

  predicate IndexBody(body: string) { forall i :: 0 <= i < |Split(body, '\n')| ==> IndexLine(Split(body, '\n')[i]) }

  predicate IndexConforms(env: Env, f: File, isRoot: bool) {
    if "---" <= f.content then
      && isRoot
      && var p := ParseFrontmatter(env.yaml, f.content);
         p.Ok? && VersionFits(Field(p.value.data, "okf_version")) && IndexBody(p.value.content)
    else IndexBody(f.content)
  }

  predicate IsoDate(s: string) {
    |s| == 10 && s[4] == '-' && s[7] == '-' && Digits(s[..4]) && Digits(s[5..7]) && Digits(s[8..])
  }

  /** A character the pattern's dot does not match. */
  predicate LineEnd(c: char) { c == '\n' || c == '\r' || c as int == 0x2028 || c as int == 0x2029 }

  /** A heading "## ..." that is not an ISO 8601 date. */
  predicate BadHeading(line: string) {
    "## " <= line && |line| > 3 && (forall i :: 3 <= i < |line| ==> !LineEnd(line[i])) && !IsoDate(line[3..])
  }

  predicate LogConforms(content: string) {
    forall i :: 0 <= i < |Split(content, '\n')| ==> !BadHeading(Split(content, '\n')[i])
  }

  predicate DocConforms(env: Env, f: File) {
    && "---" <= f.content
    && var p := ParseFrontmatter(env.yaml, f.content);
       p.Ok? && NonEmpty(Field(p.value.data, "type"))
  }

  predicate Conforms(env: Env, f: File) {
    !IsMarkdown(f.path) ||
    (if Base(f.path) == "index.md" then IndexConforms(env, f, f.path == "index.md")
     else if Base(f.path) == "log.md" then LogConforms(f.content)
     else DocConforms(env, f))
  }

  /** What a document must have: a frontmatter that parses, with a type that is not empty. */
  lemma DocRule(env: Env, f: File)
    requires IsMarkdown(f.path) && Base(f.path) != "index.md" && Base(f.path) != "log.md"
    ensures Conforms(env, f) <==>
      "---" <= f.content && exists p, t ::
        ParseFrontmatter(env.yaml, f.content) == Ok(p) && Field(p.data, "type") == Some(Str(t)) && t != ""
  {
    if Conforms(env, f) {
      var p := ParseFrontmatter(env.yaml, f.content).value;
      assert ParseFrontmatter(env.yaml, f.content) == Ok(p);
      assert Field(p.data, "type") == Some(Str(Field(p.data, "type").value.s));
    }
  }

  predicate Date(s: string) {
    |s| == 10 && s[4] == '-' && s[7] == '-'
    && forall i :: 0 <= i < 10 && i != 4 && i != 7 ==> '0' <= s[i] <= '9'
  }

  lemma IsoDateIs(s: string)
    ensures IsoDate(s) <==> Date(s)
  {
    if Date(s) {
      forall i | 0 <= i < 4 ensures '0' <= s[..4][i] <= '9' { }
      forall i | 0 <= i < 2 ensures '0' <= s[5..7][i] <= '9' && '0' <= s[8..][i] <= '9' { }
    }
    if IsoDate(s) {
      forall i | 0 <= i < 10 && i != 4 && i != 7 ensures '0' <= s[i] <= '9' {
        assert i < 4 ==> s[..4][i] == s[i];
        assert 5 <= i < 7 ==> s[5..7][i - 5] == s[i];
        assert i >= 8 ==> s[8..][i - 8] == s[i];
      }
    }
  }

  /** What a log must not have: a second-level heading, on one line, that is not a date. */
  lemma LogRule(env: Env, f: File, text: string)
    requires IsMarkdown(f.path) && Base(f.path) == "log.md"
    requires text != ""
    requires forall i :: 0 <= i < |text| ==>
      text[i] != '\n' && text[i] != '\r' && text[i] as int != 0x2028 && text[i] as int != 0x2029
    ensures "## " + text in Split(f.content, '\n') && !Date(text) ==> !Conforms(env, f)
    ensures Split(f.content, '\n') == ["## " + text] && Date(text) ==> Conforms(env, f)
  {
    IsoDateIs(text);
    var line := "## " + text;
    assert line[3..] == text && line[..3] == "## ";
    assert forall i :: 3 <= i < |line| ==> line[i] == text[i - 3];
    if line in Split(f.content, '\n') {
      var k :| 0 <= k < |Split(f.content, '\n')| && Split(f.content, '\n')[k] == line;
      assert BadHeading(line) <==> !Date(text);
    }
  }

  /** Nothing, a heading, or a bullet. */
  predicate Listing(t: string) {
    t == "" || t[0] == '#' || (|t| >= 2 && (t[0] == '*' || t[0] == '-') && t[1] == ' ')
  }

  /** What an index must have: lines that are blank, headings or bullets; and frontmatter at the root only. */
  lemma IndexRule(env: Env, f: File)
    requires IsMarkdown(f.path) && Base(f.path) == "index.md"
    ensures Conforms(env, f) && "---" <= f.content ==> f.path == "index.md"
    ensures !("---" <= f.content) ==>
      (Conforms(env, f) <==> forall line :: line in Split(f.content, '\n') ==> Listing(Trim(line)))
    ensures Conforms(env, f) && "---" <= f.content ==>
      var p := ParseFrontmatter(env.yaml, f.content);
      p.Ok? && (Field(p.value.data, "okf_version").Some? ==> Field(p.value.data, "okf_version").value.Str?)
  {
    forall line ensures IndexLine(line) <==> Listing(Trim(line)) { }
  }

  method CheckIndex(env: Env, f: File, isRoot: bool) returns (issues: seq<Issue>)
    ensures issues == [] <==> IndexConforms(env, f, isRoot)
    ensures forall i :: 0 <= i < |issues| ==> issues[i].path == f.path
  {
    issues := [];
    var body := f.content;
    if "---" <= f.content {
      if !isRoot { issues := issues + [Issue(f.path, "index-frontmatter")]; }
      var p := ParseFrontmatter(env.yaml, f.content);
      if p.Err? { return issues + [Issue(f.path, "frontmatter-parse")]; }
      body := p.value.content;
      if !VersionFits(Field(p.value.data, "okf_version")) { issues := issues + [Issue(f.path, "okf-version")]; }
    }
    var lines := Split(body, '\n');
    for i := 0 to |lines|
      invariant forall k :: 0 <= k < i ==> IndexLine(lines[k])
    {
      if !IndexLine(lines[i]) { return issues + [Issue(f.path, "index-structure")]; }
    }
  }

  method CheckLog(f: File) returns (issues: seq<Issue>)
    ensures issues == [] <==> LogConforms(f.content)
    ensures forall i :: 0 <= i < |issues| ==> issues[i].path == f.path
  {
    issues := [];
    var lines := Split(f.content, '\n');
    for i := 0 to |lines|
      invariant issues == [] <==> forall k :: 0 <= k < i ==> !BadHeading(lines[k])
      invariant forall k :: 0 <= k < |issues| ==> issues[k].path == f.path
    {
      if BadHeading(lines[i]) { issues := issues + [Issue(f.path, "log-date")]; }
    }
  }

  method CheckDoc(env: Env, f: File) returns (issues: seq<Issue>)
    ensures issues == [] <==> DocConforms(env, f)
    ensures forall i :: 0 <= i < |issues| ==> issues[i].path == f.path
  {
    if !("---" <= f.content) { return [Issue(f.path, "frontmatter-required")]; }
    var p := ParseFrontmatter(env.yaml, f.content);
    if p.Err? { return [Issue(f.path, "frontmatter-parse")]; }
    if !NonEmpty(Field(p.value.data, "type")) { return [Issue(f.path, "type-required")]; }
    return [];
  }

  /** checkOkfConformance: no issue exactly when every file conforms, and every issue names a file that does not. */
  method CheckOkfConformance(env: Env, files: seq<File>) returns (issues: seq<Issue>)
    ensures issues == [] <==> Holds(Checker(env), files)
    ensures forall k :: 0 <= k < |issues| ==>
      exists i :: 0 <= i < |files| && files[i].path == issues[k].path && !Conforms(env, files[i])
  {
    issues := [];
    for i := 0 to |files|
      invariant issues == [] <==> forall k :: 0 <= k < i ==> Conforms(env, files[k])
      invariant forall k :: 0 <= k < |issues| ==>
        exists j :: 0 <= j < i && files[j].path == issues[k].path && !Conforms(env, files[j])
    {
      var f := files[i];
      if IsMarkdown(f.path) {
        var found;
        if Base(f.path) == "index.md" { found := CheckIndex(env, f, f.path == "index.md"); }
        else if Base(f.path) == "log.md" { found := CheckLog(f); }
        else { found := CheckDoc(env, f); }
        assert found == [] <==> Conforms(env, f);
        issues := issues + found;
      }
    }
  }

  // ---------------------------------------------------------------- index

  function Escape(s: string): string {
    if s == "" then "" else (if s[0] == '[' || s[0] == ']' then ['\\', s[0]] else [s[0]]) + Escape(s[1..])
  }

  /** inlineLinkText */
  function LinkText(s: string): string { Escape(Inline(s)) }

  function Bullet(text: string, link: string, description: string): string {
    "* [" + (text + ("](" + link + ") - " + description))
  }

  function ConceptBullet(c: Concept): string {
    Bullet(LinkText(c.title), "/concepts/" + c.slug + ".md", Inline(if c.summary != "" then c.summary else c.title))
  }

  function DecisionBullet(d: Decision): string {
    Bullet(LinkText(d.title), "/decisions/" + d.slug + ".md", Inline(d.title))
  }

  function SourceBullet(s: Source): string {
    Bullet(LinkText(if Given(s.title) then s.title.value else s.hash), "/sources/" + s.hash + ".md", s.kind + " source")
  }

  /** The lines an index has: a link in brackets to the file, and a one-line description. */
  lemma IndexShows(c: Concept, d: Decision, s: Source)
    ensures ConceptBullet(c)
      == "* [" + (LinkText(c.title)
                  + ("](" + ("/concepts/" + c.slug + ".md") + ") - "
                     + Inline(if c.summary == "" then c.title else c.summary)))
    ensures DecisionBullet(d)
      == "* [" + (LinkText(d.title) + ("](" + ("/decisions/" + d.slug + ".md") + ") - " + Inline(d.title)))
    ensures SourceBullet(s)
      == "* [" + (LinkText(if s.title.Some? && s.title.value != "" then s.title.value else s.hash)
                  + ("](" + ("/sources/" + s.hash + ".md") + ") - " + (s.kind + " source")))
  {
  }

  function Unescape(s: string): string {
    if |s| >= 2 && s[0] == '\\' && (s[1] == '[' || s[1] == ']') then [s[1]] + Unescape(s[2..])
    else if s == "" then "" else [s[0]] + Unescape(s[1..])
  }

  /** Escaping puts a backslash before every bracket, so that no bracket of a text closes its link. */
  lemma {:induction false} EscapeIsRead(s: string)
    requires Free(s, '\\')
    ensures Unescape(Escape(s)) == s
    ensures forall i :: 0 <= i < |Escape(s)| && (Escape(s)[i] == '[' || Escape(s)[i] == ']') ==>
      i > 0 && Escape(s)[i - 1] == '\\'
    decreases |s|
  {
    if s != "" {
      EscapeIsRead(s[1..]);
      var rest := Escape(s[1..]);
      if s[0] == '[' || s[0] == ']' {
        assert (['\\', s[0]] + rest)[2..] == rest;
      } else {
        assert ([s[0]] + rest)[1..] == rest;
      }
    }
  }

  function Section(heading: string, bullets: seq<string>): seq<string> {
    if bullets == [] then [] else [heading, ""] + bullets + [""]
  }

  function IndexSections(snap: Snapshot): seq<string> {
    Section("# Concepts", Map(ConceptBullet, snap.concepts))
      + Section("# Decisions", Map(DecisionBullet, snap.decisions))
    + Section("# Sources", Map(SourceBullet, snap.sources))
  }

  function IndexLines(snap: Snapshot): seq<string> {
    if IndexSections(snap) == [] then ["# Contents", ""] else IndexSections(snap)
  }

  function Manifest(o: Okf, s: Space): map<string, Value> {
    map["okf_version" := Str("0.1"), "generator" := Str(o.generator), "space" := Str(s.slug), "title" := Str(s.name)]
  }

  function OkfIndex(o: Okf, s: Space): string {
    SerializeFrontmatter(o.env.yaml, Obj(Manifest(o, s)), Join(IndexLines(s.snap), '\n'))
  }

  method PushBullets<T>(lines: seq<string>, heading: string, items: seq<T>,
    bullet: T -> string) returns (r: seq<string>)
    ensures r == lines + Section(heading, Map(bullet, items))
  {
    r := lines;
    if items != [] {
      r := r + [heading, ""];
      for i := 0 to |items|
        invariant r == lines + ([heading, ""] + Map(bullet, items[..i]))
      {
        MapUpto(bullet, items, i);
        r := r + [bullet(items[i])];
      }
      assert items[..|items|] == items;
      r := r + [""];
    }
  }

  /** renderOkfIndex */
  method RenderOkfIndex(o: Okf, s: Space) returns (content: string)
    ensures content == OkfIndex(o, s)
  {
    var lines: seq<string> := [];
    lines := PushBullets(lines, "# Concepts", s.snap.concepts, ConceptBullet);
    lines := PushBullets(lines, "# Decisions", s.snap.decisions, DecisionBullet);
    lines := PushBullets(lines, "# Sources", s.snap.sources, SourceBullet);
    assert lines == IndexSections(s.snap);
    if lines == [] { lines := lines + ["# Contents", ""]; }
    assert lines == IndexLines(s.snap);
    content := SerializeFrontmatter(o.env.yaml, Obj(Manifest(o, s)), Join(lines, '\n'));
  }

  // ------------------------------------------------------------------ log

  function JoinWith(parts: seq<string>, sep: string): string {
    if parts == [] then "" else if |parts| == 1 then parts[0] else parts[0] + sep + JoinWith(parts[1..], sep)
  }

  function Links(slugs: seq<string>): seq<string> {
    seq(|slugs|, i requires 0 <= i < |slugs| => "[" + slugs[i] + "](/concepts/" + slugs[i] + ".md)")
  }

  function Optional(name: string, s: string): seq<string> { if s == "" then [] else [name + s] }

  function LogParts(e: LogEntry): seq<string> {
    ["* **" + e.action + "**: " + e.title] + Optional("reviewer ", e.reviewer) + Optional("channel ", e.channel)
    + Optional("model ", e.model) + Optional("concepts ", JoinWith(Links(e.concepts), ", "))
  }

  function LogBullet(e: LogEntry): string { JoinWith(LogParts(e), " \U{2014} ") }

  /** Entries under date headings, a heading whenever the date changes. */
  function LogFrom(log: seq<LogEntry>, current: string): seq<string> {
    if log == [] then []
    else
      (if log[0].date != current then ["", "## " + log[0].date, ""] else [])
      + [LogBullet(log[0])] + LogFrom(log[1..], log[0].date)
  }

  /** The bullets of some lines, each with the date of the nearest heading above it. */
  function ReadBack(lines: seq<string>, current: string): seq<(string, string)> {
    if lines == [] then []
    else if lines[0] == "" then ReadBack(lines[1..], current)
    else if "## " <= lines[0] then ReadBack(lines[1..], lines[0][3..])
    else [(current, lines[0])] + ReadBack(lines[1..], current)
  }

  function DatedBullet(e: LogEntry): (string, string) { (e.date, LogBullet(e)) }

  lemma BulletIsNoHeading(e: LogEntry)
    ensures LogBullet(e) != "" && !("## " <= LogBullet(e))
  {
    var first := "* **" + e.action + "**: " + e.title;
    assert LogParts(e)[0] == first && first[0] == '*' && "## "[0] == '#';
    assert first <= LogBullet(e);
  }

  /** Every entry's bullet stands under its own date, in the order of the log. */
  lemma {:induction false} LogReadsBack(log: seq<LogEntry>, current: string)
    ensures ReadBack(LogFrom(log, current), current) == Map(DatedBullet, log)
    decreases |log|
  {
    if log != [] {
      var e, rest := log[0], LogFrom(log[1..], log[0].date);
      LogReadsBack(log[1..], e.date);
      BulletIsNoHeading(e);
      assert ([LogBullet(e)] + rest)[1..] == rest;
      assert ReadBack([LogBullet(e)] + rest, e.date) == [DatedBullet(e)] + Map(DatedBullet, log[1..]);
      assert Map(DatedBullet, log) == [DatedBullet(e)] + Map(DatedBullet, log[1..]);
      if e.date != current {
        HeadingIsRead(e.date, [LogBullet(e)] + rest, current);
        assert ["", "## " + e.date, ""] + [LogBullet(e)] + rest == ["", "## " + e.date, ""] + ([LogBullet(e)] + rest);
      } else {
        assert [] + [LogBullet(e)] + rest == [LogBullet(e)] + rest;
      }
    }
  }

  lemma HeadingIsRead(date: string, more: seq<string>, current: string)
    ensures ReadBack(["", "## " + date, ""] + more, current) == ReadBack(more, date)
  {
    var lines := ["", "## " + date, ""] + more;
    assert lines[1..] == ["## " + date, ""] + more && lines[1..][1..] == [""] + more && ([""] + more)[1..] == more;
    assert ("## " + date)[3..] == date && "## " <= "## " + date;
    assert ReadBack([""] + more, date) == ReadBack(more, date);
  }

  lemma JoinFew(a: string, b: string, sep: string)
    ensures JoinWith([a], sep) == a && JoinWith([a, b], sep) == a + sep + b
  {
    assert [a, b][1..] == [b];
  }

  /** A bullet's text: the action and the title, then what else is known, set off by dashes. */
  lemma BulletSays(e: LogEntry)
    ensures var first := "* **" + e.action + "**: " + e.title;
      && (e.reviewer == e.channel == e.model == "" && e.concepts == [] ==> LogBullet(e) == first)
      && (e.reviewer != "" && e.channel == e.model == "" && e.concepts == [] ==>
            LogBullet(e) == first + " \U{2014} " + ("reviewer " + e.reviewer))
      && (e.reviewer == e.model == "" && e.channel != "" && e.concepts == [] ==>
            LogBullet(e) == first + " \U{2014} " + ("channel " + e.channel))
      && (e.reviewer == e.channel == "" && e.model != "" && e.concepts == [] ==>
            LogBullet(e) == first + " \U{2014} " + ("model " + e.model))
  {
    var first := "* **" + e.action + "**: " + e.title;
    if e.concepts == [] {
      assert Links(e.concepts) == [];
      PartsAre(e);
      JoinFew(first, "reviewer " + e.reviewer, " \U{2014} ");
      JoinFew(first, "channel " + e.channel, " \U{2014} ");
      JoinFew(first, "model " + e.model, " \U{2014} ");
    }
  }

  lemma PartsAre(e: LogEntry)
    requires e.concepts == []
    ensures var first := "* **" + e.action + "**: " + e.title;
      && (e.reviewer == e.channel == e.model == "" ==> LogParts(e) == [first])
      && (e.reviewer != "" && e.channel == e.model == "" ==> LogParts(e) == [first, "reviewer " + e.reviewer])
      && (e.reviewer == e.model == "" && e.channel != "" ==> LogParts(e) == [first, "channel " + e.channel])
      && (e.reviewer == e.channel == "" && e.model != "" ==> LogParts(e) == [first, "model " + e.model])
  {
    assert Links(e.concepts) == [];
  }

  /** The concepts of an entry as links to their files, separated by commas. */
  lemma LinksSay(a: string, b: string)
    ensures Links([a, b]) == ["[" + a + "](/concepts/" + a + ".md)", "[" + b + "](/concepts/" + b + ".md)"]
    ensures JoinWith(Links([a, b]), ", ")
      == "[" + a + "](/concepts/" + a + ".md)" + ", " + ("[" + b + "](/concepts/" + b + ".md)")
  {
    JoinFew("[" + a + "](/concepts/" + a + ".md)", "[" + b + "](/concepts/" + b + ".md)", ", ");
    assert Links([a, b]) == ["[" + a + "](/concepts/" + a + ".md)", "[" + b + "](/concepts/" + b + ".md)"];
  }

  function LogLines(log: seq<LogEntry>): seq<string> { ["# Update Log"] + LogFrom(log, "") + [""] }

  function OkfLog(s: Space): string { Join(LogLines(s.log), '\n') }

  /** renderOkfLog */
  method RenderOkfLog(s: Space) returns (content: string)
    ensures content == OkfLog(s)
  {
    var lines := ["# Update Log"];
    var currentDate := "";
    for i := 0 to |s.log|
      invariant lines + LogFrom(s.log[i..], currentDate) == ["# Update Log"] + LogFrom(s.log, "")
    {
      var e := s.log[i];
      ghost var rest := s.log[i..];
      assert rest[0] == e && rest[1..] == s.log[i + 1..];
      ghost var was, before := lines, currentDate;
      if e.date != currentDate {
        currentDate := e.date;
        lines := lines + ["", "## " + e.date, ""];
      }
      lines := lines + [LogBullet(e)];
      assert lines + LogFrom(rest[1..], e.date) == was + LogFrom(rest, before);
    }
    assert s.log[|s.log|..] == [] && lines + [] == lines;
    assert lines == ["# Update Log"] + LogFrom(s.log, "");
    lines := lines + [""];
    assert lines == LogLines(s.log);
    content := Join(lines, '\n');
  }

  // ------------------------------------------------------- exports conform

  /** Slugs and hashes name files the format does not reserve. */
  predicate Named(snap: Snapshot) {
    && (forall i :: 0 <= i < |snap.concepts| ==> FileName(snap.concepts[i].slug) && Slug(snap.concepts[i].slug))
    && (forall i :: 0 <= i < |snap.decisions| ==> FileName(snap.decisions[i].slug) && Slug(snap.decisions[i].slug))
    && (forall i :: 0 <= i < |snap.sources| ==> FileName(snap.sources[i].hash) && SourceKind(snap.sources[i].kind))
  }

  predicate FileName(name: string) { Free(name, '/') && Free(name, '\n') && name != "index" && name != "log" }

  /** A log entry on one line, under an ISO date. */
  predicate PlainEntry(e: LogEntry) {
    && IsoDate(e.date) && Free(e.date, '\n') && Free(e.action, '\n') && Free(e.title, '\n') && Free(e.reviewer, '\n')
    && Free(e.channel, '\n') && Free(e.model, '\n') && forall i :: 0 <= i < |e.concepts| ==> Free(e.concepts[i], '\n')
  }

  predicate PlainLog(log: seq<LogEntry>) { forall i :: 0 <= i < |log| ==> PlainEntry(log[i]) }

  lemma {:induction false} EscapeIsOneLine(s: string)
    requires Free(s, '\n')
    ensures Free(Escape(s), '\n')
    decreases |s|
  {
    if s != "" { EscapeIsOneLine(s[1..]); }
  }

  lemma LinkTextIsOneLine(s: string)
    ensures Free(LinkText(s), '\n') && Free(Inline(s), '\n')
  {
    InlineIsOneLine(s);
    EscapeIsOneLine(Inline(s));
  }

  lemma ConcatIsOneLine(a: string, b: string)
    requires Free(a, '\n') && Free(b, '\n')
    ensures Free(a + b, '\n')
  {
  }

  /** A line that starts with a bullet and a bracket stays a bullet when trimmed. */
  lemma BulletLine(rest: string)
    ensures IndexLine("* [" + rest)
  {
    var line := "* [" + rest;
    assert TrimStart(line) == line;
    TrimEndShape(line);
    TrimEndKeeps(line, 2);
    assert Trim(line)[..2] == line[..2] == "* ";
  }

  lemma HeadingLine(rest: string)
    ensures IndexLine("#" + rest)
  {
    var line := "#" + rest;
    assert TrimStart(line) == line;
    TrimEndShape(line);
    TrimEndKeeps(line, 0);
  }

  predicate AllIndexLines(lines: seq<string>) {
    forall i :: 0 <= i < |lines| ==> Free(lines[i], '\n') && IndexLine(lines[i])
  }

  lemma BulletFits(text: string, link: string, description: string)
    requires Free(text, '\n') && Free(link, '\n') && Free(description, '\n')
    ensures Free(Bullet(text, link, description), '\n') && IndexLine(Bullet(text, link, description))
  {
    var tail := "](" + link + ") - " + description;
    ConcatIsOneLine("](" + link, ") - " + description);
    assert tail == ("](" + link) + (") - " + description);
    ConcatIsOneLine(text, tail);
    ConcatIsOneLine("* [", text + tail);
    BulletLine(text + tail);
  }

  lemma LinkIsOneLine(dir: string, name: string)
    requires Free(dir, '\n') && Free(name, '\n')
    ensures Free(dir + name + ".md", '\n')
  {
  }

  lemma ConceptBulletFits(c: Concept)
    requires FileName(c.slug)
    ensures Free(ConceptBullet(c), '\n') && IndexLine(ConceptBullet(c))
  {
    LinkTextIsOneLine(c.title);
    LinkTextIsOneLine(c.summary);
    LinkIsOneLine("/concepts/", c.slug);
    BulletFits(LinkText(c.title), "/concepts/" + c.slug + ".md",
      Inline(if c.summary != "" then c.summary else c.title));
  }

  lemma DecisionBulletFits(d: Decision)
    requires FileName(d.slug)
    ensures Free(DecisionBullet(d), '\n') && IndexLine(DecisionBullet(d))
  {
    LinkTextIsOneLine(d.title);
    LinkIsOneLine("/decisions/", d.slug);
    BulletFits(LinkText(d.title), "/decisions/" + d.slug + ".md", Inline(d.title));
  }

  lemma SourceBulletFits(s: Source)
    requires FileName(s.hash) && SourceKind(s.kind)
    ensures Free(SourceBullet(s), '\n') && IndexLine(SourceBullet(s))
  {
    var text := if Given(s.title) then s.title.value else s.hash;
    LinkTextIsOneLine(text);
    LinkIsOneLine("/sources/", s.hash);
    KindIsOneLine(s.kind);
    BulletFits(LinkText(text), "/sources/" + s.hash + ".md", s.kind + " source");
  }

  lemma KindIsOneLine(kind: string)
    requires SourceKind(kind)
    ensures Free(kind + " source", '\n')
  {
    assert Free(kind, '\n');
    ConcatIsOneLine(kind, " source");
  }

  lemma SectionFits(heading: string, bullets: seq<string>)
    requires Free(heading, '\n') && IndexLine(heading) && AllIndexLines(bullets)
    ensures AllIndexLines(Section(heading, bullets))
  {
    assert IndexLine("");
  }

  lemma HeadingsFit()
    ensures IndexLine("# Concepts") && IndexLine("# Decisions") && IndexLine("# Sources")
  {
    HeadingLine(" Concepts");
    HeadingLine(" Decisions");
    HeadingLine(" Sources");
    assert "#" + " Concepts" == "# Concepts" && "#" + " Decisions" == "# Decisions" && "#" + " Sources" == "# Sources";
  }

  lemma IndexFits(snap: Snapshot)
    requires Named(snap)
    ensures AllIndexLines(IndexLines(snap)) && IndexLines(snap) != []
  {
    SectionsFit(snap);
    EmptyIndexFits();
  }

  lemma SectionsFit(snap: Snapshot)
    requires Named(snap)
    ensures AllIndexLines(IndexSections(snap))
  {
    BulletsFit(snap);
    var cs, ds, ss := Map(ConceptBullet, snap.concepts), Map(DecisionBullet, snap.decisions),
      Map(SourceBullet, snap.sources);
    ThreeSectionsFit(cs, ds, ss);
    assert IndexSections(snap) == Section("# Concepts", cs) + Section("# Decisions", ds) + Section("# Sources", ss);
  }

  lemma ThreeSectionsFit(cs: seq<string>, ds: seq<string>, ss: seq<string>)
    requires AllIndexLines(cs) && AllIndexLines(ds) && AllIndexLines(ss)
    ensures AllIndexLines(Section("# Concepts", cs) + Section("# Decisions", ds) + Section("# Sources", ss))
  {
    HeadingsFit();
    SectionFits("# Concepts", cs);
    SectionFits("# Decisions", ds);
    SectionFits("# Sources", ss);
    TogetherFit(Section("# Concepts", cs), Section("# Decisions", ds), Section("# Sources", ss));
  }

  lemma EmptyIndexFits()
    ensures AllIndexLines(["# Contents", ""])
  {
    HeadingLine(" Contents");
    assert IndexLine("");
  }

  lemma TogetherFit(a: seq<string>, b: seq<string>, c: seq<string>)
    requires AllIndexLines(a) && AllIndexLines(b) && AllIndexLines(c)
    ensures AllIndexLines(a + b + c)
  {
  }

  lemma BulletsFit(snap: Snapshot)
    requires Named(snap)
    ensures AllIndexLines(Map(ConceptBullet, snap.concepts)) && AllIndexLines(Map(DecisionBullet, snap.decisions))
    ensures AllIndexLines(Map(SourceBullet, snap.sources))
  {
    var cs, ds, ss := Map(ConceptBullet, snap.concepts), Map(DecisionBullet, snap.decisions),
      Map(SourceBullet, snap.sources);
    forall i | 0 <= i < |cs| ensures Free(cs[i], '\n') && IndexLine(cs[i]) { ConceptBulletFits(snap.concepts[i]); }
    forall i | 0 <= i < |ds| ensures Free(ds[i], '\n') && IndexLine(ds[i]) { DecisionBulletFits(snap.decisions[i]); }
    forall i | 0 <= i < |ss| ensures Free(ss[i], '\n') && IndexLine(ss[i]) { SourceBulletFits(snap.sources[i]); }
  }

  lemma VersionIsPinned()
    ensures Version("0.1")
  {
    var s := "0.1";
    assert s[1] == '.' && s[..1] == "0" && s[2..] == "1" && Digits("0") && Digits("1");
  }

  lemma IndexIsFine(env: Env, f: File, p: Parsed)
    requires "---" <= f.content && ParseFrontmatter(env.yaml, f.content) == Ok(p)
    requires VersionFits(Field(p.data, "okf_version")) && IndexBody(p.content)
    ensures IndexConforms(env, f, true)
  {
  }

  lemma ManifestParses(o: Okf, s: Space)
    requires OkfSane(o)
    ensures ParseFrontmatter(o.env.yaml, OkfIndex(o, s))
      == Ok(Parsed(Obj(Manifest(o, s)), Join(IndexLines(s.snap), '\n')))
    ensures "---" <= OkfIndex(o, s)
  {
    assert "space" in Manifest(o, s);
    FrontmatterRoundTrips(o.env.yaml, Obj(Manifest(o, s)), Join(IndexLines(s.snap), '\n'));
    Fenced(o.env.yaml, Obj(Manifest(o, s)), Join(IndexLines(s.snap), '\n'));
  }

  lemma ManifestVersion(o: Okf, s: Space)
    ensures VersionFits(Field(Obj(Manifest(o, s)), "okf_version"))
  {
    VersionIsPinned();
  }

  lemma IndexBodyFits(snap: Snapshot)
    requires Named(snap)
    ensures IndexBody(Join(IndexLines(snap), '\n'))
  {
    IndexFits(snap);
    SplitJoin(IndexLines(snap), '\n');
  }

  lemma IndexConformsAlways(o: Okf, s: Space)
    requires OkfSane(o) && Named(s.snap)
    ensures IndexConforms(o.env, File("index.md", OkfIndex(o, s)), true)
  {
    ManifestParses(o, s);
    ManifestVersion(o, s);
    IndexBodyFits(s.snap);
    IndexIsFine(o.env, File("index.md", OkfIndex(o, s)), Parsed(Obj(Manifest(o, s)), Join(IndexLines(s.snap), '\n')));
  }

  lemma Fenced(yaml: Yaml, data: Value, body: string)
    requires data.Obj? && data.fields != map[]
    ensures "---" <= SerializeFrontmatter(yaml, data, body)
  {
    assert SerializeFrontmatter(yaml, data, body)[..3] == "---";
  }

  // the log

  lemma {:induction false} JoinWithIsOneLine(parts: seq<string>, sep: string)
    requires AllFree(parts, '\n') && Free(sep, '\n')
    ensures Free(JoinWith(parts, sep), '\n')
    decreases |parts|
  {
    if |parts| > 1 { JoinWithIsOneLine(parts[1..], sep); }
  }

  lemma JoinWithStarts(first: string, rest: seq<string>, sep: string)
    ensures first <= JoinWith([first] + rest, sep)
  {
  }

  lemma OptionalIsOneLine(name: string, s: string)
    requires Free(name, '\n') && Free(s, '\n')
    ensures AllFree(Optional(name, s), '\n')
  {
    ConcatIsOneLine(name, s);
  }

  lemma LogPartsFit(e: LogEntry)
    requires PlainEntry(e)
    ensures AllFree(LogParts(e), '\n') && LogParts(e) != [] && LogParts(e)[0] != "" && LogParts(e)[0][0] == '*'
  {
    var links := Links(e.concepts);
    forall i | 0 <= i < |links| ensures Free(links[i], '\n') { LinkFits(e.concepts[i]); }
    JoinWithIsOneLine(links, ", ");
    OptionalIsOneLine("reviewer ", e.reviewer);
    OptionalIsOneLine("channel ", e.channel);
    OptionalIsOneLine("model ", e.model);
    OptionalIsOneLine("concepts ", JoinWith(links, ", "));
    ConcatIsOneLine("* **", e.action + "**: " + e.title);
    assert LogParts(e)[0] == "* **" + (e.action + "**: " + e.title);
  }

  lemma LinkFits(slug: string)
    requires Free(slug, '\n')
    ensures Free("[" + slug + "](/concepts/" + slug + ".md)", '\n')
  {
  }

  lemma LogBulletFits(e: LogEntry)
    requires PlainEntry(e)
    ensures Free(LogBullet(e), '\n') && !BadHeading(LogBullet(e))
  {
    var parts := LogParts(e);
    LogPartsFit(e);
    JoinWithIsOneLine(parts, " \U{2014} ");
    assert parts == [parts[0]] + parts[1..];
    JoinWithStarts(parts[0], parts[1..], " \U{2014} ");
    assert LogBullet(e)[0] == '*';
  }

  /** No line of the text is a bad heading. */
  predicate Fits(text: string) { forall i :: 0 <= i < |Split(text, '\n')| ==> !BadHeading(Split(text, '\n')[i]) }

  predicate AllFit(lines: seq<string>) { forall i :: 0 <= i < |lines| ==> Fits(lines[i]) }

  /**
   * The condition on an entry: its date's heading is fine, and no line its text runs on to
   * is a bad heading. The first line of its bullet never is.
   */
  predicate EntryFits(e: LogEntry) {
    Fits("## " + e.date) && forall i :: 1 <= i < |Split(LogBullet(e), '\n')| ==>
      !BadHeading(Split(LogBullet(e), '\n')[i])
  }

  predicate EntriesFit(log: seq<LogEntry>) { forall i :: 0 <= i < |log| ==> EntryFits(log[i]) }

  lemma {:induction false} JoinFits(lines: seq<string>)
    requires lines != []
    ensures Fits(Join(lines, '\n')) <==> AllFit(lines)
    decreases |lines|
  {
    if |lines| > 1 {
      JoinFits(lines[1..]);
      TwoFit(lines[0], Join(lines[1..], '\n'));
      assert AllFit(lines) <==> Fits(lines[0]) && AllFit(lines[1..]) by { FirstFits(lines); }
    }
  }

  lemma TwoFit(a: string, b: string)
    ensures Fits(a + ['\n'] + b) <==> Fits(a) && Fits(b)
  {
    SplitConcat(a, b, '\n');
    var x, y := Split(a, '\n'), Split(b, '\n');
    if Fits(a + ['\n'] + b) {
      forall i | 0 <= i < |x| ensures !BadHeading(x[i]) { assert (x + y)[i] == x[i]; }
      forall i | 0 <= i < |y| ensures !BadHeading(y[i]) { assert (x + y)[|x| + i] == y[i]; }
    }
  }

  lemma FirstFits(lines: seq<string>)
    requires lines != []
    ensures AllFit(lines) <==> Fits(lines[0]) && AllFit(lines[1..])
  {
    if Fits(lines[0]) && AllFit(lines[1..]) {
      forall i | 0 <= i < |lines| ensures Fits(lines[i]) { if i > 0 { assert lines[i] == lines[1..][i - 1]; } }
    }
  }

  lemma BothFit(a: seq<string>, b: seq<string>)
    ensures AllFit(a + b) <==> AllFit(a) && AllFit(b)
  {
    if AllFit(a + b) {
      forall i | 0 <= i < |a| ensures Fits(a[i]) { assert (a + b)[i] == a[i]; }
      forall i | 0 <= i < |b| ensures Fits(b[i]) { assert (a + b)[|a| + i] == b[i]; }
    }
  }

  lemma OneLineFits(line: string)
    requires Free(line, '\n')
    ensures Fits(line) <==> !BadHeading(line)
  {
    SplitJoin([line], '\n');
    assert Join([line], '\n') == line;
  }

  /** A bullet starts with an asterisk, so only what follows its first line break counts. */
  lemma BulletFitsAfterBreak(e: LogEntry)
    ensures Fits(LogBullet(e)) <==> forall i :: 1 <= i < |Split(LogBullet(e), '\n')| ==>
      !BadHeading(Split(LogBullet(e), '\n')[i])
  {
    var parts, text := LogParts(e), LogBullet(e);
    assert parts == [parts[0]] + parts[1..] && parts[0][0] == '*';
    JoinWithStarts(parts[0], parts[1..], " \U{2014} ");
    assert text[0] == '*';
    HeadSize(text, '\n');
    assert Split(text, '\n')[0] == Head(text, '\n') && Head(text, '\n')[0] == '*';
  }

  lemma SingleFits(line: string)
    ensures AllFit([line]) <==> Fits(line)
  {
    assert [line][0] == line;
  }

  lemma HeadingFits(heading: string)
    ensures AllFit(["", heading, ""]) <==> Fits(heading)
  {
    OneLineFits("");
    var lines := ["", heading, ""];
    assert lines[1] == heading;
    assert Fits(lines[0]) && Fits(lines[2]);
  }

  lemma {:induction false} LogFitsExactly(log: seq<LogEntry>, current: string)
    requires Fits("## " + current)
    ensures AllFit(LogFrom(log, current)) <==> EntriesFit(log)
    decreases |log|
  {
    if log != [] {
      var e := log[0];
      var heading := if e.date != current then ["", "## " + e.date, ""] else [];
      if e.date != current { HeadingFits("## " + e.date); }
      BulletFitsAfterBreak(e);
      SingleFits(LogBullet(e));
      BothFit(heading + [LogBullet(e)], LogFrom(log[1..], e.date));
      BothFit(heading, [LogBullet(e)]);
      if Fits("## " + e.date) { LogFitsExactly(log[1..], e.date); }
      FirstEntryFits(log);
    }
  }

  lemma FirstEntryFits(log: seq<LogEntry>)
    requires log != []
    ensures EntriesFit(log) <==> EntryFits(log[0]) && EntriesFit(log[1..])
  {
    if EntryFits(log[0]) && EntriesFit(log[1..]) {
      forall i | 0 <= i < |log| ensures EntryFits(log[i]) { if i > 0 { assert log[i] == log[1..][i - 1]; } }
    }
  }

  /** The log an export derives conforms exactly when every entry does. */
  lemma LogConformsExactly(s: Space)
    ensures LogConforms(OkfLog(s)) <==> EntriesFit(s.log)
  {
    var title := "# Update Log";
    assert title[1] == ' ' && !BadHeading(title);
    OneLineFits(title);
    OneLineFits("");
    OneLineFits("## " + "");
    LogFitsExactly(s.log, "");
    BothFit([title], LogFrom(s.log, ""));
    BothFit([title] + LogFrom(s.log, ""), [""]);
    JoinFits(LogLines(s.log));
  }

  /** For a date without line breaks that means: none, or in ISO 8601 form. */
  lemma DateFitsExactly(date: string)
    requires forall i :: 0 <= i < |date| ==> !LineEnd(date[i])
    ensures Fits("## " + date) <==> date == "" || IsoDate(date)
  {
    OneLineFits("## " + date);
    assert ("## " + date)[3..] == date;
    assert forall i :: 3 <= i < |"## " + date| ==> ("## " + date)[i] == date[i - 3];
  }

  /** Single-line texts under ISO dates always do. */
  lemma LogConformsWhenPlain(s: Space)
    requires PlainLog(s.log)
    ensures LogConforms(OkfLog(s))
  {
    forall i | 0 <= i < |s.log| ensures EntryFits(s.log[i]) {
      assert PlainEntry(s.log[i]);
      PlainEntryFits(s.log[i]);
    }
    LogConformsExactly(s);
  }

  lemma PlainEntryFits(e: LogEntry)
    requires PlainEntry(e)
    ensures EntryFits(e)
  {
    LogBulletFits(e);
    OneLineFits(LogBullet(e));
    BulletFitsAfterBreak(e);
    DateHeadingFits(e.date);
    OneLineFits("## " + e.date);
  }

  lemma DateHeadingFits(date: string)
    requires IsoDate(date) && Free(date, '\n')
    ensures Free("## " + date, '\n') && !BadHeading("## " + date)
  {
    assert ("## " + date)[3..] == date;
  }

  /** Wherever it stands in the log, an entry whose text runs on to a bad heading breaks conformance. */
  lemma BrokenEntryFails(s: Space, i: nat, first: string, second: string)
    requires i < |s.log| && LogBullet(s.log[i]) == first + ['\n'] + second && Free(second, '\n') && BadHeading(second)
    ensures !LogConforms(OkfLog(s))
  {
    TwoFit(first, second);
    OneLineFits(second);
    BulletFitsAfterBreak(s.log[i]);
    assert !EntryFits(s.log[i]);
    LogConformsExactly(s);
  }

  /** A title with a line break, as an example. */
  lemma LogTitlesMustBeSingleLines(s: Space)
    requires s.log == [LogEntry("2026-01-31", "Approved", "a\n## b", "", "", "", [])]
    ensures !LogConforms(OkfLog(s))
  {
    var e := s.log[0];
    var first, second := "* **Approved**: a", "## b";
    assert JoinWith(Links(e.concepts), ", ") == "";
    var parts := ["* **" + "Approved" + "**: " + "a\n## b"];
    assert LogParts(e) == parts + [] + [] + [] + [] == parts;
    assert LogBullet(e) == parts[0] == first + ['\n'] + second;
    assert second[3] == 'b' && |second[3..]| == 1;
    BrokenEntryFails(s, 0, first, second);
  }

  // documents

  lemma DocPath(dir: string, name: string, path: string)
    requires Free(dir, '/') && FileName(name) && path == dir + "/" + name + ".md"
    ensures IsMarkdown(path) && Base(path) != "index.md" && Base(path) != "log.md"
  {
    FiledPath(dir, name);
  }

  /** The checker as a function of the file. */
  function Checker(env: Env): File -> bool { f => Conforms(env, f) }

  lemma DocIsFine(env: Env, f: File, p: Parsed)
    requires IsMarkdown(f.path) && Base(f.path) != "index.md" && Base(f.path) != "log.md"
    requires "---" <= f.content && ParseFrontmatter(env.yaml, f.content) == Ok(p) && NonEmpty(Field(p.data, "type"))
    ensures Checker(env)(f)
  {
  }

  lemma ConceptDocFacts(o: Okf, c: Concept)
    requires FileName(c.slug)
    ensures IsMarkdown(ConceptDoc(o, c).path) && Base(ConceptDoc(o, c).path) != "index.md"
      && Base(ConceptDoc(o, c).path) != "log.md"
    ensures "---" <= ConceptDoc(o, c).content && NonEmpty(Field(Obj(ConceptOkf(c)), "type"))
  {
    DocPath("concepts", c.slug, ConceptDoc(o, c).path);
    ConceptDocFields(c);
    Fenced(o.env.yaml, Obj(ConceptOkf(c)), c.markdown);
  }

  lemma DecisionDocFacts(o: Okf, d: Decision)
    requires FileName(d.slug)
    ensures IsMarkdown(DecisionDoc(o, d).path) && Base(DecisionDoc(o, d).path) != "index.md"
      && Base(DecisionDoc(o, d).path) != "log.md"
    ensures "---" <= DecisionDoc(o, d).content && NonEmpty(Field(Obj(DecisionOkf(d)), "type"))
  {
    DocPath("decisions", d.slug, DecisionDoc(o, d).path);
    DecisionDocFields(d);
    Fenced(o.env.yaml, Obj(DecisionOkf(d)), DecisionBody(o, d));
  }

  lemma SourceDocFacts(o: Okf, s: Source)
    requires FileName(s.hash)
    ensures IsMarkdown(SourceDoc(o, s).path) && Base(SourceDoc(o, s).path) != "index.md"
      && Base(SourceDoc(o, s).path) != "log.md"
    ensures "---" <= SourceDoc(o, s).content && NonEmpty(Field(Obj(SourceOkf(s)), "type"))
  {
    DocPath("sources", s.hash, SourceDoc(o, s).path);
    SourceDocFields(s);
    Fenced(o.env.yaml, Obj(SourceOkf(s)), s.content);
  }

  lemma ConceptConforms(o: Okf, c: Concept)
    requires OkfSane(o) && FileName(c.slug)
    ensures Checker(o.env)(ConceptDoc(o, c))
  {
    ConceptDocFacts(o, c);
    ConceptParses(o, c);
    DocIsFine(o.env, ConceptDoc(o, c), Parsed(Obj(ConceptOkf(c)), c.markdown));
  }

  lemma DecisionConforms(o: Okf, d: Decision)
    requires OkfSane(o) && FileName(d.slug)
    ensures Checker(o.env)(DecisionDoc(o, d))
  {
    DecisionDocFacts(o, d);
    DecisionParses(o, d);
    DocIsFine(o.env, DecisionDoc(o, d), Parsed(Obj(DecisionOkf(d)), DecisionBody(o, d)));
  }

  lemma SourceConforms(o: Okf, s: Source)
    requires OkfSane(o) && FileName(s.hash)
    ensures Checker(o.env)(SourceDoc(o, s))
  {
    SourceDocFacts(o, s);
    SourceParses(o, s);
    DocIsFine(o.env, SourceDoc(o, s), Parsed(Obj(SourceOkf(s)), s.content));
  }

  lemma IndexFileIsFine(env: Env, f: File)
    requires f.path == "index.md" && IndexConforms(env, f, true)
    ensures Checker(env)(f)
  {
    NameHasNoSlash("index.md");
  }

  lemma LogFileIsFine(env: Env, f: File)
    requires f.path == "log.md"
    ensures Checker(env)(f) <==> LogConforms(f.content)
  {
    NameHasNoSlash("log.md");
  }

  lemma HeadConforms(o: Okf, s: Space)
    requires OkfSane(o) && Named(s.snap)
    ensures Checker(o.env)(File("index.md", OkfIndex(o, s)))
    ensures Checker(o.env)(File("log.md", OkfLog(s))) <==> EntriesFit(s.log)
  {
    IndexConformsAlways(o, s);
    IndexFileIsFine(o.env, File("index.md", OkfIndex(o, s)));
    LogConformsExactly(s);
    LogFileIsFine(o.env, File("log.md", OkfLog(s)));
  }

  predicate Holds<T>(ok: T -> bool, items: seq<T>) { forall i :: 0 <= i < |items| ==> ok(items[i]) }

  lemma HoldsSorted<T>(ok: T -> bool, items: seq<T>, key: T -> string, before: (string, string) -> bool)
    requires Holds(ok, items)
    ensures Holds(ok, SortBy(items, key, before))
  {
    SortByPermutes(items, key, before);
    var r := SortBy(items, key, before);
    forall i | 0 <= i < |r| ensures ok(r[i]) {
      assert r[i] in multiset(r) && r[i] in multiset(items);
      var k :| 0 <= k < |items| && items[k] == r[i];
    }
  }

  lemma HoldsMapped<T>(ok: File -> bool, items: seq<T>, toFile: T -> File)
    requires forall i :: 0 <= i < |items| ==> ok(toFile(items[i]))
    ensures Holds(ok, Map(toFile, items))
  {
  }

  lemma HoldsTogether<T>(ok: T -> bool, a: seq<T>, b: seq<T>, c: seq<T>, d: seq<T>)
    requires Holds(ok, b) && Holds(ok, c) && Holds(ok, d)
    ensures Holds(ok, a + b + c + d) <==> Holds(ok, a)
  {
    if Holds(ok, a + b + c + d) {
      forall i | 0 <= i < |a| ensures ok(a[i]) { assert (a + b + c + d)[i] == a[i]; }
    }
  }

  lemma ConceptDocsConform(o: Okf, cs: seq<Concept>)
    requires OkfSane(o) && forall i :: 0 <= i < |cs| ==> FileName(cs[i].slug)
    ensures Holds(Checker(o.env), Map(ToConceptDoc(o), BySlug(o.env, cs)))
  {
    var sorted := BySlug(o.env, cs);
    HoldsSorted((c: Concept) => FileName(c.slug), cs, (c: Concept) => c.slug, o.env.before);
    forall i | 0 <= i < |sorted| ensures Checker(o.env)(ToConceptDoc(o)(sorted[i])) { ConceptConforms(o, sorted[i]); }
    HoldsMapped(Checker(o.env), sorted, ToConceptDoc(o));
  }

  lemma DecisionDocsConform(o: Okf, ds: seq<Decision>)
    requires OkfSane(o) && forall i :: 0 <= i < |ds| ==> FileName(ds[i].slug)
    ensures Holds(Checker(o.env), Map(ToDecisionDoc(o), DecisionsBySlug(o.env, ds)))
  {
    var sorted := DecisionsBySlug(o.env, ds);
    HoldsSorted((d: Decision) => FileName(d.slug), ds, (d: Decision) => d.slug, o.env.before);
    forall i | 0 <= i < |sorted| ensures Checker(o.env)(ToDecisionDoc(o)(sorted[i])) { DecisionConforms(o, sorted[i]); }
    HoldsMapped(Checker(o.env), sorted, ToDecisionDoc(o));
  }

  lemma SourceDocsConform(o: Okf, ss: seq<Source>)
    requires OkfSane(o) && forall i :: 0 <= i < |ss| ==> FileName(ss[i].hash)
    ensures Holds(Checker(o.env), Map(ToSourceDoc(o), ByHash(o.env, ss)))
  {
    var sorted := ByHash(o.env, ss);
    HoldsSorted((s: Source) => FileName(s.hash), ss, (x: Source) => x.hash, o.env.before);
    forall i | 0 <= i < |sorted| ensures Checker(o.env)(ToSourceDoc(o)(sorted[i])) { SourceConforms(o, sorted[i]); }
    HoldsMapped(Checker(o.env), sorted, ToSourceDoc(o));
  }

  /** Every file of an export conforms, whatever its titles and summaries hold, exactly when the log's entries do. */
  lemma ExportConforms(o: Okf, s: Space)
    requires OkfSane(o) && Named(s.snap)
    ensures Holds(Checker(o.env), Files(s.snap, o.env, OkfIndex(o, s), OkfLog(s), ToConceptDoc(o), ToDecisionDoc(o),
      ToSourceDoc(o)))
      <==> EntriesFit(s.log)
  {
    HeadConforms(o, s);
    ConceptDocsConform(o, s.snap.concepts);
    DecisionDocsConform(o, s.snap.decisions);
    SourceDocsConform(o, s.snap.sources);
    FilesHold(Checker(o.env), s.snap, o.env, OkfIndex(o, s), OkfLog(s), ToConceptDoc(o), ToDecisionDoc(o),
      ToSourceDoc(o));
  }

  lemma FilesHold(ok: File -> bool, snap: Snapshot, env: Env, index: string, log: string, cf: Concept -> File,
    df: Decision -> File,
                  sf: Source -> File)
    requires ok(File("index.md", index)) && Holds(ok, Map(cf, BySlug(env, snap.concepts)))
    requires Holds(ok, Map(df, DecisionsBySlug(env, snap.decisions))) && Holds(ok, Map(sf, ByHash(env, snap.sources)))
    ensures Holds(ok, Files(snap, env, index, log, cf, df, sf)) <==> ok(File("log.md", log))
  {
    var head := [File("index.md", index), File("log.md", log)];
    assert Holds(ok, head) <==> ok(head[0]) && ok(head[1]);
    HoldsTogether(ok, head, Map(cf, BySlug(env, snap.concepts)),
                  Map(df, DecisionsBySlug(env, snap.decisions)), Map(sf, ByHash(env, snap.sources)));
  }

  /** serialize */
  method SerializeOkf(o: Okf, s: Space) returns (files: seq<File>)
    ensures files == Files(s.snap, o.env, OkfIndex(o, s), OkfLog(s), ToConceptDoc(o), ToDecisionDoc(o), ToSourceDoc(o))
  {
    var index := RenderOkfIndex(o, s);
    var log := RenderOkfLog(s);
    files := [File("index.md", index), File("log.md", log)];
    files := Push(files, BySlug(o.env, s.snap.concepts), ToConceptDoc(o));
    files := Push(files, DecisionsBySlug(o.env, s.snap.decisions), ToDecisionDoc(o));
    files := Push(files, ByHash(o.env, s.snap.sources), ToSourceDoc(o));
  }

  /**
   * An export passes the format's own checker, whatever its titles and summaries hold, exactly when its
   * log's entries fit.
   */
  method ExportPassesCheck(o: Okf, s: Space) returns (files: seq<File>, issues: seq<Issue>)
    requires OkfSane(o) && Named(s.snap)
    ensures issues == [] <==> EntriesFit(s.log)
  {
    files := SerializeOkf(o, s);
    ExportConforms(o, s);
    issues := CheckOkfConformance(o.env, files);
  }
}
