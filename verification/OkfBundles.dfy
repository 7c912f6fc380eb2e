/**
 * The Open Knowledge Format adapter (src/export/okf.ts).
 *
 * The same space in the layout of Open Knowledge Format v0.1, and the tree read back:
 * documents are classified by their type and their place.
 */
module OkfBundles {
  import opened Wrappers
  import opened Text
  import opened Lines
  import opened Slugs
  import opened Frontmatter
  import opened Bundles

  datatype LogEntry = LogEntry(date: string, action: string, title: string, reviewer: string, channel: string,
    model: string, concepts: seq<string>)

  /** Absent reviewer, channel and model are empty texts. */
  datatype Space = Space(slug: string, name: string, snap: Snapshot, log: seq<LogEntry>)

  /** alternative renders one rejected alternative for the readable body of a decision. */
  datatype Okf = Okf(env: Env, generator: string, alternative: Value -> string)

  ghost predicate OkfSane(o: Okf) {
    Sane(o.env) && o.env.lower("Concept") == "concept" && o.env.lower("Decision") == "decision"
      && o.env.lower("Source") == "source"
  }

  // ------------------------------------------------------------ documents

  function ConceptExtension(c: Concept): map<string, Value> {
    With(With(map[], c.claims != [], "claims", ClaimsValue(c.claims)), c.relations != [], "relations",
      RelationsValue(c.relations))
  }

  function ConceptOkf(c: Concept): map<string, Value> {
    With(With(map["type" := Str("Concept"), "title" := Str(c.title)], c.summary != "", "description", Str(c.summary)),
         ConceptExtension(c) != map[], "wikikit", Obj(ConceptExtension(c)))
  }

  function DecisionExtension(d: Decision): map<string, Value> {
    With(With(map["status" := Str(d.status), "context" := Str(d.context), "decision" := Str(d.decision)],
              d.rationale != "", "rationale", Str(d.rationale)),
         d.alternatives != [], "alternatives", Arr(d.alternatives))
  }

  function DecisionOkf(d: Decision): map<string, Value> {
    map["type" := Str("Decision"), "title" := Str(d.title), "wikikit" := Obj(DecisionExtension(d))]
  }

  function SourceOkf(s: Source): map<string, Value> {
    With(With(map["type" := Str("Source"), "wikikit" := Obj(map["kind" := Str(s.kind)])],
              Given(s.title), "title", Str(Or(s.title, ""))),
         Given(s.url), "resource", Str(Or(s.url, "")))
  }

  function AlternativeLines(o: Okf, items: seq<Value>): seq<string> {
    if items == [] then [] else AlternativeLines(o, items[..|items| - 1]) + ["- " + o.alternative(items[|items| - 1])]
  }

  /** The readable body of a decision, never read back. */
  function DecisionBody(o: Okf, d: Decision): string {
    Join(["# Context", "", d.context, "", "# Decision", "", d.decision]
         + (if d.rationale == "" then [] else ["", "# Rationale", "", d.rationale])
         + (if d.alternatives == [] then [] else ["", "# Alternatives", ""] + AlternativeLines(o, d.alternatives))
         + [""], '\n')
  }

  function ConceptDoc(o: Okf, c: Concept): File {
    File("concepts" + "/" + c.slug + ".md", SerializeFrontmatter(o.env.yaml, Obj(ConceptOkf(c)), c.markdown))
  }

  function DecisionDoc(o: Okf, d: Decision): File {
    File("decisions" + "/" + d.slug + ".md", SerializeFrontmatter(o.env.yaml, Obj(DecisionOkf(d)), DecisionBody(o, d)))
  }

  function SourceDoc(o: Okf, s: Source): File {
    File("sources" + "/" + s.hash + ".md", SerializeFrontmatter(o.env.yaml, Obj(SourceOkf(s)), s.content))
  }

  function ToConceptDoc(o: Okf): Concept -> File { c => ConceptDoc(o, c) }

  function ToDecisionDoc(o: Okf): Decision -> File { d => DecisionDoc(o, d) }

  function ToSourceDoc(o: Okf): Source -> File { s => SourceDoc(o, s) }

  // -------------------------------------------------------------- reading

  /** A field of the wikikit extension. */
  function Extension(data: Value, name: string): Option<Value> {
    var w := Field(data, "wikikit");
    if w.Some? then Field(w.value, name) else None
  }

  function OkfConcept(env: Env, path: string, p: Parsed): Result<Concept, Fault> {
    var slug := SlugFromPath(env.lower, path, "concepts/");
    var claims, relations := ClaimsOf(Extension(p.data, "claims")),
      RelationsOf(env.lower, Extension(p.data, "relations"));
    if claims.None? then Err(BadClaims(path))
    else if relations.None? then Err(BadRelations(path))
    else Ok(Concept(slug, Or(StrOf(Field(p.data, "title")), Or(env.titleOf(p.content), slug)),
      Or(StrOf(Field(p.data, "description")), ""),
                    p.content, claims.value, relations.value))
  }

  function OkfDecision(env: Env, path: string, p: Parsed): Result<Decision, Fault> {
    var slug := SlugFromPath(env.lower, path, "decisions/");
    var description := StrOf(Field(p.data, "description"));
    var decision := Or(StrOf(Extension(p.data, "decision")), Or(description, Trim(p.content)));
    if decision == "" then Err(NoDecision(path))
    else Ok(Decision(slug, Or(StrOf(Field(p.data, "title")), slug), Or(StrOf(Extension(p.data, "status")), "active"),
                     Or(StrOf(Extension(p.data, "context")), Or(description, "(imported from OKF bundle)")), decision,
                     Or(StrOf(Extension(p.data, "rationale")), ""), ItemsOf(Extension(p.data, "alternatives"))))
  }

  function OkfSource(path: string, p: Parsed): Result<ImportedSource, Fault> {
    if p.content == "" then Err(EmptySource(path))
    else Ok(ImportedSource(Stem(Base(path)), KindOf(Extension(p.data, "kind")), StrOf(Field(p.data, "resource")),
                           StrOf(Field(p.data, "title")), p.content))
  }

  function TypeOf(env: Env, data: Value): string { env.lower(Or(StrOf(Field(data, "type")), "")) }

  /** The concepts read so far; a slug already seen is dropped. */
  function AddFirst(b: Imported, c: Result<Concept, Fault>): Result<Imported, Fault> {
    if c.Err? then Err(c.error)
    else if Seen(b, c.value.slug) then Ok(b)
    else AddConcept(b, c)
  }

  function Classify(env: Env, b: Imported, path: string, p: Parsed): Result<Imported, Fault> {
    if TypeOf(env, p.data) == "decision" then AddDecision(b, OkfDecision(env, path, p))
    else if TypeOf(env, p.data) == "source" || Under(path, "sources") then AddSource(b, OkfSource(path, p))
    else AddFirst(b, OkfConcept(env, path, p))
  }

  /** What a document is: its type decides, in any case; without a telling one, where it lies; else it is a concept. */
  lemma ClassifiedAs(env: Env, b: Imported, path: string, p: Parsed, t: string)
    requires Field(p.data, "type") == if t == "" then None else Some(Str(t))
    ensures env.lower(t) == "decision" ==> Classify(env, b, path, p) == AddDecision(b, OkfDecision(env, path, p))
    ensures env.lower(t) == "source" || (env.lower(t) != "decision" && "sources/" <= path) ==>
      Classify(env, b, path, p) == AddSource(b, OkfSource(path, p))
    ensures env.lower(t) != "decision" && env.lower(t) != "source" && !("sources/" <= path) ==>
      Classify(env, b, path, p) == AddFirst(b, OkfConcept(env, path, p))
  {
    assert "sources" + "/" == "sources/";
  }

  /** Documents of other makers: a decision's text and context come from its description, or from its body. */
  lemma ForeignDocs(env: Env, path: string, description: string, content: string)
    requires description != ""
    ensures var p, slug := Parsed(Obj(map["description" := Str(description)]), content),
        SlugFromPath(env.lower, path, "decisions/");
      && OkfDecision(env, path, p) == Ok(Decision(slug, slug, "active", description, description, "", []))
      && OkfSource(path, p)
         == (if content == "" then Err(EmptySource(path))
             else Ok(ImportedSource(Stem(Base(path)), "import", None, None, content)))
      && OkfConcept(env, path, p).Ok? && OkfConcept(env, path, p).value.summary == description
      && OkfConcept(env, path, p).value.claims == [] && OkfConcept(env, path, p).value.relations == []
      && OkfConcept(env, path, p).value.markdown == content
    ensures var p, slug := Parsed(Obj(map[]), content), SlugFromPath(env.lower, path, "decisions/");
      OkfDecision(env, path, p)
      == if Trim(content) == "" then Err(NoDecision(path))
         else Ok(Decision(slug, slug, "active", "(imported from OKF bundle)", Trim(content), "", []))
  {
  }

  function ReadDoc(env: Env, b: Imported, f: File): Result<Imported, Fault> {
    if !IsMarkdown(f.path) || Derived(f.path) then Ok(b)
    else
      var p := ParseFrontmatter(env.yaml, f.content);
      if p.Err? then Err(BadFrontmatter(f.path, p.error)) else Classify(env, b, f.path, p.value)
  }

  function OkfReader(env: Env): Reader { (b, f) => ReadDoc(env, b, f) }

  predicate Seen(b: Imported, slug: string) { exists i :: 0 <= i < |b.concepts| && b.concepts[i].slug == slug }

  ghost predicate Tracks(seen: set<string>, b: Imported) { forall slug :: slug in seen <==> Seen(b, slug) }

  /** One classified document, with the set of slugs seen. */
  method AddDocument(env: Env, b: Imported, seen: set<string>, path: string,
    p: Parsed) returns (r: Result<Imported, Fault>, after: set<string>)
    requires Tracks(seen, b)
    ensures r == Classify(env, b, path, p) && (r.Ok? ==> Tracks(after, r.value))
  {
    after := seen;
    if TypeOf(env, p.data) == "decision" {
      var d := OkfDecision(env, path, p);
      if d.Err? { return Err(d.error), seen; }
      return Ok(b.(decisions := b.decisions + [d.value])), seen;
    }
    if TypeOf(env, p.data) == "source" || Under(path, "sources") {
      var s := OkfSource(path, p);
      if s.Err? { return Err(s.error), seen; }
      return Ok(b.(sources := b.sources + [s.value])), seen;
    }
    var c := OkfConcept(env, path, p);
    if c.Err? { return Err(c.error), seen; }
    if c.value.slug in seen { return Ok(b), seen; }
    r, after := Ok(b.(concepts := b.concepts + [c.value])), seen + {c.value.slug};
    SeenGrows(b, c.value);
  }

  lemma SeenGrows(b: Imported, c: Concept)
    ensures forall slug :: Seen(b.(concepts := b.concepts + [c]), slug) <==> Seen(b, slug) || slug == c.slug
  {
    var after := b.(concepts := b.concepts + [c]);
    forall slug ensures Seen(after, slug) <==> Seen(b, slug) || slug == c.slug {
      if i :| 0 <= i < |b.concepts| && b.concepts[i].slug == slug { assert after.concepts[i].slug == slug; }
      assert after.concepts[|b.concepts|].slug == c.slug;
    }
  }

  /** parse */
  method Parse(env: Env, files: seq<File>) returns (r: Result<Imported, Fault>)
    ensures r == ReadAll(OkfReader(env), files)
  {
    var b := Imported([], [], []);
    var seen: set<string> := {};
    for i := 0 to |files|
      invariant ReadAll(OkfReader(env), files[..i]) == Ok(b) && Tracks(seen, b)
    {
      assert files[..i + 1] == files[..i] + [files[i]];
      ReadOneMore(OkfReader(env), files[..i], files[i]);
      if IsMarkdown(files[i].path) && !Derived(files[i].path) {
        var p := ParseFrontmatter(env.yaml, files[i].content);
        if p.Err? {
          FaultStays(OkfReader(env), files, i + 1);
          return Err(BadFrontmatter(files[i].path, p.error));
        }
        var step, more := AddDocument(env, b, seen, files[i].path, p.value);
        if step.Err? {
          FaultStays(OkfReader(env), files, i + 1);
          return step;
        }
        b, seen := step.value, more;
      }
    }
    assert files[..|files|] == files;
    r := Ok(b);
  }

  // ----------------------------------------------------------- round trip

  lemma ConceptDocFields(c: Concept)
    ensures var data := Obj(ConceptOkf(c));
      && data.fields != map[] && Field(data, "type") == Some(Str("Concept"))
      && Field(data, "title") == Some(Str(c.title)) && Field(data, "description") == Entry(c.summary)
      && Extension(data, "claims") == (if c.claims != [] then Some(ClaimsValue(c.claims)) else None)
      && Extension(data, "relations") == (if c.relations != [] then Some(RelationsValue(c.relations)) else None)
  {
    assert "type" in ConceptOkf(c);
    assert c.claims != [] ==> "claims" in ConceptExtension(c);
    assert c.relations != [] ==> "relations" in ConceptExtension(c);
  }

  lemma ConceptFromDoc(env: Env, path: string, c: Concept, data: Value)
    requires LeavesSlugs(env.lower) && GoodConcept(c) && SlugFromPath(env.lower, path, "concepts/") == c.slug
    requires Field(data, "title") == Some(Str(c.title)) && Field(data, "description") == Entry(c.summary)
    requires Extension(data, "claims") == if c.claims != [] then Some(ClaimsValue(c.claims)) else None
    requires Extension(data, "relations") == if c.relations != [] then Some(RelationsValue(c.relations)) else None
    ensures OkfConcept(env, path, Parsed(data, c.markdown)) == Ok(RoundedConcept(c))
  {
    ClaimsBack(c.claims, Extension(data, "claims"));
    RelationsBack(env.lower, c.relations, Extension(data, "relations"));
    TextBack(c.summary);
    OkfConceptIs(env, path, Parsed(data, c.markdown), RoundedConcept(c));
  }

  lemma OkfConceptIs(env: Env, path: string, p: Parsed, c: Concept)
    requires SlugFromPath(env.lower, path, "concepts/") == c.slug && p.content == c.markdown
    requires Field(p.data, "title") == Some(Str(c.title)) && c.title != ""
    requires Or(StrOf(Field(p.data, "description")), "") == c.summary
    requires ClaimsOf(Extension(p.data, "claims")) == Some(c.claims)
      && RelationsOf(env.lower, Extension(p.data, "relations")) == Some(c.relations)
    ensures OkfConcept(env, path, p) == Ok(c)
  {
  }

  lemma DecisionDocFields(d: Decision)
    ensures var data := Obj(DecisionOkf(d));
      && data.fields != map[] && Field(data, "type") == Some(Str("Decision"))
        && Field(data, "title") == Some(Str(d.title))
      && Field(data, "description") == None
      && Extension(data, "status") == Some(Str(d.status)) && Extension(data, "context") == Some(Str(d.context))
      && Extension(data, "decision") == Some(Str(d.decision)) && Extension(data, "rationale") == Entry(d.rationale)
      && Extension(data, "alternatives") == (if d.alternatives != [] then Some(Arr(d.alternatives)) else None)
  {
    assert "type" in DecisionOkf(d);
  }

  lemma DecisionFromDoc(env: Env, path: string, d: Decision, data: Value, body: string)
    requires GoodDecision(d) && SlugFromPath(env.lower, path, "decisions/") == d.slug
    requires Field(data, "title") == Some(Str(d.title)) && Extension(data, "status") == Some(Str(d.status))
    requires Extension(data, "context") == Some(Str(d.context)) && Extension(data, "decision") == Some(Str(d.decision))
    requires Extension(data, "rationale") == Entry(d.rationale)
    requires Extension(data, "alternatives") == if d.alternatives != [] then Some(Arr(d.alternatives)) else None
    ensures OkfDecision(env, path, Parsed(data, body)) == Ok(d)
  {
  }

  lemma SourceDocFields(s: Source)
    ensures var data := Obj(SourceOkf(s));
      && data.fields != map[] && Field(data, "type") == Some(Str("Source"))
        && Extension(data, "kind") == Some(Str(s.kind))
      && Field(data, "resource") == Entry(Or(s.url, "")) && Field(data, "title") == Entry(Or(s.title, ""))
  {
    assert "type" in SourceOkf(s);
  }

  lemma SourceFromDoc(path: string, s: Source, data: Value)
    requires GoodSource(s) && Stem(Base(path)) == s.hash
    requires Extension(data, "kind") == Some(Str(s.kind))
    requires Field(data, "resource") == Entry(Or(s.url, "")) && Field(data, "title") == Entry(Or(s.title, ""))
    ensures OkfSource(path, Parsed(data, s.content)) == Ok(AsImported(s))
  {
  }

  lemma ConceptClassifies(o: Okf, b: Imported, path: string, c: Concept)
    requires OkfSane(o) && GoodConcept(c) && SlugFromPath(o.env.lower, path, "concepts/") == c.slug
      && !Under(path, "sources")
    ensures Classify(o.env, b, path, Parsed(Obj(ConceptOkf(c)), c.markdown)) == AddFirst(b, Ok(RoundedConcept(c)))
  {
    var p := Parsed(Obj(ConceptOkf(c)), c.markdown);
    ConceptDocFields(c);
    ConceptFromDoc(o.env, path, c, p.data);
    TypeIs(o.env, p.data, "Concept");
    ClassifyConcept(o.env, b, path, p, Ok(RoundedConcept(c)));
  }

  lemma TypeIs(env: Env, data: Value, t: string)
    requires Field(data, "type") == Some(Str(t)) && t != ""
    ensures TypeOf(env, data) == env.lower(t)
  {
  }

  lemma ClassifyConcept(env: Env, b: Imported, path: string, p: Parsed, c: Result<Concept, Fault>)
    requires TypeOf(env, p.data) == "concept" && !Under(path, "sources") && OkfConcept(env, path, p) == c
    ensures Classify(env, b, path, p) == AddFirst(b, c)
  {
  }

  lemma ClassifyDecision(env: Env, b: Imported, path: string, p: Parsed, d: Result<Decision, Fault>)
    requires TypeOf(env, p.data) == "decision" && OkfDecision(env, path, p) == d
    ensures Classify(env, b, path, p) == AddDecision(b, d)
  {
  }

  lemma ClassifySource(env: Env, b: Imported, path: string, p: Parsed, s: Result<ImportedSource, Fault>)
    requires TypeOf(env, p.data) == "source" && OkfSource(path, p) == s
    ensures Classify(env, b, path, p) == AddSource(b, s)
  {
  }

  lemma DecisionClassifies(o: Okf, b: Imported, path: string, d: Decision, body: string)
    requires OkfSane(o) && GoodDecision(d) && SlugFromPath(o.env.lower, path, "decisions/") == d.slug
    ensures Classify(o.env, b, path, Parsed(Obj(DecisionOkf(d)), body)) == AddDecision(b, Ok(d))
  {
    var p := Parsed(Obj(DecisionOkf(d)), body);
    DecisionDocFields(d);
    DecisionFromDoc(o.env, path, d, p.data, body);
    TypeIs(o.env, p.data, "Decision");
    ClassifyDecision(o.env, b, path, p, Ok(d));
  }

  lemma SourceClassifies(o: Okf, b: Imported, path: string, s: Source)
    requires OkfSane(o) && GoodSource(s) && Stem(Base(path)) == s.hash
    ensures Classify(o.env, b, path, Parsed(Obj(SourceOkf(s)), s.content)) == AddSource(b, Ok(AsImported(s)))
  {
    var p := Parsed(Obj(SourceOkf(s)), s.content);
    SourceDocFields(s);
    SourceFromDoc(path, s, p.data);
    TypeIs(o.env, p.data, "Source");
    ClassifySource(o.env, b, path, p, Ok(AsImported(s)));
  }

  /** A document whose frontmatter reads back as p. */
  lemma ReadAsDoc(env: Env, b: Imported, f: File, p: Parsed)
    requires IsMarkdown(f.path) && !Derived(f.path) && ParseFrontmatter(env.yaml, f.content) == Ok(p)
    ensures ReadDoc(env, b, f) == Classify(env, b, f.path, p)
  {
  }

  lemma ConceptDocPath(o: Okf, c: Concept)
    requires GoodConcept(c)
    ensures var path := ConceptDoc(o, c).path;
      IsMarkdown(path) && !Derived(path) && !Under(path, "sources")
        && SlugFromPath(o.env.lower, path, "concepts/") == c.slug
  {
    DirsArePlain();
    SlugFile(o.env.lower, "concepts", c.slug, ConceptDoc(o, c).path);
    NotASource(c.slug + ".md");
  }

  lemma NotASource(rest: string)
    ensures !Under("concepts" + "/" + rest, "sources")
  {
    assert ("concepts" + "/" + rest)[0] == 'c';
  }

  lemma DecisionDocPath(o: Okf, d: Decision)
    requires GoodDecision(d)
    ensures var path := DecisionDoc(o, d).path;
      IsMarkdown(path) && !Derived(path) && SlugFromPath(o.env.lower, path, "decisions/") == d.slug
  {
    DirsArePlain();
    SlugFile(o.env.lower, "decisions", d.slug, DecisionDoc(o, d).path);
  }

  lemma SourceDocPath(o: Okf, s: Source)
    requires GoodSource(s)
    ensures var path := SourceDoc(o, s).path; IsMarkdown(path) && !Derived(path) && Stem(Base(path)) == s.hash
  {
    FiledPath("sources", s.hash);
  }

  lemma ReadConceptDoc(o: Okf, b: Imported, c: Concept)
    requires OkfSane(o) && GoodConcept(c)
    ensures ReadDoc(o.env, b, ConceptDoc(o, c)) == AddFirst(b, Ok(RoundedConcept(c)))
  {
    ConceptDocPath(o, c);
    ConceptParses(o, c);
    ReadAsDoc(o.env, b, ConceptDoc(o, c), Parsed(Obj(ConceptOkf(c)), c.markdown));
    ConceptClassifies(o, b, ConceptDoc(o, c).path, c);
  }

  lemma ConceptParses(o: Okf, c: Concept)
    requires OkfSane(o)
    ensures ParseFrontmatter(o.env.yaml, ConceptDoc(o, c).content) == Ok(Parsed(Obj(ConceptOkf(c)), c.markdown))
  {
    ConceptDocFields(c);
    FrontmatterRoundTrips(o.env.yaml, Obj(ConceptOkf(c)), c.markdown);
  }

  lemma DecisionParses(o: Okf, d: Decision)
    requires OkfSane(o)
    ensures ParseFrontmatter(o.env.yaml, DecisionDoc(o, d).content)
      == Ok(Parsed(Obj(DecisionOkf(d)), DecisionBody(o, d)))
  {
    DecisionDocFields(d);
    FrontmatterRoundTrips(o.env.yaml, Obj(DecisionOkf(d)), DecisionBody(o, d));
  }

  lemma SourceParses(o: Okf, s: Source)
    requires OkfSane(o)
    ensures ParseFrontmatter(o.env.yaml, SourceDoc(o, s).content) == Ok(Parsed(Obj(SourceOkf(s)), s.content))
  {
    SourceDocFields(s);
    FrontmatterRoundTrips(o.env.yaml, Obj(SourceOkf(s)), s.content);
  }

  lemma ReadDecisionDoc(o: Okf, b: Imported, d: Decision)
    requires OkfSane(o) && GoodDecision(d)
    ensures ReadDoc(o.env, b, DecisionDoc(o, d)) == AddDecision(b, Ok(d))
  {
    DecisionDocPath(o, d);
    DecisionParses(o, d);
    ReadAsDoc(o.env, b, DecisionDoc(o, d), Parsed(Obj(DecisionOkf(d)), DecisionBody(o, d)));
    DecisionClassifies(o, b, DecisionDoc(o, d).path, d, DecisionBody(o, d));
  }

  lemma ReadSourceDoc(o: Okf, b: Imported, s: Source)
    requires OkfSane(o) && GoodSource(s)
    ensures ReadDoc(o.env, b, SourceDoc(o, s)) == AddSource(b, Ok(AsImported(s)))
  {
    SourceDocPath(o, s);
    SourceParses(o, s);
    ReadAsDoc(o.env, b, SourceDoc(o, s), Parsed(Obj(SourceOkf(s)), s.content));
    SourceClassifies(o, b, SourceDoc(o, s).path, s);
  }

  predicate DistinctSlugs(cs: seq<Concept>) {
    forall i, j :: 0 <= i < j < |cs| ==> cs[i].slug != cs[j].slug
  }

  /** A concept of a new slug is added. */
  lemma OkfConceptReads(o: Okf, cs: seq<Concept>, i: nat)
    requires OkfSane(o) && i < |cs| && GoodConcept(cs[i]) && DistinctSlugs(cs)
    ensures ReadDoc(o.env, ConceptsRead(cs)(i), ConceptDoc(o, cs[i])) == Ok(ConceptsRead(cs)(i + 1))
  {
    ReadConceptDoc(o, ConceptsAt(cs, i), cs[i]);
    FirstOfItsSlug(cs, i);
    ConceptsAtNext(cs, i);
  }

  lemma ConceptsAtNext(cs: seq<Concept>, i: nat)
    requires i < |cs|
    ensures ConceptsAt(cs, i + 1) == ConceptsAt(cs, i).(concepts :=
      ConceptsAt(cs, i).concepts + [RoundedConcept(cs[i])])
  {
    MapUpto(RoundedConcept, cs, i);
  }

  lemma FirstOfItsSlug(cs: seq<Concept>, n: nat)
    requires DistinctSlugs(cs) && n < |cs|
    ensures !Seen(ConceptsAt(cs, n), cs[n].slug)
  {
    var b := ConceptsAt(cs, n);
    forall i | 0 <= i < |b.concepts| ensures b.concepts[i].slug != cs[n].slug {
      assert b.concepts[i] == RoundedConcept(cs[i]);
    }
  }

  lemma OkfHead(env: Env, index: File, log: File)
    requires index.path == "index.md" && log.path == "log.md"
    ensures ReadAll(OkfReader(env), [index, log]) == Ok(Imported([], [], []))
  {
    DerivedNames();
    forall b ensures OkfReader(env)(b, index) == Ok(b) && OkfReader(env)(b, log) == Ok(b) {
      assert ReadDoc(env, b, index) == Ok(b) && ReadDoc(env, b, log) == Ok(b);
    }
    DerivedFilesAreSkipped(OkfReader(env), index, log);
  }

  lemma OkfReads(o: Okf, cs: seq<Concept>, ds: seq<Decision>, ss: seq<Source>)
    requires OkfSane(o) && DistinctSlugs(cs) && forall i :: 0 <= i < |cs| ==> GoodConcept(cs[i])
    requires (forall i :: 0 <= i < |ds| ==> GoodDecision(ds[i])) && forall i :: 0 <= i < |ss| ==> GoodSource(ss[i])
    ensures forall i: nat :: i < |cs| ==>
      OkfReader(o.env)(ConceptsRead(cs)(i), ToConceptDoc(o)(cs[i])) == Ok(ConceptsRead(cs)(i + 1))
    ensures forall i: nat, b :: i < |ds| ==>
      OkfReader(o.env)(b, ToDecisionDoc(o)(ds[i])) == Ok(b.(decisions := b.decisions + [ds[i]]))
    ensures forall i: nat, b :: i < |ss| ==>
      OkfReader(o.env)(b, ToSourceDoc(o)(ss[i])) == Ok(b.(sources := b.sources + [AsImported(ss[i])]))
  {
    forall i: nat | i < |cs| ensures OkfReader(o.env)(ConceptsRead(cs)(i), ToConceptDoc(o)(cs[i])) ==
      Ok(ConceptsRead(cs)(i + 1)) {
      OkfConceptReads(o, cs, i);
    }
    forall i: nat, b | i < |ds| ensures OkfReader(o.env)(b, ToDecisionDoc(o)(ds[i])) ==
      Ok(b.(decisions := b.decisions + [ds[i]])) {
      ReadDecisionDoc(o, b, ds[i]);
    }
    forall i: nat, b | i < |ss| ensures OkfReader(o.env)(b, ToSourceDoc(o)(ss[i])) ==
      Ok(b.(sources := b.sources + [AsImported(ss[i])])) {
      ReadSourceDoc(o, b, ss[i]);
    }
  }

  /** Both formats read back the same thing: the snapshot, sorted, with confidences rounded. */
  lemma OkfRoundTrips(o: Okf, snap: Snapshot, index: string, log: string)
    requires OkfSane(o) && GoodSnapshot(snap) && DistinctSlugs(snap.concepts)
    ensures ReadAll(OkfReader(o.env), Files(snap, o.env, index, log, ToConceptDoc(o), ToDecisionDoc(o), ToSourceDoc(o)))
      == Ok(Expected(o.env, snap))
  {
    var cs, ds, ss := BySlug(o.env, snap.concepts), DecisionsBySlug(o.env, snap.decisions), ByHash(o.env, snap.sources);
    SortedIsGood(o.env, snap);
    SortedStaysDistinct(o.env, snap.concepts);
    OkfHead(o.env, File("index.md", index), File("log.md", log));
    OkfReads(o, cs, ds, ss);
    AllSections(OkfReader(o.env), [File("index.md", index), File("log.md", log)], cs, ds, ss, ToConceptDoc(o),
      ToDecisionDoc(o), ToSourceDoc(o));
  }

  lemma {:induction false} SortedStaysDistinct(env: Env, cs: seq<Concept>)
    requires DistinctSlugs(cs)
    ensures DistinctSlugs(BySlug(env, cs))
    decreases |cs|
  {
    var key := (c: Concept) => c.slug;
    if cs != [] {
      var rest := SortBy(cs[1..], key, env.before);
      SortedStaysDistinct(env, cs[1..]);
      SortByPermutes(cs[1..], key, env.before);
      forall i | 0 <= i < |rest| ensures rest[i].slug != cs[0].slug {
        assert rest[i] in cs[1..];
      }
      InsertStaysDistinct(cs[0], rest, env.before);
    }
  }

  lemma {:induction false} InsertStaysDistinct(x: Concept, s: seq<Concept>, before: (string, string) -> bool)
    requires DistinctSlugs(s) && forall i :: 0 <= i < |s| ==> s[i].slug != x.slug
    ensures DistinctSlugs(InsertBy(x, s, (c: Concept) => c.slug, before))
    decreases |s|
  {
    var key := (c: Concept) => c.slug;
    if s != [] && before(key(s[0]), key(x)) {
      InsertStaysDistinct(x, s[1..], before);
      InsertByPermutes(x, s[1..], key, before);
      var r := InsertBy(x, s[1..], key, before);
      forall i | 0 <= i < |r| ensures r[i].slug != s[0].slug {
        assert r[i] in multiset(s[1..]) + multiset{x};
        assert r[i] == x || r[i] in s[1..];
      }
    }
  }
}
