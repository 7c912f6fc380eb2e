/**
 * The Markdown bundle format (src/export/markdown.ts).
 *
 * A space as a tree of files, and the tree read back. Claims and relations travel in
 * frontmatter, bodies are kept verbatim. What the two bundle formats share is stated
 * for any reader of files.
 */
module Bundles {
  import opened Wrappers
  import opened Text
  import opened Lines
  import opened Slugs
  import opened Frontmatter

  datatype Citation = Citation(source: string, quote: string, locator: string)
  datatype Claim = Claim(subject: string, predicate_: string, object_: string, status: string, confidence: real,
    citations: seq<Citation>)
  datatype Relation = Relation(to: string, kind: string)
  datatype Concept = Concept(slug: string, title: string, summary: string, markdown: string, claims: seq<Claim>,
    relations: seq<Relation>)
  datatype Decision = Decision(
    slug: string, title: string, status: string, context: string, decision: string, rationale: string,
      alternatives: seq<Value>)
  datatype Source = Source(hash: string, kind: string, url: Option<string>, title: Option<string>, content: string)
  datatype File = File(path: string, content: string)

  /** An imported source is named by its file; its hash is computed anew. */
  datatype ImportedSource = ImportedSource(ref: string, kind: string, url: Option<string>, title: Option<string>,
    content: string)
  datatype Imported = Imported(concepts: seq<Concept>, decisions: seq<Decision>, sources: seq<ImportedSource>)

  datatype Fault = BadFrontmatter(path: string, error: Frontmatter.Error) | BadClaims(path: string)
    | BadRelations(path: string)
                 | NoDecision(path: string) | EmptySource(path: string)

  /**
   * The parts that are JavaScript's or a library's: YAML, lower-casing, the title heuristic, and the
   * collation files are sorted by.
   */
  datatype Env = Env(yaml: Yaml, lower: Lower, titleOf: string -> Option<string>, before: (string, string) -> bool)

  ghost predicate Sane(env: Env) { Faithful(env.yaml) && LeavesSlugs(env.lower) }

  // ----------------------------------------------------------------- lists

  function Map<A, B>(f: A -> B, s: seq<A>): seq<B> {
    seq(|s|, i requires 0 <= i < |s| => f(s[i]))
  }

  /** Every element decoded, or none. */
  function DecodeAll<A, B>(f: A -> Option<B>, s: seq<A>): Option<seq<B>> {
    if s == [] then Some([])
    else
      var init, last := DecodeAll(f, s[..|s| - 1]), f(s[|s| - 1]);
      if init.None? || last.None? then None else Some(init.value + [last.value])
  }

  lemma {:induction false} DecodeAllInverts<A, B, C>(encode: A -> B, decode: B -> Option<C>, g: A -> C, s: seq<A>)
    requires forall i :: 0 <= i < |s| ==> decode(encode(s[i])) == Some(g(s[i]))
    ensures DecodeAll(decode, Map(encode, s)) == Some(Map(g, s))
    decreases |s|
  {
    if s != [] {
      var init := s[..|s| - 1];
      assert Map(encode, s)[..|s| - 1] == Map(encode, init);
      DecodeAllInverts(encode, decode, g, init);
      assert Map(g, s) == Map(g, init) + [g(s[|s| - 1])];
    }
  }

  /** Sorting by a key, under whatever collation. */
  function InsertBy<T>(x: T, s: seq<T>, key: T -> string, before: (string, string) -> bool): seq<T> {
    if s == [] || !before(key(s[0]), key(x)) then [x] + s else [s[0]] + InsertBy(x, s[1..], key, before)
  }

  function SortBy<T>(s: seq<T>, key: T -> string, before: (string, string) -> bool): seq<T> {
    if s == [] then [] else InsertBy(s[0], SortBy(s[1..], key, before), key, before)
  }

  lemma {:induction false} InsertByPermutes<T>(x: T, s: seq<T>, key: T -> string, before: (string, string) -> bool)
    ensures multiset(InsertBy(x, s, key, before)) == multiset(s) + multiset{x}
    decreases |s|
  {
    if s != [] && before(key(s[0]), key(x)) {
      InsertByPermutes(x, s[1..], key, before);
      assert s == [s[0]] + s[1..];
    }
  }

  /** Sorting only reorders. */
  lemma {:induction false} SortByPermutes<T>(s: seq<T>, key: T -> string, before: (string, string) -> bool)
    ensures multiset(SortBy(s, key, before)) == multiset(s) && |SortBy(s, key, before)| == |s|
    ensures forall x :: x in SortBy(s, key, before) <==> x in s
    decreases |s|
  {
    if s != [] {
      SortByPermutes(s[1..], key, before);
      InsertByPermutes(s[0], SortBy(s[1..], key, before), key, before);
      assert s == [s[0]] + s[1..];
    }
    var r := SortBy(s, key, before);
    assert |multiset(r)| == |multiset(s)|;
    forall x ensures x in r <==> x in s { assert (x in r <==> x in multiset(r)) && (x in s <==> x in multiset(s)); }
  }

  ghost predicate Collates(before: (string, string) -> bool) {
    && (forall a, b :: before(a, b) ==> !before(b, a))
    && (forall a, b, c :: !before(b, a) && !before(c, b) ==> !before(c, a))
  }

  predicate SortedBy<T>(s: seq<T>, key: T -> string, before: (string, string) -> bool) {
    forall i, j :: 0 <= i < j < |s| ==> !before(key(s[j]), key(s[i]))
  }

  lemma {:induction false} InsertBySorts<T>(x: T, s: seq<T>, key: T -> string, before: (string, string) -> bool)
    requires Collates(before) && SortedBy(s, key, before)
    ensures SortedBy(InsertBy(x, s, key, before), key, before)
    decreases |s|
  {
    if s != [] && before(key(s[0]), key(x)) {
      var rest := InsertBy(x, s[1..], key, before);
      InsertBySorts(x, s[1..], key, before);
      InsertByPermutes(x, s[1..], key, before);
      forall j | 0 <= j < |rest| ensures !before(key(rest[j]), key(s[0])) {
        assert rest[j] in multiset(rest);
        assert rest[j] in multiset(s[1..]) + multiset{x};
      }
    } else if s != [] {
      forall j | 0 <= j < |s| ensures !before(key(s[j]), key(x)) {
        assert !before(key(s[0]), key(x));
        assert j > 0 ==> !before(key(s[j]), key(s[0]));
      }
    }
  }

  /** Under any collation, the files of a bundle come in the order of their slugs or hashes. */
  lemma {:induction false} SortBySorts<T>(s: seq<T>, key: T -> string, before: (string, string) -> bool)
    requires Collates(before)
    ensures SortedBy(SortBy(s, key, before), key, before)
    decreases |s|
  {
    if s != [] {
      SortBySorts(s[1..], key, before);
      InsertBySorts(s[0], SortBy(s[1..], key, before), key, before);
    }
  }

  // ------------------------------------------------------------ confidence

  function Round(x: real): int { (x * 10000.0 + 0.5).Floor }

  function Units(n: int): real { n as real / 10000.0 }

  /** roundConfidence */
  function Rounded(x: real): real { Units(Round(x)) }

  lemma RoundOfUnits(n: int)
    ensures Round(Units(n)) == n
  {
    assert Units(n) * 10000.0 == n as real;
  }

  /** Rounding twice is rounding once, and a confidence stays within its range. */
  lemma RoundingSettles(x: real)
    ensures Rounded(Rounded(x)) == Rounded(x)
    ensures 0.0 <= x <= 1.0 ==> 0.0 <= Rounded(x) <= 1.0
  {
    RoundOfUnits(Round(x));
    if 0.0 <= x <= 1.0 {
      assert 0 <= Round(x) <= 10000;
    }
  }

  /** The rounded confidence is the nearest multiple of a ten-thousandth. */
  lemma RoundedIsNear(x: real)
    ensures -0.00005 <= Rounded(x) - x <= 0.00005 && Rounded(x) * 10000.0 == (Rounded(x) * 10000.0).Floor as real
  {
    assert Rounded(x) * 10000.0 == Round(x) as real;
  }

  // --------------------------------------------------- frontmatter mappings

  predicate Within(s: string, max: nat) { 1 <= |s| <= max }

  function CitationValue(c: Citation): Value {
    var base := map["source" := Str(c.source), "quote" := Str(c.quote)];
    Obj(if c.locator == "" then base else base["locator" := Str(c.locator)])
  }

  function CitationsValue(s: seq<Citation>): Value { Arr(Map(CitationValue, s)) }

  function ClaimValue(c: Claim): Value {
    var base := map["subject" := Str(c.subject), "predicate" := Str(c.predicate_), "object" := Str(c.object_),
                    "status" := Str(c.status), "confidence" := Num(Round(c.confidence), 4)];
    Obj(if c.citations == [] then base else base["citations" := CitationsValue(c.citations)])
  }

  function ClaimsValue(s: seq<Claim>): Value { Arr(Map(ClaimValue, s)) }

  function RelationValue(r: Relation): Value { Obj(map["to" := Str(r.to), "kind" := Str(r.kind)]) }

  function RelationsValue(s: seq<Relation>): Value { Arr(Map(RelationValue, s)) }

  /** A required text field. */
  function TextField(v: Value, name: string, max: nat): Option<string> {
    var f := Field(v, name);
    if f.Some? && f.value.Str? && Within(f.value.s, max) then Some(f.value.s) else None
  }

  /** A required text field of any length. */
  function AnyField(v: Value, name: string): Option<string> {
    var f := Field(v, name);
    if f.Some? && f.value.Str? && f.value.s != "" then Some(f.value.s) else None
  }

  /** A text field with a default for its absence; any other type is a fault. */
  function TextOr(v: Value, name: string, default: string): Option<string> {
    var f := Field(v, name);
    if f.None? then Some(default) else if f.value.Str? then Some(f.value.s) else None
  }

  function Pow10(n: nat): real { if n == 0 then 1.0 else 10.0 * Pow10(n - 1) }

  function Quantity(mantissa: int, places: nat): real
  {
    Pow10Positive(places);
    mantissa as real / Pow10(places)
  }

  lemma {:induction false} Pow10Positive(n: nat)
    ensures Pow10(n) > 0.0
  {
    if n > 0 { Pow10Positive(n - 1); }
  }

  function ConfidenceOf(v: Value): Option<real> {
    var f := Field(v, "confidence");
    if f.None? then Some(0.5)
    else if f.value.Num? && 0.0 <= Quantity(f.value.mantissa, f.value.places) <= 1.0
      then Some(Quantity(f.value.mantissa, f.value.places))
    else None
  }

  function DecodeCitation(v: Value): Option<Citation> {
    var source, quote, locator := AnyField(v, "source"), AnyField(v, "quote"), TextOr(v, "locator", "");
    if source.None? || quote.None? || locator.None? then None
      else Some(Citation(source.value, quote.value, locator.value))
  }

  function CitationsOf(v: Value): Option<seq<Citation>> {
    var f := Field(v, "citations");
    if f.None? then Some([]) else if f.value.Arr? then DecodeAll(DecodeCitation, f.value.items) else None
  }

  function DecodeClaim(v: Value): Option<Claim> {
    var subject, predicate_, object_ := TextField(v, "subject", 500), TextField(v, "predicate", 200),
      TextField(v, "object", 2000);
    var status, confidence, citations := TextOr(v, "status", "verified"), ConfidenceOf(v), CitationsOf(v);
    if subject.None? || predicate_.None? || object_.None? || status.None? || confidence.None?
      || citations.None? then None
    else Some(Claim(subject.value, predicate_.value, object_.value, status.value, confidence.value, citations.value))
  }

  /** claimsFromFrontmatter */
  function ClaimsOf(v: Option<Value>): Option<seq<Claim>> {
    if v.None? then Some([]) else if v.value.Arr? then DecodeAll(DecodeClaim, v.value.items) else None
  }

  predicate Kind(k: string) {
    k == "related" || k == "part_of" || k == "depends_on" || k == "contradicts" || k == "supersedes"
  }

  function DecodeRelation(lower: Lower, v: Value): Option<Relation> {
    var to, kind := AnyField(v, "to"), AnyField(v, "kind");
    if to.None? || kind.None? || !Kind(kind.value) then None else Some(Relation(Slugify(lower, to.value), kind.value))
  }

  /** relationsFromFrontmatter */
  function RelationsOf(lower: Lower, v: Option<Value>): Option<seq<Relation>> {
    if v.None? then Some([]) else if v.value.Arr? then DecodeAll(x => DecodeRelation(lower, x), v.value.items) else None
  }

  /** The entries a claim, a citation and a relation are written as. */
  lemma EntriesAre(c: Claim, x: Citation, r: Relation)
    ensures ClaimValue(c).Obj? && CitationValue(x).Obj? && RelationValue(r).Obj?
    ensures Field(ClaimValue(c), "subject") == Some(Str(c.subject))
      && Field(ClaimValue(c), "predicate") == Some(Str(c.predicate_))
      && Field(ClaimValue(c), "object") == Some(Str(c.object_))
      && Field(ClaimValue(c), "status") == Some(Str(c.status))
      && Field(ClaimValue(c), "confidence") == Some(Num(Round(c.confidence), 4))
      && (Field(ClaimValue(c), "citations").None? <==> c.citations == [])
      && ClaimValue(c).fields.Keys - {"citations"} == {"subject", "predicate", "object", "status", "confidence"}
    ensures Field(CitationValue(x), "source") == Some(Str(x.source))
      && Field(CitationValue(x), "quote") == Some(Str(x.quote))
      && Field(CitationValue(x), "locator") == (if x.locator == "" then None else Some(Str(x.locator)))
    ensures RelationValue(r) == Obj(map["to" := Str(r.to), "kind" := Str(r.kind)])
  {
  }

  /** What is read from elsewhere: a claim needs its three texts, and gets defaults for the rest. */
  lemma ForeignClaim(subject: string, predicate_: string, object_: string)
    ensures var v := Obj(map["subject" := Str(subject), "predicate" := Str(predicate_), "object" := Str(object_)]);
      DecodeClaim(v)
      == if 1 <= |subject| <= 500 && 1 <= |predicate_| <= 200 && 1 <= |object_| <= 2000
         then Some(Claim(subject, predicate_, object_, "verified", 0.5, [])) else None
    ensures DecodeClaim(Obj(map["subject" := Str(subject), "object" := Str(object_)])).None?
    ensures DecodeCitation(Obj(map["source" := Str(subject), "quote" := Str(object_)]))
      == if subject != "" && object_ != "" then Some(Citation(subject, object_, "")) else None
  {
  }

  /** A relation of an unknown kind is a fault, and a known one's target is made a slug. */
  lemma ForeignRelation(lower: Lower, target: string, kind: string)
    ensures DecodeRelation(lower, Obj(map["to" := Str(target), "kind" := Str(kind)]))
      == if target != "" && kind in {"related", "part_of", "depends_on", "contradicts", "supersedes"}
         then Some(Relation(Slugify(lower, target), kind)) else None
  {
  }

  // ---------------------------------------------- mappings come back

  predicate GoodCitation(c: Citation) { c.source != "" && c.quote != "" }

  predicate GoodClaim(c: Claim) {
    && Within(c.subject, 500) && Within(c.predicate_, 200) && Within(c.object_, 2000) && 0.0 <= c.confidence <= 1.0
    && forall i :: 0 <= i < |c.citations| ==> GoodCitation(c.citations[i])
  }

  predicate GoodClaims(s: seq<Claim>) { forall i :: 0 <= i < |s| ==> GoodClaim(s[i]) }

  predicate GoodRelations(s: seq<Relation>) {
    forall i :: 0 <= i < |s| ==> Kind(s[i].kind) && Canonical(s[i].to)
  }

  function RoundedClaim(c: Claim): Claim { c.(confidence := Rounded(c.confidence)) }

  lemma CitationsReturn(s: seq<Citation>)
    requires forall i :: 0 <= i < |s| ==> GoodCitation(s[i])
    ensures DecodeAll(DecodeCitation, Map(CitationValue, s)) == Some(s)
  {
    forall i | 0 <= i < |s| ensures DecodeCitation(CitationValue(s[i])) == Some(Same(s[i])) { }
    DecodeAllInverts(CitationValue, DecodeCitation, Same, s);
    assert Map(Same, s) == s;
  }

  function Same<T>(x: T): T { x }

  lemma FourPlaces()
    ensures Pow10(4) == 10000.0
  {
    assert Pow10(1) == 10.0 && Pow10(2) == 100.0 && Pow10(3) == 1000.0;
  }

  lemma ClaimReturns(c: Claim)
    requires GoodClaim(c)
    ensures DecodeClaim(ClaimValue(c)) == Some(RoundedClaim(c))
  {
    FourPlaces();
    RoundingSettles(c.confidence);
    CitationsReturn(c.citations);
  }

  /** A list of claims comes back as it was, up to confidence rounding. */
  lemma ClaimsReturn(s: seq<Claim>)
    requires GoodClaims(s)
    ensures ClaimsOf(Some(ClaimsValue(s))) == Some(Map(RoundedClaim, s))
  {
    forall i | 0 <= i < |s| ensures DecodeClaim(ClaimValue(s[i])) == Some(RoundedClaim(s[i])) { ClaimReturns(s[i]); }
    DecodeAllInverts(ClaimValue, DecodeClaim, RoundedClaim, s);
  }

  /** A relation of a known kind comes back as it was exactly when slugify leaves its target alone. */
  lemma RelationReturns(lower: Lower, r: Relation)
    requires LeavesSlugs(lower) && Kind(r.kind) && r.to != ""
    ensures DecodeRelation(lower, RelationValue(r)) == Some(r) <==> Canonical(r.to)
  {
    RelationDecodes(lower, r);
    SlugifyFixes(lower, r.to);
  }

  lemma RelationDecodes(lower: Lower, r: Relation)
    requires Kind(r.kind) && r.to != ""
    ensures DecodeRelation(lower, RelationValue(r)) == Some(Relation(Slugify(lower, r.to), r.kind))
  {
  }

  lemma RelationsReturn(lower: Lower, s: seq<Relation>)
    requires LeavesSlugs(lower) && GoodRelations(s)
    ensures RelationsOf(lower, Some(RelationsValue(s))) == Some(s)
  {
    var decode := x => DecodeRelation(lower, x);
    forall i | 0 <= i < |s| ensures decode(RelationValue(s[i])) == Some(Same(s[i])) { RelationReturns(lower, s[i]); }
    DecodeAllInverts(RelationValue, decode, Same, s);
    assert Map(Same, s) == s;
  }

  // ------------------------------------------------------------ documents

  predicate NonEmpty(v: Option<Value>) { v.Some? && v.value.Str? && v.value.s != "" }

  /** A non-empty text value, or nothing. */
  function StrOf(v: Option<Value>): Option<string> { if NonEmpty(v) then Some(v.value.s) else None }

  function Or(a: Option<string>, b: string): string { if a.Some? then a.value else b }

  /** Data with an optional entry. */
  function With(data: map<string, Value>, put: bool, name: string, v: Value): map<string, Value> {
    if put then data[name := v] else data
  }

  function ConceptData(c: Concept): map<string, Value> {
    With(With(With(map["title" := Str(c.title)], c.summary != "", "summary", Str(c.summary)),
              c.claims != [], "claims", ClaimsValue(c.claims)),
         c.relations != [], "relations", RelationsValue(c.relations))
  }

  function DecisionData(d: Decision): map<string, Value> {
    With(With(map["title" := Str(d.title), "status" := Str(d.status), "context" := Str(d.context), "decision" :=
      Str(d.decision)],
              d.rationale != "", "rationale", Str(d.rationale)),
         d.alternatives != [], "alternatives", Arr(d.alternatives))
  }

  predicate Given(s: Option<string>) { s.Some? && s.value != "" }

  function SourceData(s: Source): map<string, Value> {
    With(With(map["kind" := Str(s.kind)], Given(s.url), "url", Str(Or(s.url, ""))), Given(s.title), "title",
      Str(Or(s.title, "")))
  }

  function ConceptFile(env: Env, c: Concept): File {
    File("concepts" + "/" + c.slug + ".md", SerializeFrontmatter(env.yaml, Obj(ConceptData(c)), c.markdown))
  }

  function DecisionFile(env: Env, d: Decision): File {
    File("decisions" + "/" + d.slug + ".md", SerializeFrontmatter(env.yaml, Obj(DecisionData(d)), ""))
  }

  function SourceFile(env: Env, s: Source): File {
    File("sources" + "/" + s.hash + ".md", SerializeFrontmatter(env.yaml, Obj(SourceData(s)), s.content))
  }

  function ConceptFrom(env: Env, path: string, slug: string, p: Parsed): Result<Concept, Fault> {
    var claims, relations := ClaimsOf(Field(p.data, "claims")), RelationsOf(env.lower, Field(p.data, "relations"));
    if claims.None? then Err(BadClaims(path))
    else if relations.None? then Err(BadRelations(path))
    else Ok(Concept(slug, Or(StrOf(Field(p.data, "title")), Or(env.titleOf(p.content), slug)),
      Or(StrOf(Field(p.data, "summary")), ""),
                    p.content, claims.value, relations.value))
  }

  function ParseConcept(env: Env, f: File, slug: string): Result<Concept, Fault> {
    var p := ParseFrontmatter(env.yaml, f.content);
    if p.Err? then Err(BadFrontmatter(f.path, p.error)) else ConceptFrom(env, f.path, slug, p.value)
  }

  function ItemsOf(v: Option<Value>): seq<Value> { if v.Some? && v.value.Arr? then v.value.items else [] }

  function DecisionFrom(path: string, slug: string, p: Parsed): Result<Decision, Fault> {
    var decision := Or(StrOf(Field(p.data, "decision")), Trim(p.content));
    if decision == "" then Err(NoDecision(path))
    else Ok(Decision(slug, Or(StrOf(Field(p.data, "title")), slug), Or(StrOf(Field(p.data, "status")), "active"),
                     Or(StrOf(Field(p.data, "context")), "(imported without context)"), decision,
                     Or(StrOf(Field(p.data, "rationale")), ""), ItemsOf(Field(p.data, "alternatives"))))
  }

  function ParseDecision(env: Env, f: File, slug: string): Result<Decision, Fault> {
    var p := ParseFrontmatter(env.yaml, f.content);
    if p.Err? then Err(BadFrontmatter(f.path, p.error)) else DecisionFrom(f.path, slug, p.value)
  }

  predicate SourceKind(k: string) { k == "markdown" || k == "text" || k == "url" || k == "import" }

  function KindOf(v: Option<Value>): string {
    if v.Some? && v.value.Str? && SourceKind(v.value.s) then v.value.s else "import"
  }

  function SourceFrom(path: string, ref: string, p: Parsed): Result<ImportedSource, Fault> {
    if p.content == "" then Err(EmptySource(path))
    else Ok(ImportedSource(ref, KindOf(Field(p.data, "kind")), StrOf(Field(p.data, "url")),
      StrOf(Field(p.data, "title")), p.content))
  }

  function ParseSource(env: Env, f: File, ref: string): Result<ImportedSource, Fault> {
    var p := ParseFrontmatter(env.yaml, f.content);
    if p.Err? then Err(BadFrontmatter(f.path, p.error)) else SourceFrom(f.path, ref, p.value)
  }

  /** Documents without any of our fields: titles from the text or the name, and a decision from the body. */
  lemma ForeignDocuments(env: Env, path: string, name: string, content: string)
    ensures var p := Parsed(Obj(map[]), content);
      && ConceptFrom(env, path, name, p)
         == Ok(Concept(name, if env.titleOf(content).Some? then env.titleOf(content).value else name,
                       "", content, [], []))
      && DecisionFrom(path, name, p)
         == (if Trim(content) == "" then Err(NoDecision(path))
             else Ok(Decision(name, name, "active", "(imported without context)", Trim(content), "", [])))
      && SourceFrom(path, name, p)
         == (if content == "" then Err(EmptySource(path)) else Ok(ImportedSource(name, "import", None, None, content)))
  {
  }

  // --------------------------------------------- documents come back

  /** The names of the two derived files. */
  predicate Reserved(name: string) { name == "index" || name == "log" }

  predicate FairConcept(c: Concept) {
    Slug(c.slug) && c.title != "" && GoodClaims(c.claims) && GoodRelations(c.relations)
  }

  predicate FairDecision(d: Decision) {
    Slug(d.slug) && d.title != "" && d.status != "" && d.context != "" && d.decision != ""
  }

  predicate FairSource(s: Source) {
    && Free(s.hash, '/') && SourceKind(s.kind) && s.content != ""
    && (s.url.Some? ==> s.url.value != "") && (s.title.Some? ==> s.title.value != "")
  }

  predicate GoodConcept(c: Concept) { FairConcept(c) && !Reserved(c.slug) }

  predicate GoodDecision(d: Decision) { FairDecision(d) && !Reserved(d.slug) }

  predicate GoodSource(s: Source) { FairSource(s) && !Reserved(s.hash) }

  function RoundedConcept(c: Concept): Concept { c.(claims := Map(RoundedClaim, c.claims)) }

  function AsImported(s: Source): ImportedSource { ImportedSource(s.hash, s.kind, s.url, s.title, s.content) }

  /** An optional text entry, and an optional list. */
  function Entry(s: string): Option<Value> { if s != "" then Some(Str(s)) else None }

  lemma ConceptFields(c: Concept)
    ensures ConceptData(c) != map[]
    ensures Field(Obj(ConceptData(c)), "title") == Some(Str(c.title))
      && Field(Obj(ConceptData(c)), "summary") == Entry(c.summary)
    ensures Field(Obj(ConceptData(c)), "claims") == if c.claims != [] then Some(ClaimsValue(c.claims)) else None
    ensures Field(Obj(ConceptData(c)), "relations") == if c.relations != [] then Some(RelationsValue(c.relations))
      else None
  {
    assert "title" in ConceptData(c);
  }

  lemma ConceptFromFields(env: Env, path: string, c: Concept, data: Value)
    requires LeavesSlugs(env.lower) && GoodConcept(c)
    requires Field(data, "title") == Some(Str(c.title)) && Field(data, "summary") == Entry(c.summary)
    requires Field(data, "claims") == if c.claims != [] then Some(ClaimsValue(c.claims)) else None
    requires Field(data, "relations") == if c.relations != [] then Some(RelationsValue(c.relations)) else None
    ensures ConceptFrom(env, path, c.slug, Parsed(data, c.markdown)) == Ok(RoundedConcept(c))
  {
    ClaimsBack(c.claims, Field(data, "claims"));
    RelationsBack(env.lower, c.relations, Field(data, "relations"));
    TextBack(c.summary);
  }

  lemma ClaimsBack(claims: seq<Claim>, v: Option<Value>)
    requires GoodClaims(claims) && v == if claims != [] then Some(ClaimsValue(claims)) else None
    ensures ClaimsOf(v) == Some(Map(RoundedClaim, claims))
  {
    if claims != [] { ClaimsReturn(claims); } else { assert Map(RoundedClaim, claims) == []; }
  }

  lemma RelationsBack(lower: Lower, relations: seq<Relation>, v: Option<Value>)
    requires LeavesSlugs(lower) && GoodRelations(relations)
      && v == if relations != [] then Some(RelationsValue(relations)) else None
    ensures RelationsOf(lower, v) == Some(relations)
  {
    if relations != [] { RelationsReturn(lower, relations); }
  }

  lemma TextBack(text: string)
    ensures Or(StrOf(Entry(text)), "") == text
  {
  }

  lemma ConceptReturns(env: Env, c: Concept)
    requires Sane(env) && GoodConcept(c)
    ensures ParseConcept(env, ConceptFile(env, c), c.slug) == Ok(RoundedConcept(c))
  {
    ConceptFields(c);
    FrontmatterRoundTrips(env.yaml, Obj(ConceptData(c)), c.markdown);
    ConceptFromFields(env, ConceptFile(env, c).path, c, Obj(ConceptData(c)));
  }

  lemma DecisionFields(d: Decision)
    ensures DecisionData(d) != map[]
    ensures Field(Obj(DecisionData(d)), "title") == Some(Str(d.title))
      && Field(Obj(DecisionData(d)), "status") == Some(Str(d.status))
    ensures Field(Obj(DecisionData(d)), "context") == Some(Str(d.context))
      && Field(Obj(DecisionData(d)), "decision") == Some(Str(d.decision))
    ensures Field(Obj(DecisionData(d)), "rationale") == Entry(d.rationale)
    ensures Field(Obj(DecisionData(d)), "alternatives") == if d.alternatives != [] then Some(Arr(d.alternatives))
      else None
  {
    assert "title" in DecisionData(d);
  }

  lemma DecisionReturns(env: Env, d: Decision)
    requires Sane(env) && GoodDecision(d)
    ensures ParseDecision(env, DecisionFile(env, d), d.slug) == Ok(d)
  {
    DecisionFields(d);
    FrontmatterRoundTrips(env.yaml, Obj(DecisionData(d)), "");
    DecisionFromFields(DecisionFile(env, d).path, d, Obj(DecisionData(d)));
  }

  lemma DecisionFromFields(path: string, d: Decision, data: Value)
    requires GoodDecision(d)
    requires Field(data, "title") == Some(Str(d.title)) && Field(data, "status") == Some(Str(d.status))
    requires Field(data, "context") == Some(Str(d.context)) && Field(data, "decision") == Some(Str(d.decision))
    requires Field(data, "rationale") == Entry(d.rationale)
    requires Field(data, "alternatives") == if d.alternatives != [] then Some(Arr(d.alternatives)) else None
    ensures DecisionFrom(path, d.slug, Parsed(data, "")) == Ok(d)
  {
  }

  lemma SourceFields(s: Source)
    ensures SourceData(s) != map[] && Field(Obj(SourceData(s)), "kind") == Some(Str(s.kind))
    ensures Field(Obj(SourceData(s)), "url") == Entry(Or(s.url, ""))
      && Field(Obj(SourceData(s)), "title") == Entry(Or(s.title, ""))
  {
    assert "kind" in SourceData(s);
  }

  lemma SourceReturns(env: Env, s: Source)
    requires Sane(env) && GoodSource(s)
    ensures ParseSource(env, SourceFile(env, s), s.hash) == Ok(AsImported(s))
  {
    SourceFields(s);
    FrontmatterRoundTrips(env.yaml, Obj(SourceData(s)), s.content);
  }

  // --------------------------------------------------------------- format

  datatype Snapshot = Snapshot(concepts: seq<Concept>, decisions: seq<Decision>, sources: seq<Source>)

  function BySlug(env: Env, s: seq<Concept>): seq<Concept> { SortBy(s, (c: Concept) => c.slug, env.before) }

  function DecisionsBySlug(env: Env, s: seq<Decision>): seq<Decision> { SortBy(s, (d: Decision) => d.slug, env.before) }

  function ByHash(env: Env, s: seq<Source>): seq<Source> { SortBy(s, (x: Source) => x.hash, env.before) }

  function ToConceptFile(env: Env): Concept -> File { c => ConceptFile(env, c) }

  function ToDecisionFile(env: Env): Decision -> File { d => DecisionFile(env, d) }

  function ToSourceFile(env: Env): Source -> File { s => SourceFile(env, s) }

  /** A bundle: the two derived files, then concepts, decisions and sources, each sorted. */
  function Files(snap: Snapshot, env: Env, index: string, log: string, conceptFile: Concept -> File,
    decisionFile: Decision -> File,
                 sourceFile: Source -> File): seq<File>
  {
    [File("index.md", index), File("log.md", log)]
    + Map(conceptFile, BySlug(env, snap.concepts))
    + Map(decisionFile, DecisionsBySlug(env, snap.decisions))
    + Map(sourceFile, ByHash(env, snap.sources))
  }

  /** serialize; index and log are the derived files, whatever their content. */
  method Serialize(env: Env, snap: Snapshot, index: string, log: string) returns (files: seq<File>)
    ensures files == Files(snap, env, index, log, ToConceptFile(env), ToDecisionFile(env), ToSourceFile(env))
  {
    files := [File("index.md", index), File("log.md", log)];
    var concepts := Push(files, BySlug(env, snap.concepts), ToConceptFile(env));
    var decisions := Push(concepts, DecisionsBySlug(env, snap.decisions), ToDecisionFile(env));
    files := Push(decisions, ByHash(env, snap.sources), ToSourceFile(env));
  }

  method Push<T>(files: seq<File>, items: seq<T>, toFile: T -> File) returns (r: seq<File>)
    ensures r == files + Map(toFile, items)
  {
    r := files;
    for i := 0 to |items|
      invariant r == files + Map(toFile, items[..i])
    {
      r := r + [toFile(items[i])];
      assert Map(toFile, items[..i + 1]) == Map(toFile, items[..i]) + [toFile(items[i])];
    }
    assert items[..|items|] == items;
  }

  predicate IsMarkdown(path: string) { |path| >= 3 && path[|path| - 3..] == ".md" }

  predicate Derived(path: string) { Base(path) == "index.md" || Base(path) == "log.md" }

  predicate Under(path: string, dir: string) { dir + "/" <= path }

  function AddConcept(b: Imported, c: Result<Concept, Fault>): Result<Imported, Fault> {
    if c.Err? then Err(c.error) else Ok(b.(concepts := b.concepts + [c.value]))
  }

  function AddDecision(b: Imported, d: Result<Decision, Fault>): Result<Imported, Fault> {
    if d.Err? then Err(d.error) else Ok(b.(decisions := b.decisions + [d.value]))
  }

  function AddSource(b: Imported, s: Result<ImportedSource, Fault>): Result<Imported, Fault> {
    if s.Err? then Err(s.error) else Ok(b.(sources := b.sources + [s.value]))
  }

  /** One file added to what has been read so far. */
  function ReadFile(env: Env, b: Imported, f: File): Result<Imported, Fault> {
    if !IsMarkdown(f.path) || Derived(f.path) then Ok(b)
    else if Under(f.path, "concepts") then
      AddConcept(b, ParseConcept(env, f, SlugFromPath(env.lower, f.path, "concepts/")))
    else if Under(f.path, "decisions") then
      AddDecision(b, ParseDecision(env, f, SlugFromPath(env.lower, f.path, "decisions/")))
    else if Under(f.path, "sources") then
      AddSource(b, ParseSource(env, f, Stem(Base(f.path))))
    else
      AddConcept(b, ParseConcept(env, f, SlugFromPath(env.lower, f.path, "")))
  }

  type Reader = (Imported, File) -> Result<Imported, Fault>

  /** A bundle read file by file; the first fault ends it. */
  function ReadAll(read: Reader, files: seq<File>): Result<Imported, Fault> {
    if files == [] then Ok(Imported([], [], []))
    else
      var b := ReadAll(read, files[..|files| - 1]);
      if b.Err? then b else read(b.value, files[|files| - 1])
  }

  function MarkdownReader(env: Env): Reader { (b, f) => ReadFile(env, b, f) }

  /** parse */
  method Parse(env: Env, files: seq<File>) returns (r: Result<Imported, Fault>)
    ensures r == ReadAll(MarkdownReader(env), files)
  {
    var b := Imported([], [], []);
    for i := 0 to |files|
      invariant ReadAll(MarkdownReader(env), files[..i]) == Ok(b)
    {
      assert files[..i + 1] == files[..i] + [files[i]];
      ReadOneMore(MarkdownReader(env), files[..i], files[i]);
      var step := ReadFile(env, b, files[i]);
      if step.Err? {
        FaultStays(MarkdownReader(env), files, i + 1);
        return Err(step.error);
      }
      b := step.value;
    }
    assert files[..|files|] == files;
    r := Ok(b);
  }

  lemma {:induction false} FaultStays(read: Reader, files: seq<File>, n: nat)
    requires n <= |files| && ReadAll(read, files[..n]).Err?
    ensures ReadAll(read, files) == ReadAll(read, files[..n])
    decreases |files| - n
  {
    if n == |files| {
      assert files[..n] == files;
    } else {
      assert files[..n + 1][..n] == files[..n];
      FaultStays(read, files, n + 1);
    }
  }

  // ----------------------------------------------------------- round trip

  lemma {:induction false} SlugHasNoSlash(slug: string)
    requires Slug(slug)
    ensures Free(slug, '/') && Free(slug + ".md", '/')
  {
  }

  /** A file one directory down: its directory, base name and stem. */
  lemma FiledPath(dir: string, name: string)
    requires Free(dir, '/') && Free(name, '/') && name != "index" && name != "log"
    ensures var path := dir + "/" + name + ".md";
      IsMarkdown(path) && Base(path) == name + ".md" && !Derived(path) && Stem(Base(path)) == name && Under(path, dir)
  {
    var path := dir + "/" + name + ".md";
    assert path == dir + "/" + (name + ".md");
    BaseOfFiled(dir, name + ".md");
    assert (name + ".md")[..|name|] == name;
    assert "index.md"[..5] == "index" && "log.md"[..3] == "log";
  }

  lemma ReadAsConcept(env: Env, b: Imported, f: File, slug: string, c: Result<Concept, Fault>)
    requires IsMarkdown(f.path) && !Derived(f.path) && Under(f.path, "concepts")
    requires SlugFromPath(env.lower, f.path, "concepts/") == slug && ParseConcept(env, f, slug) == c
    ensures ReadFile(env, b, f) == AddConcept(b, c)
  {
  }

  lemma ReadAsDecision(env: Env, b: Imported, f: File, slug: string, d: Result<Decision, Fault>)
    requires IsMarkdown(f.path) && !Derived(f.path) && Under(f.path, "decisions")
    requires SlugFromPath(env.lower, f.path, "decisions/") == slug && ParseDecision(env, f, slug) == d
    ensures ReadFile(env, b, f) == AddDecision(b, d)
  {
    assert f.path[0] == 'd';
  }

  lemma ReadAsSource(env: Env, b: Imported, f: File, ref: string, s: Result<ImportedSource, Fault>)
    requires IsMarkdown(f.path) && !Derived(f.path) && Under(f.path, "sources")
    requires Stem(Base(f.path)) == ref && ParseSource(env, f, ref) == s
    ensures ReadFile(env, b, f) == AddSource(b, s)
  {
    assert f.path[0] == 's';
  }

  /** A slug's file: where it is, and the slug it yields. */
  lemma SlugFile(lower: Lower, dir: string, slug: string, path: string)
    requires Free(dir, '/') && Slug(slug) && slug != "index" && slug != "log" && path == dir + "/" + slug + ".md"
    ensures IsMarkdown(path) && !Derived(path) && Under(path, dir) && SlugFromPath(lower, path, dir + "/") == slug
  {
    SlugHasNoSlash(slug);
    FiledPath(dir, slug);
    FiledSlugReturns(lower, dir + "/", slug);
  }

  lemma DirsArePlain()
    ensures Free("concepts", '/') && Free("decisions", '/') && Free("sources", '/')
  {
  }

  lemma ConceptPath(env: Env, c: Concept)
    requires GoodConcept(c)
    ensures var path := ConceptFile(env, c).path;
      IsMarkdown(path) && !Derived(path) && Under(path, "concepts")
        && SlugFromPath(env.lower, path, "concepts/") == c.slug
  {
    DirsArePlain();
    SlugFile(env.lower, "concepts", c.slug, ConceptFile(env, c).path);
  }

  lemma DecisionPath(env: Env, d: Decision)
    requires GoodDecision(d)
    ensures var path := DecisionFile(env, d).path;
      IsMarkdown(path) && !Derived(path) && Under(path, "decisions")
        && SlugFromPath(env.lower, path, "decisions/") == d.slug
  {
    DirsArePlain();
    SlugFile(env.lower, "decisions", d.slug, DecisionFile(env, d).path);
  }

  lemma SourcePath(env: Env, s: Source)
    requires GoodSource(s)
    ensures var path := SourceFile(env, s).path;
      IsMarkdown(path) && !Derived(path) && Under(path, "sources") && Stem(Base(path)) == s.hash
  {
    FiledPath("sources", s.hash);
  }

  lemma ReadConcept(env: Env, b: Imported, c: Concept)
    requires Sane(env) && GoodConcept(c)
    ensures ReadFile(env, b, ConceptFile(env, c)) == AddConcept(b, Ok(RoundedConcept(c)))
  {
    ConceptReturns(env, c);
    ConceptPath(env, c);
    ReadAsConcept(env, b, ConceptFile(env, c), c.slug, Ok(RoundedConcept(c)));
  }

  lemma ReadDecision(env: Env, b: Imported, d: Decision)
    requires Sane(env) && GoodDecision(d)
    ensures ReadFile(env, b, DecisionFile(env, d)) == AddDecision(b, Ok(d))
  {
    DecisionReturns(env, d);
    DecisionPath(env, d);
    ReadAsDecision(env, b, DecisionFile(env, d), d.slug, Ok(d));
  }

  lemma ReadSource(env: Env, b: Imported, s: Source)
    requires Sane(env) && GoodSource(s)
    ensures ReadFile(env, b, SourceFile(env, s)) == AddSource(b, Ok(AsImported(s)))
  {
    SourceReturns(env, s);
    SourcePath(env, s);
    ReadAsSource(env, b, SourceFile(env, s), s.hash, Ok(AsImported(s)));
  }

  lemma ReadOneMore(read: Reader, files: seq<File>, f: File)
    ensures ReadAll(read, files + [f]) == if ReadAll(read, files).Err? then ReadAll(read, files)
      else read(ReadAll(read, files).value, f)
  {
    assert (files + [f])[..|files|] == files;
  }

  lemma MapUpto<A, B>(f: A -> B, s: seq<A>, n: nat)
    requires n < |s|
    ensures Map(f, s[..n + 1]) == Map(f, s[..n]) + [f(s[n])]
  {
  }

  /** Files whose reading takes one state to the next take the first state to the last. */
  lemma {:induction false} ReadSection<T>(read: Reader, files: seq<File>, items: seq<T>, toFile: T -> File,
    state: nat -> Imported, n: nat)
    requires n <= |items| && ReadAll(read, files) == Ok(state(0))
    requires forall i: nat :: i < |items| ==> read(state(i), toFile(items[i])) == Ok(state(i + 1))
    ensures ReadAll(read, files + Map(toFile, items[..n])) == Ok(state(n))
    decreases n
  {
    if n == 0 {
      assert files + Map(toFile, items[..0]) == files;
    } else {
      ReadSection(read, files, items, toFile, state, n - 1);
      MapUpto(toFile, items, n - 1);
      assert files + (Map(toFile, items[..n - 1]) + [toFile(items[n - 1])])
        == (files + Map(toFile, items[..n - 1])) + [toFile(items[n - 1])];
      ReadOneMore(read, files + Map(toFile, items[..n - 1]), toFile(items[n - 1]));
    }
  }

  predicate GoodSnapshot(snap: Snapshot) {
    && (forall i :: 0 <= i < |snap.concepts| ==> GoodConcept(snap.concepts[i]))
    && (forall i :: 0 <= i < |snap.decisions| ==> GoodDecision(snap.decisions[i]))
    && (forall i :: 0 <= i < |snap.sources| ==> GoodSource(snap.sources[i]))
  }

  lemma SortedIsGood(env: Env, snap: Snapshot)
    requires GoodSnapshot(snap)
    ensures forall i :: 0 <= i < |BySlug(env, snap.concepts)| ==> GoodConcept(BySlug(env, snap.concepts)[i])
    ensures forall i :: 0 <= i < |DecisionsBySlug(env, snap.decisions)| ==>
      GoodDecision(DecisionsBySlug(env, snap.decisions)[i])
    ensures forall i :: 0 <= i < |ByHash(env, snap.sources)| ==> GoodSource(ByHash(env, snap.sources)[i])
  {
    SortByPermutes(snap.concepts, (c: Concept) => c.slug, env.before);
    SortByPermutes(snap.decisions, (d: Decision) => d.slug, env.before);
    SortByPermutes(snap.sources, (x: Source) => x.hash, env.before);
    forall i | 0 <= i < |BySlug(env, snap.concepts)| ensures GoodConcept(BySlug(env, snap.concepts)[i]) {
      assert BySlug(env, snap.concepts)[i] in snap.concepts;
    }
    forall i | 0 <= i < |DecisionsBySlug(env, snap.decisions)|
      ensures GoodDecision(DecisionsBySlug(env, snap.decisions)[i]) {
      assert DecisionsBySlug(env, snap.decisions)[i] in snap.decisions;
    }
    forall i | 0 <= i < |ByHash(env, snap.sources)| ensures GoodSource(ByHash(env, snap.sources)[i]) {
      assert ByHash(env, snap.sources)[i] in snap.sources;
    }
  }

  /** What reading a bundle of the snapshot yields. */
  function Expected(env: Env, snap: Snapshot): Imported {
    Imported(Map(RoundedConcept, BySlug(env, snap.concepts)), DecisionsBySlug(env, snap.decisions),
      Map(AsImported, ByHash(env, snap.sources)))
  }

  lemma NameHasNoSlash(name: string)
    requires Free(name, '/')
    ensures Base(name) == name
  {
    var parts := [name];
    assert Join(parts, '/') == name;
    SplitJoin(parts, '/');
  }

  lemma ReadSkips(env: Env, b: Imported, f: File)
    requires !IsMarkdown(f.path) || Derived(f.path)
    ensures ReadFile(env, b, f) == Ok(b)
  {
  }

  lemma DerivedNames()
    ensures Derived("index.md") && Derived("log.md")
  {
    NameHasNoSlash("index.md");
    NameHasNoSlash("log.md");
  }

  lemma DerivedFilesAreSkipped(read: Reader, index: File, log: File)
    requires forall b :: read(b, index) == Ok(b) && read(b, log) == Ok(b)
    ensures ReadAll(read, [index, log]) == Ok(Imported([], [], []))
  {
    ReadOneMore(read, [], index);
    ReadOneMore(read, [index], log);
    assert [] + [index] == [index] && [index] + [log] == [index, log];
  }

  function Take<T>(s: seq<T>, n: nat): seq<T> { if n <= |s| then s[..n] else s }

  /** The states a bundle passes through while it is read. */
  function ConceptsAt(cs: seq<Concept>, n: nat): Imported { Imported(Map(RoundedConcept, Take(cs, n)), [], []) }

  function ConceptsRead(cs: seq<Concept>): nat -> Imported { (n: nat) => ConceptsAt(cs, n) }

  function DecisionsRead(b: Imported, ds: seq<Decision>): nat -> Imported { (n: nat) => b.(decisions := Take(ds, n)) }

  function SourcesRead(b: Imported, ss: seq<Source>): nat -> Imported {
    (n: nat) => b.(sources := Map(AsImported, Take(ss, n)))
  }

  lemma TakeUpto<T>(s: seq<T>, n: nat)
    requires n < |s|
    ensures Take(s, n + 1) == Take(s, n) + [s[n]]
  {
  }

  lemma ConceptPart(read: Reader, head: seq<File>, cs: seq<Concept>, cf: Concept -> File)
    requires ReadAll(read, head) == Ok(Imported([], [], []))
    requires forall i: nat :: i < |cs| ==> read(ConceptsRead(cs)(i), cf(cs[i])) == Ok(ConceptsRead(cs)(i + 1))
    ensures ReadAll(read, head + Map(cf, cs)) == Ok(Imported(Map(RoundedConcept, cs), [], []))
  {
    WholeList(cs);
    assert Map(RoundedConcept, cs[..0]) == [];
    ReadSection(read, head, cs, cf, ConceptsRead(cs), |cs|);
  }

  lemma DecisionPart(read: Reader, files: seq<File>, b: Imported, ds: seq<Decision>, df: Decision -> File)
    requires ReadAll(read, files) == Ok(b) && b.decisions == []
    requires forall i: nat, b :: i < |ds| ==> read(b, df(ds[i])) == Ok(b.(decisions := b.decisions + [ds[i]]))
    ensures ReadAll(read, files + Map(df, ds)) == Ok(b.(decisions := ds))
  {
    WholeList(ds);
    var state := DecisionsRead(b, ds);
    forall i: nat | i < |ds| ensures read(state(i), df(ds[i])) == Ok(state(i + 1)) { TakeUpto(ds, i); }
    ReadSection(read, files, ds, df, state, |ds|);
  }

  lemma SourcePart(read: Reader, files: seq<File>, b: Imported, ss: seq<Source>, sf: Source -> File)
    requires ReadAll(read, files) == Ok(b) && b.sources == []
    requires forall i: nat, b :: i < |ss| ==> read(b, sf(ss[i])) == Ok(b.(sources := b.sources + [AsImported(ss[i])]))
    ensures ReadAll(read, files + Map(sf, ss)) == Ok(b.(sources := Map(AsImported, ss)))
  {
    WholeList(ss);
    assert Map(AsImported, ss[..0]) == [];
    var state := SourcesRead(b, ss);
    forall i: nat | i < |ss| ensures read(state(i), sf(ss[i])) == Ok(state(i + 1)) { MapUpto(AsImported, ss, i); }
    ReadSection(read, files, ss, sf, state, |ss|);
  }

  /** Whatever the format: if each file adds its own item, reading the bundle collects them all, in order. */
  lemma AllSections(read: Reader, head: seq<File>, cs: seq<Concept>, ds: seq<Decision>, ss: seq<Source>,
                    cf: Concept -> File, df: Decision -> File, sf: Source -> File)
    requires ReadAll(read, head) == Ok(Imported([], [], []))
    requires forall i: nat :: i < |cs| ==> read(ConceptsRead(cs)(i), cf(cs[i])) == Ok(ConceptsRead(cs)(i + 1))
    requires forall i: nat, b :: i < |ds| ==> read(b, df(ds[i])) == Ok(b.(decisions := b.decisions + [ds[i]]))
    requires forall i: nat, b :: i < |ss| ==> read(b, sf(ss[i])) == Ok(b.(sources := b.sources + [AsImported(ss[i])]))
    ensures ReadAll(read, head + Map(cf, cs) + Map(df, ds) + Map(sf, ss))
      == Ok(Imported(Map(RoundedConcept, cs), ds, Map(AsImported, ss)))
  {
    ConceptPart(read, head, cs, cf);
    DecisionPart(read, head + Map(cf, cs), Imported(Map(RoundedConcept, cs), [], []), ds, df);
    SourcePart(read, head + Map(cf, cs) + Map(df, ds), Imported(Map(RoundedConcept, cs), ds, []), ss, sf);
  }

  lemma WholeList<T>(s: seq<T>)
    ensures s[..|s|] == s && s[..0] == []
  {
  }

  /** parse(serialize(snapshot)) is the snapshot, sorted, with confidences rounded to four places. */
  lemma MarkdownRoundTrips(env: Env, snap: Snapshot, index: string, log: string)
    requires Sane(env) && GoodSnapshot(snap)
    ensures ReadAll(MarkdownReader(env), Files(snap, env, index, log, ToConceptFile(env), ToDecisionFile(env),
      ToSourceFile(env)))
      == Ok(Expected(env, snap))
  {
    var cs, ds, ss := BySlug(env, snap.concepts), DecisionsBySlug(env, snap.decisions), ByHash(env, snap.sources);
    SortedIsGood(env, snap);
    MarkdownHead(env, File("index.md", index), File("log.md", log));
    MarkdownReads(env, cs, ds, ss);
    AllSections(MarkdownReader(env), [File("index.md", index), File("log.md", log)], cs, ds, ss,
                ToConceptFile(env), ToDecisionFile(env), ToSourceFile(env));
  }

  lemma MarkdownHead(env: Env, index: File, log: File)
    requires index.path == "index.md" && log.path == "log.md"
    ensures ReadAll(MarkdownReader(env), [index, log]) == Ok(Imported([], [], []))
  {
    DerivedNames();
    forall b ensures MarkdownReader(env)(b, index) == Ok(b) && MarkdownReader(env)(b, log) == Ok(b) {
      ReadSkips(env, b, index);
      ReadSkips(env, b, log);
    }
    DerivedFilesAreSkipped(MarkdownReader(env), index, log);
  }

  lemma MarkdownReads(env: Env, cs: seq<Concept>, ds: seq<Decision>, ss: seq<Source>)
    requires Sane(env) && forall i :: 0 <= i < |cs| ==> GoodConcept(cs[i])
    requires (forall i :: 0 <= i < |ds| ==> GoodDecision(ds[i])) && forall i :: 0 <= i < |ss| ==> GoodSource(ss[i])
    ensures forall i: nat :: i < |cs| ==>
      MarkdownReader(env)(ConceptsRead(cs)(i), ToConceptFile(env)(cs[i])) == Ok(ConceptsRead(cs)(i + 1))
    ensures forall i: nat, b :: i < |ds| ==>
      MarkdownReader(env)(b, ToDecisionFile(env)(ds[i])) == Ok(b.(decisions := b.decisions + [ds[i]]))
    ensures forall i: nat, b :: i < |ss| ==>
      MarkdownReader(env)(b, ToSourceFile(env)(ss[i])) == Ok(b.(sources := b.sources + [AsImported(ss[i])]))
  {
    forall i: nat | i < |cs| ensures MarkdownReader(env)(ConceptsRead(cs)(i), ToConceptFile(env)(cs[i])) ==
      Ok(ConceptsRead(cs)(i + 1)) {
      MarkdownConcept(env, cs, i);
    }
    forall i: nat, b | i < |ds| ensures MarkdownReader(env)(b, ToDecisionFile(env)(ds[i])) ==
      Ok(b.(decisions := b.decisions + [ds[i]])) {
      ReadDecision(env, b, ds[i]);
    }
    forall i: nat, b | i < |ss| ensures MarkdownReader(env)(b, ToSourceFile(env)(ss[i])) ==
      Ok(b.(sources := b.sources + [AsImported(ss[i])])) {
      ReadSource(env, b, ss[i]);
    }
  }

  lemma MarkdownConcept(env: Env, cs: seq<Concept>, i: nat)
    requires Sane(env) && i < |cs| && GoodConcept(cs[i])
    ensures ReadFile(env, ConceptsRead(cs)(i), ConceptFile(env, cs[i])) == Ok(ConceptsRead(cs)(i + 1))
  {
    ReadConcept(env, ConceptsRead(cs)(i), cs[i]);
    MapUpto(RoundedConcept, cs, i);
  }

  predicate Settled(c: Concept) { RoundedConcept(c) == c }

  /** So nothing is lost, gained or changed, when confidences have at most four places. */
  lemma RoundTripKeepsEverything(env: Env, snap: Snapshot)
    requires forall i :: 0 <= i < |snap.concepts| ==> Settled(snap.concepts[i])
    ensures multiset(Expected(env, snap).concepts) == multiset(snap.concepts)
    ensures multiset(Expected(env, snap).decisions) == multiset(snap.decisions)
    ensures |Expected(env, snap).sources| == |snap.sources|
    ensures forall x :: x in Expected(env, snap).sources <==> exists s :: s in snap.sources && x == AsImported(s)
  {
    SortByPermutes(snap.concepts, (c: Concept) => c.slug, env.before);
    SortByPermutes(snap.decisions, (d: Decision) => d.slug, env.before);
    SortByPermutes(snap.sources, (x: Source) => x.hash, env.before);
    var cs, ss := BySlug(env, snap.concepts), ByHash(env, snap.sources);
    forall i | 0 <= i < |cs| ensures RoundedConcept(cs[i]) == cs[i] {
      assert cs[i] in snap.concepts;
      var k :| 0 <= k < |snap.concepts| && snap.concepts[k] == cs[i];
      assert Settled(snap.concepts[k]);
    }
    assert Map(RoundedConcept, cs) == cs;
    forall x ensures x in Map(AsImported, ss) <==> exists s :: s in snap.sources && x == AsImported(s) {
      if x in Map(AsImported, ss) {
        var i :| 0 <= i < |ss| && Map(AsImported, ss)[i] == x;
        assert ss[i] in snap.sources;
      }
      if s :| s in snap.sources && x == AsImported(s) {
        assert s in ss;
        var i :| 0 <= i < |ss| && ss[i] == s;
        assert Map(AsImported, ss)[i] == x;
      }
    }
  }

  /** An entry is skipped by the reader exactly when its slug, or its content hash, is index or log. */
  lemma ReservedNamesAreLost(env: Env, b: Imported, c: Concept, d: Decision, s: Source)
    requires Sane(env) && FairConcept(c) && FairDecision(d) && FairSource(s)
    ensures ReadFile(env, b, ConceptFile(env, c)) == if Reserved(c.slug) then Ok(b)
      else AddConcept(b, Ok(RoundedConcept(c)))
    ensures ReadFile(env, b, DecisionFile(env, d)) == if Reserved(d.slug) then Ok(b) else AddDecision(b, Ok(d))
    ensures ReadFile(env, b, SourceFile(env, s)) == if Reserved(s.hash) then Ok(b) else AddSource(b, Ok(AsImported(s)))
  {
    ConceptIsReadOrSkipped(env, b, c);
    DecisionIsReadOrSkipped(env, b, d);
    SourceIsReadOrSkipped(env, b, s);
  }

  lemma ConceptIsReadOrSkipped(env: Env, b: Imported, c: Concept)
    requires Sane(env) && FairConcept(c)
    ensures ReadFile(env, b, ConceptFile(env, c)) == if Reserved(c.slug) then Ok(b)
      else AddConcept(b, Ok(RoundedConcept(c)))
  {
    DirsArePlain();
    if Reserved(c.slug) {
      ReservedIsSkipped(env, b, "concepts", c.slug, ConceptFile(env, c));
    } else {
      ReadConcept(env, b, c);
    }
  }

  lemma DecisionIsReadOrSkipped(env: Env, b: Imported, d: Decision)
    requires Sane(env) && FairDecision(d)
    ensures ReadFile(env, b, DecisionFile(env, d)) == if Reserved(d.slug) then Ok(b) else AddDecision(b, Ok(d))
  {
    DirsArePlain();
    if Reserved(d.slug) {
      ReservedIsSkipped(env, b, "decisions", d.slug, DecisionFile(env, d));
    } else {
      ReadDecision(env, b, d);
    }
  }

  lemma SourceIsReadOrSkipped(env: Env, b: Imported, s: Source)
    requires Sane(env) && FairSource(s)
    ensures ReadFile(env, b, SourceFile(env, s)) == if Reserved(s.hash) then Ok(b) else AddSource(b, Ok(AsImported(s)))
  {
    DirsArePlain();
    if Reserved(s.hash) {
      ReservedIsSkipped(env, b, "sources", s.hash, SourceFile(env, s));
    } else {
      ReadSource(env, b, s);
    }
  }

  lemma ReservedIsSkipped(env: Env, b: Imported, dir: string, name: string, f: File)
    requires Reserved(name) && Free(dir, '/') && f.path == dir + "/" + name + ".md"
    ensures ReadFile(env, b, f) == Ok(b)
  {
    assert f.path == dir + "/" + (name + ".md");
    BaseOfFiled(dir, name + ".md");
    ReadSkips(env, b, f);
  }
}
