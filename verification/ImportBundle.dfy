/**
 * Importing a bundle (src/export/import.ts): sources go straight to the archive, everything
 * else becomes the arguments of one proposal.
 */
module ImportBundle {
  import opened Wrappers
  import opened Text
  import B = Bundles
  import C = Contradictions
  import P = Staging
  import S = SourceStreams

  // -------------------------------------------------------------- sources

  type Hash = string -> string

  /** A reference k leads to the content of some source that carries it as its file name or as its hash. */
  predicate LeadsTo(db: S.Db, ids: map<string, nat>, sources: seq<B.ImportedSource>, hash: Hash, k: string, i: nat)
    requires i < |sources| && k in ids
  {
    (sources[i].ref == k || hash(sources[i].content) == k) && S.At(db, ids[k], sources[i].content)
  }

  ghost predicate Grounded(db: S.Db, ids: map<string, nat>, sources: seq<B.ImportedSource>, hash: Hash) {
    forall k :: k in ids ==> exists i: nat :: i < |sources| && LeadsTo(db, ids, sources, hash, k, i)
  }

  lemma GroundedGrows(before: S.Db, after: S.Db, ids: map<string, nat>, sources: seq<B.ImportedSource>, hash: Hash,
    row: nat, i: nat)
    requires Grounded(before, ids, sources, hash) && i < |sources| && before.sources <= after.sources
      && S.At(after, row, sources[i].content)
    ensures Grounded(after, ids[sources[i].ref := row][hash(sources[i].content) := row], sources, hash)
  {
    var more := ids[sources[i].ref := row][hash(sources[i].content) := row];
    forall k | k in more ensures exists j: nat :: j < |sources| && LeadsTo(after, more, sources, hash, k, j) {
      if k == sources[i].ref || k == hash(sources[i].content) {
        assert LeadsTo(after, more, sources, hash, k, i);
      } else {
        var j: nat :| j < |sources| && LeadsTo(before, ids, sources, hash, k, j);
        assert LeadsTo(after, more, sources, hash, k, j);
      }
    }
  }

  /** No earlier source of the bundle has this one's file name. */
  predicate FirstOfName(sources: seq<B.ImportedSource>, i: nat) {
    i < |sources| && forall k :: 0 <= k < i ==> sources[k].ref != sources[i].ref
  }

  /** The reference k is the file name or the hash of an archived source. */
  predicate Names(sources: seq<B.ImportedSource>, hash: Hash, k: string, i: nat) {
    FirstOfName(sources, i) && (sources[i].ref == k || hash(sources[i].content) == k)
  }

  /** The references that lead somewhere are exactly those. */
  ghost predicate Keyed(ids: map<string, nat>, sources: seq<B.ImportedSource>, hash: Hash) {
    forall k :: k in ids <==> exists i: nat :: Names(sources, hash, k, i)
  }

  lemma KeyedGrows(ids: map<string, nat>, sources: seq<B.ImportedSource>, hash: Hash, n: nat, row: nat)
    requires n < |sources| && Keyed(ids, sources[..n], hash)
    ensures FirstOfName(sources, n) ==> Keyed(ids[sources[n].ref := row][hash(sources[n].content) := row],
      sources[..n + 1], hash)
    ensures !FirstOfName(sources, n) ==> Keyed(ids, sources[..n + 1], hash)
  {
    var longer := sources[..n + 1];
    forall k, i: nat ensures Names(longer, hash, k, i) <==>
      Names(sources[..n], hash, k, i) || (i == n && Names(longer, hash, k, n)) {
    }
    assert FirstOfName(longer, n) <==> FirstOfName(sources, n);
    if FirstOfName(sources, n) {
      var more := ids[sources[n].ref := row][hash(sources[n].content) := row];
      forall k ensures k in more <==> exists i: nat :: Names(longer, hash, k, i) {
        if k == sources[n].ref || k == hash(sources[n].content) { assert Names(longer, hash, k, n); }
      }
    }
  }

  /** Every source archived once, findable by file name and by hash; a repeated file name is ignored. */
  method UploadSources(db: S.Db, sources: seq<B.ImportedSource>, hash: Hash) returns (after: S.Db,
    ids: map<string, nat>)
    ensures db.sources <= after.sources && after.streams == db.streams && after.events == db.events
    ensures Grounded(after, ids, sources, hash) && Keyed(ids, sources, hash)
  {
    after, ids := db, map[];
    var seen: set<string> := {};
    for i := 0 to |sources|
      invariant db.sources <= after.sources && after.streams == db.streams && after.events == db.events
      invariant Grounded(after, ids, sources, hash) && Keyed(ids, sources[..i], hash)
      invariant forall ref :: ref in seen <==> exists k :: 0 <= k < i && sources[k].ref == ref
    {
      var s := sources[i];
      assert FirstOfName(sources, i) <==> s.ref !in seen;
      if s.ref !in seen {
        seen := seen + {s.ref};
        ghost var before := after;
        var row, created;
        after, row, created := S.Archive.CreateSource(after, S.Source(s.content, None, None, None));
        GroundedGrows(before, after, ids, sources, hash, row, i);
        KeyedGrows(ids, sources, hash, i, row);
        ids := ids[s.ref := row][hash(s.content) := row];
      } else {
        KeyedGrows(ids, sources, hash, i, 0);
      }
    }
    assert sources[..|sources|] == sources;
  }

  lemma {:induction false} EveryNameHasAFirst(sources: seq<B.ImportedSource>, i: nat) returns (j: nat)
    requires i < |sources|
    ensures j <= i && FirstOfName(sources, j) && sources[j].ref == sources[i].ref
  {
    if k: nat :| k < i && sources[k].ref == sources[i].ref {
      j := EveryNameHasAFirst(sources, k);
    } else {
      j := i;
    }
  }

  /** Every file name leads somewhere, and so does every archived source's hash. */
  lemma EveryReferenceLeads(ids: map<string, nat>, sources: seq<B.ImportedSource>, hash: Hash, i: nat)
    requires Keyed(ids, sources, hash) && i < |sources|
    ensures sources[i].ref in ids && (FirstOfName(sources, i) ==> hash(sources[i].content) in ids)
  {
    var j := EveryNameHasAFirst(sources, i);
    assert Names(sources, hash, sources[i].ref, j);
    if FirstOfName(sources, i) { assert Names(sources, hash, hash(sources[i].content), i); }
  }

  /** A hash leads to the content it is the hash of, unless some file goes by that hash's name with other content. */
  lemma HashReferencesResolve(db: S.Db, ids: map<string, nat>, sources: seq<B.ImportedSource>, hash: Hash, i: nat)
    requires Injective(hash) && Grounded(db, ids, sources, hash) && Keyed(ids, sources, hash) && FirstOfName(sources, i)
    requires forall j :: 0 <= j < |sources| && sources[j].ref == hash(sources[i].content) ==>
      sources[j].content == sources[i].content
    ensures hash(sources[i].content) in ids && S.At(db, ids[hash(sources[i].content)], sources[i].content)
  {
    EveryReferenceLeads(ids, sources, hash, i);
    var j: nat :| j < |sources| && LeadsTo(db, ids, sources, hash, hash(sources[i].content), j);
  }

  ghost predicate Injective(hash: Hash) { forall a, b :: hash(a) == hash(b) ==> a == b }

  /**
   * In a bundle of our own making, where files are named by hash, every reference to a file finds that
   * file's content.
   */
  lemma OwnReferencesResolve(db: S.Db, ids: map<string, nat>, sources: seq<B.ImportedSource>, hash: Hash, i: nat)
    requires Injective(hash) && Grounded(db, ids, sources, hash) && Keyed(ids, sources, hash) && i < |sources|
    requires forall k :: 0 <= k < |sources| ==> sources[k].ref == hash(sources[k].content)
    ensures sources[i].ref in ids && S.At(db, ids[sources[i].ref], sources[i].content)
  {
    var j := EveryNameHasAFirst(sources, i);
    assert hash(sources[j].content) == hash(sources[i].content);
    HashReferencesResolve(db, ids, sources, hash, j);
  }

  // ------------------------------------------------------------- proposal

  /** Citations that resolve; the others are dropped, and the claim kept. */
  function Resolved(citations: seq<B.Citation>, ids: map<string, nat>): seq<nat> {
    if citations == [] then []
    else
      var last := citations[|citations| - 1];
      Resolved(citations[..|citations| - 1], ids) + if last.source in ids then [ids[last.source]] else []
  }

  function ToClaim(c: B.Claim, ids: map<string, nat>): P.ClaimIn {
    P.ClaimIn(C.Incoming(c.subject, c.predicate_, c.object_, None, C.Validity(C.Open, C.Open)),
      Resolved(c.citations, ids), None, false)
  }

  function ToConcept(c: B.Concept, ids: map<string, nat>): P.ConceptIn {
    P.ConceptIn(c.slug, if c.markdown != "" then c.markdown else "# " + c.title + "\n", P.Absent,
                B.Map(x => ToClaim(x, ids), c.claims), B.Map((r: B.Relation) => P.RelationIn(r.to, r.kind),
                  c.relations))
  }

  function ToDecision(d: B.Decision): P.DecisionIn { P.DecisionIn(d.slug, d.decision, None) }

  predicate HasSlug<T>(items: seq<T>, slug: T -> string, x: string) {
    exists i :: 0 <= i < |items| && slug(items[i]) == x
  }

  /** The first entry of each slug, in order. */
  function FirstOnly<T>(items: seq<T>, slug: T -> string): seq<T> {
    if items == [] then []
    else
      var kept, last := FirstOnly(items[..|items| - 1], slug), items[|items| - 1];
      if HasSlug(kept, slug, slug(last)) then kept else kept + [last]
  }

  predicate Distinct<T>(items: seq<T>, slug: T -> string) {
    forall i, j :: 0 <= i < j < |items| ==> slug(items[i]) != slug(items[j])
  }

  lemma {:induction false} FirstOnlyIsDistinct<T>(items: seq<T>, slug: T -> string)
    ensures Distinct(FirstOnly(items, slug), slug)
    ensures forall x :: HasSlug(FirstOnly(items, slug), slug, x) <==> HasSlug(items, slug, x)
    decreases |items|
  {
    if items != [] {
      var init, last := items[..|items| - 1], items[|items| - 1];
      FirstOnlyIsDistinct(init, slug);
      assert items == init + [last];
      HasSlugAppend(init, slug, last);
      HasSlugAppend(FirstOnly(init, slug), slug, last);
    }
  }

  lemma HasSlugAppend<T>(items: seq<T>, slug: T -> string, last: T)
    ensures forall x :: HasSlug(items + [last], slug, x) <==> HasSlug(items, slug, x) || slug(last) == x
  {
    forall x ensures HasSlug(items + [last], slug, x) <==> HasSlug(items, slug, x) || slug(last) == x {
      if i :| 0 <= i < |items| && slug(items[i]) == x { assert slug((items + [last])[i]) == x; }
      assert slug((items + [last])[|items|]) == slug(last);
    }
  }

  /** Where slugs are distinct already nothing is dropped. */
  lemma {:induction false} DistinctIsKept<T>(items: seq<T>, slug: T -> string)
    requires Distinct(items, slug)
    ensures FirstOnly(items, slug) == items
    decreases |items|
  {
    if items != [] {
      var init, last := items[..|items| - 1], items[|items| - 1];
      forall i | 0 <= i < |init| ensures slug(init[i]) != slug(last) { assert init[i] == items[i]; }
      DistinctIsKept(init, slug);
      assert !HasSlug(init, slug, slug(last)) && items == init + [last];
    }
  }

  method Dedupe<T>(items: seq<T>, slug: T -> string) returns (r: seq<T>)
    ensures r == FirstOnly(items, slug)
  {
    r := [];
    var seen: set<string> := {};
    for n := 0 to |items|
      invariant r == FirstOnly(items[..n], slug)
      invariant forall x :: x in seen <==> HasSlug(r, slug, x)
    {
      assert items[..n + 1][..n] == items[..n];
      if slug(items[n]) !in seen {
        seen := seen + {slug(items[n])};
        HasSlugAppend(r, slug, items[n]);
        r := r + [items[n]];
      }
    }
    assert items[..|items|] == items;
  }

  function ConceptSlug(): B.Concept -> string { (c: B.Concept) => c.slug }

  function DecisionSlug(): B.Decision -> string { (d: B.Decision) => d.slug }

  /** bundleToProposalArgs */
  method ToProposal(bundle: B.Imported, ids: map<string, nat>, hash: string, sources: seq<nat>) returns (input: P.Input)
    ensures input.hash == hash && input.sources == sources && input.removed == []
    ensures input.concepts == B.Map(c => ToConcept(c, ids), FirstOnly(bundle.concepts, ConceptSlug()))
    ensures input.decisions == B.Map(ToDecision, FirstOnly(bundle.decisions, DecisionSlug()))
  {
    var concepts := Dedupe(bundle.concepts, ConceptSlug());
    var decisions := Dedupe(bundle.decisions, DecisionSlug());
    input := P.Input(hash, sources, B.Map(c => ToConcept(c, ids), concepts), B.Map(ToDecision, decisions), []);
  }

  /**
   * An imported concept keeps its slug, its text or else its title as a heading, its claims in order and its
   * relations; it is staged against whatever is current.
   */
  lemma ImportedConceptIs(c: B.Concept, ids: map<string, nat>, j: nat)
    ensures var entry := ToConcept(c, ids);
      && entry.slug == c.slug && entry.base.Absent?
      && entry.markdown == (if c.markdown == "" then "# " + c.title + "\n" else c.markdown)
      && |entry.claims| == |c.claims| && |entry.relations| == |c.relations|
      && (j < |c.claims| ==>
            var claim := entry.claims[j];
            && claim.triple.subject == c.claims[j].subject && claim.triple.predicate_ == c.claims[j].predicate_
            && claim.triple.object_ == c.claims[j].object_ && claim.triple.context.None?
            && claim.triple.validity == C.Validity(C.Open, C.Open)
            && claim.supersedes.None? && !claim.complementary)
      && (j < |c.relations| ==>
            entry.relations[j].to == c.relations[j].to && entry.relations[j].kind == c.relations[j].kind)
  {
  }

  /** A staged citation is a cited reference that leads somewhere; the others are dropped. */
  lemma {:induction false} ResolvedAre(citations: seq<B.Citation>, ids: map<string, nat>, x: nat)
    ensures x in Resolved(citations, ids) <==>
      exists c :: c in citations && c.source in ids && ids[c.source] == x
    ensures |Resolved(citations, ids)| <= |citations|
    decreases |citations|
  {
    if citations != [] {
      var init, last := citations[..|citations| - 1], citations[|citations| - 1];
      ResolvedAre(init, ids, x);
      assert citations == init + [last];
    }
  }

  /** An imported decision keeps its slug and text, and replaces nothing. */
  lemma ImportedDecisionIs(d: B.Decision)
    ensures ToDecision(d).slug == d.slug && ToDecision(d).text == d.decision && ToDecision(d).supersedes.None?
  {
  }

  /** The entries kept are the first of their slugs, in order. */
  lemma {:induction false} FirstOnlyKeeps<T>(items: seq<T>, slug: T -> string, k: nat)
    requires k < |items|
    ensures (forall i :: 0 <= i < k ==> slug(items[i]) != slug(items[k])) ==> items[k] in FirstOnly(items, slug)
    ensures forall x :: x in FirstOnly(items, slug) ==> x in items
    decreases |items|
  {
    var init, last := items[..|items| - 1], items[|items| - 1];
    assert items == init + [last];
    if k < |init| {
      FirstOnlyKeeps(init, slug, k);
      assert init[k] == items[k];
    } else if init != [] {
      FirstOnlyKeeps(init, slug, 0);
      FirstOnlyIsDistinct(init, slug);
    }
  }

  /**
   * What an import stages always passes the proposal's own refinements, unless the bundle holds no
   * knowledge at all.
   */
  lemma ImportIsWellFormed(bundle: B.Imported, ids: map<string, nat>, input: P.Input)
    requires input.removed == []
    requires input.concepts == B.Map(c => ToConcept(c, ids), FirstOnly(bundle.concepts, ConceptSlug()))
    requires input.decisions == B.Map(ToDecision, FirstOnly(bundle.decisions, DecisionSlug()))
    ensures P.WellFormed(input) <==> bundle.concepts != [] || bundle.decisions != []
  {
    FirstOnlyIsDistinct(bundle.concepts, ConceptSlug());
    FirstOnlyIsDistinct(bundle.decisions, DecisionSlug());
    var cs, ds := FirstOnly(bundle.concepts, ConceptSlug()), FirstOnly(bundle.decisions, DecisionSlug());
    NoneFromNone(bundle.concepts, ConceptSlug());
    NoneFromNone(bundle.decisions, DecisionSlug());
    forall i, j | 0 <= i < j < |input.concepts| ensures input.concepts[i].slug != input.concepts[j].slug {
      assert ConceptSlug()(cs[i]) != ConceptSlug()(cs[j]);
    }
    forall i, j | 0 <= i < j < |input.decisions| ensures input.decisions[i].slug != input.decisions[j].slug {
      assert DecisionSlug()(ds[i]) != DecisionSlug()(ds[j]);
      assert input.decisions[i] == ToDecision(ds[i]) && input.decisions[j] == ToDecision(ds[j]);
    }
  }

  lemma NoneFromNone<T>(items: seq<T>, slug: T -> string)
    ensures FirstOnly(items, slug) == [] <==> items == []
  {
    FirstOnlyIsDistinct(items, slug);
    if items != [] {
      assert HasSlug(items, slug, slug(items[0]));
    }
  }

  /** Citations that all resolve are all kept, in order. */
  lemma {:induction false} ResolvedKeepsAll(citations: seq<B.Citation>, ids: map<string, nat>)
    requires forall i :: 0 <= i < |citations| ==> citations[i].source in ids
    ensures |Resolved(citations, ids)| == |citations|
    ensures forall i :: 0 <= i < |citations| ==> Resolved(citations, ids)[i] == ids[citations[i].source]
    decreases |citations|
  {
    if citations != [] { ResolvedKeepsAll(citations[..|citations| - 1], ids); }
  }

  predicate NamedByHash(sources: seq<B.ImportedSource>, hash: Hash) {
    forall k :: 0 <= k < |sources| ==> sources[k].ref == hash(sources[k].content)
  }

  lemma OwnFilesAreNamedByHash(env: B.Env, sources: seq<B.Source>, hash: Hash)
    requires forall i :: 0 <= i < |sources| ==> hash(sources[i].content) == sources[i].hash
    ensures NamedByHash(B.Map(B.AsImported, B.ByHash(env, sources)), hash)
  {
    B.SortByPermutes(sources, (x: B.Source) => x.hash, env.before);
    var sorted := B.ByHash(env, sources);
    var files := B.Map(B.AsImported, sorted);
    forall k | 0 <= k < |files| ensures files[k].ref == hash(files[k].content) {
      assert files[k] == B.AsImported(sorted[k]) && sorted[k] in sources;
      var j :| 0 <= j < |sources| && sources[j] == sorted[k];
    }
  }

  lemma OwnSourceIsListed(env: B.Env, sources: seq<B.Source>, source: B.Source) returns (i: nat)
    requires source in sources
    ensures i < |B.ByHash(env, sources)| && B.Map(B.AsImported, B.ByHash(env, sources))[i] == B.AsImported(source)
  {
    B.SortByPermutes(sources, (x: B.Source) => x.hash, env.before);
    var sorted := B.ByHash(env, sources);
    assert source in sorted;
    i :| 0 <= i < |sorted| && sorted[i] == source;
  }

  /** Importing a space's own export: a citation of one of its sources finds that source's content. */
  lemma OwnCitationsResolve(env: B.Env, snap: B.Snapshot, hash: Hash, db: S.Db, ids: map<string, nat>,
    citation: B.Citation, source: B.Source)
    requires Injective(hash) && Grounded(db, ids, B.Expected(env, snap).sources, hash)
      && Keyed(ids, B.Expected(env, snap).sources, hash)
    requires forall i :: 0 <= i < |snap.sources| ==> hash(snap.sources[i].content) == snap.sources[i].hash
    requires source in snap.sources && citation.source == source.hash
    ensures citation.source in ids && S.At(db, ids[citation.source], source.content)
  {
    OwnFilesAreNamedByHash(env, snap.sources, hash);
    var i := OwnSourceIsListed(env, snap.sources, source);
    OwnReferencesResolve(db, ids, B.Expected(env, snap).sources, hash, i);
  }
}
