/**
 * Runs of the review gate that reach what its documentation does not lead one to expect
 * (src/domain/proposals.ts).
 *
 * Staging and approval are always possible where their checks pass, so runs can be
 * built step by step; the results of each step are those of the modules it comes from.
 */
module ReviewRuns {
  import opened Wrappers
  import opened Text
  import opened Staging
  import opened Approval
  import C = Contradictions

  // ------------------------------------------------- a staging's new state

  function Entry(concepts: seq<ConceptIn>, slug: string): Option<ConceptIn> {
    if concepts == [] then None
    else if concepts[|concepts| - 1].slug == slug then Some(concepts[|concepts| - 1])
    else Entry(concepts[..|concepts| - 1], slug)
  }

  lemma {:induction false} EntryIs(concepts: seq<ConceptIn>, slug: string)
    requires forall i, j :: 0 <= i < j < |concepts| ==> concepts[i].slug != concepts[j].slug
    ensures forall i :: 0 <= i < |concepts| && concepts[i].slug == slug ==> Entry(concepts, slug) == Some(concepts[i])
    ensures (forall i :: 0 <= i < |concepts| ==> concepts[i].slug != slug) ==> Entry(concepts, slug).None?
    decreases |concepts|
  {
    if concepts != [] {
      var init := concepts[..|concepts| - 1];
      EntryIs(init, slug);
      forall i | 0 <= i < |concepts| && concepts[i].slug == slug ensures Entry(concepts, slug) == Some(concepts[i]) {
        if i < |init| { assert init[i] == concepts[i]; }
      }
    }
  }

  function DecisionEntry(decisions: seq<DecisionIn>, slug: string): Option<DecisionIn> {
    if decisions == [] then None
    else if decisions[|decisions| - 1].slug == slug then Some(decisions[|decisions| - 1])
    else DecisionEntry(decisions[..|decisions| - 1], slug)
  }

  lemma {:induction false} DecisionEntryIs(decisions: seq<DecisionIn>, slug: string)
    requires forall i, j :: 0 <= i < j < |decisions| ==> decisions[i].slug != decisions[j].slug
    ensures forall i :: 0 <= i < |decisions| && decisions[i].slug == slug ==>
      DecisionEntry(decisions, slug) == Some(decisions[i])
    ensures (forall i :: 0 <= i < |decisions| ==> decisions[i].slug != slug) ==> DecisionEntry(decisions, slug).None?
    decreases |decisions|
  {
    if decisions != [] {
      var init := decisions[..|decisions| - 1];
      DecisionEntryIs(init, slug);
      forall i | 0 <= i < |decisions| && decisions[i].slug == slug
        ensures DecisionEntry(decisions, slug) == Some(decisions[i]) {
        if i < |init| { assert init[i] == decisions[i]; }
      }
    }
  }

  function StagedConcepts(concepts: map<string, Concept>, input: Input): map<string, Concept> {
    var named := (set i | 0 <= i < |input.concepts| :: input.concepts[i].slug)
      + set k | 0 <= k < |AddedEdges(input.concepts)| :: AddedEdges(input.concepts)[k].to;
    map slug | slug in concepts.Keys + named :: if slug in concepts then concepts[slug] else Concept(None, false)
  }

  function StagedRevisions(db: Db, entries: seq<ConceptIn>, id: Id): map<string, seq<Revision>> {
    map slug | slug in db.revisions.Keys + (set i | 0 <= i < |entries| :: entries[i].slug) ::
      var e, was := Entry(entries, slug), Revs(db.revisions, slug);
      was + if e.Some? then [StagedRevision(db.concepts, was, e.value, id)] else []
  }

  function StagedRelations(relations: map<Edge, Relation>, added: seq<Edge>, removed: seq<Edge>, id: Id): map<Edge,
    Relation> {
    map e | e in relations.Keys + (set k | 0 <= k < |added| :: added[k]) ::
      if e in added then StagedRelation(Get(relations, e), id)
      else if e in removed && e in relations then relations[e].(removal := Some(id))
      else if e in relations then relations[e] else Relation(RelProposed, id, None)
  }

  function StagedDecisions(decisions: map<string, Decision>, entries: seq<DecisionIn>, id: Id): map<string, Decision> {
    map slug | slug in decisions.Keys + (set i | 0 <= i < |entries| :: entries[i].slug) ::
      var e := DecisionEntry(entries, slug);
      if e.Some? then StagedDecision(Get(decisions, slug), e.value, id)
      else if slug in decisions then decisions[slug] else Decision(DecisionIn(slug, "", None), DecProposed, id)
  }

  function AfterStaging(norm: Canonical, db: Db, hash: string, input: Input): Db {
    var id := |db.proposals|;
    Db(db.sources, StagedConcepts(db.concepts, input), StagedRevisions(db, input.concepts, id),
       db.claims + AllClaims(norm, input.concepts, id), db.carriers + AllCarriers(input.concepts),
       StagedRelations(db.relations, AddedEdges(input.concepts), input.removed, id),
       StagedDecisions(db.decisions, input.decisions, id),
       db.proposals + [Proposal(hash, Pending)], db.outbox + [ProposalCreated(id)])
  }

  lemma RevisionsAreStaged(db: Db, entries: seq<ConceptIn>, id: Id)
    requires forall i, j :: 0 <= i < j < |entries| ==> entries[i].slug != entries[j].slug
    ensures RevisionsStaged(db.concepts, db.revisions, StagedRevisions(db, entries, id), entries, id)
  {
    var after := StagedRevisions(db, entries, id);
    forall i | 0 <= i < |entries|
      ensures Revs(after, entries[i].slug)
        == Revs(db.revisions, entries[i].slug) + [StagedRevision(db.concepts, Revs(db.revisions, entries[i].slug),
          entries[i], id)]
    {
      EntryIs(entries, entries[i].slug);
    }
    forall slug | forall i :: 0 <= i < |entries| ==> entries[i].slug != slug
      ensures Revs(after, slug) == Revs(db.revisions, slug) {
      EntryIs(entries, slug);
    }
  }

  lemma RelationsAreStaged(relations: map<Edge, Relation>, added: seq<Edge>, removed: seq<Edge>, id: Id)
    ensures RelationsStaged(relations, StagedRelations(relations, added, removed, id), added, removed, id)
  {
  }

  lemma DecisionsAreStaged(decisions: map<string, Decision>, entries: seq<DecisionIn>, id: Id)
    requires forall i, j :: 0 <= i < j < |entries| ==> entries[i].slug != entries[j].slug
    ensures DecisionsStaged(decisions, StagedDecisions(decisions, entries, id), entries, id)
  {
    var after := StagedDecisions(decisions, entries, id);
    forall i | 0 <= i < |entries|
      ensures Get(after, entries[i].slug) == Some(StagedDecision(Get(decisions, entries[i].slug), entries[i], id))
    {
      DecisionEntryIs(entries, entries[i].slug);
    }
    forall slug | forall i :: 0 <= i < |entries| ==> entries[i].slug != slug
      ensures Get(after, slug) == Get(decisions, slug) {
      DecisionEntryIs(entries, slug);
    }
  }

  lemma ConceptsAreStaged(concepts: map<string, Concept>, input: Input)
    ensures ConceptsStaged(concepts, StagedConcepts(concepts, input), input)
  {
    var after := StagedConcepts(concepts, input);
    forall slug
      ensures Get(after, slug)
        == if slug in concepts then Some(concepts[slug]) else if Involved(input, slug) then Some(Concept(None, false))
          else None
    {
    }
  }

  /** Every staging has an outcome. */
  lemma StagingIsPossible(norm: Canonical, db: Db, hash: string, input: Input)
    requires UniqueSlugs(input)
    ensures Staged(norm, db, AfterStaging(norm, db, hash, input), hash, input, |db.proposals|)
  {
    ConceptsAreStaged(db.concepts, input);
    RevisionsAreStaged(db, input.concepts, |db.proposals|);
    RelationsAreStaged(db.relations, AddedEdges(input.concepts), input.removed, |db.proposals|);
    DecisionsAreStaged(db.decisions, input.decisions, |db.proposals|);
  }

  // ------------------------------------------------ an approval's new state

  function Edges(s: C.Settings, db: Db, id: Id, kind: string): set<Edge>
    requires |db.claims| == |db.carriers|
  {
    set c: nat, o: nat | c < |db.claims| && o < |db.claims|
      && DerivedFrom(s, db, id, Edge(db.carriers[c], db.carriers[o], kind), c, o)
      :: Edge(db.carriers[c], db.carriers[o], kind)
  }

  function DerivedEdges(s: C.Settings, db: Db, id: Id): set<Edge>
    requires |db.claims| == |db.carriers|
  {
    Edges(s, db, id, "contradicts") + Edges(s, db, id, "supersedes")
  }

  lemma DerivedIsListed(s: C.Settings, db: Db, id: Id, e: Edge)
    requires |db.claims| == |db.carriers|
    ensures Derived(s, db, id, e) <==> e in DerivedEdges(s, db, id)
  {
    if Derived(s, db, id, e) {
      var c, o :| 0 <= c < |db.claims| && 0 <= o < |db.claims| && DerivedFrom(s, db, id, e, c, o);
      assert e == Edge(db.carriers[c], db.carriers[o], e.kind);
      assert e in Edges(s, db, id, e.kind);
    }
  }

  function AppliedRelations(s: C.Settings, db: Db, id: Id): map<Edge, Relation>
    requires |db.claims| == |db.carriers|
  {
    map e | e in db.relations.Keys + DerivedEdges(s, db, id) ::
      var r := RelationAfter(Get(db.relations, e), Derived(s, db, id, e), id);
      if r.Some? then r.value else Relation(RelProposed, id, None)
  }

  lemma RelationsAreApplied(s: C.Settings, db: Db, id: Id, e: Edge)
    requires |db.claims| == |db.carriers|
    ensures Get(AppliedRelations(s, db, id), e) == RelationAfter(Get(db.relations, e), Derived(s, db, id, e), id)
  {
    DerivedIsListed(s, db, id, e);
  }

  function AfterApproval(s: C.Settings, db: Db, id: Id): Db
    requires |db.claims| == |db.carriers| && id < |db.proposals|
  {
    Db(db.sources,
       map slug | slug in db.concepts ::
         db.concepts[slug].(current := FlippedCurrent(db.concepts[slug].current, Revs(db.revisions, slug), id)),
       map slug | slug in db.revisions :: FlippedRevs(CurrentOf(db.concepts, slug), db.revisions[slug], id),
       seq(|db.claims|, k requires 0 <= k < |db.claims| => db.claims[k].(status := C.Outcome(s, db.claims, id, k))),
       db.carriers, AppliedRelations(s, db, id),
       map slug | slug in db.decisions :: DecisionAfter(db.decisions, id, slug),
       db.proposals[id := db.proposals[id].(status := Approved)], db.outbox + [ProposalApproved(id)])
  }

  /** Every approval has an outcome. */
  lemma ApprovalIsPossible(s: C.Settings, db: Db, id: Id)
    requires |db.claims| == |db.carriers| && id < |db.proposals|
    ensures Applied(s, db, AfterApproval(s, db, id), id)
  {
    var after := AfterApproval(s, db, id);
    forall e ensures Get(after.relations, e) == RelationAfter(Get(db.relations, e), Derived(s, db, id, e), id) {
      RelationsAreApplied(s, db, id, e);
    }
    forall slug ensures Revs(after.revisions, slug) ==
      FlippedRevs(CurrentOf(db.concepts, slug), Revs(db.revisions, slug), id) {
      if slug !in db.revisions { assert FlippedRevs(CurrentOf(db.concepts, slug), [], id) == []; }
    }
  }

  lemma LogIsPossible(db: Db, id: Id, log: map<string, seq<nat>>) returns (longer: map<string, seq<nat>>)
    ensures Logged(db, id, log, longer)
  {
    longer := map slug | slug in log.Keys + db.revisions.Keys ::
      LogAfter(Revs(db.revisions, slug), LogOf(log, slug), id);
    forall slug ensures LogOf(longer, slug) == LogAfter(Revs(db.revisions, slug), LogOf(log, slug), id) {
    }
  }

  // ------------------------------------------------------------ single steps

  /** No concept is deleted and no removal is under way. */
  ghost predicate Clean(db: Db) {
    && (forall slug :: slug in db.concepts ==> !db.concepts[slug].deleted)
    && (forall e :: e in db.relations ==> db.relations[e].removal.None?)
  }

  /** One concept, with one claim at most and relations, and nothing else. */
  function OnConcept(slug: string, claims: seq<ClaimIn>, relations: seq<RelationIn>): Input {
    Input("", [], [ConceptIn(slug, "text", Absent, claims, relations)], [], [])
  }

  predicate Plain(claims: seq<ClaimIn>) {
    forall i :: 0 <= i < |claims| ==> claims[i].sources == [] && claims[i].supersedes.None?
  }

  lemma NotRefused(db: Db, slug: string, claims: seq<ClaimIn>, relations: seq<RelationIn>)
    requires Clean(db) && Plain(claims)
    ensures WellFormed(OnConcept(slug, claims, relations)) && Refusal(db, OnConcept(slug, claims, relations)).None?
  {
    var input := OnConcept(slug, claims, relations);
    assert input.concepts[0].claims == claims;
    assert SourcesKnown(db, input) && SupersedesVisible(db, input);
  }

  lemma StagingKeepsClean(norm: Canonical, before: Db, after: Db, hash: string, input: Input)
    requires Clean(before) && Staged(norm, before, after, hash, input, |before.proposals|) && input.removed == []
    ensures Clean(after)
  {
    forall slug | slug in after.concepts ensures !after.concepts[slug].deleted {
      assert Get(after.concepts, slug) == Some(after.concepts[slug]);
    }
    forall e | e in after.relations ensures after.relations[e].removal.None? {
      assert Get(after.relations, e) == Some(after.relations[e]);
    }
  }

  /** A proposal based on what is current when it is staged is not stale yet. */
  lemma FreshlyStagedIsNotStale(norm: Canonical, before: Db, after: Db, hash: string, input: Input)
    requires Gated(before) && Staged(norm, before, after, hash, input, |before.proposals|)
    requires forall i :: 0 <= i < |input.concepts| ==> input.concepts[i].base.Absent?
    ensures !Stale(after, |before.proposals|)
  {
    var id := |before.proposals|;
    forall slug | slug in after.revisions ensures !StaleAt(CurrentOf(after.concepts, slug), after.revisions[slug], id) {
      var was := Revs(before.revisions, slug);
      assert Revs(after.revisions, slug) == after.revisions[slug];
      CurrentStays(before.concepts, after.concepts, input, slug);
      forall k | 0 <= k < |was| ensures was[k].proposal != id {
        assert GateRevision(before.proposals, Revs(before.revisions, slug)[k]);
      }
      if i :| 0 <= i < |input.concepts| && input.concepts[i].slug == slug {
        assert after.revisions[slug] == was + [StagedRevision(before.concepts, was, input.concepts[i], id)];
      }
    }
  }

  lemma CurrentStays(before: map<string, Concept>, after: map<string, Concept>, input: Input, slug: string)
    requires ConceptsStaged(before, after, input)
    ensures CurrentOf(after, slug) == CurrentOf(before, slug)
  {
    assert slug in after ==> Get(after, slug) == Some(after[slug]);
    assert slug in before ==> Get(after, slug) == Some(before[slug]);
  }

  /** Another staging makes no proposal stale. */
  lemma StagingMakesNothingStale(norm: Canonical, before: Db, after: Db, hash: string, input: Input, id: Id)
    requires Staged(norm, before, after, hash, input, |before.proposals|) && id < |before.proposals|
      && !Stale(before, id)
    ensures !Stale(after, id)
  {
    forall slug | slug in after.revisions ensures !StaleAt(CurrentOf(after.concepts, slug), after.revisions[slug], id) {
      var was := Revs(before.revisions, slug);
      assert Revs(after.revisions, slug) == after.revisions[slug];
      CurrentStays(before.concepts, after.concepts, input, slug);
      assert slug in before.revisions ==> !StaleAt(CurrentOf(before.concepts, slug), was, id);
      if i :| 0 <= i < |input.concepts| && input.concepts[i].slug == slug {
        assert after.revisions[slug] == was + [StagedRevision(before.concepts, was, input.concepts[i],
          |before.proposals|)];
      }
    }
  }

  // ---------------------------------------------------------- building runs

  /** Some run takes these steps from an empty space to this state. */
  ghost predicate Reached(norm: Canonical, steps: seq<Step>, w: World) {
    exists worlds :: Run(norm, worlds, steps) && worlds[|steps|] == w
  }

  /** An empty space. */
  function Empty(): World { World(Db({}, map[], map[], [], [], map[], map[], [], []), map[]) }

  lemma EmptyIsReached(norm: Canonical)
    ensures Reached(norm, [], Empty())
  {
    assert Run(norm, [Empty()], []);
  }

  lemma ReachedIsSound(norm: Canonical, steps: seq<Step>, w: World)
    requires Reached(norm, steps, w)
    ensures Sound(w.db) && Linear(w.db, w.log)
  {
    var worlds :| Run(norm, worlds, steps) && worlds[|steps|] == w;
    EveryRunIsSound(norm, worlds, steps, |steps|);
  }

  lemma OneMore(norm: Canonical, steps: seq<Step>, w: World, v: World, step: Step)
    requires Reached(norm, steps, w) && Next(norm, w, v, step)
    ensures Reached(norm, steps + [step], v)
  {
    var worlds :| Run(norm, worlds, steps) && worlds[|steps|] == w;
    var longer, all := worlds + [v], steps + [step];
    forall i | 0 <= i < |all| ensures Next(norm, longer[i], longer[i + 1], all[i]) {
      if i < |steps| { assert Next(norm, worlds[i], worlds[i + 1], steps[i]); }
    }
    assert Run(norm, longer, all);
  }

  /** What a staging leaves of one relation. */
  function RelationStagedAt(db: Db, input: Input, e: Edge): Option<Relation> {
    if e in AddedEdges(input.concepts) then Some(StagedRelation(Get(db.relations, e), |db.proposals|))
      else Get(db.relations, e)
  }

  lemma StagingIsOpen(norm: Canonical, steps: seq<Step>, w: World, v: World, hash: string, input: Input)
    requires Reached(norm, steps, w) && Clean(w.db) && !HasPending(w.db, hash) && input.removed == []
    requires WellFormed(input) && Refusal(w.db, input).None? && v == World(AfterStaging(norm, w.db, hash, input), w.log)
    requires forall i :: 0 <= i < |input.concepts| ==> input.concepts[i].base.Absent?
    ensures Reached(norm, steps + [Stage(hash, input)], v) && Clean(v.db) && !Stale(v.db, |w.db.proposals|)
    ensures forall id: Id :: id < |w.db.proposals| && !Stale(w.db, id) ==> !Stale(v.db, id)
  {
    StagingIsPossible(norm, w.db, hash, input);
    OneMore(norm, steps, w, v, Stage(hash, input));
    StagingKeepsClean(norm, w.db, v.db, hash, input);
    ReachedIsSound(norm, steps, w);
    FreshlyStagedIsNotStale(norm, w.db, v.db, hash, input);
    forall id: Id | id < |w.db.proposals| && !Stale(w.db, id) ensures !Stale(v.db, id) {
      StagingMakesNothingStale(norm, w.db, v.db, hash, input, id);
    }
  }

  /** A one-concept proposal can always be staged; watch is any relation of interest. */
  lemma StageOne(norm: Canonical, steps: seq<Step>, w: World, hash: string, slug: string, claims: seq<ClaimIn>,
                 relations: seq<RelationIn>, watch: Edge)
    returns (v: World)
    requires Reached(norm, steps, w) && Clean(w.db) && Plain(claims) && !HasPending(w.db, hash)
    ensures Reached(norm, steps + [Stage(hash, OnConcept(slug, claims, relations))], v) && Clean(v.db)
    ensures v.db.proposals == w.db.proposals + [Proposal(hash, Pending)] && !Stale(v.db, |w.db.proposals|)
    ensures forall id: Id :: id < |w.db.proposals| && !Stale(w.db, id) ==> !Stale(v.db, id)
    ensures v.db.claims == w.db.claims + AllClaims(norm, OnConcept(slug, claims, relations).concepts, |w.db.proposals|)
    ensures v.db.carriers == w.db.carriers + AllCarriers(OnConcept(slug, claims, relations).concepts)
    ensures Get(v.db.relations, watch) == RelationStagedAt(w.db, OnConcept(slug, claims, relations), watch)
  {
    var input := OnConcept(slug, claims, relations);
    v := World(AfterStaging(norm, w.db, hash, input), w.log);
    NotRefused(w.db, slug, claims, relations);
    StagingIsOpen(norm, steps, w, v, hash, input);
  }

  lemma ApprovalKeepsClean(s: C.Settings, before: Db, id: Id)
    requires Clean(before) && |before.claims| == |before.carriers| && id < |before.proposals|
    ensures Clean(AfterApproval(s, before, id))
  {
    var after := AfterApproval(s, before, id);
    forall e | e in after.relations ensures after.relations[e].removal.None? { RelationsAreApplied(s, before, id, e); }
  }

  /** A pending proposal that is not stale can always be approved. */
  lemma ApproveOne(norm: Canonical, s: C.Settings, steps: seq<Step>, w: World, id: Id, watch: Edge) returns (v: World)
    requires Reached(norm, steps, w) && Clean(w.db) && Reviewable(w.db, id) && !Stale(w.db, id)
      && |w.db.claims| == |w.db.carriers|
    ensures Reached(norm, steps + [Approve(id)], v) && Clean(v.db)
    ensures v.db.proposals == w.db.proposals[id := w.db.proposals[id].(status := Approved)]
      && v.db.carriers == w.db.carriers
    ensures |v.db.claims| == |w.db.claims|
    ensures forall k :: 0 <= k < |w.db.claims| ==>
      v.db.claims[k] == w.db.claims[k].(status := C.Outcome(s, w.db.claims, id, k))
    ensures Get(v.db.relations, watch) == RelationAfter(Get(w.db.relations, watch), Derived(s, w.db, id, watch), id)
  {
    ApprovalIsPossible(s, w.db, id);
    var longer := LogIsPossible(w.db, id, w.log);
    v := World(AfterApproval(s, w.db, id), longer);
    OneMore(norm, steps, w, v, Approve(id));
    ApprovalKeepsClean(s, w.db, id);
  }

  /** A pending proposal can always be rejected. */
  lemma RejectOne(norm: Canonical, steps: seq<Step>, w: World, id: Id) returns (v: World)
    requires Reached(norm, steps, w) && Clean(w.db) && Reviewable(w.db, id)
    ensures Reached(norm, steps + [Reject(id)], v) && Clean(v.db) && v.db == Rejection(w.db, id)
  {
    v := World(Rejection(w.db, id), w.log);
    OneMore(norm, steps, w, v, Reject(id));
  }

  lemma OneEdge(slug: string, claims: seq<ClaimIn>, r: RelationIn)
    requires r.to != slug
    ensures AddedEdges(OnConcept(slug, claims, [r]).concepts) == [Edge(slug, r.to, r.kind)]
  {
    var entries := OnConcept(slug, claims, [r]).concepts;
    assert entries[..0] == [] && [r][..0] == [];
    assert EntryEdges(slug, [r]) == [Edge(slug, r.to, r.kind)];
  }

  lemma NoEdges(slug: string, claims: seq<ClaimIn>)
    ensures AddedEdges(OnConcept(slug, claims, []).concepts) == []
  {
    assert OnConcept(slug, claims, []).concepts[..0] == [];
  }

  lemma OneClaim(norm: Canonical, slug: string, object_: string, id: Id)
    ensures var entries := OnConcept(slug, [Saying(object_)], []).concepts;
      && AllCarriers(entries) == [slug]
      && AllClaims(norm, entries, id) == [Held(norm, object_, C.Proposed, id)]
  {
    var entries := OnConcept(slug, [Saying(object_)], []).concepts;
    assert entries[..0] == [];
  }

  lemma NoClaims(norm: Canonical, slug: string, relations: seq<RelationIn>, id: Id)
    ensures AllClaims(norm, OnConcept(slug, [], relations).concepts, id) == []
      && AllCarriers(OnConcept(slug, [], relations).concepts) == []
  {
    assert OnConcept(slug, [], relations).concepts[..0] == [];
  }

  // ---------------------------------------------------------------- takeover

  function Contested(): Edge { Edge("a", "b", "related") }

  function Contesting(): Input { OnConcept("a", [], [RelationIn("b", "related")]) }

  lemma ContestingAsserts(norm: Canonical, id: Id)
    ensures AddedEdges(Contesting().concepts) == [Contested()]
    ensures AllClaims(norm, Contesting().concepts, id) == [] && AllCarriers(Contesting().concepts) == []
  {
    OneEdge("a", [], RelationIn("b", "related"));
    NoClaims(norm, "a", [RelationIn("b", "related")], id);
  }

  lemma BothContest(norm: Canonical) returns (w: World)
    ensures Reached(norm, [] + [Stage("1", Contesting())] + [Stage("2", Contesting())], w) && Clean(w.db)
      && !Stale(w.db, 0)
    ensures w.db.proposals == [Proposal("1", Pending), Proposal("2", Pending)] && w.db.claims == []
      && w.db.carriers == []
    ensures Get(w.db.relations, Contested()) == Some(Relation(RelProposed, 1, None))
  {
    EmptyIsReached(norm);
    ContestingAsserts(norm, 0);
    ContestingAsserts(norm, 1);
    var w1 := StageOne(norm, [], Empty(), "1", "a", [], [RelationIn("b", "related")], Contested());
    w := StageOne(norm, [] + [Stage("1", Contesting())], w1, "2", "a", [], [RelationIn("b", "related")], Contested());
  }

  /** Two proposals assert one relation; the first is approved, and the relation stays inactive. */
  lemma TakeoverHappens(norm: Canonical) returns (steps: seq<Step>, w: World)
    ensures steps == [Stage("1", Contesting()), Stage("2", Contesting()), Approve(0)]
      && AddedEdges(Contesting().concepts) == [Contested()]
    ensures Reached(norm, steps, w) && ApprovedBy(w.db.proposals, 0) && !Active(w.db, Contested())
  {
    ContestingAsserts(norm, 0);
    var w2 := BothContest(norm);
    w := ApproveOne(norm, C.Settings([], []), [] + [Stage("1", Contesting())] + [Stage("2", Contesting())], w2, 0,
      Contested());
    steps := [] + [Stage("1", Contesting())] + [Stage("2", Contesting())] + [Approve(0)];
  }

  // -------------------------------------------------------------- provenance

  /** Every relation readers see names an approved proposal. */
  ghost predicate ApprovedProvenance(db: Db) {
    forall e :: Active(db, e) ==> ApprovedBy(db.proposals, db.relations[e].proposal)
  }

  /**
   * After an approval a derived relation names an approved proposal exactly when it is new or revives
   * the row of one.
   */
  lemma DerivedProvenance(s: C.Settings, before: Db, after: Db, id: Id, e: Edge)
    requires Applied(s, before, after, id)
    ensures Derived(s, before, id, e) ==> Active(after, e)
    ensures Derived(s, before, id, e) ==>
      (ApprovedBy(after.proposals, after.relations[e].proposal)
       <==> e !in before.relations || ApprovedBy(after.proposals, before.relations[e].proposal))
  {
    assert Get(after.relations, e) == RelationAfter(Get(before.relations, e), Derived(s, before, id, e), id);
  }

  /** So an approval keeps every visible relation's proposal an approved one exactly when it revives no other. */
  lemma ProvenanceKept(s: C.Settings, before: Db, after: Db, id: Id)
    requires Applied(s, before, after, id) && ApprovedProvenance(before)
    ensures ApprovedProvenance(after)
      <==> forall e :: Derived(s, before, id, e) && e in before.relations ==>
        ApprovedBy(after.proposals, before.relations[e].proposal)
  {
    forall e | Derived(s, before, id, e) ensures Active(after, e) { DerivedProvenance(s, before, after, id, e); }
    forall e | Active(after, e) && !Derived(s, before, id, e)
      ensures ApprovedBy(after.proposals, after.relations[e].proposal) {
      assert Get(after.relations, e) == RelationAfter(Get(before.relations, e), Derived(s, before, id, e), id);
      assert Active(before, e) ==> ApprovedBy(before.proposals, before.relations[e].proposal);
    }
    forall e | Derived(s, before, id, e)
      ensures ApprovedBy(after.proposals, after.relations[e].proposal)
        <==> e !in before.relations || ApprovedBy(after.proposals, before.relations[e].proposal)
    {
      DerivedProvenance(s, before, after, id, e);
    }
  }

  function Saying(object_: string): ClaimIn {
    ClaimIn(C.Incoming("it", "p", object_, None, C.Validity(C.Open, C.Open)), [], None, false)
  }

  function Held(norm: Canonical, object_: string, status: C.Status, id: Id): C.Claim {
    C.Claim(Saying(object_).triple, Some(norm(Saying(object_).triple)), status, Some(id), false, None)
  }

  /**
   * A claim of another concept says otherwise: approval disputes both and derives the relation between
   * their concepts.
   */
  lemma ClashDerives(norm: Canonical, s: C.Settings, db: Db)
    requires db.carriers == ["b", "a"] && C.Functional(s, "p") && norm(Saying("x").triple) != norm(Saying("y").triple)
    requires db.claims == [Held(norm, "x", C.Verified, 1), Held(norm, "y", C.Proposed, 2)]
    ensures Derived(s, db, 2, Edge("a", "b", "contradicts"))
  {
    assert C.WouldDispute(db.claims, 1, 0);
    assert C.Disputes(s, db.claims, 2, 1, 0);
    assert DerivedFrom(s, db, 2, Edge("a", "b", "contradicts"), 1, 0);
  }

  lemma FirstClaimIsVerified(norm: Canonical, s: C.Settings, claims: seq<C.Claim>)
    requires claims == [Held(norm, "x", C.Proposed, 1)]
    ensures C.Outcome(s, claims, 1, 0) == C.Verified
  {
    assert !C.Disputes(s, claims, 1, 0, 0);
  }

  function RejectionSteps(): seq<Step> {
    [] + [Stage("1", OnConcept("a", [], [RelationIn("b", "contradicts")]))] + [Reject(0)]
  }

  function Clashing(): Edge { Edge("a", "b", "contradicts") }

  lemma TurnedDown(norm: Canonical) returns (w: World)
    ensures Reached(norm, RejectionSteps(), w) && Clean(w.db)
    ensures Get(w.db.relations, Clashing()) == Some(Relation(RelRemoved, 0, None))
    ensures w.db.proposals == [Proposal("1", Turned)] && w.db.claims == [] && w.db.carriers == []
  {
    var r := RelationIn("b", "contradicts");
    OneEdge("a", [], r);
    NoClaims(norm, "a", [r], 0);
    EmptyIsReached(norm);
    var w1 := StageOne(norm, [], Empty(), "1", "a", [], [r], Clashing());
    w := RejectOne(norm, [] + [Stage("1", OnConcept("a", [], [r]))], w1, 0);
  }

  lemma FirstIsStaged(norm: Canonical, steps: seq<Step>, w2: World) returns (w3: World)
    requires Reached(norm, steps, w2) && Clean(w2.db)
    requires w2.db.proposals == [Proposal("1", Turned)] && w2.db.claims == [] && w2.db.carriers == []
    requires Get(w2.db.relations, Clashing()) == Some(Relation(RelRemoved, 0, None))
    ensures Reached(norm, steps + [Stage("2", OnConcept("b", [Saying("x")], []))], w3) && Clean(w3.db)
      && !Stale(w3.db, 1)
    ensures Get(w3.db.relations, Clashing()) == Some(Relation(RelRemoved, 0, None))
    ensures w3.db.proposals == [Proposal("1", Turned), Proposal("2", Pending)]
    ensures w3.db.claims == [Held(norm, "x", C.Proposed, 1)] && w3.db.carriers == ["b"]
  {
    OneClaim(norm, "b", "x", 1);
    NoEdges("b", [Saying("x")]);
    w3 := StageOne(norm, steps, w2, "2", "b", [Saying("x")], [], Clashing());
  }

  lemma ApprovalKeepsProposal(r: Option<Relation>, derived: bool, id: Id)
    requires r.Some?
    ensures RelationAfter(r, derived, id).Some? && RelationAfter(r, derived, id).value.proposal == r.value.proposal
  {
  }

  lemma FirstIsApproved(norm: Canonical, s: C.Settings, steps: seq<Step>, w3: World, e: Edge) returns (w4: World)
    requires Reached(norm, steps, w3) && Clean(w3.db) && !Stale(w3.db, 1)
    requires Get(w3.db.relations, e) == Some(Relation(RelRemoved, 0, None))
    requires w3.db.proposals == [Proposal("1", Turned), Proposal("2", Pending)]
    requires w3.db.claims == [Held(norm, "x", C.Proposed, 1)] && w3.db.carriers == ["b"]
    ensures Reached(norm, steps + [Approve(1)], w4) && Clean(w4.db)
    ensures Get(w4.db.relations, e).Some? && Get(w4.db.relations, e).value.proposal == 0
    ensures w4.db.proposals == [Proposal("1", Turned), Proposal("2", Approved)]
    ensures w4.db.claims == [Held(norm, "x", C.Verified, 1)] && w4.db.carriers == ["b"]
  {
    FirstClaimIsVerified(norm, s, w3.db.claims);
    ApprovalKeepsProposal(Get(w3.db.relations, e), Derived(s, w3.db, 1, e), 1);
    w4 := ApproveOne(norm, s, steps, w3, 1, e);
  }

  lemma SecondIsStaged(norm: Canonical, steps: seq<Step>, w4: World) returns (w5: World)
    requires Reached(norm, steps, w4) && Clean(w4.db)
    requires Get(w4.db.relations, Clashing()).Some? && Get(w4.db.relations, Clashing()).value.proposal == 0
    requires w4.db.proposals == [Proposal("1", Turned), Proposal("2", Approved)]
    requires w4.db.claims == [Held(norm, "x", C.Verified, 1)] && w4.db.carriers == ["b"]
    ensures Reached(norm, steps + [Stage("3", OnConcept("a", [Saying("y")], []))], w5) && Clean(w5.db)
      && !Stale(w5.db, 2)
    ensures Get(w5.db.relations, Clashing()).Some? && Get(w5.db.relations, Clashing()).value.proposal == 0
    ensures w5.db.proposals == [Proposal("1", Turned), Proposal("2", Approved), Proposal("3", Pending)]
    ensures w5.db.claims == [Held(norm, "x", C.Verified, 1), Held(norm, "y", C.Proposed, 2)]
      && w5.db.carriers == ["b", "a"]
  {
    OneClaim(norm, "a", "y", 2);
    NoEdges("a", [Saying("y")]);
    w5 := StageOne(norm, steps, w4, "3", "a", [Saying("y")], [], Clashing());
  }

  lemma RevivalIsActive(r: Option<Relation>, id: Id)
    requires r.Some?
    ensures RelationAfter(r, true, id) == Some(Relation(RelActive, r.value.proposal, None))
  {
  }

  /** Approving a proposal revives every relation it derives, whoever had asserted it. */
  lemma Revives(norm: Canonical, s: C.Settings, steps: seq<Step>, w: World, id: Id, e: Edge) returns (v: World)
    requires Reached(norm, steps, w) && Clean(w.db) && !Stale(w.db, id) && Reviewable(w.db, id)
      && Get(w.db.relations, e).Some?
    requires |w.db.claims| == |w.db.carriers| && Derived(s, w.db, id, e)
    ensures Reached(norm, steps + [Approve(id)], v)
    ensures v.db.proposals == w.db.proposals[id := w.db.proposals[id].(status := Approved)]
    ensures Get(v.db.relations, e) == Some(Relation(RelActive, Get(w.db.relations, e).value.proposal, None))
  {
    RevivalIsActive(Get(w.db.relations, e), id);
    v := ApproveOne(norm, s, steps, w, id, e);
  }

  /**
   * A proposal asserting a contradiction is rejected; later two claims approved one after
   * the other contradict each other, and the relation approval derives names the rejected one.
   */
  lemma RejectedProvenanceHappens(norm: Canonical) returns (steps: seq<Step>, w: World, e: Edge)
    requires norm(Saying("x").triple) != norm(Saying("y").triple)
    ensures Reached(norm, steps, w) && |steps| == 6 && steps[1] == Reject(0)
    ensures Get(w.db.relations, e) == Some(Relation(RelActive, 0, None))
    ensures |w.db.proposals| == 3 && w.db.proposals[0].status == Turned
  {
    var s := C.Settings([Some("p")], []);
    var w2 := TurnedDown(norm);
    var three := RejectionSteps() + [Stage("2", OnConcept("b", [Saying("x")], []))];
    var w3 := FirstIsStaged(norm, RejectionSteps(), w2);
    var w4 := FirstIsApproved(norm, s, three, w3, Clashing());
    var four := three + [Approve(1)];
    var w5 := SecondIsStaged(norm, four, w4);
    ClashDerives(norm, s, w5.db);
    w := Revives(norm, s, four + [Stage("3", OnConcept("a", [Saying("y")], []))], w5, 2, Clashing());
    steps, e := four + [Stage("3", OnConcept("a", [Saying("y")], []))] + [Approve(2)], Clashing();
  }

  // -------------------------------------------------------------- decisions

  /** One decision and nothing else. */
  function Deciding(d: DecisionIn): Input { Input("", [], [], [d], []) }

  lemma DecidingIsNotRefused(db: Db, d: DecisionIn)
    requires Clean(db)
    ensures WellFormed(Deciding(d)) && Refusal(db, Deciding(d)).None?
  {
    assert Deciding(d).decisions[0] == d;
    assert SourcesKnown(db, Deciding(d)) && SupersedesVisible(db, Deciding(d));
  }

  lemma DecideOne(norm: Canonical, steps: seq<Step>, w: World, hash: string, d: DecisionIn) returns (v: World)
    requires Reached(norm, steps, w) && Clean(w.db) && !HasPending(w.db, hash)
    requires w.db.claims == [] && w.db.carriers == []
    ensures Reached(norm, steps + [Stage(hash, Deciding(d))], v) && Clean(v.db) && !Stale(v.db, |w.db.proposals|)
    ensures v.db.proposals == w.db.proposals + [Proposal(hash, Pending)] && v.db.claims == [] && v.db.carriers == []
    ensures forall slug ::
      Get(v.db.decisions, slug)
      == if slug == d.slug then Some(StagedDecision(Get(w.db.decisions, slug), d, |w.db.proposals|))
         else Get(w.db.decisions, slug)
  {
    var input := Deciding(d);
    v := World(AfterStaging(norm, w.db, hash, input), w.log);
    DecidingIsNotRefused(w.db, d);
    StagingIsOpen(norm, steps, w, v, hash, input);
    DecisionsAreStaged(w.db.decisions, [d], |w.db.proposals|);
    assert [d][0] == d;
  }

  lemma ApproveDecisions(norm: Canonical, s: C.Settings, steps: seq<Step>, w: World, id: Id) returns (v: World)
    requires Reached(norm, steps, w) && Clean(w.db) && Reviewable(w.db, id) && !Stale(w.db, id)
    requires w.db.claims == [] && w.db.carriers == []
    ensures Reached(norm, steps + [Approve(id)], v) && Clean(v.db) && v.db.claims == [] && v.db.carriers == []
    ensures v.db.proposals == w.db.proposals[id := w.db.proposals[id].(status := Approved)]
    ensures v.db.decisions == map slug | slug in w.db.decisions :: DecisionAfter(w.db.decisions, id, slug)
  {
    ApprovalIsPossible(s, w.db, id);
    var longer := LogIsPossible(w.db, id, w.log);
    v := World(AfterApproval(s, w.db, id), longer);
    OneMore(norm, steps, w, v, Approve(id));
    ApprovalKeepsClean(s, w.db, id);
  }

  function Former(): DecisionIn { DecisionIn("old", "first", None) }

  function Latter(): DecisionIn { DecisionIn("new", "second", Some("old")) }

  /** A decision comes into force, another that replaces it is approved, and the first is superseded. */
  lemma ReplacementHappens(norm: Canonical) returns (steps: seq<Step>, w: World)
    ensures steps == [Stage("1", Deciding(Former())), Approve(0), Stage("2", Deciding(Latter())), Approve(1)]
    ensures Reached(norm, steps, w)
    ensures w.db.decisions
      == map["old" := Decision(Former(), DecSuperseded, 0), "new" := Decision(Latter(), DecActive, 1)]
  {
    var s := C.Settings([], []);
    var w2 := FormerIsActive(norm, s);
    var two := [] + [Stage("1", Deciding(Former()))] + [Approve(0)];
    var w3 := DecideOne(norm, two, w2, "2", Latter());
    OnlyTwo(w3.db.decisions, Decision(Former(), DecActive, 0), Decision(Latter(), DecProposed, 1));
    w := ApproveDecisions(norm, s, two + [Stage("2", Deciding(Latter()))], w3, 1);
    assert DecisionReplaced(w3.db.decisions, 1, "old") by { assert "new" in w3.db.decisions; }
    steps := two + [Stage("2", Deciding(Latter()))] + [Approve(1)];
  }

  lemma OnlyTwo(decisions: map<string, Decision>, old_: Decision, new_: Decision)
    requires forall slug ::
      Get(decisions, slug)
      == if slug == "new" then Some(new_) else if slug == "old" then Some(old_) else None
    ensures decisions == map["old" := old_, "new" := new_]
  {
    forall slug ensures slug in decisions <==> slug == "old" || slug == "new" {
      assert Get(decisions, slug).Some? <==> slug in decisions;
    }
    assert Get(decisions, "old") == Some(old_) && Get(decisions, "new") == Some(new_);
  }

  lemma FormerIsActive(norm: Canonical, s: C.Settings) returns (w2: World)
    ensures Reached(norm, [] + [Stage("1", Deciding(Former()))] + [Approve(0)], w2) && Clean(w2.db)
    ensures w2.db.claims == [] && w2.db.carriers == [] && w2.db.proposals == [Proposal("1", Approved)]
    ensures forall slug ::
      Get(w2.db.decisions, slug)
      == if slug == "old" then Some(Decision(Former(), DecActive, 0)) else None
  {
    EmptyIsReached(norm);
    var w1 := DecideOne(norm, [], Empty(), "1", Former());
    w2 := ApproveDecisions(norm, s, [] + [Stage("1", Deciding(Former()))], w1, 0);
    forall slug ensures Get(w2.db.decisions, slug)
      == if slug == "old" then Some(Decision(Former(), DecActive, 0)) else None
    {
      assert Get(w1.db.decisions, slug) == if slug == "old" then Some(Decision(Former(), DecProposed, 0)) else None;
    }
  }
}
