/** createProposal (src/domain/proposals.ts): the transaction that stages a change proposal. */
module Staging {
  // It stages revisions, claims, relations, decisions and removal markers without
  // touching what readers see.

  import opened Wrappers
  import opened Text
  import Locks = StagingLocks
  import C = Contradictions

  type Id = nat

  // ---------------------------------------------------------------- input

  /** base_revision_id: absent means "whatever is current at staging time". */
  datatype Base = Absent | Against(revision: Option<nat>)

  datatype ClaimIn = ClaimIn(triple: C.Incoming, sources: seq<Id>, supersedes: Option<Id>, complementary: bool)
  datatype RelationIn = RelationIn(to: string, kind: string)
  datatype ConceptIn = ConceptIn(slug: string, markdown: string, base: Base, claims: seq<ClaimIn>,
    relations: seq<RelationIn>)
  /** supersedes names the active decision this one replaces, by its slug. */
  datatype DecisionIn = DecisionIn(slug: string, text: string, supersedes: Option<string>)
  datatype Edge = Edge(from: string, to: string, kind: string)

  datatype Input = Input(
    hash: string, sources: seq<Id>, concepts: seq<ConceptIn>, decisions: seq<DecisionIn>, removed: seq<Edge>)

  /** Relations an entry asserts; relations of a concept to itself are dropped. */
  function EntryEdges(slug: string, relations: seq<RelationIn>): seq<Edge> {
    if relations == [] then []
    else
      var rest := EntryEdges(slug, relations[..|relations| - 1]);
      var r := relations[|relations| - 1];
      if r.to == slug then rest else rest + [Edge(slug, r.to, r.kind)]
  }

  function AddedEdges(concepts: seq<ConceptIn>): seq<Edge> {
    if concepts == [] then []
    else
      var last := concepts[|concepts| - 1];
      AddedEdges(concepts[..|concepts| - 1]) + EntryEdges(last.slug, last.relations)
  }

  predicate UniqueSlugs(input: Input) {
    && (forall i, j :: 0 <= i < j < |input.concepts| ==> input.concepts[i].slug != input.concepts[j].slug)
    && (forall i, j :: 0 <= i < j < |input.decisions| ==> input.decisions[i].slug != input.decisions[j].slug)
  }

  /** The schema's refinements. */
  predicate WellFormed(input: Input) {
    && (input.concepts != [] || input.decisions != [] || input.removed != [])
    && UniqueSlugs(input)
    && NoRepeats(input.removed)
    && forall i :: 0 <= i < |input.removed| ==> !Asserts(input.concepts, input.removed[i])
  }

  /** Some entry lists this relation, even one to itself. */
  predicate Asserts(concepts: seq<ConceptIn>, e: Edge) {
    exists i :: 0 <= i < |concepts| && concepts[i].slug == e.from && RelationIn(e.to, e.kind) in concepts[i].relations
  }

  // ------------------------------------------------------- effective hash

  function Line(e: Edge): string { e.from + "\t" + e.to + "\t" + e.kind }

  function Lines(edges: seq<Edge>): seq<string> {
    seq(|edges|, i requires 0 <= i < |edges| => Line(edges[i]))
  }

  /** The hash proposals are deduplicated by: the caller's, salted with the canonical removal set. */
  function EffectiveHash(sha: string -> string, input: Input): string {
    if input.removed == [] then input.hash
    else sha(input.hash + "\n" + Join(Sort(Lines(input.removed)), '\n'))
  }

  ghost predicate Injective(sha: string -> string) {
    forall a, b :: sha(a) == sha(b) ==> a == b
  }

  /** Slugs and relation kinds contain neither tabs nor line breaks; hashes are hexadecimal. */
  predicate CleanEdge(e: Edge) {
    && Free(e.from, '\n') && Free(e.to, '\n') && Free(e.kind, '\n')
    && Free(e.from, '\t') && Free(e.to, '\t') && Free(e.kind, '\t')
  }

  predicate Clean(input: Input) {
    Free(input.hash, '\n') && forall i :: 0 <= i < |input.removed| ==> CleanEdge(input.removed[i])
  }

  function Except<T>(s: seq<T>, k: nat): seq<T>
    requires k < |s|
  {
    s[..k] + s[k + 1..]
  }

  lemma ExceptCounts<T>(s: seq<T>, k: nat)
    requires k < |s|
    ensures multiset(Except(s, k)) == multiset(s) - multiset{s[k]}
  {
    assert s == s[..k] + [s[k]] + s[k + 1..];
  }

  lemma LinesExcept(s: seq<Edge>, k: nat)
    requires k < |s|
    ensures multiset(Lines(s)) == multiset(Lines(Except(s, k))) + multiset{Line(s[k])}
  {
    assert Lines(Except(s, k)) == Except(Lines(s), k);
    var t := Lines(s);
    assert t == t[..k] + [t[k]] + t[k + 1..];
  }

  lemma {:induction false} LinesOfPermutation(a: seq<Edge>, b: seq<Edge>)
    requires multiset(a) == multiset(b)
    ensures multiset(Lines(a)) == multiset(Lines(b))
    decreases |a|
  {
    if a == [] {
      assert |multiset(b)| == 0;
    } else {
      assert a[0] in multiset(b);
      var k :| 0 <= k < |b| && b[k] == a[0];
      ExceptCounts(a, 0);
      ExceptCounts(b, k);
      LinesOfPermutation(Except(a, 0), Except(b, k));
      LinesExcept(a, 0);
      LinesExcept(b, k);
    }
  }

  /** The salt ignores the order in which removals are listed. */
  lemma SaltIgnoresOrder(sha: string -> string, a: Input, b: Input)
    requires a.hash == b.hash && multiset(a.removed) == multiset(b.removed)
    ensures EffectiveHash(sha, a) == EffectiveHash(sha, b)
  {
    assert |a.removed| == |multiset(a.removed)| == |multiset(b.removed)| == |b.removed|;
    LinesOfPermutation(a.removed, b.removed);
    SortIgnoresOrder(Lines(a.removed), Lines(b.removed));
  }

  /** Without removals there is no salt. */
  lemma NoSaltWithoutRemovals(sha: string -> string, input: Input)
    ensures input.removed == [] ==> EffectiveHash(sha, input) == input.hash
  {
  }

  lemma LineIsInjective(a: Edge, b: Edge)
    requires CleanEdge(a) && CleanEdge(b) && Line(a) == Line(b)
    ensures a == b
  {
    LineIsJoin(a);
    LineIsJoin(b);
    var x, y := [a.from, a.to, a.kind], [b.from, b.to, b.kind];
    JoinIsInjective(x, y, '\t');
    assert a.from == x[0] && a.to == x[1] && a.kind == x[2];
  }

  lemma LineIsJoin(e: Edge)
    ensures Join([e.from, e.to, e.kind], '\t') == Line(e)
  {
    assert [e.from, e.to, e.kind][1..] == [e.to, e.kind] && [e.to, e.kind][1..] == [e.kind];
    assert Join([e.to, e.kind], '\t') == e.to + ['\t'] + e.kind;
    assert e.from + ['\t'] + (e.to + ['\t'] + e.kind) == e.from + "\t" + e.to + "\t" + e.kind;
  }

  lemma LineIsFree(e: Edge)
    requires CleanEdge(e)
    ensures Free(Line(e), '\n')
  {
  }

  lemma SortedLinesFree(edges: seq<Edge>)
    requires forall i :: 0 <= i < |edges| ==> CleanEdge(edges[i])
    ensures AllFree(Sort(Lines(edges)), '\n') && |Sort(Lines(edges))| == |edges|
  {
    var r := Sort(Lines(edges));
    SortSorts(Lines(edges));
    assert |r| == |multiset(r)| == |Lines(edges)|;
    forall i | 0 <= i < |r| ensures Free(r[i], '\n') {
      assert r[i] in multiset(Lines(edges));
      var k :| 0 <= k < |edges| && Lines(edges)[k] == r[i];
      LineIsFree(edges[k]);
    }
  }

  lemma LinesDetermineEdges(a: seq<Edge>, b: seq<Edge>, e: Edge)
    requires multiset(Lines(a)) == multiset(Lines(b)) && e in a
    requires (forall i :: 0 <= i < |a| ==> CleanEdge(a[i])) && (forall i :: 0 <= i < |b| ==> CleanEdge(b[i]))
    ensures e in b
  {
    var i :| 0 <= i < |a| && a[i] == e;
    assert Lines(a)[i] in multiset(Lines(b));
    var k :| 0 <= k < |b| && Lines(b)[k] == Line(e);
    LineIsInjective(e, b[k]);
  }

  /** Proposals removing different edges never share an effective hash. */
  lemma SaltSeparates(sha: string -> string, a: Input, b: Input)
    requires Injective(sha) && Clean(a) && Clean(b) && a.removed != [] && b.removed != []
    requires EffectiveHash(sha, a) == EffectiveHash(sha, b)
    ensures a.hash == b.hash && forall e :: e in a.removed <==> e in b.removed
  {
    SortedLinesFree(a.removed);
    SortedLinesFree(b.removed);
    var x, y := [a.hash] + Sort(Lines(a.removed)), [b.hash] + Sort(Lines(b.removed));
    assert x[1..] == Sort(Lines(a.removed)) && y[1..] == Sort(Lines(b.removed));
    assert Join(x, '\n') == a.hash + "\n" + Join(x[1..], '\n');
    assert Join(y, '\n') == b.hash + "\n" + Join(y[1..], '\n');
    JoinIsInjective(x, y, '\n');
    assert a.hash == x[0] && b.hash == y[0];
    SortSorts(Lines(a.removed));
    SortSorts(Lines(b.removed));
    forall e ensures e in a.removed <==> e in b.removed {
      if e in a.removed { LinesDetermineEdges(a.removed, b.removed, e); }
      if e in b.removed { LinesDetermineEdges(b.removed, a.removed, e); }
    }
  }

  // --------------------------------------------------------------- tables

  datatype Concept = Concept(current: Option<nat>, deleted: bool)
  datatype RevStatus = Proposed | Current | Superseded | Rejected
  datatype Revision = Revision(rev: nat, status: RevStatus, markdown: string, base: Option<nat>, proposal: Id)
  datatype RelStatus = RelProposed | RelActive | RelRemoved
  datatype Relation = Relation(status: RelStatus, proposal: Id, removal: Option<Id>)
  datatype DecStatus = DecProposed | DecActive | DecSuperseded
  datatype Decision = Decision(content: DecisionIn, status: DecStatus, proposal: Id)
  datatype ProposalStatus = Pending | Approved | Turned | Failed | Divided
  datatype Proposal = Proposal(hash: string, status: ProposalStatus)
  datatype Event = ProposalCreated(id: Id) | ProposalApproved(id: Id) | ProposalRejected(id: Id)

  /**
   * One space. A proposal's id is its position, and so is a claim's; carriers names each
   * claim's concept; outbox lists the proposal events.
   */
  datatype Db = Db(
    sources: set<Id>,
    concepts: map<string, Concept>,
    revisions: map<string, seq<Revision>>,
    claims: seq<C.Claim>,
    carriers: seq<string>,
    relations: map<Edge, Relation>,
    decisions: map<string, Decision>,
    proposals: seq<Proposal>,
    outbox: seq<Event>)

  function Get<K, V>(m: map<K, V>, k: K): Option<V> {
    if k in m then Some(m[k]) else None
  }

  function Numbers(revisions: seq<Revision>): seq<nat> {
    seq(|revisions|, i requires 0 <= i < |revisions| => revisions[i].rev)
  }

  predicate HasPending(db: Db, hash: string) {
    exists i :: 0 <= i < |db.proposals| && db.proposals[i] == Proposal(hash, Pending)
  }

  // -------------------------------------------------------------- refusals

  datatype Error = Invalid | UnknownSource | UnknownClaim | UnusableConcept | PendingRemoval | NoActiveRelation

  /** Concepts staged, and concepts their relations point at; these are created when missing. */
  predicate Involved(input: Input, slug: string) {
    || (exists i :: 0 <= i < |input.concepts| && input.concepts[i].slug == slug)
    || (exists k :: 0 <= k < |AddedEdges(input.concepts)| && AddedEdges(input.concepts)[k].to == slug)
  }

  /** Endpoints of removals; these are locked, and never created. */
  predicate Endpoint(input: Input, slug: string) {
    exists k :: 0 <= k < |input.removed| && (input.removed[k].from == slug || input.removed[k].to == slug)
  }

  predicate SourcesKnown(db: Db, input: Input) {
    && (forall i :: 0 <= i < |input.sources| ==> input.sources[i] in db.sources)
    && (forall i, j :: 0 <= i < |input.concepts| && 0 <= j < |input.concepts[i].claims| ==>
          forall k :: 0 <= k < |input.concepts[i].claims[j].sources| ==>
            input.concepts[i].claims[j].sources[k] in db.sources)
  }

  predicate Visible(db: Db, claim: Id) {
    claim < |db.claims| && C.Visible(db.claims[claim])
  }

  predicate SupersedesVisible(db: Db, input: Input) {
    forall i, j :: 0 <= i < |input.concepts| && 0 <= j < |input.concepts[i].claims| ==>
      input.concepts[i].claims[j].supersedes.Some? ==> Visible(db, input.concepts[i].claims[j].supersedes.value)
  }

  predicate Deleted(db: Db, slug: string) {
    slug in db.concepts && db.concepts[slug].current.None? && db.concepts[slug].deleted
  }

  ghost predicate ConceptsUsable(db: Db, input: Input) {
    && (forall slug :: Involved(input, slug) ==> !Deleted(db, slug))
    && (forall slug :: Endpoint(input, slug) && !Involved(input, slug) ==> slug in db.concepts)
  }

  predicate RemovalPending(db: Db, e: Edge) {
    && e in db.relations && db.relations[e].removal.Some?
    && db.relations[e].removal.value < |db.proposals| && db.proposals[db.relations[e].removal.value].status == Pending
  }

  predicate NoRemovalPending(db: Db, input: Input) {
    forall k :: 0 <= k < |AddedEdges(input.concepts)| ==> !RemovalPending(db, AddedEdges(input.concepts)[k])
  }

  predicate Active(db: Db, e: Edge) {
    e in db.relations && db.relations[e].status == RelActive
  }

  predicate RemovalsActive(db: Db, input: Input) {
    forall k :: 0 <= k < |input.removed| ==> Active(db, input.removed[k])
  }

  /** Why a staging is refused, in the order the checks are made; None when it is not. */
  ghost function Refusal(db: Db, input: Input): Option<Error> {
    if !SourcesKnown(db, input) then Some(UnknownSource)
    else if !SupersedesVisible(db, input) then Some(UnknownClaim)
    else if !ConceptsUsable(db, input) then Some(UnusableConcept)
    else if !NoRemovalPending(db, input) then Some(PendingRemoval)
    else if !RemovalsActive(db, input) then Some(NoActiveRelation)
    else None
  }

  // ------------------------------------------------------ what gets staged

  function StagedRevision(concepts: map<string, Concept>, revisions: seq<Revision>, entry: ConceptIn,
    id: Id): Revision {
    var base := match entry.base
      case Absent => (if entry.slug in concepts then concepts[entry.slug].current else None)
      case Against(revision) => revision;
    Revision(Locks.Max(Numbers(revisions)) + 1, Proposed, entry.markdown, base, id)
  }

  function StagedRelation(before: Option<Relation>, id: Id): Relation {
    if before.Some? && before.value.status == RelActive then before.value
    else Relation(RelProposed, id, if before.Some? then before.value.removal else None)
  }

  function StagedDecision(before: Option<Decision>, content: DecisionIn, id: Id): Decision {
    if before.Some? && before.value.status == DecActive then before.value
    else Decision(content, DecProposed, id)
  }

  /** The canonical object of a triple, computed when it is staged. */
  type Canonical = C.Incoming -> string

  function EntryClaims(norm: Canonical, claims: seq<ClaimIn>, id: Id): seq<C.Claim> {
    seq(|claims|, i requires 0 <= i < |claims| =>
      C.Claim(claims[i].triple, Some(norm(claims[i].triple)), C.Proposed, Some(id), claims[i].complementary,
        claims[i].supersedes))
  }

  function AllClaims(norm: Canonical, concepts: seq<ConceptIn>, id: Id): seq<C.Claim> {
    if concepts == [] then []
    else AllClaims(norm, concepts[..|concepts| - 1], id) + EntryClaims(norm, concepts[|concepts| - 1].claims, id)
  }

  function AllCarriers(concepts: seq<ConceptIn>): seq<string> {
    if concepts == [] then []
    else
      var last := concepts[|concepts| - 1];
      AllCarriers(concepts[..|concepts| - 1]) + seq(|last.claims|, i => last.slug)
  }

  ghost predicate ConceptsStaged(before: map<string, Concept>, after: map<string, Concept>, input: Input) {
    forall slug :: Get(after, slug)
      == if slug in before then Some(before[slug]) else if Involved(input, slug) then Some(Concept(None, false))
        else None
  }

  function Revs(revisions: map<string, seq<Revision>>, slug: string): seq<Revision> {
    if slug in revisions then revisions[slug] else []
  }

  ghost predicate RevisionsStaged(concepts: map<string, Concept>, before: map<string, seq<Revision>>,
                                  after: map<string, seq<Revision>>, entries: seq<ConceptIn>, id: Id) {
    && (forall i :: 0 <= i < |entries| ==>
          Revs(after, entries[i].slug)
          == Revs(before, entries[i].slug) + [StagedRevision(concepts, Revs(before, entries[i].slug), entries[i], id)])
    && (forall slug :: (forall i :: 0 <= i < |entries| ==> entries[i].slug != slug)
          ==> Revs(after, slug) == Revs(before, slug))
  }

  ghost predicate RelationsStaged(before: map<Edge, Relation>, after: map<Edge, Relation>, added: seq<Edge>,
    removed: seq<Edge>, id: Id) {
    forall e :: Get(after, e) ==
      if e in added then Some(StagedRelation(Get(before, e), id))
      else if e in removed && e in before then Some(before[e].(removal := Some(id)))
      else Get(before, e)
  }

  ghost predicate DecisionsStaged(before: map<string, Decision>, after: map<string, Decision>,
    decisions: seq<DecisionIn>, id: Id) {
    && (forall i :: 0 <= i < |decisions| ==>
          Get(after, decisions[i].slug) == Some(StagedDecision(Get(before, decisions[i].slug), decisions[i], id)))
    && (forall slug :: (forall i :: 0 <= i < |decisions| ==> decisions[i].slug != slug)
          ==> Get(after, slug) == Get(before, slug))
  }

  /** The whole effect of a staging that is neither a duplicate nor refused. */
  ghost predicate Staged(norm: Canonical, before: Db, after: Db, hash: string, input: Input, id: Id) {
    && id == |before.proposals|
    && after.proposals == before.proposals + [Proposal(hash, Pending)]
    && after.sources == before.sources
    && after.outbox == before.outbox + [ProposalCreated(id)]
    && ConceptsStaged(before.concepts, after.concepts, input)
    && RevisionsStaged(before.concepts, before.revisions, after.revisions, input.concepts, id)
    && after.claims == before.claims + AllClaims(norm, input.concepts, id)
    && after.carriers == before.carriers + AllCarriers(input.concepts)
    && RelationsStaged(before.relations, after.relations, AddedEdges(input.concepts), input.removed, id)
    && DecisionsStaged(before.decisions, after.decisions, input.decisions, id)
  }

  // ------------------------------------------------ what a staging leaves alone

  /** At most one pending proposal per effective hash: the partial unique index. */
  predicate UniquePending(db: Db) {
    forall i, j :: 0 <= i < j < |db.proposals| && db.proposals[i].status == Pending && db.proposals[j].status == Pending
      ==> db.proposals[i].hash != db.proposals[j].hash
  }

  predicate RevisionsCount(db: Db) {
    forall slug :: slug in db.revisions ==> Locks.Counting(Numbers(db.revisions[slug]))
  }

  /** Removal markers refer to proposals that exist. */
  predicate MarkersExist(db: Db) {
    forall e :: e in db.relations && db.relations[e].removal.Some? ==> db.relations[e].removal.value < |db.proposals|
  }

  predicate Valid(db: Db) { UniquePending(db) && RevisionsCount(db) && MarkersExist(db) }

  lemma StagingKeepsCount(before: Db, after: Db, input: Input, id: Id)
    requires RevisionsCount(before) && UniqueSlugs(input)
    requires RevisionsStaged(before.concepts, before.revisions, after.revisions, input.concepts, id)
    ensures RevisionsCount(after)
  {
    forall slug | slug in after.revisions ensures Locks.Counting(Numbers(after.revisions[slug])) {
      assert Revs(after.revisions, slug) == after.revisions[slug];
      var was := Revs(before.revisions, slug);
      assert Locks.Counting(Numbers(was));
      if i :| 0 <= i < |input.concepts| && input.concepts[i].slug == slug {
        Locks.MaxOfCounting(Numbers(was));
        assert Numbers(after.revisions[slug]) == Numbers(was) + [|was| + 1];
      }
    }
  }

  lemma StagingKeepsMarkers(before: Db, after: Db, added: seq<Edge>, removed: seq<Edge>, id: Id)
    requires MarkersExist(before) && RelationsStaged(before.relations, after.relations, added, removed, id)
    requires |before.proposals| == id && |after.proposals| == id + 1
    ensures MarkersExist(after)
  {
    forall e | e in after.relations && after.relations[e].removal.Some?
      ensures after.relations[e].removal.value < |after.proposals|
    {
      assert Get(after.relations, e) == Some(after.relations[e]);
      assert e in before.relations ==> Get(before.relations, e) == Some(before.relations[e]);
    }
  }

  /** Staging keeps the unique index, the numbering 1..n, and the references. */
  lemma StagingKeepsValid(norm: Canonical, before: Db, after: Db, hash: string, input: Input, id: Id)
    requires Valid(before) && Staged(norm, before, after, hash, input, id) && !HasPending(before, hash)
      && UniqueSlugs(input)
    ensures Valid(after)
  {
    StagingKeepsCount(before, after, input, id);
    StagingKeepsMarkers(before, after, AddedEdges(input.concepts), input.removed, id);
  }

  /**
   * Nothing a reader sees changes before approval: current revisions, claims in
   * force, active relations with their provenance, active decisions.
   */
  lemma StagingIsInvisible(norm: Canonical, before: Db, after: Db, hash: string, input: Input, id: Id)
    requires Staged(norm, before, after, hash, input, id) && WellFormed(input)
    ensures forall slug :: slug in before.concepts ==> Get(after.concepts, slug) == Some(before.concepts[slug])
    ensures forall slug :: slug in after.concepts && slug !in before.concepts ==> after.concepts[slug].current.None?
    ensures forall slug, k :: 0 <= k < |Revs(before.revisions, slug)| ==>
      k < |Revs(after.revisions, slug)| && Revs(after.revisions, slug)[k] == Revs(before.revisions, slug)[k]
    ensures before.claims <= after.claims
    ensures forall k :: |before.claims| <= k < |after.claims| ==> after.claims[k].status == C.Proposed
    ensures forall e :: Active(before, e) <==> Active(after, e)
    ensures forall e :: Active(before, e) ==> after.relations[e].proposal == before.relations[e].proposal
    ensures forall slug :: slug in before.decisions && before.decisions[slug].status == DecActive ==>
      Get(after.decisions, slug) == Some(before.decisions[slug])
  {
    NewConceptsStartEmpty(before.concepts, after.concepts, input);
    forall slug, k | 0 <= k < |Revs(before.revisions, slug)|
      ensures k < |Revs(after.revisions, slug)| && Revs(after.revisions, slug)[k] == Revs(before.revisions, slug)[k]
    {
      RevisionsStay(before.concepts, before.revisions, after.revisions, input.concepts, id, slug);
    }
    AllClaimsProposed(norm, input.concepts, id);
    forall e ensures Active(before, e) <==> Active(after, e)
      ensures Active(before, e) ==> after.relations[e].proposal == before.relations[e].proposal
    {
      RelationStays(before.relations, after.relations, AddedEdges(input.concepts), input.removed, id, e);
    }
    forall slug | slug in before.decisions && before.decisions[slug].status == DecActive
      ensures Get(after.decisions, slug) == Some(before.decisions[slug])
    {
      DecisionStays(before.decisions, after.decisions, input.decisions, id, slug);
    }
  }

  lemma NewConceptsStartEmpty(before: map<string, Concept>, after: map<string, Concept>, input: Input)
    requires ConceptsStaged(before, after, input)
    ensures forall slug :: slug in before ==> Get(after, slug) == Some(before[slug])
    ensures forall slug :: slug in after && slug !in before ==> after[slug].current.None?
  {
    forall slug | slug in after && slug !in before ensures after[slug].current.None? {
      assert Get(after, slug) == Some(after[slug]);
    }
  }

  lemma RevisionsStay(concepts: map<string, Concept>, before: map<string, seq<Revision>>,
    after: map<string, seq<Revision>>,
                      entries: seq<ConceptIn>, id: Id, slug: string)
    requires RevisionsStaged(concepts, before, after, entries, id)
    ensures Revs(before, slug) <= Revs(after, slug)
  {
    if i :| 0 <= i < |entries| && entries[i].slug == slug {
      assert Revs(after, slug) == Revs(before, slug) + [StagedRevision(concepts, Revs(before, slug), entries[i], id)];
    }
  }

  lemma RelationStays(before: map<Edge, Relation>, after: map<Edge, Relation>, added: seq<Edge>, removed: seq<Edge>,
    id: Id, e: Edge)
    requires RelationsStaged(before, after, added, removed, id)
    ensures (e in before && before[e].status == RelActive) <==> (e in after && after[e].status == RelActive)
    ensures e in before && before[e].status == RelActive ==> after[e].proposal == before[e].proposal
  {
    assert Get(after, e) == if e in added then Some(StagedRelation(Get(before, e), id))
      else if e in removed && e in before then Some(before[e].(removal := Some(id)))
      else Get(before, e);
  }

  lemma DecisionStays(before: map<string, Decision>, after: map<string, Decision>, decisions: seq<DecisionIn>, id: Id,
    slug: string)
    requires DecisionsStaged(before, after, decisions, id) && slug in before && before[slug].status == DecActive
    ensures Get(after, slug) == Some(before[slug])
  {
    if i :| 0 <= i < |decisions| && decisions[i].slug == slug {
      assert Get(after, slug) == Some(StagedDecision(Get(before, slug), decisions[i], id));
    }
  }

  lemma {:induction false} AllClaimsProposed(norm: Canonical, concepts: seq<ConceptIn>, id: Id)
    ensures forall k :: 0 <= k < |AllClaims(norm, concepts, id)| ==>
      && AllClaims(norm, concepts, id)[k].status == C.Proposed && AllClaims(norm, concepts, id)[k].proposal == Some(id)
      && AllClaims(norm, concepts, id)[k].normalized == Some(norm(AllClaims(norm, concepts, id)[k].triple))
    ensures |AllCarriers(concepts)| == |AllClaims(norm, concepts, id)|
    decreases |concepts|
  {
    if concepts != [] { AllClaimsProposed(norm, concepts[..|concepts| - 1], id); }
  }
}
