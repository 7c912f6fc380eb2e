/** createProposal and approveProposal as programs over one space (src/domain/proposals.ts). */
module StagingProgram {
  import opened Wrappers
  import opened Text
  import opened Staging
  import C = Contradictions

  // ------------------------------------------------------------ lock pass

  method AddName(names: seq<string>, name: string) returns (r: seq<string>)
    requires NoRepeats(names)
    ensures NoRepeats(r) && forall x :: x in r <==> x in names || x == name
  {
    r := if name in names then names else names + [name];
  }

  /** Staged concepts and relation targets: titleBySlug's keys. */
  method CollectInvolved(input: Input) returns (names: seq<string>)
    ensures NoRepeats(names) && forall slug :: slug in names <==> Involved(input, slug)
  {
    names := [];
    var added := AddedEdges(input.concepts);
    for k := 0 to |added|
      invariant NoRepeats(names)
      invariant forall slug :: slug in names <==> exists j :: 0 <= j < k && added[j].to == slug
    {
      names := AddName(names, added[k].to);
    }
    for i := 0 to |input.concepts|
      invariant NoRepeats(names)
      invariant forall slug :: slug in names <==>
        (exists j :: 0 <= j < |added| && added[j].to == slug) ||
          (exists j :: 0 <= j < i && input.concepts[j].slug == slug)
    {
      names := AddName(names, input.concepts[i].slug);
    }
  }

  /** Endpoints of removals that nothing else involves. */
  method CollectRemovalOnly(input: Input, involved: seq<string>) returns (names: seq<string>)
    requires forall slug :: slug in involved <==> Involved(input, slug)
    ensures NoRepeats(names) && forall slug :: slug in names <==> Endpoint(input, slug) && !Involved(input, slug)
  {
    names := [];
    for k := 0 to |input.removed|
      invariant NoRepeats(names)
      invariant forall slug :: slug in names <==>
        !Involved(input, slug) && exists j ::
          0 <= j < k && (input.removed[j].from == slug || input.removed[j].to == slug)
    {
      var e := input.removed[k];
      if e.from !in involved { names := AddName(names, e.from); }
      if e.to !in involved { names := AddName(names, e.to); }
    }
  }

  lemma ConcatNoRepeats(a: seq<string>, b: seq<string>)
    requires NoRepeats(a) && NoRepeats(b) && forall x :: x in a ==> x !in b
    ensures NoRepeats(a + b)
  {
    forall i, j | 0 <= i < j < |a + b| ensures (a + b)[i] != (a + b)[j] {
      assert i < |a| ==> a[i] in a;
      assert j >= |a| ==> b[j - |a|] in b;
    }
  }

  function LockedRow(db: Db, slug: string, created: bool): Option<Concept> {
    if slug in db.concepts then Some(db.concepts[slug]) else if created then Some(Concept(None, false)) else None
  }

  /** Every concept row the staging needs, locked in one ascending pass; missing ones are created. */
  method LockConcepts(db: Db, input: Input) returns (concepts: Option<map<string, Concept>>, locks: seq<string>)
    ensures Ascending(locks)
    ensures concepts.Some? <==> ConceptsUsable(db, input)
    ensures concepts.Some? ==> ConceptsStaged(db.concepts, concepts.value, input)
    ensures concepts.Some? ==> forall slug :: slug in locks <==> Involved(input, slug) || Endpoint(input, slug)
  {
    var involved := CollectInvolved(input);
    var removalOnly := CollectRemovalOnly(input, involved);
    ConcatNoRepeats(involved, removalOnly);
    var order := Sort(involved + removalOnly);
    SortAscends(involved + removalOnly);
    var table := db.concepts;
    locks := [];
    for i := 0 to |order|
      invariant locks == order[..i]
      invariant forall k :: 0 <= k < i ==> if order[k] in removalOnly then order[k] in db.concepts
        else !Deleted(db, order[k])
      invariant forall slug :: Get(table, slug) == LockedRow(db, slug, slug in order[..i] && slug in involved)
    {
      var slug := order[i];
      locks := locks + [slug];
      assert order[..i + 1] == order[..i] + [slug];
      assert slug in involved + removalOnly;
      assert Get(table, slug).Some? <==> slug in table;
      if slug in removalOnly {
        if slug !in table { assert !ConceptsUsable(db, input); return None, locks; }
      } else if slug in table {
        if table[slug].current.None? && table[slug].deleted {
          assert Deleted(db, slug);
          return None, locks;
        }
      } else {
        table := table[slug := Concept(None, false)];
      }
    }
    assert order[..|order|] == order;
    forall slug | Involved(input, slug) ensures !Deleted(db, slug) {
      assert slug in involved + removalOnly;
      var k :| 0 <= k < |order| && order[k] == slug;
    }
    forall slug | Endpoint(input, slug) && !Involved(input, slug) ensures slug in db.concepts {
      assert slug in involved + removalOnly;
      var k :| 0 <= k < |order| && order[k] == slug;
    }
    assert forall slug :: slug in involved ==> slug in order;
    concepts := Some(table);
  }

  // ---------------------------------------------------------------- staging

  method FindPending(db: Db, hash: string) returns (found: Option<Id>)
    ensures found.Some? <==> HasPending(db, hash)
    ensures found.Some? ==> found.value < |db.proposals| && db.proposals[found.value] == Proposal(hash, Pending)
  {
    for i := 0 to |db.proposals|
      invariant forall k :: 0 <= k < i ==> db.proposals[k] != Proposal(hash, Pending)
    {
      if db.proposals[i] == Proposal(hash, Pending) { return Some(i); }
    }
    return None;
  }

  /** One proposed revision per entry, numbered MAX(rev) + 1. */
  method StageRevisions(concepts: map<string, Concept>, before: map<string, seq<Revision>>, entries: seq<ConceptIn>,
    id: Id)
    returns (after: map<string, seq<Revision>>)
    requires forall i, j :: 0 <= i < j < |entries| ==> entries[i].slug != entries[j].slug
    ensures RevisionsStaged(concepts, before, after, entries, id)
  {
    after := before;
    for i := 0 to |entries|
      invariant forall k :: 0 <= k < i ==>
        Revs(after, entries[k].slug)
        == Revs(before, entries[k].slug) + [StagedRevision(concepts, Revs(before, entries[k].slug), entries[k], id)]
      invariant forall slug :: (forall k :: 0 <= k < i ==> entries[k].slug != slug) ==>
        Revs(after, slug) == Revs(before, slug)
    {
      var entry := entries[i];
      assert Revs(after, entry.slug) == Revs(before, entry.slug);
      var staged := StagedRevision(concepts, Revs(after, entry.slug), entry, id);
      after := after[entry.slug := Revs(after, entry.slug) + [staged]];
    }
  }

  method StageClaims(norm: Canonical, before: seq<C.Claim>, carriers: seq<string>, entries: seq<ConceptIn>, id: Id)
    returns (after: seq<C.Claim>, carriersAfter: seq<string>)
    ensures after == before + AllClaims(norm, entries, id)
    ensures carriersAfter == carriers + AllCarriers(entries)
  {
    after, carriersAfter := before, carriers;
    for i := 0 to |entries|
      invariant after == before + AllClaims(norm, entries[..i], id)
      invariant carriersAfter == carriers + AllCarriers(entries[..i])
    {
      var entry := entries[i];
      ghost var base, baseCarriers := after, carriersAfter;
      for j := 0 to |entry.claims|
        invariant after == base + EntryClaims(norm, entry.claims[..j], id)
        invariant carriersAfter == baseCarriers + seq(j, k => entry.slug)
      {
        var claim := entry.claims[j];
        var row := C.Claim(claim.triple, Some(norm(claim.triple)), C.Proposed, Some(id), claim.complementary,
          claim.supersedes);
        after := after + [row];
        carriersAfter := carriersAfter + [entry.slug];
        assert EntryClaims(norm, entry.claims[..j + 1], id) == EntryClaims(norm, entry.claims[..j], id) + [row];
        assert seq(j + 1, k => entry.slug) == seq(j, k => entry.slug) + [entry.slug];
      }
      assert entry.claims[..|entry.claims|] == entry.claims;
      assert entries[..i + 1][..i] == entries[..i];
    }
    assert entries[..|entries|] == entries;
  }

  /** Relations after asserting some edges: active ones keep status and provenance, others are taken over. */
  ghost predicate Asserted(before: map<Edge, Relation>, after: map<Edge, Relation>, edges: seq<Edge>, id: Id) {
    forall e :: Get(after, e) == if e in edges then Some(StagedRelation(Get(before, e), id)) else Get(before, e)
  }

  method AssertRelation(ghost before: map<Edge, Relation>, relations: map<Edge, Relation>, ghost edges: seq<Edge>,
    e: Edge, id: Id)
    returns (after: map<Edge, Relation>)
    requires Asserted(before, relations, edges, id)
    ensures Asserted(before, after, edges + [e], id)
  {
    assert Get(relations, e) == if e in edges then Some(StagedRelation(Get(before, e), id)) else Get(before, e);
    if e in relations && relations[e].status == RelActive {
      after := relations;
    } else {
      after := relations[e := Relation(RelProposed, id, if e in relations then relations[e].removal else None)];
    }
    forall x ensures Get(after, x) == if x in edges + [e] then Some(StagedRelation(Get(before, x), id))
      else Get(before, x) {
      assert Get(relations, x) == if x in edges then Some(StagedRelation(Get(before, x), id)) else Get(before, x);
    }
  }

  method MarkerPending(relations: map<Edge, Relation>, proposals: seq<Proposal>, e: Edge) returns (pending: bool)
    ensures pending <==>
      && e in relations && relations[e].removal.Some? && relations[e].removal.value < |proposals|
      && proposals[relations[e].removal.value].status == Pending
  {
    pending := e in relations && relations[e].removal.Some? && relations[e].removal.value < |proposals|
      && proposals[relations[e].removal.value].status == Pending;
  }

  /** Relations of all entries; None when one of them has a removal under review. */
  method StageRelations(db: Db, proposals: seq<Proposal>, entries: seq<ConceptIn>, id: Id)
    returns (after: Option<map<Edge, Relation>>)
    requires MarkersExist(db) && db.proposals <= proposals
    ensures after.Some? <==> forall k :: 0 <= k < |AddedEdges(entries)| ==> !RemovalPending(db, AddedEdges(entries)[k])
    ensures after.Some? ==> Asserted(db.relations, after.value, AddedEdges(entries), id)
  {
    var relations := db.relations;
    for i := 0 to |entries|
      invariant forall e :: e in AddedEdges(entries[..i]) ==> !RemovalPending(db, e)
      invariant Asserted(db.relations, relations, AddedEdges(entries[..i]), id)
    {
      var entry := entries[i];
      ghost var done := AddedEdges(entries[..i]);
      assert done + EntryEdges(entry.slug, entry.relations[..0]) == done;
      for j := 0 to |entry.relations|
        invariant forall e :: e in done + EntryEdges(entry.slug, entry.relations[..j]) ==> !RemovalPending(db, e)
        invariant Asserted(db.relations, relations, done + EntryEdges(entry.slug, entry.relations[..j]), id)
      {
        var r := entry.relations[j];
        assert entry.relations[..j + 1][..j] == entry.relations[..j];
        if r.to != entry.slug {
          var e := Edge(entry.slug, r.to, r.kind);
          ghost var edges := done + EntryEdges(entry.slug, entry.relations[..j]);
          SameMarker(db, proposals, relations, edges, e, id);
          var pending := MarkerPending(relations, proposals, e);
          if pending {
            EdgeIsAdded(entries, i, j);
            return None;
          }
          relations := AssertRelation(db.relations, relations, edges, e, id);
          assert edges + [e] == done + EntryEdges(entry.slug, entry.relations[..j + 1]);
        }
      }
      assert entry.relations[..|entry.relations|] == entry.relations;
      assert entries[..i + 1][..i] == entries[..i];
      assert AddedEdges(entries[..i + 1]) == done + EntryEdges(entry.slug, entry.relations);
    }
    assert entries[..|entries|] == entries;
    after := Some(relations);
  }

  /** Asserting relations moves no removal marker. */
  lemma SameMarker(db: Db, proposals: seq<Proposal>, relations: map<Edge, Relation>, edges: seq<Edge>, e: Edge, id: Id)
    requires MarkersExist(db) && db.proposals <= proposals && Asserted(db.relations, relations, edges, id)
    ensures RemovalPending(db, e) <==>
      && e in relations && relations[e].removal.Some? && relations[e].removal.value < |proposals|
      && proposals[relations[e].removal.value].status == Pending
  {
    assert Get(relations, e) == if e in edges then Some(StagedRelation(Get(db.relations, e), id))
      else Get(db.relations, e);
  }

  lemma EdgeIsAdded(entries: seq<ConceptIn>, i: nat, j: nat)
    requires i < |entries| && j < |entries[i].relations| && entries[i].relations[j].to != entries[i].slug
    ensures Edge(entries[i].slug, entries[i].relations[j].to, entries[i].relations[j].kind) in AddedEdges(entries)
  {
    EntryEdgeIsThere(entries[i].slug, entries[i].relations, j);
    AddedCovers(entries, i);
  }

  lemma {:induction false} EntryEdgeIsThere(slug: string, relations: seq<RelationIn>, j: nat)
    requires j < |relations| && relations[j].to != slug
    ensures Edge(slug, relations[j].to, relations[j].kind) in EntryEdges(slug, relations)
    decreases |relations|
  {
    if j < |relations| - 1 { EntryEdgeIsThere(slug, relations[..|relations| - 1], j); }
  }

  lemma {:induction false} AddedCovers(entries: seq<ConceptIn>, i: nat)
    requires i < |entries|
    ensures forall e :: e in EntryEdges(entries[i].slug, entries[i].relations) ==> e in AddedEdges(entries)
    decreases |entries|
  {
    if i < |entries| - 1 { AddedCovers(entries[..|entries| - 1], i); }
  }

  method StageDecisions(before: map<string, Decision>, decisions: seq<DecisionIn>,
    id: Id) returns (after: map<string, Decision>)
    requires forall i, j :: 0 <= i < j < |decisions| ==> decisions[i].slug != decisions[j].slug
    ensures DecisionsStaged(before, after, decisions, id)
  {
    after := before;
    for i := 0 to |decisions|
      invariant forall k :: 0 <= k < i ==>
        Get(after, decisions[k].slug) == Some(StagedDecision(Get(before, decisions[k].slug), decisions[k], id))
      invariant forall slug :: (forall k :: 0 <= k < i ==> decisions[k].slug != slug) ==>
        Get(after, slug) == Get(before, slug)
    {
      var d := decisions[i];
      assert Get(after, d.slug) == Get(before, d.slug);
      if !(d.slug in after && after[d.slug].status == DecActive) {
        after := after[d.slug := Decision(d, DecProposed, id)];
      }
    }
  }

  /** Relations after marking some edges for removal. */
  ghost predicate Marked(before: map<Edge, Relation>, after: map<Edge, Relation>, removed: seq<Edge>, id: Id) {
    forall e :: Get(after, e) == (if e in removed && e in before then Some(before[e].(removal := Some(id)))
      else Get(before, e))
  }

  /** Mark active relations for removal; None when one of them is not an active relation. */
  method MarkRemovals(before: map<Edge, Relation>, removed: seq<Edge>,
    id: Id) returns (after: Option<map<Edge, Relation>>)
    requires NoRepeats(removed)
    ensures after.Some? <==> forall k :: 0 <= k < |removed| ==>
      removed[k] in before && before[removed[k]].status == RelActive
    ensures after.Some? ==> Marked(before, after.value, removed, id)
  {
    var relations := before;
    for i := 0 to |removed|
      invariant forall k :: 0 <= k < i ==> removed[k] in before && before[removed[k]].status == RelActive
      invariant Marked(before, relations, removed[..i], id)
    {
      var e := removed[i];
      assert removed[..i + 1] == removed[..i] + [e];
      assert e !in removed[..i];
      assert Get(relations, e) == Get(before, e);
      if !(e in relations && relations[e].status == RelActive) { return None; }
      relations := relations[e := relations[e].(removal := Some(id))];
    }
    assert removed[..|removed|] == removed;
    after := Some(relations);
  }

  /** Marking after asserting is marking and asserting: no edge is both added and removed. */
  lemma AssertThenMark(before: map<Edge, Relation>, mid: map<Edge, Relation>, after: map<Edge, Relation>,
                       added: seq<Edge>, removed: seq<Edge>, id: Id)
    requires Asserted(before, mid, added, id) && Marked(mid, after, removed, id)
    requires forall e :: e in removed ==> e !in added
    ensures RelationsStaged(before, after, added, removed, id)
  {
    forall e ensures Get(after, e) == if e in added then Some(StagedRelation(Get(before, e), id))
      else if e in removed && e in before then Some(before[e].(removal := Some(id)))
      else Get(before, e)
    {
      assert Get(mid, e) == if e in added then Some(StagedRelation(Get(before, e), id)) else Get(before, e);
      assert Get(after, e) == (if e in removed && e in mid then Some(mid[e].(removal := Some(id))) else Get(mid, e));
    }
  }

  lemma RemovalsAfterAsserting(db: Db, mid: map<Edge, Relation>, input: Input, id: Id)
    requires Asserted(db.relations, mid, AddedEdges(input.concepts), id) && WellFormed(input)
    ensures RemovalsActive(db, input)
      <==> forall k :: 0 <= k < |input.removed| ==> input.removed[k] in mid && mid[input.removed[k]].status == RelActive
  {
    forall k | 0 <= k < |input.removed|
      ensures Active(db, input.removed[k]) <==> input.removed[k] in mid && mid[input.removed[k]].status == RelActive
    {
      NothingAddedIsRemoved(input);
      assert input.removed[k] in input.removed;
      assert Get(mid, input.removed[k]) == Get(db.relations, input.removed[k]);
    }
  }

  /** The writes of one staging, inside its transaction: the staged tables, or the first check that fails. */
  method StageRows(norm: Canonical, tx: Db, hash: string, input: Input) returns (r: Result<Db, Error>,
    locks: seq<string>)
    requires Valid(tx) && WellFormed(input) && SourcesKnown(tx, input) && SupersedesVisible(tx, input)
    ensures Ascending(locks)
    ensures r.Ok? <==> Refusal(tx, input).None?
    ensures r.Err? ==> Some(r.error) == Refusal(tx, input)
    ensures r.Ok? ==> Staged(norm, tx, r.value, hash, input, |tx.proposals|)
    ensures r.Ok? ==> forall slug :: slug in locks <==> Involved(input, slug) || Endpoint(input, slug)
  {
    var id := |tx.proposals|;
    var proposals := tx.proposals + [Proposal(hash, Pending)];
    var concepts, locked := LockConcepts(tx, input);
    locks := locked;
    if concepts.None? { return Err(UnusableConcept), locks; }
    var revisions := StageRevisions(tx.concepts, tx.revisions, input.concepts, id);
    var claims, carriers := StageClaims(norm, tx.claims, tx.carriers, input.concepts, id);
    var relations := StageRelations(tx, proposals, input.concepts, id);
    if relations.None? { return Err(PendingRemoval), locks; }
    var decisions := StageDecisions(tx.decisions, input.decisions, id);
    RemovalsAfterAsserting(tx, relations.value, input, id);
    var marked := MarkRemovals(relations.value, input.removed, id);
    if marked.None? { return Err(NoActiveRelation), locks; }
    NothingAddedIsRemoved(input);
    AssertThenMark(tx.relations, relations.value, marked.value, AddedEdges(input.concepts), input.removed, id);
    r := Ok(Db(tx.sources, concepts.value, revisions, claims, carriers, marked.value, decisions, proposals,
      tx.outbox + [ProposalCreated(id)]));
  }

  lemma {:induction false} EntryEdgesAreListed(slug: string, relations: seq<RelationIn>, e: Edge)
    requires e in EntryEdges(slug, relations)
    ensures e.from == slug && RelationIn(e.to, e.kind) in relations
    decreases |relations|
  {
    var init, r := relations[..|relations| - 1], relations[|relations| - 1];
    assert relations == init + [r];
    if e in EntryEdges(slug, init) { EntryEdgesAreListed(slug, init, e); }
  }

  lemma {:induction false} AddedIsAsserted(concepts: seq<ConceptIn>, e: Edge)
    requires e in AddedEdges(concepts)
    ensures Asserts(concepts, e)
    decreases |concepts|
  {
    var init, last := concepts[..|concepts| - 1], concepts[|concepts| - 1];
    if e in AddedEdges(init) {
      AddedIsAsserted(init, e);
      var i :| 0 <= i < |init| && init[i].slug == e.from && RelationIn(e.to, e.kind) in init[i].relations;
      assert concepts[i] == init[i];
    } else {
      EntryEdgesAreListed(last.slug, last.relations, e);
      assert concepts[|concepts| - 1].slug == e.from;
    }
  }

  lemma NothingAddedIsRemoved(input: Input)
    requires WellFormed(input)
    ensures forall e :: e in input.removed ==> e !in AddedEdges(input.concepts)
  {
    forall e | e in input.removed ensures e !in AddedEdges(input.concepts) {
      var k :| 0 <= k < |input.removed| && input.removed[k] == e;
      if e in AddedEdges(input.concepts) { AddedIsAsserted(input.concepts, e); }
    }
  }

  /** A proposal that ran into stale_base: only its status changes. */
  function Stalled(db: Db, id: Id): Db
    requires id < |db.proposals|
  {
    db.(proposals := db.proposals[id := db.proposals[id].(status := Failed)])
  }

  /** A failed proposal's own removal markers no longer stand in the way; every other check is as before. */
  lemma RestagingIsRefusedWhen(db: Db, id: Id, input: Input)
    requires id < |db.proposals|
    ensures Refusal(Stalled(db, id), input).None? <==>
      && SourcesKnown(db, input) && SupersedesVisible(db, input)
      && ConceptsUsable(db, input) && RemovalsActive(db, input)
      && forall e :: e in AddedEdges(input.concepts) && RemovalPending(db, e) ==> db.relations[e].removal == Some(id)
  {
    var after := Stalled(db, id);
    forall e ensures RemovalPending(after, e) <==> RemovalPending(db, e) && db.relations[e].removal != Some(id) {
    }
    assert SourcesKnown(after, input) <==> SourcesKnown(db, input);
    assert SupersedesVisible(after, input) <==> SupersedesVisible(db, input);
    assert ConceptsUsable(after, input) <==> ConceptsUsable(db, input);
    var added := AddedEdges(input.concepts);
    if NoRemovalPending(after, input) {
      forall e | e in added && RemovalPending(db, e) ensures db.relations[e].removal == Some(id) {
        var k :| 0 <= k < |added| && added[k] == e;
        assert !RemovalPending(after, added[k]);
      }
    }
  }

  // ------------------------------------------------------------- the space

  class Space {
    const sha: string -> string
    const norm: Canonical
    var db: Db
    /** The concept rows locked by the last staging, in the order they were locked. */
    ghost var locks: seq<string>

    constructor (sha: string -> string, norm: Canonical)
      ensures this.sha == sha && this.norm == norm && Valid(db) && db.proposals == [] && locks == []
    {
      this.sha := sha;
      this.norm := norm;
      db := Db({}, map[], map[], [], [], map[], map[], [], []);
      locks := [];
    }

    /**
     * All or nothing: a refused staging leaves every table as it was; a duplicate of
     * a pending proposal converges on it; anything else has exactly the staged effect.
     */
    method CreateProposal(input: Input) returns (r: Result<Id, Error>)
      requires Valid(db)
      modifies this
      ensures Valid(db) && Ascending(locks)
      ensures r.Ok? <==>
        WellFormed(input) && (HasPending(old(db), EffectiveHash(sha, input)) || Refusal(old(db), input).None?)
      ensures r.Err? ==> db == old(db) && r.error == if WellFormed(input) then Refusal(old(db), input).value
        else Invalid
      ensures r.Ok? && HasPending(old(db), EffectiveHash(sha, input)) ==>
        db == old(db) && locks == []
        && r.value < |db.proposals| && db.proposals[r.value] == Proposal(EffectiveHash(sha, input), Pending)
      ensures r.Ok? && !HasPending(old(db), EffectiveHash(sha, input)) ==>
        && Staged(norm, old(db), db, EffectiveHash(sha, input), input, r.value)
        && (forall slug :: slug in locks <==> Involved(input, slug) || Endpoint(input, slug))
    {
      locks := [];
      if !WellFormed(input) { return Err(Invalid); }
      var hash := EffectiveHash(sha, input);
      var tx := db; // BEGIN
      var pending := FindPending(tx, hash);
      if pending.Some? { return Ok(pending.value); }
      if !SourcesKnown(tx, input) { return Err(UnknownSource); }
      if !SupersedesVisible(tx, input) { return Err(UnknownClaim); }

      var staged, locked := StageRows(norm, tx, hash, input);
      locks := locked;
      if staged.Err? { return Err(staged.error); } // ROLLBACK
      db := staged.value; // COMMIT
      StagingKeepsValid(norm, tx, db, hash, input, |tx.proposals|);
      return Ok(|tx.proposals|);
    }

    /** approveProposal's own write after stale_base, guarded on status = 'pending'. */
    method MarkStale(id: Id)
      requires Valid(db)
      modifies this`db
      ensures Valid(db)
      ensures db == if id < |old(db).proposals| && old(db).proposals[id].status == Pending then Stalled(old(db), id)
        else old(db)
    {
      if id < |db.proposals| && db.proposals[id].status == Pending {
        db := db.(proposals := db.proposals[id := db.proposals[id].(status := Failed)]);
      }
    }

    /** After a stale_base failure the same input stages a fresh proposal instead of converging on the dead one. */
    method RestageAfterStale(id: Id, input: Input) returns (r: Result<Id, Error>)
      requires Valid(db) && WellFormed(input)
      requires id < |db.proposals| && db.proposals[id] == Proposal(EffectiveHash(sha, input), Pending)
      modifies this
      ensures Valid(db)
      ensures id < |db.proposals| && db.proposals[id].status == Failed
      ensures r.Ok? <==> Refusal(Stalled(old(db), id), input).None?
      ensures r.Err? ==> db == Stalled(old(db), id) && Some(r.error) == Refusal(db, input)
      ensures r.Ok? ==> Staged(norm, Stalled(old(db), id), db, EffectiveHash(sha, input), input, r.value)
    {
      MarkStale(id);
      assert !HasPending(db, EffectiveHash(sha, input));
      r := CreateProposal(input);
    }
  }
}
