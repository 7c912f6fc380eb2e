module ReviewOutcomes {
  // What staging, approval and rejection do, in the terms of the input (src/domain/proposals.ts and its
  // migrations). Each row of a proposal is followed from the input that staged it to what readers see.

  import opened Wrappers
  import opened Text
  import opened Staging
  import opened Approval
  import C = Contradictions

  // -------------------------------------------------------------- revisions

  /** No revision of the space belongs to the proposal yet. */
  ghost predicate Unused(db: Db, id: Id) {
    forall slug, k :: 0 <= k < |Revs(db.revisions, slug)| ==> Revs(db.revisions, slug)[k].proposal != id
  }

  /** Each entry stages one revision: its own text, against the base it gives, or against what is current now. */
  lemma StagedEntry(norm: Canonical, before: Db, after: Db, hash: string, input: Input, i: nat)
    requires Staged(norm, before, after, hash, input, |before.proposals|) && i < |input.concepts|
    ensures var entry := input.concepts[i];
      var was, now := Revs(before.revisions, entry.slug), Revs(after.revisions, entry.slug);
      && |now| == |was| + 1 && now[..|was|] == was
      && now[|was|].markdown == entry.markdown && now[|was|].proposal == |before.proposals|
      && now[|was|].status == Proposed
      && (entry.base.Against? ==> now[|was|].base == entry.base.revision)
      && (entry.base.Absent? ==> now[|was|].base == CurrentOf(before.concepts, entry.slug))
  {
  }

  /** A proposal is stale as it is staged exactly when some entry gives a base that is not the current revision. */
  lemma StaleExactly(norm: Canonical, before: Db, after: Db, hash: string, input: Input)
    requires UniqueSlugs(input)
    requires Staged(norm, before, after, hash, input, |before.proposals|) && Unused(before, |before.proposals|)
    ensures Stale(after, |before.proposals|) <==>
      exists i :: 0 <= i < |input.concepts| && Outdated(before, input.concepts[i])
  {
    var id := |before.proposals|;
    forall slug | slug in after.revisions
      ensures StaleAt(CurrentOf(after.concepts, slug), after.revisions[slug], id)
        <==> OutdatedAt(before, input, slug)
    {
      StaleSlug(norm, before, after, hash, input, slug);
    }
    if i :| 0 <= i < |input.concepts| && Outdated(before, input.concepts[i]) {
      StagedEntry(norm, before, after, hash, input, i);
      assert input.concepts[i].slug in after.revisions;
    }
  }

  predicate Outdated(db: Db, entry: ConceptIn) {
    entry.base.Against? && entry.base.revision != CurrentOf(db.concepts, entry.slug)
  }

  predicate OutdatedAt(db: Db, input: Input, slug: string) {
    exists i :: 0 <= i < |input.concepts| && input.concepts[i].slug == slug && Outdated(db, input.concepts[i])
  }

  lemma StaleSlug(norm: Canonical, before: Db, after: Db, hash: string, input: Input, slug: string)
    requires Staged(norm, before, after, hash, input, |before.proposals|) && Unused(before, |before.proposals|)
    requires slug in after.revisions && UniqueSlugs(input)
    ensures StaleAt(CurrentOf(after.concepts, slug), after.revisions[slug], |before.proposals|)
      <==> OutdatedAt(before, input, slug)
  {
    CurrentIsKept(before.concepts, after.concepts, input, slug);
    if i :| 0 <= i < |input.concepts| && input.concepts[i].slug == slug {
      StaleEntry(norm, before, after, hash, input, i);
    } else {
      assert Revs(after.revisions, slug) == Revs(before.revisions, slug);
    }
  }

  lemma StaleEntry(norm: Canonical, before: Db, after: Db, hash: string, input: Input, i: nat)
    requires Staged(norm, before, after, hash, input, |before.proposals|) && Unused(before, |before.proposals|)
    requires i < |input.concepts|
    ensures StaleAt(CurrentOf(before.concepts, input.concepts[i].slug), Revs(after.revisions, input.concepts[i].slug),
                    |before.proposals|)
      <==> Outdated(before, input.concepts[i])
  {
    var slug := input.concepts[i].slug;
    var was, now := Revs(before.revisions, slug), Revs(after.revisions, slug);
    StagedEntry(norm, before, after, hash, input, i);
    forall k | 0 <= k < |was| ensures now[k].proposal != |before.proposals| { assert now[k] == now[..|was|][k]; }
    assert IsFresh(now[|was|], |before.proposals|);
  }

  lemma CurrentIsKept(before: map<string, Concept>, after: map<string, Concept>, input: Input, slug: string)
    requires ConceptsStaged(before, after, input)
    ensures CurrentOf(after, slug) == CurrentOf(before, slug)
  {
    assert slug in after ==> Get(after, slug) == Some(after[slug]);
    assert slug in before ==> Get(after, slug) == Some(before[slug]);
  }

  // -------------------------------------------------------------- decisions

  /** Staging: an active decision keeps its row, any other named one is staged anew, and the rest stay. */
  lemma StagedDecisionIs(norm: Canonical, before: Db, after: Db, hash: string, input: Input, slug: string, i: nat)
    requires Staged(norm, before, after, hash, input, |before.proposals|)
    ensures i < |input.decisions| && input.decisions[i].slug == slug ==>
      Get(after.decisions, slug) == Some(
        if slug in before.decisions && before.decisions[slug].status == DecActive then before.decisions[slug]
        else Decision(input.decisions[i], DecProposed, |before.proposals|))
    ensures (forall k :: 0 <= k < |input.decisions| ==> input.decisions[k].slug != slug) ==>
      Get(after.decisions, slug) == Get(before.decisions, slug)
  {
  }

  /** Some decision staged by the proposal names this one as the decision it replaces. */
  ghost predicate NamedByStaged(db: Db, id: Id, slug: string) {
    exists f :: f in db.decisions && db.decisions[f].proposal == id && db.decisions[f].status == DecProposed
      && db.decisions[f].content.supersedes == Some(slug)
  }

  /**
   * Approval: a decision the proposal stages comes into force; one in force is superseded exactly when such a
   * decision names it; every other one, and every text and owner, is as before.
   */
  lemma ApprovedDecision(s: C.Settings, before: Db, after: Db, id: Id, slug: string)
    requires Applied(s, before, after, id)
    ensures slug in before.decisions <==> slug in after.decisions
    ensures slug in before.decisions ==>
      var was, now := before.decisions[slug], after.decisions[slug];
      && now.content == was.content && now.proposal == was.proposal
      && (was.status == DecProposed ==> now.status == if was.proposal == id then DecActive else DecProposed)
      && (was.status == DecActive ==>
            now.status == if NamedByStaged(before, id, slug) then DecSuperseded else DecActive)
      && (was.status == DecSuperseded ==> now.status == DecSuperseded)
  {
    assert DecisionReplaced(before.decisions, id, slug) <==> NamedByStaged(before, id, slug);
  }

  // -------------------------------------------------------------- relations

  lemma {:induction false} EntryEdgesAre(slug: string, relations: seq<RelationIn>, e: Edge)
    ensures e in EntryEdges(slug, relations) <==> e.from == slug != e.to && RelationIn(e.to, e.kind) in relations
    decreases |relations|
  {
    if relations != [] {
      var init, r := relations[..|relations| - 1], relations[|relations| - 1];
      EntryEdgesAre(slug, init, e);
      assert relations == init + [r];
    }
  }

  /** What a proposal asserts: the relations its entries list, but none of a concept to itself. */
  lemma {:induction false} AddedExactly(concepts: seq<ConceptIn>, e: Edge)
    ensures e in AddedEdges(concepts) <==>
      e.from != e.to && exists i ::
        0 <= i < |concepts| && concepts[i].slug == e.from && RelationIn(e.to, e.kind) in concepts[i].relations
    decreases |concepts|
  {
    if concepts != [] {
      var init, last := concepts[..|concepts| - 1], concepts[|concepts| - 1];
      AddedExactly(init, e);
      EntryEdgesAre(last.slug, last.relations, e);
      forall i | 0 <= i < |init| ensures init[i] == concepts[i] { }
    }
  }

  /**
   * Staging: an asserted relation that is active keeps its row, any other becomes the proposal's own; a removed
   * one gets the proposal's marker; the rest stay.
   */
  lemma StagedRelationIs(norm: Canonical, before: Db, after: Db, hash: string, input: Input, e: Edge)
    requires Staged(norm, before, after, hash, input, |before.proposals|)
    ensures Asserts(input.concepts, e) && e.from != e.to ==>
      Get(after.relations, e) == Some(
        if e in before.relations && before.relations[e].status == RelActive then before.relations[e]
        else
          Relation(RelProposed, |before.proposals|,
                   if e in before.relations then before.relations[e].removal else None))
    ensures e in input.removed && !Asserts(input.concepts, e) && e in before.relations ==>
      Get(after.relations, e) == Some(before.relations[e].(removal := Some(|before.proposals|)))
    ensures !(Asserts(input.concepts, e) && e.from != e.to) && e !in input.removed ==>
      Get(after.relations, e) == Get(before.relations, e)
  {
    AddedExactly(input.concepts, e);
  }

  // ----------------------------------------------------------------- claims

  /** A staged claim, as its entry gives it. */
  predicate ClaimOf(norm: Canonical, c: C.Claim, carrier: string, entry: ConceptIn, j: nat, id: Id) {
    && j < |entry.claims| && carrier == entry.slug
    && c.triple == entry.claims[j].triple && c.normalized == Some(norm(entry.claims[j].triple))
    && c.status == C.Proposed && c.proposal == Some(id)
    && c.complementary == entry.claims[j].complementary && c.supersedes == entry.claims[j].supersedes
  }

  lemma {:induction false} EachClaimIsStaged(norm: Canonical, concepts: seq<ConceptIn>, id: Id, i: nat, j: nat)
    returns (k: nat)
    requires i < |concepts| && j < |concepts[i].claims|
    ensures k < |AllClaims(norm, concepts, id)| == |AllCarriers(concepts)|
    ensures ClaimOf(norm, AllClaims(norm, concepts, id)[k], AllCarriers(concepts)[k], concepts[i], j, id)
    decreases |concepts|
  {
    var init := concepts[..|concepts| - 1];
    AllClaimsProposed(norm, init, id);
    AllClaimsProposed(norm, concepts, id);
    if i == |init| {
      k := |AllClaims(norm, init, id)| + j;
    } else {
      k := EachClaimIsStaged(norm, init, id, i, j);
    }
  }

  lemma {:induction false} EachStagedClaimIsGiven(norm: Canonical, concepts: seq<ConceptIn>, id: Id, k: nat)
    returns (i: nat, j: nat)
    requires k < |AllClaims(norm, concepts, id)|
    ensures i < |concepts| && |AllClaims(norm, concepts, id)| == |AllCarriers(concepts)|
    ensures ClaimOf(norm, AllClaims(norm, concepts, id)[k], AllCarriers(concepts)[k], concepts[i], j, id)
    decreases |concepts|
  {
    var init := concepts[..|concepts| - 1];
    AllClaimsProposed(norm, init, id);
    AllClaimsProposed(norm, concepts, id);
    if k < |AllClaims(norm, init, id)| {
      i, j := EachStagedClaimIsGiven(norm, init, id, k);
    } else {
      i, j := |init|, k - |AllClaims(norm, init, id)|;
    }
  }

  /** What the claims the proposal stages must say for approval to dispute claim k with another one. */
  predicate Opposed(a: C.Claim, b: C.Claim) {
    && a.triple.subject == b.triple.subject && a.triple.predicate_ == b.triple.predicate_
    && (if a.triple.context.Some? then a.triple.context.value else "")
       == (if b.triple.context.Some? then b.triple.context.value else "")
    && (if a.normalized.Some? then a.normalized.value else a.triple.object_)
       != (if b.normalized.Some? then b.normalized.value else b.triple.object_)
    && C.OverlapStored(a.triple.validity, b.triple.validity)
  }

  /** What the proposal lint, the review page's flag and approval call a collision, in terms of the rows. */
  lemma CollisionIs(table: seq<C.Claim>, c: nat, o: nat)
    ensures C.WouldDispute(table, c, o) <==>
      && c < |table| && o < |table| && Opposed(table[c], table[o])
      && table[c].proposal != table[o].proposal && (table[o].status == C.Verified || table[o].status == C.Disputed)
      && table[c].supersedes != Some(o)
  {
  }

  /** A claim of the proposal that may dispute others, and does: one of a functional predicate, not adjudicated. */
  predicate Strikes(s: C.Settings, table: seq<C.Claim>, id: Id, c: nat, o: nat) {
    && c < |table| && o < |table| && table[c].proposal == Some(id) && table[o].proposal != Some(id)
    && C.Functional(s, table[c].triple.predicate_) && !table[c].complementary && Opposed(table[c], table[o])
    && table[c].supersedes != Some(o)
  }

  predicate Retired(table: seq<C.Claim>, id: Id, o: nat) {
    exists c :: 0 <= c < |table| && table[c].proposal == Some(id) && table[c].supersedes == Some(o)
  }

  predicate InForce(c: C.Claim) { c.status == C.Verified || c.status == C.Disputed }

  /** Some claim in force, which the proposal does not itself retire, is struck by claim c. */
  predicate StrikesSome(s: C.Settings, table: seq<C.Claim>, id: Id, c: nat) {
    exists o :: 0 <= o < |table| && Strikes(s, table, id, c, o) && InForce(table[o]) && !Retired(table, id, o)
  }

  predicate Struck(s: C.Settings, table: seq<C.Claim>, id: Id, o: nat) {
    exists c :: 0 <= c < |table| && Strikes(s, table, id, c, o)
  }

  /**
   * Approval: the proposal's own claims are verified, or disputed where they strike a claim in force; claims in
   * force are deprecated where the proposal supersedes them and else disputed where it strikes them.
   */
  lemma ApprovedClaim(s: C.Settings, before: Db, after: Db, id: Id, k: nat)
    requires Applied(s, before, after, id) && k < |before.claims|
    ensures |after.claims| == |before.claims|
    ensures var was := before.claims[k];
      after.claims[k] == was.(status :=
        if was.proposal == Some(id) then if StrikesSome(s, before.claims, id, k) then C.Disputed else C.Verified
        else if !InForce(was) then was.status
        else if Retired(before.claims, id, k) then C.Deprecated
        else if Struck(s, before.claims, id, k) then C.Disputed else was.status)
  {
    var table := before.claims;
    forall c, o | 0 <= c < |table| && 0 <= o < |table|
      ensures C.Disputes(s, table, id, c, o) <==>
        Strikes(s, table, id, c, o) && InForce(table[o]) && !Retired(table, id, o)
    {
      CollisionIs(table, c, o);
      assert C.Replaced(table, id, o) <==> Retired(table, id, o);
    }
    assert C.Replaced(table, id, k) <==> Retired(table, id, k);
  }

  /** Claim c takes the place of claim o, or strikes it, for approval to relate the concepts that carry them. */
  predicate Relates(s: C.Settings, db: Db, id: Id, kind: string, c: nat, o: nat) {
    && c < |db.claims| && o < |db.claims| && db.claims[c].proposal == Some(id)
    && ((kind == "supersedes" && db.claims[c].supersedes == Some(o)
         && (InForce(db.claims[o]) || db.claims[o].status == C.Deprecated))
        || (kind == "contradicts" && Strikes(s, db.claims, id, c, o) && InForce(db.claims[o])
            && !Retired(db.claims, id, o)))
  }

  ghost predicate RelatesConcepts(s: C.Settings, db: Db, id: Id, e: Edge)
    requires |db.claims| == |db.carriers|
  {
    exists c: nat, o: nat :: Relates(s, db, id, e.kind, c, o) && db.carriers[c] == e.from && db.carriers[o] == e.to
  }

  lemma DerivedIs(s: C.Settings, db: Db, id: Id, e: Edge)
    requires |db.claims| == |db.carriers|
    ensures Derived(s, db, id, e) <==> e.from != e.to && RelatesConcepts(s, db, id, e)
  {
    var table := db.claims;
    forall c, o | 0 <= c < |table| && 0 <= o < |table|
      ensures C.Disputes(s, table, id, c, o) <==>
        Strikes(s, table, id, c, o) && InForce(table[o]) && !Retired(table, id, o)
    {
      CollisionIs(table, c, o);
      assert C.Replaced(table, id, o) <==> Retired(table, id, o);
    }
    if Derived(s, db, id, e) {
      var c, o :| 0 <= c < |table| && 0 <= o < |table| && DerivedFrom(s, db, id, e, c, o);
      assert Relates(s, db, id, e.kind, c, o);
    }
    if e.from != e.to && RelatesConcepts(s, db, id, e) {
      var c: nat, o: nat :| Relates(s, db, id, e.kind, c, o) && db.carriers[c] == e.from && db.carriers[o] == e.to;
      assert DerivedFrom(s, db, id, e, c, o);
    }
  }

  /**
   * Approval: relations between concepts whose claims it relates are active and unmarked, new ones its own; of
   * the others, those it staged come into force, and then those it marked are removed.
   */
  lemma ApprovedRelation(s: C.Settings, before: Db, after: Db, id: Id, e: Edge)
    requires Applied(s, before, after, id)
    ensures e.from != e.to && RelatesConcepts(s, before, id, e) ==>
      Get(after.relations, e)
      == Some(Relation(RelActive, if e in before.relations then before.relations[e].proposal else id, None))
    ensures !(e.from != e.to && RelatesConcepts(s, before, id, e)) ==>
      (e in after.relations <==> e in before.relations)
      && (e in before.relations ==>
            var was := before.relations[e];
            var active := was.status == RelActive || (was.status == RelProposed && was.proposal == id);
            after.relations[e] == was.(status :=
              if active && was.removal == Some(id) then RelRemoved else if active then RelActive else was.status))
  {
    DerivedIs(s, before, id, e);
    assert Get(after.relations, e) == RelationAfter(Get(before.relations, e), Derived(s, before, id, e), id);
  }

  // ---------------------------------------------------------------- refusals

  /** A concept the proposal writes to or points at: these must not be deleted. */
  ghost predicate Touched(input: Input, slug: string) {
    exists i :: 0 <= i < |input.concepts|
      && (input.concepts[i].slug == slug || exists r :: r in input.concepts[i].relations && r.to == slug)
  }

  lemma TouchedIs(input: Input, slug: string)
    ensures Involved(input, slug) <==> Touched(input, slug)
  {
    var added := AddedEdges(input.concepts);
    if k :| 0 <= k < |added| && added[k].to == slug {
      AddedExactly(input.concepts, added[k]);
      var i :| 0 <= i < |input.concepts| && input.concepts[i].slug == added[k].from
        && RelationIn(added[k].to, added[k].kind) in input.concepts[i].relations;
    }
    if i, r :|
      0 <= i < |input.concepts| && input.concepts[i].slug != slug && r in input.concepts[i].relations && r.to == slug
    {
      var e := Edge(input.concepts[i].slug, r.to, r.kind);
      assert RelationIn(e.to, e.kind) == r;
      AddedExactly(input.concepts, e);
      var k :| 0 <= k < |added| && added[k] == e;
    }
  }

  ghost predicate EverySourceExists(db: Db, input: Input) {
    && (forall x :: x in input.sources ==> x in db.sources)
    && (forall entry, c, x :: entry in input.concepts && c in entry.claims && x in c.sources ==> x in db.sources)
  }

  ghost predicate EverySupersededIsInForce(db: Db, input: Input) {
    forall entry, c :: entry in input.concepts && c in entry.claims && c.supersedes.Some? ==>
      c.supersedes.value < |db.claims| && InForce(db.claims[c.supersedes.value])
  }

  /** No concept touched is deleted, and every end of a removed relation exists or is touched. */
  ghost predicate EveryConceptIsUsable(db: Db, input: Input) {
    && (forall slug :: Touched(input, slug) && slug in db.concepts ==>
          db.concepts[slug].current.Some? || !db.concepts[slug].deleted)
    && (forall e, slug :: e in input.removed && (slug == e.from || slug == e.to) && !Touched(input, slug) ==>
          slug in db.concepts)
  }

  /** No asserted relation is under removal by a proposal still pending. */
  ghost predicate NothingAssertedIsLeaving(db: Db, input: Input) {
    forall e :: Asserts(input.concepts, e) && e.from != e.to && e in db.relations ==>
      !MarkedByPending(db, db.relations[e])
  }

  predicate MarkedByPending(db: Db, r: Relation) {
    r.removal.Some? && r.removal.value < |db.proposals| && db.proposals[r.removal.value].status == Pending
  }

  ghost predicate EveryRemovedIsActive(db: Db, input: Input) {
    forall e :: e in input.removed ==> e in db.relations && db.relations[e].status == RelActive
  }

  /** Which stagings are refused, and for which reason: the first that holds, in this order. */
  lemma RefusedFor(db: Db, input: Input)
    ensures Refusal(db, input)
      == if !EverySourceExists(db, input) then Some(UnknownSource)
         else if !EverySupersededIsInForce(db, input) then Some(UnknownClaim)
         else if !EveryConceptIsUsable(db, input) then Some(UnusableConcept)
         else if !NothingAssertedIsLeaving(db, input) then Some(PendingRemoval)
         else if !EveryRemovedIsActive(db, input) then Some(NoActiveRelation)
         else None
  {
    SourcesAre(db, input);
    SupersededAre(db, input);
    UsableAre(db, input);
    LeavingAre(db, input);
  }

  lemma SourcesAre(db: Db, input: Input)
    ensures SourcesKnown(db, input) <==> EverySourceExists(db, input)
  {
    if SourcesKnown(db, input) {
      forall entry, c, x | entry in input.concepts && c in entry.claims && x in c.sources ensures x in db.sources {
        var i :| 0 <= i < |input.concepts| && input.concepts[i] == entry;
        var j :| 0 <= j < |entry.claims| && entry.claims[j] == c;
        var k :| 0 <= k < |c.sources| && c.sources[k] == x;
        assert input.concepts[i].claims[j].sources[k] in db.sources;
      }
    }
    if EverySourceExists(db, input) {
      forall i, j, k | 0 <= i < |input.concepts| && 0 <= j < |input.concepts[i].claims|
        && 0 <= k < |input.concepts[i].claims[j].sources|
        ensures input.concepts[i].claims[j].sources[k] in db.sources
      {
        var entry := input.concepts[i];
        assert entry in input.concepts && entry.claims[j] in entry.claims;
        assert entry.claims[j].sources[k] in entry.claims[j].sources;
      }
    }
  }

  lemma SupersededAre(db: Db, input: Input)
    ensures SupersedesVisible(db, input) <==> EverySupersededIsInForce(db, input)
  {
    if SupersedesVisible(db, input) {
      forall entry, c | entry in input.concepts && c in entry.claims && c.supersedes.Some?
        ensures c.supersedes.value < |db.claims| && InForce(db.claims[c.supersedes.value])
      {
        var i :| 0 <= i < |input.concepts| && input.concepts[i] == entry;
        var j :| 0 <= j < |entry.claims| && entry.claims[j] == c;
        assert Visible(db, input.concepts[i].claims[j].supersedes.value);
      }
    }
    if EverySupersededIsInForce(db, input) {
      forall i, j | 0 <= i < |input.concepts| && 0 <= j < |input.concepts[i].claims|
        && input.concepts[i].claims[j].supersedes.Some?
        ensures Visible(db, input.concepts[i].claims[j].supersedes.value)
      {
        assert input.concepts[i] in input.concepts && input.concepts[i].claims[j] in input.concepts[i].claims;
      }
    }
  }

  lemma UsableAre(db: Db, input: Input)
    ensures ConceptsUsable(db, input) <==> EveryConceptIsUsable(db, input)
  {
    forall slug ensures Involved(input, slug) <==> Touched(input, slug) { TouchedIs(input, slug); }
    forall slug ensures Endpoint(input, slug) <==> exists e :: e in input.removed && (slug == e.from || slug == e.to) {
      if e :| e in input.removed && (slug == e.from || slug == e.to) {
        var k :| 0 <= k < |input.removed| && input.removed[k] == e;
      }
    }
    if ConceptsUsable(db, input) {
      forall slug | Touched(input, slug) && slug in db.concepts
        ensures db.concepts[slug].current.Some? || !db.concepts[slug].deleted
      {
        assert !Deleted(db, slug);
      }
    }
  }

  lemma LeavingAre(db: Db, input: Input)
    ensures NoRemovalPending(db, input) <==> NothingAssertedIsLeaving(db, input)
    ensures RemovalsActive(db, input) <==> EveryRemovedIsActive(db, input)
  {
    var added := AddedEdges(input.concepts);
    forall e ensures e in added <==> Asserts(input.concepts, e) && e.from != e.to { AddedExactly(input.concepts, e); }
    if NoRemovalPending(db, input) {
      forall e | e in added ensures !RemovalPending(db, e) {
        var k :| 0 <= k < |added| && added[k] == e;
        assert !RemovalPending(db, added[k]);
      }
    }
    if RemovalsActive(db, input) {
      forall e | e in input.removed ensures Active(db, e) {
        var k :| 0 <= k < |input.removed| && input.removed[k] == e;
      }
    }
  }

  /** What a proposal must be: not empty, one entry per slug, and each removal once and not asserted as well. */
  lemma WellFormedIs(input: Input)
    ensures WellFormed(input) <==>
      && |input.concepts| + |input.decisions| + |input.removed| > 0
      && (forall i, j :: 0 <= i < j < |input.concepts| ==> input.concepts[i].slug != input.concepts[j].slug)
      && (forall i, j :: 0 <= i < j < |input.decisions| ==> input.decisions[i].slug != input.decisions[j].slug)
      && (forall i, j :: 0 <= i < j < |input.removed| ==> input.removed[i] != input.removed[j])
      && (forall e, entry :: e in input.removed && entry in input.concepts && entry.slug == e.from ==>
            RelationIn(e.to, e.kind) !in entry.relations)
  {
    forall e | e in input.removed
      ensures !Asserts(input.concepts, e) <==> forall entry :: entry in input.concepts && entry.slug == e.from ==>
        RelationIn(e.to, e.kind) !in entry.relations
    {
      if Asserts(input.concepts, e) {
        var i :| 0 <= i < |input.concepts| && input.concepts[i].slug == e.from
          && RelationIn(e.to, e.kind) in input.concepts[i].relations;
        assert input.concepts[i] in input.concepts;
      }
    }
    if forall i :: 0 <= i < |input.removed| ==> !Asserts(input.concepts, input.removed[i]) {
      forall e | e in input.removed ensures !Asserts(input.concepts, e) {
        var i :| 0 <= i < |input.removed| && input.removed[i] == e;
      }
    }
  }

  // ------------------------------------------------------- from input to page

  /** A written row keeps its number, text, base and proposal from any state of a run to any later one. */
  lemma RowIsKept(norm: Canonical, worlds: seq<World>, steps: seq<Step>, i: nat, j: nat, slug: string, k: nat)
    requires Run(norm, worlds, steps) && i <= j < |worlds| && k < |Revs(worlds[i].db.revisions, slug)|
    ensures SameButStatus(Revs(worlds[i].db.revisions, slug), Revs(worlds[j].db.revisions, slug), k)
  {
    var lists := seq(|worlds|, n requires 0 <= n < |worlds| => Revs(worlds[n].db.revisions, slug));
    forall n: nat | n < |lists| - 1 && k < |lists[n]| ensures SameButStatus(lists[n], lists[n + 1], k) {
      RowIsKeptOnce(norm, worlds, steps, n, slug, k);
    }
    KeptAlong(lists, i, j, k);
  }

  lemma {:induction false} KeptAlong(lists: seq<seq<Revision>>, i: nat, j: nat, k: nat)
    requires i <= j < |lists| && k < |lists[i]|
    requires forall n: nat :: n < |lists| - 1 && k < |lists[n]| ==> SameButStatus(lists[n], lists[n + 1], k)
    ensures SameButStatus(lists[i], lists[j], k)
    decreases j
  {
    if i < j { KeptAlong(lists, i, j - 1, k); }
  }

  lemma RowIsKeptOnce(norm: Canonical, worlds: seq<World>, steps: seq<Step>, j: nat, slug: string, k: nat)
    requires Run(norm, worlds, steps) && j < |steps| && k < |Revs(worlds[j].db.revisions, slug)|
    ensures SameButStatus(Revs(worlds[j].db.revisions, slug), Revs(worlds[j + 1].db.revisions, slug), k)
  {
    EveryRunIsSound(norm, worlds, steps, j);
    assert Next(norm, worlds[j], worlds[j + 1], steps[j]);
    RevisionsAreImmutable(norm, worlds[j], worlds[j + 1], steps[j], slug, k);
  }

  lemma StagedRowIs(norm: Canonical, worlds: seq<World>, steps: seq<Step>, i: nat, n: nat) returns (k: nat)
    requires Run(norm, worlds, steps) && i < |steps| && steps[i].Stage? && n < |steps[i].input.concepts|
    ensures var entry := steps[i].input.concepts[n];
      && k < |Revs(worlds[i + 1].db.revisions, entry.slug)|
      && Revs(worlds[i + 1].db.revisions, entry.slug)[k].markdown == entry.markdown
      && Revs(worlds[i + 1].db.revisions, entry.slug)[k].proposal == |worlds[i].db.proposals|
      && Revs(worlds[i + 1].db.revisions, entry.slug)[k].base
         == match entry.base case Against(b) => b case Absent => CurrentOf(worlds[i].db.concepts, entry.slug)
  {
    assert Next(norm, worlds[i], worlds[i + 1], steps[i]);
    StagedEntry(norm, worlds[i].db, worlds[i + 1].db, steps[i].hash, steps[i].input, n);
    k := |Revs(worlds[i].db.revisions, steps[i].input.concepts[n].slug)|;
  }

  /** While its proposal is under review, a staged row is neither published nor rejected. */
  lemma UnderReview(norm: Canonical, worlds: seq<World>, steps: seq<Step>, j: nat, slug: string, k: nat)
    requires Run(norm, worlds, steps) && j < |steps| && steps[j].Approve? && k < |Revs(worlds[j].db.revisions, slug)|
    requires Revs(worlds[j].db.revisions, slug)[k].proposal == steps[j].id
    ensures IsFresh(Revs(worlds[j].db.revisions, slug)[k], steps[j].id)
  {
    EveryRunIsSound(norm, worlds, steps, j);
    assert Next(norm, worlds[j], worlds[j + 1], steps[j]);
    assert GateRevision(worlds[j].db.proposals, Revs(worlds[j].db.revisions, slug)[k]);
  }

  /**
   * Over every run: when a proposal is approved, each page it changes is still the one its entry was written against -
   * the revision the entry gives, or the one current when it was staged - and afterwards readers see the entry's text.
   */
  lemma ApprovedAgainstItsBase(norm: Canonical, worlds: seq<World>, steps: seq<Step>, i: nat, j: nat, n: nat)
    returns (k: nat)
    requires Run(norm, worlds, steps) && i < j < |steps| && steps[i].Stage? && n < |steps[i].input.concepts|
    requires steps[j] == Approve(|worlds[i].db.proposals|)
    ensures var entry := steps[i].input.concepts[n];
      && (entry.base.Against? ==> CurrentOf(worlds[j].db.concepts, entry.slug) == entry.base.revision)
      && (entry.base.Absent? ==>
            CurrentOf(worlds[j].db.concepts, entry.slug) == CurrentOf(worlds[i].db.concepts, entry.slug))
      && CurrentOf(worlds[j + 1].db.concepts, entry.slug) == Some(k + 1)
      && k < |Revs(worlds[j + 1].db.revisions, entry.slug)|
      && Revs(worlds[j + 1].db.revisions, entry.slug)[k].markdown == entry.markdown
  {
    var slug := steps[i].input.concepts[n].slug;
    k := StagedRowIs(norm, worlds, steps, i, n);
    RowIsKept(norm, worlds, steps, i + 1, j, slug, k);
    UnderReview(norm, worlds, steps, j, slug, k);
    NoLostUpdate(norm, worlds, steps, j, slug, k);
    RowIsKept(norm, worlds, steps, j, j + 1, slug, k);
  }

  // -------------------------------------------------------------- rejection

  /** Rejection: what the proposal staged is put out of reach; claims, decisions and everything else stay. */
  lemma RejectedRows(db: Db, id: Id, slug: string, k: nat, e: Edge)
    requires id < |db.proposals|
    ensures var after := Rejection(db, id);
      && after.proposals == db.proposals[id := Proposal(db.proposals[id].hash, Turned)]
      && after.claims == db.claims && after.carriers == db.carriers && after.decisions == db.decisions
      && after.concepts == db.concepts && after.sources == db.sources
      && after.outbox == db.outbox + [ProposalRejected(id)]
      && |Revs(after.revisions, slug)| == |Revs(db.revisions, slug)|
      && (k < |Revs(db.revisions, slug)| ==>
            var was := Revs(db.revisions, slug)[k];
            Revs(after.revisions, slug)[k]
            == if was.proposal == id && was.status == Proposed then was.(status := Rejected) else was)
      && (e in after.relations <==> e in db.relations)
      && (e in db.relations ==>
            var was := db.relations[e];
            after.relations[e]
            == if was.proposal == id && was.status == RelProposed then was.(status := RelRemoved) else was)
  {
  }
}
