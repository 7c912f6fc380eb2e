/** Approving and rejecting as programs: the SQL functions' statements in order, and approveProposal around them. */
module ReviewProgram {
  import opened Wrappers
  import opened Text
  import opened Staging
  import opened Approval
  import C = Contradictions
  import P = StagingProgram

  /** Edges the approval derives, read off the claims at the point where each insert runs. */
  function SuccessionEdges(claims: seq<C.Claim>, carriers: seq<string>, id: Id): set<Edge>
    requires |claims| == |carriers|
  {
    set c, o | 0 <= c < |claims| && 0 <= o < |claims| && C.Supersedes(claims, id, c, o)
      && claims[o].status == C.Deprecated
      && carriers[c] != carriers[o] :: Edge(carriers[c], carriers[o], "supersedes")
  }

  function CollisionEdges(s: C.Settings, claims: seq<C.Claim>, carriers: seq<string>, id: Id): set<Edge>
    requires |claims| == |carriers|
  {
    set c, o | 0 <= c < |claims| && 0 <= o < |claims| && C.DisputedPair(s, claims, id, c, o)
      && claims[c].status == C.Disputed && claims[o].status == C.Disputed
      && carriers[c] != carriers[o] :: Edge(carriers[c], carriers[o], "contradicts")
  }

  /** INSERT ... ON CONFLICT DO UPDATE SET status = 'active', removal_proposal_id = null. */
  function Upsert(relations: map<Edge, Relation>, edges: set<Edge>, id: Id): map<Edge, Relation> {
    map e | e in relations.Keys + edges :: Upserted(Get(relations, e), e in edges, id).value
  }

  lemma UpsertGet(relations: map<Edge, Relation>, edges: set<Edge>, id: Id, e: Edge)
    ensures Get(Upsert(relations, edges, id), e) == Upserted(Get(relations, e), e in edges, id)
  {
  }

  /** A succession edge exists exactly when a claim of the proposal takes the place of another. */
  lemma SuccessionsAreDerived(s: C.Settings, db: Db, id: Id, e: Edge)
    requires C.AwaitsReview(db.claims, id) && |db.claims| == |db.carriers|
    ensures e in SuccessionEdges(C.Deprecate(C.Verify(db.claims, id), id), db.carriers, id)
      <==> e.kind == "supersedes" && Derived(s, db, id, e)
  {
    var t := C.Deprecate(C.Verify(db.claims, id), id);
    forall c, o | 0 <= c < |t| && 0 <= o < |t|
      ensures C.Supersedes(t, id, c, o) && t[o].status == C.Deprecated <==> Succeeds(db.claims, id, c, o)
    {
      C.BeforeDisputes(db.claims, id, c);
      C.BeforeDisputes(db.claims, id, o);
    }
    if e in SuccessionEdges(t, db.carriers, id) {
      var c, o :| 0 <= c < |t| && 0 <= o < |t| && C.Supersedes(t, id, c, o) && t[o].status == C.Deprecated
        && db.carriers[c] != db.carriers[o] && e == Edge(db.carriers[c], db.carriers[o], "supersedes");
      assert DerivedFrom(s, db, id, e, c, o);
    }
    if e.kind == "supersedes" && Derived(s, db, id, e) {
      var c, o :| 0 <= c < |db.claims| && 0 <= o < |db.claims| && DerivedFrom(s, db, id, e, c, o);
      assert C.Supersedes(t, id, c, o) && t[o].status == C.Deprecated;
    }
  }

  /** A collision edge exists exactly when approval disputes a pair. */
  lemma CollisionsAreDerived(s: C.Settings, db: Db, id: Id, e: Edge)
    requires C.AwaitsReview(db.claims, id) && |db.claims| == |db.carriers|
    ensures e in CollisionEdges(s, C.Approve(s, db.claims, id), db.carriers, id)
      <==> e.kind == "contradicts" && Derived(s, db, id, e)
  {
    var t, u := C.Deprecate(C.Verify(db.claims, id), id), C.Approve(s, db.claims, id);
    forall c, o | 0 <= c < |t| && 0 <= o < |t|
      ensures C.DisputedPair(s, u, id, c, o) && u[c].status == C.Disputed && u[o].status == C.Disputed
        <==> C.Disputes(s, db.claims, id, c, o)
    {
      C.PairsSurvive(s, db.claims, id, c, o);
      PairStays(s, t, id, c, o);
    }
    if e in CollisionEdges(s, u, db.carriers, id) {
      var c, o :| 0 <= c < |u| && 0 <= o < |u| && C.DisputedPair(s, u, id, c, o) && u[c].status == C.Disputed
        && u[o].status == C.Disputed && db.carriers[c] != db.carriers[o]
          && e == Edge(db.carriers[c], db.carriers[o], "contradicts");
      assert DerivedFrom(s, db, id, e, c, o);
    }
    if e.kind == "contradicts" && Derived(s, db, id, e) {
      var c, o :| 0 <= c < |db.claims| && 0 <= o < |db.claims| && DerivedFrom(s, db, id, e, c, o);
      assert C.DisputedPair(s, u, id, c, o) && u[c].status == C.Disputed && u[o].status == C.Disputed;
    }
  }

  /** The disputed pairs are the same when recomputed after the flip. */
  lemma PairStays(s: C.Settings, t: seq<C.Claim>, id: Id, c: nat, o: nat)
    requires c < |t| && o < |t|
    ensures C.DisputedPair(s, C.Dispute(s, t, id), id, c, o) && C.Dispute(s, t, id)[c].status == C.Disputed
      && C.Dispute(s, t, id)[o].status == C.Disputed
      <==> C.DisputedPair(s, t, id, c, o)
  {
    if C.DisputedPair(s, t, id, c, o) { assert C.InPair(s, t, id, c) && C.InPair(s, t, id, o); }
  }

  /** wk_apply_proposal: the checks, then flips 1 to 7 over one transaction. */
  method ApplyProposal(s: C.Settings, db: Db, id: Id) returns (r: Result<Db, ReviewError>)
    requires Sound(db)
    ensures r.Ok? <==> Reviewable(db, id) && !Stale(db, id)
    ensures r.Err? ==> r.error == if id >= |db.proposals| then NotFound
      else if db.proposals[id].status != Pending then NotPending else StaleBase
    ensures r.Ok? ==> Applied(s, db, r.value, id)
  {
    if id >= |db.proposals| { return Err(NotFound); }
    if db.proposals[id].status != Pending { return Err(NotPending); }
    if Stale(db, id) { return Err(StaleBase); }
    SoundAwaitsReview(db, id);
    var revisions, concepts := FlipRevisions(db, id);
    var claims, relations := FlipClaims(s, db, id);
    // Flip 6, 6c and 6b.
    relations := map e | e in relations :: Activated(relations[e], id);
    var decisions := FlipDecisions(db.decisions, id);
    relations := map e | e in relations :: Withdrawn(relations[e], id);
    // Flip 7.
    var proposals := db.proposals[id := db.proposals[id].(status := Approved)];
    r := Ok(Db(db.sources, concepts, revisions, claims, db.carriers, relations, decisions, proposals,
      db.outbox + [ProposalApproved(id)]));
  }

  /** Flips 1 to 3. */
  method FlipRevisions(db: Db, id: Id) returns (revisions: map<string, seq<Revision>>, concepts: map<string, Concept>)
    requires Linked(db)
    ensures forall slug ::
      Revs(revisions, slug) == FlippedRevs(CurrentOf(db.concepts, slug), Revs(db.revisions, slug), id)
    ensures concepts.Keys == db.concepts.Keys
    ensures forall slug :: slug in db.concepts ==>
      concepts[slug] == db.concepts[slug].(current :=
        FlippedCurrent(db.concepts[slug].current, Revs(db.revisions, slug), id))
  {
    revisions := map slug | slug in db.revisions :: SupersedeOld(CurrentOf(db.concepts, slug), db.revisions[slug], id);
    revisions := map slug | slug in revisions :: MakeCurrent(revisions[slug], id);
    concepts := map slug | slug in db.concepts ::
      db.concepts[slug].(current := Repoint(db.concepts[slug].current, Revs(revisions, slug), id));
  }

  /** Flips 4, 5c, 5 and 5b, with the relations they derive. */
  method FlipClaims(s: C.Settings, db: Db, id: Id) returns (claims: seq<C.Claim>, relations: map<Edge, Relation>)
    requires C.AwaitsReview(db.claims, id) && |db.claims| == |db.carriers|
    ensures |claims| == |db.claims|
    ensures forall k :: 0 <= k < |db.claims| ==> claims[k] == db.claims[k].(status := C.Outcome(s, db.claims, id, k))
    ensures forall e :: Get(relations, e) == Upserted(Get(db.relations, e), Derived(s, db, id, e), id)
  {
    claims := C.Verify(db.claims, id);
    claims := C.Deprecate(claims, id);
    ghost var retired := claims;
    relations := Upsert(db.relations, SuccessionEdges(claims, db.carriers, id), id);
    ghost var first := relations;
    claims := C.Dispute(s, claims, id);
    relations := Upsert(relations, CollisionEdges(s, claims, db.carriers, id), id);
    forall k | 0 <= k < |db.claims| ensures claims[k] == db.claims[k].(status := C.Outcome(s, db.claims, id, k)) {
      C.ApprovalOutcome(s, db.claims, id, k);
    }
    forall e ensures Get(relations, e) == Upserted(Get(db.relations, e), Derived(s, db, id, e), id) {
      SuccessionsAreDerived(s, db, id, e);
      CollisionsAreDerived(s, db, id, e);
      UpsertGet(db.relations, SuccessionEdges(retired, db.carriers, id), id, e);
      UpsertGet(first, CollisionEdges(s, claims, db.carriers, id), id, e);
      assert Derived(s, db, id, e) ==> Derivable(e.kind);
    }
  }

  /** Flip 6c retires replaced decisions, then flip 6 activates the staged ones. */
  method FlipDecisions(before: map<string, Decision>, id: Id) returns (after: map<string, Decision>)
    ensures after.Keys == before.Keys
    ensures forall slug :: slug in before ==> after[slug] == DecisionAfter(before, id, slug)
  {
    after := map slug | slug in before ::
      if before[slug].status == DecActive && DecisionReplaced(before, id, slug)
        then before[slug].(status := DecSuperseded) else before[slug];
    after := map slug | slug in after ::
      if after[slug].proposal == id && after[slug].status == DecProposed then after[slug].(status := DecActive)
        else after[slug];
  }

  /**
   * approveProposal: the SQL function is all or nothing, and a stale_base failure is
   * then recorded by a second, guarded write. The log of published revisions grows
   * only on success.
   */
  method ApproveProposal(s: C.Settings, space: P.Space, id: Id,
    ghost log: map<string, seq<nat>>) returns (r: Result<Id, ReviewError>, ghost longer: map<string, seq<nat>>)
    requires Sound(space.db) && Linear(space.db, log)
    modifies space`db
    ensures Sound(space.db) && Linear(space.db, longer)
    ensures r.Ok? <==> Reviewable(old(space.db), id) && !Stale(old(space.db), id)
    ensures r.Ok? ==> r.value == id && Applied(s, old(space.db), space.db, id) && Logged(old(space.db), id, log, longer)
    ensures r.Err? ==> longer == log && (r.error == StaleBase ==> Reviewable(old(space.db), id))
    ensures r.Err? ==> space.db == if r.error == StaleBase then Failure(old(space.db), id) else old(space.db)
  {
    longer := log;
    var outcome := ApplyProposal(s, space.db, id);
    match outcome {
      case Ok(after) =>
        longer := GrownLog(space.db, id, log);
        ApprovalKeepsSound(s, space.db, after, id, log, longer);
        space.db := after;
        r := Ok(id);
      case Err(error) =>
        if error == StaleBase {
          FailureKeepsSound(space.db, id, log);
          space.MarkStale(id);
        }
        r := Err(error);
    }
  }

  ghost function GrownLog(db: Db, id: Id, log: map<string, seq<nat>>): (r: map<string, seq<nat>>)
    ensures Logged(db, id, log, r)
  {
    var r := map slug | slug in db.revisions.Keys + log.Keys ::
      LogAfter(Revs(db.revisions, slug), LogOf(log, slug), id);
    assert forall slug :: LogOf(r, slug) == LogAfter(Revs(db.revisions, slug), LogOf(log, slug), id);
    r
  }

  /** wk_reject_proposal. */
  method RejectProposal(space: P.Space, id: Id, ghost log: map<string, seq<nat>>) returns (r: Result<Id, ReviewError>)
    requires Sound(space.db) && Linear(space.db, log)
    modifies space`db
    ensures Sound(space.db) && Linear(space.db, log)
    ensures r.Ok? <==> Reviewable(old(space.db), id)
    ensures space.db == if r.Ok? then Rejection(old(space.db), id) else old(space.db)
    ensures r.Err? ==> r.error == if id >= |old(space.db).proposals| then NotFound else NotPending
  {
    if id >= |space.db.proposals| { return Err(NotFound); }
    if space.db.proposals[id].status != Pending { return Err(NotPending); }
    RejectionKeepsSound(space.db, id, log);
    space.db := Rejection(space.db, id);
    return Ok(id);
  }
}
