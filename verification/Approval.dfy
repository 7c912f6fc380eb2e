/** The review gate over every run: staging, approval, rejection (src/db/migrations/, src/domain/proposals.ts). */
module Approval {
  // What wk_apply_proposal and wk_reject_proposal do to a space, and what holds over
  // every run of stagings and reviews.

  import opened Wrappers
  import opened Text
  import opened Staging
  import C = Contradictions
  import Locks = StagingLocks

  datatype ReviewError = NotFound | NotPending | StaleBase

  // ------------------------------------------------------------ revisions

  predicate IsFresh(r: Revision, id: Id) { r.proposal == id && r.status == Proposed }

  predicate HasFresh(revs: seq<Revision>, id: Id) { exists k :: 0 <= k < |revs| && IsFresh(revs[k], id) }

  function CurrentOf(concepts: map<string, Concept>, slug: string): Option<nat> {
    if slug in concepts then concepts[slug].current else None
  }

  /** A staged revision was written against something other than the page readers see now. */
  predicate StaleAt(current: Option<nat>, revs: seq<Revision>, id: Id) {
    exists k :: 0 <= k < |revs| && IsFresh(revs[k], id) && current != revs[k].base
  }

  predicate Stale(db: Db, id: Id) {
    exists slug :: slug in db.revisions && StaleAt(CurrentOf(db.concepts, slug), db.revisions[slug], id)
  }

  /** Flip 1: the current revision of a touched concept is superseded. */
  function SupersedeOld(current: Option<nat>, revs: seq<Revision>, id: Id): seq<Revision> {
    seq(|revs|, k requires 0 <= k < |revs| =>
      if HasFresh(revs, id) && current == Some(revs[k].rev) then revs[k].(status := Superseded) else revs[k])
  }

  /** Flip 2: the staged revision becomes current. */
  function MakeCurrent(revs: seq<Revision>, id: Id): seq<Revision> {
    seq(|revs|, k requires 0 <= k < |revs| => if IsFresh(revs[k], id) then revs[k].(status := Current) else revs[k])
  }

  /** Flip 3: the concept points at the proposal's current revision. */
  function Repoint(current: Option<nat>, revs: seq<Revision>, id: Id): Option<nat> {
    if revs == [] then current
    else
      var last := revs[|revs| - 1];
      if last.proposal == id && last.status == Current then Some(last.rev) else Repoint(current, revs[..|revs| - 1], id)
  }

  function FlippedRevs(current: Option<nat>, revs: seq<Revision>, id: Id): seq<Revision> {
    MakeCurrent(SupersedeOld(current, revs, id), id)
  }

  function FlippedCurrent(current: Option<nat>, revs: seq<Revision>, id: Id): Option<nat> {
    Repoint(current, FlippedRevs(current, revs, id), id)
  }

  function RejectedRevs(revs: seq<Revision>, id: Id): seq<Revision> {
    seq(|revs|, k requires 0 <= k < |revs| => if IsFresh(revs[k], id) then revs[k].(status := Rejected) else revs[k])
  }

  /**
   * log lists the revisions of one concept in the order they became current. Readers
   * see its last entry, each entry was written against the one before it, and the
   * revisions outside it were never current.
   */
  ghost predicate History(current: Option<nat>, revs: seq<Revision>, log: seq<nat>) {
    && NoRepeats(log)
    && current == Before1(log, |log|)
    && (forall i :: 0 <= i < |log| ==> Entry(revs, log, i))
    && (forall k :: 0 <= k < |revs| ==> Fits(current, revs, log, k))
  }

  predicate Entry(revs: seq<Revision>, log: seq<nat>, i: nat)
    requires i < |log|
  {
    1 <= log[i] <= |revs| && revs[log[i] - 1].base == Before1(log, i)
  }

  predicate Fits(current: Option<nat>, revs: seq<Revision>, log: seq<nat>, k: nat)
    requires k < |revs|
  {
    && revs[k].rev == k + 1
    && (revs[k].status == Current <==> current == Some(k + 1))
    && (Published(revs[k]) <==> k + 1 in log)
  }

  function Before1(log: seq<nat>, i: nat): Option<nat>
    requires i <= |log|
  {
    if i == 0 then None else Some(log[i - 1])
  }

  predicate Published(r: Revision) { r.status == Current || r.status == Superseded }

  /** A proposal stages at most one revision of a concept. */
  predicate OnePerProposal(revs: seq<Revision>) {
    forall j, k :: 0 <= j < k < |revs| ==> revs[j].proposal != revs[k].proposal
  }

  lemma {:induction false} RepointFinds(current: Option<nat>, revs: seq<Revision>, id: Id, k: nat)
    requires k < |revs| && OnePerProposal(revs) && revs[k].proposal == id
    ensures Repoint(current, revs, id) == if revs[k].status == Current then Some(revs[k].rev) else current
    decreases |revs|
  {
    if k < |revs| - 1 {
      RepointFinds(current, revs[..|revs| - 1], id, k);
    } else {
      RepointSkips(current, revs[..|revs| - 1], id);
    }
  }

  lemma {:induction false} RepointSkips(current: Option<nat>, revs: seq<Revision>, id: Id)
    requires forall k :: 0 <= k < |revs| ==> revs[k].proposal != id || revs[k].status != Current
    ensures Repoint(current, revs, id) == current
    decreases |revs|
  {
    if revs != [] { RepointSkips(current, revs[..|revs| - 1], id); }
  }

  ghost function LogAfter(revs: seq<Revision>, log: seq<nat>, id: Id): seq<nat> {
    if k :| 0 <= k < |revs| && IsFresh(revs[k], id) then log + [k + 1] else log
  }

  /** Approval extends the history by the revision that was staged against its end. */
  lemma ApprovalExtends(current: Option<nat>, revs: seq<Revision>, log: seq<nat>, id: Id, k: nat)
    requires History(current, revs, log) && OnePerProposal(revs) && !StaleAt(current, revs, id)
    requires k < |revs| && IsFresh(revs[k], id)
    ensures History(FlippedCurrent(current, revs, id), FlippedRevs(current, revs, id), log + [k + 1])
    ensures current == revs[k].base && FlippedCurrent(current, revs, id) == Some(k + 1)
      && LogAfter(revs, log, id) == log + [k + 1]
  {
    var after, longer, now := FlippedRevs(current, revs, id), log + [k + 1], FlippedCurrent(current, revs, id);
    assert Fits(current, revs, log, k);
    RepointFinds(current, after, id, k);
    assert forall j :: 0 <= j < |revs| && IsFresh(revs[j], id) ==> j == k;
    forall i | 0 <= i < |longer| ensures Entry(after, longer, i) {
      if i < |log| { assert Entry(revs, log, i); }
    }
    forall j | 0 <= j < |after| ensures Fits(now, after, longer, j) {
      assert Fits(current, revs, log, j);
      assert j != k ==> revs[j].proposal != id;
      assert current == Some(j + 1) ==> j + 1 in log;
    }
  }

  lemma ApprovalSkips(current: Option<nat>, revs: seq<Revision>, id: Id)
    requires !HasFresh(revs, id) && forall k :: 0 <= k < |revs| && revs[k].proposal == id ==> revs[k].status != Current
    ensures FlippedRevs(current, revs, id) == revs && FlippedCurrent(current, revs, id) == current
  {
    RepointSkips(current, revs, id);
  }

  lemma StagingExtends(current: Option<nat>, revs: seq<Revision>, log: seq<nat>, r: Revision)
    requires History(current, revs, log) && r.rev == |revs| + 1 && r.status == Proposed
    ensures History(current, revs + [r], log)
  {
    forall i | 0 <= i < |log| ensures Entry(revs + [r], log, i) { assert Entry(revs, log, i); }
    forall i | 0 <= i < |log| ensures log[i] != |revs| + 1 { assert Entry(revs, log, i); }
    forall k | 0 <= k < |revs + [r]| ensures Fits(current, revs + [r], log, k) {
      if k < |revs| { assert Fits(current, revs, log, k); }
      assert current == Some(|revs| + 1) ==> |revs| + 1 in log;
    }
  }

  lemma RejectionKeeps(current: Option<nat>, revs: seq<Revision>, log: seq<nat>, id: Id)
    requires History(current, revs, log)
    ensures History(current, RejectedRevs(revs, id), log)
  {
    var after := RejectedRevs(revs, id);
    forall i | 0 <= i < |log| ensures Entry(after, log, i) { assert Entry(revs, log, i); }
    forall k | 0 <= k < |after| ensures Fits(current, after, log, k) { assert Fits(current, revs, log, k); }
  }

  // ------------------------------------------------- relations, decisions

  /** Claim c of the proposal takes the place of claim o, which is in force or already retired. */
  predicate Succeeds(claims: seq<C.Claim>, id: Id, c: nat, o: nat)
    requires c < |claims| && o < |claims|
  {
    claims[c].proposal == Some(id) && claims[c].supersedes == Some(o)
      && (C.Visible(claims[o]) || claims[o].status == C.Deprecated)
  }

  /** Edges approval derives from the claims: successions it carried out and collisions it disputed. */
  predicate DerivedFrom(s: C.Settings, db: Db, id: Id, e: Edge, c: nat, o: nat)
    requires c < |db.claims| == |db.carriers| && o < |db.claims|
  {
    && e.from == db.carriers[c] && e.to == db.carriers[o] && e.from != e.to
    && ((e.kind == "contradicts" && C.Disputes(s, db.claims, id, c, o))
      || (e.kind == "supersedes" && Succeeds(db.claims, id, c, o)))
  }

  predicate Derived(s: C.Settings, db: Db, id: Id, e: Edge)
    requires |db.claims| == |db.carriers|
  {
    exists c, o :: 0 <= c < |db.claims| && 0 <= o < |db.claims| && DerivedFrom(s, db, id, e, c, o)
  }

  function Upserted(r: Option<Relation>, derived: bool, id: Id): Option<Relation> {
    if !derived then r
    else if r.Some? then Some(Relation(RelActive, r.value.proposal, None))
    else Some(Relation(RelActive, id, None))
  }

  function Activated(r: Relation, id: Id): Relation {
    if r.proposal == id && r.status == RelProposed then r.(status := RelActive) else r
  }

  function Withdrawn(r: Relation, id: Id): Relation {
    if r.removal == Some(id) && r.status == RelActive then r.(status := RelRemoved) else r
  }

  function RelationAfter(r: Option<Relation>, derived: bool, id: Id): Option<Relation> {
    var u := Upserted(r, derived, id);
    if u.None? then None else Some(Withdrawn(Activated(u.value, id), id))
  }

  /** Some decision the proposal stages replaces this one. */
  predicate DecisionReplaced(decisions: map<string, Decision>, id: Id, slug: string) {
    exists f :: f in decisions && decisions[f].proposal == id && decisions[f].status == DecProposed
      && decisions[f].content.supersedes == Some(slug)
  }

  function DecisionAfter(decisions: map<string, Decision>, id: Id, slug: string): Decision
    requires slug in decisions
  {
    var d := decisions[slug];
    if d.proposal == id && d.status == DecProposed then d.(status := DecActive)
    else if d.status == DecActive && DecisionReplaced(decisions, id, slug) then d.(status := DecSuperseded)
    else d
  }

  // --------------------------------------------------------- whole effects

  ghost predicate Applied(s: C.Settings, before: Db, after: Db, id: Id) {
    && id < |before.proposals| && |before.claims| == |before.carriers|
    && after.sources == before.sources && after.carriers == before.carriers
    && after.proposals == before.proposals[id := before.proposals[id].(status := Approved)]
    && after.outbox == before.outbox + [ProposalApproved(id)]
    && after.concepts.Keys == before.concepts.Keys
    && (forall slug :: slug in before.concepts ==>
          after.concepts[slug] == before.concepts[slug].(current :=
            FlippedCurrent(before.concepts[slug].current, Revs(before.revisions, slug), id)))
    && (forall slug :: Revs(after.revisions, slug)
          == FlippedRevs(CurrentOf(before.concepts, slug), Revs(before.revisions, slug), id))
    && |after.claims| == |before.claims|
    && (forall k :: 0 <= k < |before.claims| ==>
          after.claims[k] == before.claims[k].(status := C.Outcome(s, before.claims, id, k)))
    && (forall e :: Get(after.relations, e) == RelationAfter(Get(before.relations, e), Derived(s, before, id, e), id))
    && after.decisions.Keys == before.decisions.Keys
    && (forall slug :: slug in before.decisions ==> after.decisions[slug] == DecisionAfter(before.decisions, id, slug))
  }

  function Dropped(r: Relation, id: Id): Relation {
    if r.proposal == id && r.status == RelProposed then r.(status := RelRemoved) else r
  }

  /** Rejecting: staged revisions and relations are put out of reach, claims and decisions stay staged. */
  function Rejection(before: Db, id: Id): Db
    requires id < |before.proposals|
  {
    before.(
      revisions := map slug | slug in before.revisions :: RejectedRevs(before.revisions[slug], id),
      relations := map e | e in before.relations :: Dropped(before.relations[e], id),
      proposals := before.proposals[id := before.proposals[id].(status := Turned)],
      outbox := before.outbox + [ProposalRejected(id)])
  }

  /** A stale_base failure, or retirement by a newer version of the source: only the proposal's status changes. */
  function Failure(before: Db, id: Id): Db
    requires id < |before.proposals|
  {
    before.(proposals := before.proposals[id := before.proposals[id].(status := Failed)])
  }

  // ------------------------------------------------------------ invariant

  predicate ApprovedBy(proposals: seq<Proposal>, id: Id) { id < |proposals| && proposals[id].status == Approved }

  predicate GateRevision(proposals: seq<Proposal>, r: Revision) {
    && r.proposal < |proposals|
    && (Published(r) <==> ApprovedBy(proposals, r.proposal))
    && (r.status == Rejected ==> proposals[r.proposal].status == Turned)
  }

  predicate GateClaim(proposals: seq<Proposal>, c: C.Claim) {
    && c.proposal.Some? && c.proposal.value < |proposals| && c.status != C.Draft
    && (c.status == C.Proposed <==> !ApprovedBy(proposals, c.proposal.value))
  }

  /** Kinds of relation approval itself derives keep whatever provenance the row had. */
  predicate Derivable(kind: string) { kind == "contradicts" || kind == "supersedes" }

  predicate GateRelation(proposals: seq<Proposal>, e: Edge, r: Relation) {
    r.proposal < |proposals| && (r.status == RelActive && !Derivable(e.kind) ==> ApprovedBy(proposals, r.proposal))
  }

  predicate GateDecision(proposals: seq<Proposal>, d: Decision) {
    d.proposal < |proposals| && (d.status != DecProposed ==> ApprovedBy(proposals, d.proposal))
  }

  predicate PointsBack(claims: seq<C.Claim>, c: C.Claim) {
    c.supersedes.Some? && c.supersedes.value < |claims| ==> claims[c.supersedes.value].proposal != c.proposal
  }

  /** Nothing unreviewed is visible: what readers see belongs to approved proposals. */
  ghost predicate Gated(db: Db) {
    && (forall slug, k :: 0 <= k < |Revs(db.revisions, slug)| ==>
      GateRevision(db.proposals, Revs(db.revisions, slug)[k]))
    && (forall k :: 0 <= k < |db.claims| ==> GateClaim(db.proposals, db.claims[k]))
    && (forall e :: e in db.relations ==> GateRelation(db.proposals, e, db.relations[e]))
    && (forall slug :: slug in db.decisions ==> GateDecision(db.proposals, db.decisions[slug]))
  }

  ghost predicate Linked(db: Db) {
    && |db.claims| == |db.carriers|
    && (forall k :: 0 <= k < |db.claims| ==> PointsBack(db.claims, db.claims[k]))
    && (forall slug :: OnePerProposal(Revs(db.revisions, slug)))
    && (forall slug :: Revs(db.revisions, slug) != [] ==> slug in db.concepts)
  }

  function LogOf(log: map<string, seq<nat>>, slug: string): seq<nat> { if slug in log then log[slug] else [] }

  /** Every concept's published revisions form one line. */
  ghost predicate Linear(db: Db, log: map<string, seq<nat>>) {
    forall slug :: History(CurrentOf(db.concepts, slug), Revs(db.revisions, slug), LogOf(log, slug))
  }

  ghost predicate Sound(db: Db) { Valid(db) && Gated(db) && Linked(db) }

  lemma SoundAwaitsReview(db: Db, id: Id)
    requires Sound(db) && id < |db.proposals| && db.proposals[id].status == Pending
    ensures C.AwaitsReview(db.claims, id)
  {
    forall c | 0 <= c < |db.claims| && db.claims[c].proposal == Some(id)
      ensures db.claims[c].status == C.Proposed && PointsBack(db.claims, db.claims[c])
    {
      assert GateClaim(db.proposals, db.claims[c]);
    }
  }

  // --------------------------------------------------- stagings keep it all

  lemma StagedRevisionsKeep(before: Db, after: Db, hash: string, input: Input, id: Id, log: map<string, seq<nat>>,
    slug: string)
    requires Sound(before) && Linear(before, log) && UniqueSlugs(input) && id == |before.proposals|
    requires ConceptsStaged(before.concepts, after.concepts, input)
    requires RevisionsStaged(before.concepts, before.revisions, after.revisions, input.concepts, id)
    requires after.proposals == before.proposals + [Proposal(hash, Pending)]
    ensures History(CurrentOf(after.concepts, slug), Revs(after.revisions, slug), LogOf(log, slug))
    ensures OnePerProposal(Revs(after.revisions, slug)) &&
      (Revs(after.revisions, slug) != [] ==> slug in after.concepts)
    ensures forall k :: 0 <= k < |Revs(after.revisions, slug)| ==>
      GateRevision(after.proposals, Revs(after.revisions, slug)[k])
  {
    var was, now := Revs(before.revisions, slug), Revs(after.revisions, slug);
    assert Get(after.concepts, slug) == if slug in before.concepts then Some(before.concepts[slug])
      else if Involved(input, slug) then Some(Concept(None, false)) else None;
    assert CurrentOf(after.concepts, slug) == CurrentOf(before.concepts, slug);
    assert History(CurrentOf(before.concepts, slug), was, LogOf(log, slug));
    forall k | 0 <= k < |was| ensures GateRevision(after.proposals, was[k]) {
      assert GateRevision(before.proposals, Revs(before.revisions, slug)[k]);
    }
    assert OnePerProposal(was);
    if i :| 0 <= i < |input.concepts| && input.concepts[i].slug == slug {
      var staged := StagedRevision(before.concepts, was, input.concepts[i], id);
      assert now == was + [staged];
      assert Locks.Counting(Numbers(was));
      Locks.MaxOfCounting(Numbers(was));
      StagingExtends(CurrentOf(before.concepts, slug), was, LogOf(log, slug), staged);
      assert Involved(input, slug);
    } else {
      assert now == was;
    }
  }

  lemma {:induction false} StagedClaimsPointBack(db: Db, norm: Canonical, concepts: seq<ConceptIn>, id: Id, k: nat)
    requires k < |AllClaims(norm, concepts, id)|
    requires forall i, j :: 0 <= i < |concepts| && 0 <= j < |concepts[i].claims| ==>
      concepts[i].claims[j].supersedes.Some? ==> Visible(db, concepts[i].claims[j].supersedes.value)
    ensures AllClaims(norm, concepts, id)[k].supersedes.Some?
      ==> Visible(db, AllClaims(norm, concepts, id)[k].supersedes.value)
    decreases |concepts|
  {
    var init, last := concepts[..|concepts| - 1], concepts[|concepts| - 1];
    var head := AllClaims(norm, init, id);
    if k < |head| {
      StagedClaimsPointBack(db, norm, init, id, k);
    } else {
      assert concepts[|concepts| - 1].claims[k - |head|] == last.claims[k - |head|];
    }
  }

  lemma StagedClaimsKeep(norm: Canonical, before: Db, after: Db, hash: string, input: Input, id: Id)
    requires Sound(before) && SupersedesVisible(before, input) && id == |before.proposals|
    requires after.claims == before.claims + AllClaims(norm, input.concepts, id)
    requires after.proposals == before.proposals + [Proposal(hash, Pending)]
    ensures forall k :: 0 <= k < |after.claims| ==>
      GateClaim(after.proposals, after.claims[k]) && PointsBack(after.claims, after.claims[k])
  {
    AllClaimsProposed(norm, input.concepts, id);
    forall k | 0 <= k < |after.claims| ensures GateClaim(after.proposals, after.claims[k]) &&
      PointsBack(after.claims, after.claims[k]) {
      if k < |before.claims| {
        assert GateClaim(before.proposals, before.claims[k]) && PointsBack(before.claims, before.claims[k]);
        if after.claims[k].supersedes.Some? && |before.claims| <= after.claims[k].supersedes.value < |after.claims| {
          assert after.claims[after.claims[k].supersedes.value].proposal == Some(id);
        }
      } else {
        StagedClaimsPointBack(before, norm, input.concepts, id, k - |before.claims|);
        if after.claims[k].supersedes.Some? {
          assert GateClaim(before.proposals, before.claims[after.claims[k].supersedes.value]);
        }
      }
    }
  }

  lemma StagedRowsKeep(norm: Canonical, before: Db, after: Db, hash: string, input: Input, id: Id)
    requires Sound(before) && Staged(norm, before, after, hash, input, id)
    ensures forall e :: e in after.relations ==> GateRelation(after.proposals, e, after.relations[e])
    ensures forall slug :: slug in after.decisions ==> GateDecision(after.proposals, after.decisions[slug])
  {
    forall e | e in after.relations ensures GateRelation(after.proposals, e, after.relations[e]) {
      assert Get(after.relations, e) == Some(after.relations[e]);
      if e in before.relations { assert GateRelation(before.proposals, e, before.relations[e]); }
    }
    forall slug | slug in after.decisions ensures GateDecision(after.proposals, after.decisions[slug]) {
      assert Get(after.decisions, slug) == Some(after.decisions[slug]);
      if slug in before.decisions { assert GateDecision(before.proposals, before.decisions[slug]); }
      if i :| 0 <= i < |input.decisions| && input.decisions[i].slug == slug {
        assert Get(after.decisions, slug) == Some(StagedDecision(Get(before.decisions, slug), input.decisions[i], id));
      }
    }
  }

  lemma StagingKeepsSound(norm: Canonical, before: Db, after: Db, hash: string, input: Input, id: Id,
    log: map<string, seq<nat>>)
    requires Sound(before) && Linear(before, log) && WellFormed(input) && SupersedesVisible(before, input)
    requires Staged(norm, before, after, hash, input, id) && !HasPending(before, hash)
    ensures Sound(after) && Linear(after, log)
  {
    StagingKeepsValid(norm, before, after, hash, input, id);
    forall slug
      ensures History(CurrentOf(after.concepts, slug), Revs(after.revisions, slug), LogOf(log, slug))
      ensures OnePerProposal(Revs(after.revisions, slug)) &&
        (Revs(after.revisions, slug) != [] ==> slug in after.concepts)
      ensures forall k :: 0 <= k < |Revs(after.revisions, slug)| ==>
        GateRevision(after.proposals, Revs(after.revisions, slug)[k])
    {
      StagedRevisionsKeep(before, after, hash, input, id, log, slug);
    }
    StagedClaimsKeep(norm, before, after, hash, input, id);
    StagedRowsKeep(norm, before, after, hash, input, id);
    AllClaimsProposed(norm, input.concepts, id);
  }

  // -------------------------------------------------- reviews keep it all

  /** The published log after an approval. */
  ghost predicate Logged(db: Db, id: Id, log: map<string, seq<nat>>, after: map<string, seq<nat>>) {
    forall slug :: LogOf(after, slug) == LogAfter(Revs(db.revisions, slug), LogOf(log, slug), id)
  }

  lemma FlipOne(before: Db, id: Id, log: map<string, seq<nat>>, slug: string)
    requires Sound(before) && Linear(before, log) && id < |before.proposals| && before.proposals[id].status == Pending
    requires !Stale(before, id)
    ensures
      var current, revs := CurrentOf(before.concepts, slug), Revs(before.revisions, slug);
      && History(FlippedCurrent(current, revs, id), FlippedRevs(current, revs, id),
        LogAfter(revs, LogOf(log, slug), id))
      && (forall k :: 0 <= k < |revs| ==> GateRevision(before.proposals[id :=
        before.proposals[id].(status := Approved)], FlippedRevs(current, revs, id)[k]))
  {
    var current, revs := CurrentOf(before.concepts, slug), Revs(before.revisions, slug);
    var proposals := before.proposals[id := before.proposals[id].(status := Approved)];
    var flipped := FlippedRevs(current, revs, id);
    assert History(current, revs, LogOf(log, slug)) && OnePerProposal(revs);
    assert !StaleAt(current, revs, id);
    forall k | 0 <= k < |revs| ensures GateRevision(proposals, flipped[k]) &&
      (revs[k].proposal == id ==> IsFresh(revs[k], id)) {
      assert GateRevision(before.proposals, Revs(before.revisions, slug)[k]);
      assert Fits(current, revs, LogOf(log, slug), k);
    }
    if k :| 0 <= k < |revs| && IsFresh(revs[k], id) {
      ApprovalExtends(current, revs, LogOf(log, slug), id, k);
      assert forall j :: 0 <= j < |revs| && IsFresh(revs[j], id) ==> j == k;
    } else {
      ApprovalSkips(current, revs, id);
    }
  }

  lemma ApprovedClaimsKeep(s: C.Settings, before: Db, after: Db, id: Id)
    requires Sound(before) && Applied(s, before, after, id) && before.proposals[id].status == Pending
    ensures forall k :: 0 <= k < |after.claims| ==>
      GateClaim(after.proposals, after.claims[k]) && PointsBack(after.claims, after.claims[k])
  {
    SoundAwaitsReview(before, id);
    forall k | 0 <= k < |after.claims| ensures GateClaim(after.proposals, after.claims[k]) &&
      PointsBack(after.claims, after.claims[k]) {
      assert GateClaim(before.proposals, before.claims[k]) && PointsBack(before.claims, before.claims[k]);
    }
  }

  lemma ApprovedRowsKeep(s: C.Settings, before: Db, after: Db, id: Id)
    requires Sound(before) && Applied(s, before, after, id) && before.proposals[id].status == Pending
    ensures forall e :: e in after.relations ==> GateRelation(after.proposals, e, after.relations[e])
    ensures forall slug :: slug in after.decisions ==> GateDecision(after.proposals, after.decisions[slug])
    ensures MarkersExist(after)
  {
    forall e | e in after.relations
      ensures GateRelation(after.proposals, e, after.relations[e])
      ensures after.relations[e].removal.Some? ==> after.relations[e].removal.value < |after.proposals|
    {
      assert Get(after.relations, e) == Some(after.relations[e]);
      if e in before.relations { assert GateRelation(before.proposals, e, before.relations[e]); }
    }
    forall slug | slug in after.decisions ensures GateDecision(after.proposals, after.decisions[slug]) {
      assert GateDecision(before.proposals, before.decisions[slug]);
    }
  }

  lemma SlugFlips(s: C.Settings, before: Db, after: Db, id: Id, slug: string)
    requires Linked(before) && Applied(s, before, after, id)
    ensures Revs(after.revisions, slug) == FlippedRevs(CurrentOf(before.concepts, slug), Revs(before.revisions, slug),
      id)
    ensures CurrentOf(after.concepts, slug) == FlippedCurrent(CurrentOf(before.concepts, slug),
      Revs(before.revisions, slug), id)
    ensures slug in before.concepts <==> slug in after.concepts
  {
    assert Revs(before.revisions, slug) != [] ==> slug in before.concepts;
    assert slug in after.concepts.Keys <==> slug in before.concepts.Keys;
  }

  lemma ApprovedSlugKeeps(before: Db, revisions: seq<Revision>, current: Option<nat>, id: Id,
    log: map<string, seq<nat>>, slug: string)
    requires Sound(before) && Linear(before, log) && id < |before.proposals| && before.proposals[id].status == Pending
      && !Stale(before, id)
    requires revisions == FlippedRevs(CurrentOf(before.concepts, slug), Revs(before.revisions, slug), id)
    requires current == FlippedCurrent(CurrentOf(before.concepts, slug), Revs(before.revisions, slug), id)
    ensures History(current, revisions, LogAfter(Revs(before.revisions, slug), LogOf(log, slug), id))
    ensures OnePerProposal(revisions) && (revisions != [] ==> slug in before.concepts) &&
      Locks.Counting(Numbers(revisions))
    ensures forall k :: 0 <= k < |revisions| ==>
      GateRevision(before.proposals[id := before.proposals[id].(status := Approved)], revisions[k])
  {
    FlipOne(before, id, log, slug);
    SlugShape(before, slug);
    FlipKeepsShape(CurrentOf(before.concepts, slug), Revs(before.revisions, slug), id);
  }

  lemma SlugShape(db: Db, slug: string)
    requires Sound(db)
    ensures OnePerProposal(Revs(db.revisions, slug)) && Locks.Counting(Numbers(Revs(db.revisions, slug)))
    ensures Revs(db.revisions, slug) != [] ==> slug in db.concepts
  {
  }

  lemma FlipKeepsShape(current: Option<nat>, revs: seq<Revision>, id: Id)
    requires OnePerProposal(revs)
    ensures OnePerProposal(FlippedRevs(current, revs, id)) && Numbers(FlippedRevs(current, revs, id)) == Numbers(revs)
  {
  }

  lemma ApprovalKeepsSound(s: C.Settings, before: Db, after: Db, id: Id, log: map<string, seq<nat>>,
    longer: map<string, seq<nat>>)
    requires Sound(before) && Linear(before, log) && Applied(s, before, after, id)
    requires before.proposals[id].status == Pending && !Stale(before, id) && Logged(before, id, log, longer)
    ensures Sound(after) && Linear(after, longer)
  {
    forall slug
      ensures History(CurrentOf(after.concepts, slug), Revs(after.revisions, slug), LogOf(longer, slug))
      ensures OnePerProposal(Revs(after.revisions, slug)) &&
        (Revs(after.revisions, slug) != [] ==> slug in after.concepts)
      ensures forall k :: 0 <= k < |Revs(after.revisions, slug)| ==>
        GateRevision(after.proposals, Revs(after.revisions, slug)[k])
    {
      SlugFlips(s, before, after, id, slug);
      ApprovedSlugKeeps(before, Revs(after.revisions, slug), CurrentOf(after.concepts, slug), id, log, slug);
    }
    forall slug | slug in after.revisions ensures Locks.Counting(Numbers(after.revisions[slug])) {
      SlugFlips(s, before, after, id, slug);
      ApprovedSlugKeeps(before, Revs(after.revisions, slug), CurrentOf(after.concepts, slug), id, log, slug);
      assert Revs(after.revisions, slug) == after.revisions[slug];
    }
    ApprovedClaimsKeep(s, before, after, id);
    ApprovedRowsKeep(s, before, after, id);
  }

  lemma RejectionKeepsSound(before: Db, id: Id, log: map<string, seq<nat>>)
    requires Sound(before) && Linear(before, log) && id < |before.proposals| && before.proposals[id].status == Pending
    ensures Sound(Rejection(before, id)) && Linear(Rejection(before, id), log)
  {
    var after := Rejection(before, id);
    forall slug
      ensures History(CurrentOf(after.concepts, slug), Revs(after.revisions, slug), LogOf(log, slug))
      ensures OnePerProposal(Revs(after.revisions, slug)) &&
        (Revs(after.revisions, slug) != [] ==> slug in after.concepts)
      ensures Locks.Counting(Numbers(Revs(after.revisions, slug)))
      ensures forall k :: 0 <= k < |Revs(after.revisions, slug)| ==>
        GateRevision(after.proposals, Revs(after.revisions, slug)[k])
    {
      var was := Revs(before.revisions, slug);
      assert Revs(after.revisions, slug) == RejectedRevs(was, id);
      assert OnePerProposal(was) && History(CurrentOf(before.concepts, slug), was, LogOf(log, slug));
      RejectionKeeps(CurrentOf(before.concepts, slug), was, LogOf(log, slug), id);
      assert Locks.Counting(Numbers(was));
      assert Numbers(RejectedRevs(was, id)) == Numbers(was);
      forall k | 0 <= k < |was| ensures GateRevision(after.proposals, RejectedRevs(was, id)[k]) {
        assert GateRevision(before.proposals, Revs(before.revisions, slug)[k]);
      }
    }
    forall slug | slug in after.revisions ensures Locks.Counting(Numbers(after.revisions[slug])) {
      assert Revs(after.revisions, slug) == after.revisions[slug];
    }
    forall k | 0 <= k < |after.claims| ensures GateClaim(after.proposals, after.claims[k]) {
      assert GateClaim(before.proposals, before.claims[k]);
    }
    forall e | e in after.relations ensures GateRelation(after.proposals, e, after.relations[e]) {
      assert GateRelation(before.proposals, e, before.relations[e]);
    }
    forall slug | slug in after.decisions ensures GateDecision(after.proposals, after.decisions[slug]) {
      assert GateDecision(before.proposals, before.decisions[slug]);
    }
  }

  lemma FailureKeepsSound(before: Db, id: Id, log: map<string, seq<nat>>)
    requires Sound(before) && Linear(before, log) && id < |before.proposals| && before.proposals[id].status == Pending
    ensures Sound(Failure(before, id)) && Linear(Failure(before, id), log)
  {
    var after := Failure(before, id);
    forall slug, k | 0 <= k < |Revs(after.revisions, slug)|
      ensures GateRevision(after.proposals, Revs(after.revisions, slug)[k]) {
      assert GateRevision(before.proposals, Revs(before.revisions, slug)[k]);
    }
    forall k | 0 <= k < |after.claims| ensures GateClaim(after.proposals, after.claims[k]) {
      assert GateClaim(before.proposals, before.claims[k]);
    }
    forall e | e in after.relations ensures GateRelation(after.proposals, e, after.relations[e]) {
      assert GateRelation(before.proposals, e, before.relations[e]);
    }
    forall slug | slug in after.decisions ensures GateDecision(after.proposals, after.decisions[slug]) {
      assert GateDecision(before.proposals, before.decisions[slug]);
    }
  }

  // ------------------------------------------------------------------ runs

  datatype Step = Stage(hash: string, input: Input) | Approve(id: Id) | Reject(id: Id) | Fail(id: Id)
  datatype World = World(db: Db, log: map<string, seq<nat>>)

  predicate Reviewable(db: Db, id: Id) { id < |db.proposals| && db.proposals[id].status == Pending }

  ghost predicate Next(norm: Canonical, w: World, v: World, step: Step) {
    match step
    case Stage(hash, input) =>
      && WellFormed(input) && Refusal(w.db, input).None? && !HasPending(w.db, hash)
      && Staged(norm, w.db, v.db, hash, input, |w.db.proposals|) && v.log == w.log
    case Approve(id) =>
      && Reviewable(w.db, id) && !Stale(w.db, id) && Logged(w.db, id, w.log, v.log)
      && exists s :: Applied(s, w.db, v.db, id)
    case Reject(id) => Reviewable(w.db, id) && v == World(Rejection(w.db, id), w.log)
    case Fail(id) => Reviewable(w.db, id) && v == World(Failure(w.db, id), w.log)
  }

  ghost predicate Initial(w: World) {
    w == World(Db(w.db.sources, map[], map[], [], [], map[], map[], [], []), map[])
  }

  ghost predicate Run(norm: Canonical, worlds: seq<World>, steps: seq<Step>) {
    && |worlds| == |steps| + 1 && Initial(worlds[0])
    && forall i :: 0 <= i < |steps| ==> Next(norm, worlds[i], worlds[i + 1], steps[i])
  }

  lemma StepKeepsSound(norm: Canonical, w: World, v: World, step: Step)
    requires Sound(w.db) && Linear(w.db, w.log) && Next(norm, w, v, step)
    ensures Sound(v.db) && Linear(v.db, v.log)
  {
    match step
    case Stage(hash, input) => StagingKeepsSound(norm, w.db, v.db, hash, input, |w.db.proposals|, w.log);
    case Approve(id) =>
      var s :| Applied(s, w.db, v.db, id);
      ApprovalKeepsSound(s, w.db, v.db, id, w.log, v.log);
    case Reject(id) => RejectionKeepsSound(w.db, id, w.log);
    case Fail(id) => FailureKeepsSound(w.db, id, w.log);
  }

  /**
   * Over every run of stagings and reviews: one pending proposal per hash, revisions
   * numbered 1..n, published revisions of a concept in one line each written against
   * the one before it, and nothing visible that was not approved.
   */
  lemma {:induction false} EveryRunIsSound(norm: Canonical, worlds: seq<World>, steps: seq<Step>, i: nat)
    requires Run(norm, worlds, steps) && i < |worlds|
    ensures Sound(worlds[i].db) && Linear(worlds[i].db, worlds[i].log)
  {
    if i == 0 {
    } else {
      EveryRunIsSound(norm, worlds, steps, i - 1);
      StepKeepsSound(norm, worlds[i - 1], worlds[i], steps[i - 1]);
    }
  }

  /** In every reachable state a concept has at most one current revision, the one it points at, and it was approved. */
  lemma ReadersSeeReviewed(norm: Canonical, worlds: seq<World>, steps: seq<Step>, i: nat, slug: string, k: nat)
    requires Run(norm, worlds, steps) && i < |worlds|
    requires k < |Revs(worlds[i].db.revisions, slug)| && Revs(worlds[i].db.revisions, slug)[k].status == Current
    ensures CurrentOf(worlds[i].db.concepts, slug) == Some(k + 1) && Revs(worlds[i].db.revisions, slug)[k].rev == k + 1
    ensures ApprovedBy(worlds[i].db.proposals, Revs(worlds[i].db.revisions, slug)[k].proposal)
    ensures forall j :: 0 <= j < |Revs(worlds[i].db.revisions, slug)| && j != k ==>
      Revs(worlds[i].db.revisions, slug)[j].status != Current
  {
    EveryRunIsSound(norm, worlds, steps, i);
    var db, log := worlds[i].db, worlds[i].log;
    var revs := Revs(db.revisions, slug);
    assert History(CurrentOf(db.concepts, slug), revs, LogOf(log, slug));
    assert Fits(CurrentOf(db.concepts, slug), revs, LogOf(log, slug), k);
    assert GateRevision(db.proposals, Revs(db.revisions, slug)[k]);
    forall j | 0 <= j < |revs| && j != k ensures revs[j].status != Current {
      assert Fits(CurrentOf(db.concepts, slug), revs, LogOf(log, slug), j);
    }
  }

  lemma SoundAt(db: Db, log: map<string, seq<nat>>, id: Id, slug: string)
    requires Linked(db) && Linear(db, log) && !Stale(db, id)
    ensures History(CurrentOf(db.concepts, slug), Revs(db.revisions, slug), LogOf(log, slug))
    ensures OnePerProposal(Revs(db.revisions, slug))
      && !StaleAt(CurrentOf(db.concepts, slug), Revs(db.revisions, slug), id)
  {
  }

  /** No lost update: an approved revision replaces exactly the revision it was written against. */
  lemma NoLostUpdate(norm: Canonical, worlds: seq<World>, steps: seq<Step>, i: nat, slug: string, k: nat)
    requires Run(norm, worlds, steps) && i < |steps| && steps[i].Approve?
    requires k < |Revs(worlds[i].db.revisions, slug)| && IsFresh(Revs(worlds[i].db.revisions, slug)[k], steps[i].id)
    ensures CurrentOf(worlds[i].db.concepts, slug) == Revs(worlds[i].db.revisions, slug)[k].base
    ensures CurrentOf(worlds[i + 1].db.concepts, slug) == Some(k + 1)
    ensures LogOf(worlds[i + 1].log, slug) == LogOf(worlds[i].log, slug) + [k + 1]
  {
    EveryRunIsSound(norm, worlds, steps, i);
    assert Next(norm, worlds[i], worlds[i + 1], steps[i]);
    var s :| Applied(s, worlds[i].db, worlds[i + 1].db, steps[i].id);
    SoundAt(worlds[i].db, worlds[i].log, steps[i].id, slug);
    ApprovalExtends(CurrentOf(worlds[i].db.concepts, slug), Revs(worlds[i].db.revisions, slug),
      LogOf(worlds[i].log, slug), steps[i].id, k);
    SlugFlips(s, worlds[i].db, worlds[i + 1].db, steps[i].id, slug);
    assert Logged(worlds[i].db, steps[i].id, worlds[i].log, worlds[i + 1].log);
  }

  predicate SameButStatus(a: seq<Revision>, b: seq<Revision>, k: nat) {
    k < |a| && k < |b| && b[k] == a[k].(status := b[k].status)
  }

  lemma StagingAppends(before: Db, after: Db, input: Input, id: Id, slug: string, k: nat)
    requires RevisionsStaged(before.concepts, before.revisions, after.revisions, input.concepts, id)
      && k < |Revs(before.revisions, slug)|
    ensures SameButStatus(Revs(before.revisions, slug), Revs(after.revisions, slug), k)
  {
    if i :| 0 <= i < |input.concepts| && input.concepts[i].slug == slug {
    }
  }

  lemma FlipsKeepContent(s: C.Settings, before: Db, after: Db, id: Id, slug: string, k: nat)
    requires Linked(before) && Applied(s, before, after, id) && k < |Revs(before.revisions, slug)|
    ensures SameButStatus(Revs(before.revisions, slug), Revs(after.revisions, slug), k)
  {
    SlugFlips(s, before, after, id, slug);
  }

  /** A revision, once written, keeps its number, text, base and proposal. */
  lemma RevisionsAreImmutable(norm: Canonical, w: World, v: World, step: Step, slug: string, k: nat)
    requires Linked(w.db) && Next(norm, w, v, step) && k < |Revs(w.db.revisions, slug)|
    ensures SameButStatus(Revs(w.db.revisions, slug), Revs(v.db.revisions, slug), k)
  {
    match step
    case Stage(hash, input) => StagingAppends(w.db, v.db, input, |w.db.proposals|, slug, k);
    case Approve(id) =>
      var s :| Applied(s, w.db, v.db, id);
      FlipsKeepContent(s, w.db, v.db, id, slug, k);
    case Reject(id) => assert Revs(v.db.revisions, slug) == RejectedRevs(Revs(w.db.revisions, slug), id);
    case Fail(id) =>
  }

  // ------------------------------------------------ what approval activates

  /** Approval leaves a relation active exactly when it re-derived it, or holds it without a marker of its own. */
  lemma ApprovalActivates(s: C.Settings, before: Db, after: Db, id: Id, e: Edge)
    requires Applied(s, before, after, id)
    ensures Active(after, e) <==>
      || Derived(s, before, id, e)
      || (e in before.relations && before.relations[e].removal != Some(id)
          && (before.relations[e].status == RelActive
            || before.relations[e] == Relation(RelProposed, id, before.relations[e].removal)))
  {
    assert Get(after.relations, e) == RelationAfter(Get(before.relations, e), Derived(s, before, id, e), id);
  }

  /**
   * A relation two pending proposals assert belongs to the later one: approving the earlier one does not
   * activate it.
   */
  lemma LaterStagingTakesOver(norm: Canonical, s: C.Settings, db: Db, after: Db, hash: string, input: Input, e: Edge,
    approved: Db, first: Id)
    requires Staged(norm, db, after, hash, input, |db.proposals|) && e in AddedEdges(input.concepts)
    requires e in db.relations && db.relations[e] == Relation(RelProposed, first, None) && first < |db.proposals|
    requires Applied(s, after, approved, first) && !Derivable(e.kind)
    ensures !Active(approved, e)
  {
    assert Get(after.relations, e) == Some(StagedRelation(Get(db.relations, e), |db.proposals|));
    ApprovalActivates(s, after, approved, first, e);
  }

  /** A derived relation keeps the provenance of the row it revives, which may be a rejected proposal's. */
  lemma RevivedKeepsProvenance(s: C.Settings, before: Db, after: Db, id: Id, e: Edge)
    requires Applied(s, before, after, id)
    ensures Derived(s, before, id, e) && e in before.relations ==>
      Active(after, e) && after.relations[e].removal.None?
      && after.relations[e].proposal == before.relations[e].proposal
  {
    assert Get(after.relations, e) == RelationAfter(Get(before.relations, e), Derived(s, before, id, e), id);
  }
}
