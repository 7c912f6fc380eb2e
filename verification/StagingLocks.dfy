/** Concurrent stagings over one space (src/domain/proposals.ts). */
module StagingLocks {
  // Each staging claims its hash in the pending index, locks its concepts in one sorted
  // pass, numbers one revision per staged concept with MAX(rev) + 1, upserts its decisions
  // in the order of its input, and commits or rolls back. Any number of them interleave.

  import opened Wrappers
  import opened Text

  /** What a staging locks until it ends: its place in the pending index, a concept row, a decision row. */
  datatype Row = Hash(hash: string) | Concept(slug: string) | Decision(slug: string)

  /** concepts: the slugs of the lock pass; decisions: as the caller listed them. */
  datatype Plan = Plan(hash: string, concepts: seq<string>, decisions: seq<string>)

  function ConceptRows(slugs: seq<string>): (r: seq<Row>)
    ensures |r| == |slugs|
  {
    seq(|slugs|, i requires 0 <= i < |slugs| => Concept(slugs[i]))
  }

  function DecisionRows(slugs: seq<string>): (r: seq<Row>)
    ensures |r| == |slugs|
  {
    seq(|slugs|, i requires 0 <= i < |slugs| => Decision(slugs[i]))
  }

  /** The rows a staging locks, in order. */
  function Locks(p: Plan): seq<Row> { [Hash(p.hash)] + ConceptRows(p.concepts) + DecisionRows(p.decisions) }

  /** The pass is sorted; decision slugs are unique within a proposal. */
  predicate Lawful(p: Plan) { Ascending(p.concepts) && NoRepeats(p.decisions) }

  /** The first `taken` rows of the plan are locked; revs: revisions inserted, uncommitted. */
  datatype Tx = Tx(plan: Plan, taken: nat, revs: map<string, nat>)

  /** Committed revision numbers per concept, and the transactions under way. */
  datatype Sys = Sys(committed: map<string, seq<nat>>, txs: map<nat, Tx>)

  datatype Step =
    | Begin(t: nat, plan: Plan)
    | Lock(t: nat)
    | Stage(t: nat, slug: string)
    | Commit(t: nat)
    | Rollback(t: nat)

  predicate Holds(tx: Tx, row: Row) {
    tx.taken <= |Locks(tx.plan)| && row in Locks(tx.plan)[..tx.taken]
  }

  predicate Locking(s: Sys, t: nat) {
    t in s.txs && s.txs[t].taken < |Locks(s.txs[t].plan)|
  }

  /** The next row t locks. */
  function Wanted(s: Sys, t: nat): Row
    requires Locking(s, t)
  {
    Locks(s.txs[t].plan)[s.txs[t].taken]
  }

  /** t is blocked behind u: it wants a row u has locked. */
  predicate WaitsFor(s: Sys, t: nat, u: nat) {
    Locking(s, t) && u in s.txs && t != u && Holds(s.txs[u], Wanted(s, t))
  }

  function Max(revs: seq<nat>): nat {
    if revs == [] then 0
    else
      var m := Max(revs[..|revs| - 1]);
      if revs[|revs| - 1] > m then revs[|revs| - 1] else m
  }

  function Revs(s: Sys, slug: string): seq<nat> {
    if slug in s.committed then s.committed[slug] else []
  }

  /** The lock pass over the concepts is over. */
  predicate PassDone(tx: Tx) { |tx.plan.concepts| < tx.taken <= |Locks(tx.plan)| }

  predicate Enabled(s: Sys, step: Step) {
    match step
    case Begin(t, plan) => t !in s.txs && Lawful(plan)
    case Lock(t) => Locking(s, t) && forall u :: u in s.txs ==> !WaitsFor(s, t, u)
    case Stage(t, slug) => t in s.txs && PassDone(s.txs[t]) && slug in s.txs[t].plan.concepts && slug !in s.txs[t].revs
    case Commit(t) => t in s.txs && s.txs[t].taken == |Locks(s.txs[t].plan)|
    case Rollback(t) => t in s.txs
  }

  function Without(txs: map<nat, Tx>, t: nat): map<nat, Tx> {
    map u | u in txs && u != t :: txs[u]
  }

  function Apply(s: Sys, step: Step): Sys
    requires Enabled(s, step)
  {
    match step
    case Begin(t, plan) => s.(txs := s.txs[t := Tx(plan, 0, map[])])
    case Lock(t) => s.(txs := s.txs[t := s.txs[t].(taken := s.txs[t].taken + 1)])
    case Stage(t, slug) =>
      s.(txs := s.txs[t := s.txs[t].(revs := s.txs[t].revs[slug := Max(Revs(s, slug)) + 1])])
    case Commit(t) =>
      var revs := s.txs[t].revs;
      Sys(map slug | slug in s.committed.Keys + revs.Keys ::
            Revs(s, slug) + (if slug in revs then [revs[slug]] else []),
          Without(s.txs, t))
    case Rollback(t) => s.(txs := Without(s.txs, t))
  }

  predicate Run(s: Sys, steps: seq<Step>, end: Sys)
    decreases |steps|
  {
    if steps == [] then s == end else Enabled(s, steps[0]) && Run(Apply(s, steps[0]), steps[1..], end)
  }

  const EMPTY := Sys(map[], map[])

  // ------------------------------------------------------------- invariant

  /** 1, 2, .., n without gaps or repeats. */
  predicate Counting(revs: seq<nat>) {
    forall i :: 0 <= i < |revs| ==> revs[i] == i + 1
  }

  ghost predicate Planned(s: Sys) {
    forall t :: t in s.txs ==> Lawful(s.txs[t].plan) && s.txs[t].taken <= |Locks(s.txs[t].plan)|
  }

  ghost predicate Exclusive(s: Sys) {
    forall t, u, row :: t in s.txs && u in s.txs && t != u && Holds(s.txs[t], row) ==> !Holds(s.txs[u], row)
  }

  ghost predicate Numbered(s: Sys) {
    && (forall slug :: slug in s.committed ==> Counting(s.committed[slug]))
    && (forall t, slug :: t in s.txs && slug in s.txs[t].revs ==> NextInLine(s, t, slug))
  }

  /** t holds the concept and its revision there is the one after the committed ones. */
  predicate NextInLine(s: Sys, t: nat, slug: string) {
    && t in s.txs && slug in s.txs[t].revs
    && Holds(s.txs[t], Concept(slug)) && s.txs[t].revs[slug] == |Revs(s, slug)| + 1
  }

  ghost predicate Inv(s: Sys) { Planned(s) && Exclusive(s) && Numbered(s) }

  lemma {:induction false} MaxOfCounting(revs: seq<nat>)
    requires Counting(revs)
    ensures Max(revs) == |revs|
    decreases |revs|
  {
    if revs != [] { MaxOfCounting(revs[..|revs| - 1]); }
  }

  lemma LocksAt(p: Plan, k: nat)
    requires k < |Locks(p)|
    ensures Locks(p)[k] == if k == 0 then Hash(p.hash)
                           else if k <= |p.concepts| then Concept(p.concepts[k - 1])
                             else Decision(p.decisions[k - 1 - |p.concepts|])
  {
  }

  /** A plan never locks a row twice. */
  lemma LocksAreDistinct(p: Plan)
    requires Lawful(p)
    ensures NoRepeats(Locks(p))
  {
    forall i, j | 0 <= i < j < |Locks(p)| ensures Locks(p)[i] != Locks(p)[j] {
      LocksAt(p, i);
      LocksAt(p, j);
      if 0 < i && j <= |p.concepts| { BeforeIsTotal(p.concepts[i - 1], p.concepts[j - 1]); }
    }
  }

  lemma StepKeepsPlanned(s: Sys, step: Step)
    requires Planned(s) && Enabled(s, step)
    ensures Planned(Apply(s, step))
  {
  }

  lemma TakesWanted(s: Sys, t: nat, row: Row)
    requires Locking(s, t)
    ensures Holds(s.txs[t].(taken := s.txs[t].taken + 1), row) <==> Holds(s.txs[t], row) || row == Wanted(s, t)
  {
    var rows, n := Locks(s.txs[t].plan), s.txs[t].taken;
    assert rows[..n + 1] == rows[..n] + [rows[n]];
  }

  lemma LockKeepsExclusive(s: Sys, t: nat)
    requires Planned(s) && Exclusive(s) && Enabled(s, Lock(t))
    ensures Exclusive(Apply(s, Lock(t)))
  {
    var r := Apply(s, Lock(t));
    forall u, v, x | u in r.txs && v in r.txs && u != v && Holds(r.txs[u], x) ensures !Holds(r.txs[v], x) {
      TakesWanted(s, t, x);
      assert u != t ==> r.txs[u] == s.txs[u];
      assert v != t ==> r.txs[v] == s.txs[v];
      assert !WaitsFor(s, t, u) && !WaitsFor(s, t, v);
    }
  }

  lemma StepKeepsExclusive(s: Sys, step: Step)
    requires Planned(s) && Exclusive(s) && Enabled(s, step)
    ensures Exclusive(Apply(s, step))
  {
    match step
    case Lock(t) => LockKeepsExclusive(s, t);
    case Stage(t, slug) =>
      var r := Apply(s, step);
      assert forall u, x :: u in s.txs ==> (Holds(r.txs[u], x) <==> Holds(s.txs[u], x));
    case _ =>
  }

  lemma CommitKeepsNumbered(s: Sys, t: nat)
    requires Inv(s) && Enabled(s, Commit(t))
    ensures Numbered(Apply(s, Commit(t)))
  {
    var r := Apply(s, Commit(t));
    forall slug | slug in r.committed ensures Counting(r.committed[slug]) {
      assert Counting(Revs(s, slug));
      assert slug in s.txs[t].revs ==> NextInLine(s, t, slug);
    }
    forall u, slug | u in r.txs && slug in r.txs[u].revs
      ensures NextInLine(r, u, slug)
    {
      assert NextInLine(s, u, slug) && !Holds(s.txs[t], Concept(slug));
      assert slug in s.txs[t].revs ==> NextInLine(s, t, slug);
      assert Revs(r, slug) == Revs(s, slug);
    }
  }

  /** After the pass every concept of the plan is locked. */
  lemma PassHolds(tx: Tx, slug: string)
    requires PassDone(tx) && slug in tx.plan.concepts
    ensures Holds(tx, Concept(slug))
  {
    var i :| 0 <= i < |tx.plan.concepts| && tx.plan.concepts[i] == slug;
    LocksAt(tx.plan, i + 1);
    assert Locks(tx.plan)[..tx.taken][i + 1] == Concept(slug);
  }

  lemma StageKeepsNumbered(s: Sys, t: nat, slug: string)
    requires Inv(s) && Enabled(s, Stage(t, slug))
    ensures Numbered(Apply(s, Stage(t, slug)))
  {
    assert Counting(Revs(s, slug));
    MaxOfCounting(Revs(s, slug));
    PassHolds(s.txs[t], slug);
    var r := Apply(s, Stage(t, slug));
    forall u, x | u in r.txs && x in r.txs[u].revs
      ensures NextInLine(r, u, x)
    {
      assert Revs(r, x) == Revs(s, x);
      assert (u == t && x == slug) || NextInLine(s, u, x);
    }
  }

  lemma LockKeepsNumbered(s: Sys, t: nat)
    requires Inv(s) && Enabled(s, Lock(t))
    ensures Numbered(Apply(s, Lock(t)))
  {
    var r := Apply(s, Lock(t));
    forall u, x | u in r.txs && x in r.txs[u].revs
      ensures NextInLine(r, u, x)
    {
      TakesWanted(s, t, Concept(x));
      assert NextInLine(s, u, x) && Revs(r, x) == Revs(s, x);
    }
  }

  lemma StepKeepsNumbered(s: Sys, step: Step)
    requires Inv(s) && Enabled(s, step)
    ensures Numbered(Apply(s, step))
  {
    match step
    case Commit(t) => CommitKeepsNumbered(s, t);
    case Stage(t, slug) => StageKeepsNumbered(s, t, slug);
    case Lock(t) => LockKeepsNumbered(s, t);
    case _ =>
      var r := Apply(s, step);
      forall u, x | u in r.txs && x in r.txs[u].revs
        ensures NextInLine(r, u, x)
      {
        assert NextInLine(s, u, x) && Revs(r, x) == Revs(s, x);
      }
  }

  lemma {:induction false} RunKeepsInv(s: Sys, steps: seq<Step>, end: Sys)
    requires Inv(s) && Run(s, steps, end)
    ensures Inv(end)
    decreases |steps|
  {
    if steps != [] {
      StepKeepsPlanned(s, steps[0]);
      StepKeepsExclusive(s, steps[0]);
      StepKeepsNumbered(s, steps[0]);
      RunKeepsInv(Apply(s, steps[0]), steps[1..], end);
    }
  }

  /** Whatever the interleaving and the rollbacks, a concept's committed revisions are exactly 1..n. */
  lemma RevisionsCountUp(steps: seq<Step>, end: Sys)
    requires Run(EMPTY, steps, end)
    ensures forall slug :: slug in end.committed ==> Counting(end.committed[slug])
  {
    RunKeepsInv(EMPTY, steps, end);
  }

  // -------------------------------------------------------------- deadlocks

  predicate WaitsIn(s: Sys, t: nat, ts: set<nat>) {
    exists u :: u in ts && WaitsFor(s, t, u)
  }

  /** Transactions every one of which waits for another of them. */
  predicate Deadlocked(s: Sys, ts: set<nat>) {
    ts != {} && forall t {:trigger WaitsIn(s, t, ts)} :: t in ts ==> WaitsIn(s, t, ts)
  }

  lemma WaitStays(s: Sys, t: nat, u: nat, step: Step)
    requires Planned(s) && WaitsFor(s, t, u) && Locking(s, u) && Enabled(s, step)
    requires !(step.Rollback? && (step.t == t || step.t == u))
    ensures WaitsFor(Apply(s, step), t, u)
  {
    match step
    case Lock(x) =>
      assert !WaitsFor(s, x, u);
      if x == u { TakesWanted(s, u, Wanted(s, t)); }
    case _ =>
  }

  /** Only rolling one of them back helps. */
  lemma OnlyRollbackHelps(s: Sys, ts: set<nat>, step: Step)
    requires Planned(s) && Deadlocked(s, ts) && Enabled(s, step) && !(step.Rollback? && step.t in ts)
    ensures Deadlocked(Apply(s, step), ts)
  {
    forall t | t in ts ensures WaitsIn(Apply(s, step), t, ts) {
      assert WaitsIn(s, t, ts);
      var u :| u in ts && WaitsFor(s, t, u);
      assert WaitsIn(s, u, ts);
      WaitStays(s, t, u, step);
    }
  }

  predicate WaitChain(s: Sys, chain: seq<nat>) {
    forall i :: 0 <= i < |chain| - 1 ==> WaitsFor(s, chain[i], chain[i + 1])
  }

  /** A cycle of waits is a deadlock of its members. */
  lemma CycleDeadlocks(s: Sys, chain: seq<nat>)
    requires |chain| >= 2 && WaitChain(s, chain) && chain[0] == chain[|chain| - 1]
    ensures Deadlocked(s, set t | t in chain)
  {
    var ts := set t | t in chain;
    assert chain[0] in ts;
    forall t | t in ts ensures WaitsIn(s, t, ts) {
      var i :| 0 <= i < |chain| && chain[i] == t;
      var k := if i < |chain| - 1 then i else 0;
      assert chain[k] == t && WaitsFor(s, chain[k], chain[k + 1]) && chain[k + 1] in ts;
    }
  }

  predicate Blocked(s: Sys, t: nat) { WaitsIn(s, t, s.txs.Keys) }

  lemma SomeoneIsFree(s: Sys)
    requires s.txs != map[] && !Deadlocked(s, s.txs.Keys)
    ensures exists t :: t in s.txs && !Blocked(s, t)
  {
    var any :| any in s.txs;
    assert s.txs.Keys != {};
  }

  // ------------------------------------------------ which inputs can deadlock

  /** A staging stopped after its first `held` locks. */
  datatype Cut = Cut(plan: Plan, held: nat)

  predicate Within(c: Cut) { c.held < |Locks(c.plan)| }

  function HeldRows(c: Cut): seq<Row>
    requires Within(c)
  {
    Locks(c.plan)[..c.held]
  }

  function WantedRow(c: Cut): Row
    requires Within(c)
  {
    Locks(c.plan)[c.held]
  }

  predicate Apart(a: Cut, b: Cut)
    requires Within(a) && Within(b)
  {
    forall row :: row in HeldRows(a) ==> row !in HeldRows(b)
  }

  predicate CutsOff(family: set<Plan>, c: Cut) { c.plan in family && Lawful(c.plan) && Within(c) }

  predicate AllCuts(family: set<Plan>, cuts: seq<Cut>) { forall i :: 0 <= i < |cuts| ==> CutsOff(family, cuts[i]) }

  predicate AllApart(family: set<Plan>, cuts: seq<Cut>)
    requires AllCuts(family, cuts)
  {
    forall i, j :: 0 <= i < j < |cuts| ==> Apart(cuts[i], cuts[j])
  }

  predicate Serves(family: set<Plan>, cuts: seq<Cut>, i: nat, j: nat)
    requires AllCuts(family, cuts) && i < |cuts|
  {
    j < |cuts| && WantedRow(cuts[i]) in HeldRows(cuts[j])
  }

  ghost predicate Served(family: set<Plan>, cuts: seq<Cut>, i: nat)
    requires AllCuts(family, cuts) && i < |cuts|
  {
    exists j: nat :: Serves(family, cuts, i, j)
  }

  ghost predicate AllServed(family: set<Plan>, cuts: seq<Cut>)
    requires AllCuts(family, cuts)
  {
    forall i: nat :: i < |cuts| ==> Served(family, cuts, i)
  }

  /** Stagings that can hold their first locks at once, each wanting next what another holds. */
  ghost predicate Tangle(family: set<Plan>, cuts: seq<Cut>) {
    cuts != [] && AllCuts(family, cuts) && AllApart(family, cuts) && AllServed(family, cuts)
  }

  /** Every staging of the run is one of the family's. */
  predicate From(steps: seq<Step>, family: set<Plan>) {
    forall i :: 0 <= i < |steps| && steps[i].Begin? ==> steps[i].plan in family
  }

  predicate AllFrom(s: Sys, family: set<Plan>) { forall t :: t in s.txs ==> s.txs[t].plan in family }

  lemma {:induction false} RunStaysInFamily(s: Sys, steps: seq<Step>, end: Sys, family: set<Plan>)
    requires Run(s, steps, end) && From(steps, family) && AllFrom(s, family)
    ensures AllFrom(end, family)
    decreases |steps|
  {
    if steps != [] {
      forall i | 0 <= i < |steps[1..]| && steps[1..][i].Begin? ensures steps[1..][i].plan in family {
        assert steps[i + 1].Begin?;
      }
      RunStaysInFamily(Apply(s, steps[0]), steps[1..], end, family);
    }
  }

  lemma {:induction false} Listing(ts: set<nat>) returns (order: seq<nat>)
    ensures NoRepeats(order) && forall t :: t in order <==> t in ts
    decreases |ts|
  {
    if ts == {} {
      order := [];
    } else {
      var t :| t in ts;
      var rest := Listing(ts - {t});
      order := rest + [t];
      assert forall i :: 0 <= i < |rest| ==> rest[i] in rest;
    }
  }

  function CutOf(tx: Tx): Cut { Cut(tx.plan, tx.taken) }

  function CutsOf(s: Sys, order: seq<nat>): seq<Cut>
    requires forall i :: 0 <= i < |order| ==> order[i] in s.txs
  {
    seq(|order|, i requires 0 <= i < |order| => CutOf(s.txs[order[i]]))
  }

  lemma HeldApart(s: Sys, t: nat, u: nat)
    requires Exclusive(s) && t != u && t in s.txs && u in s.txs && Within(CutOf(s.txs[t])) && Within(CutOf(s.txs[u]))
    ensures Apart(CutOf(s.txs[t]), CutOf(s.txs[u]))
  {
    forall row | row in HeldRows(CutOf(s.txs[t])) ensures row !in HeldRows(CutOf(s.txs[u])) {
      assert Holds(s.txs[t], row) && !Holds(s.txs[u], row);
    }
  }

  lemma WaitIsServed(family: set<Plan>, s: Sys, order: seq<nat>, i: nat, u: nat) returns (j: nat)
    requires i < |order| && u in order && WaitsFor(s, order[i], u)
    requires (forall k :: 0 <= k < |order| ==> order[k] in s.txs) && AllCuts(family, CutsOf(s, order))
    ensures Serves(family, CutsOf(s, order), i, j)
  {
    j :| j < |order| && order[j] == u;
    assert CutsOf(s, order)[j] == CutOf(s.txs[u]) && CutsOf(s, order)[i] == CutOf(s.txs[order[i]]);
  }

  /** A deadlock that is reached is a tangle of the inputs. */
  lemma DeadlockIsTangle(family: set<Plan>, steps: seq<Step>, end: Sys, ts: set<nat>) returns (cuts: seq<Cut>)
    requires Run(EMPTY, steps, end) && From(steps, family) && Deadlocked(end, ts)
    ensures Tangle(family, cuts)
  {
    RunKeepsInv(EMPTY, steps, end);
    RunStaysInFamily(EMPTY, steps, end, family);
    cuts := TangleOf(family, end, ts);
  }

  lemma TangleOf(family: set<Plan>, s: Sys, ts: set<nat>) returns (cuts: seq<Cut>)
    requires Inv(s) && AllFrom(s, family) && Deadlocked(s, ts)
    ensures Tangle(family, cuts)
  {
    var order := Listing(ts);
    var any :| any in ts;
    assert any in order;
    CutsAreOff(family, s, ts, order);
    cuts := CutsOf(s, order);
    CutsAreApart(family, s, order);
    forall i: nat | i < |cuts| ensures Served(family, cuts, i) { CutIsServed(family, s, ts, order, i); }
  }

  lemma CutsAreOff(family: set<Plan>, s: Sys, ts: set<nat>, order: seq<nat>)
    requires Planned(s) && AllFrom(s, family) && Deadlocked(s, ts) && forall t :: t in order ==> t in ts
    ensures forall i :: 0 <= i < |order| ==> order[i] in s.txs
    ensures AllCuts(family, CutsOf(s, order))
  {
    forall i | 0 <= i < |order| ensures order[i] in s.txs && CutsOff(family, CutOf(s.txs[order[i]])) {
      assert order[i] in order;
      assert WaitsIn(s, order[i], ts);
    }
  }

  lemma CutIsServed(family: set<Plan>, s: Sys, ts: set<nat>, order: seq<nat>, i: nat)
    requires Deadlocked(s, ts) && (forall t :: t in order <==> t in ts) && i < |order|
    requires (forall k :: 0 <= k < |order| ==> order[k] in s.txs) && AllCuts(family, CutsOf(s, order))
    ensures Served(family, CutsOf(s, order), i)
  {
    assert order[i] in order;
    assert WaitsIn(s, order[i], ts);
    var u :| u in ts && WaitsFor(s, order[i], u);
    var j := WaitIsServed(family, s, order, i, u);
  }

  lemma CutsAreApart(family: set<Plan>, s: Sys, order: seq<nat>)
    requires Exclusive(s) && NoRepeats(order)
    requires (forall k :: 0 <= k < |order| ==> order[k] in s.txs) && AllCuts(family, CutsOf(s, order))
    ensures AllApart(family, CutsOf(s, order))
  {
    var cuts := CutsOf(s, order);
    forall i, j | 0 <= i < j < |cuts| ensures Apart(cuts[i], cuts[j]) {
      assert CutsOff(family, cuts[i]) && CutsOff(family, cuts[j]);
      HeldApart(s, order[i], order[j]);
    }
  }

  /** The first n stagings, stopped at their cuts. */
  function Standing(cuts: seq<Cut>, n: nat): Sys
    requires n <= |cuts|
  {
    Sys(map[], map t | 0 <= t < n :: Tx(cuts[t].plan, cuts[t].held, map[]))
  }

  lemma {:induction false} RunAppend(s: Sys, steps: seq<Step>, mid: Sys, step: Step)
    requires Run(s, steps, mid) && Enabled(mid, step)
    ensures Run(s, steps + [step], Apply(mid, step))
    decreases |steps|
  {
    if steps == [] {
      assert [] + [step] == [step] && [step][1..] == [];
    } else {
      RunAppend(Apply(s, steps[0]), steps[1..], mid, step);
      assert (steps + [step])[1..] == steps[1..] + [step];
    }
  }

  /** Where the first n stagings stand and the next has k of its locks. */
  function Climbing(cuts: seq<Cut>, n: nat, k: nat): Sys
    requires n < |cuts|
  {
    Sys(map[], Standing(cuts, n).txs[n := Tx(cuts[n].plan, k, map[])])
  }

  lemma NextIsFree(standing: Cut, climber: Cut, k: nat)
    requires Within(standing) && Within(climber) && Apart(standing, climber) && k < climber.held
    ensures Locks(climber.plan)[k] !in HeldRows(standing)
  {
    assert HeldRows(climber)[k] == Locks(climber.plan)[k];
    assert HeldRows(climber)[k] in HeldRows(climber);
  }

  lemma FromAppend(steps: seq<Step>, step: Step, family: set<Plan>)
    requires From(steps, family) && (step.Begin? ==> step.plan in family)
    ensures From(steps + [step], family)
  {
  }

  lemma ClimbStarts(family: set<Plan>, cuts: seq<Cut>, n: nat)
    requires AllCuts(family, cuts) && n < |cuts|
    ensures Enabled(Standing(cuts, n), Begin(n, cuts[n].plan)) && cuts[n].plan in family
    ensures Apply(Standing(cuts, n), Begin(n, cuts[n].plan)) == Climbing(cuts, n, 0)
  {
    assert CutsOff(family, cuts[n]);
  }

  lemma ClimbGoesOn(family: set<Plan>, cuts: seq<Cut>, n: nat, k: nat)
    requires AllCuts(family, cuts) && AllApart(family, cuts) && n < |cuts| && k < cuts[n].held
    ensures Enabled(Climbing(cuts, n, k), Lock(n)) && Apply(Climbing(cuts, n, k), Lock(n)) == Climbing(cuts, n, k + 1)
  {
    var s := Climbing(cuts, n, k);
    assert CutsOff(family, cuts[n]);
    forall u | u in s.txs ensures !WaitsFor(s, n, u) {
      if u < n {
        assert CutsOff(family, cuts[u]);
        NextIsFree(cuts[u], cuts[n], k);
      }
    }
  }

  lemma ClimbArrives(cuts: seq<Cut>, n: nat)
    requires n < |cuts|
    ensures Climbing(cuts, n, cuts[n].held) == Standing(cuts, n + 1)
  {
  }

  lemma {:induction false} ClimbTo(family: set<Plan>, cuts: seq<Cut>, n: nat, steps: seq<Step>,
    k: nat) returns (more: seq<Step>)
    requires AllCuts(family, cuts) && AllApart(family, cuts) && n < |cuts| && k <= cuts[n].held
    requires From(steps, family) && Run(EMPTY, steps, Standing(cuts, n))
    ensures Run(EMPTY, more, Climbing(cuts, n, k)) && From(more, family)
    decreases k
  {
    if k == 0 {
      ClimbStarts(family, cuts, n);
      RunAppend(EMPTY, steps, Standing(cuts, n), Begin(n, cuts[n].plan));
      more := steps + [Begin(n, cuts[n].plan)];
      FromAppend(steps, Begin(n, cuts[n].plan), family);
    } else {
      var before := ClimbTo(family, cuts, n, steps, k - 1);
      ClimbGoesOn(family, cuts, n, k - 1);
      RunAppend(EMPTY, before, Climbing(cuts, n, k - 1), Lock(n));
      more := before + [Lock(n)];
      FromAppend(before, Lock(n), family);
    }
  }

  lemma OneMoreStands(family: set<Plan>, cuts: seq<Cut>, n: nat, before: seq<Step>) returns (steps: seq<Step>)
    requires AllCuts(family, cuts) && AllApart(family, cuts) && n < |cuts|
    requires From(before, family) && Run(EMPTY, before, Standing(cuts, n))
    ensures Run(EMPTY, steps, Standing(cuts, n + 1)) && From(steps, family)
  {
    steps := ClimbTo(family, cuts, n, before, cuts[n].held);
    ClimbArrives(cuts, n);
  }

  lemma NobodyStands(cuts: seq<Cut>)
    ensures Run(EMPTY, [], Standing(cuts, 0))
  {
  }

  lemma {:induction false} StandUp(family: set<Plan>, cuts: seq<Cut>, n: nat) returns (steps: seq<Step>)
    requires AllCuts(family, cuts) && AllApart(family, cuts) && n <= |cuts|
    ensures Run(EMPTY, steps, Standing(cuts, n)) && From(steps, family)
    decreases n
  {
    if n == 0 {
      NobodyStands(cuts);
      steps := [];
    } else {
      var before := StandUp(family, cuts, n - 1);
      steps := OneMoreStands(family, cuts, n - 1, before);
    }
  }

  lemma WantedIsNew(c: Cut)
    requires Lawful(c.plan) && Within(c)
    ensures WantedRow(c) !in HeldRows(c)
  {
    LocksAreDistinct(c.plan);
  }

  /** And every tangle of inputs is a deadlock that can be reached. */
  lemma TangleDeadlocks(family: set<Plan>, cuts: seq<Cut>) returns (steps: seq<Step>, end: Sys, ts: set<nat>)
    requires Tangle(family, cuts)
    ensures Run(EMPTY, steps, end) && From(steps, family) && Deadlocked(end, ts)
  {
    steps := StandUp(family, cuts, |cuts|);
    end := Standing(cuts, |cuts|);
    ts := end.txs.Keys;
    assert 0 in ts;
    forall t | t in ts ensures WaitsIn(end, t, ts) {
      var u := StandsWaiting(family, cuts, t);
    }
  }

  lemma StandsWaiting(family: set<Plan>, cuts: seq<Cut>, t: nat) returns (u: nat)
    requires AllCuts(family, cuts) && AllServed(family, cuts) && t < |cuts|
    ensures u < |cuts| && WaitsFor(Standing(cuts, |cuts|), t, u)
  {
    assert Served(family, cuts, t) && CutsOff(family, cuts[t]);
    u :| Serves(family, cuts, t, u);
    assert CutsOff(family, cuts[u]);
    WantedIsNew(cuts[t]);
  }

  ghost predicate CanDeadlock(family: set<Plan>) {
    exists steps, end, ts :: Run(EMPTY, steps, end) && From(steps, family) && Deadlocked(end, ts)
  }

  /** Stagings of a family can deadlock one another exactly when their inputs hold a tangle. */
  lemma DeadlocksAreTangles(family: set<Plan>)
    ensures CanDeadlock(family) <==> exists cuts :: Tangle(family, cuts)
  {
    if CanDeadlock(family) {
      var steps, end, ts :| Run(EMPTY, steps, end) && From(steps, family) && Deadlocked(end, ts);
      var cuts := DeadlockIsTangle(family, steps, end, ts);
    }
    if cuts: seq<Cut> :| Tangle(family, cuts) {
      var steps, end, ts := TangleDeadlocks(family, cuts);
    }
  }

  /** Where the inputs hold no tangle, no waits ever form a cycle, and some staging under way can always go on. */
  lemma SomeStagingProceeds(family: set<Plan>, steps: seq<Step>, end: Sys, chain: seq<nat>)
    requires Run(EMPTY, steps, end) && From(steps, family) && forall cuts :: !Tangle(family, cuts)
    ensures !(|chain| >= 2 && WaitChain(end, chain) && chain[0] == chain[|chain| - 1])
    ensures end.txs != map[] ==> exists t :: t in end.txs && !Blocked(end, t)
  {
    DeadlocksAreTangles(family);
    assert forall ts :: !Deadlocked(end, ts);
    if |chain| >= 2 && WaitChain(end, chain) && chain[0] == chain[|chain| - 1] { CycleDeadlocks(end, chain); }
    if end.txs != map[] { SomeoneIsFree(end); }
  }

  // ---------------------------------------------------------- two stagings

  /** The first of the decisions that is among the others. */
  function First(decisions: seq<string>, others: seq<string>): Option<string> {
    if decisions == [] then None else if decisions[0] in others then Some(decisions[0])
      else First(decisions[1..], others)
  }

  lemma {:induction false} FirstIs(decisions: seq<string>, others: seq<string>, i: nat) returns (f: nat)
    requires i < |decisions| && decisions[i] in others
    ensures f <= i && First(decisions, others) == Some(decisions[f]) && decisions[f] in others
    ensures forall k :: 0 <= k < f ==> decisions[k] !in others
    decreases i
  {
    if decisions[0] in others {
      f := 0;
    } else {
      var g := FirstIs(decisions[1..], others, i - 1);
      f := g + 1;
      forall k | 0 <= k < f ensures decisions[k] !in others {
        if k > 0 { assert decisions[k] == decisions[1..][k - 1];
        }
      }
    }
  }

  lemma {:induction false} FirstShared(decisions: seq<string>, others: seq<string>) returns (i: nat)
    requires First(decisions, others).Some?
    ensures i < |decisions| && decisions[i] in others
    decreases |decisions|
  {
    if decisions[0] in others { i := 0; } else {
      var k := FirstShared(decisions[1..], others);
      i := k + 1;
    }
  }

  /** What two stagings' inputs must be for them to deadlock each other. */
  predicate Entangled(p: Plan, q: Plan) {
    && p.hash != q.hash && (forall slug :: slug in p.concepts ==> slug !in q.concepts)
    && First(p.decisions, q.decisions) != First(q.decisions, p.decisions)
  }

  predicate Knot(a: Cut, b: Cut) {
    && Lawful(a.plan) && Lawful(b.plan) && Within(a) && Within(b) && Apart(a, b)
    && WantedRow(a) in HeldRows(b) && WantedRow(b) in HeldRows(a)
  }

  /** A row a cut holds, by its place in the plan. */
  lemma HeldAt(c: Cut, row: Row) returns (k: nat)
    requires Within(c) && row in HeldRows(c)
    ensures k < c.held && Locks(c.plan)[k] == row
  {
    k :| k < |HeldRows(c)| && HeldRows(c)[k] == row;
  }

  lemma HoldsAt(c: Cut, k: nat)
    requires Within(c) && k < c.held
    ensures Locks(c.plan)[k] in HeldRows(c)
  {
    assert HeldRows(c)[k] == Locks(c.plan)[k];
  }

  /** In a knot neither staging is still in its sorted pass. */
  lemma KnotIsPastThePass(a: Cut, b: Cut)
    requires Knot(a, b)
    ensures a.plan.hash != b.plan.hash && a.held > |a.plan.concepts|
  {
    var m := HeldAt(b, WantedRow(a));
    var n := HeldAt(a, WantedRow(b));
    HoldsAt(a, 0);
    HoldsAt(b, 0);
    LocksAt(a.plan, a.held);
    LocksAt(a.plan, n);
    LocksAt(b.plan, b.held);
    LocksAt(b.plan, m);
    if a.held <= |a.plan.concepts| {
      var c, d := a.plan.concepts[a.held - 1], b.plan.concepts[b.held - 1];
      assert Before(d, c) && Before(c, d);
      BeforeIsTotal(c, d);
    }
  }

  lemma KnotHoldsConcepts(c: Cut, slug: string)
    requires Within(c) && c.held > |c.plan.concepts| && slug in c.plan.concepts
    ensures Concept(slug) in HeldRows(c)
  {
    PassHolds(Tx(c.plan, c.held, map[]), slug);
  }

  /** The first decision a staging shares with the other is one it holds. */
  lemma KnotHoldsFirst(a: Cut, b: Cut)
    requires Knot(a, b) && a.held > |a.plan.concepts| && b.held > |b.plan.concepts|
    ensures First(a.plan.decisions, b.plan.decisions).Some?
    ensures Decision(First(a.plan.decisions, b.plan.decisions).value) in HeldRows(a)
  {
    var n := HeldAt(a, WantedRow(b));
    LocksAt(a.plan, n);
    LocksAt(b.plan, b.held);
    var base := 1 + |a.plan.concepts|;
    assert a.plan.decisions[n - base] == b.plan.decisions[b.held - 1 - |b.plan.concepts|];
    var f := FirstIs(a.plan.decisions, b.plan.decisions, n - base);
    LocksAt(a.plan, base + f);
    HoldsAt(a, base + f);
  }

  lemma KnotMeans(a: Cut, b: Cut)
    requires Knot(a, b)
    ensures Entangled(a.plan, b.plan)
  {
    KnotIsPastThePass(a, b);
    KnotIsPastThePass(b, a);
    forall slug | slug in a.plan.concepts ensures slug !in b.plan.concepts {
      KnotHoldsConcepts(a, slug);
      if slug in b.plan.concepts { KnotHoldsConcepts(b, slug); }
    }
    KnotHoldsFirst(a, b);
    KnotHoldsFirst(b, a);
  }

  /**
   * Entangled stagings stop in a knot: one before the other's first shared decision, the other where it
   * meets the first.
   */
  lemma KnotOf(p: Plan, q: Plan) returns (a: Cut, b: Cut)
    requires Lawful(p) && Lawful(q) && Entangled(p, q)
    ensures a.plan == p && b.plan == q && Knot(a, b)
  {
    var x, y := SharedBoth(p, q);
    var i := FirstIs(p.decisions, q.decisions, x);
    var j := FirstIs(q.decisions, p.decisions, y);
    var m: nat :| m < |p.decisions| && p.decisions[m] == q.decisions[j];
    var at: nat :| at < |q.decisions| && q.decisions[at] == p.decisions[i];
    assert p.decisions[..m][i] == p.decisions[i];
    var k := FirstIs(q.decisions, p.decisions[..m], at);
    assert j < k by { NotAmongFirst(p, q, m, j, k); }
    a, b := Cut(p, 1 + |p.concepts| + m), Cut(q, 1 + |q.concepts| + k);
    KnotTies(a, b, m, j, k);
  }

  lemma SharedBoth(p: Plan, q: Plan) returns (x: nat, y: nat)
    requires Entangled(p, q)
    ensures x < |p.decisions| && p.decisions[x] in q.decisions && y < |q.decisions| && q.decisions[y] in p.decisions
  {
    if First(p.decisions, q.decisions).Some? {
      x := FirstShared(p.decisions, q.decisions);
      y :| 0 <= y < |q.decisions| && q.decisions[y] == p.decisions[x];
    } else {
      y := FirstShared(q.decisions, p.decisions);
      x :| 0 <= x < |p.decisions| && p.decisions[x] == q.decisions[y];
      var _ := FirstIs(p.decisions, q.decisions, x);
    }
  }

  lemma NotAmongFirst(p: Plan, q: Plan, m: nat, j: nat, k: nat)
    requires Lawful(p) && m < |p.decisions| && j < |q.decisions| && k < |q.decisions|
      && p.decisions[m] == q.decisions[j]
    requires (forall e :: 0 <= e < j ==> q.decisions[e] !in p.decisions) && q.decisions[k] in p.decisions[..m]
    ensures j < k
  {
    assert q.decisions[k] in p.decisions;
    var e :| 0 <= e < m && p.decisions[e] == q.decisions[k];
    assert p.decisions[e] != p.decisions[m];
  }

  lemma KnotTies(a: Cut, b: Cut, m: nat, j: nat, k: nat)
    requires Lawful(a.plan) && Lawful(b.plan) && Entangled(a.plan, b.plan)
    requires m < |a.plan.decisions| && j < k < |b.plan.decisions| && a.plan.decisions[m] == b.plan.decisions[j]
    requires a.held == 1 + |a.plan.concepts| + m && b.held == 1 + |b.plan.concepts| + k
    requires b.plan.decisions[k] in a.plan.decisions[..m]
    requires forall e :: 0 <= e < k ==> b.plan.decisions[e] !in a.plan.decisions[..m]
    ensures Knot(a, b)
  {
    var p, q := a.plan, b.plan;
    LocksAt(p, a.held);
    LocksAt(q, b.held);
    LocksAt(q, 1 + |q.concepts| + j);
    HoldsAt(b, 1 + |q.concepts| + j);
    var e: nat :| e < m && p.decisions[e] == q.decisions[k];
    LocksAt(p, 1 + |p.concepts| + e);
    HoldsAt(a, 1 + |p.concepts| + e);
    forall row | row in HeldRows(a) ensures row !in HeldRows(b) { KnotIsApart(a, b, m, k, row); }
  }

  lemma KnotIsApart(a: Cut, b: Cut, m: nat, k: nat, row: Row)
    requires Entangled(a.plan, b.plan) && m < |a.plan.decisions| && k < |b.plan.decisions|
    requires a.held == 1 + |a.plan.concepts| + m && b.held == 1 + |b.plan.concepts| + k && row in HeldRows(a)
    requires forall e :: 0 <= e < k ==> b.plan.decisions[e] !in a.plan.decisions[..m]
    ensures row !in HeldRows(b)
  {
    HeldAfterPass(a, row);
    HeldAfterPass(b, row);
  }

  /** What a staging past its pass holds: its hash, all its concepts, and the first of its decisions. */
  lemma HeldAfterPass(c: Cut, row: Row)
    requires Within(c) && c.held > |c.plan.concepts|
    ensures row in HeldRows(c) <==> match row
      case Hash(hash) => hash == c.plan.hash
      case Concept(slug) => slug in c.plan.concepts
      case Decision(slug) => slug in c.plan.decisions[..c.held - 1 - |c.plan.concepts|]
  {
    var base := 1 + |c.plan.concepts|;
    if row in HeldRows(c) {
      var n := HeldAt(c, row);
      LocksAt(c.plan, n);
      if row.Decision? { assert c.plan.decisions[..c.held - base][n - base] == row.slug; }
    }
    match row
    case Hash(_) => HoldsAt(c, 0);
    case Concept(slug) => if slug in c.plan.concepts { KnotHoldsConcepts(c, slug); }
    case Decision(slug) =>
      if e: nat :| e < c.held - base && c.plan.decisions[e] == slug {
        LocksAt(c.plan, base + e);
        HoldsAt(c, base + e);
      }
  }

  /**
   * Two stagings can deadlock each other exactly when they differ in hash, share no
   * concept, and the first decision each shares with the other is not the same one.
   */
  lemma PairDeadlocks(p: Plan, q: Plan)
    requires Lawful(p) && Lawful(q)
    ensures CanDeadlock({p, q}) <==> Entangled(p, q)
  {
    var family := {p, q};
    DeadlocksAreTangles(family);
    if cuts: seq<Cut> :| Tangle(family, cuts) {
      var a, b := KnotInPair(p, q, cuts);
      KnotMeans(a, b);
      KnotMeans(b, a);
    }
    if Entangled(p, q) {
      var a, b := KnotOf(p, q);
      KnotIsTangle(family, a, b);
    }
  }

  lemma KnotIsTangle(family: set<Plan>, a: Cut, b: Cut)
    requires Knot(a, b) && a.plan in family && b.plan in family
    ensures Tangle(family, [a, b])
  {
    var cuts := [a, b];
    assert CutsOff(family, a) && CutsOff(family, b);
    assert Serves(family, cuts, 0, 1) && Serves(family, cuts, 1, 0);
    forall i: nat | i < |cuts| ensures Served(family, cuts, i) { assert i == 0 || i == 1; }
  }

  /** A tangle of two stagings is a knot of the two: whoever serves holds its hash, and no two hold one hash. */
  lemma KnotInPair(p: Plan, q: Plan, cuts: seq<Cut>) returns (a: Cut, b: Cut)
    requires Tangle({p, q}, cuts)
    ensures Knot(a, b) && {a.plan, b.plan} == {p, q}
  {
    var family := {p, q};
    var i := Server(family, cuts, 0);
    var j := Server(family, cuts, i);
    var k := Server(family, cuts, j);
    DifferInHash(family, cuts, i, j);
    DifferInHash(family, cuts, j, k);
    if k != i { DifferInHash(family, cuts, i, k); }
    a, b := cuts[i], cuts[j];
    BothApart(family, cuts, i, j);
  }

  lemma Server(family: set<Plan>, cuts: seq<Cut>, i: nat) returns (j: nat)
    requires Tangle(family, cuts) && i < |cuts|
    ensures Serves(family, cuts, i, j) && cuts[j].held > 0 && i != j && CutsOff(family, cuts[j])
      && CutsOff(family, cuts[i])
  {
    assert CutsOff(family, cuts[i]);
    assert Served(family, cuts, i);
    j :| Serves(family, cuts, i, j);
    assert CutsOff(family, cuts[j]);
    WantedIsNew(cuts[i]);
  }

  lemma BothApart(family: set<Plan>, cuts: seq<Cut>, i: nat, j: nat)
    requires AllCuts(family, cuts) && AllApart(family, cuts) && i < |cuts| && j < |cuts| && i != j
    ensures CutsOff(family, cuts[i]) && CutsOff(family, cuts[j]) && Apart(cuts[i], cuts[j]) && Apart(cuts[j], cuts[i])
  {
    assert CutsOff(family, cuts[i]) && CutsOff(family, cuts[j]);
    if i < j { assert Apart(cuts[i], cuts[j]); } else { assert Apart(cuts[j], cuts[i]); }
  }

  lemma DifferInHash(family: set<Plan>, cuts: seq<Cut>, i: nat, j: nat)
    requires AllCuts(family, cuts) && AllApart(family, cuts) && i < |cuts| && j < |cuts| && i != j
    requires cuts[i].held > 0 && cuts[j].held > 0
    ensures cuts[i].plan.hash != cuts[j].plan.hash
  {
    BothApart(family, cuts, i, j);
    HoldsAt(cuts[i], 0);
    HoldsAt(cuts[j], 0);
  }

  // ------------------------------------------------------ more than two

  ghost predicate StrictOrder(earlier: (string, string) -> bool) {
    && (forall a :: !earlier(a, a))
    && (forall a, b, c :: earlier(a, b) && earlier(b, c) ==> earlier(a, c))
  }

  predicate InOrder(earlier: (string, string) -> bool, decisions: seq<string>) {
    forall i, j :: 0 <= i < j < |decisions| ==> earlier(decisions[i], decisions[j])
  }

  /** Locked earlier, when everyone keeps to one order of decisions. */
  predicate Precedes(earlier: (string, string) -> bool, a: Row, b: Row) {
    match a
    case Hash(_) => !b.Hash?
    case Concept(x) => b.Decision? || (b.Concept? && Before(x, b.slug))
    case Decision(x) => b.Decision? && earlier(x, b.slug)
  }

  lemma PrecedesIsTransitive(earlier: (string, string) -> bool, a: Row, b: Row, c: Row)
    requires StrictOrder(earlier) && Precedes(earlier, a, b) && Precedes(earlier, b, c)
    ensures Precedes(earlier, a, c)
  {
    if a.Concept? && b.Concept? && c.Concept? { BeforeIsTransitive(a.slug, b.slug, c.slug); }
  }

  lemma PlanPrecedes(earlier: (string, string) -> bool, p: Plan, i: nat, j: nat)
    requires Lawful(p) && InOrder(earlier, p.decisions) && i < j < |Locks(p)|
    ensures Precedes(earlier, Locks(p)[i], Locks(p)[j])
  {
    LocksAt(p, i);
    LocksAt(p, j);
  }

  /** Of some cuts, one whose wanted row precedes no other's. */
  lemma {:induction false} LastWanted(earlier: (string, string) -> bool, family: set<Plan>, cuts: seq<Cut>,
    n: nat) returns (last: nat)
    requires StrictOrder(earlier) && AllCuts(family, cuts) && 0 < n <= |cuts|
    ensures last < n
    ensures forall i :: 0 <= i < n ==> !Precedes(earlier, WantedRow(cuts[last]), WantedRow(cuts[i]))
    decreases n
  {
    var x := WantedRow(cuts[n - 1]);
    assert !Precedes(earlier, x, x) by { if x.Concept? { BeforeIsTotal(x.slug, x.slug); } }
    if n == 1 {
      last := 0;
    } else {
      var m := LastWanted(earlier, family, cuts, n - 1);
      last := if Precedes(earlier, WantedRow(cuts[m]), x) then n - 1 else m;
      forall i | 0 <= i < n ensures !Precedes(earlier, WantedRow(cuts[last]), WantedRow(cuts[i])) {
        if last == n - 1 && Precedes(earlier, x, WantedRow(cuts[i])) {
          PrecedesIsTransitive(earlier, WantedRow(cuts[m]), x, WantedRow(cuts[i]));
        }
      }
    }
  }

  /** Stagings that list their decisions in one common order never deadlock, however many they are. */
  lemma OneOrderIsSafe(family: set<Plan>, earlier: (string, string) -> bool)
    requires StrictOrder(earlier) && forall p :: p in family ==> InOrder(earlier, p.decisions)
    ensures !CanDeadlock(family)
  {
    DeadlocksAreTangles(family);
    if cuts: seq<Cut> :| Tangle(family, cuts) {
      var i := LastWanted(earlier, family, cuts, |cuts|);
      var j := Server(family, cuts, i);
      var k := HeldAt(cuts[j], WantedRow(cuts[i]));
      PlanPrecedes(earlier, cuts[j].plan, k, cuts[j].held);
    }
  }

  /** Stagings that share one decision alone cannot deadlock each other. */
  lemma ShareOne(p: Plan, q: Plan, shared: string, i: nat, j: nat)
    requires Lawful(p) && Lawful(q) && i < |p.decisions| && j < |q.decisions|
      && p.decisions[i] == q.decisions[j] == shared
    requires forall d :: d in p.decisions && d in q.decisions ==> d == shared
    ensures !CanDeadlock({p, q})
  {
    var f := FirstIs(p.decisions, q.decisions, i);
    var g := FirstIs(q.decisions, p.decisions, j);
    PairDeadlocks(p, q);
  }

  /** A staging of two decisions, stopped between them. */
  function Halfway(hash: string, d: string, e: string): Cut { Cut(Plan(hash, [], [d, e]), 2) }

  lemma HalfwayHolds(hash: string, d: string, e: string)
    requires d != e
    ensures Lawful(Halfway(hash, d, e).plan) && Within(Halfway(hash, d, e))
      && WantedRow(Halfway(hash, d, e)) == Decision(e)
    ensures HeldRows(Halfway(hash, d, e)) == [Hash(hash), Decision(d)]
  {
    var c := Halfway(hash, d, e);
    LocksAt(c.plan, 0);
    LocksAt(c.plan, 1);
    LocksAt(c.plan, 2);
  }

  /** Two stagings that list two decisions in opposite orders, and nothing else. */
  lemma OppositeOrdersDeadlock(h: seq<string>, d: seq<string>)
    requires |h| == |d| == 2 && NoRepeats(h) && NoRepeats(d)
    ensures CanDeadlock({Halfway(h[0], d[0], d[1]).plan, Halfway(h[1], d[1], d[0]).plan})
  {
    var a, b := Halfway(h[0], d[0], d[1]), Halfway(h[1], d[1], d[0]);
    HalfwayHolds(h[0], d[0], d[1]);
    HalfwayHolds(h[1], d[1], d[0]);
    var f := FirstIs(a.plan.decisions, b.plan.decisions, 0);
    var g := FirstIs(b.plan.decisions, a.plan.decisions, 0);
    PairDeadlocks(a.plan, b.plan);
  }

  /** No two of these three can deadlock each other, and the three together can. */
  lemma PairsAreNotEnough(h: seq<string>, d: seq<string>)
    requires |h| == |d| == 3 && NoRepeats(h) && NoRepeats(d)
    ensures var p, q, r := Halfway(h[0], d[0], d[1]).plan, Halfway(h[1], d[1], d[2]).plan,
      Halfway(h[2], d[2], d[0]).plan;
      && !CanDeadlock({p, q}) && !CanDeadlock({q, r}) && !CanDeadlock({p, r})
      && CanDeadlock({p, q, r})
  {
    var a, b, c := Halfway(h[0], d[0], d[1]), Halfway(h[1], d[1], d[2]), Halfway(h[2], d[2], d[0]);
    HalfwayHolds(h[0], d[0], d[1]);
    HalfwayHolds(h[1], d[1], d[2]);
    HalfwayHolds(h[2], d[2], d[0]);
    ShareOne(a.plan, b.plan, d[1], 1, 0);
    ShareOne(b.plan, c.plan, d[2], 1, 0);
    ShareOne(a.plan, c.plan, d[0], 0, 1);
    ThreeInARing({a.plan, b.plan, c.plan}, a, b, c);
  }

  lemma ThreeInARing(family: set<Plan>, a: Cut, b: Cut, c: Cut)
    requires CutsOff(family, a) && CutsOff(family, b) && CutsOff(family, c) && Apart(a, b) && Apart(b, c) && Apart(a, c)
    requires WantedRow(a) in HeldRows(b) && WantedRow(b) in HeldRows(c) && WantedRow(c) in HeldRows(a)
    ensures CanDeadlock(family)
  {
    var cuts := [a, b, c];
    assert Serves(family, cuts, 0, 1) && Serves(family, cuts, 1, 2) && Serves(family, cuts, 2, 0);
    forall i: nat | i < |cuts| ensures Served(family, cuts, i) { assert i == 0 || i == 1 || i == 2; }
    assert AllApart(family, cuts) && AllServed(family, cuts);
    assert Tangle(family, cuts);
    DeadlocksAreTangles(family);
  }
}
