/** Exact-frame contradictions (src/domain/claims.ts, src/domain/lint.ts, src/domain/proposals.ts). */
module Contradictions {
  // One relation between claims, computed by a matcher over incoming claims, by the
  // proposal lint, by the review page's "collides" flag and by the space lint.

  import opened Wrappers
  import opened Text

  // ------------------------------------------------------------- validity

  /** A validity bound in microseconds; Unreadable is a text no date parser accepts. */
  datatype Moment = Open | At(us: int) | Unreadable
  datatype Validity = Validity(from: Moment, until: Moment)

  function Ms(us: int): int { us / 1000 }

  /** The matcher compares dates, which hold whole milliseconds. */
  predicate Starts(from: Moment, until: Moment) {
    && !from.Unreadable? && !until.Unreadable?
    && (from.Open? || until.Open? || Ms(from.us) < Ms(until.us))
  }

  predicate Overlap(a: Validity, b: Validity) { Starts(a.from, b.until) && Starts(b.from, a.until) }

  /** The queries compare the stored timestamps themselves. */
  predicate StartsStored(from: Moment, until: Moment) {
    && !from.Unreadable? && !until.Unreadable?
    && (from.Open? || until.Open? || from.us < until.us)
  }

  predicate OverlapStored(a: Validity, b: Validity) { StartsStored(a.from, b.until) && StartsStored(b.from, a.until) }

  predicate Holds(v: Validity, ms: int) {
    && !v.from.Unreadable? && !v.until.Unreadable?
    && (v.from.Open? || Ms(v.from.us) <= ms) && (v.until.Open? || ms < Ms(v.until.us))
  }

  /** Overlap means a shared instant exactly when neither interval is empty. */
  lemma OverlapIsIntersection(a: Validity, b: Validity)
    ensures (exists t :: Holds(a, t) && Holds(b, t)) <==> Overlap(a, b) && Overlap(a, a) && Overlap(b, b)
  {
    if Overlap(a, b) && Overlap(a, a) && Overlap(b, b) {
      var t :=
        if a.from.At? && (!b.from.At? || Ms(b.from.us) <= Ms(a.from.us)) then Ms(a.from.us)
        else if b.from.At? then Ms(b.from.us)
        else if a.until.At? && (!b.until.At? || Ms(a.until.us) <= Ms(b.until.us)) then Ms(a.until.us) - 1
        else if b.until.At? then Ms(b.until.us) - 1
        else 0;
      assert Holds(a, t) && Holds(b, t);
    }
  }

  /** An empty interval overlaps without sharing an instant. */
  lemma EmptyIntervalOverlaps()
    ensures Overlap(Validity(At(5000), At(5000)), Validity(At(0), At(10000)))
    ensures forall t :: !Holds(Validity(At(5000), At(5000)), t)
  {
  }

  predicate SameMs(a: Moment, b: Moment) { a.At? && b.At? && Ms(a.us) == Ms(b.us) }

  /** The two comparisons differ exactly on bounds that meet inside one millisecond. */
  lemma OverlapPrecision(a: Validity, b: Validity)
    ensures Overlap(a, b) <==> OverlapStored(a, b) && !SameMs(a.from, b.until) && !SameMs(b.from, a.until)
  {
  }

  // --------------------------------------------------------------- claims

  datatype Status = Proposed | Draft | Verified | Disputed | Deprecated

  datatype Incoming = Incoming(subject: string, predicate_: string, object_: string, context: Option<string>,
    validity: Validity)

  datatype Claim = Claim(
    triple: Incoming, normalized: Option<string>, status: Status, proposal: Option<nat>, complementary: bool,
      supersedes: Option<nat>)

  datatype Def = Def(name: string, functional: bool, body: string)

  /** Space settings; None stands for an entry of the wrong type, which readers skip. */
  datatype Settings = Settings(legacy: seq<Option<string>>, defs: seq<Option<Def>>)

  predicate Functional(s: Settings, name: string) {
    name != "" && (Some(name) in s.legacy || exists k :: 0 <= k < |s.defs| && Declares(s.defs[k], name))
  }

  predicate Declares(d: Option<Def>, name: string) { d.Some? && d.value.name == name && d.value.functional }

  /** getFunctionalPredicates: the legacy array and the typed registry together. */
  method FunctionalPredicates(s: Settings) returns (names: set<string>)
    ensures forall name :: name in names <==> Functional(s, name)
  {
    names := {};
    for i := 0 to |s.legacy|
      invariant forall name :: name in names <==> name != "" && Some(name) in s.legacy[..i]
    {
      if s.legacy[i].Some? && s.legacy[i].value != "" { names := names + {s.legacy[i].value}; }
    }
    assert s.legacy[..|s.legacy|] == s.legacy;
    for i := 0 to |s.defs|
      invariant forall name :: name in names <==>
        name != "" && (Some(name) in s.legacy || exists k :: 0 <= k < i && Declares(s.defs[k], name))
    {
      var d := s.defs[i];
      if d.Some? && d.value.name != "" && d.value.functional { names := names + {d.value.name}; }
    }
  }

  /** The registry is keyed by name; a later definition replaces an earlier one. */
  function Registered(defs: seq<Option<Def>>, name: string): Option<Def> {
    if defs == [] then None
    else
      var last := defs[|defs| - 1];
      if last.Some? && last.value.name == name && name != "" then last else Registered(defs[..|defs| - 1], name)
  }

  /** normalizeObject, whose number, date and unit parsing is not part of this model. */
  type Normalizer = (Option<Def>, string) -> string

  function Norm(n: Normalizer, s: Settings, c: Incoming): string { n(Registered(s.defs, c.predicate_), c.object_) }

  function Text0(o: Option<string>): string { if o.Some? then o.value else "" }

  function Object0(c: Claim): string { if c.normalized.Some? then c.normalized.value else c.triple.object_ }

  predicate Visible(c: Claim) { c.status == Verified || c.status == Disputed }

  predicate SameFrame(a: Incoming, b: Incoming) { a.subject == b.subject && a.predicate_ == b.predicate_ }

  // ------------------------------------------------------------ the matcher

  /** Two incoming claims contradict each other. */
  predicate Clash(n: Normalizer, s: Settings, a: Incoming, b: Incoming) {
    && SameFrame(a, b) && Text0(a.context) == Text0(b.context)
    && Norm(n, s, a) != Norm(n, s, b) && Overlap(a.validity, b.validity)
  }

  /** An incoming claim contradicts a persisted one. */
  predicate ClashStored(n: Normalizer, s: Settings, a: Incoming, b: Claim) {
    && SameFrame(b.triple, a) && Text0(b.triple.context) == Text0(a.context)
    && Object0(b) != Norm(n, s, a) && Overlap(a.validity, b.triple.validity)
  }

  predicate InBatch(n: Normalizer, s: Settings, incoming: seq<Incoming>, i: nat, j: nat) {
    i < j < |incoming| && Functional(s, incoming[i].predicate_) && Clash(n, s, incoming[i], incoming[j])
  }

  predicate InTable(n: Normalizer, s: Settings, table: seq<Claim>, incoming: seq<Incoming>, i: nat, r: nat) {
    && i < |incoming| && r < |table| && Functional(s, incoming[i].predicate_)
    && Visible(table[r]) && ClashStored(n, s, incoming[i], table[r])
  }

  /** A claim's id is its position in the table. */
  datatype Pair = Pair(subject: string, predicate_: string, proposed: string, existing: string, claim: Option<nat>,
    status: Option<Status>)

  function BatchPair(a: Incoming, b: Incoming): Pair {
    Pair(a.subject, a.predicate_, b.object_, a.object_, None, None)
  }

  function StoredPair(a: Incoming, r: nat, b: Claim): Pair {
    Pair(a.subject, a.predicate_, a.object_, b.triple.object_, Some(r), Some(b.status))
  }

  predicate Increasing(at: seq<nat>) { forall i, j :: 0 <= i < j < |at| ==> at[i] < at[j] }

  /** The functional claims among the incoming ones; at lists their positions. */
  method Relevant(functional: set<string>, incoming: seq<Incoming>) returns (relevant: seq<Incoming>,
    ghost at: seq<nat>)
    ensures |at| == |relevant| && Increasing(at)
    ensures forall k :: 0 <= k < |at| ==> at[k] < |incoming| && relevant[k] == incoming[at[k]]
    ensures forall i :: 0 <= i < |incoming| && incoming[i].predicate_ in functional ==> i in at
    ensures forall k :: 0 <= k < |relevant| ==> relevant[k].predicate_ in functional
  {
    relevant, at := [], [];
    for i := 0 to |incoming|
      invariant |at| == |relevant| && Increasing(at)
      invariant forall k :: 0 <= k < |at| ==> at[k] < i && relevant[k] == incoming[at[k]]
      invariant forall j :: 0 <= j < i && incoming[j].predicate_ in functional ==> j in at
      invariant forall k :: 0 <= k < |relevant| ==> relevant[k].predicate_ in functional
    {
      if incoming[i].predicate_ in functional { relevant, at := relevant + [incoming[i]], at + [i]; }
    }
  }

  ghost predicate RendersBatch(claims: seq<Incoming>, pairs: seq<Pair>, which: seq<(nat, nat)>) {
    && |pairs| == |which|
    && forall k :: 0 <= k < |which| ==> IsBatchPair(claims, pairs[k], which[k])
  }

  predicate IsBatchPair(claims: seq<Incoming>, p: Pair, w: (nat, nat)) {
    w.0 < |claims| && w.1 < |claims| && p == BatchPair(claims[w.0], claims[w.1])
  }

  ghost predicate RendersStored(table: seq<Claim>, claims: seq<Incoming>, pairs: seq<Pair>, which: seq<(nat, nat)>) {
    && |pairs| == |which|
    && forall k :: 0 <= k < |which| ==> IsStoredPair(table, claims, pairs[k], which[k])
  }

  predicate IsStoredPair(table: seq<Claim>, claims: seq<Incoming>, p: Pair, w: (nat, nat)) {
    w.0 < |claims| && w.1 < |table| && p == StoredPair(claims[w.0], w.1, table[w.1])
  }

  predicate Upto(i: nat, j: nat, p: (nat, nat)) { p.0 < i || (p.0 == i && p.1 < j) }

  /** Collisions inside the batch, by nested index loops; which names the colliding positions. */
  method MatchBatch(n: Normalizer, s: Settings, relevant: seq<Incoming>) returns (pairs: seq<Pair>,
    ghost which: seq<(nat, nat)>)
    ensures NoRepeats(which)
    ensures forall i: nat, j: nat :: (i, j) in which <==> i < j < |relevant| && Clash(n, s, relevant[i], relevant[j])
    ensures RendersBatch(relevant, pairs, which)
  {
    pairs, which := [], [];
    for i := 0 to |relevant|
      invariant NoRepeats(which)
      invariant forall a: nat, b: nat :: (a, b) in which <==>
        a < i && a < b < |relevant| && Clash(n, s, relevant[a], relevant[b])
      invariant RendersBatch(relevant, pairs, which)
    {
      for j := i + 1 to |relevant|
        invariant NoRepeats(which)
        invariant forall a: nat, b: nat :: (a, b) in which <==>
          a < b < |relevant| && Upto(i, j, (a, b)) && Clash(n, s, relevant[a], relevant[b])
        invariant RendersBatch(relevant, pairs, which)
      {
        if Clash(n, s, relevant[i], relevant[j]) {
          assert (i, j) !in which;
          pairs, which := pairs + [BatchPair(relevant[i], relevant[j])], which + [(i, j)];
        }
      }
    }
  }

  /** Distinct (subject, predicate) frames of the relevant claims. */
  method Frames(relevant: seq<Incoming>) returns (frames: seq<(string, string)>)
    ensures NoRepeats(frames)
    ensures forall f :: f in frames <==>
      exists k :: 0 <= k < |relevant| && (relevant[k].subject, relevant[k].predicate_) == f
  {
    frames := [];
    for i := 0 to |relevant|
      invariant NoRepeats(frames)
      invariant forall f :: f in frames <==>
        exists k :: 0 <= k < i && (relevant[k].subject, relevant[k].predicate_) == f
    {
      var f := (relevant[i].subject, relevant[i].predicate_);
      if f !in frames { frames := frames + [f]; }
    }
  }

  /** The join of the visible claims with the frame list: one row per match, so repeated frames would repeat rows. */
  method QueryFrames(table: seq<Claim>, frames: seq<(string, string)>) returns (rows: seq<nat>)
    requires NoRepeats(frames)
    ensures NoRepeats(rows)
    ensures forall r: nat :: r in rows <==>
      r < |table| && Visible(table[r]) && (table[r].triple.subject, table[r].triple.predicate_) in frames
  {
    rows := [];
    for i := 0 to |table|
      invariant NoRepeats(rows)
      invariant forall r: nat :: r in rows <==>
        r < i && Visible(table[r]) && (table[r].triple.subject, table[r].triple.predicate_) in frames
    {
      if Visible(table[i]) {
        var f := (table[i].triple.subject, table[i].triple.predicate_);
        for k := 0 to |frames|
          invariant NoRepeats(rows)
          invariant forall r: nat :: r in rows <==>
            || (r < i && Visible(table[r]) && (table[r].triple.subject, table[r].triple.predicate_) in frames)
            || (r == i && f in frames[..k])
        {
          if frames[k] == f { rows := rows + [i]; }
        }
        assert frames[..|frames|] == frames;
      }
    }
  }

  predicate Rows(relevant: seq<Incoming>, rows: seq<nat>, i: nat, j: nat, p: (nat, nat)) {
    p.0 < i || (p.0 == i && p.1 in rows[..if j <= |rows| then j else |rows|])
  }

  /** Collisions with the rows of the query, by nested loops. */
  method MatchRows(n: Normalizer, s: Settings, table: seq<Claim>, relevant: seq<Incoming>, rows: seq<nat>)
    returns (pairs: seq<Pair>, ghost which: seq<(nat, nat)>)
    requires NoRepeats(rows) && forall k :: 0 <= k < |rows| ==> rows[k] < |table|
    ensures NoRepeats(which)
    ensures forall i: nat, r: nat :: (i, r) in which <==>
      i < |relevant| && r in rows && ClashStored(n, s, relevant[i], table[r])
    ensures RendersStored(table, relevant, pairs, which)
  {
    pairs, which := [], [];
    for i := 0 to |relevant|
      invariant NoRepeats(which)
      invariant forall a: nat, r: nat :: (a, r) in which <==>
        a < i && r in rows && ClashStored(n, s, relevant[a], table[r])
      invariant RendersStored(table, relevant, pairs, which)
    {
      for j := 0 to |rows|
        invariant NoRepeats(which)
        invariant forall a: nat, r: nat :: (a, r) in which <==>
          a < |relevant| && r in rows && Rows(relevant, rows, i, j, (a, r)) && ClashStored(n, s, relevant[a], table[r])
        invariant RendersStored(table, relevant, pairs, which)
      {
        assert rows[..j + 1] == rows[..j] + [rows[j]];
        assert rows[j] !in rows[..j];
        if ClashStored(n, s, relevant[i], table[rows[j]]) {
          assert (i, rows[j]) !in which;
          pairs, which := pairs + [StoredPair(relevant[i], rows[j], table[rows[j]])], which + [(i, rows[j])];
        }
      }
      assert rows[..|rows|] == rows;
    }
  }

  /** Positions among the relevant claims, as positions among the incoming ones. */
  ghost function Lift(at: seq<nat>, which: seq<(nat, nat)>, both: bool): (r: seq<(nat, nat)>)
    requires forall k :: 0 <= k < |which| ==> which[k].0 < |at| && (both ==> which[k].1 < |at|)
    ensures |r| == |which|
  {
    seq(|which|, k requires 0 <= k < |which| => (at[which[k].0], if both then at[which[k].1] else which[k].1))
  }

  lemma LiftNoRepeats(at: seq<nat>, which: seq<(nat, nat)>, both: bool)
    requires forall k :: 0 <= k < |which| ==> which[k].0 < |at| && (both ==> which[k].1 < |at|)
    requires Increasing(at) && NoRepeats(which)
    ensures NoRepeats(Lift(at, which, both))
  {
    var l := Lift(at, which, both);
    forall i, j | 0 <= i < j < |l| ensures l[i] != l[j] {
      assert which[i] != which[j];
      if which[i].0 != which[j].0 {
        assert at[which[i].0] != at[which[j].0];
      } else if both {
        assert at[which[i].1] != at[which[j].1];
      }
    }
  }

  /** What filtering the incoming claims leaves, with the positions they came from. */
  ghost predicate Filtered(s: Settings, incoming: seq<Incoming>, relevant: seq<Incoming>, at: seq<nat>) {
    && |at| == |relevant| && Increasing(at)
    && (forall k :: 0 <= k < |at| ==>
      at[k] < |incoming| && relevant[k] == incoming[at[k]] && Functional(s, relevant[k].predicate_))
    && (forall i :: 0 <= i < |incoming| && Functional(s, incoming[i].predicate_) ==> i in at)
  }

  /** Membership in a lifted list, through the filter. */
  lemma LiftMember(at: seq<nat>, which: seq<(nat, nat)>, both: bool, a: nat, b: nat)
    requires forall k :: 0 <= k < |which| ==> which[k].0 < |at| && (both ==> which[k].1 < |at|)
    requires Increasing(at) && a < |at| && (both ==> b < |at|)
    ensures (at[a], if both then at[b] else b) in Lift(at, which, both) <==> (a, b) in which
  {
    var l := Lift(at, which, both);
    var p := (at[a], if both then at[b] else b);
    if p in l {
      var k :| 0 <= k < |l| && l[k] == p;
      assert which[k].0 == a && which[k].1 == b;
      assert which[k] == (a, b);
    }
    if (a, b) in which {
      var k :| 0 <= k < |which| && which[k] == (a, b);
      assert l[k] == p;
    }
  }

  lemma LiftInside(at: seq<nat>, which: seq<(nat, nat)>, both: bool, p: (nat, nat))
    requires forall k :: 0 <= k < |which| ==> which[k].0 < |at| && (both ==> which[k].1 < |at|)
    ensures p in Lift(at, which, both) ==> p.0 in at && (both ==> p.1 in at)
  {
    var l := Lift(at, which, both);
    if p in l {
      var k :| 0 <= k < |l| && l[k] == p;
      assert at[which[k].0] in at;
    }
  }

  lemma LiftedBatch(n: Normalizer, s: Settings, incoming: seq<Incoming>, relevant: seq<Incoming>, at: seq<nat>,
                    which: seq<(nat, nat)>, i: nat, j: nat)
    requires Filtered(s, incoming, relevant, at)
    requires forall k :: 0 <= k < |which| ==> which[k].0 < |relevant| && which[k].1 < |relevant|
    requires forall a: nat, b: nat :: (a, b) in which <==> a < b < |relevant| && Clash(n, s, relevant[a], relevant[b])
    ensures (i, j) in Lift(at, which, true) <==> InBatch(n, s, incoming, i, j)
  {
    if i in at && j in at {
      var a, b :| 0 <= a < |at| && 0 <= b < |at| && at[a] == i && at[b] == j;
      LiftMember(at, which, true, a, b);
      assert a < b <==> i < j;
    } else {
      LiftInside(at, which, true, (i, j));
    }
  }

  lemma LiftedTable(n: Normalizer, s: Settings, table: seq<Claim>, incoming: seq<Incoming>, relevant: seq<Incoming>,
    at: seq<nat>,
                    rows: seq<nat>, which: seq<(nat, nat)>, i: nat, r: nat)
    requires Filtered(s, incoming, relevant, at)
    requires forall k :: 0 <= k < |rows| ==> rows[k] < |table| && Visible(table[rows[k]])
    requires forall r: nat, k: nat ::
      r < |table| && k < |relevant| && Visible(table[r]) && SameFrame(table[r].triple, relevant[k]) ==> r in rows
    requires forall k :: 0 <= k < |which| ==> which[k].0 < |relevant|
    requires forall a: nat, r: nat :: (a, r) in which <==>
      a < |relevant| && r in rows && ClashStored(n, s, relevant[a], table[r])
    ensures (i, r) in Lift(at, which, false) <==> InTable(n, s, table, incoming, i, r)
  {
    if i in at {
      var a :| 0 <= a < |at| && at[a] == i;
      LiftMember(at, which, false, a, r);
      if InTable(n, s, table, incoming, i, r) { assert SameFrame(table[r].triple, relevant[a]); }
    } else {
      LiftInside(at, which, false, (i, r));
    }
  }

  lemma RowsCover(table: seq<Claim>, relevant: seq<Incoming>, frames: seq<(string, string)>, rows: seq<nat>)
    requires forall f :: f in frames <==>
      exists k :: 0 <= k < |relevant| && (relevant[k].subject, relevant[k].predicate_) == f
    requires forall r: nat :: r in rows <==>
      r < |table| && Visible(table[r]) && (table[r].triple.subject, table[r].triple.predicate_) in frames
    ensures forall r: nat, k: nat ::
      r < |table| && k < |relevant| && Visible(table[r]) && SameFrame(table[r].triple, relevant[k]) ==> r in rows
  {
    forall r: nat, k: nat | r < |table| && k < |relevant| && Visible(table[r]) &&
      SameFrame(table[r].triple, relevant[k]) ensures r in rows {
      assert (relevant[k].subject, relevant[k].predicate_) in frames;
    }
  }

  /** The pairs render the colliding pairs of the batch, each exactly once, in some order. */
  ghost predicate ReportsBatch(n: Normalizer, s: Settings, incoming: seq<Incoming>, pairs: seq<Pair>) {
    exists which :: RendersBatch(incoming, pairs, which) && NoRepeats(which)
      && forall i: nat, j: nat :: (i, j) in which <==> InBatch(n, s, incoming, i, j)
  }

  /** The pairs render the collisions with persisted claims, each exactly once, in some order. */
  ghost predicate ReportsTable(n: Normalizer, s: Settings, table: seq<Claim>, incoming: seq<Incoming>,
    pairs: seq<Pair>) {
    exists which :: RendersStored(table, incoming, pairs, which) && NoRepeats(which)
      && forall i: nat, r: nat :: (i, r) in which <==> InTable(n, s, table, incoming, i, r)
  }

  /**
   * findContradictions reports each colliding pair of the naive all-pairs definition
   * exactly once: first those within the batch, then those with persisted claims.
   */
  method FindContradictions(n: Normalizer, s: Settings, table: seq<Claim>,
    incoming: seq<Incoming>) returns (pairs: seq<Pair>)
    ensures exists b :: 0 <= b <= |pairs| && ReportsBatch(n, s, incoming, pairs[..b]) && ReportsTable(n, s, table,
      incoming, pairs[b..])
  {
    var functional := FunctionalPredicates(s);
    var relevant, at := Relevant(functional, incoming);
    var inBatch, which := MatchBatch(n, s, relevant);
    LiftNoRepeats(at, which, true);
    forall i: nat, j: nat ensures (i, j) in Lift(at, which, true) <==> InBatch(n, s, incoming, i, j) {
      LiftedBatch(n, s, incoming, relevant, at, which, i, j);
    }
    assert RendersBatch(incoming, inBatch, Lift(at, which, true));
    assert ReportsBatch(n, s, incoming, inBatch);
    var frames := Frames(relevant);
    var rows := QueryFrames(table, frames);
    forall k | 0 <= k < |rows| ensures rows[k] < |table| && Visible(table[rows[k]]) { assert rows[k] in rows; }
    var inTable, whose := MatchRows(n, s, table, relevant, rows);
    LiftNoRepeats(at, whose, false);
    RowsCover(table, relevant, frames, rows);
    forall i: nat, r: nat ensures (i, r) in Lift(at, whose, false) <==> InTable(n, s, table, incoming, i, r) {
      LiftedTable(n, s, table, incoming, relevant, at, rows, whose, i, r);
    }
    assert RendersStored(table, incoming, inTable, Lift(at, whose, false));
    assert ReportsTable(n, s, table, incoming, inTable);
    pairs := inBatch + inTable;
    assert pairs[..|inBatch|] == inBatch && pairs[|inBatch|..] == inTable;
  }

  // ---------------------------------------------- the two review surfaces

  /** The conditions the proposal lint and the collides flag share: claim c against other o. */
  predicate WouldDispute(table: seq<Claim>, c: nat, o: nat) {
    && c < |table| && o < |table| && SameFrame(table[o].triple, table[c].triple)
    && Text0(table[o].triple.context) == Text0(table[c].triple.context)
    && Object0(table[o]) != Object0(table[c]) && table[o].proposal != table[c].proposal && Visible(table[o])
    && OverlapStored(table[c].triple.validity, table[o].triple.validity)
    && table[c].supersedes != Some(o)
  }

  predicate LintRow(s: Settings, table: seq<Claim>, id: nat, c: nat, o: nat) {
    && WouldDispute(table, c, o) && table[c].proposal == Some(id) && table[c].status == Proposed
    && Functional(s, table[c].triple.predicate_) && !table[c].complementary
  }

  datatype Finding = Finding(claim: nat, existing: string)

  ghost predicate RendersLint(table: seq<Claim>, findings: seq<Finding>, rows: seq<(nat, nat)>) {
    && |findings| == |rows|
    && forall k :: 0 <= k < |rows| ==>
      rows[k].1 < |table| && findings[k] == Finding(rows[k].0, table[rows[k].1].triple.object_)
  }

  /** The findings render the colliding rows, each exactly once, in some order. */
  ghost predicate ReportsLint(s: Settings, table: seq<Claim>, id: nat, findings: seq<Finding>) {
    exists rows :: RendersLint(table, findings, rows) && NoRepeats(rows)
      && forall c: nat, o: nat :: (c, o) in rows <==> LintRow(s, table, id, c, o)
  }

  /** lintProposal's contradictions: a finding per row, and no query at all without functional predicates. */
  method LintProposal(s: Settings, table: seq<Claim>, id: nat) returns (findings: seq<Finding>)
    ensures ReportsLint(s, table, id, findings)
  {
    findings := [];
    ghost var rows: seq<(nat, nat)> := [];
    var functional := FunctionalPredicates(s);
    if functional == {} {
      assert RendersLint(table, findings, rows);
      return;
    }
    for c := 0 to |table|
      invariant RendersLint(table, findings, rows) && NoRepeats(rows)
      invariant forall a: nat, b: nat :: (a, b) in rows <==> a < c && LintRow(s, table, id, a, b)
    {
      if table[c].proposal == Some(id) && table[c].status == Proposed && table[c].triple.predicate_ in functional
        && !table[c].complementary {
        for o := 0 to |table|
          invariant RendersLint(table, findings, rows) && NoRepeats(rows)
          invariant forall a: nat, b: nat :: (a, b) in rows <==> Upto(c, o, (a, b)) && LintRow(s, table, id, a, b)
        {
          if WouldDispute(table, c, o) {
            assert (c, o) !in rows;
            findings, rows := findings + [Finding(c, table[o].triple.object_)], rows + [(c, o)];
          }
        }
      }
    }
  }

  /** getProposal's flag on claim c. */
  method Collides(s: Settings, table: seq<Claim>, c: nat) returns (collides: bool)
    requires c < |table|
    ensures collides <==> Functional(s, table[c].triple.predicate_) && !table[c].complementary && exists o: nat ::
      WouldDispute(table, c, o)
  {
    var functional := FunctionalPredicates(s);
    if table[c].triple.predicate_ !in functional || table[c].complementary { return false; }
    for o := 0 to |table|
      invariant forall k :: 0 <= k < o ==> !WouldDispute(table, c, k)
    {
      if WouldDispute(table, c, o) { return true; }
    }
    return false;
  }

  /** The review page and the proposal lint agree: a claim is flagged exactly when, still proposed, it has a finding. */
  method FlagMeetsLint(s: Settings, table: seq<Claim>, id: nat, c: nat) returns (collides: bool, findings: seq<Finding>)
    requires c < |table| && table[c].proposal == Some(id)
    ensures (exists k :: 0 <= k < |findings| && findings[k].claim == c) <==> collides && table[c].status == Proposed
  {
    collides := Collides(s, table, c);
    findings := LintProposal(s, table, id);
    ghost var rows: seq<(nat, nat)> :| RendersLint(table, findings, rows) && NoRepeats(rows)
      && forall a: nat, b: nat :: (a, b) in rows <==> LintRow(s, table, id, a, b);
    if o: nat :| WouldDispute(table, c, o) && collides && table[c].status == Proposed {
      assert (c, o) in rows;
      var k :| 0 <= k < |rows| && rows[k] == (c, o);
      assert findings[k].claim == c;
    }
    if k :| 0 <= k < |findings| && findings[k].claim == c {
      assert (rows[k].0, rows[k].1) in rows;
    }
  }

  // ---------------------------------------------------- matcher and lint

  /** Claim c was staged by createProposal, which stores the normalized object it computed. */
  predicate StagedBy(n: Normalizer, s: Settings, table: seq<Claim>, id: nat, c: nat) {
    && c < |table| && table[c].proposal == Some(id) && table[c].status == Proposed
    && table[c].normalized == Some(Norm(n, s, table[c].triple))
  }

  /** No claim of a pending proposal is visible yet. */
  predicate Unapproved(table: seq<Claim>, id: nat) {
    forall c :: 0 <= c < |table| && table[c].proposal == Some(id) ==> !Visible(table[c])
  }

  predicate Excused(table: seq<Claim>, c: nat, o: nat)
    requires c < |table|
  {
    table[c].complementary || table[c].supersedes == Some(o)
  }

  predicate MeetInsideMs(a: Validity, b: Validity) { SameMs(a.from, b.until) || SameMs(b.from, a.until) }

  /**
   * For a staged claim, the matcher's persisted half and the proposal lint report the
   * same collisions, except those excused by adjudication or supersession, which only the
   * matcher reports, and those whose validity meets inside one millisecond, which only the lint does.
   */
  lemma MatcherMeetsLint(n: Normalizer, s: Settings, table: seq<Claim>, id: nat, staged: seq<nat>,
    incoming: seq<Incoming>, i: nat, o: nat)
    requires |staged| == |incoming| && i < |staged| && o < |table| && Unapproved(table, id)
    requires forall k :: 0 <= k < |staged| ==>
      StagedBy(n, s, table, id, staged[k]) && incoming[k] == table[staged[k]].triple
    ensures staged[i] < |table|
    ensures InTable(n, s, table, incoming, i, o) && !Excused(table, staged[i], o)
      <==> LintRow(s, table, id, staged[i], o) && !MeetInsideMs(incoming[i].validity, table[o].triple.validity)
  {
    assert StagedBy(n, s, table, id, staged[i]);
    OverlapPrecision(incoming[i].validity, table[o].triple.validity);
  }

  /** Bounds half a millisecond apart: approval disputes both claims, and the matcher announces nothing. */
  lemma MatcherMissesWithinMs(n: Normalizer, s: Settings)
    returns (table: seq<Claim>, incoming: seq<Incoming>)
    requires Functional(s, "p") && Norm(n, s, Incoming("a", "p", "x", None, Validity(Open, Open))) != "y"
    ensures |table| == 2 && |incoming| == 1 && StagedBy(n, s, table, 0, 1) && incoming[0] == table[1].triple
    ensures LintRow(s, table, 0, 1, 0) && !InTable(n, s, table, incoming, 0, 0)
  {
    var old_ := Claim(Incoming("a", "p", "y", None, Validity(Open, At(500))), Some("y"), Verified, None, false, None);
    var t := Incoming("a", "p", "x", None, Validity(At(0), Open));
    table := [old_, Claim(t, Some(Norm(n, s, t)), Proposed, Some(0), false, None)];
    incoming := [t];
  }

  // -------------------------------------------------- approval's claim flips

  /** Flip 4: the proposal's staged claims come into force. */
  function Verify(table: seq<Claim>, id: nat): seq<Claim> {
    seq(|table|, k requires 0 <= k < |table| =>
      if table[k].status == Proposed && table[k].proposal == Some(id) then table[k].(status := Verified) else table[k])
  }

  predicate Supersedes(table: seq<Claim>, id: nat, c: nat, o: nat) {
    c < |table| && table[c].proposal == Some(id) && table[c].status == Verified && table[c].supersedes == Some(o)
  }

  /** Flip 5c: explicitly superseded claims retire. */
  function Deprecate(table: seq<Claim>, id: nat): seq<Claim> {
    seq(|table|, k requires 0 <= k < |table| =>
      if Visible(table[k]) && exists c ::
        0 <= c < |table| && Supersedes(table, id, c, k) then table[k].(status := Deprecated) else table[k])
  }

  predicate DisputedPair(s: Settings, table: seq<Claim>, id: nat, c: nat, o: nat) {
    && WouldDispute(table, c, o) && table[c].proposal == Some(id) && Visible(table[c])
    && Functional(s, table[c].triple.predicate_) && !table[c].complementary
  }

  predicate InPair(s: Settings, table: seq<Claim>, id: nat, k: nat) {
    exists x :: 0 <= x < |table| && (DisputedPair(s, table, id, k, x) || DisputedPair(s, table, id, x, k))
  }

  /** Flip 5: both sides of every remaining collision are disputed. */
  function Dispute(s: Settings, table: seq<Claim>, id: nat): seq<Claim> {
    seq(|table|, k requires 0 <= k < |table| => if InPair(s, table, id, k) then table[k].(status := Disputed)
      else table[k])
  }

  function Approve(s: Settings, table: seq<Claim>, id: nat): seq<Claim> {
    Dispute(s, Deprecate(Verify(table, id), id), id)
  }

  /** Before approval: the proposal's claims are all staged, and none of them supersedes another of them. */
  predicate AwaitsReview(table: seq<Claim>, id: nat) {
    forall c :: 0 <= c < |table| && table[c].proposal == Some(id) ==>
      && table[c].status == Proposed
      && (table[c].supersedes.Some? && table[c].supersedes.value < |table|
        ==> table[table[c].supersedes.value].proposal != Some(id))
  }

  /** Some claim of the proposal supersedes claim o. */
  predicate Replaced(table: seq<Claim>, id: nat, o: nat) {
    exists c :: 0 <= c < |table| && table[c].proposal == Some(id) && table[c].supersedes == Some(o)
  }

  /** A collision approval turns into a dispute: one whose other side the proposal does not itself retire. */
  predicate Disputes(s: Settings, table: seq<Claim>, id: nat, c: nat, o: nat) {
    && WouldDispute(table, c, o) && table[c].proposal == Some(id)
    && Functional(s, table[c].triple.predicate_) && !table[c].complementary
    && !Replaced(table, id, o)
  }

  function Outcome(s: Settings, table: seq<Claim>, id: nat, k: nat): Status
    requires k < |table|
  {
    if table[k].proposal == Some(id) then
      if exists o :: 0 <= o < |table| && Disputes(s, table, id, k, o) then Disputed else Verified
    else if !Visible(table[k]) then table[k].status
    else if Replaced(table, id, k) then Deprecated
    else if exists c :: 0 <= c < |table| && Disputes(s, table, id, c, k) then Disputed
    else table[k].status
  }

  /** Claims after flips 4 and 5c: own claims verified, replaced ones retired. */
  lemma BeforeDisputes(table: seq<Claim>, id: nat, k: nat)
    requires AwaitsReview(table, id) && k < |table|
    ensures Deprecate(Verify(table, id), id)[k] == table[k].(status :=
      if table[k].proposal == Some(id) then Verified
      else if Visible(table[k]) && Replaced(table, id, k) then Deprecated else table[k].status)
  {
    var t := Verify(table, id);
    forall c | 0 <= c < |table| ensures Supersedes(t, id, c, k) <==>
      table[c].proposal == Some(id) && table[c].supersedes == Some(k) {
      assert t[c].proposal == table[c].proposal && t[c].supersedes == table[c].supersedes;
    }
    assert (exists c :: 0 <= c < |t| && Supersedes(t, id, c, k)) <==> Replaced(table, id, k);
  }

  lemma PairsSurvive(s: Settings, table: seq<Claim>, id: nat, c: nat, o: nat)
    requires AwaitsReview(table, id) && c < |table| && o < |table|
    ensures DisputedPair(s, Deprecate(Verify(table, id), id), id, c, o) <==> Disputes(s, table, id, c, o)
  {
    BeforeDisputes(table, id, c);
    BeforeDisputes(table, id, o);
  }

  /** What approval does to each claim. */
  lemma ApprovalOutcome(s: Settings, table: seq<Claim>, id: nat, k: nat)
    requires AwaitsReview(table, id) && k < |table|
    ensures Approve(s, table, id)[k] == table[k].(status := Outcome(s, table, id, k))
  {
    var t := Deprecate(Verify(table, id), id);
    BeforeDisputes(table, id, k);
    forall x | 0 <= x < |table|
      ensures DisputedPair(s, t, id, k, x) <==> Disputes(s, table, id, k, x)
      ensures DisputedPair(s, t, id, x, k) <==> Disputes(s, table, id, x, k)
    {
      PairsSurvive(s, table, id, k, x);
      PairsSurvive(s, table, id, x, k);
    }
    assert InPair(s, t, id, k)
      <==> exists x :: 0 <= x < |table| && (Disputes(s, table, id, k, x) || Disputes(s, table, id, x, k));
  }

  /** The review page's flag on claim c, as getProposal computes it. */
  predicate Flagged(s: Settings, table: seq<Claim>, c: nat) {
    && c < |table| && Functional(s, table[c].triple.predicate_) && !table[c].complementary
    && exists o :: 0 <= o < |table| && WouldDispute(table, c, o)
  }

  /**
   * "Approval disputes both": a flagged claim ends up disputed exactly when the
   * proposal leaves one of its opponents in force; every disputed claim was flagged.
   */
  lemma FlagAgainstApproval(s: Settings, table: seq<Claim>, id: nat, c: nat)
    requires AwaitsReview(table, id) && c < |table| && table[c].proposal == Some(id)
    ensures Approve(s, table, id)[c].status == Disputed
      <==> Flagged(s, table, c) && exists o :: 0 <= o < |table| && WouldDispute(table, c, o) && !Replaced(table, id, o)
  {
    ApprovalOutcome(s, table, id, c);
    if o :| 0 <= o < |table| && WouldDispute(table, c, o) && !Replaced(table, id, o) && Flagged(s, table, c) {
      assert Disputes(s, table, id, c, o);
    }
  }

  /**
   * Two staged claims against one existing claim, the first superseding it: the second is flagged and
   * ends up verified.
   */
  lemma FlagPromisesTooMuch(s: Settings) returns (table: seq<Claim>)
    requires Functional(s, "p")
    ensures |table| == 3 && AwaitsReview(table, 0) && table[2].proposal == Some(0)
    ensures Flagged(s, table, 2) && Approve(s, table, 0)[2].status == Verified
  {
    var always := Validity(Open, Open);
    var standing := Claim(Incoming("a", "p", "x", None, always), Some("x"), Verified, None, false, None);
    var successor := Claim(Incoming("a", "p", "y", None, always), Some("y"), Proposed, Some(0), false, Some(0));
    var bystander := Claim(Incoming("a", "p", "z", None, always), Some("z"), Proposed, Some(0), false, None);
    table := [standing, successor, bystander];
    assert WouldDispute(table, 2, 0);
    assert Replaced(table, 0, 0) by { assert table[1].supersedes == Some(0); }
    ApprovalOutcome(s, table, 0, 2);
    assert !WouldDispute(table, 2, 1) && !WouldDispute(table, 2, 2);
  }

  // ------------------------------------------------------- the space lint

  /** A contradictory pair among the visible claims of the space, smaller id first. */
  predicate SpaceRow(s: Settings, table: seq<Claim>, a: nat, b: nat) {
    && a < b < |table| && SameFrame(table[b].triple, table[a].triple)
    && Text0(table[b].triple.context) == Text0(table[a].triple.context)
    && Object0(table[a]) != Object0(table[b])
    && OverlapStored(table[a].triple.validity, table[b].triple.validity)
    && Functional(s, table[a].triple.predicate_) && Visible(table[a]) && Visible(table[b])
  }

  datatype Frame = Frame(subject: string, predicate_: string, context: string)
  datatype Group = Group(frame: Frame, objects: set<string>, claims: set<nat>)

  function FrameOf(c: Claim): Frame { Frame(c.triple.subject, c.triple.predicate_, Text0(c.triple.context)) }

  /** Frame text as the map key; stored text holds no NUL. */
  function Key(f: Frame): string { f.subject + "\0" + f.predicate_ + "\0" + f.context }

  predicate Printable(c: Claim) {
    && Free(c.triple.subject, '\0') && Free(c.triple.predicate_, '\0') && Free(Text0(c.triple.context), '\0')
  }

  lemma KeyIsInjective(a: Claim, b: Claim)
    requires Printable(a) && Printable(b) && Key(FrameOf(a)) == Key(FrameOf(b))
    ensures FrameOf(a) == FrameOf(b)
  {
    KeyIsJoin(FrameOf(a));
    KeyIsJoin(FrameOf(b));
    var x := [FrameOf(a).subject, FrameOf(a).predicate_, FrameOf(a).context];
    var y := [FrameOf(b).subject, FrameOf(b).predicate_, FrameOf(b).context];
    JoinIsInjective(x, y, '\0');
    assert x[0] == y[0] && x[1] == y[1] && x[2] == y[2];
  }

  lemma KeyIsJoin(f: Frame)
    ensures Join([f.subject, f.predicate_, f.context], '\0') == Key(f)
  {
    assert [f.subject, f.predicate_, f.context][1..] == [f.predicate_, f.context]
      && [f.predicate_, f.context][1..] == [f.context];
    assert Join([f.predicate_, f.context], '\0') == f.predicate_ + ['\0'] + f.context;
    assert f.subject + ['\0'] + (f.predicate_ + ['\0'] + f.context) == Key(f);
  }

  predicate RowsInside(table: seq<Claim>, rows: seq<(nat, nat)>) {
    forall k :: 0 <= k < |rows| ==>
      rows[k].0 < |table| && rows[k].1 < |table| && FrameOf(table[rows[k].0]) == FrameOf(table[rows[k].1])
  }

  predicate AllPrintable(table: seq<Claim>) { forall c :: 0 <= c < |table| ==> Printable(table[c]) }

  function AddRow(table: seq<Claim>, before: Option<Group>, row: (nat, nat)): Group
    requires row.0 < |table| && row.1 < |table|
  {
    var g := if before.Some? then before.value else Group(FrameOf(table[row.0]), {}, {});
    Group(g.frame, g.objects + {table[row.0].triple.object_, table[row.1].triple.object_}, g.claims + {row.0, row.1})
  }

  /** The entry under a key after folding the rows in order. */
  function GroupFor(table: seq<Claim>, rows: seq<(nat, nat)>, key: string): Option<Group>
    requires RowsInside(table, rows)
  {
    if rows == [] then None
    else
      var last := rows[|rows| - 1];
      var before := GroupFor(table, rows[..|rows| - 1], key);
      if Key(FrameOf(table[last.0])) == key then Some(AddRow(table, before, last)) else before
  }

  predicate Touches(rows: seq<(nat, nat)>, c: nat) { exists k :: 0 <= k < |rows| && (rows[k].0 == c || rows[k].1 == c) }

  predicate Member(table: seq<Claim>, rows: seq<(nat, nat)>, f: Frame, c: nat) {
    c < |table| && FrameOf(table[c]) == f && Touches(rows, c)
  }

  ghost predicate NoMember(table: seq<Claim>, rows: seq<(nat, nat)>, f: Frame) {
    forall c: nat :: !Member(table, rows, f, c)
  }

  ghost predicate HasObject(table: seq<Claim>, rows: seq<(nat, nat)>, f: Frame, o: string) {
    exists c: nat :: Member(table, rows, f, c) && table[c].triple.object_ == o
  }

  lemma MemberGrows(table: seq<Claim>, rows: seq<(nat, nat)>, f: Frame, c: nat)
    requires RowsInside(table, rows) && rows != []
    ensures Member(table, rows, f, c)
      <==> Member(table, rows[..|rows| - 1], f,
        c) || (c < |table| && FrameOf(table[c]) == f && (c == rows[|rows| - 1].0 || c == rows[|rows| - 1].1))
  {
    var init := rows[..|rows| - 1];
    if Touches(init, c) {
      var k :| 0 <= k < |init| && (init[k].0 == c || init[k].1 == c);
      assert rows[k] == init[k];
    }
    if Touches(rows, c) {
      var k :| 0 <= k < |rows| && (rows[k].0 == c || rows[k].1 == c);
      assert k < |init| ==> init[k] == rows[k];
    }
  }

  /** A group's claims are those its rows touch in its frame, its objects theirs. */
  ghost predicate Describes(table: seq<Claim>, rows: seq<(nat, nat)>, f: Frame, g: Group) {
    && g.frame == f
    && (forall c: nat :: c in g.claims <==> Member(table, rows, f, c))
    && (forall o :: o in g.objects <==> HasObject(table, rows, f, o))
  }

  lemma AddRowHolds(table: seq<Claim>, rows: seq<(nat, nat)>, f: Frame, before: Option<Group>)
    requires RowsInside(table, rows) && rows != [] && FrameOf(table[rows[|rows| - 1].0]) == f
    requires before.Some? ==> Describes(table, rows[..|rows| - 1], f, before.value)
    requires before.None? ==> NoMember(table, rows[..|rows| - 1], f)
    ensures Describes(table, rows, f, AddRow(table, before, rows[|rows| - 1]))
  {
    var last := rows[|rows| - 1];
    var g := AddRow(table, before, last);
    forall c: nat ensures c in g.claims <==> Member(table, rows, f, c) { MemberGrows(table, rows, f, c); }
    forall o ensures o in g.objects <==> HasObject(table, rows, f, o) {
      if o in g.objects {
        if o == table[last.0].triple.object_ { assert last.0 in g.claims; }
        else if o == table[last.1].triple.object_ { assert last.1 in g.claims; }
        else {
          var c: nat :| Member(table, rows[..|rows| - 1], f, c) && table[c].triple.object_ == o;
          MemberGrows(table, rows, f, c);
        }
      }
      if HasObject(table, rows, f, o) {
        var c: nat :| Member(table, rows, f, c) && table[c].triple.object_ == o;
        MemberGrows(table, rows, f, c);
      }
    }
  }

  lemma {:induction false} GroupHoldsItsRows(table: seq<Claim>, rows: seq<(nat, nat)>, a: nat)
    requires RowsInside(table, rows) && AllPrintable(table) && a < |table|
    ensures GroupFor(table, rows, Key(FrameOf(table[a]))).Some? ==>
      Describes(table, rows, FrameOf(table[a]), GroupFor(table, rows, Key(FrameOf(table[a]))).value)
    ensures GroupFor(table, rows, Key(FrameOf(table[a]))).None? ==> NoMember(table, rows, FrameOf(table[a]))
    decreases |rows|
  {
    var f := FrameOf(table[a]);
    if rows != [] {
      var init, last := rows[..|rows| - 1], rows[|rows| - 1];
      GroupHoldsItsRows(table, init, a);
      if Key(FrameOf(table[last.0])) == Key(f) {
        KeyIsInjective(table[last.0], table[a]);
        AddRowHolds(table, rows, f, GroupFor(table, init, Key(f)));
      } else {
        OtherRow(table, rows, f);
      }
    }
  }

  lemma OtherRow(table: seq<Claim>, rows: seq<(nat, nat)>, f: Frame)
    requires RowsInside(table, rows) && rows != [] && FrameOf(table[rows[|rows| - 1].0]) != f
    ensures forall c: nat :: Member(table, rows, f, c) <==> Member(table, rows[..|rows| - 1], f, c)
    ensures forall o :: HasObject(table, rows, f, o) <==> HasObject(table, rows[..|rows| - 1], f, o)
  {
    forall c: nat ensures Member(table, rows, f, c) <==> Member(table, rows[..|rows| - 1], f, c) {
      MemberGrows(table, rows, f, c);
    }
    forall o ensures HasObject(table, rows, f, o) <==> HasObject(table, rows[..|rows| - 1], f, o) {
      if HasObject(table, rows, f, o) {
        var c: nat :| Member(table, rows, f, c) && table[c].triple.object_ == o;
        assert Member(table, rows[..|rows| - 1], f, c);
      }
    }
  }

  /** The self-join, each unordered pair once. */
  method SpaceRows(s: Settings, table: seq<Claim>) returns (rows: seq<(nat, nat)>)
    ensures RowsInside(table, rows)
    ensures forall a: nat, b: nat :: (a, b) in rows <==> SpaceRow(s, table, a, b)
  {
    rows := [];
    var functional := FunctionalPredicates(s);
    if functional == {} { return; }
    for a := 0 to |table|
      invariant RowsInside(table, rows)
      invariant forall i: nat, j: nat :: (i, j) in rows <==> i < a && SpaceRow(s, table, i, j)
    {
      for b := 0 to |table|
        invariant RowsInside(table, rows)
        invariant forall i: nat, j: nat :: (i, j) in rows <==> Upto(a, b, (i, j)) && SpaceRow(s, table, i, j)
      {
        if SpaceRow(s, table, a, b) { rows := rows + [(a, b)]; }
      }
    }
  }

  /** Contradicts some other visible claim of the space. */
  ghost predicate Contradicted(s: Settings, table: seq<Claim>, c: nat) {
    exists o: nat :: SpaceRow(s, table, c, o) || SpaceRow(s, table, o, c)
  }

  lemma TouchesIsContradicted(s: Settings, table: seq<Claim>, rows: seq<(nat, nat)>, c: nat)
    requires forall a: nat, b: nat :: (a, b) in rows <==> SpaceRow(s, table, a, b)
    ensures Touches(rows, c) <==> Contradicted(s, table, c)
  {
    if Touches(rows, c) {
      var k :| 0 <= k < |rows| && (rows[k].0 == c || rows[k].1 == c);
      assert (rows[k].0, rows[k].1) in rows;
    }
    if o: nat :| SpaceRow(s, table, c, o) || SpaceRow(s, table, o, c) {
      var row := if SpaceRow(s, table, c, o) then (c, o) else (o, c);
      assert row in rows;
    }
  }

  /** A finding names exactly the contradicted claims of its frame and context. */
  ghost predicate Names(s: Settings, table: seq<Claim>, g: Group) {
    forall c: nat :: c in g.claims <==> c < |table| && FrameOf(table[c]) == g.frame && Contradicted(s, table, c)
  }

  /** The rows folded into a map by frame and context, in order of first appearance. */
  method FoldRows(table: seq<Claim>, rows: seq<(nat, nat)>) returns (keys: seq<string>, groups: map<string, Group>)
    requires RowsInside(table, rows)
    ensures NoRepeats(keys) && forall key :: key in keys <==> key in groups
    ensures forall key :: GroupFor(table, rows, key) == if key in groups then Some(groups[key]) else None
  {
    keys, groups := [], map[];
    for i := 0 to |rows|
      invariant NoRepeats(keys) && forall key :: key in keys <==> key in groups
      invariant forall key :: GroupFor(table, rows[..i], key) == if key in groups then Some(groups[key]) else None
    {
      var key := Key(FrameOf(table[rows[i].0]));
      assert rows[..i + 1][..i] == rows[..i];
      var entry := AddRow(table, if key in groups then Some(groups[key]) else None, rows[i]);
      if key !in groups { keys := keys + [key]; }
      groups := groups[key := entry];
    }
    assert rows[..|rows|] == rows;
  }

  lemma {:induction false} GroupHasRow(table: seq<Claim>, rows: seq<(nat, nat)>, key: string) returns (k: nat)
    requires RowsInside(table, rows) && GroupFor(table, rows, key).Some?
    ensures k < |rows| && Key(FrameOf(table[rows[k].0])) == key
    decreases |rows|
  {
    if Key(FrameOf(table[rows[|rows| - 1].0])) == key {
      k := |rows| - 1;
    } else {
      k := GroupHasRow(table, rows[..|rows| - 1], key);
    }
  }

  /**
   * contradictions: one finding per contradictory frame and context. Findings have
   * distinct frames, each names exactly the contradicted claims of its frame with
   * their objects, and every contradicted claim is in one.
   */
  method SpaceContradictions(s: Settings, table: seq<Claim>) returns (findings: seq<Group>)
    requires AllPrintable(table)
    ensures forall i, j :: 0 <= i < j < |findings| ==> findings[i].frame != findings[j].frame
    ensures forall i :: 0 <= i < |findings| ==> Names(s, table, findings[i]) && findings[i].claims != {}
    ensures forall i, o :: 0 <= i < |findings| ==>
      (o in findings[i].objects <==> exists c :: c in findings[i].claims && c < |table| && table[c].triple.object_ == o)
    ensures forall c: nat :: Contradicted(s, table, c) ==> exists i :: 0 <= i < |findings| && c in findings[i].claims
  {
    var rows := SpaceRows(s, table);
    var keys, groups := FoldRows(table, rows);
    findings := seq(|keys|, i requires 0 <= i < |keys| && keys[i] in groups => groups[keys[i]]);
    forall i | 0 <= i < |findings|
      ensures Names(s, table, findings[i]) && findings[i].claims != {} && Key(findings[i].frame) == keys[i]
      ensures forall o :: o in findings[i].objects <==>
        exists c :: c in findings[i].claims && c < |table| && table[c].triple.object_ == o
    {
      assert keys[i] in keys;
      FindingNames(s, table, rows, keys[i]);
    }
    forall c: nat | Contradicted(s, table, c) ensures exists i :: 0 <= i < |findings| && c in findings[i].claims {
      TouchesIsContradicted(s, table, rows, c);
      GroupHoldsItsRows(table, rows, c);
      assert Member(table, rows, FrameOf(table[c]), c);
      var i :| 0 <= i < |keys| && keys[i] == Key(FrameOf(table[c]));
    }
  }

  lemma FindingNames(s: Settings, table: seq<Claim>, rows: seq<(nat, nat)>, key: string)
    requires RowsInside(table, rows) && AllPrintable(table) && GroupFor(table, rows, key).Some?
    requires forall a: nat, b: nat :: (a, b) in rows <==> SpaceRow(s, table, a, b)
    ensures var g := GroupFor(table, rows, key).value;
      && Names(s, table, g) && g.claims != {} && Key(g.frame) == key
      && forall o :: o in g.objects <==> exists c :: c in g.claims && c < |table| && table[c].triple.object_ == o
  {
    var k := GroupHasRow(table, rows, key);
    var a := rows[k].0;
    GroupHoldsItsRows(table, rows, a);
    var g := GroupFor(table, rows, key).value;
    assert Touches(rows, a);
    assert a in g.claims;
    forall c: nat ensures c in g.claims <==> c < |table| && FrameOf(table[c]) == g.frame && Contradicted(s, table, c) {
      TouchesIsContradicted(s, table, rows, c);
    }
    forall o ensures o in g.objects <==> exists c :: c in g.claims && c < |table| && table[c].triple.object_ == o {
      if o in g.objects {
        var c: nat :| Member(table, rows, g.frame, c) && table[c].triple.object_ == o;
        assert c in g.claims;
      }
    }
  }

  // ------------------------------------------------ the relations, field by field

  /** Which predicates are functional: names in the legacy list, and names a definition declares functional. */
  lemma FunctionalIs(s: Settings, name: string)
    ensures Functional(s, name) <==>
      name != "" && (Some(name) in s.legacy
        || exists d: Def :: Some(d) in s.defs && d.name == name && d.functional)
  {
    if k :| 0 <= k < |s.defs| && Declares(s.defs[k], name) { assert Some(s.defs[k].value) in s.defs; }
    if d: Def :| Some(d) in s.defs && d.name == name && d.functional {
      var k :| 0 <= k < |s.defs| && s.defs[k] == Some(d);
      assert Declares(s.defs[k], name);
    }
  }

  predicate SameContext(a: Option<string>, b: Option<string>) {
    a == b || (a == None && b == Some("")) || (a == Some("") && b == None)
  }

  /** What one incoming claim would be, had it been staged and approved. */
  function AsStored(n: Normalizer, s: Settings, a: Incoming): Claim {
    Claim(a, Some(Norm(n, s, a)), Verified, None, false, None)
  }

  /** The matcher's collisions: same subject, predicate and context, different objects, overlapping validity. */
  lemma MatcherCollisionIs(n: Normalizer, s: Settings, a: Incoming, b: Claim)
    ensures ClashStored(n, s, a, b) <==>
      && a.subject == b.triple.subject && a.predicate_ == b.triple.predicate_
      && SameContext(a.context, b.triple.context) && Overlap(a.validity, b.triple.validity)
      && n(Registered(s.defs, a.predicate_), a.object_)
         != (if b.normalized.None? then b.triple.object_ else b.normalized.value)
  {
  }

  /** Within a batch as against the table: the two halves of the matcher ask the same. */
  lemma BatchMeetsTable(n: Normalizer, s: Settings, a: Incoming, b: Incoming)
    ensures Clash(n, s, a, b) <==> ClashStored(n, s, b, AsStored(n, s, a))
    ensures Clash(n, s, a, b) <==> Clash(n, s, b, a)
  {
  }

  predicate LastOf(defs: seq<Option<Def>>, name: string, k: nat) {
    && k < |defs| && defs[k].Some? && defs[k].value.name == name
    && forall j :: k < j < |defs| ==> defs[j].None? || defs[j].value.name != name
  }

  /** The definition an object is normalized by: the last one of the predicate's name. */
  lemma {:induction false} RegisteredIsLast(defs: seq<Option<Def>>, name: string)
    ensures Registered(defs, name).None? <==> name == "" || forall d: Def :: Some(d) in defs ==> d.name != name
    ensures forall k :: 0 <= k < |defs| && name != "" && LastOf(defs, name, k) ==> Registered(defs, name) == defs[k]
    decreases |defs|
  {
    if defs != [] {
      var init, last := defs[..|defs| - 1], defs[|defs| - 1];
      RegisteredIsLast(init, name);
      assert defs == init + [last];
      if last.Some? && last.value.name == name && name != "" { assert Some(last.value) in defs; }
      forall k | 0 <= k < |defs| && name != "" && LastOf(defs, name, k) ensures Registered(defs, name) == defs[k]
      {
        if k < |init| { assert init[k] == defs[k]; }
      }
    }
  }

  /** What a reported pair shows: the staged object first, and of a persisted opponent its id and status. */
  lemma PairShows(a: Incoming, b: Incoming, r: nat, c: Claim)
    ensures BatchPair(a, b) == Pair(a.subject, a.predicate_, b.object_, a.object_, None, None)
    ensures StoredPair(a, r, c) == Pair(a.subject, a.predicate_, a.object_, c.triple.object_, Some(r), Some(c.status))
  {
  }

  /** The space lint's pairs: two claims in force that collide, of a functional predicate, each pair once. */
  lemma SpaceCollisionIs(s: Settings, table: seq<Claim>, a: nat, b: nat)
    ensures SpaceRow(s, table, a, b) <==>
      && a < b < |table| && (table[a].status == Verified || table[a].status == Disputed)
      && (table[b].status == Verified || table[b].status == Disputed)
      && table[a].triple.subject == table[b].triple.subject && table[a].triple.predicate_ == table[b].triple.predicate_
      && SameContext(table[a].triple.context, table[b].triple.context)
      && (if table[a].normalized.None? then table[a].triple.object_ else table[a].normalized.value)
         != (if table[b].normalized.None? then table[b].triple.object_ else table[b].normalized.value)
      && OverlapStored(table[a].triple.validity, table[b].triple.validity)
      && Functional(s, table[a].triple.predicate_)
  {
  }

  /** Stored validities overlap when each starts before the other ends, where both bounds are given. */
  lemma StoredOverlapIs(a: Validity, b: Validity)
    requires !a.from.Unreadable? && !a.until.Unreadable? && !b.from.Unreadable? && !b.until.Unreadable?
    ensures OverlapStored(a, b) <==>
      (a.from.At? && b.until.At? ==> a.from.us < b.until.us) && (b.from.At? && a.until.At? ==> b.from.us < a.until.us)
  {
  }
}
