/** Several schedulers sharing one timetable (src/schedule.ts). */
module ClaimProtocol {
  // Arming, claiming under FOR UPDATE SKIP LOCKED, and replacing rows, as a state machine
  // whose steps are the database statements of any number of workers, interleaved.

  import opened Wrappers
  import opened ScheduleClock

  type Id = nat

  /** A wk_schedules row; zone is None when the name is not one the runtime knows. */
  datatype Row = Row(window: Window, zone: Option<Zone>, enabled: bool, last: Option<int>, next: Option<int>)

  /** computeNextRun on a row; None where it throws. */
  function NextOf(row: Row, now: int): Option<int> {
    if row.zone.None? then None else NextRun(row.zone.value, row.window, now)
  }

  /** Where one worker stands between two database calls. */
  datatype Worker =
    | Idle
    | Begun(since: int)            // BEGIN sent; now() is frozen at `since`
    | Holding(since: int, id: Id, window: int, plan: Option<Plan>) // row locked, due window read
    | ArmReading(id: Id, row: Row) // armUnscheduled read the row
    | Armed(id: Id, value: int)    // its next window is computed, not yet written
    | Saving(id: Id, row: Row)     // replaceSchedules took the time and computed the row to upsert

  /** What claimDue computes under its lock: the clock it read, and the next window, None where that throws. */
  datatype Plan = Plan(at: int, next: Option<int>)

  /** One successful claim: the window taken, and the clock when the next one was computed. */
  datatype Claim = Claim(id: Id, window: int, at: int)

  datatype Sys = Sys(clock: int, rows: map<Id, Row>, workers: map<nat, Worker>, claims: seq<Claim>)

  datatype Step =
    | Tick(elapsed: nat)
    | Begin(w: nat)
    | Take(w: nat, id: Id)
    | TakeNothing(w: nat)
    | Compute(w: nat)
    | Commit(w: nat)
    | Crash(w: nat)
    | ArmRead(w: nat, id: Id)
    | ArmCompute(w: nat)
    | ArmWrite(w: nat)
    | SaveCompute(w: nat, id: Id, window: Window, zone: Option<Zone>, enabled: bool)
    | SaveWrite(w: nat)
    | Drop(id: Id)

  predicate Due(row: Row, now: int) {
    row.enabled && row.next.Some? && row.next.value <= now
  }

  predicate Locked(s: Sys, id: Id) {
    exists w :: w in s.workers && s.workers[w].Holding? && s.workers[w].id == id
  }

  predicate Claimable(s: Sys, now: int, id: Id) {
    id in s.rows && Due(s.rows[id], now) && !Locked(s, id)
  }

  predicate Holds(s: Sys, w: nat) { w in s.workers && s.workers[w].Holding? && s.workers[w].id in s.rows }

  ghost predicate Enabled(s: Sys, step: Step) {
    match step
    case Tick(_) => true
    case Begin(w) => w in s.workers && s.workers[w].Idle?
    case Take(w, id) =>
      && w in s.workers && s.workers[w].Begun?
      && Claimable(s, s.workers[w].since, id)
      && forall other :: Claimable(s, s.workers[w].since, other) ==> s.rows[id].next.value <= s.rows[other].next.value
    case TakeNothing(w) =>
      && w in s.workers && s.workers[w].Begun?
      && forall id :: !Claimable(s, s.workers[w].since, id)
    case Compute(w) => Holds(s, w) && s.workers[w].plan.None?
    case Commit(w) => Holds(s, w) && s.workers[w].plan.Some?
    case Crash(w) => w in s.workers
    case ArmRead(w, id) =>
      && w in s.workers && s.workers[w].Idle?
      && id in s.rows && s.rows[id].enabled && s.rows[id].next.None?
    case ArmCompute(w) => w in s.workers && s.workers[w].ArmReading?
    case ArmWrite(w) => w in s.workers && s.workers[w].Armed? && !Locked(s, s.workers[w].id)
    case SaveCompute(w, id, window, zone, enabled) =>
      && w in s.workers && s.workers[w].Idle?
      && (enabled ==> NextOf(Row(window, zone, enabled, None, None), s.clock).Some?)
    case SaveWrite(w) => w in s.workers && s.workers[w].Saving? && !Locked(s, s.workers[w].id)
    case Drop(id) => !Locked(s, id)
  }

  function Apply(s: Sys, step: Step): Sys
    requires Enabled(s, step)
  {
    match step
    case Tick(elapsed) => s.(clock := s.clock + elapsed)
    case Begin(w) => s.(workers := s.workers[w := Begun(s.clock)])
    case Take(w, id) =>
      s.(workers := s.workers[w := Holding(s.workers[w].since, id, s.rows[id].next.value, None)])
    case TakeNothing(w) => s.(workers := s.workers[w := Idle])
    case Compute(w) =>
      var me := s.workers[w];
      s.(workers := s.workers[w := me.(plan := Some(Plan(s.clock, NextOf(s.rows[me.id], s.clock))))])
    case Commit(w) =>
      var me := s.workers[w];
      var row, plan := s.rows[me.id], me.plan.value;
      if plan.next.Some? then
        s.(rows := s.rows[me.id := row.(last := Some(me.since), next := plan.next)],
           workers := s.workers[w := Idle],
           claims := s.claims + [Claim(me.id, me.window, plan.at)])
      else // an uninterpretable row is parked a day ahead and not run
        s.(rows := s.rows[me.id := row.(next := Some(me.since + DAY))],
           workers := s.workers[w := Idle])
    case Crash(w) => s.(workers := s.workers[w := Idle])
    case ArmRead(w, id) => s.(workers := s.workers[w := ArmReading(id, s.rows[id])])
    case ArmCompute(w) =>
      var me := s.workers[w];
      var next := NextOf(me.row, s.clock);
      s.(workers := s.workers[w := if next.Some? then Armed(me.id, next.value) else Idle])
    case ArmWrite(w) =>
      var me := s.workers[w];
      var idle := s.(workers := s.workers[w := Idle]);
      if me.id in s.rows
      then idle.(rows := s.rows[me.id := s.rows[me.id].(next := Some(me.value))])
      else idle
    case SaveCompute(w, id, window, zone, enabled) =>
      var row := Row(window, zone, enabled, None, None);
      s.(workers := s.workers[w := Saving(id, row.(next := if enabled then NextOf(row, s.clock) else None))])
    case SaveWrite(w) =>
      var me := s.workers[w];
      var last := if me.id in s.rows then s.rows[me.id].last else None;
      s.(rows := s.rows[me.id := me.row.(last := last)], workers := s.workers[w := Idle])
    case Drop(id) => s.(rows := map other | other in s.rows && other != id :: s.rows[other])
  }

  /** Every claim of the row was made before this window. */
  predicate Clears(s: Sys, id: Id, value: int) {
    forall i :: 0 <= i < |s.claims| && s.claims[i].id == id ==> s.claims[i].at < value
  }

  /** What a write of a window computed earlier puts into which row. */
  function Written(s: Sys, step: Step): Option<(Id, int)> {
    match step
    case ArmWrite(w) =>
      if w in s.workers && s.workers[w].Armed?
        && s.workers[w].id in s.rows then Some((s.workers[w].id, s.workers[w].value)) else None
    case SaveWrite(w) =>
      if w in s.workers && s.workers[w].Saving? && s.workers[w].row.next.Some?
      then Some((s.workers[w].id, s.workers[w].row.next.value)) else None
    case _ => None
  }

  /** The step does not write a window at or before a claim of the row. */
  predicate Clear(s: Sys, step: Step) {
    Written(s, step).Some? ==> Clears(s, Written(s, step).value.0, Written(s, step).value.1)
  }

  /** The write lands before the window it writes has come due. */
  predicate Timely(s: Sys, step: Step) { Written(s, step).Some? ==> s.clock < Written(s, step).value.1 }

  ghost predicate Run(s: Sys, steps: seq<Step>, clear: bool, end: Sys)
    decreases |steps|
  {
    if steps == [] then s == end
    else Enabled(s, steps[0]) && (clear ==> Clear(s, steps[0])) && Run(Apply(s, steps[0]), steps[1..], clear, end)
  }

  ghost predicate Start(s: Sys) {
    s.claims == [] && forall w :: w in s.workers ==> s.workers[w].Idle?
  }

  // ------------------------------------------------------------- invariant

  predicate PlanFits(plan: Plan, since: int, now: int) {
    since <= plan.at <= now && (plan.next.Some? ==> plan.at < plan.next.value)
  }

  ghost predicate LocksHeld(s: Sys) {
    && (forall w :: w in s.workers && s.workers[w].Begun? ==> s.workers[w].since <= s.clock)
    && (forall w :: w in s.workers && s.workers[w].Holding? ==>
          && s.workers[w].id in s.rows
          && s.rows[s.workers[w].id].next == Some(s.workers[w].window)
          && s.workers[w].window <= s.workers[w].since <= s.clock
          && (s.workers[w].plan.Some? ==> PlanFits(s.workers[w].plan.value, s.workers[w].since, s.clock)))
    && (forall v, w :: v in s.workers && w in s.workers && v != w && s.workers[v].Holding? && s.workers[w].Holding?
          ==> s.workers[v].id != s.workers[w].id)
  }

  ghost predicate ClaimsOrdered(s: Sys) {
    && (forall i :: 0 <= i < |s.claims| ==> s.claims[i].window <= s.claims[i].at <= s.clock)
    && (forall i, j :: 0 <= i < j < |s.claims| && s.claims[i].id == s.claims[j].id
          ==> s.claims[i].at < s.claims[j].window)
  }

  /** The window a row is armed for lies after every claim of that row. */
  ghost predicate ArmedAhead(s: Sys) {
    forall id, i :: id in s.rows && s.rows[id].next.Some? && 0 <= i < |s.claims| && s.claims[i].id == id
      ==> s.claims[i].at < s.rows[id].next.value
  }

  ghost predicate Inv(s: Sys) {
    LocksHeld(s) && ClaimsOrdered(s) && ArmedAhead(s)
  }

  lemma NextOfIsLater(row: Row, now: int)
    ensures NextOf(row, now).Some? ==> NextOf(row, now).value > now
  {
    if row.zone.Some? {
      var _ := FirstDueIsFirst(row.zone.value, row.window, now, LocalDay(row.zone.value, now), 0);
    }
  }

  lemma StepKeepsLocks(s: Sys, step: Step)
    requires LocksHeld(s) && Enabled(s, step)
    ensures LocksHeld(Apply(s, step))
  {
    if step.Compute? { ComputeKeepsLocks(s, step.w); } else if step.Take? { TakeKeepsLocks(s, step.w, step.id); }
  }

  lemma TakeKeepsLocks(s: Sys, w: nat, id: Id)
    requires LocksHeld(s) && Enabled(s, Take(w, id))
    ensures LocksHeld(Apply(s, Take(w, id)))
  {
    var t := Apply(s, Take(w, id));
    forall v | v in t.workers && t.workers[v].Holding? && v != w ensures t.workers[v].id != id {
      assert s.workers[v] == t.workers[v];
    }
  }

  lemma ComputeKeepsLocks(s: Sys, w: nat)
    requires LocksHeld(s) && Enabled(s, Compute(w))
    ensures LocksHeld(Apply(s, Compute(w)))
  {
    NextOfIsLater(s.rows[s.workers[w].id], s.clock);
  }

  lemma StepKeepsOrder(s: Sys, step: Step)
    requires Inv(s) && Enabled(s, step)
    ensures ClaimsOrdered(Apply(s, step))
  {
    if step.Commit? {
      assert s.rows[s.workers[step.w].id].next == Some(s.workers[step.w].window);
    }
  }

  lemma ClaimKeepsAhead(s: Sys, w: nat)
    requires Inv(s) && Enabled(s, Commit(w))
    ensures ArmedAhead(Apply(s, Commit(w)))
  {
    assert s.rows[s.workers[w].id].next == Some(s.workers[w].window);
  }

  /** A step leaves every armed window after the claims of its row exactly when it is clear. */
  lemma StepKeepsAhead(s: Sys, step: Step)
    requires Inv(s) && Enabled(s, step)
    ensures ArmedAhead(Apply(s, step)) <==> Clear(s, step)
  {
    match step
    case Commit(w) => ClaimKeepsAhead(s, w);
    case ArmWrite(w) => WriteKeepsAhead(s, step);
    case SaveWrite(w) => WriteKeepsAhead(s, step);
    case _ =>
  }

  lemma WriteKeepsAhead(s: Sys, step: Step)
    requires Inv(s) && Enabled(s, step) && (step.ArmWrite? || step.SaveWrite?)
    ensures ArmedAhead(Apply(s, step)) <==> Clear(s, step)
  {
    var t, id := Apply(s, step), s.workers[step.w].id;
    assert t.claims == s.claims && forall other :: other in t.rows && other != id ==>
      other in s.rows && t.rows[other] == s.rows[other];
    if Written(s, step).Some? { assert id in t.rows && t.rows[id].next == Some(Written(s, step).value.1); }
  }

  /** A write that lands before the window it writes comes due is clear: what a caller can check at the write. */
  lemma TimelyIsClear(s: Sys, step: Step)
    requires Inv(s) && Timely(s, step)
    ensures Clear(s, step)
  {
  }

  lemma StepKeepsInv(s: Sys, step: Step)
    requires Inv(s) && Enabled(s, step) && Clear(s, step)
    ensures Inv(Apply(s, step))
  {
    StepKeepsLocks(s, step);
    StepKeepsOrder(s, step);
    StepKeepsAhead(s, step);
  }

  lemma {:induction false} RunKeepsInv(s: Sys, steps: seq<Step>, end: Sys)
    requires Inv(s) && Run(s, steps, true, end)
    ensures Inv(end)
    decreases |steps|
  {
    if steps != [] {
      StepKeepsInv(s, steps[0]);
      RunKeepsInv(Apply(s, steps[0]), steps[1..], end);
    }
  }

  /**
   * What a claim writes: the moment of its BEGIN as the last run and the next window after the clock it read; a
   * row it cannot interpret is put off by a day and not claimed.
   */
  lemma ClaimWrites(s: Sys, w: nat, id: Id)
    requires Enabled(s, Commit(w)) && id in s.rows
    ensures var t, me, row := Apply(s, Commit(w)), s.workers[w], s.rows[id];
      && id in t.rows
      && (id != me.id ==> t.rows[id] == row)
      && (id == me.id && me.plan.value.next.Some? ==>
            t.rows[id] == Row(row.window, row.zone, row.enabled, Some(me.since), me.plan.value.next)
            && t.claims == s.claims + [Claim(id, me.window, me.plan.value.at)])
      && (id == me.id && me.plan.value.next.None? ==>
            t.rows[id] == Row(row.window, row.zone, row.enabled, row.last, Some(me.since + 24 * 60 * 60 * 1000))
            && t.claims == s.claims)
  {
  }

  /** What it takes: an enabled row, locked by nobody, due by the clock of its BEGIN, and none of those due earlier. */
  lemma TakesEarliestDue(s: Sys, w: nat, id: Id, other: Id)
    requires Enabled(s, Take(w, id)) && other in s.rows && s.rows[other].enabled && s.rows[other].next.Some?
    ensures id in s.rows && s.rows[id].enabled && s.rows[id].next.Some?
      && s.rows[id].next.value <= s.workers[w].since
    ensures forall v :: v in s.workers && s.workers[v].Holding? ==> s.workers[v].id != id
    ensures s.rows[other].next.value < s.rows[id].next.value ==>
      exists v :: v in s.workers && s.workers[v].Holding? && s.workers[v].id == other
  {
  }

  // --------------------------------------------------------------- theorems

  /** Every armed window lies after the claims of its row, in every state of the run. */
  ghost predicate AlwaysAhead(s: Sys, steps: seq<Step>)
    decreases |steps|
  {
    ArmedAhead(s) && (steps != [] && Enabled(s, steps[0]) ==> AlwaysAhead(Apply(s, steps[0]), steps[1..]))
  }

  /** A run arms only windows after the claims of their rows exactly when all its writes are clear. */
  lemma {:induction false} AheadExactly(s: Sys, steps: seq<Step>, end: Sys)
    requires Inv(s) && Run(s, steps, false, end)
    ensures AlwaysAhead(s, steps) <==> Run(s, steps, true, end)
    decreases |steps|
  {
    if steps != [] {
      var t := Apply(s, steps[0]);
      StepKeepsAhead(s, steps[0]);
      if Clear(s, steps[0]) {
        StepKeepsInv(s, steps[0]);
        AheadExactly(t, steps[1..], end);
      } else {
        assert !AlwaysAhead(t, steps[1..]);
      }
    }
  }

  /**
   * Whatever the interleaving and wherever workers die, while writes are clear: no window
   * of a row is claimed twice, and all windows missed up to a claim collapse into it - the
   * row's next claim is for a window after the moment of the earlier one.
   */
  lemma EachWindowOnce(s: Sys, steps: seq<Step>, end: Sys)
    requires Start(s) && Run(s, steps, true, end)
    ensures forall i, j :: 0 <= i < j < |end.claims| && end.claims[i].id == end.claims[j].id ==>
      end.claims[i].window <= end.claims[i].at < end.claims[j].window
  {
    RunKeepsInv(s, steps, end);
  }

  /**
   * After a write that is not clear, the row's window is due at once, and claiming it takes one up to an
   * earlier claim again.
   */
  lemma UnclearWriteRunsAgain(s: Sys, step: Step, v: nat, t: Sys) returns (end: Sys, i: nat)
    requires Inv(s) && Enabled(s, step) && !Clear(s, step) && t == Apply(s, step)
    requires v in t.workers && t.workers[v].Idle? && ClaimsNext(t, v, Written(s, step).value.0)
    ensures Run(t, [Begin(v), Take(v, Written(s, step).value.0), Compute(v), Commit(v)], false, end)
    ensures |end.claims| == |s.claims| + 1 && i < |s.claims| && end.claims[i] == s.claims[i]
    ensures end.claims[|s.claims|].id == end.claims[i].id && end.claims[|s.claims|].window <= end.claims[i].at
  {
    var id, value := Written(s, step).value.0, Written(s, step).value.1;
    i :| 0 <= i < |s.claims| && s.claims[i].id == id && s.claims[i].at >= value;
    assert t.rows[id].next == Some(value);
    end := t.(rows := t.rows[id := t.rows[id].(last := Some(t.clock), next := NextOf(t.rows[id], t.clock))],
              claims := t.claims + [Claim(id, value, t.clock)]);
    ClaimCycle(t, v, id, end);
  }

  /** A worker that dies before its COMMIT loses nothing: the row is as it was, and claimable again. */
  lemma CrashReleasesWindow(s: Sys, w: nat)
    requires Inv(s) && w in s.workers && s.workers[w].Holding? && s.rows[s.workers[w].id].enabled
    ensures var t := Apply(s, Crash(w));
      t.rows == s.rows && t.claims == s.claims && Claimable(t, s.clock, s.workers[w].id)
  {
    var t := Apply(s, Crash(w));
    forall v | v in t.workers && t.workers[v].Holding? ensures t.workers[v].id != s.workers[w].id {
      assert v != w;
    }
  }

  /**
   * What a worker has in hand when the window it read has passed: one writing the old window back over
   * one claimed since.
   */
  lemma WriteBackRunsTwice(due: Sys, row: Row, write: Step) returns (steps: seq<Step>, end: Sys)
    requires row.enabled && row.last.None? && NextOf(row.(next := Some(DAY)), DAY).Some?
    requires due.clock == DAY && due.rows == map[7 := row.(next := Some(DAY))] && due.claims == []
    requires due.workers.Keys == {1, 2} && due.workers[2] == Idle
    requires (due.workers[1] == Armed(7, DAY) && write == ArmWrite(1))
      || (due.workers[1] == Saving(7, row.(next := Some(DAY))) && write == SaveWrite(1))
    ensures Run(due, steps, false, end) && end.claims == [Claim(7, DAY, DAY), Claim(7, DAY, DAY)]
    ensures forall step :: step in steps ==> step == write || step in [Begin(2), Take(2, 7), Compute(2), Commit(2)]
  {
    var armed := row.(next := Some(DAY));
    var after := armed.(last := Some(DAY), next := NextOf(armed, DAY));
    var once := Claim(7, DAY, DAY);
    var served := due.(rows := map[7 := after], claims := [once]);
    var restored := Sys(DAY, map[7 := after.(next := Some(DAY))], map[1 := Idle, 2 := Idle], [once]);
    end := restored.(rows := map[7 := after], claims := [once, once]);
    ClaimCycle(due, 2, 7, served);
    assert served.workers[1 := Idle] == map[1 := Idle, 2 := Idle];
    OneStep(served, write, restored);
    ClaimCycle(restored, 2, 7, end);
    var claim := [Begin(2), Take(2, 7), Compute(2), Commit(2)];
    RunAppend(due, claim, served, [write], restored);
    RunAppend(due, claim + [write], restored, claim, end);
    steps := claim + [write] + claim;
  }

  /**
   * The arming UPDATE does not re-check that next_run_at is still NULL. Written
   * late, it restores a window that has already been claimed.
   */
  lemma LateArmRunsTwice() returns (s: Sys, steps: seq<Step>, end: Sys)
    ensures Start(s) && Run(s, steps, false, end)
    ensures |end.claims| == 2 && end.claims[0].id == end.claims[1].id && end.claims[0].window == end.claims[1].window
  {
    var row := Midnight();
    s := Sys(0, map[7 := row], map[1 := Idle, 2 := Idle], []);
    var due := Sys(DAY, map[7 := row.(next := Some(DAY))], map[1 := Armed(7, DAY), 2 := Idle], []);
    StallBehindSave(s, row, due);
    var rest;
    rest, end := WriteBackRunsTwice(due, row, ArmWrite(1));
    RunAppend(s, StallSteps(row), due, rest, end);
    steps := StallSteps(row) + rest;
  }

  /** A daily schedule at midnight in UTC, not armed. */
  lemma Midnight() returns (row: Row)
    ensures row.enabled && row.next.None? && row.last.None?
    ensures NextOf(row, 0) == Some(DAY) && NextOf(row.(next := Some(DAY)), DAY).Some?
  {
    var utc: Zone := t => 0;
    var midnight := Window(0, 0, None);
    MidnightInUtc(utc, midnight, 0);
    MidnightInUtc(utc, midnight, 1);
    row := Row(midnight, Some(utc), true, None, None);
  }

  function StallSteps(row: Row): seq<Step> {
    ([ArmRead(1, 7)] + [ArmCompute(1)]) + ([SaveCompute(2, 7, row.window, row.zone, true)] + [SaveWrite(2)]
      + [Tick(DAY)])
  }

  /** Worker 1 computes the window and stalls; the operator saves the schedule, arming it; it comes due. */
  lemma StallBehindSave(s: Sys, row: Row, due: Sys)
    requires row.enabled && row.next.None? && row.last.None? && NextOf(row, 0) == Some(DAY)
    requires s == Sys(0, map[7 := row], map[1 := Idle, 2 := Idle], [])
    requires due == Sys(DAY, map[7 := row.(next := Some(DAY))], map[1 := Armed(7, DAY), 2 := Idle], [])
    ensures Run(s, StallSteps(row), false, due)
  {
    var reading := s.(workers := map[1 := ArmReading(7, row), 2 := Idle]);
    var stalled := s.(workers := map[1 := Armed(7, DAY), 2 := Idle]);
    OneStep(s, ArmRead(1, 7), reading);
    OneStep(reading, ArmCompute(1), stalled);
    RunAppend(s, [ArmRead(1, 7)], reading, [ArmCompute(1)], stalled);
    SavedMeanwhile(stalled, row, due);
    RunAppend(s, [ArmRead(1, 7)] + [ArmCompute(1)], stalled,
              [SaveCompute(2, 7, row.window, row.zone, true)] + [SaveWrite(2)] + [Tick(DAY)], due);
  }

  lemma SavedMeanwhile(stalled: Sys, row: Row, due: Sys)
    requires row.enabled && row.next.None? && row.last.None? && NextOf(row, 0) == Some(DAY)
    requires stalled == Sys(0, map[7 := row], map[1 := Armed(7, DAY), 2 := Idle], [])
    requires due == Sys(DAY, map[7 := row.(next := Some(DAY))], map[1 := Armed(7, DAY), 2 := Idle], [])
    ensures Run(stalled, [SaveCompute(2, 7, row.window, row.zone, true)] + [SaveWrite(2)] + [Tick(DAY)], false, due)
  {
    var armed, compute := row.(next := Some(DAY)), SaveCompute(2, 7, row.window, row.zone, true);
    var saving := stalled.(workers := map[1 := Armed(7, DAY), 2 := Saving(7, armed)]);
    var saved := stalled.(rows := map[7 := armed]);
    assert row == Row(row.window, row.zone, true, None, None);
    OneStep(stalled, compute, saving);
    OneStep(saving, SaveWrite(2), saved);
    OneStep(saved, Tick(DAY), due);
    RunAppend(stalled, [compute], saving, [SaveWrite(2)], saved);
    RunAppend(stalled, [compute] + [SaveWrite(2)], saved, [Tick(DAY)], due);
  }

  /**
   * replaceSchedules takes the time before its transaction. Written late, its upsert
   * restores a window that has been claimed since, with no arming write in the run.
   */
  lemma LateSaveRunsTwice() returns (s: Sys, steps: seq<Step>, end: Sys)
    ensures Start(s) && Run(s, steps, false, end) && (forall step :: step in steps ==> !step.ArmWrite?)
    ensures |end.claims| == 2 && end.claims[0].id == end.claims[1].id && end.claims[0].window == end.claims[1].window
  {
    var row := Midnight();
    var armed := row.(next := Some(DAY));
    s := Sys(0, map[7 := armed], map[1 := Idle, 2 := Idle], []);
    var due := Sys(DAY, map[7 := armed], map[1 := Saving(7, armed), 2 := Idle], []);
    var compute := SaveCompute(1, 7, row.window, row.zone, true);
    SaveStalls(s, row, due);
    var rest;
    rest, end := WriteBackRunsTwice(due, row, SaveWrite(1));
    RunAppend(s, [compute] + [Tick(DAY)], due, rest, end);
    steps := [compute] + [Tick(DAY)] + rest;
  }

  /** The save takes the time and computes its row; before it is written, the window comes due. */
  lemma SaveStalls(s: Sys, row: Row, due: Sys)
    requires row.enabled && row.next.None? && row.last.None? && NextOf(row, 0) == Some(DAY)
    requires s == Sys(0, map[7 := row.(next := Some(DAY))], map[1 := Idle, 2 := Idle], [])
    requires due == Sys(DAY, s.rows, map[1 := Saving(7, row.(next := Some(DAY))), 2 := Idle], [])
    ensures Run(s, [SaveCompute(1, 7, row.window, row.zone, true)] + [Tick(DAY)], false, due)
  {
    var saving, compute := due.(clock := 0), SaveCompute(1, 7, row.window, row.zone, true);
    assert row == Row(row.window, row.zone, true, None, None);
    OneStep(s, compute, saving);
    OneStep(saving, Tick(DAY), due);
    RunAppend(s, [compute], saving, [Tick(DAY)], due);
  }

  lemma OneStep(s: Sys, step: Step, end: Sys)
    requires Enabled(s, step) && Apply(s, step) == end
    ensures Run(s, [step], false, end)
  {
    assert [step][1..] == [];
  }

  /** A worker that begins now takes this row next, and can interpret it. */
  ghost predicate ClaimsNext(s: Sys, w: nat, id: Id) {
    && Claimable(s, s.clock, id) && NextOf(s.rows[id], s.clock).Some?
    && forall other :: Claimable(s, s.clock, other) ==> s.rows[id].next.value <= s.rows[other].next.value
  }

  lemma BeginLocksNothing(s: Sys, w: nat, id: Id)
    requires w in s.workers && s.workers[w].Idle?
    ensures Locked(Apply(s, Begin(w)), id) <==> Locked(s, id)
  {
    var t := Apply(s, Begin(w));
    if v :| v in s.workers && s.workers[v].Holding? && s.workers[v].id == id {
      assert v in t.workers && t.workers[v] == s.workers[v];
    }
  }

  lemma ClaimCycle(s: Sys, w: nat, id: Id, end: Sys)
    requires w in s.workers && s.workers[w].Idle? && ClaimsNext(s, w, id)
    requires end == s.(rows := s.rows[id := s.rows[id].(last := Some(s.clock), next := NextOf(s.rows[id], s.clock))],
                       claims := s.claims + [Claim(id, s.rows[id].next.value, s.clock)])
    ensures Run(s, [Begin(w), Take(w, id), Compute(w), Commit(w)], false, end)
  {
    var begun := Apply(s, Begin(w));
    OneStep(s, Begin(w), begun);
    forall other ensures Claimable(begun, s.clock, other) <==> Claimable(s, s.clock, other) {
      BeginLocksNothing(s, w, other);
    }
    var held := Apply(begun, Take(w, id));
    OneStep(begun, Take(w, id), held);
    RunAppend(s, [Begin(w)], begun, [Take(w, id)], held);
    ClaimEnds(s, held, w, id, end);
    RunAppend(s, [Begin(w)] + [Take(w, id)], held, [Compute(w)] + [Commit(w)], end);
    assert [Begin(w)] + [Take(w, id)] + ([Compute(w)] + [Commit(w)]) == [Begin(w), Take(w, id), Compute(w), Commit(w)];
  }

  lemma ClaimEnds(s: Sys, held: Sys, w: nat, id: Id, end: Sys)
    requires w in s.workers && s.workers[w].Idle? && ClaimsNext(s, w, id)
    requires held == s.(workers := s.workers[w := Holding(s.clock, id, s.rows[id].next.value, None)])
    requires end == s.(rows := s.rows[id := s.rows[id].(last := Some(s.clock), next := NextOf(s.rows[id], s.clock))],
                       claims := s.claims + [Claim(id, s.rows[id].next.value, s.clock)])
    ensures Run(held, [Compute(w)] + [Commit(w)], false, end)
  {
    var planned := Apply(held, Compute(w));
    OneStep(held, Compute(w), planned);
    assert planned.workers[w := Idle] == s.workers;
    OneStep(planned, Commit(w), end);
    RunAppend(held, [Compute(w)], planned, [Commit(w)], end);
  }

  lemma MidnightInUtc(utc: Zone, midnight: Window, day: nat)
    requires utc == (t => 0) && midnight == Window(0, 0, None)
    ensures NextRun(utc, midnight, day * DAY) == Some((day + 1) * DAY)
  {
    assert LocalDay(utc, day * DAY) == day;
    assert DueOn(utc, midnight, day) == day * DAY && DueOn(utc, midnight, day + 1) == (day + 1) * DAY;
    assert !Fires(utc, midnight, day * DAY, day + 0) && Fires(utc, midnight, day * DAY, day + 1);
  }

  lemma {:induction false} RunAppend(s: Sys, first: seq<Step>, mid: Sys, second: seq<Step>, end: Sys)
    requires Run(s, first, false, mid) && Run(mid, second, false, end)
    ensures Run(s, first + second, false, end)
    decreases |first|
  {
    if first == [] {
      assert first + second == second;
    } else {
      RunAppend(Apply(s, first[0]), first[1..], mid, second, end);
      assert (first + second)[1..] == first[1..] + second;
    }
  }
}
