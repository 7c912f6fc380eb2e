/** One poll cycle of the outbox worker as the program it is (src/webhooks.ts). */
module OutboxProgram {
  // Loops over rows, updating three tables and a re-entrancy flag. Each method is proved
  // to perform a run of the steps of module Outbox, so what holds on every run holds here.

  import opened Wrappers
  import opened Outbox

  /** The worker's own calls, and time passing during them. */
  predicate Own(step: Step) {
    match step
    case ListEvents(_) | ReadEndpoints(_) | Dispatch | ListDue(_) | ReadEndpoint => true
    case Call(_) | WriteOutcome(_, _) | WriteBreaker(_) | Finish | Elapse(_) => true
    case _ => false
  }

  predicate AllOwn(steps: seq<Step>) { forall i :: 0 <= i < |steps| ==> Own(steps[i]) }

  lemma {:induction false} RunThen(c: Config, s: Sys, steps: seq<Step>, mid: Sys, step: Step)
    requires Run(c, s, steps, true, mid) && Enabled(mid, step) && Clean(mid, step)
    ensures Run(c, s, steps + [step], true, Apply(c, mid, step))
    decreases |steps|
  {
    if steps == [] {
      assert steps + [step] == [step] && [step][1..] == [];
    } else {
      RunThen(c, Apply(c, s, steps[0]), steps[1..], mid, step);
      assert (steps + [step])[1..] == steps[1..] + [step];
    }
  }

  lemma TwoSteps(c: Config, s: Sys, steps: seq<Step>, mid: Sys, a: Step, b: Step)
    requires Fresh(mid) && Run(c, s, steps, true, mid)
    requires Enabled(mid, a) && Clean(mid, a) && Enabled(Apply(c, mid, a), b) && Clean(Apply(c, mid, a), b)
    ensures Run(c, s, steps + [a] + [b], true, Apply(c, Apply(c, mid, a), b))
    ensures Fresh(Apply(c, Apply(c, mid, a), b))
  {
    RunThen(c, s, steps, mid, a);
    StepKeepsFresh(c, mid, a);
    RunThen(c, s, steps + [a], Apply(c, mid, a), b);
    StepKeepsFresh(c, Apply(c, mid, a), b);
  }

  lemma {:induction false} RunJoin(c: Config, s: Sys, first: seq<Step>, mid: Sys, second: seq<Step>, end: Sys)
    requires Run(c, s, first, true, mid) && Run(c, mid, second, true, end)
    ensures Run(c, s, first + second, true, end)
    decreases |first|
  {
    if first == [] {
      assert first + second == second;
    } else {
      RunJoin(c, Apply(c, s, first[0]), first[1..], mid, second, end);
      assert (first + second)[1..] == first[1..] + second;
    }
  }

  lemma {:induction false} LeastExists(ids: set<Id>, key: Id -> int)
    requires ids != {}
    ensures exists m :: m in ids && forall x :: x in ids ==> key(m) <= key(x)
    decreases |ids|
  {
    var any :| any in ids;
    if ids != {any} {
      LeastExists(ids - {any}, key);
      var m :| m in ids - {any} && forall x :: x in ids - {any} ==> key(m) <= key(x);
      assert forall x :: x in ids ==> x == any || x in ids - {any};
      assert key(any) <= key(m) || key(m) <= key(any);
    } else {
      assert forall x :: x in ids ==> x == any;
    }
  }

  /** ORDER BY key LIMIT n over a set of rows. */
  method SelectOrdered(ids: set<Id>, key: Id -> int, limit: nat) returns (batch: seq<Id>)
    ensures |batch| <= limit && Distinct(batch)
    ensures forall i :: 0 <= i < |batch| ==> batch[i] in ids
    ensures forall i, j :: 0 <= i < j < |batch| ==> key(batch[i]) <= key(batch[j])
    ensures forall id :: id in ids && id !in batch ==> |batch| == limit
    ensures forall id, i :: id in ids && id !in batch && 0 <= i < |batch| ==> key(batch[i]) <= key(id)
  {
    batch := [];
    var left := ids;
    while left != {} && |batch| < limit
      invariant |batch| <= limit && Distinct(batch)
      invariant left <= ids
      invariant forall id :: id in ids ==> (id in left <==> id !in batch)
      invariant forall i :: 0 <= i < |batch| ==> batch[i] in ids
      invariant forall i, j :: 0 <= i < j < |batch| ==> key(batch[i]) <= key(batch[j])
      invariant forall id, i :: id in left && 0 <= i < |batch| ==> key(batch[i]) <= key(id)
      decreases left
    {
      LeastExists(left, key);
      var m :| m in left && forall x :: x in left ==> key(m) <= key(x);
      batch := batch + [m];
      left := left - {m};
    }
  }

  predicate AllDispatched(events: map<Id, Event>, ids: seq<Id>) {
    forall k :: 0 <= k < |ids| ==> ids[k] in events && events[ids[k]].dispatched
  }

  class OutboxWorker {
    const config: Config
    var events: map<Id, Event>
    var endpoints: map<Id, Endpoint>
    var deliveries: seq<Delivery>
    var clock: int
    var running: bool
    ghost var worker: Worker
    ghost var log: seq<Entry>
    ghost var fanned: map<Id, set<Id>>

    ghost function State(): Sys
      reads this
    {
      Sys(Db(events, endpoints, deliveries), clock, worker, log, fanned)
    }

    constructor (config: Config)
      ensures this.config == config && !running && Start(State())
    {
      this.config := config;
      events, endpoints, deliveries := map[], map[], [];
      clock, running := 0, false;
      worker, log, fanned := Idle, [], map[];
    }

    method SelectUndispatched() returns (batch: seq<Id>)
      ensures EventBatch(Db(events, endpoints, deliveries), batch)
    {
      var pending := set id | id in events && !events[id].dispatched;
      batch := SelectOrdered(pending, id => id, EVENT_BATCH);
    }

    method SelectMatching(event: Event) returns (order: seq<Id>)
      ensures Distinct(order)
      ensures forall id :: id in order <==> id in endpoints && Wants(endpoints[id], event)
    {
      var matching := set id | id in endpoints && Wants(endpoints[id], event);
      order := SelectOrdered(matching, id => id, |matching|);
      DistinctCovers(order, matching);
    }

    method SelectDue() returns (batch: seq<Id>)
      ensures DueBatch(Db(events, endpoints, deliveries), clock, batch)
    {
      var rows := deliveries;
      var due := set id: Id | id < |rows| && IsDue(rows[id], clock);
      var key := (id: Id) => if 0 <= id < |rows| then rows[id].due else 0;
      batch := SelectOrdered(due, key, DELIVERY_BATCH);
      assert forall i :: 0 <= i < |batch| ==> batch[i] in due && key(batch[i]) == rows[batch[i]].due;
    }

    /** One delivery row per matching endpoint, then the event's mark, in one transaction. */
    method FanOut(id: Id, rest: seq<Id>) returns (ghost order: seq<Id>)
      requires worker == FanList([id] + rest) && Fresh(State())
      modifies this
      ensures Run(config, old(State()), [] + [ReadEndpoints(order)] + [Dispatch], true, State())
      ensures Fresh(State()) && running == old(running) && worker == FanList(rest)
      ensures id in events && events == old(events)[id := events[id]] && events[id].dispatched
    {
      ghost var s0 := State();
      assert ([id] + rest)[0] == id && ([id] + rest)[1..] == rest;
      var matching := SelectMatching(events[id]);
      order := matching;
      var table, now := endpoints, clock;
      assert forall k :: 0 <= k < |matching| ==> matching[k] in order;
      var rows := seq(|matching|, k requires 0 <= k < |matching| && matching[k] in table =>
        (matching[k], Later(table[matching[k]].disabledUntil, now)));
      assert Enabled(s0, ReadEndpoints(order));
      assert rows == Apply(config, s0, ReadEndpoints(order)).worker.rows;
      worker := FanRows(id, rows, rest);
      assert State() == Apply(config, s0, ReadEndpoints(order));
      ghost var s1 := State();
      deliveries := deliveries + NewRows(id, rows);
      events := events[id := events[id].(dispatched := true)];
      fanned := fanned[id := set k | 0 <= k < |rows| :: rows[k].0];
      worker := FanList(rest);
      assert State() == Apply(config, s1, Dispatch);
      TwoSteps(config, s0, [], s0, ReadEndpoints(order), Dispatch);
    }

    method FanOutPending() returns (ghost steps: seq<Step>)
      requires ValidConfig(config) && worker.Idle?
      modifies this
      ensures Run(config, old(State()), steps, true, State()) && worker == FanList([])
      ensures AllOwn(steps) && steps != [] && steps[0].ListEvents?
      ensures AllDispatched(events, steps[0].batch)
      ensures Fresh(State()) && running == old(running)
    {
      var batch := SelectUndispatched();
      ghost var s0 := State();
      RunThen(config, s0, [], s0, ListEvents(batch));
      StepKeepsFresh(config, s0, ListEvents(batch));
      worker := FanList(batch);
      ghost var s1 := State();
      assert s1 == Apply(config, s0, ListEvents(batch));
      ghost var more := FanOutEach(batch);
      RunJoin(config, s0, [] + [ListEvents(batch)], s1, more, State());
      steps := [] + [ListEvents(batch)] + more;
    }

    method FanOutEach(batch: seq<Id>) returns (ghost steps: seq<Step>)
      requires ValidConfig(config) && worker == FanList(batch) && Fresh(State())
      modifies this
      ensures Run(config, old(State()), steps, true, State()) && worker == FanList([])
      ensures AllOwn(steps) && AllDispatched(events, batch)
      ensures Fresh(State()) && running == old(running)
    {
      ghost var s0 := State();
      steps := [];
      for i := 0 to |batch|
        invariant worker == FanList(batch[i..]) && Fresh(State()) && running == old(running)
        invariant Run(config, s0, steps, true, State()) && AllOwn(steps)
        invariant AllDispatched(events, batch[..i])
      {
        assert batch[i..] == [batch[i]] + batch[i + 1..] && batch[..i + 1] == batch[..i] + [batch[i]];
        ghost var s1 := State();
        ghost var order := FanOut(batch[i], batch[i + 1..]);
        RunJoin(config, s0, steps, s1, [] + [ReadEndpoints(order)] + [Dispatch], State());
        steps := steps + ([] + [ReadEndpoints(order)] + [Dispatch]);
      }
      assert batch[|batch|..] == [] && batch[..|batch|] == batch;
    }

    /** deliver: mark dead, defer, or send once and record what came back. */
    method Deliver(due: seq<Id>, answer: bool, latency: nat, delay: nat) returns (ghost steps: seq<Step>)
      requires ValidConfig(config) && due != [] && worker == DueList(due) && Fresh(State()) && due[0] < |deliveries|
      requires DelayOk(deliveries[due[0]].attempt + 1, delay)
      modifies this
      ensures Run(config, old(State()), steps, true, State()) && worker == DueList(due[1..])
      ensures AllOwn(steps) && steps != [] && steps[0].ReadEndpoint?
      ensures Fresh(State()) && running == old(running)
    {
      var id, rest := due[0], due[1..];
      ghost var s0 := State();
      RunThen(config, s0, [], s0, ReadEndpoint);
      StepKeepsFresh(config, s0, ReadEndpoint);
      steps := [] + [ReadEndpoint];
      var row := deliveries[id];
      if row.endpoint !in endpoints || !endpoints[row.endpoint].active {
        deliveries := deliveries[id := row.(status := Dead)];
        worker := DueList(rest);
        return;
      }
      var endpoint := endpoints[row.endpoint];
      if endpoint.disabledUntil > clock {
        deliveries := deliveries[id := row.(due := endpoint.disabledUntil)];
        worker := DueList(rest);
        return;
      }
      if row.event !in events {
        deliveries := deliveries[id := row.(status := Dead)];
        worker := DueList(rest);
        return;
      }
      worker := Checked(id, row, endpoint, rest);
      ghost var s1 := State();
      assert s1 == Apply(config, s0, ReadEndpoint);
      ghost var more := Send(id, row, endpoint, rest, answer, latency, delay);
      RunJoin(config, s0, steps, s1, more, State());
      steps := steps + more;
    }

    /** The HTTP call, the status write and the breaker's write. */
    method Send(id: Id, row: Delivery, endpoint: Endpoint, rest: seq<Id>, answer: bool, latency: nat, delay: nat)
      returns (ghost steps: seq<Step>)
      requires ValidConfig(config) && worker == Checked(id, row, endpoint, rest) && Fresh(State())
      requires DelayOk(row.attempt + 1, delay)
      modifies this
      ensures Run(config, old(State()), steps, true, State()) && worker == DueList(rest)
      ensures steps == [Elapse(latency), Call(answer), WriteOutcome(delay, Kept), WriteBreaker(false)]
      ensures Fresh(State()) && running == old(running)
    {
      ghost var s0 := State();
      ghost var first := [] + [Elapse(latency)] + [Call(answer)];
      HttpCall(id, row, endpoint, rest, answer, latency);
      ghost var s2 := State();
      Settle(id, row, endpoint, rest, answer, delay);
      TwoSteps(config, s0, first, s2, WriteOutcome(delay, Kept), WriteBreaker(false));
      steps := first + [WriteOutcome(delay, Kept)] + [WriteBreaker(false)];
    }

    method Settle(id: Id, row: Delivery, endpoint: Endpoint, rest: seq<Id>, answer: bool, delay: nat)
      requires worker == Answered(id, row, endpoint, answer, rest) && Fresh(State())
      requires Enabled(State(), WriteOutcome(delay, Kept))
      modifies this
      ensures State() == Apply(config, Apply(config, old(State()), WriteOutcome(delay, Kept)), WriteBreaker(false))
      ensures worker == DueList(rest) && running == old(running)
    {
      if answer {
        OnSuccess(id, row, endpoint, rest, delay);
      } else {
        OnFailure(id, row, endpoint, rest, delay);
      }
    }

    method HttpCall(id: Id, row: Delivery, endpoint: Endpoint, rest: seq<Id>, answer: bool, latency: nat)
      requires ValidConfig(config) && worker == Checked(id, row, endpoint, rest) && Fresh(State())
      modifies this`clock, this`worker, this`log
      ensures Run(config, old(State()), [] + [Elapse(latency)] + [Call(answer)], true, State())
      ensures worker == Answered(id, row, endpoint, answer, rest) && Fresh(State())
    {
      ghost var s0 := State();
      clock := clock + latency;
      worker, log := Answered(id, row, endpoint, answer, rest), log + [Attempt(row.endpoint, id, clock, answer)];
      assert State() == Apply(config, Apply(config, s0, Elapse(latency)), Call(answer));
      TwoSteps(config, s0, [], s0, Elapse(latency), Call(answer));
    }

    method OnSuccess(id: Id, row: Delivery, endpoint: Endpoint, rest: seq<Id>, ghost delay: nat)
      requires worker == Answered(id, row, endpoint, true, rest) && Fresh(State())
      requires Enabled(State(), WriteOutcome(delay, Kept))
      modifies this
      ensures State() == Apply(config, Apply(config, old(State()), WriteOutcome(delay, Kept)), WriteBreaker(false))
      ensures running == old(running)
      ensures deliveries == old(deliveries)[id := row.(status := Delivered, attempt := row.attempt + 1)]
    {
      ghost var s0 := State();
      deliveries := deliveries[id := row.(status := Delivered, attempt := row.attempt + 1)];
      worker := Recorded(row, endpoint, true, rest);
      assert State() == Apply(config, s0, WriteOutcome(delay, Kept));
      if endpoint.failures > 0 && row.endpoint in endpoints {
        endpoints := endpoints[row.endpoint := endpoints[row.endpoint].(failures := 0)];
      }
      worker := DueList(rest);
    }

    /** Retry later or give up; then count the failure or open the circuit. */
    method OnFailure(id: Id, row: Delivery, endpoint: Endpoint, rest: seq<Id>, delay: nat)
      requires worker == Answered(id, row, endpoint, false, rest) && Fresh(State())
      requires Enabled(State(), WriteOutcome(delay, Kept))
      modifies this
      ensures State() == Apply(config, Apply(config, old(State()), WriteOutcome(delay, Kept)), WriteBreaker(false))
      ensures running == old(running)
      ensures deliveries
        == old(deliveries)[id := row.(status := FailureStatus(config, row.attempt + 1), attempt := row.attempt + 1,
          due := clock + delay)]
    {
      RetryLater(id, row, endpoint, rest, delay);
      CountFailure(row, endpoint, rest);
    }

    method RetryLater(id: Id, row: Delivery, endpoint: Endpoint, rest: seq<Id>, delay: nat)
      requires worker == Answered(id, row, endpoint, false, rest) && Fresh(State())
      requires Enabled(State(), WriteOutcome(delay, Kept))
      modifies this`deliveries, this`worker
      ensures State() == Apply(config, old(State()), WriteOutcome(delay, Kept))
        && worker == Recorded(row, endpoint, false, rest)
      ensures deliveries
        == old(deliveries)[id := row.(status := FailureStatus(config, row.attempt + 1), attempt := row.attempt + 1,
          due := clock + delay)]
    {
      var attempt := row.attempt + 1;
      var status := if attempt >= config.maxAttempts then Dead else Failed;
      assert status == FailureStatus(config, attempt);
      deliveries := deliveries[id := row.(status := status, attempt := attempt, due := clock + delay)];
      worker := Recorded(row, endpoint, false, rest);
    }

    method CountFailure(row: Delivery, endpoint: Endpoint, rest: seq<Id>)
      requires worker == Recorded(row, endpoint, false, rest)
      modifies this`endpoints, this`log, this`worker
      ensures State() == Apply(config, old(State()), WriteBreaker(false))
    {
      var failures := endpoint.failures + 1;
      if failures >= config.threshold {
        log := log + [Trip(row.endpoint, clock)];
        if row.endpoint in endpoints {
          endpoints := endpoints[row.endpoint := endpoints[row.endpoint].(failures := 0, disabledUntil :=
            clock + CIRCUIT_DISABLE_MS)];
        }
      } else if row.endpoint in endpoints {
        endpoints := endpoints[row.endpoint := endpoints[row.endpoint].(failures := failures)];
      }
      worker := DueList(rest);
    }

    method DeliverEach(due: seq<Id>, answer: Id -> bool, latency: Id -> nat, jitter: Id -> nat)
      returns (ghost steps: seq<Step>)
      requires ValidConfig(config) && worker == DueList(due) && Fresh(State())
      requires forall id :: 850 <= jitter(id) <= 1150
      modifies this
      ensures Run(config, old(State()), steps, true, State()) && AllOwn(steps)
      ensures worker == DueList([]) && Fresh(State()) && running == old(running)
    {
      ghost var s0 := State();
      steps := [];
      var left := due;
      while left != []
        invariant worker == DueList(left) && Fresh(State()) && running == old(running)
        invariant Run(config, s0, steps, true, State()) && AllOwn(steps)
        decreases |left|
      {
        var id := left[0];
        ghost var s1 := State();
        var delay := Delay(deliveries[id].attempt + 1, jitter(id));
        ghost var more := Deliver(left, answer(id), latency(id), delay);
        RunJoin(config, s0, steps, s1, more, State());
        steps := steps + more;
        left := left[1..];
      }
    }

    /** answers, latencies and jitter (in thousandths of the base) stand for the network and the random generator. */
    method DeliverDue(answer: Id -> bool, latency: Id -> nat, jitter: Id -> nat) returns (ghost steps: seq<Step>)
      requires ValidConfig(config) && worker == FanList([]) && Fresh(State())
      requires forall id :: 850 <= jitter(id) <= 1150
      modifies this
      ensures Run(config, old(State()), steps, true, State()) && worker == Idle && running == old(running)
      ensures AllOwn(steps) && |steps| >= 2 && steps[0].ListDue? && steps[|steps| - 1].Finish?
    {
      ghost var s0 := State();
      var due := SelectDue();
      worker := DueList(due);
      ghost var s1 := State();
      assert s1 == Apply(config, s0, ListDue(due));
      StepKeepsFresh(config, s0, ListDue(due));
      RunThen(config, s0, [], s0, ListDue(due));
      ghost var more := DeliverEach(due, answer, latency, jitter);
      ghost var s2 := State();
      RunJoin(config, s0, [] + [ListDue(due)], s1, more, s2);
      RunThen(config, s0, [] + [ListDue(due)] + more, s2, Finish);
      worker, steps := Idle, [] + [ListDue(due)] + more + [Finish];
    }

    /** One poll cycle; a cycle already under way is left alone. */
    method Tick(answer: Id -> bool, latency: Id -> nat, jitter: Id -> nat) returns (ghost steps: seq<Step>)
      requires ValidConfig(config) && (!running ==> worker.Idle?)
      requires forall id :: 850 <= jitter(id) <= 1150
      modifies this
      ensures Run(config, old(State()), steps, true, State()) && running == old(running)
      ensures old(running) ==> State() == old(State())
      ensures !old(running) ==> worker.Idle? && AllOwn(steps)
      ensures !old(running) ==> |steps| >= 2 && steps[0].ListEvents? && steps[|steps| - 1].Finish?
    {
      if running { return []; }
      running := true;
      ghost var s0 := State();
      var first := FanOutPending();
      ghost var s1 := State();
      var second := DeliverDue(answer, latency, jitter);
      RunJoin(config, s0, first, s1, second, State());
      steps := first + second;
      running := false;
    }
  }

  /** backoffSeconds, in milliseconds, with the random factor in thousandths. */
  function Delay(attempt: nat, jitter: nat): (delay: nat)
    requires 850 <= jitter <= 1150
    ensures DelayOk(attempt, delay)
    ensures delay == jitter * Min(Pow2(attempt), 300)
  {
    ClampNeverShows(attempt);
    jitter * BackoffBase(attempt)
  }

  lemma DistinctCovers(order: seq<Id>, ids: set<Id>)
    requires Distinct(order) && (forall i :: 0 <= i < |order| ==> order[i] in ids)
    requires forall id :: id in ids && id !in order ==> |order| == |ids|
    ensures forall id :: id in ids ==> id in order
  {
    var covered := set i | 0 <= i < |order| :: order[i];
    SizeOfDistinct(order);
    if covered < ids {
      SmallerSubset(covered, ids);
    }
  }

  lemma {:induction false} SizeOfDistinct(order: seq<Id>)
    requires Distinct(order)
    ensures |set i | 0 <= i < |order| :: order[i]| == |order|
  {
    if order != [] {
      var front := order[..|order| - 1];
      SizeOfDistinct(front);
      assert (set i | 0 <= i < |order| :: order[i]) == (set i | 0 <= i < |front| :: front[i]) + {order[|order| - 1]};
    }
  }

  lemma SmallerSubset(a: set<Id>, b: set<Id>)
    requires a < b
    ensures |a| < |b|
  {
    var x :| x in b && x !in a;
    assert a + (b - a) == b;
    assert |b| == |a| + |b - a|;
  }
}
