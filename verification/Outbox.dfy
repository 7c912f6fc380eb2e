/** The transactional outbox worker (src/webhooks.ts) as a state machine. */
module Outbox {
  // Fan-out, delivery, retry with bounded backoff and a per-endpoint circuit breaker.
  // Steps are single database calls and single HTTP calls. Between two steps the clock
  // may move, operators may edit endpoints, domain code may emit events, writes may be
  // lost, and the worker may die. There is one worker, by design.

  import opened Wrappers

  type Id = nat

  const CIRCUIT_DISABLE_MS := 900_000
  const EVENT_BATCH := 50
  const DELIVERY_BATCH := 20

  /** webhookMaxAttempts and webhookCircuitThreshold; both are at least one. */
  datatype Config = Config(maxAttempts: nat, threshold: nat)

  predicate ValidConfig(c: Config) { c.maxAttempts >= 1 && c.threshold >= 1 }

  datatype Event = Event(space: nat, kind: nat, dispatched: bool)

  /** No kinds means every kind; disabledUntil is 0 when the circuit never opened. */
  datatype Endpoint = Endpoint(space: nat, kinds: set<nat>, active: bool, failures: nat, disabledUntil: int)

  datatype Status = Pending | Failed | Delivered | Dead

  datatype Delivery = Delivery(endpoint: Id, event: Id, status: Status, attempt: nat, due: int)

  /** The three tables; a delivery's id is its position. */
  datatype Db = Db(events: map<Id, Event>, endpoints: map<Id, Endpoint>, deliveries: seq<Delivery>)

  /** Where the worker stands. Queues and rows are what it read, which may be stale. */
  datatype Worker =
    | Idle
    | FanList(queue: seq<Id>)
    | FanRows(event: Id, rows: seq<(Id, int)>, queue: seq<Id>)
    | DueList(due: seq<Id>)
    | Checked(id: Id, row: Delivery, endpoint: Endpoint, due: seq<Id>)            // circuit closed, about to send
    | Answered(id: Id, row: Delivery, endpoint: Endpoint, ok: bool, due: seq<Id>) // outcome known, nothing written
    | Recorded(row: Delivery, endpoint: Endpoint, ok: bool, due: seq<Id>)         // delivery written, breaker not yet

  /** History: every attempt made, and every time a circuit opened. */
  datatype Entry = Attempt(endpoint: Id, delivery: Id, at: int, ok: bool) | Trip(endpoint: Id, at: int)

  /** fanned remembers, per dispatched event, the endpoints read as active and matching. */
  datatype Sys = Sys(db: Db, clock: int, worker: Worker, log: seq<Entry>, fanned: map<Id, set<Id>>)

  /** A write is kept, never reaches the table, or reaches it and is reported failed all the same. */
  datatype Write = Kept | Lost | Unreported

  datatype Step =
    // the worker
    | ListEvents(batch: seq<Id>)
    | ReadEndpoints(order: seq<Id>)
    | Dispatch
    | ListDue(batch: seq<Id>)
    | ReadEndpoint              // and mark dead, defer, or go on
    | Call(ok: bool)            // anything thrown before the status write counts as not ok
    | WriteOutcome(delay: nat, write: Write)
    | WriteBreaker(lost: bool)
    | Finish
    // everything else
    | Die
    | Elapse(ms: nat)
    | Emit(event: Id, space: nat, kind: nat)
    | Register(endpoint: Id, space: nat, kinds: set<nat>)
    | Edit(endpoint: Id, kinds: set<nat>, active: bool)
    | Remove(endpoint: Id)

  // ------------------------------------------------------------- reads

  predicate Wants(e: Endpoint, ev: Event) {
    e.space == ev.space && e.active && (e.kinds == {} || ev.kind in e.kinds)
  }

  predicate Distinct<T(==)>(s: seq<T>) {
    forall i, j :: 0 <= i < j < |s| ==> s[i] != s[j]
  }

  /** SELECT .. WHERE dispatched_at IS NULL ORDER BY id LIMIT 50. */
  ghost predicate EventBatch(db: Db, batch: seq<Id>) {
    && |batch| <= EVENT_BATCH
    && (forall i, j :: 0 <= i < j < |batch| ==> batch[i] < batch[j])
    && (forall i :: 0 <= i < |batch| ==> batch[i] in db.events && !db.events[batch[i]].dispatched)
    && (forall id :: id in db.events && !db.events[id].dispatched && id !in batch
          ==> |batch| == EVENT_BATCH && batch[|batch| - 1] < id)
  }

  predicate Open(status: Status) { status.Pending? || status.Failed? }

  predicate IsDue(d: Delivery, now: int) { Open(d.status) && d.due <= now }

  /** SELECT .. WHERE status IN (pending, failed) AND next_attempt_at <= now ORDER BY next_attempt_at LIMIT 20. */
  ghost predicate DueBatch(db: Db, now: int, batch: seq<Id>) {
    && |batch| <= DELIVERY_BATCH && Distinct(batch)
    && (forall i :: 0 <= i < |batch| ==> batch[i] < |db.deliveries| && IsDue(db.deliveries[batch[i]], now))
    && (forall i, j :: 0 <= i < j < |batch| ==> db.deliveries[batch[i]].due <= db.deliveries[batch[j]].due)
    && (forall id: Id :: id < |db.deliveries| && IsDue(db.deliveries[id], now) && id !in batch
          ==> |batch| == DELIVERY_BATCH && db.deliveries[batch[|batch| - 1]].due <= db.deliveries[id].due)
  }

  function Later(a: int, b: int): int { if a > b then a else b }

  // ------------------------------------------------------------- backoff

  function Pow2(n: nat): nat { if n == 0 then 1 else 2 * Pow2(n - 1) }

  function Min(a: nat, b: nat): nat { if a <= b then a else b }

  /** Seconds before jitter of 15 percent either way; the exponent is clamped at nine. */
  function BackoffBase(attempt: nat): nat { Min(Pow2(Min(attempt, 9)), 300) }

  /** Milliseconds until the next try. */
  predicate DelayOk(attempt: nat, delay: nat) {
    850 * BackoffBase(attempt) <= delay <= 1150 * BackoffBase(attempt)
  }

  /** The clamp never shows: the base is min(2^attempt, 300) for every attempt. */
  lemma {:induction false} ClampNeverShows(attempt: nat)
    ensures BackoffBase(attempt) == Min(Pow2(attempt), 300)
  {
    if attempt > 9 {
      assert Pow2(9) == 512;
      PowGrows(9, attempt);
    }
  }

  lemma {:induction false} PowGrows(a: nat, b: nat)
    requires a <= b
    ensures Pow2(a) <= Pow2(b)
  {
    if a < b { PowGrows(a, b - 1); }
  }

  // ------------------------------------------------------------- steps

  ghost predicate Enabled(s: Sys, step: Step) {
    match step
    case ListEvents(batch) => s.worker.Idle? && EventBatch(s.db, batch)
    case ReadEndpoints(order) =>
      && s.worker.FanList? && s.worker.queue != [] && s.worker.queue[0] in s.db.events
      && Distinct(order)
      && forall id :: id in order <==> id in s.db.endpoints && Wants(s.db.endpoints[id], s.db.events[s.worker.queue[0]])
    case Dispatch => s.worker.FanRows? && s.worker.event in s.db.events
    case ListDue(batch) => s.worker.FanList? && s.worker.queue == [] && DueBatch(s.db, s.clock, batch)
    case ReadEndpoint => s.worker.DueList? && s.worker.due != [] && s.worker.due[0] < |s.db.deliveries|
    case Call(_) => s.worker.Checked?
    case WriteOutcome(delay, _) =>
      && s.worker.Answered? && s.worker.id < |s.db.deliveries|
      && DelayOk(s.worker.row.attempt + 1, delay)
    case WriteBreaker(_) => s.worker.Recorded?
    case Finish => s.worker.DueList? && s.worker.due == []
    case Die => true
    case Elapse(_) => true
    case Emit(event, _, _) => event !in s.db.events
    case Register(endpoint, _, _) => endpoint !in s.db.endpoints && !Known(s, endpoint)
    case Edit(endpoint, _, _) => endpoint in s.db.endpoints
    case Remove(_) => true
  }

  /** Ids are uuids: one that was ever used is never issued again. */
  predicate Known(s: Sys, endpoint: Id) {
    || (exists i :: 0 <= i < |s.log| && s.log[i].endpoint == endpoint)
    || (exists i :: 0 <= i < |s.db.deliveries| && s.db.deliveries[i].endpoint == endpoint)
    || (s.worker.FanRows? && exists i :: 0 <= i < |s.worker.rows| && s.worker.rows[i].0 == endpoint)
  }

  function NewRows(event: Id, rows: seq<(Id, int)>): seq<Delivery> {
    seq(|rows|, i requires 0 <= i < |rows| => Delivery(rows[i].0, event, Pending, 0, rows[i].1))
  }

  function FailureStatus(c: Config, attempt: nat): Status {
    if attempt >= c.maxAttempts then Dead else Failed
  }

  /** One more consecutive failure: count it, or open the circuit and start afresh. */
  function Tripped(c: Config, failures: nat): bool { failures + 1 >= c.threshold }

  function SetBreaker(db: Db, id: Id, failures: nat, disabledUntil: Option<int>): Db {
    if id !in db.endpoints then db
    else
      var e := db.endpoints[id].(failures := failures);
      db.(endpoints := db.endpoints[id := if disabledUntil.Some? then e.(disabledUntil := disabledUntil.value) else e])
  }

  function Apply(c: Config, s: Sys, step: Step): Sys
    requires Enabled(s, step)
  {
    match step
    case ListEvents(batch) => s.(worker := FanList(batch))
    case ReadEndpoints(order) =>
      // An endpoint whose circuit is open still gets its row, due when the window closes.
      var rows := seq(|order|, i requires 0 <= i < |order| =>
        (order[i], Later(s.db.endpoints[order[i]].disabledUntil, s.clock)));
      s.(worker := FanRows(s.worker.queue[0], rows, s.worker.queue[1..]))
    case Dispatch =>
      var w := s.worker;
      s.(db := s.db.(events := s.db.events[w.event := s.db.events[w.event].(dispatched := true)],
                     deliveries := s.db.deliveries + NewRows(w.event, w.rows)),
         worker := FanList(w.queue),
         fanned := s.fanned[w.event := set i | 0 <= i < |w.rows| :: w.rows[i].0])
    case ListDue(batch) => s.(worker := DueList(batch))
    case ReadEndpoint =>
      var id, rest := s.worker.due[0], s.worker.due[1..];
      var row := s.db.deliveries[id];
      if row.endpoint !in s.db.endpoints || !s.db.endpoints[row.endpoint].active then
        s.(db := s.db.(deliveries := s.db.deliveries[id := row.(status := Dead)]), worker := DueList(rest))
      else if s.db.endpoints[row.endpoint].disabledUntil > s.clock then
        s.(db := s.db.(deliveries := s.db.deliveries[id := row.(due := s.db.endpoints[row.endpoint].disabledUntil)]),
           worker := DueList(rest))
      else if row.event !in s.db.events then
        s.(db := s.db.(deliveries := s.db.deliveries[id := row.(status := Dead)]), worker := DueList(rest))
      else
        s.(worker := Checked(id, row, s.db.endpoints[row.endpoint], rest))
    case Call(ok) =>
      var w := s.worker;
      s.(worker := Answered(w.id, w.row, w.endpoint, ok, w.due),
         log := s.log + [Attempt(w.row.endpoint, w.id, s.clock, ok)])
    case WriteOutcome(delay, write) =>
      var w := s.worker;
      var attempt := w.row.attempt + 1;
      var written := if w.ok then s.db.deliveries[w.id].(status := Delivered, attempt := attempt)
                     else s.db.deliveries[w.id].(status := FailureStatus(c, attempt), attempt := attempt, due :=
                       s.clock + delay);
      s.(db := if write.Lost? then s.db else s.db.(deliveries := s.db.deliveries[w.id := written]),
         // a success write reported failed throws inside the try block: the attempt is handled as a failure
         worker := if w.ok && !write.Kept? then Answered(w.id, w.row, w.endpoint, false, w.due)
                   else Recorded(w.row, w.endpoint, w.ok, w.due))
    case WriteBreaker(lost) =>
      var w := s.worker;
      var next := s.(worker := DueList(w.due));
      if w.ok then
        if w.endpoint.failures > 0 && !lost then next.(db := SetBreaker(s.db, w.row.endpoint, 0, None)) else next
      else if lost then next
      else if Tripped(c, w.endpoint.failures) then
        next.(db := SetBreaker(s.db, w.row.endpoint, 0, Some(s.clock + CIRCUIT_DISABLE_MS)),
              log := s.log + [Trip(w.row.endpoint, s.clock)])
      else next.(db := SetBreaker(s.db, w.row.endpoint, w.endpoint.failures + 1, None))
    case Finish => s.(worker := Idle)
    case Die => s.(worker := Idle)
    case Elapse(ms) => s.(clock := s.clock + ms)
    case Emit(event, space, kind) => s.(db := s.db.(events := s.db.events[event := Event(space, kind, false)]))
    case Register(endpoint, space, kinds) =>
      s.(db := s.db.(endpoints := s.db.endpoints[endpoint := Endpoint(space, kinds, true, 0, 0)]))
    case Edit(endpoint, kinds, active) =>
      s.(db := s.db.(endpoints := s.db.endpoints[endpoint :=
        s.db.endpoints[endpoint].(kinds := kinds, active := active)]))
    case Remove(endpoint) =>
      s.(db := s.db.(endpoints := map id | id in s.db.endpoints && id != endpoint :: s.db.endpoints[id]))
  }

  ghost predicate Run(c: Config, s: Sys, steps: seq<Step>, clean: bool, end: Sys)
    decreases |steps|
  {
    if steps == [] then s == end
    else Enabled(s, steps[0]) && (clean ==> Clean(s, steps[0])) && Run(c, Apply(c, s, steps[0]), steps[1..], clean, end)
  }

  /** Writes succeed, and the worker does not die between an answer and the breaker's write. */
  predicate Clean(s: Sys, step: Step) {
    match step
    case WriteOutcome(_, write) => write.Kept?
    case WriteBreaker(lost) => !lost
    case Die => !s.worker.Answered? && !s.worker.Recorded?
    case _ => true
  }

  predicate Start(s: Sys) {
    s.worker.Idle? && s.log == [] && s.fanned == map[] && s.db == Db(map[], map[], [])
  }

  // ------------------------------------------------ what the worker has read

  predicate DueOk(db: Db, due: seq<Id>) {
    Distinct(due) && forall i :: 0 <= i < |due| ==> due[i] < |db.deliveries| && Open(db.deliveries[due[i]].status)
  }

  predicate UndispatchedOk(db: Db, queue: seq<Id>) {
    Distinct(queue) && forall i :: 0 <= i < |queue| ==> queue[i] in db.events && !db.events[queue[i]].dispatched
  }

  predicate InHand(db: Db, id: Id, row: Delivery, due: seq<Id>) {
    && DueOk(db, due) && id !in due
    && id < |db.deliveries| && db.deliveries[id] == row && Open(row.status)
  }

  function Sent(row: Delivery): Delivery { row.(status := Delivered, attempt := row.attempt + 1) }

  /** The row in hand is as it was read, or its success has been written and reported failed. */
  predicate Handled(db: Db, id: Id, row: Delivery, ok: bool, due: seq<Id>) {
    && DueOk(db, due) && id !in due && Open(row.status)
    && id < |db.deliveries| && (db.deliveries[id] == row || (!ok && db.deliveries[id] == Sent(row)))
  }

  /** Nothing else the worker has read is out of date: no one else writes deliveries or dispatches events. */
  predicate Fresh(s: Sys) {
    match s.worker
    case Idle => true
    case FanList(queue) => UndispatchedOk(s.db, queue)
    case FanRows(event, rows, queue) =>
      && UndispatchedOk(s.db, queue) && event !in queue
      && event in s.db.events && !s.db.events[event].dispatched
      && forall i, j :: 0 <= i < j < |rows| ==> rows[i].0 != rows[j].0
    case DueList(due) => DueOk(s.db, due)
    case Checked(id, row, endpoint, due) => InHand(s.db, id, row, due)
    case Answered(id, row, endpoint, ok, due) => Handled(s.db, id, row, ok, due)
    case Recorded(row, endpoint, ok, due) => DueOk(s.db, due)
  }

  predicate Outside(step: Step) {
    step.Die? || step.Elapse? || step.Emit? || step.Register? || step.Edit? || step.Remove?
  }

  lemma OutsideKeepsFresh(c: Config, s: Sys, step: Step)
    requires Fresh(s) && Enabled(s, step) && Outside(step)
    ensures Fresh(Apply(c, s, step))
  {
    assert Apply(c, s, step).db.deliveries == s.db.deliveries;
  }

  lemma FanOutKeepsFresh(c: Config, s: Sys, step: Step)
    requires Fresh(s) && Enabled(s, step) && (step.ListEvents? || step.ReadEndpoints? || step.Dispatch?)
    ensures Fresh(Apply(c, s, step))
  {
  }

  lemma DeliveryKeepsFresh(c: Config, s: Sys, step: Step)
    requires Fresh(s) && Enabled(s, step)
    requires step.ListDue? || step.ReadEndpoint? || step.Finish?
    ensures Fresh(Apply(c, s, step))
  {
  }

  lemma SendKeepsFresh(c: Config, s: Sys, step: Step)
    requires Fresh(s) && Enabled(s, step)
    requires step.Call? || step.WriteOutcome? || step.WriteBreaker?
    ensures Fresh(Apply(c, s, step))
  {
  }

  lemma StepKeepsFresh(c: Config, s: Sys, step: Step)
    requires Fresh(s) && Enabled(s, step)
    ensures Fresh(Apply(c, s, step))
  {
    if Outside(step) { OutsideKeepsFresh(c, s, step); }
    else if step.ListEvents? || step.ReadEndpoints? || step.Dispatch? { FanOutKeepsFresh(c, s, step); }
    else if step.ListDue? || step.ReadEndpoint? || step.Finish? { DeliveryKeepsFresh(c, s, step); }
    else { SendKeepsFresh(c, s, step); }
  }

  // ------------------------------------------------------------- fan-out

  /** Undispatched: no delivery at all. Dispatched: exactly one per endpoint read as active and matching. */
  ghost predicate FanOutExact(s: Sys) {
    && (forall i :: 0 <= i < |s.db.deliveries| ==>
          s.db.deliveries[i].event in s.fanned && s.db.deliveries[i].endpoint in s.fanned[s.db.deliveries[i].event])
    && (forall i, j :: 0 <= i < j < |s.db.deliveries| ==>
          s.db.deliveries[i].event != s.db.deliveries[j].event
            || s.db.deliveries[i].endpoint != s.db.deliveries[j].endpoint)
    && (forall ev, ep :: ev in s.fanned && ep in s.fanned[ev] ==> HasDelivery(s.db, ev, ep))
    && (forall ev :: ev in s.fanned <==> ev in s.db.events && s.db.events[ev].dispatched)
  }

  predicate HasDelivery(db: Db, ev: Id, ep: Id) {
    exists i :: 0 <= i < |db.deliveries| && db.deliveries[i].event == ev && db.deliveries[i].endpoint == ep
  }

  lemma DispatchKeepsFanOut(c: Config, s: Sys)
    requires Fresh(s) && FanOutExact(s) && Enabled(s, Dispatch)
    ensures FanOutExact(Apply(c, s, Dispatch))
  {
    var w, t := s.worker, Apply(c, s, Dispatch);
    var n := |s.db.deliveries|;
    assert forall i :: n <= i < |t.db.deliveries| ==> t.db.deliveries[i] == NewRows(w.event, w.rows)[i - n];
    forall ev, ep | ev in t.fanned && ep in t.fanned[ev] ensures HasDelivery(t.db, ev, ep) {
      if ev == w.event {
        var k :| 0 <= k < |w.rows| && w.rows[k].0 == ep;
        assert t.db.deliveries[n + k].endpoint == ep;
      } else {
        var k :| 0 <= k < n && s.db.deliveries[k].event == ev && s.db.deliveries[k].endpoint == ep;
        assert t.db.deliveries[k] == s.db.deliveries[k];
      }
    }
  }

  lemma StepKeepsFanOut(c: Config, s: Sys, step: Step)
    requires Fresh(s) && FanOutExact(s) && Enabled(s, step)
    ensures FanOutExact(Apply(c, s, step))
  {
    if step.Dispatch? {
      DispatchKeepsFanOut(c, s);
    } else {
      var t := Apply(c, s, step);
      SameTargets(c, s, step);
      forall ev, ep | ev in t.fanned && ep in t.fanned[ev] ensures HasDelivery(t.db, ev, ep) {
        var k :| 0 <= k < |s.db.deliveries| && s.db.deliveries[k].event == ev && s.db.deliveries[k].endpoint == ep;
        assert t.db.deliveries[k].event == ev && t.db.deliveries[k].endpoint == ep;
      }
    }
  }

  /** Only the dispatching transaction creates deliveries; nothing redirects one. */
  lemma SameTargets(c: Config, s: Sys, step: Step)
    requires Fresh(s) && Enabled(s, step) && !step.Dispatch?
    ensures var t := Apply(c, s, step);
      && t.fanned == s.fanned && |t.db.deliveries| == |s.db.deliveries|
      && forall i :: 0 <= i < |s.db.deliveries| ==>
        && t.db.deliveries[i].event == s.db.deliveries[i].event
        && t.db.deliveries[i].endpoint == s.db.deliveries[i].endpoint
  {
  }

  /** What is fanned out to is every active endpoint of the event's own space that wants all kinds or this one. */
  lemma TargetsAreMatching(c: Config, s: Sys, order: seq<Id>, ep: Id)
    requires Enabled(s, ReadEndpoints(order))
    ensures var rows, ev := Apply(c, s, ReadEndpoints(order)).worker.rows, s.db.events[s.worker.queue[0]];
      (exists i :: 0 <= i < |rows| && rows[i].0 == ep)
      <==> ep in s.db.endpoints && s.db.endpoints[ep].space == ev.space && s.db.endpoints[ep].active
           && (s.db.endpoints[ep].kinds == {} || ev.kind in s.db.endpoints[ep].kinds)
    ensures Apply(c, s, ReadEndpoints(order)).worker.event == s.worker.queue[0]
  {
    var rows := Apply(c, s, ReadEndpoints(order)).worker.rows;
    if ep in order {
      var i :| 0 <= i < |order| && order[i] == ep;
      assert rows[i].0 == ep;
    }
  }

  /** A dispatch writes one row per endpoint read, to be tried at once or when the endpoint's circuit closes. */
  lemma DispatchWrites(c: Config, s: Sys, order: seq<Id>, i: nat)
    requires Enabled(s, ReadEndpoints(order)) && i < |order|
    ensures var read := Apply(c, s, ReadEndpoints(order));
      var t, ep := Apply(c, read, Dispatch), s.db.endpoints[order[i]];
      && |t.db.deliveries| == |s.db.deliveries| + |order|
      && t.db.deliveries[|s.db.deliveries| + i] == Delivery(order[i], s.worker.queue[0], Pending, 0,
           if ep.disabledUntil > s.clock then ep.disabledUntil else s.clock)
      && t.db.events[s.worker.queue[0]] == s.db.events[s.worker.queue[0]].(dispatched := true)
  {
  }

  predicate OneSpace(db: Db, endpoint: Id, event: Id) {
    endpoint in db.endpoints && event in db.events ==> db.endpoints[endpoint].space == db.events[event].space
  }

  /** No delivery, made or about to be, crosses from an event's space into another. */
  predicate SpacesKept(s: Sys) {
    && (forall i :: 0 <= i < |s.db.deliveries| ==>
          && s.db.deliveries[i].event in s.db.events
          && OneSpace(s.db, s.db.deliveries[i].endpoint, s.db.deliveries[i].event))
    && (s.worker.FanRows? ==> s.worker.event in s.db.events)
    && (s.worker.FanRows? ==>
          forall i :: 0 <= i < |s.worker.rows| ==> OneSpace(s.db, s.worker.rows[i].0, s.worker.event))
  }

  lemma StepKeepsSpaces(c: Config, s: Sys, step: Step)
    requires Fresh(s) && SpacesKept(s) && Enabled(s, step)
    ensures SpacesKept(Apply(c, s, step))
  {
    if step.Dispatch? {
      DispatchKeepsSpaces(c, s);
    } else {
      SameTargets(c, s, step);
      RowsAreThoseOrRead(c, s, step);
    }
  }

  /** Outside the endpoint query, rows in hand are what they were. */
  lemma RowsAreThoseOrRead(c: Config, s: Sys, step: Step)
    requires Enabled(s, step) && !step.Dispatch?
    ensures var t := Apply(c, s, step); t.worker.FanRows? && !step.ReadEndpoints? ==> t.worker == s.worker
  {
  }

  lemma DispatchKeepsSpaces(c: Config, s: Sys)
    requires SpacesKept(s) && Enabled(s, Dispatch)
    ensures SpacesKept(Apply(c, s, Dispatch))
  {
    var t, n := Apply(c, s, Dispatch), |s.db.deliveries|;
    forall i | 0 <= i < |t.db.deliveries|
      ensures t.db.deliveries[i].event in t.db.events
        && OneSpace(t.db, t.db.deliveries[i].endpoint, t.db.deliveries[i].event)
    {
      if i >= n { assert t.db.deliveries[i] == NewRows(s.worker.event, s.worker.rows)[i - n]; }
    }
  }

  // ---------------------------------------------------------- deliveries

  predicate DeliveryOk(c: Config, d: Delivery) {
    && d.attempt <= c.maxAttempts
    && (d.status.Pending? ==> d.attempt == 0)
    && (d.status.Failed? ==> 1 <= d.attempt < c.maxAttempts)
    && (d.status.Delivered? ==> 1 <= d.attempt)
  }

  predicate DeliveriesOk(c: Config, s: Sys) {
    forall i :: 0 <= i < |s.db.deliveries| ==> DeliveryOk(c, s.db.deliveries[i])
  }

  /** The fan-out list: events not dispatched, in order, and all of them unless fifty earlier ones fill it. */
  lemma EventListIsUndispatched(s: Sys, batch: seq<Id>, id: Id)
    requires Enabled(s, ListEvents(batch))
    ensures id in batch ==> id in s.db.events && !s.db.events[id].dispatched
    ensures id in s.db.events && !s.db.events[id].dispatched && id !in batch ==>
      |batch| == 50 && forall k :: 0 <= k < 50 ==> batch[k] < id
  {
  }

  /** The due list: rows pending or failed whose time has come, and all of them unless earlier ones fill it. */
  lemma DueListIsDue(s: Sys, batch: seq<Id>, id: Id)
    requires Enabled(s, ListDue(batch)) && id < |s.db.deliveries|
    ensures var row := s.db.deliveries[id];
      var due := (row.status == Pending || row.status == Failed) && row.due <= s.clock;
      && (id in batch ==> due)
      && (due && id !in batch ==> |batch| == 20 && forall k :: 0 <= k < 20 ==>
            batch[k] < |s.db.deliveries| && s.db.deliveries[batch[k]].due <= row.due)
  {
    if id in batch { var k :| 0 <= k < |batch| && batch[k] == id; }
    if |batch| == 20 && IsDue(s.db.deliveries[id], s.clock) && id !in batch {
      forall k | 0 <= k < 20 ensures s.db.deliveries[batch[k]].due <= s.db.deliveries[id].due {
        assert s.db.deliveries[batch[k]].due <= s.db.deliveries[batch[19]].due;
      }
    }
  }

  /** Before a send: a row without an active endpoint or without its event dies; an open circuit defers it. */
  lemma BeforeSending(c: Config, s: Sys)
    requires Enabled(s, ReadEndpoint)
    ensures var id, t := s.worker.due[0], Apply(c, s, ReadEndpoint); var row := s.db.deliveries[id];
      && |t.db.deliveries| == |s.db.deliveries| && t.log == s.log && t.db.endpoints == s.db.endpoints
      && (forall k: Id :: k < |s.db.deliveries| && k != id ==> t.db.deliveries[k] == s.db.deliveries[k])
      && (if row.endpoint !in s.db.endpoints || !s.db.endpoints[row.endpoint].active
          then t.db.deliveries[id] == row.(status := Dead) && !t.worker.Checked?
          else if s.clock < s.db.endpoints[row.endpoint].disabledUntil
          then t.db.deliveries[id] == row.(due := s.db.endpoints[row.endpoint].disabledUntil) && !t.worker.Checked?
          else if row.event !in s.db.events
          then t.db.deliveries[id] == row.(status := Dead) && !t.worker.Checked?
          else t.db.deliveries[id] == row && t.worker.Checked? && t.worker.id == id && t.worker.row == row
               && t.worker.endpoint == s.db.endpoints[row.endpoint])
  {
  }

  /** After a send: one attempt more, delivered on success, else dead at the limit and otherwise due after the delay. */
  lemma AfterSending(c: Config, s: Sys, delay: nat)
    requires Fresh(s) && Enabled(s, WriteOutcome(delay, Kept))
    ensures var id, t := s.worker.id, Apply(c, s, WriteOutcome(delay, Kept));
      var row, attempt := s.worker.row, s.worker.row.attempt + 1;
      && |t.db.deliveries| == |s.db.deliveries| && t.db.endpoints == s.db.endpoints && t.db.events == s.db.events
      && (forall k: Id :: k < |s.db.deliveries| && k != id ==> t.db.deliveries[k] == s.db.deliveries[k])
      && t.db.deliveries[id] == (
           if s.worker.ok then Delivery(row.endpoint, row.event, Delivered, attempt, row.due)
           else if attempt >= c.maxAttempts then Delivery(row.endpoint, row.event, Dead, attempt, s.clock + delay)
           else Delivery(row.endpoint, row.event, Failed, attempt, s.clock + delay))
    ensures var seconds := Min(Pow2(s.worker.row.attempt + 1), 300);
      seconds * 1000 - seconds * 150 <= delay <= seconds * 1000 + seconds * 150
  {
    ClampNeverShows(s.worker.row.attempt + 1);
  }

  /** The breaker: a success clears the count, a failure adds one; at the threshold it opens for 15 minutes. */
  lemma AfterRecording(c: Config, s: Sys, id: Id)
    requires Enabled(s, WriteBreaker(false)) && id in s.db.endpoints
    ensures var t, e, read := Apply(c, s, WriteBreaker(false)), s.db.endpoints[id], s.worker.endpoint.failures;
      && t.db.endpoints.Keys == s.db.endpoints.Keys && t.db.deliveries == s.db.deliveries && t.db.events == s.db.events
      && t.db.endpoints[id] == (
           if id != s.worker.row.endpoint || (s.worker.ok && read == 0) then e
           else if s.worker.ok then e.(failures := 0)
           else if read + 1 >= c.threshold then e.(failures := 0, disabledUntil := s.clock + 15 * 60 * 1000)
           else e.(failures := read + 1))
  {
  }

  /** Every row that is delivered or dead is left as it is. */
  predicate SettledStays(s: Sys, t: Sys) {
    && |s.db.deliveries| <= |t.db.deliveries|
    && forall i :: 0 <= i < |s.db.deliveries| && !Open(s.db.deliveries[i].status) ==>
      t.db.deliveries[i] == s.db.deliveries[i]
  }

  /** The failure is recorded of a delivery whose success had been written and was reported failed. */
  predicate Overwrites(s: Sys, step: Step) {
    step.WriteOutcome? && !step.write.Lost? && s.worker.Answered? && s.worker.id < |s.db.deliveries|
    && !Open(s.db.deliveries[s.worker.id].status)
  }

  /** Attempts stay within the limit; a delivered or dead row is left alone by every step but that one. */
  lemma StepKeepsDeliveries(c: Config, s: Sys, step: Step)
    requires ValidConfig(c) && Fresh(s) && DeliveriesOk(c, s) && Enabled(s, step)
    ensures DeliveriesOk(c, Apply(c, s, step))
    ensures SettledStays(s, Apply(c, s, step)) <==> !Overwrites(s, step)
  {
    if Overwrites(s, step) {
      assert s.db.deliveries[s.worker.id] == Sent(s.worker.row);
      assert !Apply(c, s, step).db.deliveries[s.worker.id].status.Delivered?;
    }
  }

  predicate AsRead(s: Sys) {
    s.worker.Answered? ==> s.worker.id < |s.db.deliveries| && s.db.deliveries[s.worker.id] == s.worker.row
  }

  /** As long as no write is reported wrongly, what is delivered or dead stays so for the rest of every run. */
  lemma {:induction false} SettledIsFinal(c: Config, s: Sys, steps: seq<Step>, end: Sys)
    requires ValidConfig(c) && Fresh(s) && DeliveriesOk(c, s) && AsRead(s) && Run(c, s, steps, false, end)
    requires forall i :: 0 <= i < |steps| && steps[i].WriteOutcome? ==> !steps[i].write.Unreported?
    ensures SettledStays(s, end)
    decreases |steps|
  {
    if steps != [] {
      var t := Apply(c, s, steps[0]);
      StepKeepsFresh(c, s, steps[0]);
      StepKeepsDeliveries(c, s, steps[0]);
      StepKeepsAsRead(c, s, steps[0]);
      SettledIsFinal(c, t, steps[1..], end);
    }
  }

  lemma StepKeepsAsRead(c: Config, s: Sys, step: Step)
    requires Fresh(s) && AsRead(s) && Enabled(s, step) && (step.WriteOutcome? ==> !step.write.Unreported?)
    ensures AsRead(Apply(c, s, step)) && !Overwrites(s, step)
  {
  }

  lemma RunFrom(c: Config, s: Sys, step: Step, rest: seq<Step>, end: Sys)
    requires Enabled(s, step) && Run(c, Apply(c, s, step), rest, false, end)
    ensures Run(c, s, [step] + rest, false, end)
  {
    assert ([step] + rest)[1..] == rest;
  }

  function OneEvent(dispatched: bool): map<Id, Event> { map[0 := Event(0, 0, dispatched)] }

  function OneEndpoint(): map<Id, Endpoint> { map[0 := Endpoint(0, {}, true, 0, 0)] }

  /** One endpoint and one event, fanned out and sent with success: the state once the answer is in. */
  function AnsweredOk(row: Delivery): Sys {
    Sys(Db(OneEvent(true), OneEndpoint(), [row]), 0,
      Answered(0, Delivery(0, 0, Pending, 0, 0), OneEndpoint()[0], true, []),
        [Attempt(0, 0, 0, true)], map[0 := {0}])
  }

  /** A run in which a delivery is delivered, recorded as failed, and due to be sent again. */
  lemma DeliveredIsSentAgain(c: Config, delay: nat) returns (steps: seq<Step>, end: Sys)
    requires c.maxAttempts >= 2 && c.threshold >= 2 && DelayOk(1, delay)
    ensures Run(c, Sys(Db(map[], map[], []), 0, Idle, [], map[]), steps, false, end)
    ensures |steps| == 10 && steps[7..] == [Call(true), WriteOutcome(delay, Unreported), WriteOutcome(delay, Kept)]
    ensures end.log == [Attempt(0, 0, 0, true)] && end.db.deliveries == [Delivery(0, 0, Failed, 1, delay)]
  {
    var empty, row := Sys(Db(map[], map[], []), 0, Idle, [], map[]), Delivery(0, 0, Pending, 0, 0);
    var s4 := Sys(Db(OneEvent(true), OneEndpoint(), [row]), 0, FanList([]), [], map[0 := {0}]);
    var s7 := AnsweredOk(row);
    var last := [WriteOutcome(delay, Unreported)] + ([WriteOutcome(delay, Kept)] + []);
    end := Overwritten(c, delay);
    FirstSend(c, s4, [Call(true)] + last, last, end);
    FirstFanOut(c, empty, s4, end, [ListDue([0])] + ([ReadEndpoint] + ([Call(true)] + last)));
    steps := [Register(0, 0, {})] + ([Emit(0, 0, 0)]
      + ([ListEvents([0])] + ([ReadEndpoints([0])] +
      ([Dispatch] + ([ListDue([0])] + ([ReadEndpoint] + ([Call(true)] + last)))))));
  }

  lemma Overwritten(c: Config, delay: nat) returns (end: Sys)
    requires c.maxAttempts >= 2 && DelayOk(1, delay)
    ensures Run(c, AnsweredOk(Delivery(0, 0, Pending, 0, 0)),
      [WriteOutcome(delay, Unreported)] + ([WriteOutcome(delay, Kept)] + []), false, end)
    ensures end.log == [Attempt(0, 0, 0, true)] && end.db.deliveries == [Delivery(0, 0, Failed, 1, delay)]
  {
    var s := AnsweredOk(Delivery(0, 0, Pending, 0, 0));
    var t := Apply(c, s, WriteOutcome(delay, Unreported));
    end := Apply(c, t, WriteOutcome(delay, Kept));
    RunFrom(c, t, WriteOutcome(delay, Kept), [], end);
    RunFrom(c, s, WriteOutcome(delay, Unreported), [WriteOutcome(delay, Kept)] + [], end);
  }

  lemma FirstSend(c: Config, s: Sys, called: seq<Step>, rest: seq<Step>, end: Sys)
    requires s == Sys(Db(OneEvent(true), OneEndpoint(), [Delivery(0, 0, Pending, 0, 0)]), 0, FanList([]), [],
      map[0 := {0}])
    requires called == [Call(true)] + rest && Run(c, AnsweredOk(Delivery(0, 0, Pending, 0, 0)), rest, false, end)
    ensures Run(c, s, [ListDue([0])] + ([ReadEndpoint] + called), false, end)
  {
    var s5 := s.(worker := DueList([0]));
    var s6 := s.(worker := Checked(0, Delivery(0, 0, Pending, 0, 0), OneEndpoint()[0], []));
    assert Apply(c, s6, Call(true)) == AnsweredOk(Delivery(0, 0, Pending, 0, 0));
    RunFrom(c, s6, Call(true), rest, end);
    assert [0 as Id][1..] == [];
    assert Apply(c, s5, ReadEndpoint) == s6;
    RunFrom(c, s5, ReadEndpoint, called, end);
    assert Apply(c, s, ListDue([0])) == s5;
    RunFrom(c, s, ListDue([0]), [ReadEndpoint] + called, end);
  }

  lemma FirstFanOut(c: Config, s: Sys, s5: Sys, end: Sys, rest: seq<Step>)
    requires s == Sys(Db(map[], map[], []), 0, Idle, [], map[])
    requires s5 == Sys(Db(OneEvent(true), OneEndpoint(), [Delivery(0, 0, Pending, 0, 0)]), 0, FanList([]), [],
      map[0 := {0}])
    requires Run(c, s5, rest, false, end)
    ensures Run(c, s, [Register(0, 0, {})] + ([Emit(0, 0, 0)]
      + ([ListEvents([0])] + ([ReadEndpoints([0])] + ([Dispatch] + rest)))), false, end)
  {
    var more := [ReadEndpoints([0])] + ([Dispatch] + rest);
    var s1 := s.(db := Db(map[], OneEndpoint(), []));
    var s2 := s.(db := Db(OneEvent(false), OneEndpoint(), []));
    ReadAndDispatch(c, s2.(worker := FanList([0])), s5, end, rest);
    assert EventBatch(s2.db, [0]);
    RunFrom(c, s2, ListEvents([0]), more, end);
    RunFrom(c, s1, Emit(0, 0, 0), [ListEvents([0])] + more, end);
    RunFrom(c, s, Register(0, 0, {}), [Emit(0, 0, 0)] + ([ListEvents([0])] + more), end);
  }

  lemma ReadAndDispatch(c: Config, s: Sys, s5: Sys, end: Sys, rest: seq<Step>)
    requires s == Sys(Db(OneEvent(false), OneEndpoint(), []), 0, FanList([0]), [], map[])
    requires s5 == Sys(Db(OneEvent(true), OneEndpoint(), [Delivery(0, 0, Pending, 0, 0)]), 0, FanList([]), [],
      map[0 := {0}])
    requires Run(c, s5, rest, false, end)
    ensures Run(c, s, [ReadEndpoints([0])] + ([Dispatch] + rest), false, end)
  {
    var s4 := s.(worker := FanRows(0, [(0, 0)], []));
    assert NewRows(0, [(0, 0)]) == [Delivery(0, 0, Pending, 0, 0)];
    assert (set i | 0 <= i < |s4.worker.rows| :: s4.worker.rows[i].0) == {0 as Id} by {
      assert s4.worker.rows[0].0 == 0;
    }
    assert Apply(c, s4, Dispatch) == s5;
    RunFrom(c, s4, Dispatch, rest, end);
    assert [0 as Id][1..] == [];
    assert Apply(c, s, ReadEndpoints([0])) == s4;
    RunFrom(c, s, ReadEndpoints([0]), [Dispatch] + rest, end);
  }

  function Remaining(c: Config, ds: seq<Delivery>): int {
    if ds == [] then 0
    else Remaining(c, ds[..|ds| - 1]) + (if Open(ds[|ds| - 1].status) then c.maxAttempts - ds[|ds| - 1].attempt else 0)
  }

  lemma {:induction false} RemainingUpdate(c: Config, ds: seq<Delivery>, id: nat, d: Delivery)
    requires id < |ds|
    ensures Remaining(c, ds[id := d]) - Remaining(c, ds)
      == (if Open(d.status) then c.maxAttempts - d.attempt else 0)
       - (if Open(ds[id].status) then c.maxAttempts - ds[id].attempt else 0)
    decreases |ds|
  {
    var last := |ds| - 1;
    if id < last {
      RemainingUpdate(c, ds[..last], id, d);
      assert ds[id := d][..last] == ds[..last][id := d];
    } else {
      assert ds[id := d][..last] == ds[..last];
    }
  }

  /** The deliveries, the one being settled counted as it was read. */
  function Owed(s: Sys): seq<Delivery> {
    if s.worker.Answered? && s.worker.id < |s.db.deliveries| then s.db.deliveries[s.worker.id := s.worker.row]
      else s.db.deliveries
  }

  /** The write that settles an answer, reported or not. */
  predicate Settles(s: Sys, step: Step) {
    step.WriteOutcome? && s.worker.Answered? && (step.write.Kept? || (step.write.Unreported? && !s.worker.ok))
  }

  /** Every recorded send uses up budget: with no new events, sending comes to an end. */
  lemma RecordedSendDecreases(c: Config, s: Sys, step: Step)
    requires ValidConfig(c) && Fresh(s) && DeliveriesOk(c, s) && Enabled(s, step) && Settles(s, step)
    ensures 0 <= Remaining(c, Owed(Apply(c, s, step))) < Remaining(c, Owed(s))
  {
    var t, id := Apply(c, s, step), s.worker.id;
    assert t.db.deliveries == Owed(s)[id := t.db.deliveries[id]];
    RemainingUpdate(c, Owed(s), id, t.db.deliveries[id]);
    StepKeepsDeliveries(c, s, step);
    RemainingNonNegative(c, t.db.deliveries);
  }

  lemma {:induction false} RemainingNonNegative(c: Config, ds: seq<Delivery>)
    requires forall i :: 0 <= i < |ds| ==> DeliveryOk(c, ds[i])
    ensures Remaining(c, ds) >= 0
  {
    if ds != [] { RemainingNonNegative(c, ds[..|ds| - 1]); }
  }

  /** No other step of the worker or of its surroundings gives budget back, except new deliveries. */
  lemma OnlyDispatchAddsBudget(c: Config, s: Sys, step: Step)
    requires ValidConfig(c) && Fresh(s) && DeliveriesOk(c, s) && Enabled(s, step) && !step.Dispatch?
    ensures Remaining(c, Owed(Apply(c, s, step))) <= Remaining(c, Owed(s))
  {
    var t := Apply(c, s, step);
    if step.ReadEndpoint? {
      var id := s.worker.due[0];
      RemainingUpdate(c, s.db.deliveries, id, t.db.deliveries[id]);
      assert s.db.deliveries[id := t.db.deliveries[id]] == t.db.deliveries;
    } else if Settles(s, step) {
      RecordedSendDecreases(c, s, step);
    } else if s.worker.Answered? {
      var id := s.worker.id;
      RemainingUpdate(c, Owed(s), id, s.db.deliveries[id]);
      assert Owed(s)[id := s.db.deliveries[id]] == s.db.deliveries;
      assert Owed(t) == Owed(s) || Owed(t) == s.db.deliveries;
    } else {
      assert Owed(t) == s.db.deliveries;
    }
  }

  // ------------------------------------------------------- circuit breaker

  /** Attempts on the endpoint that failed since its last success or trip. */
  function Streak(log: seq<Entry>, endpoint: Id): nat {
    if log == [] then 0
    else
      var last := log[|log| - 1];
      if last.endpoint != endpoint then Streak(log[..|log| - 1], endpoint)
      else if last.Trip? || last.ok then 0
      else Streak(log[..|log| - 1], endpoint) + 1
  }

  lemma {:induction false} StreakOfStranger(log: seq<Entry>, endpoint: Id)
    requires forall i :: 0 <= i < |log| ==> log[i].endpoint != endpoint
    ensures Streak(log, endpoint) == 0
  {
    if log != [] { StreakOfStranger(log[..|log| - 1], endpoint); }
  }

  predicate Busy(s: Sys, endpoint: Id) {
    (s.worker.Answered? || s.worker.Recorded?) && s.worker.row.endpoint == endpoint
  }

  /**
   * failure_count is the current streak, and below the threshold; between an
   * answer and the breaker's write it is the streak before that answer.
   */
  predicate CountExact(c: Config, s: Sys) {
    && (forall id :: id in s.db.endpoints ==>
          && s.db.endpoints[id].failures < c.threshold
          && (if Busy(s, id)
              then s.worker.endpoint.failures == s.db.endpoints[id].failures
                   && Streak(s.log, id) == if s.worker.ok then 0 else s.db.endpoints[id].failures + 1
              else s.db.endpoints[id].failures == Streak(s.log, id)))
    && (s.worker.Checked? && s.worker.row.endpoint in s.db.endpoints
        ==> s.worker.endpoint.failures == s.db.endpoints[s.worker.row.endpoint].failures)
    && (s.worker.Recorded? ==> Known(s, s.worker.row.endpoint))
  }

  lemma StreakAfter(log: seq<Entry>, entry: Entry, endpoint: Id)
    ensures Streak(log + [entry], endpoint)
      == if entry.endpoint != endpoint then Streak(log, endpoint)
         else if entry.Trip? || entry.ok then 0
         else Streak(log, endpoint) + 1
  {
    assert (log + [entry])[..|log|] == log;
  }

  lemma CallKeepsCount(c: Config, s: Sys, ok: bool)
    requires Fresh(s) && CountExact(c, s) && Enabled(s, Call(ok))
    ensures CountExact(c, Apply(c, s, Call(ok)))
  {
    forall id { StreakAfter(s.log, Attempt(s.worker.row.endpoint, s.worker.id, s.clock, ok), id); }
  }

  lemma BreakerKeepsCount(c: Config, s: Sys)
    requires ValidConfig(c) && CountExact(c, s) && Enabled(s, WriteBreaker(false))
    ensures CountExact(c, Apply(c, s, WriteBreaker(false)))
  {
    forall id { StreakAfter(s.log, Trip(s.worker.row.endpoint, s.clock), id); }
  }

  /** Steps that write no history. */
  lemma SilentKeepsCount(c: Config, s: Sys, step: Step)
    requires ValidConfig(c) && Fresh(s) && CountExact(c, s) && Enabled(s, step) && Clean(s, step)
    requires !step.Call? && !step.WriteBreaker? && !Outside(step)
    ensures CountExact(c, Apply(c, s, step))
  {
    if step.WriteOutcome? {
      var t := Apply(c, s, step);
      assert t.db.deliveries[s.worker.id].endpoint == s.worker.row.endpoint;
    }
  }

  lemma OutsideKeepsCount(c: Config, s: Sys, step: Step)
    requires ValidConfig(c) && Fresh(s) && CountExact(c, s) && Enabled(s, step) && Clean(s, step) && Outside(step)
    ensures CountExact(c, Apply(c, s, step))
  {
    if step.Register? { StreakOfStranger(s.log, step.endpoint); }
  }

  lemma StepKeepsCount(c: Config, s: Sys, step: Step)
    requires ValidConfig(c) && Fresh(s) && CountExact(c, s) && Enabled(s, step) && Clean(s, step)
    ensures CountExact(c, Apply(c, s, step))
  {
    if step.Call? { CallKeepsCount(c, s, step.ok); }
    else if step.WriteBreaker? { BreakerKeepsCount(c, s); }
    else if Outside(step) { OutsideKeepsCount(c, s, step); }
    else { SilentKeepsCount(c, s, step); }
  }

  /** Once an endpoint's circuit opens, nothing is sent to it and it does not trip again for 15 minutes. */
  predicate CircuitKept(s: Sys) {
    && (forall i :: 0 <= i < |s.log| ==> s.log[i].at <= s.clock)
    && (forall i, j :: 0 <= i < j < |s.log| && s.log[i].Trip? && s.log[j].endpoint == s.log[i].endpoint
          ==> s.log[i].at + CIRCUIT_DISABLE_MS <= s.log[j].at)
    && (forall i :: 0 <= i < |s.log| && s.log[i].Trip? ==>
          && (s.log[i].endpoint in s.db.endpoints
              ==> s.log[i].at + CIRCUIT_DISABLE_MS <= s.db.endpoints[s.log[i].endpoint].disabledUntil)
          && (Sending(s) && s.worker.row.endpoint == s.log[i].endpoint
              ==> s.log[i].at + CIRCUIT_DISABLE_MS <= s.clock))
  }

  predicate Sending(s: Sys) {
    s.worker.Checked? || s.worker.Answered? || s.worker.Recorded?
  }

  lemma CallKeepsCircuit(c: Config, s: Sys, ok: bool)
    requires CircuitKept(s) && Enabled(s, Call(ok))
    ensures CircuitKept(Apply(c, s, Call(ok)))
  {
    var t := Apply(c, s, Call(ok));
    assert t.log == s.log + [Attempt(s.worker.row.endpoint, s.worker.id, s.clock, ok)];
  }

  lemma BreakerKeepsCircuit(c: Config, s: Sys, lost: bool)
    requires CircuitKept(s) && Enabled(s, WriteBreaker(lost))
    ensures CircuitKept(Apply(c, s, WriteBreaker(lost)))
  {
  }

  lemma SilentKeepsCircuit(c: Config, s: Sys, step: Step)
    requires Fresh(s) && CircuitKept(s) && Enabled(s, step) && !step.Call? && !step.WriteBreaker? && !Outside(step)
    ensures CircuitKept(Apply(c, s, step))
  {
    assert Apply(c, s, step).log == s.log && Apply(c, s, step).db.endpoints == s.db.endpoints;
  }

  lemma OutsideKeepsCircuit(c: Config, s: Sys, step: Step)
    requires CircuitKept(s) && Enabled(s, step) && Outside(step)
    ensures CircuitKept(Apply(c, s, step))
  {
    assert Apply(c, s, step).log == s.log && Apply(c, s, step).clock >= s.clock;
  }

  lemma StepKeepsCircuit(c: Config, s: Sys, step: Step)
    requires Fresh(s) && CircuitKept(s) && Enabled(s, step)
    ensures CircuitKept(Apply(c, s, step))
  {
    if step.Call? { CallKeepsCircuit(c, s, step.ok); }
    else if step.WriteBreaker? { BreakerKeepsCircuit(c, s, step.lost); }
    else if Outside(step) { OutsideKeepsCircuit(c, s, step); }
    else { SilentKeepsCircuit(c, s, step); }
  }

  /** Attempts made on a delivery, from the history. */
  function Made(log: seq<Entry>, id: Id): nat {
    if log == [] then 0
    else Made(log[..|log| - 1], id) + (if log[|log| - 1].Attempt? && log[|log| - 1].delivery == id then 1 else 0)
  }

  /** Each attempt on a row's count was a call made; none is spent otherwise, and on clean runs none goes uncounted. */
  predicate AttemptsSpent(s: Sys, clean: bool) {
    && (forall i: Id :: i < |s.db.deliveries| ==>
          var made := s.db.deliveries[i].attempt
            + (if s.worker.Answered? && s.worker.id == i && Open(s.db.deliveries[i].status) then 1 else 0);
          made <= Made(s.log, i) && (clean ==> made == Made(s.log, i)))
    && (forall i :: 0 <= i < |s.log| && s.log[i].Attempt? ==> s.log[i].delivery < |s.db.deliveries|)
  }

  lemma MadeAfter(log: seq<Entry>, entry: Entry, id: Id)
    ensures Made(log + [entry], id) == Made(log, id) + (if entry.Attempt? && entry.delivery == id then 1 else 0)
  {
    assert (log + [entry])[..|log|] == log;
  }

  lemma {:induction false} MadeOnNew(log: seq<Entry>, id: Id)
    requires forall i :: 0 <= i < |log| && log[i].Attempt? ==> log[i].delivery != id
    ensures Made(log, id) == 0
  {
    if log != [] { MadeOnNew(log[..|log| - 1], id); }
  }

  lemma StepKeepsAttempts(c: Config, s: Sys, step: Step, clean: bool)
    requires ValidConfig(c) && Fresh(s) && AttemptsSpent(s, clean) && Enabled(s, step) && (clean ==> Clean(s, step))
    ensures AttemptsSpent(Apply(c, s, step), clean)
  {
    if step.Call? {
      CallKeepsAttempts(c, s, step.ok, clean);
    } else if step.Dispatch? {
      DispatchKeepsAttempts(c, s, clean);
    } else {
      QuietStepKeepsAttempts(c, s, step, clean);
    }
  }

  lemma CallKeepsAttempts(c: Config, s: Sys, ok: bool, clean: bool)
    requires Fresh(s) && AttemptsSpent(s, clean) && Enabled(s, Call(ok))
    ensures AttemptsSpent(Apply(c, s, Call(ok)), clean)
  {
    var entry := Attempt(s.worker.row.endpoint, s.worker.id, s.clock, ok);
    forall id: Id { MadeAfter(s.log, entry, id); }
  }

  lemma DispatchKeepsAttempts(c: Config, s: Sys, clean: bool)
    requires Fresh(s) && AttemptsSpent(s, clean) && Enabled(s, Dispatch)
    ensures AttemptsSpent(Apply(c, s, Dispatch), clean)
  {
    var t := Apply(c, s, Dispatch);
    forall i: Id | i < |t.db.deliveries|
      ensures t.db.deliveries[i].attempt == Made(t.log, i) || (!clean && t.db.deliveries[i].attempt <= Made(t.log, i))
    {
      if i >= |s.db.deliveries| { MadeOnNew(s.log, i); }
    }
  }

  lemma QuietStepKeepsAttempts(c: Config, s: Sys, step: Step, clean: bool)
    requires Fresh(s) && AttemptsSpent(s, clean) && Enabled(s, step) && (clean ==> Clean(s, step))
    requires !step.Call? && !step.Dispatch?
    ensures AttemptsSpent(Apply(c, s, step), clean)
  {
    var t := Apply(c, s, step);
    if step.WriteBreaker? {
      forall i: Id { MadeAfter(s.log, Trip(s.worker.row.endpoint, s.clock), i); }
    } else {
      assert t.log == s.log;
    }
    assert |t.db.deliveries| == |s.db.deliveries|;
  }

  // -------------------------------------------------------------- theorems

  /** What every state has, wherever the worker died and whichever writes were lost. */
  ghost predicate Safe(c: Config, s: Sys) {
    Fresh(s) && FanOutExact(s) && SpacesKept(s) && DeliveriesOk(c, s) && CircuitKept(s) && AttemptsSpent(s, false)
  }

  lemma {:induction false} EveryRunIsSafe(c: Config, s: Sys, steps: seq<Step>, end: Sys)
    requires ValidConfig(c) && Safe(c, s) && Run(c, s, steps, false, end)
    ensures Safe(c, end)
    decreases |steps|
  {
    if steps != [] {
      StepKeepsFresh(c, s, steps[0]);
      StepKeepsFanOut(c, s, steps[0]);
      StepKeepsSpaces(c, s, steps[0]);
      StepKeepsDeliveries(c, s, steps[0]);
      StepKeepsCircuit(c, s, steps[0]);
      StepKeepsAttempts(c, s, steps[0], false);
      EveryRunIsSafe(c, Apply(c, s, steps[0]), steps[1..], end);
    }
  }

  /**
   * No (event, endpoint) pair is lost or delivered through two rows, and none crosses spaces; no
   * attempt is made, and no circuit opens again, within 15 minutes of its opening.
   */
  lemma OutboxSafety(c: Config, s: Sys, steps: seq<Step>, end: Sys)
    requires ValidConfig(c) && Start(s) && Run(c, s, steps, false, end)
    ensures FanOutExact(end) && DeliveriesOk(c, end) && CircuitKept(end) && AttemptsSpent(end, false)
    ensures forall d :: d in end.db.deliveries && d.endpoint in end.db.endpoints && d.event in end.db.events ==>
      end.db.endpoints[d.endpoint].space == end.db.events[d.event].space
  {
    EveryRunIsSafe(c, s, steps, end);
    forall d | d in end.db.deliveries && d.endpoint in end.db.endpoints && d.event in end.db.events
      ensures end.db.endpoints[d.endpoint].space == end.db.events[d.event].space
    {
      var i :| 0 <= i < |end.db.deliveries| && end.db.deliveries[i] == d;
      assert OneSpace(end.db, end.db.deliveries[i].endpoint, end.db.deliveries[i].event);
    }
  }

  lemma {:induction false} CleanRunsCount(c: Config, s: Sys, steps: seq<Step>, end: Sys)
    requires ValidConfig(c) && Fresh(s) && CountExact(c, s) && AttemptsSpent(s, true) && Run(c, s, steps, true, end)
    ensures CountExact(c, end) && AttemptsSpent(end, true)
    decreases |steps|
  {
    if steps != [] {
      StepKeepsFresh(c, s, steps[0]);
      StepKeepsCount(c, s, steps[0]);
      StepKeepsAttempts(c, s, steps[0], true);
      CleanRunsCount(c, Apply(c, s, steps[0]), steps[1..], end);
    }
  }

  /** With writes succeeding, failure_count is exactly the failures since the last success or trip. */
  lemma FailureCountIsStreak(c: Config, s: Sys, steps: seq<Step>, end: Sys)
    requires ValidConfig(c) && Start(s) && Run(c, s, steps, true, end) && end.worker.Idle?
    ensures forall id :: id in end.db.endpoints ==>
      end.db.endpoints[id].failures == Streak(end.log, id) && end.db.endpoints[id].failures < c.threshold
    ensures forall i: Id :: i < |end.db.deliveries| ==> end.db.deliveries[i].attempt == Made(end.log, i)
  {
    CleanRunsCount(c, s, steps, end);
  }
}
