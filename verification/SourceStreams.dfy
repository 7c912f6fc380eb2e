/** The source archive and its sync streams (src/domain/sources.ts, src/domain/source-streams.ts). */
module SourceStreams {
  // An append-only archive deduplicated by content, and per external document a mutable
  // head with a version marker and a tombstone.

  import opened Wrappers

  /** Rows are named by their position; content stands for its hash, which is taken to be injective. */
  datatype Source = Source(content: string, stream: Option<string>, version: Option<string>, supersedes: Option<nat>)
  datatype Stream = Stream(head: Option<nat>, version: Option<string>, live: bool)
  datatype Event = Tombstoned(ext: string, source: Option<nat>)
  datatype Db = Db(sources: seq<Source>, streams: map<string, Stream>, events: seq<Event>)

  datatype Push = Push(ext: string, version: Option<string>, content: string)
  datatype Outcome = NewVersion | Unchanged | Reverted
  datatype Receipt = Receipt(source: nat, created: bool, outcome: Outcome)
  datatype Error = VersionConflict | NotFound

  // -------------------------------------------------------------- archive

  predicate At(db: Db, k: nat, content: string) { k < |db.sources| && db.sources[k].content == content }

  predicate Archived(db: Db, content: string) { exists k :: 0 <= k < |db.sources| && At(db, k, content) }

  function HeadOf(db: Db, ext: string): Option<nat> { if ext in db.streams then db.streams[ext].head else None }

  function HeadContent(db: Db, ext: string): Option<string> {
    var head := HeadOf(db, ext);
    if head.Some? && head.value < |db.sources| then Some(db.sources[head.value].content) else None
  }

  /** Each content once, each link to a strictly earlier row, each head a row. */
  predicate Valid(db: Db) {
    && (forall i, j :: 0 <= i < j < |db.sources| ==> db.sources[i].content != db.sources[j].content)
    && (forall k :: 0 <= k < |db.sources| ==> LinksBack(db.sources, k))
    && (forall ext :: ext in db.streams ==> HeadExists(db, ext))
  }

  predicate HeadExists(db: Db, ext: string) {
    ext in db.streams && db.streams[ext].head.Some? && db.streams[ext].head.value < |db.sources|
  }

  predicate LinksBack(sources: seq<Source>, k: nat)
    requires k < |sources|
  {
    sources[k].supersedes.Some? ==> sources[k].supersedes.value < k && sources[k].stream.Some?
  }

  // ------------------------------------------------------------ operations

  /** The marker of the current head, pushed again with other content. */
  predicate Refused(db: Db, p: Push) {
    && p.version.Some? && p.ext in db.streams && db.streams[p.ext].version == p.version
    && HeadContent(db, p.ext).Some? && HeadContent(db, p.ext) != Some(p.content)
  }

  /** The outcome names the three cases of the pushed content: unseen, at the head, archived but not at the head. */
  predicate Classified(db: Db, p: Push, outcome: Outcome) {
    && (outcome == NewVersion <==> !Archived(db, p.content))
    && (outcome == Unchanged <==> HeadContent(db, p.ext) == Some(p.content))
    && (outcome == Reverted <==> Archived(db, p.content) && HeadContent(db, p.ext) != Some(p.content))
  }

  /** The whole effect of an accepted push. */
  predicate Pushed(before: Db, after: Db, p: Push, r: Receipt) {
    && At(after, r.source, p.content) && r.created == !Archived(before, p.content) && Classified(before, p, r.outcome)
    && after.sources == before.sources
         + (if r.created then [Source(p.content, Some(p.ext), p.version, HeadOf(before, p.ext))] else [])
    && after.streams == before.streams[p.ext := Stream(Some(r.source), p.version, true)]
    && after.events == before.events
  }

  function Ingested(before: Db, content: string): Db {
    if Archived(before, content) then before
    else before.(sources := before.sources + [Source(content, None, None, None)])
  }

  predicate Live(db: Db, ext: string) { ext in db.streams && db.streams[ext].live }

  function Buried(before: Db, ext: string): Db {
    if Live(before, ext) then
      before.(streams := before.streams[ext := before.streams[ext].(live := false)],
              events := before.events + [Tombstoned(ext, before.streams[ext].head)])
    else before
  }

  class Archive {
    var db: Db

    constructor ()
      ensures Valid(db) && db == Db([], map[], [])
    {
      db := Db([], map[], []);
    }

    /** createSource: an archived content answers with its row, anything else is appended. */
    static method CreateSource(tx: Db, row: Source) returns (after: Db, source: nat, created: bool)
      ensures created == !Archived(tx, row.content)
      ensures after == if created then tx.(sources := tx.sources + [row]) else tx
      ensures At(after, source, row.content)
    {
      for i := 0 to |tx.sources|
        invariant forall k :: 0 <= k < i ==> !At(tx, k, row.content)
      {
        if tx.sources[i].content == row.content {
          assert At(tx, i, row.content);
          return tx, i, false;
        }
      }
      after, source, created := tx.(sources := tx.sources + [row]), |tx.sources|, true;
    }

    /** A plain ingest, outside any stream. */
    method Ingest(content: string) returns (source: nat, created: bool)
      requires Valid(db)
      modifies this
      ensures Valid(db) && db == Ingested(old(db), content)
      ensures created == !Archived(old(db), content) && At(db, source, content)
    {
      var after, s, c := CreateSource(db, Source(content, None, None, None));
      if c { AppendIsValid(db, Source(content, None, None, None)); }
      db, source, created := after, s, c;
    }

    /** recordStreamVersion: one transaction, rolled back when the marker is reused for other content. */
    method RecordStreamVersion(p: Push) returns (r: Result<Receipt, Error>)
      requires Valid(db)
      modifies this
      ensures Valid(db)
      ensures r.Err? <==> Refused(old(db), p)
      ensures r.Err? ==> r.error == VersionConflict && db == old(db)
      ensures r.Ok? ==> Pushed(old(db), db, p, r.value)
    {
      var tx := db; // BEGIN
      if p.ext !in tx.streams { tx := tx.(streams := tx.streams[p.ext := Stream(None, None, true)]); }
      var row := tx.streams[p.ext];
      assert p.ext in db.streams ==> HeadExists(db, p.ext);
      var source, created;
      tx, source, created := CreateSource(tx, Source(p.content, Some(p.ext), p.version, row.head));
      SameArchive(db, tx, p.content, created);
      if row.head.Some? { OtherRow(db, tx, row.head.value, source, p.content); }
      if p.version.Some? && row.version == p.version && row.head.Some? && row.head.value != source {
        return Err(VersionConflict); // ROLLBACK
      }
      assert HeadContent(db, p.ext) == Some(p.content) ==> At(db, row.head.value, p.content);
      var outcome := if created then NewVersion else if row.head == Some(source) then Unchanged else Reverted;
      tx := tx.(streams := tx.streams[p.ext := Stream(Some(source), p.version, true)]);
      PushedIsValid(db, tx, p, source, created);
      db := tx; // COMMIT
      r := Ok(Receipt(source, created, outcome));
    }

    /** tombstoneStream: idempotent, one event per live stream it finds. */
    method TombstoneStream(ext: string) returns (r: Result<bool, Error>)
      requires Valid(db)
      modifies this
      ensures Valid(db) && db == Buried(old(db), ext)
      ensures r == if ext !in old(db).streams then Err(NotFound) else Ok(!Live(old(db), ext))
    {
      if ext !in db.streams { return Err(NotFound); }
      if !db.streams[ext].live { return Ok(true); }
      db := db.(streams := db.streams[ext := db.streams[ext].(live := false)], events :=
        db.events + [Tombstoned(ext, db.streams[ext].head)]);
      return Ok(false);
    }
  }

  predicate Appended(before: seq<Source>, after: seq<Source>, created: bool) {
    before <= after && |after| == |before| + if created then 1 else 0
  }

  lemma SameArchive(db: Db, tx: Db, content: string, created: bool)
    requires created == !Archived(Db(db.sources, tx.streams, tx.events), content)
      && Appended(db.sources, tx.sources, created)
    ensures created == !Archived(db, content)
  {
    forall k | 0 <= k < |db.sources| ensures At(db, k, content) <==>
      At(Db(db.sources, tx.streams, tx.events), k, content) {
    }
  }

  /** Row numbers and contents tell the head and the pushed row apart alike. */
  lemma OtherRow(db: Db, tx: Db, head: nat, source: nat, content: string)
    requires Valid(db) && head < |db.sources| && At(tx, source, content)
    requires Appended(db.sources, tx.sources, !Archived(db, content))
    ensures head != source <==> db.sources[head].content != content
  {
    assert tx.sources[head] == db.sources[head];
    if db.sources[head].content == content {
      assert At(db, head, content);
      assert source < |db.sources| && tx.sources[source] == db.sources[source];
    }
  }

  lemma AppendIsValid(db: Db, row: Source)
    requires Valid(db) && !Archived(db, row.content)
    requires row.supersedes.Some? ==> row.supersedes.value < |db.sources| && row.stream.Some?
    ensures Valid(db.(sources := db.sources + [row]))
  {
    var after := db.(sources := db.sources + [row]);
    forall k | 0 <= k < |after.sources| ensures LinksBack(after.sources, k) {
      if k < |db.sources| { assert LinksBack(db.sources, k); }
    }
    forall i | 0 <= i < |db.sources| ensures db.sources[i].content != row.content {
      assert !At(db, i, row.content);
    }
    forall ext | ext in after.streams ensures HeadExists(after, ext) { assert HeadExists(db, ext); }
  }

  lemma PushedIsValid(before: Db, after: Db, p: Push, source: nat, created: bool)
    requires Valid(before) && source < |after.sources| && created == !Archived(before, p.content)
    requires after.sources == before.sources + if created
      then [Source(p.content, Some(p.ext), p.version, HeadOf(before, p.ext))] else []
    requires after.streams.Keys == before.streams.Keys + {p.ext} && after.streams[p.ext].head == Some(source)
    requires forall ext :: ext in before.streams && ext != p.ext ==> after.streams[ext] == before.streams[ext]
    ensures Valid(after)
  {
    assert p.ext in before.streams ==> HeadExists(before, p.ext);
    if created { AppendIsValid(before, Source(p.content, Some(p.ext), p.version, HeadOf(before, p.ext))); }
    assert before.sources + [] == before.sources;
    var kept := before.(sources := after.sources);
    assert kept == before || kept == before.(sources :=
      before.sources + [Source(p.content, Some(p.ext), p.version, HeadOf(before, p.ext))]);
    forall ext | ext in after.streams ensures HeadExists(after, ext) { assert ext != p.ext ==> HeadExists(kept, ext); }
    forall k | 0 <= k < |after.sources| ensures LinksBack(after.sources, k) { assert LinksBack(kept.sources, k); }
  }

  // ------------------------------------------------------------------ runs

  datatype Op = DoPush(push: Push) | DoTombstone(ext: string) | DoIngest(content: string)

  ghost predicate Next(before: Db, after: Db, op: Op) {
    match op
    case DoPush(p) => if Refused(before, p) then after == before else exists r :: Pushed(before, after, p, r)
    case DoTombstone(ext) => after == Buried(before, ext)
    case DoIngest(content) => after == Ingested(before, content)
  }

  ghost predicate Run(states: seq<Db>, ops: seq<Op>) {
    && |states| == |ops| + 1 && states[0] == Db([], map[], [])
    && forall i :: 0 <= i < |ops| ==> Next(states[i], states[i + 1], ops[i])
  }

  lemma StepKeepsValid(before: Db, after: Db, op: Op)
    requires Valid(before) && Next(before, after, op)
    ensures Valid(after) && before.sources <= after.sources
  {
    match op
    case DoPush(p) =>
      if !Refused(before, p) {
        var r :| Pushed(before, after, p, r);
        PushedIsValid(before, after, p, r.source, r.created);
      }
    case DoTombstone(ext) =>
      forall e | e in after.streams ensures HeadExists(after, e) { assert HeadExists(before, e); }
    case DoIngest(content) =>
      if !Archived(before, content) { AppendIsValid(before, Source(content, None, None, None)); }
  }

  lemma {:induction false} EveryRunIsValid(states: seq<Db>, ops: seq<Op>, i: nat)
    requires Run(states, ops) && i < |states|
    ensures Valid(states[i])
  {
    if i > 0 {
      EveryRunIsValid(states, ops, i - 1);
      StepKeepsValid(states[i - 1], states[i], ops[i - 1]);
    }
  }

  /** A stream, seen from outside: never pushed, or the last accepted content with its marker, alive or tombstoned. */
  datatype Fate = Unknown | Alive(content: string, version: Option<string>)
    | Dead(content: string, version: Option<string>)

  /** What the sequence of accepted operations says about a stream. */
  ghost function FateOf(states: seq<Db>, ops: seq<Op>, ext: string, i: nat): Fate
    requires Run(states, ops) && i < |states|
  {
    if i == 0 then Unknown
    else
      var before := FateOf(states, ops, ext, i - 1);
      match ops[i - 1]
      case DoPush(p) => if p.ext == ext && !Refused(states[i - 1], p) then Alive(p.content, p.version) else before
      case DoTombstone(e) => if e == ext && before.Alive? then Dead(before.content, before.version) else before
      case DoIngest(_) => before
  }

  function View(db: Db, ext: string): Fate {
    if HeadContent(db, ext).None? then Unknown
    else if Live(db, ext) then Alive(HeadContent(db, ext).value, db.streams[ext].version)
    else Dead(HeadContent(db, ext).value, db.streams[ext].version)
  }

  lemma StepChangesView(before: Db, after: Db, op: Op, ext: string)
    requires Valid(before) && Next(before, after, op)
    ensures View(after, ext) == match op
      case DoPush(p) => (if p.ext == ext && !Refused(before, p) then Alive(p.content, p.version) else View(before, ext))
      case DoTombstone(e) => (if e == ext && View(before, ext).Alive?
        then Dead(View(before, ext).content, View(before, ext).version)
        else View(before, ext))
      case DoIngest(_) => View(before, ext)
  {
    assert ext in before.streams ==> HeadExists(before, ext);
  }

  /** The stored head, marker and tombstone say exactly what the accepted operations say. */
  lemma {:induction false} HeadIsLastAccepted(states: seq<Db>, ops: seq<Op>, ext: string, i: nat)
    requires Run(states, ops) && i < |states|
    ensures View(states[i], ext) == FateOf(states, ops, ext, i)
  {
    if i > 0 {
      HeadIsLastAccepted(states, ops, ext, i - 1);
      EveryRunIsValid(states, ops, i - 1);
      StepChangesView(states[i - 1], states[i], ops[i - 1], ext);
    }
  }

  function EventsOf(events: seq<Event>, ext: string): nat {
    if events == [] then 0
    else EventsOf(events[..|events| - 1], ext) + if events[|events| - 1].ext == ext then 1 else 0
  }

  /** How often a stream went from live to tombstoned. */
  ghost function Deaths(states: seq<Db>, ext: string, i: nat): nat
    requires i < |states|
  {
    if i == 0 then 0
    else Deaths(states, ext, i - 1) + if Live(states[i - 1], ext) && !Live(states[i], ext) then 1 else 0
  }

  lemma {:induction false} EventsCountDeaths(states: seq<Db>, ops: seq<Op>, ext: string, i: nat)
    requires Run(states, ops) && i < |states|
    ensures EventsOf(states[i].events, ext) == Deaths(states, ext, i)
  {
    if i > 0 {
      EventsCountDeaths(states, ops, ext, i - 1);
      assert Next(states[i - 1], states[i], ops[i - 1]);
      StepCountsDeath(states[i - 1], states[i], ops[i - 1], ext);
    }
  }

  lemma StepCountsDeath(before: Db, after: Db, op: Op, ext: string)
    requires Next(before, after, op)
    ensures EventsOf(after.events, ext) == EventsOf(before.events, ext) + if Live(before, ext)
      && !Live(after, ext) then 1 else 0
  {
    match op
    case DoPush(p) => PushKillsNothing(before, after, p, ext);
    case DoTombstone(dead) => if Live(before, dead) {
      OneMoreEvent(before.events, Tombstoned(dead, before.streams[dead].head), ext);
    }
    case DoIngest(_) =>
  }

  lemma PushKillsNothing(before: Db, after: Db, p: Push, ext: string)
    requires Next(before, after, DoPush(p))
    ensures after.events == before.events && (Live(before, ext) ==> Live(after, ext))
  {
  }

  lemma OneMoreEvent(events: seq<Event>, e: Event, ext: string)
    ensures EventsOf(events + [e], ext) == EventsOf(events, ext) + if e.ext == ext then 1 else 0
  {
    assert (events + [e])[..|events|] == events;
  }

  // ------------------------------------------------------- supersedes chain

  predicate AllLinkBack(sources: seq<Source>) { forall k :: 0 <= k < |sources| ==> LinksBack(sources, k) }

  /** Walking supersedes links from row k: the walk is a function because every link goes back. */
  function Chain(sources: seq<Source>, k: nat): seq<nat>
    requires AllLinkBack(sources) && k < |sources|
    decreases k
  {
    assert LinksBack(sources, k);
    if sources[k].supersedes.None? then [k] else [k] + Chain(sources, sources[k].supersedes.value)
  }

  /** The walk descends strictly, ends at a row that replaced nothing, and never meets the same bytes twice. */
  lemma {:induction false} ChainDescends(db: Db, k: nat)
    requires Valid(db) && k < |db.sources|
    ensures var c := Chain(db.sources, k);
      && c[0] == k && |c| <= k + 1
      && (forall i :: 0 <= i < |c| ==> c[i] <= k)
      && (forall i, j :: 0 <= i < j < |c| ==> c[j] < c[i] && db.sources[c[i]].content != db.sources[c[j]].content)
      && db.sources[c[|c| - 1]].supersedes.None?
    decreases k
  {
    assert LinksBack(db.sources, k);
    if db.sources[k].supersedes.Some? {
      ChainDescends(db, db.sources[k].supersedes.value);
    }
  }

  /** Each row of a stream replaced the content its stream's head held when it was archived. */
  ghost predicate LinkedToHead(states: seq<Db>, k: nat, i: nat) {
    && i + 1 < |states| && |states[i].sources| == k < |states[i + 1].sources|
    && (states[i + 1].sources[k].stream.Some? ==>
          states[i + 1].sources[k].supersedes == HeadOf(states[i], states[i + 1].sources[k].stream.value))
  }

  lemma {:induction false} LinksNameFormerHeads(states: seq<Db>, ops: seq<Op>, n: nat, k: nat) returns (i: nat)
    requires Run(states, ops) && n < |states| && k < |states[n].sources|
    ensures i < n && LinkedToHead(states, k, i) && states[n].sources[k] == states[i + 1].sources[k]
  {
    EveryRunIsValid(states, ops, n - 1);
    StepKeepsValid(states[n - 1], states[n], ops[n - 1]);
    if k < |states[n - 1].sources| {
      i := LinksNameFormerHeads(states, ops, n - 1, k);
    } else {
      i := n - 1;
    }
  }

  // -------------------------------------------------- what markers promise

  /** A marker is compared with the head only: a marker used earlier may come back for other content. */
  lemma MarkersRepeatAcrossHeads(a: string, b: string, c: string, v: Option<string>,
    w: Option<string>) returns (states: seq<Db>, ops: seq<Op>)
    requires a != b && b != c && a != c && v.Some? && w.Some? && v != w
    ensures Run(states, ops) && |ops| == 3 && ops[0] == DoPush(Push("x", v, a)) && ops[2] == DoPush(Push("x", v, c))
    ensures |states[3].sources| == 3 && states[3].sources[0] == Source(a, Some("x"), v, None)
    ensures states[3].sources[2] == Source(c, Some("x"), v, Some(1))
  {
    var s0 := Db([], map[], []);
    var s1 := Db([Source(a, Some("x"), v, None)], map["x" := Stream(Some(0), v, true)], []);
    var s2 := Db(s1.sources + [Source(b, Some("x"), w, Some(0))], map["x" := Stream(Some(1), w, true)], []);
    var s3 := Db(s2.sources + [Source(c, Some("x"), v, Some(1))], map["x" := Stream(Some(2), v, true)], []);
    states, ops := [s0, s1, s2, s3], [DoPush(Push("x", v, a)), DoPush(Push("x", w, b)), DoPush(Push("x", v, c))];
    assert Pushed(s0, s1, Push("x", v, a), Receipt(0, true, NewVersion));
    assert !Archived(s1, b) && !Archived(s2, c);
    assert Pushed(s1, s2, Push("x", w, b), Receipt(1, true, NewVersion));
    assert Pushed(s2, s3, Push("x", v, c), Receipt(2, true, NewVersion));
    assert Next(s0, s1, ops[0]) && Next(s1, s2, ops[1]) && Next(s2, s3, ops[2]);
  }

  // What a run promises: one marker names one content for as long as no push comes back
  // to a marker its stream has left.

  predicate Accepted(states: seq<Db>, ops: seq<Op>, n: nat) {
    n < |ops| && n < |states| && ops[n].DoPush? && !Refused(states[n], ops[n].push)
  }

  /** Two accepted pushes of one document give one marker to different contents. */
  predicate Clash(states: seq<Db>, ops: seq<Op>, m: nat, n: nat) {
    && m < n && Accepted(states, ops, m) && Accepted(states, ops, n)
    && ops[m].push.ext == ops[n].push.ext && ops[m].push.version == ops[n].push.version && ops[n].push.version.Some?
    && ops[m].push.content != ops[n].push.content
  }

  predicate Carries(db: Db, ext: string, version: Option<string>) {
    ext in db.streams && db.streams[ext].version == version
  }

  /** And the stream's row has another marker when the later one arrives, so that nothing is compared. */
  predicate Returns(states: seq<Db>, ops: seq<Op>, m: nat, n: nat) {
    Clash(states, ops, m, n) && !Carries(states[n], ops[n].push.ext, ops[n].push.version)
  }

  /** The accepted push the stream's head and marker come from. */
  predicate LastPush(states: seq<Db>, ops: seq<Op>, ext: string, i: nat, k: nat) {
    && k < i && Accepted(states, ops, k) && ops[k].push.ext == ext
    && forall j :: k < j < i && Accepted(states, ops, j) ==> ops[j].push.ext != ext
  }

  function PushedTo(fate: Fate): Option<(string, Option<string>)> {
    match fate
    case Unknown => None
    case Alive(content, version) => Some((content, version))
    case Dead(content, version) => Some((content, version))
  }

  lemma {:induction false} FateNamesLastPush(states: seq<Db>, ops: seq<Op>, ext: string, i: nat, m: nat)
    returns (k: nat)
    requires Run(states, ops) && m < i < |states| && Accepted(states, ops, m) && ops[m].push.ext == ext
    ensures m <= k && LastPush(states, ops, ext, i, k)
    ensures PushedTo(FateOf(states, ops, ext, i)) == Some((ops[k].push.content, ops[k].push.version))
  {
    if Accepted(states, ops, i - 1) && ops[i - 1].push.ext == ext {
      k := i - 1;
    } else {
      k := FateNamesLastPush(states, ops, ext, i - 1, m);
    }
  }

  /** Once a document has been pushed, its stream's row holds the content and the marker of the last accepted push. */
  lemma RowIsLastPush(states: seq<Db>, ops: seq<Op>, ext: string, i: nat, m: nat) returns (k: nat)
    requires Run(states, ops) && m < i < |states| && Accepted(states, ops, m) && ops[m].push.ext == ext
    ensures m <= k && LastPush(states, ops, ext, i, k)
    ensures HeadContent(states[i], ext) == Some(ops[k].push.content) && Carries(states[i], ext, ops[k].push.version)
  {
    k := FateNamesLastPush(states, ops, ext, i, m);
    HeadIsLastAccepted(states, ops, ext, i);
  }

  /** Coming back to a marker means that the last accepted push of the document had another one. */
  lemma ReturnsFromAnother(states: seq<Db>, ops: seq<Op>, m: nat, n: nat)
    requires Run(states, ops) && Clash(states, ops, m, n)
    ensures Returns(states, ops, m, n) <==> exists k: nat ::
      m < k && LastPush(states, ops, ops[n].push.ext, n, k) && ops[k].push.version != ops[n].push.version
  {
    var k := RowIsLastPush(states, ops, ops[n].push.ext, n, m);
    assert forall j: nat :: LastPush(states, ops, ops[n].push.ext, n, j) ==> j == k;
  }

  /** A marker given to two contents was come back to at or before the second. */
  lemma {:induction false} ClashNeedsReturn(states: seq<Db>, ops: seq<Op>, m: nat, n: nat) returns (i: nat)
    requires Run(states, ops) && Clash(states, ops, m, n)
    ensures m < i <= n && Returns(states, ops, m, i)
    decreases n
  {
    if Carries(states[n], ops[n].push.ext, ops[n].push.version) {
      var k := RowIsLastPush(states, ops, ops[n].push.ext, n, m);
      i := ClashNeedsReturn(states, ops, m, k);
    } else {
      i := n;
    }
  }

  /** Over every run: a marker always means the same bytes exactly when no push comes back to a marker left behind. */
  lemma MarkersMeanOneContent(states: seq<Db>, ops: seq<Op>)
    requires Run(states, ops)
    ensures (forall m, n :: !Clash(states, ops, m, n)) <==> (forall m, n :: !Returns(states, ops, m, n))
  {
    if m, n :| Clash(states, ops, m, n) {
      var i := ClashNeedsReturn(states, ops, m, n);
    }
  }

  /** The pushes of a document that carry one marker follow one another without another in between. */
  predicate NeverGoesBack(ops: seq<Op>) {
    forall m, k, n :: 0 <= m < k < n < |ops| && ops[m].DoPush? && ops[k].DoPush? && ops[n].DoPush?
      && ops[m].push.ext == ops[k].push.ext == ops[n].push.ext && ops[m].push.version == ops[n].push.version
      ==> ops[k].push.version == ops[n].push.version
  }

  /** So a connector that never goes back to a marker never has one marker for two contents. */
  lemma NoReturnNoClash(states: seq<Db>, ops: seq<Op>, m: nat, n: nat)
    requires Run(states, ops) && NeverGoesBack(ops)
    ensures !Clash(states, ops, m, n)
  {
    if Clash(states, ops, m, n) {
      var i := ClashNeedsReturn(states, ops, m, n);
      var k := RowIsLastPush(states, ops, ops[i].push.ext, i, m);
      assert false;
    }
  }

  lemma {:induction false} NoPushNoFate(states: seq<Db>, ops: seq<Op>, ext: string, i: nat)
    requires Run(states, ops) && i < |states|
    requires forall m: nat :: m < i && Accepted(states, ops, m) ==> ops[m].push.ext != ext
    ensures FateOf(states, ops, ext, i) == Unknown
  {
    if i > 0 { NoPushNoFate(states, ops, ext, i - 1); }
  }

  /** Over every run a push is refused exactly when the last accepted push had its marker and other content. */
  lemma RefusedExactly(states: seq<Db>, ops: seq<Op>, n: nat)
    requires Run(states, ops) && n < |ops| && ops[n].DoPush?
    ensures Refused(states[n], ops[n].push) <==>
      exists k: nat :: LastPush(states, ops, ops[n].push.ext, n, k) && ops[n].push.version.Some?
        && ops[k].push.version == ops[n].push.version && ops[k].push.content != ops[n].push.content
  {
    var p := ops[n].push;
    if m: nat :| m < n && Accepted(states, ops, m) && ops[m].push.ext == p.ext {
      var k := RowIsLastPush(states, ops, p.ext, n, m);
      assert forall j: nat :: LastPush(states, ops, p.ext, n, j) ==> j == k;
    } else {
      NoPushNoFate(states, ops, p.ext, n);
      HeadIsLastAccepted(states, ops, p.ext, n);
    }
  }

  /** The event of a tombstone names the document and the head it had. */
  lemma TombstoneSays(db: Db, ext: string)
    requires ext in db.streams
    ensures Buried(db, ext).events
      == db.events + if db.streams[ext].live then [Tombstoned(ext, db.streams[ext].head)] else []
    ensures Buried(db, ext).sources == db.sources
    ensures Buried(db, ext).streams == db.streams[ext := db.streams[ext].(live := false)]
  {
    assert db.events + [] == db.events;
    assert !db.streams[ext].live ==> db.streams[ext] == db.streams[ext].(live := false);
  }
}
