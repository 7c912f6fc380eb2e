/** Self-migration at boot (src/db/migrate.ts). */
module Migrations {
  // Each pending migration and its journal row commit in one transaction, so a boot may
  // die anywhere. The advisory lock makes boots of several binaries follow one another.

  import opened Wrappers
  import opened Text

  datatype Migration = Migration(tag: string, hash: string, statements: seq<string>)
  datatype Executed = Executed(tag: string, statement: string)

  /** Committed state: the journal, and every statement in the order it took effect. */
  datatype Db = Db(journal: map<string, string>, executed: seq<Executed>)

  datatype Report = Report(applied: seq<string>, skipped: nat, backfilled: nat)

  function Block(m: Migration): seq<Executed> {
    seq(|m.statements|, i requires 0 <= i < |m.statements| => Executed(m.tag, m.statements[i]))
  }

  function Committed(db: Db, m: Migration): Db {
    Db(db.journal[m.tag := m.hash], db.executed + Block(m))
  }

  // ------------------------------------------------------------- outcome

  /**
   * The effect of one list entry in a boot that found `before`; None when its tag was already committed
   * by this very boot.
   */
  function Step(before: Db, db: Db, m: Migration): Option<Db> {
    if m.tag in before.journal then
      Some(if before.journal[m.tag] == m.hash then db else db.(journal := db.journal[m.tag := m.hash]))
    else if m.tag in db.journal then None
    else Some(Committed(db, m))
  }

  function After(before: Db, migrations: seq<Migration>): Option<Db> {
    if migrations == [] then Some(before)
    else
      var prior := After(before, migrations[..|migrations| - 1]);
      if prior.None? then None else Step(before, prior.value, migrations[|migrations| - 1])
  }

  /** The report over some entries, against the journal the boot found. */
  function Tally(journal: map<string, string>, migrations: seq<Migration>): Report {
    if migrations == [] then Report([], 0, 0)
    else
      var t, m := Tally(journal, migrations[..|migrations| - 1]), migrations[|migrations| - 1];
      if m.tag !in journal then t.(applied := t.applied + [m.tag])
      else if journal[m.tag] == m.hash then t.(skipped := t.skipped + 1)
      else t.(backfilled := t.backfilled + 1)
  }

  // ----------------------------------------------------------- connection

  /** A session that may lose its server at any query; the query it loses may be a commit that still lands. */
  class Connection {
    var db: Db
    var tx: Option<Db>
    /** Queries left before the session dies. */
    var fuel: nat
    const lands: bool
    /** Statements the server refuses. */
    const broken: set<string>

    constructor (db: Db, fuel: nat, lands: bool, broken: set<string>)
      ensures this.db == db && tx.None? && this.fuel == fuel && this.lands == lands && this.broken == broken
    {
      this.db, this.tx, this.fuel, this.lands, this.broken := db, None, fuel, lands, broken;
    }

    method Spend() returns (ok: bool)
      modifies this`fuel
      ensures ok <==> old(fuel) > 0
    {
      ok := fuel > 0;
      if ok { fuel := fuel - 1; }
    }

    method Execute(e: Executed) returns (ok: bool)
      requires tx.Some?
      modifies this`fuel, this`tx
      ensures tx.Some?
      ensures ok ==> tx.value == old(tx).value.(executed := old(tx).value.executed + [e])
    {
      ok := Spend();
      if ok && e.statement in broken { ok := false; }
      if ok { tx := Some(tx.value.(executed := tx.value.executed + [e])); }
    }

    /** The journal insert; a recorded tag is a duplicate key. */
    method Record(tag: string, hash: string) returns (ok: bool)
      requires tx.Some?
      modifies this`fuel, this`tx
      ensures tx.Some?
      ensures ok ==>
        tag !in old(tx).value.journal && tx.value == old(tx).value.(journal := old(tx).value.journal[tag := hash])
    {
      ok := Spend();
      if ok && tag in tx.value.journal { ok := false; }
      if ok { tx := Some(tx.value.(journal := tx.value.journal[tag := hash])); }
    }

    method Commit() returns (ok: bool)
      requires tx.Some?
      modifies this`fuel, this`tx, this`db
      ensures tx.None?
      ensures ok ==> db == old(tx).value
      ensures db == old(db) || db == old(tx).value
    {
      ok := Spend();
      if ok || lands { db := tx.value; }
      tx := None;
    }

    /** UPDATE of one journal row, outside any transaction. */
    method Rehash(tag: string, hash: string) returns (ok: bool)
      requires tx.None? && tag in db.journal
      modifies this`fuel, this`db
      ensures ok ==> db == old(db).(journal := old(db).journal[tag := hash])
      ensures db == old(db) || db == old(db).(journal := old(db).journal[tag := hash])
    {
      ok := Spend();
      if ok || lands { db := db.(journal := db.journal[tag := hash]); }
    }

    /** One pending migration in its own transaction: all of it, or nothing. */
    method ApplyOne(m: Migration) returns (ok: bool)
      requires tx.None?
      modifies this
      ensures tx.None?
      ensures ok ==> m.tag !in old(db).journal && db == Committed(old(db), m)
      ensures db == old(db) || (m.tag !in old(db).journal && db == Committed(old(db), m))
    {
      ok := Spend(); // BEGIN
      if !ok { return; }
      tx := Some(db);
      for i := 0 to |m.statements|
        invariant ok && db == old(db) && tx.Some?
        invariant tx.value == old(db).(executed := old(db).executed + Block(m)[..i])
      {
        ok := Execute(Executed(m.tag, m.statements[i]));
        if !ok { tx := None; return; } // ROLLBACK
        assert Block(m)[..i + 1] == Block(m)[..i] + [Executed(m.tag, m.statements[i])];
      }
      assert Block(m)[..|m.statements|] == Block(m);
      ok := Record(m.tag, m.hash);
      if !ok { tx := None; return; } // ROLLBACK
      ok := Commit();
    }

    /**
     * applyMigrations: the first n entries have taken effect, all of them when it
     * returns a report; the report accounts for every entry.
     */
    method ApplyMigrations(migrations: seq<Migration>) returns (r: Option<Report>, ghost n: nat)
      requires tx.None?
      modifies this
      ensures tx.None? && n <= |migrations| && After(old(db), migrations[..n]) == Some(db)
      ensures r.Some? ==> n == |migrations| && r.value == Tally(old(db).journal, migrations)
    {
      n := 0;
      assert migrations[..0] == [];
      var ready := Spend(); // the journal table, and reading it
      if !ready { return None, 0; }
      var hashByTag := db.journal;
      var report := Report([], 0, 0);
      for i := 0 to |migrations|
        invariant tx.None? && After(old(db), migrations[..i]) == Some(db)
        invariant hashByTag == old(db).journal && report == Tally(hashByTag, migrations[..i])
        invariant forall tag :: tag in hashByTag ==> tag in db.journal
      {
        var m := migrations[i];
        n := i;
        assert migrations[..i + 1][..i] == migrations[..i];
        if m.tag in hashByTag {
          if hashByTag[m.tag] == m.hash {
            report := report.(skipped := report.skipped + 1);
          } else {
            ghost var was := db;
            var ok := Rehash(m.tag, m.hash);
            n := if db == was then i else i + 1;
            if !ok { return None, n; }
            report := report.(backfilled := report.backfilled + 1);
          }
        } else {
          ghost var was := db;
          var ok := ApplyOne(m);
          n := if db == was then i else i + 1;
          if !ok { return None, n; }
          report := report.(applied := report.applied + [m.tag]);
        }
      }
      assert migrations[..|migrations|] == migrations;
      n := |migrations|;
      r := Some(report);
    }
  }

  // ------------------------------------------------------------- lineage

  function Tags(done: seq<Migration>): seq<string> {
    seq(|done|, i requires 0 <= i < |done| => done[i].tag)
  }

  function Blocks(done: seq<Migration>): seq<Executed> {
    if done == [] then [] else Blocks(done[..|done| - 1]) + Block(done[|done| - 1])
  }

  /**
   * done lists the migrations that ever committed: each tag once, the committed
   * statements are theirs and nothing else, and the journal records exactly their tags.
   */
  ghost predicate Lineage(db: Db, done: seq<Migration>) {
    && NoRepeats(Tags(done))
    && db.executed == Blocks(done)
    && forall tag :: tag in db.journal <==> tag in Tags(done)
  }

  /** Entries whose tag the journal does not hold. */
  function Pending(journal: map<string, string>, migrations: seq<Migration>): seq<Migration> {
    if migrations == [] then []
    else
      var rest := Pending(journal, migrations[..|migrations| - 1]);
      if migrations[|migrations| - 1].tag in journal then rest else rest + [migrations[|migrations| - 1]]
  }

  lemma {:induction false} JournalGrows(before: Db, migrations: seq<Migration>, tag: string)
    requires After(before, migrations).Some? && tag in before.journal
    ensures tag in After(before, migrations).value.journal
    decreases |migrations|
  {
    if migrations != [] { JournalGrows(before, migrations[..|migrations| - 1], tag); }
  }

  /** However far a boot got, what it committed are the first entries of its pending list, each once. */
  lemma {:induction false} BootExtendsLineage(before: Db, migrations: seq<Migration>, done: seq<Migration>)
    requires Lineage(before, done) && After(before, migrations).Some?
    ensures Lineage(After(before, migrations).value, done + Pending(before.journal, migrations))
    decreases |migrations|
  {
    var more := Pending(before.journal, migrations);
    if migrations == [] {
      assert done + more == done;
    } else {
      var init, m := migrations[..|migrations| - 1], migrations[|migrations| - 1];
      BootExtendsLineage(before, init, done);
      var prior, earlier := After(before, init).value, done + Pending(before.journal, init);
      if m.tag in before.journal {
        JournalGrows(before, init, m.tag);
      } else {
        var longer := done + more;
        assert longer == earlier + [m] && longer[..|longer| - 1] == earlier;
        assert Tags(longer) == Tags(earlier) + [m.tag];
        assert m.tag !in Tags(earlier);
        assert NoRepeats(Tags(longer)) by {
          assert forall i :: 0 <= i < |earlier| ==> Tags(earlier)[i] in Tags(earlier);
        }
      }
    }
  }

  /** One boot of some binary: the list it embeds, and how many entries took effect before it returned or died. */
  datatype Boot = Boot(migrations: seq<Migration>, reached: nat)

  ghost predicate Booted(before: Db, after: Db, b: Boot) {
    b.reached <= |b.migrations| && After(before, b.migrations[..b.reached]) == Some(after)
  }

  ghost predicate Run(states: seq<Db>, boots: seq<Boot>) {
    && |states| == |boots| + 1 && states[0] == Db(map[], [])
    && forall i :: 0 <= i < |boots| ==> Booted(states[i], states[i + 1], boots[i])
  }

  /** Everything the first i boots committed, in order. */
  ghost function Done(states: seq<Db>, boots: seq<Boot>, i: nat): seq<Migration>
    requires Run(states, boots) && i <= |boots|
  {
    if i == 0 then []
    else
      assert Booted(states[i - 1], states[i - 1 + 1], boots[i - 1]);
      Done(states, boots, i - 1) + Pending(states[i - 1].journal, boots[i - 1].migrations[..boots[i - 1].reached])
  }

  /**
   * Over any boots of any binaries, dying anywhere: a tag is journalled iff its statements committed,
   * and they commit once.
   */
  lemma {:induction false} EveryRunKeepsLineage(states: seq<Db>, boots: seq<Boot>, i: nat)
    requires Run(states, boots) && i <= |boots|
    ensures Lineage(states[i], Done(states, boots, i))
  {
    if i > 0 {
      EveryRunKeepsLineage(states, boots, i - 1);
      assert Booted(states[i - 1], states[i], boots[i - 1]);
      BootExtendsLineage(states[i - 1], boots[i - 1].migrations[..boots[i - 1].reached], Done(states, boots, i - 1));
    }
  }

  lemma {:induction false} CountTag(done: seq<Migration>, tag: string, statement: string) returns (k: nat)
    requires Executed(tag, statement) in Blocks(done)
    ensures k < |done| && done[k].tag == tag && statement in done[k].statements
    decreases |done|
  {
    var init, last := done[..|done| - 1], done[|done| - 1];
    if Executed(tag, statement) in Blocks(init) {
      k := CountTag(init, tag, statement);
    } else {
      var j :| 0 <= j < |last.statements| && Block(last)[j] == Executed(tag, statement);
      k := |done| - 1;
    }
  }

  predicate Performs(m: Migration, e: Executed) { m.tag == e.tag && e.statement in m.statements }

  /** A statement in effect comes from the one commit of its tag, and that tag is journalled. */
  lemma EffectsAreJournalled(states: seq<Db>, boots: seq<Boot>, i: nat, e: Executed)
    requires Run(states, boots) && i <= |boots| && e in states[i].executed
    ensures e.tag in states[i].journal
    ensures exists k :: 0 <= k < |Done(states, boots, i)| && Performs(Done(states, boots, i)[k], e)
  {
    EveryRunKeepsLineage(states, boots, i);
    var done := Done(states, boots, i);
    var k := CountTag(done, e.tag, e.statement);
    assert Tags(done)[k] == e.tag && Performs(done[k], e);
  }

  // ------------------------------------------------- statements, in full

  /** The statements that took effect under one tag, in the order they did. */
  function Ran(executed: seq<Executed>, tag: string): seq<string> {
    if executed == [] then []
    else
      var last := executed[|executed| - 1];
      Ran(executed[..|executed| - 1], tag) + if last.tag == tag then [last.statement] else []
  }

  lemma {:induction false} RanOnly(executed: seq<Executed>, more: seq<Executed>, tag: string)
    ensures Ran(executed + more, tag) == Ran(executed, tag) + Ran(more, tag)
    decreases |more|
  {
    if more == [] {
      assert executed + more == executed;
    } else {
      var all := executed + more;
      RanOnly(executed, more[..|more| - 1], tag);
      assert all[..|all| - 1] == executed + more[..|more| - 1];
    }
  }

  lemma {:induction false} BlockRuns(m: Migration, n: nat, tag: string)
    requires n <= |Block(m)| == |m.statements|
    ensures Ran(Block(m)[..n], tag) == if tag == m.tag then m.statements[..n] else []
    decreases n
  {
    if n > 0 {
      BlockRuns(m, n - 1, tag);
      assert Block(m)[..n][..n - 1] == Block(m)[..n - 1];
      assert m.statements[..n] == m.statements[..n - 1] + [m.statements[n - 1]];
    }
  }

  lemma WholeBlockRuns(m: Migration, tag: string)
    ensures Ran(Block(m), tag) == if tag == m.tag then m.statements else []
  {
    BlockRuns(m, |m.statements|, tag);
    var whole := Block(m)[..|m.statements|];
    assert whole == Block(m);
  }

  /** A commit runs every statement of its migration, in order, and nothing under any other tag. */
  lemma CommitRunsAll(db: Db, m: Migration, tag: string)
    ensures Ran(Committed(db, m).executed, tag) == Ran(db.executed, tag) + if tag == m.tag then m.statements else []
    ensures Get(Committed(db, m).journal, tag) == if tag == m.tag then Some(m.hash) else Get(db.journal, tag)
  {
    RanOnly(db.executed, Block(m), tag);
    WholeBlockRuns(m, tag);
  }

  function Get(journal: map<string, string>, tag: string): Option<string> {
    if tag in journal then Some(journal[tag]) else None
  }

  lemma {:induction false} UnlistedRanNothing(done: seq<Migration>, tag: string)
    requires tag !in Tags(done)
    ensures Ran(Blocks(done), tag) == []
    decreases |done|
  {
    if done != [] {
      var init, m := done[..|done| - 1], done[|done| - 1];
      assert Tags(done) == Tags(init) + [m.tag];
      UnlistedRanNothing(init, tag);
      CommitRunsAll(Db(map[], Blocks(init)), m, tag);
    }
  }

  lemma LastTagIsNew(done: seq<Migration>)
    requires NoRepeats(Tags(done)) && done != []
    ensures NoRepeats(Tags(done[..|done| - 1])) && done[|done| - 1].tag !in Tags(done[..|done| - 1])
  {
    var all, init := Tags(done), Tags(done[..|done| - 1]);
    forall i | 0 <= i < |init| ensures init[i] == all[i] != all[|init|] { }
  }

  lemma {:induction false} EachRanInFull(done: seq<Migration>, k: nat)
    requires NoRepeats(Tags(done)) && k < |done|
    ensures Ran(Blocks(done), done[k].tag) == done[k].statements
    decreases |done|
  {
    var init, m := done[..|done| - 1], done[|done| - 1];
    LastTagIsNew(done);
    CommitRunsAll(Db(map[], Blocks(init)), m, done[k].tag);
    if k == |init| {
      UnlistedRanNothing(init, m.tag);
    } else {
      EachRanInFull(init, k);
      assert Tags(init)[k] == done[k].tag;
    }
  }

  /**
   * In every state of every run: what took effect under the tag of a migration that ever
   * committed are its statements, all of them, in order, once; under any other tag, nothing.
   */
  lemma EveryStatementRanOnce(states: seq<Db>, boots: seq<Boot>, i: nat, tag: string)
    requires Run(states, boots) && i <= |boots|
    ensures forall k :: 0 <= k < |Done(states, boots, i)| ==>
      Ran(states[i].executed, Done(states, boots, i)[k].tag) == Done(states, boots, i)[k].statements
    ensures tag !in states[i].journal ==> Ran(states[i].executed, tag) == []
  {
    EveryRunKeepsLineage(states, boots, i);
    var done := Done(states, boots, i);
    forall k | 0 <= k < |done| ensures Ran(states[i].executed, done[k].tag) == done[k].statements {
      EachRanInFull(done, k);
    }
    if tag !in states[i].journal { UnlistedRanNothing(done, tag); }
  }

  lemma {:induction false} PendingIsListed(journal: map<string, string>, migrations: seq<Migration>, i: nat)
    returns (k: nat)
    requires i < |migrations| && migrations[i].tag !in journal
    ensures k < |Pending(journal, migrations)| && Pending(journal, migrations)[k] == migrations[i]
    decreases |migrations|
  {
    if i == |migrations| - 1 {
      k := |Pending(journal, migrations)| - 1;
    } else {
      k := PendingIsListed(journal, migrations[..|migrations| - 1], i);
    }
  }

  /** A boot that gets through its list has run every entry it found pending, in full. */
  lemma FinishedBootRanAll(states: seq<Db>, boots: seq<Boot>, i: nat, k: nat)
    requires Run(states, boots) && i < |boots| && boots[i].reached == |boots[i].migrations| && k < boots[i].reached
    requires boots[i].migrations[k].tag !in states[i].journal
    ensures Ran(states[i + 1].executed, boots[i].migrations[k].tag) == boots[i].migrations[k].statements
    ensures boots[i].migrations[k].tag in states[i + 1].journal
  {
    var migrations := boots[i].migrations;
    assert Booted(states[i], states[i + 1], boots[i]) && migrations[..|migrations|] == migrations;
    EveryRunKeepsLineage(states, boots, i + 1);
    EveryStatementRanOnce(states, boots, i + 1, "");
    var done, more := Done(states, boots, i), Pending(states[i].journal, migrations);
    assert Done(states, boots, i + 1) == done + more;
    var j := PendingIsListed(states[i].journal, migrations, k);
    assert (done + more)[|done| + j] == migrations[k];
    assert Tags(done + more)[|done| + j] == migrations[k].tag;
  }

  // ------------------------------------------------------- a finished boot

  predicate UniqueTags(migrations: seq<Migration>) {
    forall i, j :: 0 <= i < j < |migrations| ==> migrations[i].tag != migrations[j].tag
  }

  /** A finished boot leaves every embedded tag with its embedded hash and every other journal row as it was. */
  lemma {:induction false} FinishedBootIsComplete(before: Db, migrations: seq<Migration>, tag: string)
    requires UniqueTags(migrations)
    ensures After(before, migrations).Some?
    ensures forall i :: 0 <= i < |migrations| ==>
      migrations[i].tag in After(before, migrations).value.journal
        && After(before, migrations).value.journal[migrations[i].tag] == migrations[i].hash
    ensures tag !in Tags(migrations) ==>
      (tag in After(before, migrations).value.journal <==> tag in before.journal)
      && (tag in before.journal ==> After(before, migrations).value.journal[tag] == before.journal[tag])
    decreases |migrations|
  {
    if migrations != [] {
      var init, m := migrations[..|migrations| - 1], migrations[|migrations| - 1];
      FinishedBootIsComplete(before, init, m.tag);
      assert m.tag !in Tags(init);
      FinishedBootIsComplete(before, init, tag);
      assert Tags(migrations) == Tags(init) + [m.tag];
      forall i | 0 <= i < |migrations|
        ensures migrations[i].tag in After(before, migrations).value.journal
          && After(before, migrations).value.journal[migrations[i].tag] == migrations[i].hash
      {
        if i < |init| { assert init[i] == migrations[i]; }
      }
    }
  }

  /** No tag is listed twice but for those the journal held at the start. */
  predicate NewTagsOnce(journal: map<string, string>, migrations: seq<Migration>) {
    forall i, j :: 0 <= i < j < |migrations| && migrations[i].tag == migrations[j].tag ==> migrations[i].tag in journal
  }

  /** What a boot that has come this far has journalled: what it found, and the tags of its list. */
  lemma {:induction false} JournalHolds(before: Db, migrations: seq<Migration>, tag: string)
    requires After(before, migrations).Some?
    ensures tag in After(before, migrations).value.journal <==> tag in before.journal || tag in Tags(migrations)
    decreases |migrations|
  {
    if migrations != [] {
      var init := migrations[..|migrations| - 1];
      JournalHolds(before, init, tag);
      assert Tags(migrations) == Tags(init) + [migrations[|migrations| - 1].tag];
    }
  }

  /** A boot can finish exactly when new tags are listed once: a second insert of one is a duplicate key. */
  lemma {:induction false} BootFinishes(before: Db, migrations: seq<Migration>)
    ensures After(before, migrations).Some? <==> NewTagsOnce(before.journal, migrations)
    decreases |migrations|
  {
    if migrations != [] {
      var init, m := migrations[..|migrations| - 1], migrations[|migrations| - 1];
      BootFinishes(before, init);
      if After(before, init).Some? {
        JournalHolds(before, init, m.tag);
        OneMoreTag(before.journal, init, m);
        assert migrations == init + [m];
      } else {
        var i, j :| 0 <= i < j < |init| && init[i].tag == init[j].tag && init[i].tag !in before.journal;
        assert migrations[i] == init[i] && migrations[j] == init[j];
      }
    }
  }

  lemma OneMoreTag(journal: map<string, string>, init: seq<Migration>, m: Migration)
    requires NewTagsOnce(journal, init)
    ensures NewTagsOnce(journal, init + [m]) <==> m.tag in journal || m.tag !in Tags(init)
  {
    var all := init + [m];
    if i :| 0 <= i < |init| && Tags(init)[i] == m.tag { assert all[i].tag == all[|init|].tag; }
    forall i, j | 0 <= i < j < |all| && all[i].tag == all[j].tag && (m.tag in journal || m.tag !in Tags(init))
      ensures all[i].tag in journal
    {
      assert Tags(init)[i] == all[i].tag;
    }
  }

  /** The hash of the last entry of a tag that differs from a hash, if there is one. */
  function LastDrift(migrations: seq<Migration>, tag: string, hash: string): (r: Option<string>)
    ensures r.None? <==> forall k :: 0 <= k < |migrations| && migrations[k].tag == tag ==> migrations[k].hash == hash
    ensures r.Some? ==> r.value != hash
  {
    if migrations == [] then None
    else
      var last := migrations[|migrations| - 1];
      if last.tag == tag && last.hash != hash then Some(last.hash)
        else LastDrift(migrations[..|migrations| - 1], tag, hash)
  }

  lemma {:induction false} JournalledHash(before: Db, migrations: seq<Migration>, tag: string)
    requires After(before, migrations).Some? && tag in before.journal
    ensures tag in After(before, migrations).value.journal
    ensures var drift := LastDrift(migrations, tag, before.journal[tag]);
      After(before, migrations).value.journal[tag] == if drift.Some? then drift.value else before.journal[tag]
    decreases |migrations|
  {
    if migrations != [] {
      JournalledHash(before, migrations[..|migrations| - 1], tag);
      JournalGrows(before, migrations, tag);
    }
  }

  /**
   * A journalled tag listed more than once ends with the hash of its last entry exactly
   * when that entry drifted or none did: the comparison is with the hash found at the start,
   * so an entry that brings it back is skipped.
   */
  lemma RepeatedTagEndsWith(before: Db, migrations: seq<Migration>, i: nat)
    requires After(before, migrations).Some? && i < |migrations| && migrations[i].tag in before.journal
    requires forall k :: i < k < |migrations| ==> migrations[k].tag != migrations[i].tag
    ensures var tag, found := migrations[i].tag, before.journal[migrations[i].tag];
      && tag in After(before, migrations).value.journal
      && (After(before, migrations).value.journal[tag] == migrations[i].hash
          <==> migrations[i].hash != found || forall k :: 0 <= k < i && migrations[k].tag == tag ==>
            migrations[k].hash == found)
  {
    var tag, found := migrations[i].tag, before.journal[migrations[i].tag];
    JournalledHash(before, migrations, tag);
    if migrations[i].hash != found { DriftIsLast(migrations, i, found); }
  }

  lemma {:induction false} DriftIsLast(migrations: seq<Migration>, i: nat, hash: string)
    requires i < |migrations| && migrations[i].hash != hash
    requires forall k :: i < k < |migrations| ==> migrations[k].tag != migrations[i].tag
    ensures LastDrift(migrations, migrations[i].tag, hash) == Some(migrations[i].hash)
    decreases |migrations|
  {
    if i < |migrations| - 1 { DriftIsLast(migrations[..|migrations| - 1], i, hash); }
  }

  /** The report accounts for every entry of the list. */
  lemma {:induction false} TallyAddsUp(journal: map<string, string>, migrations: seq<Migration>)
    ensures var t := Tally(journal, migrations); |t.applied| + t.skipped + t.backfilled == |migrations|
    ensures Tally(journal, migrations).applied == Tags(Pending(journal, migrations))
    decreases |migrations|
  {
    if migrations != [] {
      var init := migrations[..|migrations| - 1];
      TallyAddsUp(journal, init);
      if migrations[|migrations| - 1].tag !in journal {
        assert Tags(Pending(journal, migrations)) == Tags(Pending(journal, init)) + [migrations[|migrations| - 1].tag];
      }
    }
  }

  /** A second boot of the same binary does nothing but count. */
  lemma SecondBootSkipsAll(before: Db, migrations: seq<Migration>)
    requires UniqueTags(migrations)
    ensures After(before, migrations).Some?
    ensures var first := After(before, migrations).value;
      After(first, migrations) == Some(first) && Tally(first.journal, migrations) == Report([], |migrations|, 0)
  {
    FinishedBootIsComplete(before, migrations, "");
    NothingToDo(After(before, migrations).value, migrations);
  }

  lemma {:induction false} NothingToDo(db: Db, migrations: seq<Migration>)
    requires forall i :: 0 <= i < |migrations| ==>
      migrations[i].tag in db.journal && db.journal[migrations[i].tag] == migrations[i].hash
    ensures After(db, migrations) == Some(db) && Tally(db.journal, migrations) == Report([], |migrations|, 0)
    decreases |migrations|
  {
    if migrations != [] { NothingToDo(db, migrations[..|migrations| - 1]); }
  }
}
