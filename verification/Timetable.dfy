/** PUT of a wiki's schedule set (src/schedule.ts, replaceSchedules): delete what is gone, upsert what stays. */
module Timetable {
  import opened Wrappers
  import opened ScheduleClock
  import opened ClaimProtocol

  datatype Kind = Briefing | Health

  type Key = (nat, Kind) // unique (space_id, kind)

  datatype Entry = Entry(kind: Kind, window: Window, zone: Zone, enabled: bool)

  /** The row an entry leaves behind: re-armed or disarmed, with the telemetry of the row it replaces. */
  function Saved(entry: Entry, previous: Option<Row>, now: int): Row {
    var row := Row(entry.window, Some(entry.zone), entry.enabled, if previous.Some? then previous.value.last
      else None, None);
    row.(next := if entry.enabled then NextOf(row, now) else None)
  }

  predicate Armable(entry: Entry, now: int) {
    entry.enabled ==> NextRun(entry.zone, entry.window, now).Some?
  }

  predicate DistinctKinds(entries: seq<Entry>) {
    forall i, j :: 0 <= i < j < |entries| ==> entries[i].kind != entries[j].kind
  }

  function Lookup(rows: map<Key, Row>, key: Key): Option<Row> {
    if key in rows then Some(rows[key]) else None
  }

  /** `after` holds exactly the entries for the space and is `before` everywhere else. */
  ghost predicate Replaced(before: map<Key, Row>, after: map<Key, Row>, space: nat, entries: seq<Entry>, now: int) {
    && (forall key :: key in after && key.0 == space ==> exists i :: 0 <= i < |entries| && entries[i].kind == key.1)
    && (forall i :: 0 <= i < |entries| ==>
          Lookup(after, (space, entries[i].kind)) == Some(Saved(entries[i], Lookup(before, (space, entries[i].kind)),
            now)))
    && (forall key: Key :: key.0 != space ==> Lookup(after, key) == Lookup(before, key))
  }

  function Kept(rows: map<Key, Row>, space: nat, entries: seq<Entry>): map<Key, Row> {
    map key | key in rows && (key.0 != space || exists i :: 0 <= i < |entries| && entries[i].kind == key.1) :: rows[key]
  }

  /** The upserts, in order. */
  function Put(rows: map<Key, Row>, space: nat, entries: seq<Entry>, now: int): map<Key, Row> {
    if entries == [] then rows
    else
      var done := Put(rows, space, entries[..|entries| - 1], now);
      var entry := entries[|entries| - 1];
      done[(space, entry.kind) := Saved(entry, Lookup(done, (space, entry.kind)), now)]
  }

  lemma {:induction false} PutEach(rows: map<Key, Row>, space: nat, entries: seq<Entry>, now: int, key: Key)
    requires DistinctKinds(entries)
    ensures key.0 != space || (forall i :: 0 <= i < |entries| ==> entries[i].kind != key.1)
      ==> Lookup(Put(rows, space, entries, now), key) == Lookup(rows, key)
    ensures forall i :: 0 <= i < |entries| && key == (space, entries[i].kind) ==>
      Lookup(Put(rows, space, entries, now), key) == Some(Saved(entries[i], Lookup(rows, key), now))
    decreases |entries|
  {
    if entries != [] {
      var front := entries[..|entries| - 1];
      PutEach(rows, space, front, now, key);
      var last := entries[|entries| - 1];
      PutEach(rows, space, front, now, (space, last.kind));
      assert forall i :: 0 <= i < |front| ==> front[i] == entries[i];
    }
  }

  lemma PutReplaces(rows: map<Key, Row>, space: nat, entries: seq<Entry>, now: int)
    requires DistinctKinds(entries)
    ensures Replaced(rows, Put(Kept(rows, space, entries), space, entries, now), space, entries, now)
  {
    var kept := Kept(rows, space, entries);
    var after := Put(kept, space, entries, now);
    forall key: Key ensures key.0 != space ==> Lookup(after, key) == Lookup(rows, key) {
      PutEach(kept, space, entries, now, key);
    }
    forall i | 0 <= i < |entries|
      ensures Lookup(after, (space, entries[i].kind))
        == Some(Saved(entries[i], Lookup(rows, (space, entries[i].kind)), now))
    {
      PutEach(kept, space, entries, now, (space, entries[i].kind));
      assert Lookup(kept, (space, entries[i].kind)) == Lookup(rows, (space, entries[i].kind));
    }
    forall key | key in after && key.0 == space
      ensures exists i :: 0 <= i < |entries| && entries[i].kind == key.1
    {
      PutEach(kept, space, entries, now, key);
    }
  }

  class ScheduleTable {
    var rows: map<Key, Row>

    /** One transaction: it replaces the whole set, or throws and leaves every row alone. */
    method ReplaceSchedules(space: nat, entries: seq<Entry>, now: int) returns (done: bool)
      requires DistinctKinds(entries)
      modifies this
      ensures done <==> forall i :: 0 <= i < |entries| ==> Armable(entries[i], now)
      ensures done ==> Replaced(old(rows), rows, space, entries, now)
      ensures done ==> forall i :: 0 <= i < |entries| ==>
        var key, entry := (space, entries[i].kind), entries[i];
        && key in rows && rows[key].window == entry.window && rows[key].zone == Some(entry.zone)
        && rows[key].enabled == entry.enabled
        && rows[key].last == (if key in old(rows) then old(rows)[key].last else None)
        && rows[key].next == (if entry.enabled then NextRun(entry.zone, entry.window, now) else None)
      ensures !done ==> rows == old(rows)
    {
      var savepoint := rows;
      rows := Kept(rows, space, entries);
      for i := 0 to |entries|
        invariant forall k :: 0 <= k < i ==> Armable(entries[k], now)
        invariant rows == Put(Kept(savepoint, space, entries), space, entries[..i], now)
      {
        var entry := entries[i];
        if !Armable(entry, now) {
          rows := savepoint;
          return false;
        }
        assert entries[..i + 1][..i] == entries[..i];
        rows := rows[(space, entry.kind) := Saved(entry, Lookup(rows, (space, entry.kind)), now)];
      }
      assert entries[..|entries|] == entries;
      PutReplaces(savepoint, space, entries, now);
      forall i | 0 <= i < |entries|
        ensures Lookup(rows, (space, entries[i].kind))
          == Some(Saved(entries[i], Lookup(savepoint, (space, entries[i].kind)), now))
      {
      }
      return true;
    }
  }

  /** Saving the same set again at the same moment changes nothing. */
  lemma ReplaceIsIdempotent(before: map<Key, Row>, once: map<Key, Row>, twice: map<Key, Row>,
                            space: nat, entries: seq<Entry>, now: int)
    requires Replaced(before, once, space, entries, now) && Replaced(once, twice, space, entries, now)
    ensures twice == once
  {
    forall key: Key ensures Lookup(twice, key) == Lookup(once, key) {
      if key.0 == space {
        if i :| 0 <= i < |entries| && entries[i].kind == key.1 {
          assert key == (space, entries[i].kind);
        }
      }
    }
    forall key: Key ensures (key in twice <==> key in once) && (key in once ==> twice[key] == once[key]) {
      assert Lookup(twice, key) == Lookup(once, key);
    }
  }
}
