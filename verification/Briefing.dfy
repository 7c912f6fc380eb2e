/**
 * The session briefing's trim loop (src/agent/briefing.ts).
 *
 * Pinned concepts are dropped until the text fits its budget: secondary spaces first, from
 * the end. Fact lines stay, so the budget may be missed when nothing is left to drop.
 */
module Briefing {
  import opened Text

  datatype Entry = Entry(space: string, slug: string, title: string, summary: string, primary: bool)

  /** The rendered text, given the entries shown and how many were left out; only its size in tokens matters. */
  type Render = (seq<Entry>, nat) -> nat

  /** Entries are collected space by space, so those of the first space come first. */
  predicate PrimariesFirst(entries: seq<Entry>) {
    forall i, j :: 0 <= i < j < |entries| && entries[j].primary ==> entries[i].primary
  }

  function Without<T>(s: seq<T>, k: nat): seq<T>
    requires k < |s|
  {
    s[..k] + s[k + 1..]
  }

  /** Where the loop cuts: the last entry of a secondary space, or the last entry when none is left. */
  method Victim(selected: seq<Entry>) returns (k: nat)
    requires selected != []
    ensures k < |selected|
    ensures selected[k].primary ==> k == |selected| - 1 && forall i :: 0 <= i < |selected| ==> selected[i].primary
    ensures !selected[k].primary ==> forall i :: k < i < |selected| ==> selected[i].primary
  {
    for i := |selected| downto 0
      invariant forall j :: i <= j < |selected| ==> selected[j].primary
    {
      if !selected[i].primary { return i; }
    }
    return |selected| - 1;
  }

  /** What is shown after k entries have been left out. */
  function Kept(entries: seq<Entry>, k: nat): seq<Entry>
    requires k <= |entries|
  {
    entries[..|entries| - k]
  }

  function Size(render: Render, entries: seq<Entry>, k: nat): nat
    requires k <= |entries|
  {
    render(Kept(entries, k), k)
  }

  /** The size with k entries left out is that of the others, in order, with k omitted. */
  lemma SizeIs(render: Render, entries: seq<Entry>, k: nat)
    requires k <= |entries|
    ensures Size(render, entries, k) == render(entries[..|entries| - k], k)
  {
  }

  /**
   * The loop keeps a prefix of the entries, so no primary entry goes while a secondary
   * one is left; it leaves out as few as fit the budget, or all when none fits.
   */
  method Trim(render: Render, entries: seq<Entry>, budget: nat) returns (selected: seq<Entry>, omitted: nat)
    requires PrimariesFirst(entries)
    ensures omitted <= |entries| && selected == entries[..|entries| - omitted]
    ensures render(selected, omitted) <= budget || selected == []
    ensures forall k :: 0 <= k < omitted ==> Size(render, entries, k) > budget
  {
    selected, omitted := entries, 0;
    var size := render(selected, omitted);
    assert Kept(entries, 0) == entries;
    while size > budget && |selected| > 0
      invariant omitted <= |entries| && selected == Kept(entries, omitted) && size == render(selected, omitted)
      invariant forall k :: 0 <= k < omitted ==> Size(render, entries, k) > budget
      decreases |selected|
    {
      var k := Victim(selected);
      CutsTheEnd(entries, omitted, k);
      selected := Without(selected, k);
      omitted := omitted + 1;
      size := render(selected, omitted);
    }
  }

  /** With primaries first, the victim is the last entry shown. */
  lemma CutsTheEnd(entries: seq<Entry>, omitted: nat, k: nat)
    requires PrimariesFirst(entries) && omitted < |entries| && k < |Kept(entries, omitted)|
    requires Kept(entries, omitted)[k].primary ==> k == |Kept(entries, omitted)| - 1
    requires !Kept(entries, omitted)[k].primary ==> forall i :: k < i < |Kept(entries, omitted)| ==>
      Kept(entries, omitted)[i].primary
    ensures Without(Kept(entries, omitted), k) == Kept(entries, omitted + 1)
  {
    var shown := Kept(entries, omitted);
    assert shown[|shown| - 1] == entries[|shown| - 1];
    assert k == |shown| - 1;
  }
}
