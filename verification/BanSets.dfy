/** The mutable ban set (src/search.cpp, BanSet): vectors that are sorted on first lookup. */
module BanSets {
  import opened Counting
  import opened Sorting
  import opened View

  class BanSet {
    var nodes: seq<nat>
    var entries: seq<nat>
    var normalized: bool

    ghost predicate Valid()
      reads this
    {
      normalized ==> StrictlyAscending(nodes) && StrictlyAscending(entries)
    }

    /** The set the vectors stand for, whatever their order and repetitions. */
    function Contents(): Bans
      reads this
    {
      Bans(Elements(nodes), Elements(entries))
    }

    constructor ()
      ensures Valid() && Contents() == NO_BANS
    {
      nodes, entries, normalized := [], [], true;
    }

    method AddNode(u: nat)
      requires Valid()
      modifies this
      ensures Valid() && Contents() == Bans(old(Contents()).nodes + {u}, old(Contents()).entries)
    {
      nodes := nodes + [u];
      normalized := false;
      assert nodes[..|nodes| - 1] == old(nodes);
    }

    method AddEntry(a: nat)
      requires Valid()
      modifies this
      ensures Valid() && Contents() == Bans(old(Contents()).nodes, old(Contents()).entries + {a})
    {
      entries := entries + [a];
      normalized := false;
      assert entries[..|entries| - 1] == old(entries);
    }

    method Normalize()
      requires Valid()
      modifies this
      ensures Valid() && normalized && Contents() == old(Contents())
    {
      if normalized {
        return;
      }
      nodes := SortUnique(nodes);
      entries := SortUnique(entries);
      normalized := true;
    }

    method NodeBanned(u: nat) returns (b: bool)
      requires Valid()
      modifies this
      ensures Valid() && Contents() == old(Contents())
      ensures b <==> u in old(Contents()).nodes
    {
      Normalize();
      b := BinarySearch(nodes, u);
    }

    method EntryBanned(a: nat) returns (b: bool)
      requires Valid()
      modifies this
      ensures Valid() && Contents() == old(Contents())
      ensures b <==> a in old(Contents()).entries
    {
      Normalize();
      b := BinarySearch(entries, a);
    }
  }
}
