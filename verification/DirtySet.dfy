/** A set of slots kept in one word: a bit per slot, emptied from the lowest up. */
module DirtySet {
  import opened Bits

  /** The marked slots from `from` up, in order. */
  function Ascending(marked: set<nat>, from: nat := 0): seq<nat>
    decreases 64 - from
  {
    if from >= 64 then []
    else if from in marked then [from] + Ascending(marked, from + 1)
    else Ascending(marked, from + 1)
  }

  class DirtySet {
    const slots: nat
    var bits: bv64

    ghost predicate Valid()
      reads this
    {
      slots <= 64 && forall k :: k in Members(bits) ==> k < slots
    }

    constructor (slots: nat)
      requires slots <= 64
      ensures Valid() && this.slots == slots && Members(bits) == {}
    {
      this.slots, bits := slots, 0;
      new;
      MembersOfExtremes();
    }

    /** Refuses a slot past the end and changes nothing then. */
    method Mark(slot: nat) returns (ok: bool)
      requires Valid()
      modifies this
      ensures Valid() && ok == (slot < slots)
      ensures Members(bits) == if ok then old(Members(bits)) + {slot} else old(Members(bits))
    {
      hide Members, With;
      if slot >= slots { return false; }
      MembersUpdate(bits, slot);
      bits := With(bits, slot);
      return true;
    }

    /** The slots it visits, in the order it visits them. */
    method Drain() returns (visited: seq<nat>)
      requires Valid()
      modifies this
      ensures Valid() && Members(bits) == {}
      ensures visited == Ascending(old(Members(bits)))
    {
      hide Members, CountrZero, DropLow, Without, Ascending;
      var pending := bits;
      bits := 0;
      MembersOfExtremes();
      visited := [];
      while pending != 0
        invariant bits == 0
        invariant visited + Ascending(Members(pending)) == Ascending(old(Members(bits)))
        decreases Members(pending)
      {
        LowestSet(pending);
        var slot := CountrZero(pending);
        MembersUpdate(pending, slot);
        AscendingHead(Members(pending), slot, 0);
        pending := DropLow(pending);
        visited := visited + [slot];
      }
      AscendingNone(0);
    }
  }

  lemma {:induction false} AscendingHead(marked: set<nat>, k: nat, from: nat)
    requires from <= k < 64 && k in marked && forall j: nat :: j < k ==> j !in marked
    ensures Ascending(marked, from) == [k] + Ascending(marked - {k}, from)
    decreases k - from
  {
    if from < k {
      AscendingHead(marked, k, from + 1);
    } else {
      AscendingOthers(marked, k, k + 1);
    }
  }

  lemma {:induction false} AscendingOthers(marked: set<nat>, k: nat, from: nat)
    requires k < from
    ensures Ascending(marked - {k}, from) == Ascending(marked, from)
    decreases 64 - from
  {
    if from < 64 { AscendingOthers(marked, k, from + 1); }
  }

  lemma {:induction false} AscendingNone(from: nat)
    ensures Ascending({}, from) == []
    decreases 64 - from
  {
    if from < 64 { AscendingNone(from + 1); }
  }

  /** The order of a drain is strictly ascending and holds the marked slots, no fewer and no more. */
  lemma {:induction false} VisitsEachOnce(marked: set<nat>, from: nat)
    ensures var visited := Ascending(marked, from);
            && (forall i, j :: 0 <= i < j < |visited| ==> visited[i] < visited[j])
            && (forall k: nat :: k in visited <==> k in marked && from <= k < 64)
    decreases 64 - from
  {
    if from < 64 {
      VisitsEachOnce(marked, from + 1);
      var rest := Ascending(marked, from + 1);
      if from in marked {
        assert Ascending(marked, from) == [from] + rest;
        forall j | 0 <= j < |rest| ensures from < rest[j] { assert rest[j] in rest; }
      }
    }
  }
}
