/**
  The slot catalog: the configuration's `slots` section groups exercise slot
  definitions under named keys, and the program flattens it once into a
  lookup table keyed by slot id (`slot_index`).
 */
module Slots {
  import opened Wrappers

  /** One exercise slot definition as written in the configuration. */
  datatype Slot = Slot(id: string, name: string, exercise: string, reps: string, image: Option<string>)

  /** The groups of the configuration, in the order the mapping yields them. */
  type Catalog = seq<seq<Slot>>

  /** All slots of all groups, in visiting order (group by group). */
  function Flatten(groups: Catalog): seq<Slot>
  {
    if groups == [] then [] else Flatten(groups[..|groups| - 1]) + groups[|groups| - 1]
  }

  /** Slot `slots[i]` is the last one visited that carries its id. */
  predicate LastWithId(slots: seq<Slot>, i: int)
    requires 0 <= i < |slots|
  {
    forall j :: i < j < |slots| ==> slots[j].id != slots[i].id
  }

  /** The table built by assigning `index[slot.id] := slot` for every slot in order. */
  function IndexAll(slots: seq<Slot>): (r: map<string, Slot>)
    ensures forall k :: k in r ==> r[k] in slots && r[k].id == k
  {
    if slots == [] then map[]
    else
      var last := slots[|slots| - 1];
      IndexAll(slots[..|slots| - 1])[last.id := last]
  }

  /** The ids visited, as a set. */
  function Ids(slots: seq<Slot>): set<string>
  {
    set x | x in slots :: x.id
  }

  /** Every visited id, and nothing else, is a key of the table. */
  lemma {:induction false} IndexAllKeys(slots: seq<Slot>)
    ensures IndexAll(slots).Keys == Ids(slots)
  {
    if slots != [] {
      var n := |slots| - 1;
      IndexAllKeys(slots[..n]);
      assert slots == slots[..n] + [slots[n]];
      assert Ids(slots) == Ids(slots[..n]) + {slots[n].id};
    }
  }

  /** The slot stored under an id is the last one visited with that id. */
  lemma {:induction false} IndexAllLastWins(slots: seq<Slot>, i: int)
    requires 0 <= i < |slots| && LastWithId(slots, i)
    ensures slots[i].id in IndexAll(slots) && IndexAll(slots)[slots[i].id] == slots[i]
  {
    var n := |slots| - 1;
    if i < n {
      var init := slots[..n];
      assert LastWithId(init, i) by {
        forall j | i < j < |init| ensures init[j].id != init[i].id {
          assert init[j] == slots[j];
        }
      }
      IndexAllLastWins(init, i);
      assert slots[n].id != slots[i].id;
    }
  }

  /** What the flattened table means, for every visited slot. */
  lemma IndexAllMeaning(slots: seq<Slot>)
    ensures IndexAll(slots).Keys == Ids(slots)
    ensures forall i :: 0 <= i < |slots| && LastWithId(slots, i) ==> IndexAll(slots)[slots[i].id] == slots[i]
  {
    IndexAllKeys(slots);
    forall i | 0 <= i < |slots| && LastWithId(slots, i)
      ensures IndexAll(slots)[slots[i].id] == slots[i]
    {
      IndexAllLastWins(slots, i);
    }
  }

  lemma IndexAllSnoc(slots: seq<Slot>, x: Slot)
    ensures IndexAll(slots + [x]) == IndexAll(slots)[x.id := x]
  {
    assert (slots + [x])[..|slots|] == slots;
  }

  lemma FlattenSnoc(groups: Catalog, g: nat)
    requires g < |groups|
    ensures Flatten(groups[..g + 1]) == Flatten(groups[..g]) + groups[g]
  {
    assert groups[..g + 1][..g] == groups[..g];
  }

  /** The inner loop of `slot_index`: stores the slots of one group in order. */
  method IndexGroup(index: map<string, Slot>, ghost seen: seq<Slot>, group: seq<Slot>) returns (r: map<string, Slot>)
    requires index == IndexAll(seen)
    ensures r == IndexAll(seen + group)
  {
    r := index;
    var j := 0;
    assert seen + group[..j] == seen;
    while j < |group|
      invariant 0 <= j <= |group|
      invariant r == IndexAll(seen + group[..j])
    {
      IndexAllSnoc(seen + group[..j], group[j]);
      assert seen + group[..j + 1] == (seen + group[..j]) + [group[j]];
      r := r[group[j].id := group[j]];
      j := j + 1;
    }
    assert group[..j] == group;
  }

  /** Every key of a slot table holds a slot carrying that id. */
  predicate Indexed(index: map<string, Slot>)
  {
    forall k :: k in index ==> index[k].id == k
  }

  /**
    `slot_index`: walks every slot of every group and stores it under its id,
    so every visited id is a key, each key holds a slot with that id, and a
    later slot with an already-seen id replaces the earlier one.
   */
  method SlotIndex(groups: Catalog) returns (index: map<string, Slot>)
    ensures index.Keys == Ids(Flatten(groups))
    ensures forall i :: 0 <= i < |Flatten(groups)| && LastWithId(Flatten(groups), i) ==>
      index[Flatten(groups)[i].id] == Flatten(groups)[i]
    ensures forall k :: k in index ==> index[k] in Flatten(groups)
    ensures Indexed(index)
  {
    index := map[];
    var g := 0;
    while g < |groups|
      invariant 0 <= g <= |groups|
      invariant index == IndexAll(Flatten(groups[..g]))
    {
      index := IndexGroup(index, Flatten(groups[..g]), groups[g]);
      FlattenSnoc(groups, g);
      g := g + 1;
    }
    assert groups[..g] == groups;
    IndexAllMeaning(Flatten(groups));
  }
}
