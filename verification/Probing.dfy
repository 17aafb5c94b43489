/** Open addressing with linear probing, independent of what a slot stores: which slot holds
    which ID, and why a probe from an ID's home slot finds it. */
module Probing {
  import opened ReferenceFold
  import opened Collections

  type Slots = seq<Option<nat>>

  /** j is met by a probe that starts at `from` before it reaches `to`. */
  predicate Between(from: nat, j: nat, to: nat) {
    if from <= to then from <= j < to else from <= j || j < to
  }

  function Next(i: nat, capacity: nat): nat { if i + 1 == capacity then 0 else i + 1 }

  /** Steps from i to `stop`. */
  function Distance(i: nat, stop: nat, capacity: nat): nat
    requires i < capacity && stop < capacity
  {
    if i <= stop then stop - i else capacity - i + stop
  }

  ghost predicate Chained(slots: Slots, from: nat, to: nat) {
    forall j :: 0 <= j < |slots| && Between(from, j, to) ==> slots[j].Some?
  }

  /** Every placed ID sits in one slot, every full slot holds a placed ID, and no probe from
      an ID's home crosses an empty slot before it meets the ID. */
  ghost predicate IndexOk(slots: Slots, loc: map<nat, nat>, homes: seq<nat>) {
    && (forall id :: 0 <= id < |homes| ==> homes[id] < |slots|)
    && (forall id :: id in loc ==> id < |homes| && loc[id] < |slots| && slots[loc[id]] == Some(id))
    && (forall i :: 0 <= i < |slots| && slots[i].Some? ==> slots[i].value in loc && loc[slots[i].value] == i)
    && (forall id :: id in loc ==> Chained(slots, homes[id], loc[id]))
  }

  /** Filling the empty slot a probe has reached keeps the index. */
  lemma InsertOk(slots: Slots, loc: map<nat, nat>, homes: seq<nat>, id: nat, i: nat)
    requires IndexOk(slots, loc, homes)
    requires id < |homes| && id !in loc && i < |slots| && slots[i].None?
    requires Chained(slots, homes[id], i)
    ensures IndexOk(slots[i := Some(id)], loc[id := i], homes)
  {
  }

  /** An empty slot at the end of an unsuccessful probe proves the ID absent. */
  lemma AbsentAtEmpty(slots: Slots, loc: map<nat, nat>, homes: seq<nat>, id: nat, i: nat)
    requires IndexOk(slots, loc, homes) && i < |slots| && slots[i].None? && id < |homes|
    requires forall j :: 0 <= j < |slots| && Between(homes[id], j, i) ==> slots[j] != Some(id)
    ensures id !in loc
  {
  }

  function Range(n: nat): (r: set<nat>)
    ensures |r| == n
    ensures forall j :: j in r <==> 0 <= j < n
  {
    if n == 0 then {} else Range(n - 1) + {n - 1}
  }

  /** While fewer IDs are placed than there are slots, some slot is empty. */
  lemma SomeSlotEmpty(slots: Slots, loc: map<nat, nat>, homes: seq<nat>) returns (i: nat)
    requires IndexOk(slots, loc, homes) && |loc| < |slots|
    ensures i < |slots| && slots[i].None?
  {
    if forall j :: 0 <= j < |slots| ==> slots[j].Some? {
      forall j | j in Range(|slots|) ensures j in loc.Values {
        assert slots[j].value in loc;
      }
      ImageSize(loc);
      SubsetSize(Range(|slots|), loc.Values);
      assert false;
    } else {
      i :| 0 <= i < |slots| && !slots[i].Some?;
    }
  }

  lemma {:induction false} ImageSize(loc: map<nat, nat>)
    ensures |loc.Values| <= |loc|
  {
  }

  /** One step of a probe stays before the empty slot it is heading for. */
  lemma ProbeStep(home: nat, i: nat, stop: nat, capacity: nat)
    requires home < capacity && i < capacity && stop < capacity && i != stop
    requires i == home || Between(home, i, stop)
    ensures Next(i, capacity) < capacity
    ensures Next(i, capacity) == stop || Between(home, Next(i, capacity), stop)
    ensures Distance(Next(i, capacity), stop, capacity) < Distance(i, stop, capacity)
    ensures forall j :: 0 <= j < capacity && Between(home, j, Next(i, capacity)) ==> j == i || Between(home, j, i)
  {
  }

  lemma {:induction false} LocSize(loc: map<nat, nat>, n: nat)
    requires forall id :: id in loc <==> 0 <= id < n
    ensures |loc| == n
  {
    assert loc.Keys == Range(n);
    assert |loc| == |loc.Keys|;
  }

  lemma InsertNext(slots: Slots, loc: map<nat, nat>, homes: seq<nat>, home: nat, i: nat)
    requires IndexOk(slots, loc, homes) && i < |slots| && slots[i].None? && home < |slots| && |homes| !in loc
    requires Chained(slots, home, i)
    ensures IndexOk(slots[i := Some(|homes|)], loc[|homes| := i], homes + [home])
  {
  }
}
