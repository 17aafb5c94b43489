/** The delayed-write queue of a worker: a row's increment waits a fixed number of rows
    before it reaches its accumulator.  The queue has one position while a worker still
    discovers channels and five afterwards. */
module Queues {
  import opened ReferenceFold
  import opened Cells
  import opened Tables

  /** Idle is the dummy accumulator with an all-zero increment. */
  datatype Pending = Idle | Queued(id: nat, month: nat, length: Word32, stamps: Word32)

  predicate PendingOk(p: Pending, channels: nat) {
    p.Queued? ==> p.id < channels && p.month < MONTHS && 1 <= p.length < NO_SAMPLE
  }

  ghost predicate QueueOk(queue: seq<Pending>, channels: nat) {
    forall i :: 0 <= i < |queue| ==> PendingOk(queue[i], channels)
  }

  function PendingStat(p: Pending, id: nat, month: nat): Stat {
    if p.Queued? && p.id == id && p.month == month then Single(p.length, p.stamps) else None
  }

  /** What the queue still owes to one accumulator. */
  function Owed(queue: seq<Pending>, id: nat, month: nat): Stat {
    if |queue| == 0 then None else Merge(PendingStat(queue[0], id, month), Owed(queue[1..], id, month))
  }

  /** An accumulator together with the increments queued for it. */
  function Holds(t: Table, queue: seq<Pending>, id: nat, month: nat): Stat
    requires Slot(id, month) < |t.cells|
  {
    Merge(Value(t.cells[Slot(id, month)]), Owed(queue, id, month))
  }

  /** stats_add on the oldest queue position. */
  function Drain(t: Table, p: Pending): Table
    requires |t.cells| == MONTHS * |t.dict| && PendingOk(p, |t.dict|)
  {
    if p.Queued? then AddAt(t, p.id, p.month, p.length, p.stamps) else t
  }

  /** One row of the parsing loops: the oldest increment is written, and the row is queued
      last, unless its length is too wide to queue, when it is counted at once. */
  function Consume(t: Table, queue: seq<Pending>, id: nat, month: nat, length: Word32, stamps: Word32)
    : (r: (Table, seq<Pending>))
    requires |t.cells| == MONTHS * |t.dict| && |queue| > 0 && PendingOk(queue[0], |t.dict|)
    requires id < |t.dict| && month < MONTHS
  {
    var drained := Drain(t, queue[0]);
    if length >= NO_SAMPLE
    then (AddAt(drained, id, month, length, stamps), queue[1..] + [Idle])
    else (drained, queue[1..] + [Queued(id, month, length, stamps)])
  }

  /** The final stats_add calls, oldest first. */
  function DrainAll(t: Table, queue: seq<Pending>): Table
    requires |t.cells| == MONTHS * |t.dict|
    requires forall i :: 0 <= i < |queue| ==> PendingOk(queue[i], |t.dict|)
    decreases |queue|
  {
    if |queue| == 0 then t else DrainAll(Drain(t, queue[0]), queue[1..])
  }

  ghost predicate HoldsFit(t: Table, queue: seq<Pending>)
    requires Shaped(t)
  {
    forall id: nat, month: nat :: id < |t.dict| && month < MONTHS ==> Fits(Holds(t, queue, id, month))
  }

  lemma {:induction false} OwedSnoc(queue: seq<Pending>, p: Pending, id: nat, month: nat)
    ensures Owed(queue + [p], id, month) == Merge(Owed(queue, id, month), PendingStat(p, id, month))
  {
    if |queue| > 0 {
      OwedSnoc(queue[1..], p, id, month);
      assert (queue + [p])[1..] == queue[1..] + [p];
    } else {
      assert (queue + [p])[1..] == [];
    }
  }

  lemma {:induction false} OwedNothing(queue: seq<Pending>, id: nat, month: nat)
    requires forall i :: 0 <= i < |queue| ==> queue[i] == Idle || queue[i].id < id
    ensures Owed(queue, id, month) == None
  {
    if |queue| > 0 {
      OwedNothing(queue[1..], id, month);
    }
  }

  /** Writing the oldest increment moves it from the queue into the table. */
  lemma DrainKeeps(t: Table, queue: seq<Pending>)
    requires Shaped(t) && |queue| > 0 && QueueOk(queue, |t.dict|) && HoldsFit(t, queue)
    ensures Shaped(Drain(t, queue[0])) && Drain(t, queue[0]).dict == t.dict
    ensures forall id: nat, month: nat :: id < |t.dict| && month < MONTHS ==>
              Holds(Drain(t, queue[0]), queue[1..], id, month) == Holds(t, queue, id, month)
  {
    var p := queue[0];
    if p.Queued? {
      assert Fits(Holds(t, queue, p.id, p.month));
      var cell := t.cells[Slot(p.id, p.month)];
      MergeLaws(Value(cell), Single(p.length, p.stamps), Owed(queue[1..], p.id, p.month));
      FitsPart(Merge(Value(cell), Single(p.length, p.stamps)), Owed(queue[1..], p.id, p.month));
      AddAtShaped(t, p.id, p.month, p.length, p.stamps);
    }
  }

  /** A consumed row counts exactly once, in its own group, at once or by its place in the
      queue. */
  lemma ConsumeCounts(t: Table, queue: seq<Pending>, id: nat, month: nat, length: Word32, stamps: Word32)
    requires Shaped(t) && |queue| > 0 && QueueOk(queue, |t.dict|)
    requires id < |t.dict| && month < MONTHS && length >= 1
    requires HoldsFit(t, queue) && Fits(Merge(Holds(t, queue, id, month), Single(length, stamps)))
    ensures var r := Consume(t, queue, id, month, length, stamps); Shaped(r.0) && r.0.dict == t.dict
    ensures var r := Consume(t, queue, id, month, length, stamps); |r.1| == |queue| && QueueOk(r.1, |t.dict|)
    ensures forall i: nat, m: nat :: i < |t.dict| && m < MONTHS ==>
              Holds(Consume(t, queue, id, month, length, stamps).0, Consume(t, queue, id, month, length, stamps).1, i, m)
              == if i == id && m == month then Merge(Holds(t, queue, i, m), Single(length, stamps))
                 else Holds(t, queue, i, m)
  {
    DrainKeeps(t, queue);
    var drained := Drain(t, queue[0]);
    var r := Consume(t, queue, id, month, length, stamps);
    var own := Single(length, stamps);
    if length >= NO_SAMPLE {
      var before := Value(drained.cells[Slot(id, month)]);
      var owed := Owed(queue[1..], id, month);
      assert Holds(drained, queue[1..], id, month) == Merge(before, owed);
      MergeLaws(before, owed, own);
      MergeLaws(owed, own, before);
      MergeLaws(before, own, owed);
      FitsPart(Merge(before, own), owed);
      AddAtShaped(drained, id, month, length, stamps);
    }
    forall i: nat, m: nat | i < |t.dict| && m < MONTHS
      ensures Holds(r.0, r.1, i, m) ==
              if i == id && m == month then Merge(Holds(t, queue, i, m), own) else Holds(t, queue, i, m)
    {
      assert Holds(drained, queue[1..], i, m) == Holds(t, queue, i, m);
      var last := r.1[|r.1| - 1];
      OwedSnoc(queue[1..], last, i, m);
      MergeLaws(Value(drained.cells[Slot(i, m)]), Owed(queue[1..], i, m), PendingStat(last, i, m));
    }
  }

  /** After the final drain the table alone holds everything. */
  lemma {:induction false} DrainAllKeeps(t: Table, queue: seq<Pending>)
    requires Shaped(t) && QueueOk(queue, |t.dict|) && HoldsFit(t, queue)
    ensures Shaped(DrainAll(t, queue)) && DrainAll(t, queue).dict == t.dict
    ensures forall id: nat, month: nat :: id < |t.dict| && month < MONTHS ==>
              Value(DrainAll(t, queue).cells[Slot(id, month)]) == Holds(t, queue, id, month)
    decreases |queue|
  {
    if |queue| > 0 {
      DrainKeeps(t, queue);
      DrainAllKeeps(Drain(t, queue[0]), queue[1..]);
    }
  }
}
