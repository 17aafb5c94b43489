/** build_mph: once all contest channels are known, a bucket of hashes gets a multiplier that
    sends its hashes to free slots.  Channels whose hashes are equal share a slot that holds
    a sentinel and are told apart by their bytes. */
module Mph {
  import opened ReferenceFold
  import opened Collections
  import opened Cells
  import opened DirectIds

  const BUCKETS := 1024
  const SLOTS := 0x4000
  const ATTEMPTS := 4096

  function Bucket(hash: Word32): (b: nat)
    ensures b < BUCKETS
  {
    hash % BUCKETS
  }

  /** The top fourteen bits of the 32-bit product. */
  function SlotOf(hash: Word32, seed: Word32): (s: nat)
    ensures s < SLOTS
  {
    (hash * seed) % WORD32_LIMIT / 0x4_0000
  }

  // ---- Grouping the IDs by bucket ----------------------------------------------------

  /** How many of the hashes fall into bucket b. */
  function Count(hashes: seq<Word32>, b: nat): (n: nat)
    ensures n <= |hashes|
  {
    if |hashes| == 0 then 0
    else Count(hashes[..|hashes| - 1], b) + if Bucket(hashes[|hashes| - 1]) == b then 1 else 0
  }

  lemma CountSnoc(hashes: seq<Word32>, k: nat, b: nat)
    requires k < |hashes|
    ensures Count(hashes[..k + 1], b) == Count(hashes[..k], b) + if Bucket(hashes[k]) == b then 1 else 0
  {
    assert hashes[..k + 1][..k] == hashes[..k];
  }

  lemma {:induction false} CountMonotone(hashes: seq<Word32>, k: nat, m: nat, b: nat)
    requires k <= m <= |hashes|
    ensures Count(hashes[..k], b) <= Count(hashes[..m], b)
    decreases m
  {
    if k < m {
      CountSnoc(hashes, m - 1, b);
      CountMonotone(hashes, k, m - 1, b);
    }
  }

  /** Where counting sort puts ID k: after the IDs of its bucket that precede it. */
  function Place(hashes: seq<Word32>, offsets: seq<nat>, k: nat): nat
    requires k < |hashes| && |offsets| == BUCKETS + 1
  {
    offsets[Bucket(hashes[k])] + Count(hashes[..k], Bucket(hashes[k]))
  }

  ghost predicate OffsetsOk(hashes: seq<Word32>, offsets: seq<nat>) {
    && |offsets| == BUCKETS + 1
    && offsets[0] == 0
    && (forall b {:trigger Count(hashes, b)} :: 0 <= b < BUCKETS ==> offsets[b + 1] == offsets[b] + Count(hashes, b))
  }

  lemma {:induction false} OffsetsMonotone(hashes: seq<Word32>, offsets: seq<nat>, a: nat, b: nat)
    requires OffsetsOk(hashes, offsets) && a <= b <= BUCKETS
    ensures offsets[a] <= offsets[b]
    decreases b - a
  {
    if a < b {
      assert offsets[b] == offsets[b - 1] + Count(hashes, b - 1);
      OffsetsMonotone(hashes, offsets, a, b - 1);
    }
  }

  /** Different IDs never get the same place, and every place is inside its bucket's range. */
  lemma PlaceInjective(hashes: seq<Word32>, offsets: seq<nat>, j: nat, k: nat)
    requires OffsetsOk(hashes, offsets) && j < k < |hashes|
    ensures Place(hashes, offsets, j) != Place(hashes, offsets, k)
  {
    var a, b := Bucket(hashes[j]), Bucket(hashes[k]);
    PlaceInRange(hashes, offsets, j);
    PlaceInRange(hashes, offsets, k);
    if a == b {
      CountSnoc(hashes, j, a);
      CountMonotone(hashes, j + 1, k, a);
    } else if a < b {
      OffsetsMonotone(hashes, offsets, a + 1, b);
    } else {
      OffsetsMonotone(hashes, offsets, b + 1, a);
    }
  }

  lemma PlaceInRange(hashes: seq<Word32>, offsets: seq<nat>, k: nat)
    requires OffsetsOk(hashes, offsets) && k < |hashes|
    ensures offsets[Bucket(hashes[k])] <= Place(hashes, offsets, k) < offsets[Bucket(hashes[k]) + 1]
  {
    var b := Bucket(hashes[k]);
    CountSnoc(hashes, k, b);
    CountMonotone(hashes, k + 1, |hashes|, b);
    assert hashes[..|hashes|] == hashes;
    assert offsets[b + 1] == offsets[b] + Count(hashes, b);
  }

  /** Every place in a bucket's range is the place of one of its IDs. */
  lemma {:induction false} PlaceOnto(hashes: seq<Word32>, n: nat, b: nat, t: nat) returns (k: nat)
    requires n <= |hashes| && t < Count(hashes[..n], b)
    ensures k < n && Bucket(hashes[k]) == b && Count(hashes[..k], b) == t
  {
    CountSnoc(hashes, n - 1, b);
    if t < Count(hashes[..n - 1], b) {
      k := PlaceOnto(hashes, n - 1, b, t);
    } else {
      k := n - 1;
    }
  }

  /** The IDs of bucket b occupy exactly its range of items. */
  ghost predicate Grouped(hashes: seq<Word32>, offsets: seq<nat>, items: seq<nat>) {
    && OffsetsOk(hashes, offsets)
    && |items| == |hashes| && offsets[BUCKETS] == |hashes|
    && (forall k :: 0 <= k < |hashes| ==> Place(hashes, offsets, k) < |items| && items[Place(hashes, offsets, k)] == k)
  }

  lemma {:induction false} CountTotal(hashes: seq<Word32>, offsets: seq<nat>)
    requires OffsetsOk(hashes, offsets)
    ensures offsets[BUCKETS] == |hashes|
  {
    SumCounts(hashes, offsets, BUCKETS);
    assert Below(hashes, BUCKETS) == |hashes| by { BelowAll(hashes); }
  }

  /** How many hashes fall into buckets below b. */
  function Below(hashes: seq<Word32>, b: nat): nat {
    if |hashes| == 0 then 0
    else Below(hashes[..|hashes| - 1], b) + if Bucket(hashes[|hashes| - 1]) < b then 1 else 0
  }

  lemma {:induction false} BelowAll(hashes: seq<Word32>)
    ensures Below(hashes, BUCKETS) == |hashes|
  {
    if |hashes| > 0 {
      BelowAll(hashes[..|hashes| - 1]);
    }
  }

  lemma {:induction false} BelowStep(hashes: seq<Word32>, b: nat)
    ensures Below(hashes, b + 1) == Below(hashes, b) + Count(hashes, b)
    ensures Below(hashes, 0) == 0
  {
    if |hashes| > 0 {
      BelowStep(hashes[..|hashes| - 1], b);
    }
  }

  lemma {:induction false} SumCounts(hashes: seq<Word32>, offsets: seq<nat>, b: nat)
    requires OffsetsOk(hashes, offsets) && b <= BUCKETS
    ensures offsets[b] == Below(hashes, b)
  {
    BelowStep(hashes, 0);
    if b > 0 {
      SumCounts(hashes, offsets, b - 1);
      BelowStep(hashes, b - 1);
      assert offsets[b - 1 + 1] == offsets[b - 1] + Count(hashes, b - 1);
    }
  }

  datatype MphBucket = MphBucket(bucket: nat, count: nat)

  /** The prefix sums of the bucket sizes, a cursor at the start of every bucket, and the
      buckets with their sizes. */
  method BucketOffsets(ghost hashes: seq<Word32>, counts: array<nat>)
    returns (offsets: array<nat>, cursor: array<nat>, buckets: array<MphBucket>)
    requires counts.Length == BUCKETS
    requires forall b :: 0 <= b < BUCKETS ==> counts[b] == Count(hashes, b)
    ensures fresh(offsets) && fresh(cursor) && offsets != cursor && cursor.Length == BUCKETS && buckets.Length == BUCKETS
    ensures OffsetsOk(hashes, offsets[..])
    ensures forall b :: 0 <= b < BUCKETS ==> cursor[b] == offsets[b]
    ensures forall b :: 0 <= b < BUCKETS ==> buckets[b] == MphBucket(b, Count(hashes, b))
  {
    offsets := new nat[BUCKETS + 1];
    cursor := new nat[BUCKETS];
    buckets := new MphBucket[BUCKETS](b => MphBucket(0, 0));
    offsets[0] := 0;
    for b := 0 to BUCKETS
      invariant offsets[0] == 0
      invariant forall i {:trigger Count(hashes, i)} :: 0 <= i < b ==> offsets[i + 1] == offsets[i] + Count(hashes, i)
      invariant forall i :: 0 <= i < b ==> cursor[i] == offsets[i]
      invariant forall i :: 0 <= i < b ==> buckets[i] == MphBucket(i, Count(hashes, i))
    {
      offsets[b + 1] := offsets[b] + counts[b];
      cursor[b] := offsets[b];
      buckets[b] := MphBucket(b, counts[b]);
    }
  }

  /** Counting sort of the IDs by bucket. */
  method GroupByBucket(hashes: array<Word32>, counts: array<nat>)
    returns (offsets: array<nat>, items: array<nat>, buckets: seq<MphBucket>)
    requires counts.Length == BUCKETS
    requires forall b :: 0 <= b < BUCKETS ==> counts[b] == Count(hashes[..], b)
    ensures fresh(offsets) && fresh(items) && offsets != items && |buckets| == BUCKETS
    ensures forall b :: 0 <= b < BUCKETS ==> buckets[b] == MphBucket(b, Count(hashes[..], b))
    ensures Grouped(hashes[..], offsets[..], items[..])
  {
    ghost var hs := hashes[..];
    var cursor;
    var sizes;
    offsets, cursor, sizes := BucketOffsets(hs, counts);
    buckets := sizes[..];
    items := new nat[hashes.Length];
    ghost var offs := offsets[..];
    CountTotal(hs, offs);
    for id := 0 to hashes.Length
      invariant hashes[..] == hs && offsets[..] == offs
      invariant forall b :: 0 <= b < BUCKETS ==> cursor[b] == offs[b] + Count(hs[..id], b)
      invariant forall k :: 0 <= k < id ==> Place(hs, offs, k) < items.Length && items[Place(hs, offs, k)] == k
    {
      var bucket := Bucket(hashes[id]);
      assert hashes[id] == hs[id];
      PlaceInRange(hs, offs, id);
      OffsetsMonotone(hs, offs, bucket + 1, BUCKETS);
      forall k | 0 <= k < id ensures Place(hs, offs, k) != cursor[bucket] {
        PlaceInjective(hs, offs, k, id);
      }
      items[cursor[bucket]] := id;
      cursor[bucket] := cursor[bucket] + 1;
      forall b | 0 <= b < BUCKETS ensures cursor[b] == offs[b] + Count(hs[..id + 1], b) {
        CountSnoc(hs, id, b);
      }
    }
  }

  // ---- Searching a multiplier --------------------------------------------------------

  /** The hashes placed so far: which slots are used, and by which hash. */
  datatype Placed = Placed(used: seq<bool>, hash: seq<Word32>)

  ghost predicate PlacedShape(p: Placed) { |p.used| == SLOTS && |p.hash| == SLOTS }

  /** A seed sends the given hashes to slots that are free or already belong to an equal
      hash, and different hashes to different slots. */
  ghost predicate SeedFits(group: seq<Word32>, p: Placed, seed: Word32)
    requires PlacedShape(p)
  {
    && (forall j :: 0 <= j < |group| && p.used[SlotOf(group[j], seed)] ==> p.hash[SlotOf(group[j], seed)] == group[j])
    && (forall i, j :: 0 <= i < j < |group| && SlotOf(group[i], seed) == SlotOf(group[j], seed) ==> group[i] == group[j])
  }

  /** The scratch marks of one attempt: exactly the slots tried in this generation. */
  ghost predicate Marked(group: seq<Word32>, seed: Word32, n: nat, trial: seq<nat>, trialHash: seq<Word32>, generation: nat)
    requires |trial| == SLOTS && |trialHash| == SLOTS && n <= |group|
  {
    && (forall s :: 0 <= s < SLOTS ==> trial[s] <= generation)
    && (forall j :: 0 <= j < n ==>
          trial[SlotOf(group[j], seed)] == generation && trialHash[SlotOf(group[j], seed)] == group[j])
    && (forall s :: 0 <= s < SLOTS && trial[s] == generation ==>
          exists j :: 0 <= j < n && SlotOf(group[j], seed) == s)
  }

  /** One attempt: walks the group until two different hashes meet in a slot. */
  method TrySeed(group: seq<Word32>, seed: Word32, used: array<bool>, placedHash: array<Word32>,
                 trial: array<nat>, trialHash: array<Word32>, generation: nat)
    returns (fits: bool)
    requires used.Length == SLOTS && placedHash.Length == SLOTS && trial.Length == SLOTS && trialHash.Length == SLOTS
    requires trialHash != placedHash
    requires forall s :: 0 <= s < SLOTS ==> trial[s] < generation
    modifies trial, trialHash
    ensures forall s :: 0 <= s < SLOTS ==> trial[s] <= generation
    ensures fits <==> SeedFits(group, Placed(used[..], placedHash[..]), seed)
  {
    var j := 0;
    ghost var p := Placed(used[..], placedHash[..]);
    while j < |group|
      invariant 0 <= j <= |group|
      invariant p == Placed(used[..], placedHash[..])
      invariant Marked(group, seed, j, trial[..], trialHash[..], generation)
      invariant SeedFits(group[..j], p, seed)
    {
      var hash := group[j];
      var slot := SlotOf(hash, seed);
      ghost var t, h := trial[..], trialHash[..];
      ConflictIsExact(group, p, seed, j, t, h, generation);
      if (used[slot] && placedHash[slot] != hash) || (trial[slot] == generation && trialHash[slot] != hash) {
        return false;
      }
      trial[slot] := generation;
      trialHash[slot] := hash;
      MarkOne(group, seed, j, t, h, generation);
      assert trial[..] == t[slot := generation] && trialHash[..] == h[slot := hash];
      j := j + 1;
    }
    assert group[..j] == group;
    return true;
  }

  /** The test of one item: it stops exactly when the seed cannot fit. */
  lemma ConflictIsExact(group: seq<Word32>, p: Placed, seed: Word32, j: nat, trial: seq<nat>, trialHash: seq<Word32>,
                        generation: nat)
    requires j < |group| && PlacedShape(p) && |trial| == SLOTS && |trialHash| == SLOTS
    requires Marked(group, seed, j, trial, trialHash, generation) && SeedFits(group[..j], p, seed)
    ensures var slot := SlotOf(group[j], seed);
            if (p.used[slot] && p.hash[slot] != group[j]) || (trial[slot] == generation && trialHash[slot] != group[j])
            then !SeedFits(group, p, seed) else SeedFits(group[..j + 1], p, seed)
  {
  }

  lemma MarkOne(group: seq<Word32>, seed: Word32, n: nat, trial: seq<nat>, trialHash: seq<Word32>, generation: nat)
    requires n < |group| && |trial| == SLOTS && |trialHash| == SLOTS
    requires Marked(group, seed, n, trial, trialHash, generation)
    requires trial[SlotOf(group[n], seed)] == generation ==> trialHash[SlotOf(group[n], seed)] == group[n]
    ensures var slot := SlotOf(group[n], seed);
            Marked(group, seed, n + 1, trial[slot := generation], trialHash[slot := group[n]], generation)
  {
  }

  /** The bounded search over odd multipliers: finds the first that fits, and nothing exactly when
      none of those tried does. */
  method FindSeed(group: seq<Word32>, used: array<bool>, placedHash: array<Word32>,
                  trial: array<nat>, trialHash: array<Word32>, generation: nat)
    returns (found: bool, seed: Word32, nextGeneration: nat, ghost misses: nat)
    requires used.Length == SLOTS && placedHash.Length == SLOTS && trial.Length == SLOTS && trialHash.Length == SLOTS
    requires trialHash != placedHash
    requires forall s :: 0 <= s < SLOTS ==> trial[s] <= generation
    modifies trial, trialHash
    ensures forall s :: 0 <= s < SLOTS ==> trial[s] <= nextGeneration
    ensures generation <= nextGeneration <= generation + ATTEMPTS
    ensures found ==> misses < ATTEMPTS && seed == Multiplier(misses) && SeedFits(group, Placed(used[..], placedHash[..]), seed)
    ensures !found ==> misses == ATTEMPTS
    ensures forall attempt :: 0 <= attempt < misses ==> !SeedFits(group, Placed(used[..], placedHash[..]), Multiplier(attempt))
  {
    ghost var p := Placed(used[..], placedHash[..]);
    found, seed, nextGeneration := false, 0, generation;
    var attempt := 0;
    while attempt < ATTEMPTS && !found
      invariant 0 <= attempt <= ATTEMPTS && nextGeneration <= generation + attempt + if found then 1 else 0
      invariant generation <= nextGeneration
      invariant forall s :: 0 <= s < SLOTS ==> trial[s] <= nextGeneration
      invariant p == Placed(used[..], placedHash[..])
      invariant found ==> attempt < ATTEMPTS && seed == Multiplier(attempt) && SeedFits(group, p, seed)
      invariant forall a :: 0 <= a < attempt ==> !SeedFits(group, p, Multiplier(a))
      decreases ATTEMPTS - attempt, !found
    {
      seed := attempt * 2 + 1;
      nextGeneration := nextGeneration + 1;
      found := TrySeed(group, seed, used, placedHash, trial, trialHash, nextGeneration);
      if !found {
        attempt := attempt + 1;
      }
    }
    misses := attempt;
  }

  // ---- What the search decides -------------------------------------------------------

  function Multiplier(attempt: nat): Word32
    requires attempt < ATTEMPTS
  {
    attempt * 2 + 1
  }

  /** A multiplier sends the hashes of bucket b to slots of their own: different hashes to
      different slots, none of them a slot of a bucket that has its multiplier already. */
  ghost predicate BucketFits(hashes: seq<Word32>, chosen: map<nat, Word32>, b: nat, seed: Word32) {
    && (forall i, j ::
          (0 <= i < |hashes| && 0 <= j < |hashes| && Bucket(hashes[i]) == Bucket(hashes[j]) == b &&
           SlotOf(hashes[i], seed) == SlotOf(hashes[j], seed)) ==> hashes[i] == hashes[j])
    && (forall i, j ::
          (0 <= i < |hashes| && 0 <= j < |hashes| && Bucket(hashes[i]) == b && Bucket(hashes[j]) in chosen) ==>
            SlotOf(hashes[i], seed) != SlotOf(hashes[j], chosen[Bucket(hashes[j])]))
  }

  /** The first multiplier that fits, from the given attempt on. */
  ghost function FirstFit(hashes: seq<Word32>, chosen: map<nat, Word32>, b: nat, attempt: nat): Option<Word32>
    requires attempt <= ATTEMPTS
    decreases ATTEMPTS - attempt
  {
    if attempt == ATTEMPTS then None
    else if BucketFits(hashes, chosen, b, Multiplier(attempt)) then Some(Multiplier(attempt))
    else FirstFit(hashes, chosen, b, attempt + 1)
  }

  /** Bucket after bucket in this order, each with the first multiplier that fits on top of the
      earlier ones; None when some bucket has none among those tried.  Slots, marks and the order
      of the IDs in a bucket play no part. */
  ghost function Greedy(hashes: seq<Word32>, order: seq<MphBucket>): Option<map<nat, Word32>> {
    if |order| == 0 then Some(map[])
    else
      match Greedy(hashes, order[..|order| - 1])
      case None => None
      case Some(chosen) =>
        var b := order[|order| - 1];
        if b.count == 0 then Some(chosen)
        else
          match FirstFit(hashes, chosen, b.bucket, 0)
          case None => None
          case Some(seed) => Some(chosen[b.bucket := seed])
  }

  /** The buckets with their sizes, as build_mph hands them to qsort. */
  function Sizes(hashes: seq<Word32>): (r: seq<MphBucket>)
    ensures |r| == BUCKETS
  {
    seq(BUCKETS, b requires 0 <= b < BUCKETS => MphBucket(b, Count(hashes, b)))
  }

  /** build_mph can index these hashes with what this qsort makes of their buckets. */
  ghost predicate Indexable(hashes: seq<Word32>, qsort: seq<MphBucket> -> seq<MphBucket>) {
    Greedy(hashes, qsort(Sizes(hashes))).Some?
  }

  lemma {:induction false} FirstFitFrom(hashes: seq<Word32>, chosen: map<nat, Word32>, b: nat, from: nat, misses: nat)
    requires from <= misses <= ATTEMPTS
    requires forall a :: 0 <= a < misses ==> !BucketFits(hashes, chosen, b, Multiplier(a))
    requires misses < ATTEMPTS ==> BucketFits(hashes, chosen, b, Multiplier(misses))
    ensures FirstFit(hashes, chosen, b, from) == if misses < ATTEMPTS then Some(Multiplier(misses)) else None
    decreases misses - from
  {
    if from < misses {
      FirstFitFrom(hashes, chosen, b, from + 1, misses);
    }
  }

  /** A bucket without a fitting multiplier stops the search for good. */
  lemma {:induction false} GreedyStops(hashes: seq<Word32>, order: seq<MphBucket>, n: nat)
    requires n <= |order| && Greedy(hashes, order[..n]) == None
    ensures Greedy(hashes, order) == None
    decreases |order| - n
  {
    if n < |order| {
      assert order[..n + 1][..n] == order[..n];
      GreedyStops(hashes, order, n + 1);
    } else {
      assert order[..n] == order;
    }
  }

  /** Empty buckets at the end change nothing. */
  lemma {:induction false} GreedySkips(hashes: seq<Word32>, order: seq<MphBucket>, n: nat)
    requires n <= |order| && forall i :: n <= i < |order| ==> order[i].count == 0
    ensures Greedy(hashes, order) == Greedy(hashes, order[..n])
    decreases |order| - n
  {
    if n < |order| {
      assert order[..n + 1][..n] == order[..n];
      GreedySkips(hashes, order, n + 1);
    } else {
      assert order[..n] == order;
    }
  }

  // ---- Placing a bucket --------------------------------------------------------------

  function SlotsOf(hashes: seq<Word32>, seeds: seq<Word32>): (r: seq<nat>)
    requires |seeds| == BUCKETS
    ensures |r| == |hashes|
  {
    seq(|hashes|, id requires 0 <= id < |hashes| => SeedSlot(hashes, seeds, id))
  }

  function SeedSlot(hashes: seq<Word32>, seeds: seq<Word32>, id: nat): (s: nat)
    requires id < |hashes| && |seeds| == BUCKETS
    ensures s < SLOTS
  {
    SlotOf(hashes[id], seeds[Bucket(hashes[id])])
  }

  /** Another ID of `among` has the same hash. */
  ghost predicate Twin(hashes: seq<Word32>, among: set<nat>, id: nat)
    requires id < |hashes|
  {
    exists other :: other in among && other != id && other < |hashes| && hashes[other] == hashes[id]
  }

  /** What a slot holds for one of its IDs. */
  ghost function Mark(hashes: seq<Word32>, among: set<nat>, id: nat): Word16
    requires id < |hashes| <= MAX_IDS
  {
    if Twin(hashes, among, id) then COLLISION else Slot3(id)
  }

  /** The IDs of `done` own their slots: equal hashes share one slot, different hashes never
      do, and a slot names its ID unless that ID has a twin. */
  ghost predicate PlacedIds(hashes: seq<Word32>, slots: seq<nat>, done: set<nat>, p: Placed, ids: seq<Word16>)
    requires |hashes| <= MAX_IDS
  {
    && PlacedShape(p) && |ids| == SLOTS && |slots| == |hashes|
    && (forall id :: id in done ==>
          id < |hashes| && slots[id] < SLOTS && p.used[slots[id]] && p.hash[slots[id]] == hashes[id])
    && (forall id {:trigger Mark(hashes, done, id)} :: id in done ==> ids[slots[id]] == Mark(hashes, done, id))
    && (forall s :: 0 <= s < SLOTS && p.used[s] ==>
          exists id :: id in done && id < |hashes| && slots[id] == s)
  }

  /** IDs with equal hashes have the same slot. */
  ghost predicate ByHash(hashes: seq<Word32>, slots: seq<nat>) {
    |slots| == |hashes| &&
    forall i, j :: 0 <= i < |hashes| && 0 <= j < |hashes| && hashes[i] == hashes[j] ==> slots[i] == slots[j]
  }

  lemma MarksAfter(hashes: seq<Word32>, done: set<nat>, id: nat, k: nat)
    requires |hashes| <= MAX_IDS && id < |hashes| && id !in done && k in done && k < |hashes|
    ensures Mark(hashes, done + {id}, k) == if hashes[k] == hashes[id] then COLLISION else Mark(hashes, done, k)
  {
  }

  /** The slot of a fresh ID is used exactly when an ID with its hash was placed. */
  lemma UsedMeansTwin(hashes: seq<Word32>, slots: seq<nat>, done: set<nat>, p: Placed, ids: seq<Word16>, id: nat)
    requires |hashes| <= MAX_IDS && PlacedIds(hashes, slots, done, p, ids) && ByHash(hashes, slots)
    requires id < |hashes| && id !in done && slots[id] < SLOTS
    requires p.used[slots[id]] ==> p.hash[slots[id]] == hashes[id]
    ensures p.used[slots[id]] <==> Twin(hashes, done + {id}, id)
  {
  }

  /** What a placed ID's slot holds after another ID was placed. */
  lemma PlacedStays(hashes: seq<Word32>, slots: seq<nat>, done: set<nat>, p: Placed, ids: seq<Word16>, id: nat, k: nat)
    requires |hashes| <= MAX_IDS && PlacedIds(hashes, slots, done, p, ids) && ByHash(hashes, slots)
    requires id < |hashes| && id !in done && slots[id] < SLOTS && k in done
    requires p.used[slots[id]] ==> p.hash[slots[id]] == hashes[id]
    ensures slots[k] == slots[id] <==> hashes[k] == hashes[id]
    ensures Mark(hashes, done + {id}, k) == if slots[k] == slots[id] then COLLISION else ids[slots[k]]
  {
    MarksAfter(hashes, done, id, k);
    assert p.used[slots[k]] && p.hash[slots[k]] == hashes[k];
  }

  /** Placing one more ID in a slot that is free or belongs to its own hash. */
  lemma PlaceOne(hashes: seq<Word32>, slots: seq<nat>, done: set<nat>, p: Placed, ids: seq<Word16>, id: nat)
    requires |hashes| <= MAX_IDS && PlacedIds(hashes, slots, done, p, ids) && ByHash(hashes, slots)
    requires id < |hashes| && id !in done && slots[id] < SLOTS
    requires p.used[slots[id]] ==> p.hash[slots[id]] == hashes[id]
    ensures var s := slots[id];
            PlacedIds(hashes, slots, done + {id}, Placed(p.used[s := true], p.hash[s := hashes[id]]),
                      ids[s := if p.used[s] then COLLISION else Slot3(id)])
  {
    var s, all := slots[id], done + {id};
    UsedMeansTwin(hashes, slots, done, p, ids, id);
    var cell := if p.used[s] then COLLISION else Slot3(id);
    var q, ids' := Placed(p.used[s := true], p.hash[s := hashes[id]]), ids[s := cell];
    assert cell == Mark(hashes, all, id);
    forall k | k in done ensures slots[k] < SLOTS && ids'[slots[k]] == Mark(hashes, all, k) && q.hash[slots[k]] == hashes[k] {
      PlacedStays(hashes, slots, done, p, ids, id, k);
      assert p.used[slots[k]];
    }
    forall t | 0 <= t < SLOTS && q.used[t] ensures exists k :: k in all && k < |hashes| && slots[k] == t {
      if t == s {
        assert id in all;
      } else {
        var k :| k in done && k < |hashes| && slots[k] == t;
        assert k in all;
      }
    }
  }

  function Members(ids: seq<nat>): set<nat> { set i | 0 <= i < |ids| :: ids[i] }

  function HashesOf(hashes: seq<Word32>, ids: seq<nat>): (r: seq<Word32>)
    requires forall i :: 0 <= i < |ids| ==> ids[i] < |hashes|
    ensures |r| == |ids|
  {
    seq(|ids|, i requires 0 <= i < |ids| => hashes[ids[i]])
  }

  /** The IDs of one bucket, none of them placed yet. */
  ghost predicate Group(hashes: seq<Word32>, bucket: nat, group: seq<nat>, done: set<nat>) {
    && bucket < BUCKETS && Distinct(group)
    && forall i :: 0 <= i < |group| ==> group[i] < |hashes| && Bucket(hashes[group[i]]) == bucket && group[i] !in done
  }

  ghost predicate GroupSlots(hashes: seq<Word32>, slots: seq<nat>, group: seq<nat>, seed: Word32) {
    && ByHash(hashes, slots)
    && forall i :: 0 <= i < |group| ==> group[i] < |hashes| && slots[group[i]] == SlotOf(hashes[group[i]], seed)
  }

  /** A seed that fits keeps fitting while its group is being placed. */
  lemma NextIsPlaceable(hashes: seq<Word32>, slots: seq<nat>, bucket: nat, seed: Word32, group: seq<nat>, done: set<nat>,
                        before: Placed, idsBefore: seq<Word16>, p: Placed, ids: seq<Word16>, j: nat)
    requires |hashes| <= MAX_IDS && Group(hashes, bucket, group, done) && j < |group|
    requires PlacedIds(hashes, slots, done, before, idsBefore) && GroupSlots(hashes, slots, group, seed)
    requires SeedFits(HashesOf(hashes, group), before, seed)
    requires PlacedIds(hashes, slots, done + Members(group[..j]), p, ids)
    ensures group[j] !in done + Members(group[..j])
    ensures p.used[slots[group[j]]] ==> p.hash[slots[group[j]]] == hashes[group[j]]
  {
    var id, own := group[j], HashesOf(hashes, group);
    var s := slots[id];
    assert own[j] == hashes[id] && s == SlotOf(own[j], seed);
    if p.used[s] {
      var owner :| owner in done + Members(group[..j]) && owner < |hashes| && slots[owner] == s;
      if owner in done {
        assert before.used[slots[owner]];
        assert before.hash[s] == own[j];
      } else {
        var i :| 0 <= i < j && group[..j][i] == owner;
        assert own[i] == hashes[owner] && SlotOf(own[i], seed) == s;
      }
    }
  }

  /** The slot of one item becomes used, and loses its ID if it was used before. */
  method PlaceItem(hash: Word32, id: nat, slot: nat, used: array<bool>, placedHash: array<Word32>, ids: array<Word16>)
    requires used.Length == SLOTS && placedHash.Length == SLOTS && ids.Length == SLOTS && slot < SLOTS && id < MAX_IDS
    requires used[slot] ==> placedHash[slot] == hash
    modifies used, placedHash, ids
    ensures used[..] == old(used[..])[slot := true]
    ensures placedHash[..] == old(placedHash[..])[slot := hash]
    ensures ids[..] == old(ids[..])[slot := if old(used[slot]) then COLLISION else Slot3(id)]
  {
    if used[slot] {
      if placedHash[slot] != hash {
        assert false;
      }
      ids[slot] := COLLISION;
    } else {
      used[slot] := true;
      placedHash[slot] := hash;
      ids[slot] := Slot3(id);
    }
  }

  /** The next item of a group whose seed fits: its slot is free or belongs to its hash. */
  method PlaceNext(hashes: seq<Word32>, group: seq<nat>, j: nat, seed: Word32, used: array<bool>,
                   placedHash: array<Word32>, ids: array<Word16>, ghost bucket: nat, ghost slots: seq<nat>,
                   ghost done: set<nat>, ghost before: Placed, ghost idsBefore: seq<Word16>)
    requires |hashes| <= MAX_IDS && used.Length == SLOTS && placedHash.Length == SLOTS && ids.Length == SLOTS
    requires Group(hashes, bucket, group, done) && GroupSlots(hashes, slots, group, seed) && j < |group|
    requires PlacedIds(hashes, slots, done, before, idsBefore)
    requires SeedFits(HashesOf(hashes, group), before, seed)
    requires PlacedIds(hashes, slots, done + Members(group[..j]), Placed(used[..], placedHash[..]), ids[..])
    modifies used, placedHash, ids
    ensures PlacedIds(hashes, slots, done + Members(group[..j + 1]), Placed(used[..], placedHash[..]), ids[..])
  {
    var id := group[j];
    var hash := hashes[id];
    ghost var p, i := Placed(used[..], placedHash[..]), ids[..];
    NextIsPlaceable(hashes, slots, bucket, seed, group, done, before, idsBefore, p, i, j);
    PlaceOne(hashes, slots, done + Members(group[..j]), p, i, id);
    PlaceItem(hash, id, SlotOf(hash, seed), used, placedHash, ids);
    MembersSnoc(group, j, done);
  }

  /** Writes the slots of one bucket. */
  method PlaceGroup(hashes: seq<Word32>, group: seq<nat>, seed: Word32, used: array<bool>, placedHash: array<Word32>,
                    ids: array<Word16>, ghost bucket: nat, ghost slots: seq<nat>, ghost done: set<nat>)
    requires |hashes| <= MAX_IDS && used.Length == SLOTS && placedHash.Length == SLOTS && ids.Length == SLOTS
    requires Group(hashes, bucket, group, done) && GroupSlots(hashes, slots, group, seed)
    requires PlacedIds(hashes, slots, done, Placed(used[..], placedHash[..]), ids[..])
    requires SeedFits(HashesOf(hashes, group), Placed(used[..], placedHash[..]), seed)
    modifies used, placedHash, ids
    ensures PlacedIds(hashes, slots, done + Members(group), Placed(used[..], placedHash[..]), ids[..])
  {
    ghost var before, idsBefore := Placed(used[..], placedHash[..]), ids[..];
    assert done + Members(group[..0]) == done;
    for j := 0 to |group|
      invariant PlacedIds(hashes, slots, done + Members(group[..j]), Placed(used[..], placedHash[..]), ids[..])
    {
      PlaceNext(hashes, group, j, seed, used, placedHash, ids, bucket, slots, done, before, idsBefore);
    }
    assert group[..|group|] == group;
  }

  lemma MembersSnoc(group: seq<nat>, j: nat, done: set<nat>)
    requires j < |group|
    ensures done + Members(group[..j + 1]) == done + Members(group[..j]) + {group[j]}
  {
  }

  // ---- All buckets -------------------------------------------------------------------

  ghost predicate SortedByCount(order: seq<MphBucket>) {
    forall i, j :: 0 <= i < j < |order| ==> order[i].count >= order[j].count
  }

  /** What the C library's qsort promises for mph_bucket_compare; equal counts come in any
      order. */
  ghost predicate Sorts(qsort: seq<MphBucket> -> seq<MphBucket>) {
    forall s: seq<MphBucket> :: SortedByCount(qsort(s)) && multiset(qsort(s)) == multiset(s)
  }

  /** Bucket b is among the first n of the order. */
  predicate HasBucket(order: seq<MphBucket>, n: nat, b: nat)
    requires n <= |order|
  {
    exists i :: 0 <= i < n && order[i].bucket == b
  }

  /** Every bucket once, with its size, larger sizes first. */
  ghost predicate OrderOk(hashes: seq<Word32>, order: seq<MphBucket>) {
    && SortedByCount(order)
    && (forall i :: 0 <= i < |order| ==> order[i].bucket < BUCKETS && order[i].count == Count(hashes, order[i].bucket))
    && (forall i, j :: 0 <= i < j < |order| ==> order[i].bucket != order[j].bucket)
    && (forall b :: 0 <= b < BUCKETS ==> HasBucket(order, |order|, b))
  }

  lemma OrderFromSort(hashes: seq<Word32>, buckets: seq<MphBucket>, order: seq<MphBucket>)
    requires |buckets| == BUCKETS
    requires forall b :: 0 <= b < BUCKETS ==> buckets[b] == MphBucket(b, Count(hashes, b))
    requires SortedByCount(order) && multiset(order) == multiset(buckets)
    ensures OrderOk(hashes, order)
  {
    forall i | 0 <= i < |order| ensures order[i].bucket < BUCKETS && order[i].count == Count(hashes, order[i].bucket) {
      assert order[i] in multiset(order);
      assert order[i] in buckets;
    }
    forall b | 0 <= b < BUCKETS ensures HasBucket(order, |order|, b) {
      assert buckets[b] in multiset(buckets);
      var i :| 0 <= i < |order| && order[i] == buckets[b];
      assert order[i].bucket == b;
    }
    forall i, j | 0 <= i < j < |order| ensures order[i].bucket != order[j].bucket {
      if order[i].bucket == order[j].bucket {
        TwiceInMultiset(order, i, j);
        OnceInMultiset(buckets, order[i]);
      }
    }
  }

  lemma TwiceInMultiset(s: seq<MphBucket>, i: nat, j: nat)
    requires i < j < |s| && s[i] == s[j]
    ensures multiset(s)[s[i]] >= 2
  {
    assert s == s[..j] + s[j..];
    assert s[..j][i] == s[i] && s[j..][0] == s[j];
    assert s[i] in multiset(s[..j]) && s[i] in multiset(s[j..]);
  }

  lemma {:induction false} OnceInMultiset(s: seq<MphBucket>, x: MphBucket)
    requires forall i, j :: 0 <= i < j < |s| ==> s[i] != s[j]
    ensures multiset(s)[x] <= 1
  {
    if |s| > 0 {
      var front, last := s[..|s| - 1], s[|s| - 1];
      assert s == front + [last];
      OnceInMultiset(front, x);
      forall i | 0 <= i < |front| ensures front[i] != last {
        assert s[i] != s[|s| - 1];
      }
      assert last !in multiset(front);
    }
  }

  /** The IDs whose bucket is among the first n of the order. */
  function DoneIds(hashes: seq<Word32>, order: seq<MphBucket>, n: nat): set<nat>
    requires n <= |order|
  {
    set id | 0 <= id < |hashes| && HasBucket(order, n, Bucket(hashes[id]))
  }

  function GroupAt(order: seq<MphBucket>, offsets: seq<nat>, items: seq<nat>, n: nat): seq<nat>
    requires n < |order| && order[n].bucket < |offsets| && offsets[order[n].bucket] + order[n].count <= |items|
  {
    items[offsets[order[n].bucket]..offsets[order[n].bucket] + order[n].count]
  }

  /** The next group holds exactly the IDs of the next bucket. */
  lemma NextGroup(hashes: seq<Word32>, offsets: seq<nat>, items: seq<nat>, order: seq<MphBucket>, n: nat)
    requires Grouped(hashes, offsets, items) && OrderOk(hashes, order) && n < |order|
    ensures offsets[order[n].bucket] + order[n].count <= |items|
    ensures Group(hashes, order[n].bucket, GroupAt(order, offsets, items, n), DoneIds(hashes, order, n))
    ensures DoneIds(hashes, order, n + 1) == DoneIds(hashes, order, n) + Members(GroupAt(order, offsets, items, n))
  {
    var b := order[n].bucket;
    assert offsets[b + 1] == offsets[b] + Count(hashes, b);
    OffsetsMonotone(hashes, offsets, b + 1, BUCKETS);
    var group := GroupAt(order, offsets, items, n);
    forall i | 0 <= i < |group|
      ensures group[i] < |hashes| && Bucket(hashes[group[i]]) == b && Place(hashes, offsets, group[i]) == offsets[b] + i
    {
      BucketItem(hashes, offsets, items, b, offsets[b] + i);
    }
    assert !HasBucket(order, n, b);
    forall id | id in DoneIds(hashes, order, n + 1) ensures id in DoneIds(hashes, order, n) + Members(group) {
      if Bucket(hashes[id]) == b {
        PlaceInRange(hashes, offsets, id);
        assert group[Place(hashes, offsets, id) - offsets[b]] == id;
      }
    }
    forall id | id in Members(group) ensures id in DoneIds(hashes, order, n + 1) {
      assert order[n].bucket == Bucket(hashes[id]);
    }
  }

  lemma BucketItem(hashes: seq<Word32>, offsets: seq<nat>, items: seq<nat>, b: nat, i: nat)
    requires Grouped(hashes, offsets, items) && b < BUCKETS && offsets[b] <= i < offsets[b + 1]
    ensures i < |items| && items[i] < |hashes| && Bucket(hashes[items[i]]) == b && Place(hashes, offsets, items[i]) == i
  {
    assert hashes[..|hashes|] == hashes;
    assert offsets[b + 1] == offsets[b] + Count(hashes, b);
    var k := PlaceOnto(hashes, |hashes|, b, i - offsets[b]);
    assert Place(hashes, offsets, k) == i;
  }

  /** Buckets after the first empty one are empty, so every ID is done there. */
  lemma AllDone(hashes: seq<Word32>, order: seq<MphBucket>, n: nat)
    requires OrderOk(hashes, order) && n <= |order| && (n < |order| ==> order[n].count == 0)
    ensures DoneIds(hashes, order, n) == AllIds(hashes)
  {
    forall id | 0 <= id < |hashes| ensures HasBucket(order, n, Bucket(hashes[id])) {
      assert HasBucket(order, |order|, Bucket(hashes[id]));
      var i :| 0 <= i < |order| && order[i].bucket == Bucket(hashes[id]);
      CountSnoc(hashes, id, order[i].bucket);
      CountMonotone(hashes, id + 1, |hashes|, order[i].bucket);
      assert hashes[..|hashes|] == hashes;
      assert order[i].count > 0;
    }
  }

  function AllIds(hashes: seq<Word32>): set<nat> { set id {:trigger hashes[id]} | 0 <= id < |hashes| }

  /** No placed ID looks at the multiplier of a bucket that is still to come. */
  lemma SeedOfLaterBucket(hashes: seq<Word32>, seeds: seq<Word32>, order: seq<MphBucket>, n: nat, p: Placed,
                          ids: seq<Word16>, seed: Word32)
    requires |hashes| <= MAX_IDS && OrderOk(hashes, order) && n < |order| && |seeds| == BUCKETS
    requires PlacedIds(hashes, SlotsOf(hashes, seeds), DoneIds(hashes, order, n), p, ids)
    ensures PlacedIds(hashes, SlotsOf(hashes, seeds[order[n].bucket := seed]), DoneIds(hashes, order, n), p, ids)
  {
    var done := DoneIds(hashes, order, n);
    var slots, later := SlotsOf(hashes, seeds), SlotsOf(hashes, seeds[order[n].bucket := seed]);
    forall id | id in done ensures later[id] == slots[id] {
      assert Bucket(hashes[id]) != order[n].bucket;
    }
  }

  lemma SlotsOfGroup(hashes: seq<Word32>, seeds: seq<Word32>, bucket: nat, group: seq<nat>, done: set<nat>)
    requires Group(hashes, bucket, group, done) && |seeds| == BUCKETS
    ensures GroupSlots(hashes, SlotsOf(hashes, seeds), group, seeds[bucket])
  {
  }

  /** The seeds of the first n buckets are those of the specification. */
  ghost predicate Chose(order: seq<MphBucket>, n: nat, seeds: seq<Word32>, chosen: map<nat, Word32>)
    requires n <= |order|
  {
    && |seeds| == BUCKETS
    && (forall b :: b in chosen <==> HasBucket(order, n, b))
    && (forall b :: b in chosen ==> b < BUCKETS && chosen[b] == seeds[b])
  }

  /** An ID that is not done yet and belongs to bucket number n is in that bucket's group. */
  lemma InGroup(hashes: seq<Word32>, offsets: seq<nat>, items: seq<nat>, order: seq<MphBucket>, n: nat, id: nat)
    returns (k: nat)
    requires Grouped(hashes, offsets, items) && OrderOk(hashes, order) && n < |order|
    requires id < |hashes| && Bucket(hashes[id]) == order[n].bucket
    ensures offsets[order[n].bucket] + order[n].count <= |items|
    ensures k < |GroupAt(order, offsets, items, n)| && GroupAt(order, offsets, items, n)[k] == id
  {
    NextGroup(hashes, offsets, items, order, n);
    assert id in DoneIds(hashes, order, n + 1);
    assert !HasBucket(order, n, order[n].bucket);
    k :| 0 <= k < |GroupAt(order, offsets, items, n)| && GroupAt(order, offsets, items, n)[k] == id;
  }

  /** The attempt on the tables decides what the specification asks. */
  lemma FitsIffBucketFits(hashes: seq<Word32>, offsets: seq<nat>, items: seq<nat>, order: seq<MphBucket>, n: nat,
                          seeds: seq<Word32>, chosen: map<nat, Word32>, p: Placed, ids: seq<Word16>, group: seq<nat>,
                          seed: Word32)
    requires |hashes| <= MAX_IDS && Grouped(hashes, offsets, items) && OrderOk(hashes, order) && n < |order|
    requires Chose(order, n, seeds, chosen)
    requires PlacedIds(hashes, SlotsOf(hashes, seeds), DoneIds(hashes, order, n), p, ids)
    requires Group(hashes, order[n].bucket, group, DoneIds(hashes, order, n))
    requires offsets[order[n].bucket] + order[n].count <= |items| && group == GroupAt(order, offsets, items, n)
    ensures SeedFits(HashesOf(hashes, group), p, seed) <==> BucketFits(hashes, chosen, order[n].bucket, seed)
  {
    var own, b := HashesOf(hashes, group), order[n].bucket;
    assert !HasBucket(order, n, b);
    if SeedFits(own, p, seed) {
      forall i, j | 0 <= i < |hashes| && 0 <= j < |hashes| && Bucket(hashes[i]) == b &&
                    (Bucket(hashes[j]) == b || Bucket(hashes[j]) in chosen)
        ensures Bucket(hashes[j]) == b && SlotOf(hashes[i], seed) == SlotOf(hashes[j], seed) ==> hashes[i] == hashes[j]
        ensures Bucket(hashes[j]) in chosen ==> SlotOf(hashes[i], seed) != SlotOf(hashes[j], chosen[Bucket(hashes[j])])
      {
        var k := InGroup(hashes, offsets, items, order, n, i);
        assert own[k] == hashes[i];
        if Bucket(hashes[j]) == b {
          var l := InGroup(hashes, offsets, items, order, n, j);
          assert own[l] == hashes[j] && (k == l || k < l || l < k);
        } else {
          assert j in DoneIds(hashes, order, n);
          assert SlotsOf(hashes, seeds)[j] == SlotOf(hashes[j], chosen[Bucket(hashes[j])]);
        }
      }
    }
    if BucketFits(hashes, chosen, b, seed) {
      forall k, id | 0 <= k < |own| && id in DoneIds(hashes, order, n)
        ensures SlotsOf(hashes, seeds)[id] != SlotOf(own[k], seed)
      {
        assert own[k] == hashes[group[k]] && Bucket(hashes[id]) in chosen;
      }
      forall k, l | 0 <= k < l < |own| && SlotOf(own[k], seed) == SlotOf(own[l], seed) ensures own[k] == own[l] {
        assert own[k] == hashes[group[k]] && own[l] == hashes[group[l]];
      }
    }
  }

  /** What the finished tables promise: every ID's slot names that ID, or holds the sentinel
      exactly when another ID has the same hash; different hashes never share a slot. */
  ghost predicate MphOk(hashes: seq<Word32>, seeds: seq<Word32>, ids: seq<Word16>) {
    && |hashes| <= MAX_IDS && |seeds| == BUCKETS && |ids| == SLOTS
    && var slots := SlotsOf(hashes, seeds);
       && (forall id :: 0 <= id < |hashes| ==>
             slots[id] < SLOTS && ids[slots[id]] == Mark(hashes, AllIds(hashes), id))
       && (forall i, j :: 0 <= i < j < |hashes| && slots[i] == slots[j] ==> hashes[i] == hashes[j])
  }

  lemma PlacedAllIsOk(hashes: seq<Word32>, seeds: seq<Word32>, p: Placed, ids: seq<Word16>)
    requires |hashes| <= MAX_IDS && |seeds| == BUCKETS && PlacedIds(hashes, SlotsOf(hashes, seeds), AllIds(hashes), p, ids)
    ensures MphOk(hashes, seeds, ids)
  {
    var slots := SlotsOf(hashes, seeds);
    forall i, j | 0 <= i < j < |hashes| && slots[i] == slots[j]
      ensures hashes[i] == hashes[j]
    {
      assert i in AllIds(hashes) && j in AllIds(hashes);
    }
  }

  /** Searches a multiplier for bucket number n of the order.  Exactly when the specification has
      one, it is entered and the bucket's IDs are placed; otherwise the tables stay as they are. */
  method PlaceBucket(hashes: seq<Word32>, order: seq<MphBucket>, n: nat, offsets: seq<nat>, items: seq<nat>,
                     used: array<bool>, placedHash: array<Word32>, ids: array<Word16>,
                     trial: array<nat>, trialHash: array<Word32>, generation: nat, seeds: array<Word32>,
                     ghost chosen: map<nat, Word32>)
    returns (found: bool, nextGeneration: nat)
    requires |hashes| <= MAX_IDS && used.Length == SLOTS && placedHash.Length == SLOTS && ids.Length == SLOTS
    requires trial.Length == SLOTS && trialHash.Length == SLOTS
    requires placedHash != trialHash
    requires forall s :: 0 <= s < SLOTS ==> trial[s] <= generation
    requires Grouped(hashes, offsets, items) && OrderOk(hashes, order) && n < |order|
    requires seeds.Length == BUCKETS && seeds != placedHash && seeds != trialHash && Chose(order, n, seeds[..], chosen)
    requires PlacedIds(hashes, SlotsOf(hashes, seeds[..]), DoneIds(hashes, order, n),
                       Placed(used[..], placedHash[..]), ids[..])
    modifies used, placedHash, ids, trial, trialHash, seeds
    ensures forall s :: 0 <= s < SLOTS ==> trial[s] <= nextGeneration
    ensures found <==> FirstFit(hashes, chosen, order[n].bucket, 0).Some?
    ensures found ==> seeds[..] == old(seeds[..])[order[n].bucket := FirstFit(hashes, chosen, order[n].bucket, 0).value]
    ensures found ==> PlacedIds(hashes, SlotsOf(hashes, seeds[..]),
                                DoneIds(hashes, order, n + 1), Placed(used[..], placedHash[..]), ids[..])
    ensures !found ==> used[..] == old(used[..]) && placedHash[..] == old(placedHash[..]) && ids[..] == old(ids[..]) &&
                       seeds[..] == old(seeds[..])
  {
    var bucket := order[n].bucket;
    NextGroup(hashes, offsets, items, order, n);
    var group := items[offsets[bucket]..offsets[bucket] + order[n].count];
    assert group == GroupAt(order, offsets, items, n);
    ghost var before, p, oldIds := seeds[..], Placed(used[..], placedHash[..]), ids[..];
    var seed;
    ghost var misses;
    found, seed, nextGeneration, misses :=
      FindSeed(HashesOf(hashes, group), used, placedHash, trial, trialHash, generation);
    SearchIsFirstFit(hashes, offsets, items, order, n, before, chosen, p, oldIds, group, misses);
    if found {
      PlaceFound(hashes, order, n, group, seed, used, placedHash, ids, seeds);
    }
  }

  /** The first multiplier that fits the tables is the first that fits the specification. */
  lemma SearchIsFirstFit(hashes: seq<Word32>, offsets: seq<nat>, items: seq<nat>, order: seq<MphBucket>, n: nat,
                         seeds: seq<Word32>, chosen: map<nat, Word32>, p: Placed, ids: seq<Word16>, group: seq<nat>,
                         misses: nat)
    requires |hashes| <= MAX_IDS && Grouped(hashes, offsets, items) && OrderOk(hashes, order) && n < |order|
    requires Chose(order, n, seeds, chosen) && misses <= ATTEMPTS
    requires PlacedIds(hashes, SlotsOf(hashes, seeds), DoneIds(hashes, order, n), p, ids)
    requires Group(hashes, order[n].bucket, group, DoneIds(hashes, order, n))
    requires offsets[order[n].bucket] + order[n].count <= |items| && group == GroupAt(order, offsets, items, n)
    requires forall a :: 0 <= a < misses ==> !SeedFits(HashesOf(hashes, group), p, Multiplier(a))
    requires misses < ATTEMPTS ==> SeedFits(HashesOf(hashes, group), p, Multiplier(misses))
    ensures FirstFit(hashes, chosen, order[n].bucket, 0) == if misses < ATTEMPTS then Some(Multiplier(misses)) else None
  {
    forall a | 0 <= a < ATTEMPTS
      ensures SeedFits(HashesOf(hashes, group), p, Multiplier(a)) <==>
              BucketFits(hashes, chosen, order[n].bucket, Multiplier(a))
    {
      FitsIffBucketFits(hashes, offsets, items, order, n, seeds, chosen, p, ids, group, Multiplier(a));
    }
    FirstFitFrom(hashes, chosen, order[n].bucket, 0, misses);
  }

  /** Enters a multiplier that fits. */
  method PlaceFound(hashes: seq<Word32>, order: seq<MphBucket>, n: nat, group: seq<nat>, seed: Word32,
                    used: array<bool>, placedHash: array<Word32>, ids: array<Word16>, seeds: array<Word32>)
    requires |hashes| <= MAX_IDS && used.Length == SLOTS && placedHash.Length == SLOTS && ids.Length == SLOTS
    requires OrderOk(hashes, order) && n < |order| && seeds.Length == BUCKETS && seeds != placedHash
    requires Group(hashes, order[n].bucket, group, DoneIds(hashes, order, n))
    requires DoneIds(hashes, order, n + 1) == DoneIds(hashes, order, n) + Members(group)
    requires PlacedIds(hashes, SlotsOf(hashes, seeds[..]), DoneIds(hashes, order, n),
                       Placed(used[..], placedHash[..]), ids[..])
    requires SeedFits(HashesOf(hashes, group), Placed(used[..], placedHash[..]), seed)
    modifies used, placedHash, ids, seeds
    ensures seeds[..] == old(seeds[..])[order[n].bucket := seed]
    ensures PlacedIds(hashes, SlotsOf(hashes, seeds[..]), DoneIds(hashes, order, n + 1),
                      Placed(used[..], placedHash[..]), ids[..])
  {
    ghost var before, done, bucket := seeds[..], DoneIds(hashes, order, n), order[n].bucket;
    SeedOfLaterBucket(hashes, before, order, n, Placed(used[..], placedHash[..]), ids[..], seed);
    SlotsOfGroup(hashes, before[bucket := seed], bucket, group, done);
    PlaceGroup(hashes, group, seed, used, placedHash, ids, bucket, SlotsOf(hashes, before[bucket := seed]), done);
    seeds[order[n].bucket] := seed;
    assert seeds[..] == before[bucket := seed];
  }

  lemma NothingPlaced(hashes: seq<Word32>, order: seq<MphBucket>, seeds: seq<Word32>, p: Placed, ids: seq<Word16>)
    requires |hashes| <= MAX_IDS && |seeds| == BUCKETS && |ids| == SLOTS && PlacedShape(p)
    requires forall s :: 0 <= s < SLOTS ==> !p.used[s]
    ensures PlacedIds(hashes, SlotsOf(hashes, seeds), DoneIds(hashes, order, 0), p, ids)
  {
  }

  /** Places every bucket, largest first, or stops at one that none of the multipliers fits. */
  method PlaceBuckets(hashes: seq<Word32>, order: seq<MphBucket>, offsets: seq<nat>, items: seq<nat>,
                      used: array<bool>, placedHash: array<Word32>, ids: array<Word16>,
                      trial: array<nat>, trialHash: array<Word32>, seeds: array<Word32>)
    returns (placed: bool, oi: nat)
    requires |hashes| <= MAX_IDS && used.Length == SLOTS && placedHash.Length == SLOTS && ids.Length == SLOTS
    requires trial.Length == SLOTS && trialHash.Length == SLOTS && seeds.Length == BUCKETS
    requires placedHash != trialHash && seeds != placedHash && seeds != trialHash
    requires forall s :: 0 <= s < SLOTS ==> trial[s] == 0
    requires Grouped(hashes, offsets, items) && OrderOk(hashes, order)
    requires PlacedIds(hashes, SlotsOf(hashes, seeds[..]), DoneIds(hashes, order, 0),
                       Placed(used[..], placedHash[..]), ids[..])
    modifies used, placedHash, ids, trial, trialHash, seeds
    ensures placed <==> Greedy(hashes, order).Some?
    ensures placed ==> oi <= |order| && (oi < |order| ==> order[oi].count == 0)
    ensures placed ==> PlacedIds(hashes, SlotsOf(hashes, seeds[..]), DoneIds(hashes, order, oi),
                                 Placed(used[..], placedHash[..]), ids[..])
    ensures placed ==> SeedsAre(seeds[..], Greedy(hashes, order).value)
  {
    var generation := 0;
    oi, placed := 0, true;
    ghost var chosen: map<nat, Word32> := map[];
    while placed && oi < |order| && order[oi].count > 0
      invariant 0 <= oi <= |order|
      invariant forall s :: 0 <= s < SLOTS ==> trial[s] <= generation
      invariant placed ==> PlacedIds(hashes, SlotsOf(hashes, seeds[..]), DoneIds(hashes, order, oi),
                                     Placed(used[..], placedHash[..]), ids[..])
      invariant placed ==> Greedy(hashes, order[..oi]) == Some(chosen) && Chose(order, oi, seeds[..], chosen)
      invariant !placed ==> Greedy(hashes, order) == None
      decreases placed, |order| - oi
    {
      GreedyNext(hashes, order, oi, seeds[..], chosen);
      placed, generation := PlaceBucket(hashes, order, oi, offsets, items, used, placedHash, ids, trial, trialHash,
                                        generation, seeds, chosen);
      if placed {
        chosen := chosen[order[oi].bucket := FirstFit(hashes, chosen, order[oi].bucket, 0).value];
        oi := oi + 1;
      }
    }
    if placed {
      GreedySkips(hashes, order, oi);
    }
  }

  /** The multipliers of the specification are in the table. */
  ghost predicate SeedsAre(seeds: seq<Word32>, chosen: map<nat, Word32>) {
    forall b :: b in chosen ==> b < |seeds| && seeds[b] == chosen[b]
  }

  /** One more bucket of the specification. */
  lemma GreedyNext(hashes: seq<Word32>, order: seq<MphBucket>, n: nat, seeds: seq<Word32>, chosen: map<nat, Word32>)
    requires n < |order| && order[n].count > 0 && OrderOk(hashes, order)
    requires Greedy(hashes, order[..n]) == Some(chosen) && Chose(order, n, seeds, chosen)
    ensures var fit := FirstFit(hashes, chosen, order[n].bucket, 0);
            if fit.None? then Greedy(hashes, order) == None
            else Greedy(hashes, order[..n + 1]) == Some(chosen[order[n].bucket := fit.value]) &&
                 Chose(order, n + 1, seeds[order[n].bucket := fit.value], chosen[order[n].bucket := fit.value])
  {
    var fit := FirstFit(hashes, chosen, order[n].bucket, 0);
    var next := order[..n + 1];
    assert next[..|next| - 1] == order[..n] && next[|next| - 1] == order[n];
    if fit.None? {
      GreedyStops(hashes, order, n + 1);
    } else {
      ChoseNext(order, n, seeds, chosen, fit.value);
    }
  }

  lemma ChoseNext(order: seq<MphBucket>, n: nat, seeds: seq<Word32>, chosen: map<nat, Word32>, seed: Word32)
    requires n < |order| && order[n].bucket < BUCKETS && Chose(order, n, seeds, chosen)
    ensures Chose(order, n + 1, seeds[order[n].bucket := seed], chosen[order[n].bucket := seed])
  {
    forall b ensures HasBucket(order, n + 1, b) <==> HasBucket(order, n, b) || b == order[n].bucket {
      HasBucketNext(order, n, b);
    }
  }

  lemma HasBucketNext(order: seq<MphBucket>, n: nat, b: nat)
    requires n < |order|
    ensures HasBucket(order, n + 1, b) <==> HasBucket(order, n, b) || b == order[n].bucket
  {
  }

  /** The closing check of every ID; it never fails. */
  method CheckAll(hashes: array<Word32>, seeds: array<Word32>, ids: array<Word16>) returns (ok: bool)
    requires seeds.Length == BUCKETS && ids.Length == SLOTS && MphOk(hashes[..], seeds[..], ids[..])
    ensures ok
  {
    for id := 0 to hashes.Length {
      var slot := SlotOf(hashes[id], seeds[Bucket(hashes[id])]);
      assert slot == SlotsOf(hashes[..], seeds[..])[id];
      assert ids[..][slot] == Mark(hashes[..], AllIds(hashes[..]), id);
      if ids[slot] != Slot3(id) && ids[slot] != COLLISION {
        return false;
      }
    }
    return true;
  }

  /** The placement loop on fresh tables. */
  method PlaceAll(hashes: seq<Word32>, order: seq<MphBucket>, offsets: seq<nat>, items: seq<nat>)
    returns (built: bool, seeds: array<Word32>, ids: array<Word16>)
    requires |hashes| <= MAX_IDS && Grouped(hashes, offsets, items) && OrderOk(hashes, order)
    ensures fresh(seeds) && fresh(ids) && seeds.Length == BUCKETS && ids.Length == SLOTS
    ensures built <==> Greedy(hashes, order).Some?
    ensures built ==> MphOk(hashes, seeds[..], ids[..]) && SeedsAre(seeds[..], Greedy(hashes, order).value)
  {
    seeds, ids := new Word32[BUCKETS], new Word16[SLOTS];
    var used := new bool[SLOTS](i => false);
    var trial := new nat[SLOTS](i => 0);
    var placedHash := new Word32[SLOTS];
    var trialHash := new Word32[SLOTS];
    NothingPlaced(hashes, order, seeds[..], Placed(used[..], placedHash[..]), ids[..]);
    var n;
    built, n := PlaceBuckets(hashes, order, offsets, items, used, placedHash, ids, trial, trialHash, seeds);
    if built {
      AllDone(hashes, order, n);
      PlacedAllIsOk(hashes, seeds[..], Placed(used[..], placedHash[..]), ids[..]);
    }
  }

  /** build_mph from the collected hashes and bucket sizes. */
  method BuildTables(hashes: array<Word32>, counts: array<nat>, qsort: seq<MphBucket> -> seq<MphBucket>)
    returns (built: bool, seeds: array<Word32>, ids: array<Word16>)
    requires hashes.Length <= MAX_IDS && counts.Length == BUCKETS && Sorts(qsort)
    requires forall b :: 0 <= b < BUCKETS ==> counts[b] == Count(hashes[..], b)
    ensures fresh(seeds) && fresh(ids) && seeds.Length == BUCKETS && ids.Length == SLOTS
    ensures built <==> Indexable(hashes[..], qsort)
    ensures built ==> MphOk(hashes[..], seeds[..], ids[..])
    ensures built ==> SeedsAre(seeds[..], Greedy(hashes[..], qsort(Sizes(hashes[..]))).value)
  {
    var offsets, items, buckets := GroupByBucket(hashes, counts);
    assert buckets == Sizes(hashes[..]);
    var order := qsort(buckets);
    OrderFromSort(hashes[..], buckets, order);
    built, seeds, ids := PlaceAll(hashes[..], order, offsets[..], items[..]);
    if built {
      built := CheckAll(hashes, seeds, ids);
    }
  }

  /** The published lookup before the sentinel is resolved. */
  lemma LookupMeaning(hashes: seq<Word32>, seeds: seq<Word32>, ids: seq<Word16>, id: nat)
    requires MphOk(hashes, seeds, ids) && id < |hashes|
    ensures var found := ids[SlotOf(hashes[id], seeds[Bucket(hashes[id])])];
            && (found == Slot3(id) <==> !Twin(hashes, AllIds(hashes), id))
            && (found == COLLISION <==> Twin(hashes, AllIds(hashes), id))
  {
    assert SlotsOf(hashes, seeds)[id] == SeedSlot(hashes, seeds, id);
  }

  // ---- What the search tries, and when it cannot fail --------------------------------

  /** Whether an odd number below 8,192 fits a bucket, by its number. */
  ghost function Fits(hashes: seq<Word32>, chosen: map<nat, Word32>, b: nat): nat -> bool {
    (a: nat) => a < 4096 && BucketFits(hashes, chosen, b, 2 * a + 1)
  }

  /** The first number from `from` on that fits, or 4,096. */
  ghost predicate FirstFits(fits: nat -> bool, from: nat, attempt: nat) {
    && from <= attempt <= 4096 && (forall a :: from <= a < attempt ==> !fits(a))
    && (attempt < 4096 ==> fits(attempt))
  }

  lemma LaterFirst(fits: nat -> bool, from: nat, attempt: nat)
    requires !fits(from) && FirstFits(fits, from + 1, attempt)
    ensures FirstFits(fits, from, attempt)
  {
  }

  lemma FirstFitStep(hashes: seq<Word32>, chosen: map<nat, Word32>, b: nat, from: nat)
    requires from <= ATTEMPTS
    ensures FirstFit(hashes, chosen, b, from) ==
            if from >= ATTEMPTS then None else if Fits(hashes, chosen, b)(from) then Some(2 * from + 1)
            else FirstFit(hashes, chosen, b, from + 1)
  {
    if from < ATTEMPTS {
      assert Multiplier(from) == 2 * from + 1;
    }
  }

  /** From any attempt on, a bucket gets the least of the odd numbers below 8,192 that fits, and none
      exactly when none of them does. */
  lemma {:induction false} FirstFitMeaning(hashes: seq<Word32>, chosen: map<nat, Word32>, b: nat, from: nat)
    returns (attempt: nat)
    requires from <= ATTEMPTS
    ensures FirstFits(Fits(hashes, chosen, b), from, attempt)
    ensures FirstFit(hashes, chosen, b, from) == if attempt < 4096 then Some(2 * attempt + 1) else None
    decreases ATTEMPTS - from
  {
    attempt := from;
    FirstFitStep(hashes, chosen, b, from);
    var fits := Fits(hashes, chosen, b);
    if from < ATTEMPTS && !fits(from) {
      attempt := FirstFitMeaning(hashes, chosen, b, from + 1);
      LaterFirst(fits, from, attempt);
    }
  }

  /** Different hashes differ in their top fourteen bits. */
  ghost predicate Spread(hashes: seq<Word32>) {
    forall i, j :: 0 <= i < |hashes| && 0 <= j < |hashes| && hashes[i] / 0x4_0000 == hashes[j] / 0x4_0000 ==>
                     hashes[i] == hashes[j]
  }

  lemma TopBits(hash: Word32)
    ensures SlotOf(hash, 1) == hash / 0x4_0000
  {
  }

  lemma OneFits(hashes: seq<Word32>, chosen: map<nat, Word32>, b: nat)
    requires Spread(hashes) && b !in chosen && forall c :: c in chosen ==> chosen[c] == 1
    ensures BucketFits(hashes, chosen, b, 1)
  {
    forall i, j | 0 <= i < |hashes| && 0 <= j < |hashes| && SlotOf(hashes[i], 1) == SlotOf(hashes[j], 1)
      ensures hashes[i] == hashes[j]
    {
      TopBits(hashes[i]);
      TopBits(hashes[j]);
    }
  }

  lemma FirstIsOne(hashes: seq<Word32>, chosen: map<nat, Word32>, b: nat)
    requires BucketFits(hashes, chosen, b, 1)
    ensures FirstFit(hashes, chosen, b, 0) == Some(1)
  {
    FirstFitFrom(hashes, chosen, b, 0, 0);
  }

  lemma {:induction false} AllOnes(hashes: seq<Word32>, order: seq<MphBucket>)
    requires Spread(hashes) && forall i, j :: 0 <= i < j < |order| ==> order[i].bucket != order[j].bucket
    ensures Greedy(hashes, order).Some?
    ensures forall b :: b in Greedy(hashes, order).value ==>
              Greedy(hashes, order).value[b] == 1 && exists i :: 0 <= i < |order| && order[i].bucket == b
  {
    if |order| > 0 {
      var front, last := order[..|order| - 1], order[|order| - 1];
      AllOnes(hashes, front);
      var chosen := Greedy(hashes, front).value;
      forall b | b in chosen ensures b != last.bucket && exists i :: 0 <= i < |order| && order[i].bucket == b {
        var i :| 0 <= i < |front| && front[i].bucket == b;
        assert order[i].bucket == b;
      }
      OneFits(hashes, chosen, last.bucket);
      FirstIsOne(hashes, chosen, last.bucket);
    }
  }

  /** Channels whose different hashes differ in their top fourteen bits can always be indexed. */
  lemma SpreadIsIndexable(hashes: seq<Word32>, qsort: seq<MphBucket> -> seq<MphBucket>)
    requires Spread(hashes) && Sorts(qsort)
    ensures Indexable(hashes, qsort)
  {
    OrderFromSort(hashes, Sizes(hashes), qsort(Sizes(hashes)));
    AllOnes(hashes, qsort(Sizes(hashes)));
  }
}
