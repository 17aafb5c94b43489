/** The reference generator's workers: digits by packed 64-bit arithmetic, one map per piece
    of the input, and the merge of all maps, whatever the number of threads. */
module GoAnalyze {
  import opened ReferenceFold
  import opened Cells
  import opened Tables
  import opened Months
  import opened Csv
  import opened Decode
  import opened Rows
  import opened Chunks
  import opened GoMap

  // ---- Eight digits in one word ------------------------------------------------------

  /** The low four bits of an ASCII digit. */
  function Low(b: Byte): nat { b % 16 }

  const WORD64 := 0x1_0000_0000_0000_0000

  /** Four 16-bit lanes of a 64-bit word. */
  function Pack16(a: nat, b: nat, c: nat, d: nat): nat { a + 0x1_0000 * (b + 0x1_0000 * (c + 0x1_0000 * d)) }

  /** Two 32-bit lanes. */
  function Pack32(a: nat, b: nat): nat { a + 0x1_0000_0000 * b }

  function Lane16(x: nat, k: nat): nat { if k == 0 then x % 0x1_0000 else Lane16(x / 0x1_0000, k - 1) }

  lemma LowestLane(a: nat, rest: nat)
    requires a < 0x1_0000
    ensures (a + 0x1_0000 * rest) % 0x1_0000 == a && (a + 0x1_0000 * rest) / 0x1_0000 == rest
  {
  }

  /** Packed lanes are read back unchanged. */
  lemma PackedLanes(a: nat, b: nat, c: nat, d: nat)
    requires a < 0x1_0000 && b < 0x1_0000 && c < 0x1_0000 && d < 0x1_0000
    ensures var x := Pack16(a, b, c, d);
            Lane16(x, 0) == a && Lane16(x, 1) == b && Lane16(x, 2) == c && Lane16(x, 3) == d
  {
    var r := c + 0x1_0000 * d;
    var q := b + 0x1_0000 * r;
    LowestLane(a, q);
    LowestLane(b, r);
    LowestLane(c, d);
    assert Lane16(d, 0) == d;
    assert Lane16(r, 0) == c && Lane16(r, 1) == d;
    assert Lane16(q, 0) == b && Lane16(q, 1) == c && Lane16(q, 2) == d;
  }

  /** (even lanes) * 10 + (odd lanes): one multiplication for four pairs of digits. */
  function Pairs(even: nat, odd: nat): nat { (even * 10 + odd) % WORD64 }

  /** The same for the pairs in four lanes. */
  function Joined(a: nat, b: nat, c: nat, d: nat): nat {
    (Pack32(a % 0x100, c % 0x100) * 100 + Pack32(b % 0x100, d % 0x100)) % WORD64
  }

  function Quads(pairs: nat): nat { Joined(Lane16(pairs, 0), Lane16(pairs, 1), Lane16(pairs, 2), Lane16(pairs, 3)) }

  function BothQuads(quads: nat): Word32 {
    (quads % 0x1_0000_0000 * 10000 + quads / 0x1_0000_0000) % 0x1_0000_0000
  }

  /** The first eight digits of a timestamp, masked to their low four bits. */
  function First8(data: seq<Byte>, i: nat): Word32
    requires i + 8 <= |data|
  {
    Eight(Low(data[i]), Low(data[i + 1]), Low(data[i + 2]), Low(data[i + 3]),
          Low(data[i + 4]), Low(data[i + 5]), Low(data[i + 6]), Low(data[i + 7]))
  }

  /** Eight digits, one in each byte lane, joined by three multiplications. */
  function Eight(a: nat, b: nat, c: nat, d: nat, e: nat, f: nat, g: nat, h: nat): Word32 {
    BothQuads(Quads(Pairs(Pack16(a, c, e, g), Pack16(b, d, f, h))))
  }

  lemma PairsAre(a: nat, b: nat, c: nat, d: nat, e: nat, f: nat, g: nat, h: nat)
    requires a < 10 && b < 10 && c < 10 && d < 10 && e < 10 && f < 10 && g < 10 && h < 10
    ensures Pairs(Pack16(a, c, e, g), Pack16(b, d, f, h)) == Pack16(10 * a + b, 10 * c + d, 10 * e + f, 10 * g + h)
  {
    SmallWord(Pack16(10 * a + b, 10 * c + d, 10 * e + f, 10 * g + h));
  }

  lemma SmallWord(x: nat)
    requires x < WORD64
    ensures x % WORD64 == x
  {
  }

  /** No carry crosses a lane, so the quads come out side by side. */
  lemma QuadsAre(a: nat, b: nat, c: nat, d: nat)
    requires a < 100 && b < 100 && c < 100 && d < 100
    ensures Quads(Pack16(a, b, c, d)) == Pack32(100 * a + b, 100 * c + d)
  {
    PackedLanes(a, b, c, d);
    SmallPack(a, b, c, d);
  }

  lemma SmallPack(a: nat, b: nat, c: nat, d: nat)
    requires a < 100 && b < 100 && c < 100 && d < 100
    ensures Joined(a, b, c, d) == Pack32(100 * a + b, 100 * c + d)
  {
    LowByte(a);
    LowByte(b);
    LowByte(c);
    LowByte(d);
    assert Pack32(a, c) * 100 + Pack32(b, d) == Pack32(100 * a + b, 100 * c + d) < WORD64;
  }

  lemma LowByte(a: nat)
    requires a < 0x100
    ensures a % 0x100 == a
  {
  }

  lemma LowDigit(b: Byte)
    requires Digit(b)
    ensures Low(b) == b - 48 < 10
  {
  }

  lemma BothQuadsAre(a: nat, b: nat)
    requires a < 10000 && b < 10000
    ensures BothQuads(Pack32(a, b)) == 10000 * a + b
  {
    LowWord(a, b);
    LowWord(10000 * a + b, 0);
  }

  lemma LowWord(a: nat, b: nat)
    requires a < 0x1_0000_0000
    ensures (a + 0x1_0000_0000 * b) % 0x1_0000_0000 == a && (a + 0x1_0000_0000 * b) / 0x1_0000_0000 == b
  {
  }

  lemma First8Value(data: seq<Byte>, i: nat, t: seq<Byte>)
    requires i + 8 <= |data| && |t| == 8 && Digits(t) && data[i..i + 8] == t
    ensures First8(data, i) == Decimal(t)
  {
    EightBytes(data, i, t);
    EightDigits(t);
    EightAre(Low(t[0]), Low(t[1]), Low(t[2]), Low(t[3]), Low(t[4]), Low(t[5]), Low(t[6]), Low(t[7]));
  }

  lemma EightAre(a: nat, b: nat, c: nat, d: nat, e: nat, f: nat, g: nat, h: nat)
    requires a < 10 && b < 10 && c < 10 && d < 10 && e < 10 && f < 10 && g < 10 && h < 10
    ensures Eight(a, b, c, d, e, f, g, h) ==
            10000 * (100 * (10 * a + b) + (10 * c + d)) + (100 * (10 * e + f) + (10 * g + h))
  {
    PairsAre(a, b, c, d, e, f, g, h);
    QuadsAre(10 * a + b, 10 * c + d, 10 * e + f, 10 * g + h);
    BothQuadsAre(100 * (10 * a + b) + (10 * c + d), 100 * (10 * e + f) + (10 * g + h));
  }

  lemma EightBytes(data: seq<Byte>, i: nat, t: seq<Byte>)
    requires i + 8 <= |data| && |t| == 8 && data[i..i + 8] == t
    ensures data[i] == t[0] && data[i + 1] == t[1] && data[i + 2] == t[2] && data[i + 3] == t[3]
    ensures data[i + 4] == t[4] && data[i + 5] == t[5] && data[i + 6] == t[6] && data[i + 7] == t[7]
  {
  }

  lemma EightDigits(t: seq<Byte>)
    requires |t| == 8 && Digits(t)
    ensures Decimal(t) ==
            10000 * (100 * (10 * Low(t[0]) + Low(t[1])) + (10 * Low(t[2]) + Low(t[3]))) +
            (100 * (10 * Low(t[4]) + Low(t[5])) + (10 * Low(t[6]) + Low(t[7])))
    ensures forall k :: 0 <= k < 8 ==> Low(t[k]) < 10
  {
    forall k | 0 <= k < 8 ensures Low(t[k]) == t[k] - 48 < 10 {
      LowDigit(t[k]);
    }
    DecimalOfEight(t);
  }

  lemma DecimalOfEight(t: seq<Byte>)
    requires |t| == 8 && Digits(t)
    ensures Decimal(t) ==
            10000 * (1000 * (t[0] as int - 48) + 100 * (t[1] as int - 48) + 10 * (t[2] as int - 48) + (t[3] as int - 48)) +
            (1000 * (t[4] as int - 48) + 100 * (t[5] as int - 48) + 10 * (t[6] as int - 48) + (t[7] as int - 48))
  {
    var x, y := t[..4], t[4..];
    assert x == [t[0], t[1], t[2], t[3]] && y == [t[4], t[5], t[6], t[7]] && t == x + y;
    Decimal4(t[0], t[1], t[2], t[3]);
    Decimal4(t[4], t[5], t[6], t[7]);
    DecimalPlus4(x, y);
  }

  lemma TenDigits(t: seq<Byte>)
    requires |t| == 10 && Digits(t)
    ensures Digits(t[..8]) && Decimal(t) == 100 * Decimal(t[..8]) + 10 * (t[8] as int - 48) + (t[9] as int - 48)
  {
    DecimalStep(t[..8], t[8]);
    DecimalStep(t[..9], t[9]);
    assert t[..9] == t[..8] + [t[8]] && t == t[..9] + [t[9]];
  }

  // ---- One row -----------------------------------------------------------------------

  /** The month of a row from its packed digits and the day table. */
  method Month(data: seq<Byte>, i: nat, monthByDay: array<nat>, ghost digits: seq<Byte>, ghost expected: nat)
    returns (month: nat)
    requires TimestampAt(data, i, digits, expected) && DayTable(monthByDay[..])
    ensures month == expected < MONTHS
  {
    assert data[i..i + 8] == data[i..i + 10][..8];
    TenDigits(digits);
    First8Value(data, i, digits[..8]);
    assert data[i + 8] == data[i..i + 10][8] && data[i + 9] == data[i..i + 10][9];
    DayLookup(monthByDay[..], Decimal(digits));
    MonthOfMeaning(Decimal(digits));
    var first8: nat := First8(data, i);
    var timestamp := first8 * 100 + (data[i + 8] as int - 48) * 10 + (data[i + 9] as int - 48);
    assert timestamp == Decimal(digits);
    month := monthByDay[(timestamp - YEAR_START) / 86400];
  }

  /** A delimited number, as the scalar loops read it. */
  ghost predicate NumberAt(data: seq<Byte>, p: nat, delimiter: Byte, digits: seq<Byte>, value: nat) {
    && Digits(digits) && Decimal(digits) == value < WORD32_LIMIT
    && p + |digits| < |data| && data[p + |digits|] == delimiter
    && forall i {:trigger digits[i]} :: 0 <= i < |digits| ==> data[p + i] == digits[i]
  }

  ghost predicate KeyAt(data: seq<Byte>, q: nat, channel: Key) {
    && q + |channel| < |data| && data[q..q + |channel|] == channel && data[q + |channel|] == COMMA
    && forall j :: q <= j < q + |channel| ==> data[j] != COMMA
  }

  /** What the loop sees of one row. */
  ghost predicate GoRowAt(data: seq<Byte>, p: nat, row: Row, spelling: Spelling, next: nat) {
    && TimestampAt(data, p, spelling.timestamp, row.month)
    && KeyAt(data, p + 11, row.channel)
    && NumberAt(data, p + 11 + |row.channel| + 1, COMMA, spelling.length, row.length)
    && NumberAt(data, p + 11 + |row.channel| + 1 + |spelling.length| + 1, LF, spelling.stamps, row.stamps)
    && next == p + 11 + |row.channel| + 1 + |spelling.length| + 1 + |spelling.stamps| + 1
  }

  /** A row of the padded input is a row of the input. */
  lemma RowInData(data: seq<Byte>, pad: seq<Byte>, p: nat, row: Row, spelling: Spelling, next: nat)
    requires RowAt(data + pad, p, row, spelling, next) && next <= |data|
    ensures GoRowAt(data, p, row, spelling, next)
  {
    var mem, q := data + pad, p + 11 + |row.channel| + 1;
    assert forall j :: 0 <= j < |data| ==> mem[j] == data[j];
    assert data[p..p + 10] == mem[p..p + 10];
    assert data[p + 11..p + 11 + |row.channel|] == mem[p + 11..p + 11 + |row.channel|];
    forall i {:trigger spelling.length[i]} | 0 <= i < |spelling.length| ensures data[q + i] == spelling.length[i] {
      assert mem[q + i] == spelling.length[i];
    }
    forall i {:trigger spelling.stamps[i]} | 0 <= i < |spelling.stamps|
      ensures data[q + |spelling.length| + 1 + i] == spelling.stamps[i]
    {
      assert mem[q + |spelling.length| + 1 + i] == spelling.stamps[i];
    }
  }

  /** bytes.IndexByte for the comma after a channel. */
  method ChannelEnd(data: seq<Byte>, q: nat, end: nat, ghost channel: Key) returns (p: nat)
    requires KeyAt(data, q, channel) && q + |channel| < end <= |data|
    ensures p == q + |channel|
  {
    p := q;
    while data[p] != COMMA
      invariant q <= p <= q + |channel|
      decreases q + |channel| - p
    {
      p := p + 1;
    }
  }

  /** The month, the channel's place, and the two numbers of a row. */
  method ReadGoRow(data: seq<Byte>, i: nat, end: nat, monthByDay: array<nat>, ghost row: Row, ghost spelling: Spelling,
                   ghost nextRow: nat)
    returns (month: nat, begin: nat, length: nat, messageLength: Word32, stamps: Word32, next: nat)
    requires GoRowAt(data, i, row, spelling, nextRow) && nextRow <= end <= |data| && DayTable(monthByDay[..])
    ensures month == row.month < MONTHS && begin + length <= |data| && data[begin..begin + length] == row.channel
    ensures messageLength == row.length && stamps == row.stamps && next == nextRow
  {
    month := Month(data, i, monthByDay, spelling.timestamp, row.month);
    begin := i + 11;
    var p := ChannelEnd(data, begin, end, row.channel);
    length := p - begin;
    messageLength, p := ScalarNumber(data, p + 1, COMMA, spelling.length);
    stamps, next := ScalarNumber(data, p, LF, spelling.stamps);
  }

  // ---- A piece of the input ----------------------------------------------------------

  /** The rows with their lengths cut to 16 bits. */
  function Cut(rows: seq<Row>): seq<Row> {
    seq(|rows|, i requires 0 <= i < |rows| => rows[i].(length := Narrow(rows[i].length)))
  }

  /** Sums of one statistic with the extrema of another. */
  function Mixed(sums: Stat, extrema: Stat): Stat {
    if sums.None? || extrema.None? then None
    else Some(Acc(extrema.value.min, sums.value.total, extrema.value.max, sums.value.count, sums.value.stamps))
  }

  /** What the generator makes of a group: exact sums, and the extrema of the cut lengths. */
  ghost function CutAt(rows: seq<Row>, channel: Key, month: nat): Stat {
    Mixed(At(rows, channel, month), At(Cut(rows), channel, month))
  }

  lemma {:induction false} SameGroups(rows: seq<Row>, channel: Key, month: nat)
    ensures At(Cut(rows), channel, month).None? <==> At(rows, channel, month).None?
  {
    if |rows| > 0 {
      SameGroups(rows[..|rows| - 1], channel, month);
      assert Cut(rows)[..|rows| - 1] == Cut(rows[..|rows| - 1]);
    }
  }

  lemma MixedMerge(a: Stat, x: Stat, b: Stat, y: Stat)
    requires (a.None? <==> x.None?) && (b.None? <==> y.None?)
    ensures Mixed(Merge(a, b), Merge(x, y)) == Merge(Mixed(a, x), Mixed(b, y))
  {
  }

  /** Like the reference, the generator's statistics of a concatenation are merged from its parts. */
  lemma CutConcat(a: seq<Row>, b: seq<Row>, channel: Key, month: nat)
    ensures CutAt(a + b, channel, month) == Merge(CutAt(a, channel, month), CutAt(b, channel, month))
  {
    assert Cut(a + b) == Cut(a) + Cut(b);
    AtConcat(a, b, channel, month);
    AtConcat(Cut(a), Cut(b), channel, month);
    SameGroups(a, channel, month);
    SameGroups(b, channel, month);
    MixedMerge(At(a, channel, month), At(Cut(a), channel, month), At(b, channel, month), At(Cut(b), channel, month));
  }

  lemma CutOne(row: Row, channel: Key, month: nat)
    ensures CutAt([row], channel, month) ==
            if InGroup(row, channel, month) then Truncated(row.length, row.stamps) else None
  {
    var cut := row.(length := Narrow(row.length));
    assert Cut([row]) == [cut];
    AtSnoc([], row, channel, month);
    AtSnoc([], cut, channel, month);
    assert [] + [row] == [row] && [] + [cut] == [cut];
  }

  ghost predicate Short(rows: seq<Row>) { forall i :: 0 <= i < |rows| ==> rows[i].length < 0x1_0000 }

  lemma {:induction false} GreatestIsAbove(rows: seq<Row>, i: nat)
    requires i < |rows|
    ensures var stat := At(rows, rows[i].channel, rows[i].month); stat.Some? && stat.value.max >= rows[i].length
  {
    if i < |rows| - 1 {
      GreatestIsAbove(rows[..|rows| - 1], i);
    }
  }

  lemma {:induction false} GreatestIsShort(rows: seq<Row>, channel: Key, month: nat)
    requires Short(rows)
    ensures At(rows, channel, month).Some? ==> At(rows, channel, month).value.max < 0x1_0000
  {
    if |rows| > 0 {
      GreatestIsShort(rows[..|rows| - 1], channel, month);
    }
  }

  /** The generator's statistics are those of the reference exactly when every length fits 16 bits. */
  lemma CutIsExact(rows: seq<Row>)
    ensures (forall channel: Key, month: nat :: CutAt(rows, channel, month) == At(rows, channel, month)) <==> Short(rows)
  {
    if Short(rows) {
      assert Cut(rows) == rows;
    } else {
      var i :| 0 <= i < |rows| && rows[i].length >= 0x1_0000;
      GreatestIsAbove(rows, i);
      GreatestIsShort(Cut(rows), rows[i].channel, rows[i].month);
      assert CutAt(rows, rows[i].channel, rows[i].month) != At(rows, rows[i].channel, rows[i].month);
    }
  }

  /** One message of 65,536 characters counts as an empty one. */
  lemma LongMessageIsEmpty(channel: Key, month: nat, stamps: nat)
    ensures At([Row(channel, month, 0x1_0000, stamps)], channel, month) == Some(Acc(0x1_0000, 0x1_0000, 0x1_0000, 1, stamps))
    ensures CutAt([Row(channel, month, 0x1_0000, stamps)], channel, month) == Some(Acc(0, 0x1_0000, 0, 1, stamps))
  {
    var row := Row(channel, month, 0x1_0000, stamps);
    assert [row][..0] == [];
    CutOne(row, channel, month);
  }

  /** The map holds the generator's statistics of these rows. */
  ghost predicate HoldsRows(dict: seq<Key>, aggs: seq<GoStats>, rows: seq<Row>) {
    && |aggs| == MONTHS * |dict|
    && forall channel: Key, month: nat :: Holds(dict, aggs, channel, month) == CutAt(rows, channel, month)
  }

  /** The map holds exactly the reference fold of these rows. */
  ghost predicate HoldsFold(dict: seq<Key>, aggs: seq<GoStats>, rows: seq<Row>) {
    && |aggs| == MONTHS * |dict|
    && forall channel: Key, month: nat :: Holds(dict, aggs, channel, month) == At(rows, channel, month)
  }

  lemma HoldsFoldExactly(dict: seq<Key>, aggs: seq<GoStats>, rows: seq<Row>)
    requires HoldsRows(dict, aggs, rows)
    ensures HoldsFold(dict, aggs, rows) <==> Short(rows)
  {
    CutIsExact(rows);
    if HoldsFold(dict, aggs, rows) {
      forall channel: Key, month: nat ensures CutAt(rows, channel, month) == At(rows, channel, month) {
        assert Holds(dict, aggs, channel, month) == CutAt(rows, channel, month);
      }
    }
  }

  /** What the maps assume of a row: a non-empty channel, one of no more than 65,536. */
  predicate Placeable(row: Row, universe: set<Key>) {
    |row.channel| > 0 && row.channel in universe && row.month < MONTHS
  }

  ghost predicate AllPlaceable(rows: seq<Row>, universe: set<Key>) {
    |universe| <= 0x1_0000 && forall i :: 0 <= i < |rows| ==> Placeable(rows[i], universe)
  }

  lemma RowAddedHolds(dict: seq<Key>, aggs: seq<GoStats>, dict': seq<Key>, aggs': seq<GoStats>, rows: seq<Row>, k: nat)
    requires k < |rows| && HoldsRows(dict, aggs, rows[..k])
    requires RowAdded(dict, aggs, dict', aggs', rows[k].channel, rows[k].month, rows[k].length, rows[k].stamps)
    ensures HoldsRows(dict', aggs', rows[..k + 1])
  {
    assert rows[..k + 1] == rows[..k] + [rows[k]];
    forall channel: Key, month: nat ensures Holds(dict', aggs', channel, month) == CutAt(rows[..k + 1], channel, month) {
      assert Holds(dict, aggs, channel, month) == CutAt(rows[..k], channel, month);
      CutConcat(rows[..k], [rows[k]], channel, month);
      CutOne(rows[k], channel, month);
    }
  }

  /** The rows a map holds, when it is a whole map over this input and channels. */
  ghost function RowsIn(m: FlatMap, data: seq<Byte>, hash: Hash, rows: seq<Row>, universe: set<Key>)
    : (r: Option<seq<Row>>)
    reads m, m.entries
  {
    if m.Valid() && m.data == data && m.hash == hash && HoldsRows(m.dict, m.aggs, rows) &&
       (forall key :: key in m.dict ==> key in universe)
    then Some(rows)
    else None
  }

  method NewMap(data: seq<Byte>, hash: Hash, ghost universe: set<Key>) returns (m: FlatMap)
    ensures fresh(m) && fresh(m.entries) && RowsIn(m, data, hash, [], universe).Some?
  {
    m := new FlatMap(data, hash, 0x8000);
  }

  /** One turn of analyzeChunk. */
  method AnalyzeRow(m: FlatMap, data: seq<Byte>, i: nat, end: nat, monthByDay: array<nat>, ghost rows: seq<Row>, ghost k: nat,
                    ghost spelling: Spelling, ghost nextRow: nat, ghost universe: set<Key>)
    returns (next: nat)
    requires k < |rows| && GoRowAt(data, i, rows[k], spelling, nextRow) && nextRow <= end <= |data| && DayTable(monthByDay[..])
    requires RowsIn(m, data, m.hash, rows[..k], universe).Some?
    requires |universe| <= 0x1_0000 && Placeable(rows[k], universe)
    modifies m, m.entries
    ensures m.entries == old(m.entries) || fresh(m.entries)
    ensures RowsIn(m, data, m.hash, rows[..k + 1], universe).Some?
    ensures next == nextRow
  {
    var month, begin, length, messageLength, stamps;
    month, begin, length, messageLength, stamps, next := ReadGoRow(data, i, end, monthByDay, rows[k], spelling, nextRow);
    CountRow(m, data, begin, length, month, messageLength, stamps, rows, k, universe);
  }

  /** The row just read, added to the map. */
  method CountRow(m: FlatMap, data: seq<Byte>, begin: nat, length: nat, month: nat, messageLength: nat, stamps: nat,
                  ghost rows: seq<Row>, ghost k: nat, ghost universe: set<Key>)
    requires k < |rows| && RowsIn(m, data, m.hash, rows[..k], universe).Some?
    requires begin + length <= |data| && rows[k] == Row(data[begin..begin + length], month, messageLength, stamps)
    requires |universe| <= 0x1_0000 && Placeable(rows[k], universe)
    modifies m, m.entries
    ensures m.entries == old(m.entries) || fresh(m.entries)
    ensures RowsIn(m, data, m.hash, rows[..k + 1], universe).Some?
  {
    RoomFor(m.dict, universe, rows[k].channel);
    m.Add(begin, length, m.hash(data[begin..begin + length]), month, messageLength, stamps, rows[k].channel);
    RowAddedHolds(old(m.dict), old(m.aggs), m.dict, m.aggs, rows, k);
  }

  /** analyzeChunk: the statistics of the piece's rows. */
  method AnalyzeChunk(data: seq<Byte>, begin: nat, end: nat, hash: Hash, monthByDay: array<nat>, ghost pad: seq<Byte>,
                      ghost rows: seq<Row>, ghost spellings: seq<Spelling>, ghost spots: seq<nat>, ghost universe: set<Key>)
    returns (m: FlatMap)
    requires Laid(data + pad, begin, end, rows, spellings, spots) && end <= |data| && DayTable(monthByDay[..])
    requires AllPlaceable(rows, universe)
    ensures fresh(m) && fresh(m.entries) && RowsIn(m, data, hash, rows, universe).Some?
  {
    m := NewMap(data, hash, universe);
    ghost var k := 0;
    var i := begin;
    while i < end
      invariant 0 <= k <= |rows| && i == spots[k]
      invariant fresh(m) && fresh(m.entries) && m.hash == hash
      invariant RowsIn(m, data, hash, rows[..k], universe).Some?
      decreases |rows| - k
    {
      RowAtSpot(data, pad, begin, end, rows, spellings, spots, k);
      if data[i] == LF || data[i] == 13 {
        assert false;
      }
      if i + 10 >= end {
        assert false;
      }
      i := AnalyzeRow(m, data, i, end, monthByDay, rows, k, spellings[k], spots[k + 1], universe);
      k := k + 1;
    }
    LaidBefore(data + pad, begin, end, rows, spellings, spots, k);
    assert rows[..k] == rows;
  }

  lemma RowAtSpot(data: seq<Byte>, pad: seq<Byte>, begin: nat, end: nat, rows: seq<Row>, spellings: seq<Spelling>,
                  spots: seq<nat>, k: nat)
    requires Laid(data + pad, begin, end, rows, spellings, spots) && end <= |data| && k <= |rows| && spots[k] < end
    ensures k < |rows| && GoRowAt(data, spots[k], rows[k], spellings[k], spots[k + 1]) && spots[k + 1] <= end
    ensures spots[k] + 10 < end && Digit(data[spots[k]])
  {
    LaidBefore(data + pad, begin, end, rows, spellings, spots, k);
    LaidRow(data + pad, begin, end, rows, spellings, spots, k);
    LaidBefore(data + pad, begin, end, rows, spellings, spots, k + 1);
    RowInData(data, pad, spots[k], rows[k], spellings[k], spots[k + 1]);
    var p := spots[k];
    assert data[p] == data[p..p + 10][0];
  }

  // ---- All pieces --------------------------------------------------------------------

  const PAD: seq<Byte> := [0, 0, 0, 0, 0, 0, 0, 0, 0, 0, 0, 0, 0, 0, 0, 0]

  /** Each piece is laid out row by row, in the input padded at its end. */
  lemma PieceIsLaid(data: seq<Byte>, begin: nat, lines: seq<Line>, r: Range, piece: seq<Line>) returns (spots: seq<nat>)
    requires ValidLines(lines) && begin <= |data| && data[begin..|data|] == Body(lines)
    requires begin <= r.begin <= r.end <= |data| && Boundary(data, begin, |data|, r.end)
    requires ValidLines(piece) && data[r.begin..r.end] == Body(piece)
    ensures Laid(data + PAD, r.begin, r.end, RowsOf(piece), SpellingsOf(piece), spots)
  {
    PieceLines(data, begin, lines, r, piece);
    spots := LinesAreLaid(data + PAD, r.begin, piece);
  }

  lemma PieceLines(data: seq<Byte>, begin: nat, lines: seq<Line>, r: Range, piece: seq<Line>)
    requires ValidLines(lines) && begin <= |data| && data[begin..|data|] == Body(lines)
    requires begin <= r.begin <= r.end <= |data| && Boundary(data, begin, |data|, r.end)
    requires ValidLines(piece) && data[r.begin..r.end] == Body(piece)
    ensures LinesAt(data + PAD, r.begin, piece) && r.begin + |Body(piece)| == r.end
  {
    NotComma(data, begin, lines, r.end);
    Padded(data, r.begin, r.end, Body(piece));
  }

  lemma Padded(data: seq<Byte>, from: nat, to: nat, text: seq<Byte>)
    requires from <= to <= |data| && data[from..to] == text
    ensures to + GUARD <= |data + PAD| && Occurs(data + PAD, from, text) && from + |text| == to
  {
  }

  /** The byte after a piece is a digit, or the padding. */
  lemma NotComma(data: seq<Byte>, begin: nat, lines: seq<Line>, cut: nat)
    requires ValidLines(lines) && begin <= |data| && data[begin..|data|] == Body(lines)
    requires begin <= cut <= |data| && Boundary(data, begin, |data|, cut)
    ensures (data + PAD)[cut] != COMMA
  {
    if cut < |data| {
      var front, rest := CutPiece(data, begin, cut, |data|, begin, lines);
      assert |data[cut..|data|]| > 0;
      FirstByte(rest);
      assert data[cut] == data[cut..|data|][0];
    }
  }

  lemma MergedHolds(dict: seq<Key>, aggs: seq<GoStats>, dict': seq<Key>, aggs': seq<GoStats>, other: seq<Key>,
                    otherAggs: seq<GoStats>, a: seq<Row>, b: seq<Row>)
    requires HoldsRows(dict, aggs, a) && HoldsRows(other, otherAggs, b)
    requires MergedMaps(dict, aggs, dict', aggs', other, otherAggs)
    ensures HoldsRows(dict', aggs', a + b)
  {
    forall channel: Key, month: nat ensures Holds(dict', aggs', channel, month) == CutAt(a + b, channel, month) {
      CutConcat(a, b, channel, month);
      assert Holds(dict, aggs, channel, month) == CutAt(a, channel, month);
      assert Holds(other, otherAggs, channel, month) == CutAt(b, channel, month);
    }
  }

  /** A piece of the input, between line feeds. */
  ghost predicate PieceOf(data: seq<Byte>, begin: nat, r: Range, piece: seq<Line>) {
    && begin <= r.begin <= r.end <= |data| && Boundary(data, begin, |data|, r.end)
    && data[r.begin..r.end] == Body(piece)
  }

  /** One goroutine's piece, analysed and merged. */
  method CountPiece(data: seq<Byte>, begin: nat, r: Range, hash: Hash, monthByDay: array<nat>, merged: FlatMap,
                    ghost lines: seq<Line>, ghost done: seq<Row>, ghost piece: seq<Line>, ghost universe: set<Key>)
    requires ValidLines(lines) && begin <= |data| && data[begin..|data|] == Body(lines) && DayTable(monthByDay[..])
    requires PieceOf(data, begin, r, piece) && ValidLines(piece) && AllPlaceable(RowsOf(piece), universe)
    requires RowsIn(merged, data, hash, done, universe).Some?
    modifies merged, merged.entries
    ensures merged.entries == old(merged.entries) || fresh(merged.entries)
    ensures RowsIn(merged, data, hash, done + RowsOf(piece), universe).Some?
  {
    ghost var spots := PieceIsLaid(data, begin, lines, r, piece);
    var local := AnalyzeChunk(data, r.begin, r.end, hash, monthByDay, PAD, RowsOf(piece), SpellingsOf(piece), spots, universe);
    MergeLocal(merged, local, data, hash, done, RowsOf(piece), universe);
  }

  /** mergeFrom, on what both maps hold. */
  method MergeLocal(merged: FlatMap, local: FlatMap, ghost data: seq<Byte>, ghost hash: Hash, ghost a: seq<Row>,
                    ghost b: seq<Row>, ghost universe: set<Key>)
    requires RowsIn(merged, data, hash, a, universe).Some? && RowsIn(local, data, hash, b, universe).Some?
    requires merged != local && merged.entries != local.entries && |universe| <= 0x1_0000
    modifies merged, merged.entries
    ensures merged.entries == old(merged.entries) || fresh(merged.entries)
    ensures RowsIn(merged, data, hash, a + b, universe).Some?
  {
    merged.MergeFrom(local, universe);
    MergedHolds(old(merged.dict), old(merged.aggs), merged.dict, merged.aggs, local.dict, local.aggs, a, b);
  }

  /** The rows of the first i pieces. */
  ghost function RowsOfPieces(pieces: seq<seq<Line>>, i: nat): seq<Row>
    requires i <= |pieces| && forall k :: 0 <= k < |pieces| ==> ValidLines(pieces[k])
  {
    if i == 0 then [] else RowsOfPieces(pieces, i - 1) + RowsOf(pieces[i - 1])
  }

  lemma {:induction false} AllPieces(pieces: seq<seq<Line>>, i: nat)
    requires i <= |pieces| && forall k :: 0 <= k < |pieces| ==> ValidLines(pieces[k])
    ensures ValidLines(Flatten(pieces[..i])) && RowsOf(Flatten(pieces[..i])) == RowsOfPieces(pieces, i)
  {
    if i > 0 {
      AllPieces(pieces, i - 1);
      assert pieces[..i][..i - 1] == pieces[..i - 1];
      var a, b := Flatten(pieces[..i - 1]), pieces[i - 1];
      assert Flatten(pieces[..i]) == a + b;
      RowsOfConcat(a, b);
    }
  }

  /** A row of a piece is a row of the file. */
  lemma PiecePlaceable(lines: seq<Line>, pieces: seq<seq<Line>>, i: nat, universe: set<Key>)
    requires i < |pieces| && ValidLines(lines) && Flatten(pieces) == lines && AllPlaceable(RowsOf(lines), universe)
    requires ValidLines(pieces[i])
    ensures AllPlaceable(RowsOf(pieces[i]), universe)
  {
    forall k | 0 <= k < |pieces[i]| ensures Placeable(RowOf(pieces[i][k]), universe) {
      FlattenMember(pieces, i, k);
      var j :| 0 <= j < |lines| && lines[j] == pieces[i][k];
      assert RowsOf(lines)[j] == RowOf(pieces[i][k]);
    }
  }

  /** A piece whose rows the maps can hold. */
  ghost predicate Ready(data: seq<Byte>, begin: nat, r: Range, piece: seq<Line>, universe: set<Key>) {
    ValidLines(piece) && PieceOf(data, begin, r, piece) && AllPlaceable(RowsOf(piece), universe)
  }

  /** Piece i, into the map of the pieces before it. */
  method CountNth(data: seq<Byte>, begin: nat, r: Range, hash: Hash, monthByDay: array<nat>, merged: FlatMap,
                  ghost lines: seq<Line>, ghost pieces: seq<seq<Line>>, ghost i: nat, ghost universe: set<Key>)
    requires ValidLines(lines) && begin <= |data| && data[begin..|data|] == Body(lines) && DayTable(monthByDay[..])
    requires i < |pieces| && (forall k :: 0 <= k < |pieces| ==> ValidLines(pieces[k]))
    requires Ready(data, begin, r, pieces[i], universe)
    requires RowsIn(merged, data, hash, RowsOfPieces(pieces, i), universe).Some?
    modifies merged, merged.entries
    ensures merged.entries == old(merged.entries) || fresh(merged.entries)
    ensures RowsIn(merged, data, hash, RowsOfPieces(pieces, i + 1), universe).Some?
  {
    CountPiece(data, begin, r, hash, monthByDay, merged, lines, RowsOfPieces(pieces, i), pieces[i], universe);
  }

  /** One piece after the other, into one map. */
  method MergePieces(data: seq<Byte>, begin: nat, chunks: seq<Range>, hash: Hash, monthByDay: array<nat>,
                     ghost lines: seq<Line>, ghost pieces: seq<seq<Line>>, ghost universe: set<Key>)
    returns (merged: FlatMap)
    requires ValidLines(lines) && begin <= |data| && data[begin..|data|] == Body(lines) && DayTable(monthByDay[..])
    requires |pieces| == |chunks| && (forall i :: 0 <= i < |pieces| ==> ValidLines(pieces[i]))
    requires forall i :: 0 <= i < |chunks| ==> Ready(data, begin, chunks[i], pieces[i], universe)
    ensures RowsIn(merged, data, hash, RowsOfPieces(pieces, |pieces|), universe).Some?
  {
    merged := NewMap(data, hash, universe);
    ghost var done := RowsOfPieces(pieces, 0);
    for i := 0 to |chunks|
      invariant fresh(merged) && fresh(merged.entries)
      invariant RowsIn(merged, data, hash, done, universe).Some? && done == RowsOfPieces(pieces, i)
    {
      CountNth(data, begin, chunks[i], hash, monthByDay, merged, lines, pieces, i, universe);
      done := RowsOfPieces(pieces, i + 1);
    }
  }

  /** All pieces of the input, merged one after the other. */
  method CountPieces(data: seq<Byte>, begin: nat, threads: int, hash: Hash, monthByDay: array<nat>, ghost lines: seq<Line>,
                     ghost universe: set<Key>)
    returns (merged: FlatMap)
    requires ValidLines(lines) && begin <= |data| && data[begin..|data|] == Body(lines) && DayTable(monthByDay[..])
    requires AllPlaceable(RowsOf(lines), universe)
    ensures merged.Valid() && HoldsRows(merged.dict, merged.aggs, RowsOf(lines))
  {
    var chunks, _ := SplitChunks(data, begin, |data|, threads);
    if |chunks| == 0 {
      EmptyBody(lines);
      merged := NewMap(data, hash, universe);
      return;
    }
    ghost var pieces, rest := PiecesAreRows(data, begin, |data|, chunks, |data|, lines);
    EmptyBody(rest);
    assert Flatten(pieces) == lines;
    forall i | 0 <= i < |chunks| ensures Ready(data, begin, chunks[i], pieces[i], universe) {
      PiecePlaceable(lines, pieces, i, universe);
    }
    merged := MergePieces(data, begin, chunks, hash, monthByDay, lines, pieces, universe);
    AllPieces(pieces, |pieces|);
    assert pieces[..|pieces|] == pieces;
  }

  /** analyzeMemory behind the header: the merged map does not depend on the number of threads.  It
      holds exactly the reference fold of all rows if and only if every length fits 16 bits. */
  method AnalyzeMemory(data: seq<Byte>, begin: nat, threads: int, hash: Hash, monthByDay: array<nat>, ghost lines: seq<Line>,
                     ghost universe: set<Key>)
    returns (merged: FlatMap)
    requires ValidLines(lines) && begin <= |data| && data[begin..|data|] == Body(lines) && DayTable(monthByDay[..])
    requires AllPlaceable(RowsOf(lines), universe)
    ensures merged.Valid() && HoldsRows(merged.dict, merged.aggs, RowsOf(lines))
    ensures HoldsFold(merged.dict, merged.aggs, RowsOf(lines)) <==> Short(RowsOf(lines))
  {
    merged := CountPieces(data, begin, threads, hash, monthByDay, lines, universe);
    HoldsFoldExactly(merged.dict, merged.aggs, RowsOf(lines));
  }
}
