/** Channel keys in memory: how the optimized C analyzer hashes and compares them with
    overlapping word loads. */
module Keys {
  import opened ReferenceFold

  function Bytes(mem: seq<Byte>, p: nat, n: nat): seq<Byte>
    requires p + n <= |mem|
  {
    mem[p..p + n]
  }

  function Zeros(n: nat): (r: seq<Byte>)
    ensures |r| == n
  {
    seq(n, i => 0)
  }

  /** _bzhi_u64 with 8n bits: the bytes from n on become zero. */
  function KeepLow(word: seq<Byte>, n: nat): (r: seq<Byte>)
    requires |word| == 8
    ensures |r| == 8
  {
    if n >= 8 then word else word[..n] + Zeros(8 - n)
  }

  function XorByte(a: Byte, b: Byte): Byte { ((a as bv8) ^ (b as bv8)) as Byte }

  function Xor(a: seq<Byte>, b: seq<Byte>): (r: seq<Byte>)
    requires |a| == |b|
    ensures |r| == |a|
  {
    seq(|a|, i requires 0 <= i < |a| => XorByte(a[i], b[i]))
  }

  const HASH_MIDDLE_THRESHOLD := 16

  /** hash_bytes: the checksum `crc` of the length and one word sampled from the key.  The
      tail load of a short key starts before the key and is discarded. */
  function HashBytes(mem: seq<Byte>, p: nat, n: nat, crc: (nat, seq<Byte>) -> Word32): Word32
    requires p + 8 <= |mem| && p + n <= |mem| && p + n >= 8
  {
    var first := Bytes(mem, p, 8);
    var shortWord := KeepLow(first, n);
    var longWord := Xor(first, Bytes(mem, p + n - 8, 8));
    var x := if n > 8 then longWord else shortWord;
    crc(n, if n > HASH_MIDDLE_THRESHOLD then Xor(x, Bytes(mem, p + n / 2 - 4, 8)) else x)
  }

  /** The same checksum from the key's own bytes. */
  function HashKey(key: Key, crc: (nat, seq<Byte>) -> Word32): Word32 {
    var n := |key|;
    if n <= 8 then crc(n, key + Zeros(8 - n))
    else
      var x := Xor(key[..8], key[n - 8..]);
      crc(n, if n > HASH_MIDDLE_THRESHOLD then Xor(x, key[n / 2 - 4..n / 2 + 4]) else x)
  }

  lemma PartOfKey(mem: seq<Byte>, p: nat, n: nat, i: nat, j: nat)
    requires p + n <= |mem| && i <= j <= n
    ensures mem[p..p + n][i..j] == mem[p + i..p + j]
  {
    var key := mem[p..p + n];
    forall k | i <= k < j ensures key[k] == mem[p + k] {
    }
  }

  /** The hash depends on nothing but the key's own bytes. */
  lemma HashIsLocal(mem: seq<Byte>, p: nat, n: nat, crc: (nat, seq<Byte>) -> Word32)
    requires p + 8 <= |mem| && p + n <= |mem| && p + n >= 8
    ensures HashBytes(mem, p, n, crc) == HashKey(mem[p..p + n], crc)
  {
    if n <= 8 {
      ShortWord(mem, p, n);
    } else {
      LongWord(mem, p, n);
      if n > HASH_MIDDLE_THRESHOLD {
        PartOfKey(mem, p, n, n / 2 - 4, n / 2 + 4);
      }
    }
  }

  lemma ShortWord(mem: seq<Byte>, p: nat, n: nat)
    requires p + 8 <= |mem| && n <= 8
    ensures KeepLow(Bytes(mem, p, 8), n) == mem[p..p + n] + Zeros(8 - n)
  {
    var first := Bytes(mem, p, 8);
    PartOfKey(mem, p, 8, 0, n);
    assert first[0..n] == first[..n] == mem[p..p + n];
    if n == 8 {
      assert first + Zeros(0) == first;
    }
  }

  lemma LongWord(mem: seq<Byte>, p: nat, n: nat)
    requires p + n <= |mem| && n > 8
    ensures var key := mem[p..p + n];
            Bytes(mem, p, 8) == key[..8] && Bytes(mem, p + n - 8, 8) == key[n - 8..]
  {
    var key := mem[p..p + n];
    PartOfKey(mem, p, n, 0, 8);
    PartOfKey(mem, p, n, n - 8, n);
    assert key[0..8] == key[..8] && key[n - 8..n] == key[n - 8..];
  }

  predicate SameWord(a: seq<Byte>, b: seq<Byte>, i: nat, width: nat)
    requires i + width <= |a| && i + width <= |b|
  {
    a[i..i + width] == b[i..i + width]
  }

  /** key_equal on two keys of n bytes. */
  predicate KeyEqual(a: Key, b: Key)
    requires |a| == |b|
  {
    var n := |a|;
    if n >= 8 then
      SameWord(a, b, 0, 8) &&
      (n == 8 ||
       if n <= 16 then SameWord(a, b, n - 8, 8)
       else
         SameWord(a, b, 8, 8) &&
         if n <= 24 then SameWord(a, b, n - 8, 8)
         else if n <= 32 then SameWord(a, b, 16, 8) && SameWord(a, b, n - 8, 8)
         else SameWord(a, b, 16, n - 16))
    else if n >= 4 then SameWord(a, b, 0, 4) && (n == 4 || SameWord(a, b, n - 4, 4))
    else if n >= 2 then SameWord(a, b, 0, 2) && (n == 2 || SameWord(a, b, n - 2, 2))
    else n == 0 || a[0] == b[0]
  }

  /** The overlapping loads cover every byte: equal exactly when the keys are. */
  lemma KeyEqualMeaning(a: Key, b: Key)
    requires |a| == |b|
    ensures KeyEqual(a, b) <==> a == b
  {
    if KeyEqual(a, b) {
      forall k | 0 <= k < |a| ensures a[k] == b[k] {
        CoveredByte(a, b, k);
      }
    }
  }

  lemma CoveredByte(a: Key, b: Key, k: nat)
    requires |a| == |b| && KeyEqual(a, b) && k < |a|
    ensures a[k] == b[k]
  {
    var n := |a|;
    if n >= 8 {
      if k < 8 {
        WordByte(a, b, 0, 8, k);
      } else if 16 < n && k < 16 {
        WordByte(a, b, 8, 8, k);
      } else if n > 32 {
        WordByte(a, b, 16, n - 16, k);
      } else if 24 < n && k < 24 {
        WordByte(a, b, 16, 8, k);
      } else {
        WordByte(a, b, n - 8, 8, k);
      }
    } else if n >= 4 {
      if k < 4 {
        WordByte(a, b, 0, 4, k);
      } else {
        WordByte(a, b, n - 4, 4, k);
      }
    } else if n >= 2 {
      if k < 2 {
        WordByte(a, b, 0, 2, k);
      } else {
        WordByte(a, b, n - 2, 2, k);
      }
    }
  }

  lemma WordByte(a: Key, b: Key, i: nat, n: nat, k: nat)
    requires i + n <= |a| == |b| && SameWord(a, b, i, n) && i <= k < i + n
    ensures a[k] == b[k]
  {
    assert a[i..i + n][k - i] == b[i..i + n][k - i];
  }
}
