/**
 * ext4 block and inode bitmaps: bit `index` of a bitmap is bit `index % 8`
 * of byte `index / 8`, and a set bit marks the block or inode as used.
 * The operations work in place on the bitmap's bytes.
 */
module Ext4Bitmap {
  import opened Wrappers
  import opened Errno

  /** Values of the C `uint32_t` parameters are below this bound. */
  const U32: nat := 0x1_0000_0000

  /** A bit index stored into a C `uint32_t`: reduced modulo 2^32. */
  function ToU32(n: nat): (r: nat)
    ensures r < U32
    ensures n < U32 ==> r == n
  {
    if n < U32 then n else n % U32
  }

  /** The mask `1 << bit` of a bit inside a byte. */
  function Bit(bit: nat): bv8
    requires bit < 8
  {
    (1 as bv8) << bit
  }

  /** Bit `bit` of byte `v` is set. */
  predicate BitOf(v: bv8, bit: nat)
    requires bit < 8
  {
    v & Bit(bit) != 0
  }

  /** Bit `index` of the bitmap is set (the block or inode is in use). */
  predicate IsSet(s: seq<bv8>, index: nat)
    requires index / 8 < |s|
  {
    BitOf(s[index / 8], index % 8)
  }

  /** `v` with bit `bit` set: `v | 1 << bit`. */
  function SetInByte(v: bv8, bit: nat): bv8
    requires bit < 8
  {
    v | Bit(bit)
  }

  /** `v` with bit `bit` clear: `v & ~(1 << bit)`. */
  function ClearInByte(v: bv8, bit: nat): bv8
    requires bit < 8
  {
    v & !Bit(bit)
  }

  /** Setting a bit of a byte sets that bit and keeps the other seven. */
  lemma SetInByteBits(v: bv8, bit: nat)
    requires bit < 8
    ensures BitOf(SetInByte(v, bit), bit)
    ensures forall c :: 0 <= c < 8 && c != bit ==> BitOf(SetInByte(v, bit), c) == BitOf(v, c)
  {
    forall c | 0 <= c < 8 && c != bit
      ensures BitOf(SetInByte(v, bit), c) == BitOf(v, c)
    {
      OtherBit(v, bit, c);
    }
  }

  /** Clearing a bit of a byte clears that bit and keeps the other seven. */
  lemma ClearInByteBits(v: bv8, bit: nat)
    requires bit < 8
    ensures !BitOf(ClearInByte(v, bit), bit)
    ensures forall c :: 0 <= c < 8 && c != bit ==> BitOf(ClearInByte(v, bit), c) == BitOf(v, c)
  {
    ClearedBit(v, bit);
    forall c | 0 <= c < 8 && c != bit
      ensures BitOf(ClearInByte(v, bit), c) == BitOf(v, c)
    {
      OtherBit(v, bit, c);
    }
  }

  /** The bitmap with bit `index` set. */
  function WithBitSet(s: seq<bv8>, index: nat): (r: seq<bv8>)
    requires index / 8 < |s|
    ensures |r| == |s|
  {
    s[index / 8 := SetInByte(s[index / 8], index % 8)]
  }

  /** The bitmap with bit `index` clear. */
  function WithBitCleared(s: seq<bv8>, index: nat): (r: seq<bv8>)
    requires index / 8 < |s|
    ensures |r| == |s|
  {
    s[index / 8 := ClearInByte(s[index / 8], index % 8)]
  }

  /** Setting bit `index` of a bitmap sets that bit and no other. */
  lemma WithBitSetBits(s: seq<bv8>, index: nat)
    requires index / 8 < |s|
    ensures IsSet(WithBitSet(s, index), index)
    ensures forall j: nat :: j / 8 < |s| && j != index ==>
      IsSet(WithBitSet(s, index), j) == IsSet(s, j)
  {
    var r := WithBitSet(s, index);
    SetInByteBits(s[index / 8], index % 8);
    forall j: nat | j / 8 < |s| && j != index
      ensures IsSet(r, j) == IsSet(s, j)
    {
      if j / 8 == index / 8 { SameByteOtherBit(j, index); }
    }
  }

  /** Clearing bit `index` of a bitmap clears that bit and no other. */
  lemma WithBitClearedBits(s: seq<bv8>, index: nat)
    requires index / 8 < |s|
    ensures !IsSet(WithBitCleared(s, index), index)
    ensures forall j: nat :: j / 8 < |s| && j != index ==>
      IsSet(WithBitCleared(s, index), j) == IsSet(s, j)
  {
    var r := WithBitCleared(s, index);
    ClearInByteBits(s[index / 8], index % 8);
    forall j: nat | j / 8 < |s| && j != index
      ensures IsSet(r, j) == IsSet(s, j)
    {
      if j / 8 == index / 8 { SameByteOtherBit(j, index); }
    }
  }

  lemma ByteBitIndex(b: nat, i: nat)
    requires i < 8
    ensures (b * 8 + i) / 8 == b && (b * 8 + i) % 8 == i
  {
  }

  lemma SameByteOtherBit(j: nat, index: nat)
    requires j / 8 == index / 8 && j != index
    ensures j % 8 != index % 8
  {
    assert j == 8 * (j / 8) + j % 8 && index == 8 * (index / 8) + index % 8;
  }

  lemma ClearedBit(v: bv8, a: nat)
    requires a < 8
    ensures (v & !Bit(a)) & Bit(a) == 0
  {
  }

  lemma OtherBit(v: bv8, a: nat, c: nat)
    requires a < 8 && c < 8 && a != c
    ensures (v | Bit(a)) & Bit(c) == v & Bit(c)
    ensures (v & !Bit(a)) & Bit(c) == v & Bit(c)
  {
  }

  lemma ClearThenSet(v: bv8, a: nat)
    requires a < 8 && BitOf(v, a)
    ensures SetInByte(ClearInByte(v, a), a) == v
  {
    assert (v & !Bit(a)) | Bit(a) == v;
  }

  /** `ext4_bitmap_free_bit`: clear bit `index`. */
  method FreeBit(bitmap: array<bv8>, index: nat)
    requires index < U32 && index / 8 < bitmap.Length
    modifies bitmap
    ensures bitmap[..] == WithBitCleared(old(bitmap[..]), index)
  {
    var byteIndex := index / 8;
    var bitIndex := index % 8;
    bitmap[byteIndex] := ClearInByte(bitmap[byteIndex], bitIndex);
  }

  /** `ext4_bitmap_set_bit`: set bit `index`. */
  method SetBit(bitmap: array<bv8>, index: nat)
    requires index < U32 && index / 8 < bitmap.Length
    modifies bitmap
    ensures bitmap[..] == WithBitSet(old(bitmap[..]), index)
  {
    var byteIndex := index / 8;
    var bitIndex := index % 8;
    bitmap[byteIndex] := SetInByte(bitmap[byteIndex], bitIndex);
  }

  /** `ext4_bitmap_is_free_bit`: bit `index` is clear. */
  method IsFreeBit(bitmap: array<bv8>, index: nat) returns (free: bool)
    requires index < U32 && index / 8 < bitmap.Length
    ensures free <==> !IsSet(bitmap[..], index)
  {
    var byteIndex := index / 8;
    var bitIndex := index % 8;
    free := bitmap[byteIndex] & Bit(bitIndex) == 0;
  }

  /** Setting a bit twice is the same as setting it once. */
  lemma SetBitIdempotent(s: seq<bv8>, index: nat)
    requires index / 8 < |s|
    ensures WithBitSet(WithBitSet(s, index), index) == WithBitSet(s, index)
  {
    var k := index / 8;
    assert WithBitSet(s, index)[k] | Bit(index % 8) == WithBitSet(s, index)[k];
  }

  /** Freeing a bit and setting it again restores a bitmap in which it was set. */
  lemma FreeThenSetRestores(s: seq<bv8>, index: nat)
    requires index / 8 < |s| && IsSet(s, index)
    ensures WithBitSet(WithBitCleared(s, index), index) == s
  {
    var k, b := index / 8, index % 8;
    var t := WithBitCleared(s, index);
    ClearThenSet(s[k], b);
    assert WithBitSet(t, index) == t[k := s[k]];
  }

  // Searches

  /** The first byte in `[from, size)` that is zero, if any. */
  function FirstZeroByte(s: seq<bv8>, from: nat, size: nat): (r: Option<nat>)
    requires size <= |s|
    ensures r.Some? ==> from <= r.value < size && s[r.value] == 0
    ensures r.Some? ==> forall k :: from <= k < r.value ==> s[k] != 0
    ensures r.None? ==> forall k :: from <= k < size ==> s[k] != 0
    decreases size - from
  {
    if from >= size then None
    else if s[from] == 0 then Some(from)
    else FirstZeroByte(s, from + 1, size)
  }

  /** The first byte in `[from, size)` that has a clear bit, if any. */
  function FirstNonFullByte(s: seq<bv8>, from: nat, size: nat): (r: Option<nat>)
    requires size <= |s|
    ensures r.Some? ==> from <= r.value < size && s[r.value] != 0xFF
    ensures r.Some? ==> forall k :: from <= k < r.value ==> s[k] == 0xFF
    ensures r.None? ==> forall k :: from <= k < size ==> s[k] == 0xFF
    decreases size - from
  {
    if from >= size then None
    else if s[from] != 0xFF then Some(from)
    else FirstNonFullByte(s, from + 1, size)
  }

  /** The lowest clear bit of `v` at position `from` or above, if any. */
  function LowestClearBit(v: bv8, from: nat): (r: Option<nat>)
    requires from <= 8
    ensures r.Some? ==> from <= r.value < 8 && !BitOf(v, r.value)
    ensures r.Some? ==> forall i :: from <= i < r.value ==> BitOf(v, i)
    ensures r.None? ==> forall i :: from <= i < 8 ==> BitOf(v, i)
    decreases 8 - from
  {
    if from == 8 then None
    else if !BitOf(v, from) then Some(from)
    else LowestClearBit(v, from + 1)
  }

  /** A byte other than 0xFF has a clear bit. */
  lemma NonFullHasClearBit(v: bv8)
    requires v != 0xFF
    ensures LowestClearBit(v, 0).Some?
  {
  }

  /**
   * The bit `ext4_bitmap_find_free_bit_and_set` takes: in the first byte from
   * `start / 8` on that is not 0xFF; in start's own byte the lowest clear bit
   * at or above `start % 8`, falling back to the lowest clear bit of that
   * byte; in a later byte its lowest clear bit. None when every byte from
   * `start / 8` to `size - 1` is 0xFF.
   */
  function FreeBitChoice(s: seq<bv8>, start: nat, size: nat): (r: Option<nat>)
    requires size <= |s|
    ensures r.Some? ==> start / 8 <= r.value / 8 < size && !IsSet(s, r.value)
  {
    match FirstNonFullByte(s, start / 8, size)
    case None => None
    case Some(b) =>
      NonFullHasClearBit(s[b]);
      var i :=
        if b == start / 8 && LowestClearBit(s[b], start % 8).Some? then
          LowestClearBit(s[b], start % 8).value
        else
          LowestClearBit(s[b], 0).value;
      ByteBitIndex(b, i);
      Some(b * 8 + i)
  }

  /** The bit-finder finds nothing exactly when every byte from start's
      byte up to `size` is 0xFF. */
  lemma FreeBitChoiceNone(s: seq<bv8>, start: nat, size: nat)
    requires size <= |s|
    ensures FreeBitChoice(s, start, size).None? <==>
      forall k :: start / 8 <= k < size ==> s[k] == 0xFF
  {
  }

  /** FreeBitChoice, given the byte it stops at and the bit searched from. */
  lemma FreeBitChoiceIs(s: seq<bv8>, start: nat, size: nat, b: nat, fallback: bool, i: nat)
    requires size <= |s| && FirstNonFullByte(s, start / 8, size) == Some(b)
    requires !fallback ==> b == start / 8
    requires fallback && b == start / 8 ==> LowestClearBit(s[b], start % 8).None?
    requires LowestClearBit(s[b], if fallback then 0 else start % 8) == Some(i)
    ensures FreeBitChoice(s, start, size) == Some(b * 8 + i)
    ensures FindOutcome(s, start, size) == (EOK, ToU32(b * 8 + i), s[b := SetInByte(s[b], i)])
  {
    ByteBitIndex(b, i);
  }

  /** What `ext4_bitmap_find_free_bit_and_set` returns, reports and leaves in
      the bitmap: the bit FreeBitChoice picks, set, or ENOSPC and the bitmap
      unchanged (the reported index is then 0 in the model). */
  function FindOutcome(s: seq<bv8>, start: nat, size: nat): (r: (Errno, nat, seq<bv8>))
    requires size <= |s|
    ensures r.0 == EOK || (r.0 == ENOSPC && r.2 == s)
  {
    match FreeBitChoice(s, start, size)
    case None => (ENOSPC, 0, s)
    case Some(bit) => (EOK, ToU32(bit), WithBitSet(s, bit))
  }

  /** `ext4_bitmap_find_free_byte_and_set_bit`: looks for a completely free
      byte after start's own byte, marks its first bit used and reports that
      bit's index (truncated to 32 bits like the C `uint32_t`); the index is
      meaningful only on EOK, the model returns 0 otherwise. */
  method FindFreeByteAndSetBit(bitmap: array<bv8>, start: nat, size: nat)
    returns (rc: Errno, index: nat)
    requires start < U32 && size < U32 && size <= bitmap.Length
    modifies bitmap
    ensures match FirstZeroByte(old(bitmap[..]), start / 8 + 1, size)
      case None => rc == ENOSPC && index == 0 && bitmap[..] == old(bitmap[..])
      case Some(b) =>
        rc == EOK && index == ToU32(b * 8) &&
        bitmap[..] == WithBitSet(old(bitmap[..]), b * 8)
  {
    ghost var s := bitmap[..];
    var pos := start / 8 + 1;
    while pos < size
      invariant start / 8 + 1 <= pos
      invariant bitmap[..] == s
      invariant FirstZeroByte(s, start / 8 + 1, size) == FirstZeroByte(s, pos, size)
    {
      if bitmap[pos] == 0 {
        ByteBitIndex(pos, 0);
        bitmap[pos] := SetInByte(bitmap[pos], 0);
        index := ToU32(pos * 8);
        rc := EOK;
        return;
      }
      pos := pos + 1;
    }
    rc, index := ENOSPC, 0;
  }

  /** `ext4_bitmap_find_free_bit_and_set`: marks the bit `FreeBitChoice`
      picks as used and reports its index (truncated to 32 bits); EOK
      exactly when there was a clear bit. The source reads start's byte
      unconditionally, so `start / 8` must lie inside the bitmap. */
  method FindFreeBitAndSet(bitmap: array<bv8>, start: nat, size: nat)
    returns (rc: Errno, index: nat)
    requires start < U32 && size < U32 && size <= bitmap.Length
    requires start / 8 < size
    modifies bitmap
    ensures (rc, index, bitmap[..]) == FindOutcome(old(bitmap[..]), start, size)
  {
    ghost var s := bitmap[..];
    var pos := SkipFullBytes(bitmap, start / 8, size);

    // Check the byte containing start
    if pos == start / 8 {
      var found, i := ClaimLowestClearBit(bitmap, pos, start % 8);
      if found {
        FreeBitChoiceIs(s, start, size, pos, false, i);
        index := ToU32(pos * 8 + i);
        rc := EOK;
        return;
      }
    }
    assert bitmap[..] == s;

    if pos < size {
      NonFullHasClearBit(s[pos]);
      var found, i := ClaimLowestClearBit(bitmap, pos, 0);
      FreeBitChoiceIs(s, start, size, pos, true, i);
      index := ToU32(pos * 8 + i);
      rc := EOK;
      return;
    }

    rc, index := ENOSPC, 0;
  }

  /** The byte loop of `ext4_bitmap_find_free_bit_and_set`: skips the
      bytes from `from` on that are 0xFF and stops at the first other one,
      or at `size` (at `from` itself when that already lies past `size`). */
  method SkipFullBytes(bitmap: array<bv8>, from: nat, size: nat) returns (pos: nat)
    requires size <= bitmap.Length
    ensures from <= pos && (pos <= size || pos == from)
    ensures FirstNonFullByte(bitmap[..], from, size) == if pos < size then Some(pos) else None
  {
    pos := from;
    while pos < size
      invariant from <= pos && (pos <= size || pos == from)
      invariant FirstNonFullByte(bitmap[..], from, size) == FirstNonFullByte(bitmap[..], pos, size)
    {
      if bitmap[pos] & 255 != 255 {
        return;
      }
      pos := pos + 1;
    }
  }

  /** One of the bit loops of `ext4_bitmap_find_free_bit_and_set`: scans the
      bits of byte `pos` upward from `from` and sets the first clear one. */
  method ClaimLowestClearBit(bitmap: array<bv8>, pos: nat, from: nat)
    returns (found: bool, bit: nat)
    requires pos < bitmap.Length && from < 8
    modifies bitmap
    ensures found <==> LowestClearBit(old(bitmap[..])[pos], from).Some?
    ensures found ==> LowestClearBit(old(bitmap[..])[pos], from) == Some(bit)
    ensures bitmap[..] ==
      if found then old(bitmap[..])[pos := SetInByte(old(bitmap[..])[pos], bit)] else old(bitmap[..])
  {
    for i := from to 8
      invariant bitmap[..] == old(bitmap[..])
      invariant LowestClearBit(bitmap[pos], from) == LowestClearBit(bitmap[pos], i)
    {
      var value := bitmap[pos];
      if value & Bit(i) == 0 {
        bitmap[pos] := SetInByte(value, i);
        return true, i;
      }
    }
    return false, 0;
  }

  // Properties of the searches

  /** The byte the byte-finder takes lies after start's byte, so the bit it
      reports lies after `start` whenever the index fits 32 bits. */
  lemma FreeByteIndexAboveStart(s: seq<bv8>, start: nat, size: nat)
    requires size <= |s| && FirstZeroByte(s, start / 8 + 1, size).Some?
    requires size <= U32 / 8
    ensures var b := FirstZeroByte(s, start / 8 + 1, size).value;
      ToU32(b * 8) == b * 8 && b * 8 > start
  {
  }

  /** The bit the bit-finder sets was clear before, and is the only bit
      that changes. */
  lemma FreeBitSetsOneClearBit(s: seq<bv8>, start: nat, size: nat)
    requires size <= |s| && FreeBitChoice(s, start, size).Some?
    ensures var bit := FreeBitChoice(s, start, size).value;
      var r := WithBitSet(s, bit);
      !IsSet(s, bit) && IsSet(r, bit) &&
      forall j: nat :: j / 8 < |s| && j != bit ==> IsSet(r, j) == IsSet(s, j)
  {
    WithBitSetBits(s, FreeBitChoice(s, start, size).value);
  }

  /** When start's byte has a clear bit at or above start, the bit-finder
      reports an index at or above start; a later byte gives an index above. */
  lemma FreeBitAtOrAboveStart(s: seq<bv8>, start: nat, size: nat)
    requires size <= |s| && FreeBitChoice(s, start, size).Some?
    requires start / 8 < size ==>
      LowestClearBit(s[start / 8], start % 8).Some? || s[start / 8] == 0xFF
    ensures FreeBitChoice(s, start, size).value >= start
  {
  }

  /** The bit-finder may report an index below `start`: with start 1 and a
      first byte whose only clear bit is bit 0, it takes bit 0. */
  lemma FreeBitBelowStart()
    ensures FreeBitChoice([0xFE], 1, 1) == Some(0)
  {
    assert FirstNonFullByte([0xFE], 0, 1) == Some(0);
    assert LowestClearBit(0xFE, 1).None?;
    assert LowestClearBit(0xFE, 0) == Some(0);
  }
}
