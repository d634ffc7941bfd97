/** Compact proof-of-work targets, after Bitcoin's nBits, and the periodic retargeting. */
module Pow {
  import opened Types

  type uint32 = x: int | 0 <= x < 0x1_0000_0000

  const SIGN_BIT: int := 0x80_0000

  const SIZE_UNIT: int := 0x100_0000

  function Pow256(k: nat): (r: nat)
    ensures r >= 1
  {
    if k == 0 then 1 else 256 * Pow256(k - 1)
  }

  /** Left and right shifts by k bytes. */
  function Shl(n: nat, k: nat): nat {
    if k == 0 then n else 256 * Shl(n, k - 1)
  }

  function Shr(n: nat, k: nat): nat
    decreases k
  {
    if k == 0 then n else Shr(n / 256, k - 1)
  }

  /** The length in bytes. */
  function ByteLen(n: nat): nat {
    if n == 0 then 0 else 1 + ByteLen(n / 256)
  }

  // ---------------------------------------------------------------- the specification

  /** What a target keeps of a number: low bytes are dropped until the rest fits in 23 bits. */
  ghost function Trunc(n: nat): nat {
    if n < SIGN_BIT then n else 256 * Trunc(n / 256)
  }

  /** The number of bytes dropped. */
  ghost function Dropped(n: nat): nat {
    if n < SIGN_BIT then 0 else 1 + Dropped(n / 256)
  }

  lemma {:induction false} TruncAtLeast(n: nat)
    requires n >= 0x8000
    ensures Trunc(n) >= 0x8000
  {
    if n >= SIGN_BIT {
      TruncAtLeast(n / 256);
    }
  }

  /** Only low bytes are dropped, and 15 bits are kept at least. */
  lemma {:induction false} TruncDropsLowBytes(n: nat)
    ensures Trunc(n) == Shl(Shr(n, Dropped(n)), Dropped(n))
    ensures Trunc(n) <= n < Trunc(n) + Pow256(Dropped(n))
    ensures Dropped(n) > 0 ==> Trunc(n) >= 0x8000 * Pow256(Dropped(n))
  {
    if n >= SIGN_BIT {
      var q := n / 256;
      TruncDropsLowBytes(q);
      assert Pow256(Dropped(n)) == 256 * Pow256(Dropped(q));
    }
  }

  lemma {:induction false} TruncMonotone(a: nat, b: nat)
    requires a <= b
    ensures Trunc(a) <= Trunc(b)
    decreases b
  {
    if a >= SIGN_BIT {
      TruncMonotone(a / 256, b / 256);
    } else if b >= SIGN_BIT {
      TruncAtLeast(b / 256);
    }
  }

  lemma {:induction false} TruncIdempotent(n: nat)
    ensures Trunc(Trunc(n)) == Trunc(n)
  {
    if n >= SIGN_BIT {
      TruncIdempotent(n / 256);
      TruncAtLeast(n / 256);
      assert 256 * Trunc(n / 256) / 256 == Trunc(n / 256);
    }
  }

  /** What 23 bits and whole bytes can express is kept. */
  lemma {:induction false} TruncKeeps(word: nat, k: nat)
    requires word < SIGN_BIT
    ensures Trunc(Shl(word, k)) == Shl(word, k)
  {
    if k > 0 {
      TruncKeeps(word, k - 1);
    }
  }

  // ---------------------------------------------------------------- the encoding

  /** The length in bytes with room for a sign bit. */
  function RoomyLen(n: nat): (r: nat)
    ensures r >= 1
  {
    if n < 128 then 1 else 1 + RoomyLen(n / 256)
  }

  function Size(n: nat): nat {
    if n == 0 then 0 else RoomyLen(n)
  }

  lemma RoomyLenSmall(n: nat)
    ensures n < 128 ==> RoomyLen(n) == 1
    ensures 128 <= n < 0x8000 ==> RoomyLen(n) == 2
    ensures 0x8000 <= n < SIGN_BIT ==> RoomyLen(n) == 3
    ensures n >= SIGN_BIT ==> RoomyLen(n) > 3
  {
  }

  /** The 23 leading bits, in whole bytes. */
  ghost function Mantissa(n: nat): (m: nat)
    ensures m < SIGN_BIT
  {
    RoomyLenSmall(n);
    if n >= SIGN_BIT then Mantissa(n / 256)
    else if n == 0 then 0
    else if n < 128 then n * 0x1_0000
    else if n < 0x8000 then n * 0x100
    else n
  }

  ghost function Encode(n: nat): uint32 {
    Mantissa(n) + Size(n) % 256 * SIZE_UNIT
  }

  ghost function Decode(c: uint32): nat {
    var size, word := c / SIZE_UNIT, c % SIGN_BIT;
    if size <= 3 then Shr(word, 3 - size) else Shl(word, size - 3)
  }

  ghost predicate Negative(c: uint32) {
    Decode(c) != 0 && c / SIGN_BIT % 2 == 1
  }

  ghost predicate Overflows(c: uint32) {
    Decode(c) != 0 && c / SIZE_UNIT > 32
  }

  /** Decoding an encoded number gives back what a target keeps of it. */
  lemma {:induction false} DecodeEncode(n: nat)
    requires Size(n) < 256
    ensures Decode(Encode(n)) == Trunc(n)
    ensures Encode(n) / SIZE_UNIT == Size(n) && !Negative(Encode(n))
  {
    EncodedParts(n);
    RoomyLenSmall(n);
    DecodeMantissa(n);
  }

  lemma EncodedParts(n: nat)
    requires Size(n) < 256
    ensures Encode(n) / SIZE_UNIT == Size(n) && Encode(n) % SIGN_BIT == Mantissa(n) && Encode(n) / SIGN_BIT % 2 == 0
  {
    assert Size(n) % 256 == Size(n);
  }

  lemma {:induction false} DecodeMantissa(n: nat)
    ensures Trunc(n) == if Size(n) <= 3 then Shr(Mantissa(n), 3 - Size(n)) else Shl(Mantissa(n), Size(n) - 3)
  {
    RoomyLenSmall(n);
    if n >= SIGN_BIT {
      DecodeMantissa(n / 256);
      RoomyLenSmall(n / 256);
    } else {
      ShrSmall(Mantissa(n));
    }
  }

  lemma ShrSmall(n: nat)
    ensures Shr(n, 0) == n && Shr(n, 1) == n / 0x100 && Shr(n, 2) == n / 0x1_0000 && Shr(n, 3) == n / 0x100_0000
  {
  }

  lemma ShlSmall(n: nat)
    ensures Shl(n, 0) == n && Shl(n, 1) == n * 0x100 && Shl(n, 2) == n * 0x1_0000 && Shl(n, 3) == n * 0x100_0000
  {
  }

  // ---------------------------------------------------------------- GetCompact and SetCompact

  method GetCompact(number: nat) returns (nCompact: uint32, ok: bool)
    ensures ok <==> Size(number) <= 256
    ensures ok ==> nCompact == Encode(number)
  {
    hide Mantissa, Size, ByteLen, Shl, Shr;
    var nSize := ByteLen(number);
    var compact: nat;
    LeadingBytes(number);
    if nSize <= 3 {
      var low64 := number % 0x1_0000_0000_0000_0000;
      compact := Shl(low64, 3 - nSize) % 0x1_0000_0000;
    } else {
      var low64 := Shr(number, nSize - 3) % 0x1_0000_0000_0000_0000;
      compact := low64 % 0x1_0000_0000;
    }
    assert compact == Leading(number);
    if compact / SIGN_BIT % 2 == 1 {
      compact := compact / 256;
      nSize := nSize + 1;
    }
    if compact / SIGN_BIT != 0 || nSize > 256 {
      return 0, false;
    }
    SizeByte(nSize);
    return compact + nSize * SIZE_UNIT % 0x1_0000_0000, true;
  }

  /** The size loses its high bits when shifted into the top byte. */
  lemma SizeByte(size: nat)
    requires size <= 256
    ensures size * SIZE_UNIT % 0x1_0000_0000 == size % 256 * SIZE_UNIT
  {
  }

  /** The three leading bytes. */
  ghost function Leading(n: nat): nat {
    var size := ByteLen(n);
    if size <= 3 then Shl(n, 3 - size) else Shr(n, size - 3)
  }

  /** Three leading bytes with the top bit set move down one byte. */
  lemma {:induction false} LeadingBytes(n: nat)
    ensures Leading(n) < 2 * SIGN_BIT && (ByteLen(n) <= 3 <==> n < 2 * SIGN_BIT)
    ensures Leading(n) >= SIGN_BIT ==> Mantissa(n) == Leading(n) / 256 && Size(n) == ByteLen(n) + 1
    ensures Leading(n) < SIGN_BIT ==> Mantissa(n) == Leading(n) && Size(n) == ByteLen(n)
  {
    RoomyLenSmall(n);
    if n < 2 * SIGN_BIT {
      SmallLeading(n);
    } else {
      LeadingBytes(n / 256);
      SizeAbove(n / 256);
      assert Shr(n / 256, 0) == Shl(n / 256, 0);
    }
  }

  lemma SmallLeading(n: nat)
    requires n < 2 * SIGN_BIT
    ensures ByteLen(n) <= 3 && Leading(n) < 2 * SIGN_BIT
    ensures Leading(n) >= SIGN_BIT ==> Mantissa(n) == Leading(n) / 256 && Size(n) == ByteLen(n) + 1
    ensures Leading(n) < SIGN_BIT ==> Mantissa(n) == Leading(n) && Size(n) == ByteLen(n)
  {
    RoomyLenSmall(n);
    RoomyLenSmall(n / 256);
    ShlSmall(n);
    SmallByteLen(n);
  }

  lemma SmallByteLen(n: nat)
    requires n < 2 * SIGN_BIT
    ensures ByteLen(n) == if n == 0 then 0 else if n < 256 then 1 else if n < 0x1_0000 then 2 else 3
  {
  }

  lemma SizeAbove(q: nat)
    requires q >= 0x1_0000
    ensures ByteLen(q) >= 3
  {
    assert ByteLen(q) == 1 + ByteLen(q / 256) == 2 + ByteLen(q / 256 / 256);
  }

  /** The word is shifted in place, so the flags look at the shifted value. */
  method SetCompact(nCompact: uint32) returns (u: nat, negative: bool, overflow: bool)
    ensures u == Decode(nCompact) && negative == Negative(nCompact) && overflow == Overflows(nCompact)
  {
    var nSize := nCompact / SIZE_UNIT;
    var nWord := nCompact % SIGN_BIT;
    if nSize <= 3 {
      nWord := Shr(nWord, 3 - nSize);
      u := nWord;
    } else {
      nWord := Shl(nWord, nSize - 3);
      u := nWord;
    }
    if nWord != 0 && nSize > 32 {
      ShiftedWordIsLarge(nCompact % SIGN_BIT, nSize - 3);
    }
    negative := nWord != 0 && nCompact / SIGN_BIT % 2 == 1;
    overflow := nWord != 0 && (nSize > 34 || (nWord > 0xff && nSize > 33) || (nWord > 0xffff && nSize > 32));
  }

  lemma {:induction false} ShiftedWordIsLarge(word: nat, k: nat)
    requires k >= 3 && Shl(word, k) != 0
    ensures Shl(word, k) > 0xffff
  {
  }

  // ---------------------------------------------------------------- round trip

  /** 2 to the 255th. */
  ghost function TwoTo255(): nat {
    128 * Pow256(31)
  }

  lemma {:induction false} RoomyLenBound(n: nat, k: nat)
    ensures RoomyLen(n) <= k + 1 <==> n < 128 * Pow256(k)
    decreases k
  {
    if k > 0 {
      RoomyLenBound(n / 256, k - 1);
      assert Pow256(k) == 256 * Pow256(k - 1);
    }
  }

  /** Every number below 2 to the 255th has a target; the target raises no flag and means the number
      less low bytes. */
  lemma CompactTarget(n: nat)
    requires n < TwoTo255()
    ensures Size(n) <= 32 && !Negative(Encode(n)) && !Overflows(Encode(n)) && Decode(Encode(n)) == Trunc(n)
  {
    RoomyLenBound(n, 31);
    DecodeEncode(n);
  }

  /** From there on, targets are flagged, although their numbers still fit in 256 bits. */
  lemma CompactTargetFlagged(n: nat)
    requires Size(n) < 256
    ensures Overflows(Encode(n)) <==> n >= TwoTo255()
  {
    RoomyLenBound(n, 31);
    DecodeEncode(n);
    if n >= TwoTo255() {
      assert Pow256(31) >= 1 && Size(n) > 32;
      RoomyLenSmall(n);
      TruncAtLeast(n);
    }
  }

  /** A target without flags means a number below 2 to the 255th that has a target of its own. */
  lemma UnflaggedTarget(c: uint32)
    requires !Overflows(c)
    ensures Decode(c) < TwoTo255() && Trunc(Decode(c)) == Decode(c)
  {
    hide Trunc, Pow256, TwoTo255;
    var size, word := c / SIZE_UNIT, c % SIGN_BIT;
    LimitInWords();
    if size <= 3 {
      ShrAtMost(word, 3 - size);
      TruncKeeps(Shr(word, 3 - size), 0);
    } else {
      TruncKeeps(word, size - 3);
      if size <= 32 {
        ShlBelow(word, size - 3);
        PowMonotone(size - 3, 29);
      }
    }
  }

  lemma LimitInWords()
    ensures TwoTo255() == SIGN_BIT * Pow256(29) >= SIGN_BIT
  {
  }

  lemma {:induction false} ShrAtMost(n: nat, k: nat)
    ensures Shr(n, k) <= n
    decreases k
  {
    if k > 0 {
      ShrAtMost(n / 256, k - 1);
    }
  }

  lemma {:induction false} ShlBelow(word: nat, k: nat)
    requires word < SIGN_BIT
    ensures Shl(word, k) < SIGN_BIT * Pow256(k)
  {
    if k > 0 {
      ShlBelow(word, k - 1);
    }
  }

  lemma {:induction false} PowMonotone(a: nat, b: nat)
    requires a <= b
    ensures Pow256(a) <= Pow256(b)
  {
    if a < b {
      PowMonotone(a, b - 1);
    }
  }

  // ---------------------------------------------------------------- targets as numbers

  lemma {:induction false} ShlIs(n: nat, k: nat)
    ensures Shl(n, k) == n * Pow256(k)
  {
    if k > 0 {
      ShlIs(n, k - 1);
      assert 256 * (n * Pow256(k - 1)) == n * (256 * Pow256(k - 1));
    }
  }

  /** A target of size s and word w means w times 256 to the power s - 3. */
  lemma DecodeIs(c: uint32)
    requires c / 0x100_0000 >= 3
    ensures Decode(c) == c % 0x80_0000 * Pow256(c / 0x100_0000 - 3)
  {
    ShlIs(c % SIGN_BIT, c / SIZE_UNIT - 3);
  }

  lemma {:induction false} ShiftedMantissa(word: nat, k: nat)
    requires 0x8000 <= word < SIGN_BIT
    ensures Mantissa(Shl(word, k)) == word && RoomyLen(Shl(word, k)) == k + 3 && Shl(word, k) >= 0x8000
  {
    if k == 0 {
      RoomyLenSmall(word);
    } else {
      ShiftedMantissa(word, k - 1);
      assert Shl(word, k) / 256 == Shl(word, k - 1);
    }
  }

  /** Encoding what a target means gives the target back, if it is written with a word of full length. */
  lemma EncodeDecode(c: uint32)
    requires c / 0x100_0000 >= 3 && c / 0x80_0000 % 2 == 0 && c % 0x80_0000 >= 0x8000
    ensures Encode(Decode(c)) == c
  {
    hide Mantissa, RoomyLen, Shl, Shr;
    var size, word := c / SIZE_UNIT, c % SIGN_BIT;
    ShiftedMantissa(word, size - 3);
    ShiftByNone(word);
    SizeAndWord(c);
  }

  lemma ShiftByNone(n: nat)
    ensures Shr(n, 0) == Shl(n, 0)
  {
  }

  lemma SizeAndWord(c: uint32)
    requires c / 0x80_0000 % 2 == 0
    ensures c == c % SIGN_BIT + c / SIZE_UNIT % 256 * SIZE_UNIT
  {
  }

  /** For example the target 0x1903a30c. */
  lemma KnownTarget()
    ensures Decode(0x1903_a30c) == 0x3_a30c * Pow256(22) && Encode(0x3_a30c * Pow256(22)) == 0x1903_a30c
  {
    DecodeIs(0x1903_a30c);
    EncodeDecode(0x1903_a30c);
  }

  // ---------------------------------------------------------------- retargeting

  const NANO: int := 1_000_000_000

  type int32 = x: int | -0x8000_0000 <= x < 0x8000_0000

  datatype PowConfig = PowConfig(defaultTarget: uint32, adjustHeightGap: int32, expectedPeriod: int32,
                                 maxTarget: uint32)

  datatype PowBlock = PowBlock(preHash: BlockId, timestamp: int, targetBits: Option<uint32>)

  type PowChain = map<BlockId, PowBlock>

  /** Conversions to signed integers of 32 and 64 bits. */
  function Int32(x: int): int32 {
    var r := x % 0x1_0000_0000;
    if r < 0x8000_0000 then r else r - 0x1_0000_0000
  }

  function Int64(x: int): int {
    var r := x % 0x1_0000_0000_0000_0000;
    if r < 0x8000_0000_0000_0000 then r else r - 0x1_0000_0000_0000_0000
  }

  /** The number of blocks between two that are compared. */
  function Steps(c: PowConfig): int32 {
    Int32(c.adjustHeightGap - 1)
  }

  function ExpectedSpan(c: PowConfig): int32 {
    Int32(c.expectedPeriod * Steps(c))
  }

  /** The time between two blocks, in seconds. */
  function ActualSpan(far: int, near: int): int32 {
    Int32(Quo(Int64(near - far), NANO))
  }

  /** The actual span, pushed into the range from a quarter of the expected one to four times it. */
  function ClampedSpan(c: PowConfig, far: int, near: int): int32 {
    var actual, expected := ActualSpan(far, near), ExpectedSpan(c);
    var low: int32 := if actual < Quo(expected, 4) then Quo(expected, 4) else actual;
    if low > Int32(expected * 4) then Int32(expected * 4) else low
  }

  /** The span used lies in that range exactly if four times the expected span, as 32 bits hold it, is not
      below the quarter. */
  lemma SpanInRange(c: PowConfig, far: int, near: int)
    requires ExpectedSpan(c) > 0
    ensures var e, span := ExpectedSpan(c), ClampedSpan(c, far, near);
            e / 4 <= span <= 4 * e <==> Int32(4 * e) >= e / 4
  {
    hide ActualSpan, ExpectedSpan;
  }

  /** If nothing is lost, it is the actual span or the end of the range that this is beyond. */
  lemma SpanIsNearest(c: PowConfig, far: int, near: int)
    requires 0 < 4 * ExpectedSpan(c) < 0x8000_0000
    ensures var e, actual, span := ExpectedSpan(c), ActualSpan(far, near), ClampedSpan(c, far, near);
            && e / 4 <= span <= 4 * e
            && (actual < span ==> span == e / 4)
            && (actual > span ==> span == 4 * e)
  {
    hide ActualSpan, ExpectedSpan;
  }

  /** Where it is not, it is negative or shorter than a quarter, whatever the blocks say. */
  lemma SpanCanLeaveRange()
    ensures var c := PowConfig(0x207f_ffff, 2016, 300_000, 0x1d00_ffff);
            && ExpectedSpan(c) == 604_500_000
            && forall far, near :: ClampedSpan(c, far, near) < 0
  {
    var c := PowConfig(0x207f_ffff, 2016, 300_000, 0x1d00_ffff);
    assert Steps(c) == 2015 && c.expectedPeriod * Steps(c) == 604_500_000;
    assert Int32(604_500_000 * 4) == -1_876_967_296;
  }

  /** The expected span is the period times the number of blocks between the two, if that fits. */
  lemma ExpectedSpanIs(c: PowConfig)
    requires c.adjustHeightGap > -0x8000_0000
    requires -0x8000_0000 <= c.expectedPeriod * (c.adjustHeightGap - 1) < 0x8000_0000
    ensures ExpectedSpan(c) == c.expectedPeriod * (c.adjustHeightGap - 1)
  {
    assert Steps(c) == c.adjustHeightGap - 1;
  }

  /** The actual span is the number of whole seconds from the earlier block to the later one. */
  lemma ActualSpanIs(far: int, near: int)
    requires 0 <= near - far < 0x8000_0000 * 1_000_000_000
    ensures ActualSpan(far, near) * 1_000_000_000 <= near - far < (ActualSpan(far, near) + 1) * 1_000_000_000
  {
    assert Int64(near - far) == near - far;
  }

  /** The target value scaled by the time its blocks took, over the time expected. */
  ghost function Scaled(c: PowConfig, prev: uint32, span: int32): int
    requires ExpectedSpan(c) != 0
  {
    Decode(prev) * span / ExpectedSpan(c)
  }

  /** The target at an adjustment. */
  ghost function Adjusted(c: PowConfig, maxDifficulty: nat, prev: uint32, span: int32): uint32
    requires ExpectedSpan(c) != 0
  {
    var d := Scaled(c, prev, span);
    if d < maxDifficulty then c.maxTarget
    else if Size(d) > 256 then prev
    else Encode(d)
  }

  method Retarget(c: PowConfig, maxDifficulty: nat, prev: uint32, span: int32) returns (bits: uint32)
    requires ExpectedSpan(c) != 0
    ensures bits == Adjusted(c, maxDifficulty, prev, span)
  {
    var value, _, _ := SetCompact(prev);
    var difficulty := value * span / ExpectedSpan(c);
    if difficulty < maxDifficulty {
      return c.maxTarget;
    }
    var newTargetBits, ok := GetCompact(difficulty);
    if !ok {
      return prev;
    }
    return newTargetBits;
  }

  /** The block k steps above id. */
  ghost function Ancestor(chain: PowChain, id: BlockId, k: nat): (r: Option<BlockId>)
    ensures r.Some? ==> r.value in chain
    decreases k
  {
    if id !in chain then None
    else if k == 0 then Some(id)
    else Ancestor(chain, chain[id].preHash, k - 1)
  }

  /** A target, an error, or a division by zero. */
  datatype Refreshed = Bits(bits: uint32) | Failed | Panics

  /** The distance from the tip to the earlier of the two blocks that are compared. */
  function FarAway(c: PowConfig): nat {
    1 + if Steps(c) > 0 then Steps(c) else 0
  }

  /** The target of the block after tipHash: the default while there is not enough history, otherwise
      that of the block before the tip, adjusted by the time since its ancestor gap - 1 blocks before
      at every gap-th height. */
  method RefreshDifficulty(c: PowConfig, maxDifficulty: nat, chain: PowChain, tipHash: BlockId, nextHeight: int)
    returns (r: Refreshed)
    ensures var pre, far := Ancestor(chain, tipHash, 1), Ancestor(chain, tipHash, FarAway(c));
            r ==
            if nextHeight <= c.adjustHeightGap || pre.None? then Bits(c.defaultTarget)
            else if chain[pre.value].targetBits.None? then Failed
            else if c.adjustHeightGap == 0 then Panics
            else if nextHeight % c.adjustHeightGap != 0 then Bits(chain[pre.value].targetBits.value)
            else if far.None? then Bits(c.defaultTarget)
            else if ExpectedSpan(c) == 0 then Panics
            else Bits(Adjusted(c, maxDifficulty, chain[pre.value].targetBits.value,
                               ClampedSpan(c, chain[far.value].timestamp, chain[pre.value].timestamp)))
  {
    hide Int32, Int64, Quo, ClampedSpan, Adjusted, ExpectedSpan;
    if nextHeight <= c.adjustHeightGap {
      return Bits(c.defaultTarget);
    }
    if tipHash !in chain {
      return Bits(c.defaultTarget);
    }
    var preHash := chain[tipHash].preHash;
    if preHash !in chain {
      return Bits(c.defaultTarget);
    }
    if chain[preHash].targetBits.None? {
      return Failed;
    }
    var prevTargetBits := chain[preHash].targetBits.value;
    if c.adjustHeightGap == 0 {
      return Panics;
    }
    if nextHeight % c.adjustHeightGap != 0 {
      return Bits(prevTargetBits);
    }
    var farHash := preHash;
    for i := 0 to FarAway(c) - 1
      invariant farHash in chain
      invariant Ancestor(chain, tipHash, FarAway(c)) == Ancestor(chain, farHash, FarAway(c) - 1 - i)
    {
      if chain[farHash].preHash !in chain {
        return Bits(c.defaultTarget);
      }
      farHash := chain[farHash].preHash;
    }
    if ExpectedSpan(c) == 0 {
      return Panics;
    }
    var span := ClampedSpan(c, chain[farHash].timestamp, chain[preHash].timestamp);
    var bits := Retarget(c, maxDifficulty, prevTargetBits, span);
    return Bits(bits);
  }

  /** When the expected span is zero, so that adjustments divide by zero: with a gap of one block, no
      period, or a product that 32 bits lose. */
  lemma SpanIsZeroIff(c: PowConfig)
    ensures ExpectedSpan(c) == 0 <==> c.expectedPeriod * (c.adjustHeightGap - 1) % 0x1_0000_0000 == 0
    ensures c.adjustHeightGap == 1 || c.expectedPeriod == 0 ==> ExpectedSpan(c) == 0
  {
    hide Int32;
    var p, s := c.expectedPeriod, Steps(c);
    StepsAre(c);
    var k := if s == c.adjustHeightGap - 1 then 0 else 1;
    assert c.adjustHeightGap - 1 == s - k * 0x1_0000_0000;
    MultiplesAside(p * s, -p * k);
    calc {
      p * (c.adjustHeightGap - 1);
      p * (s - k * 0x1_0000_0000);
      p * s + (-p * k) * 0x1_0000_0000;
    }
    ZeroInInt32(p * s);
  }

  lemma StepsAre(c: PowConfig)
    ensures Steps(c) == c.adjustHeightGap - 1 || Steps(c) - 0x1_0000_0000 == c.adjustHeightGap - 1
  {
  }

  lemma MultiplesAside(x: int, k: int)
    ensures (x + k * 0x1_0000_0000) % 0x1_0000_0000 == x % 0x1_0000_0000
  {
  }

  lemma ZeroInInt32(x: int)
    ensures Int32(x) == 0 <==> x % 0x1_0000_0000 == 0
  {
  }

  /** The part of IsProofed that looks at the target alone. */
  ghost predicate Acceptable(maxDifficulty: nat, bits: uint32) {
    !Negative(bits) && !Overflows(bits) && Decode(bits) >= maxDifficulty
  }

  method IsProofed(maxDifficulty: nat, hash: nat, targetBits: uint32) returns (ok: bool)
    ensures ok <==> && !Negative(targetBits) && !Overflows(targetBits)
                    && maxDifficulty <= Decode(targetBits) && hash <= Decode(targetBits)
  {
    var d, negative, overflow := SetCompact(targetBits);
    if negative || overflow || d < maxDifficulty {
      return false;
    }
    if hash > d {
      return false;
    }
    return true;
  }

  /** After a target without overflow, and with a bound without flags, an adjusted target is acceptable
      exactly if the scaled value stays below 2 to the 255th; then it is the scaled value less low bytes,
      or the bound itself. */
  lemma AdjustedAcceptable(c: PowConfig, prev: uint32, span: int32)
    requires ExpectedSpan(c) != 0 && !Overflows(prev) && !Negative(c.maxTarget) && !Overflows(c.maxTarget)
    ensures var bound := Decode(c.maxTarget);
            var d, bits := Scaled(c, prev, span), Adjusted(c, bound, prev, span);
            && (Acceptable(bound, bits) <==> d < TwoTo255())
            && (d < TwoTo255() ==> Decode(bits) == if d < bound then bound else Trunc(d))
  {
    hide Decode, Encode, Trunc, Pow256, Negative, ExpectedSpan;
    var d, bound := Scaled(c, prev, span), Decode(c.maxTarget);
    UnflaggedTarget(prev);
    UnflaggedTarget(c.maxTarget);
    ScaledBound(Decode(prev), span, ExpectedSpan(c));
    if d >= bound {
      SizeOfScaled(d);
      CompactTargetFlagged(d);
      if d < TwoTo255() {
        CompactTarget(d);
        TruncMonotone(bound, d);
      }
    }
  }

  /** The more time the blocks took, the easier the next target: a later previous block gives no smaller
      target, while the scaled value stays below 2 to the 255th. */
  lemma LaterIsEasier(c: PowConfig, prev: uint32, far: int, near: int, later: int)
    requires 0 < 4 * ExpectedSpan(c) < 0x8000_0000
    requires !Overflows(prev) && !Negative(c.maxTarget) && !Overflows(c.maxTarget)
    requires far <= near <= later < far + 0x8000_0000 * 1_000_000_000
    requires Scaled(c, prev, ClampedSpan(c, far, later)) < TwoTo255()
    ensures var bound := Decode(c.maxTarget);
            && Decode(Adjusted(c, bound, prev, ClampedSpan(c, far, near)))
            <= Decode(Adjusted(c, bound, prev, ClampedSpan(c, far, later)))
  {
    hide Decode, Encode, Trunc, Pow256, Negative, Overflows, ExpectedSpan, Adjusted, TwoTo255;
    var bound, s, r := Decode(c.maxTarget), ClampedSpan(c, far, near), ClampedSpan(c, far, later);
    LaterIsLonger(c, far, near, later);
    ScaledMonotone(Decode(prev), s, r, ExpectedSpan(c));
    AdjustedAcceptable(c, prev, s);
    AdjustedAcceptable(c, prev, r);
    UnflaggedTarget(c.maxTarget);
    if Scaled(c, prev, s) >= bound {
      TruncMonotone(Scaled(c, prev, s), Scaled(c, prev, r));
    } else if Scaled(c, prev, r) >= bound {
      TruncMonotone(bound, Scaled(c, prev, r));
    }
  }

  lemma LaterIsLonger(c: PowConfig, far: int, near: int, later: int)
    requires 0 < 4 * ExpectedSpan(c) < 0x8000_0000
    requires far <= near <= later < far + 0x8000_0000 * 1_000_000_000
    ensures ClampedSpan(c, far, near) <= ClampedSpan(c, far, later)
  {
    hide ActualSpan, ExpectedSpan;
    ActualSpanIs(far, near);
    ActualSpanIs(far, later);
    assert ActualSpan(far, near) <= ActualSpan(far, later);
  }

  lemma ScaledMonotone(value: nat, s: int, r: int, e: int)
    requires s <= r && e > 0
    ensures value * s / e <= value * r / e
  {
    var x, y := value * s, value * r;
    assert x <= y by {
      assert value * (r - s) >= 0;
    }
    var p, q := x / e, y / e;
    assert x == p * e + x % e && y == q * e + y % e;
    assert p * e == q * e + (p - q - 1) * e + e;
    if p > q {
      TimesAtLeast(p - q - 1, e);
    }
  }

  /** Blocks that took the time expected, to the second, keep the target. */
  lemma OnTimeKeeps(c: PowConfig, prev: uint32, far: int, near: int)
    requires 0 < 4 * ExpectedSpan(c) < 0x8000_0000
    requires !Overflows(prev) && !Negative(c.maxTarget) && !Overflows(c.maxTarget)
    requires Decode(c.maxTarget) <= Decode(prev)
    requires ExpectedSpan(c) * 1_000_000_000 <= near - far < (ExpectedSpan(c) + 1) * 1_000_000_000
    ensures Decode(Adjusted(c, Decode(c.maxTarget), prev, ClampedSpan(c, far, near))) == Decode(prev)
  {
    hide Decode, Encode, Trunc, Pow256, Negative, Overflows, ExpectedSpan, Adjusted, TwoTo255, ActualSpan;
    var e := ExpectedSpan(c);
    ActualSpanIs(far, near);
    assert ClampedSpan(c, far, near) == e;
    UnflaggedTarget(prev);
    TimesOver(Decode(prev), e);
    AdjustedAcceptable(c, prev, e);
  }

  lemma TimesOver(value: nat, e: int)
    requires e > 0
    ensures value * e / e == value
  {
    var q, r := value * e / e, value * e % e;
    assert value * e == q * e + r;
    assert (value - q) * e == r && (value - q - 1) * e == r - e && (q - value - 1) * e == -r - e;
    if value > q {
      TimesAtLeast(value - q - 1, e);
    } else if value < q {
      TimesAtLeast(q - value - 1, e);
    }
  }

  /** The blocks from the one before the tip on, backwards, each a period after the one before it. */
  ghost predicate OnTime(c: PowConfig, chain: PowChain, tipHash: BlockId, ids: seq<BlockId>) {
    && tipHash in chain && |ids| == c.adjustHeightGap > 1 && chain[tipHash].preHash == ids[0]
    && (forall i | 0 <= i < |ids| :: ids[i] in chain)
    && (forall i | 0 <= i < |ids| - 1 :: chain[ids[i]].preHash == ids[i + 1])
    && forall i | 0 <= i < |ids| - 1 ::
         chain[ids[i]].timestamp - chain[ids[i + 1]].timestamp == c.expectedPeriod * 1_000_000_000
  }

  /** On a chain that keeps to its period the adjustment compares the previous block with the one that is
      expected to be so much older, and keeps the target. */
  lemma OnTimeChainKeeps(c: PowConfig, chain: PowChain, tipHash: BlockId, ids: seq<BlockId>, prev: uint32)
    requires OnTime(c, chain, tipHash, ids) && 0 < 4 * (c.expectedPeriod * (c.adjustHeightGap - 1)) < 0x8000_0000
    requires !Overflows(prev) && !Negative(c.maxTarget) && !Overflows(c.maxTarget)
    requires Decode(c.maxTarget) <= Decode(prev)
    ensures ExpectedSpan(c) > 0
    ensures var pre, far := Ancestor(chain, tipHash, 1), Ancestor(chain, tipHash, FarAway(c));
            && pre.Some? && far.Some?
            && Decode(Adjusted(c, Decode(c.maxTarget), prev,
                               ClampedSpan(c, chain[far.value].timestamp, chain[pre.value].timestamp))) == Decode(prev)
  {
    hide Decode, Negative, Overflows, Adjusted, ClampedSpan, Ancestor;
    var n := c.adjustHeightGap - 1;
    ExpectedSpanIs(c);
    assert FarAway(c) == 1 + n;
    Backwards(c, chain, tipHash, ids, 0);
    Backwards(c, chain, tipHash, ids, n);
    OnTimeKeeps(c, prev, chain[ids[n]].timestamp, chain[ids[0]].timestamp);
  }

  lemma {:induction false} Backwards(c: PowConfig, chain: PowChain, tipHash: BlockId, ids: seq<BlockId>, k: nat)
    requires OnTime(c, chain, tipHash, ids) && k < |ids|
    ensures Ancestor(chain, tipHash, k + 1) == Some(ids[k])
    ensures chain[ids[0]].timestamp - chain[ids[k]].timestamp == k * (c.expectedPeriod * 1_000_000_000)
  {
    AncestorStep(chain, tipHash, k);
    if k > 0 {
      Backwards(c, chain, tipHash, ids, k - 1);
      assert chain[ids[k - 1]].preHash == ids[k];
      assert k * (c.expectedPeriod * 1_000_000_000)
          == (k - 1) * (c.expectedPeriod * 1_000_000_000) + c.expectedPeriod * 1_000_000_000;
    } else {
      assert Ancestor(chain, tipHash, 0) == Some(tipHash);
    }
  }

  lemma {:induction false} AncestorStep(chain: PowChain, id: BlockId, k: nat)
    ensures var x := Ancestor(chain, id, k);
            Ancestor(chain, id, k + 1) == if x.Some? then Ancestor(chain, chain[x.value].preHash, 0) else None
    decreases k
  {
    if k > 0 && id in chain {
      AncestorStep(chain, chain[id].preHash, k - 1);
    }
  }

  lemma ScaledBound(value: nat, span: int32, expected: int32)
    requires expected != 0
    ensures value * span / expected <= 0x8000_0000 * value
  {
    var x := value * span;
    assert -0x8000_0000 * value <= x <= 0x8000_0000 * value;
    QuotientBound(x, expected);
  }

  lemma QuotientBound(x: int, e: int)
    requires e != 0
    ensures x / e <= if x < 0 then -x else x
  {
    var q, r, size := x / e, x % e, if e > 0 then e else -e;
    assert x == q * e + r && 0 <= r < size;
    if q > 0 {
      TimesAtLeast(q - 1, size);
      if e > 0 {
        assert q * e == (q - 1) * size + size;
      } else {
        assert q * e == -((q - 1) * size) - size;
      }
    }
  }

  lemma TimesAtLeast(a: nat, b: nat)
    requires b > 0
    ensures a * b >= a
  {
  }

  lemma SizeOfScaled(d: nat)
    requires d <= 0x8000_0000 * TwoTo255()
    ensures Size(d) <= 36
  {
    RoomyLenBound(d, 35);
    assert Pow256(35) == 256 * Pow256(34) == 0x1_0000 * Pow256(33) == 0x100_0000 * Pow256(32);
    assert Pow256(32) == 256 * Pow256(31);
  }
}
