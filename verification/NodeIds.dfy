/** 160-bit node identifiers: bits, the XOR distance and its order. */
module NodeIds {
  import opened Seqs

  const ID_LEN: nat := 20
  const ID_BITS: nat := 160

  type NodeId = id: seq<bv8> | |id| == ID_LEN witness seq(ID_LEN, _ => 0)

  const ZERO_ID: NodeId := [0, 0, 0, 0, 0, 0, 0, 0, 0, 0, 0, 0, 0, 0, 0, 0, 0, 0, 0, 0]

  function Mask(i: nat): bv8
    requires i < 8
  {
    (0x80 as bv8) >> i
  }

  function ByteBit(x: bv8, i: nat): bool
    requires i < 8
  {
    x & Mask(i) != 0
  }

  function BitValue(id: NodeId, bit: nat): bool
    requires bit < ID_BITS
  {
    ByteBit(id[bit / 8], bit % 8)
  }

  function WithBit(x: bv8, i: nat, value: bool): bv8
    requires i < 8
  {
    if value then x | Mask(i) else x & !Mask(i)
  }

  function SetBit(id: NodeId, bit: nat, value: bool): NodeId
    requires bit < ID_BITS
  {
    id[bit / 8 := WithBit(id[bit / 8], bit % 8, value)]
  }

  lemma MaskCases(i: nat)
    requires i < 8
    ensures Mask(i) == if i == 0 then 0x80 else if i == 1 then 0x40 else if i == 2 then 0x20 else if i == 3 then 0x10
                       else if i == 4 then 8 else if i == 5 then 4 else if i == 6 then 2 else 1
  {
    if i == 0 {} else if i == 1 {} else if i == 2 {} else if i == 3 {}
    else if i == 4 {} else if i == 5 {} else if i == 6 {} else {}
  }

  lemma MasksDisjoint(i: nat, j: nat)
    requires i < 8 && j < 8
    ensures Mask(i) != 0
    ensures Mask(i) & Mask(j) == if i == j then Mask(i) else 0
  {
    MaskCases(i);
    MaskCases(j);
  }

  lemma SameMask(x: bv8, m: bv8)
    requires m != 0
    ensures (x | m) & m != 0 && (x & !m) & m == 0
  {
  }

  lemma OrOther(x: bv8, m: bv8, n: bv8)
    requires m & n == 0
    ensures (x | m) & n == x & n
  {
  }

  lemma AndNotOther(x: bv8, m: bv8, n: bv8)
    requires m & n == 0
    ensures (x & !m) & n == x & n
  {
  }

  lemma ByteSetBit(x: bv8, i: nat, j: nat)
    requires i < 8 && j < 8
    ensures ByteBit(x | Mask(i), j) == (i == j || ByteBit(x, j))
    ensures ByteBit(x & !Mask(i), j) == (i != j && ByteBit(x, j))
  {
    MasksDisjoint(i, j);
    hide Mask;
    if i == j {
      SameMask(x, Mask(i));
    } else {
      OrOther(x, Mask(i), Mask(j));
      AndNotOther(x, Mask(i), Mask(j));
    }
  }

  lemma ByteExtensional(x: bv8, y: bv8)
    requires forall i: nat | i < 8 :: ByteBit(x, i) == ByteBit(y, i)
    ensures x == y
  {
    forall i: nat | i < 8
      ensures (x & Mask(i) != 0) == (y & Mask(i) != 0)
    {
      assert ByteBit(x, i) == ByteBit(y, i);
    }
    MaskCases(0); MaskCases(1); MaskCases(2); MaskCases(3);
    MaskCases(4); MaskCases(5); MaskCases(6); MaskCases(7);
    assert (x & 0x80 != 0) == (y & 0x80 != 0);
    assert (x & 0x40 != 0) == (y & 0x40 != 0);
    assert (x & 0x20 != 0) == (y & 0x20 != 0);
    assert (x & 0x10 != 0) == (y & 0x10 != 0);
    assert (x & 8 != 0) == (y & 8 != 0);
    assert (x & 4 != 0) == (y & 4 != 0);
    assert (x & 2 != 0) == (y & 2 != 0);
    assert (x & 1 != 0) == (y & 1 != 0);
  }

  lemma SetBitValue(id: NodeId, bit: nat, other: nat, value: bool)
    requires bit < ID_BITS && other < ID_BITS
    ensures BitValue(SetBit(id, bit, value), other) == (if other == bit then value else BitValue(id, other))
  {
    hide WithBit, ByteBit;
    if bit / 8 == other / 8 {
      WithBitBit(id[bit / 8], bit % 8, other % 8, value);
    }
  }

  lemma WithBitBit(x: bv8, i: nat, j: nat, value: bool)
    requires i < 8 && j < 8
    ensures ByteBit(WithBit(x, i, value), j) == if i == j then value else ByteBit(x, j)
  {
    hide Mask, ByteBit;
    ByteSetBit(x, i, j);
  }

  lemma IdExtensional(a: NodeId, b: NodeId)
    requires forall bit: nat | bit < ID_BITS :: BitValue(a, bit) == BitValue(b, bit)
    ensures a == b
  {
    forall k: nat | k < ID_LEN
      ensures a[k] == b[k]
    {
      forall i: nat | i < 8
        ensures ByteBit(a[k], i) == ByteBit(b[k], i)
      {
        assert BitValue(a, 8 * k + i) == BitValue(b, 8 * k + i);
      }
      ByteExtensional(a[k], b[k]);
    }
  }

  // ---------------------------------------------------------------- prefixes

  /** The first len bits of id are those of prefix. */
  predicate SharesPrefix(prefix: NodeId, len: nat, id: NodeId)
    requires len <= ID_BITS
  {
    forall bit: nat | bit < len :: BitValue(prefix, bit) == BitValue(id, bit)
  }

  function Pow2(n: nat): nat
  {
    if n == 0 then 1 else 2 * Pow2(n - 1)
  }

  /** At most 2^(160 - len) identifiers share len bits with a prefix. */
  lemma {:induction false} PrefixCapacity(ids: set<NodeId>, prefix: NodeId, len: nat)
    requires len <= ID_BITS
    requires forall id | id in ids :: SharesPrefix(prefix, len, id)
    ensures |ids| <= Pow2(ID_BITS - len)
    decreases ID_BITS - len
  {
    if len == ID_BITS {
      forall id | id in ids ensures id in {prefix} {
        IdExtensional(prefix, id);
      }
      SubsetSize(ids, {prefix});
    } else {
      var ones := set id | id in ids && BitValue(id, len);
      var zeros := set id | id in ids && !BitValue(id, len);
      assert ids == ones + zeros && ones !! zeros;
      var high, low := SetBit(prefix, len, true), SetBit(prefix, len, false);
      forall bit: nat | bit <= len
        ensures BitValue(high, bit) == (bit == len || BitValue(prefix, bit))
        ensures BitValue(low, bit) == (bit != len && BitValue(prefix, bit))
      {
        SetBitValue(prefix, len, bit, true);
        SetBitValue(prefix, len, bit, false);
      }
      PrefixCapacity(ones, high, len + 1);
      PrefixCapacity(zeros, low, len + 1);
    }
  }

  // ---------------------------------------------------------------- distance

  function Distance(a: NodeId, b: NodeId): NodeId
  {
    seq(ID_LEN, i requires 0 <= i < ID_LEN => a[i] ^ b[i])
  }

  /** types.rs fills the distance byte by byte. */
  method NodeIdDistance(a: NodeId, b: NodeId) returns (dist: NodeId)
    ensures dist == Distance(a, b)
  {
    dist := ZERO_ID;
    for i := 0 to ID_LEN
      invariant dist[..i] == Distance(a, b)[..i]
    {
      dist := dist[i := a[i] ^ b[i]];
    }
  }

  lemma XorMask(x: bv8, y: bv8, m: bv8)
    requires m == 0x80 || m == 0x40 || m == 0x20 || m == 0x10 || m == 8 || m == 4 || m == 2 || m == 1
    ensures ((x ^ y) & m != 0) == ((x & m != 0) != (y & m != 0))
  {
  }

  lemma XorBit(x: bv8, y: bv8, i: nat)
    requires i < 8
    ensures ByteBit(x ^ y, i) == (ByteBit(x, i) != ByteBit(y, i))
  {
    MaskCases(i);
    XorMask(x, y, Mask(i));
  }

  lemma DistanceBit(a: NodeId, b: NodeId, bit: nat)
    requires bit < ID_BITS
    ensures BitValue(Distance(a, b), bit) == (BitValue(a, bit) != BitValue(b, bit))
  {
    XorBit(a[bit / 8], b[bit / 8], bit % 8);
  }

  /** Two different ids are never equally far from a target. */
  lemma DistanceInjective(a: NodeId, b: NodeId, target: NodeId)
    requires Distance(a, target) == Distance(b, target)
    ensures a == b
  {
    forall bit: nat | bit < ID_BITS
      ensures BitValue(a, bit) == BitValue(b, bit)
    {
      DistanceBit(a, target, bit);
      DistanceBit(b, target, bit);
    }
    IdExtensional(a, b);
  }

  /** The order sort_by_key uses on distances: byte arrays compare lexicographically. */
  predicate LexLess(x: seq<bv8>, y: seq<bv8>)
  {
    |y| > 0 && (|x| == 0 || x[0] < y[0] || (x[0] == y[0] && LexLess(x[1..], y[1..])))
  }

  lemma {:induction false} LexTotal(x: seq<bv8>, y: seq<bv8>)
    requires |x| == |y|
    ensures LexLess(x, y) || LexLess(y, x) || x == y
    ensures !(LexLess(x, y) && LexLess(y, x))
  {
    if |x| > 0 {
      LexTotal(x[1..], y[1..]);
      assert x == [x[0]] + x[1..] && y == [y[0]] + y[1..];
    }
  }

  lemma {:induction false} LexTransitive(x: seq<bv8>, y: seq<bv8>, z: seq<bv8>)
    requires |x| == |y| == |z| && LexLess(x, y) && LexLess(y, z)
    ensures LexLess(x, z)
  {
    if |x| > 0 && x[0] == y[0] && y[0] == z[0] {
      LexTransitive(x[1..], y[1..], z[1..]);
    }
  }

  function Pow256(n: nat): nat
  {
    if n == 0 then 1 else 256 * Pow256(n - 1)
  }

  /** Bytes as unsigned numbers. */
  function Digits(x: seq<bv8>): seq<nat>
  {
    if |x| == 0 then [] else [x[0] as nat] + Digits(x[1..])
  }

  /** The number that big-endian base-256 digits write. */
  function Value(x: seq<nat>): nat
  {
    if |x| == 0 then 0 else x[0] * Pow256(|x| - 1) + Value(x[1..])
  }

  predicate Base256(x: seq<nat>)
  {
    forall i | 0 <= i < |x| :: x[i] < 256
  }

  predicate DigitsLess(x: seq<nat>, y: seq<nat>)
  {
    |y| > 0 && (|x| == 0 || x[0] < y[0] || (x[0] == y[0] && DigitsLess(x[1..], y[1..])))
  }

  lemma {:induction false} DigitsOfBytes(x: seq<bv8>)
    ensures |Digits(x)| == |x| && Base256(Digits(x))
  {
    if |x| > 0 {
      DigitsOfBytes(x[1..]);
    }
  }

  lemma DigitsFirst(x: seq<bv8>)
    requires |x| > 0
    ensures |Digits(x)| > 0 && Digits(x)[0] == x[0] as nat && Digits(x)[1..] == Digits(x[1..])
  {
  }

  lemma {:induction false} DigitsOrder(x: seq<bv8>, y: seq<bv8>)
    ensures LexLess(x, y) == DigitsLess(Digits(x), Digits(y))
  {
    if |x| > 0 && |y| > 0 {
      DigitsOrder(x[1..], y[1..]);
      DigitsFirst(x);
      DigitsFirst(y);
      hide Digits;
      ByteOrder(x[0], y[0]);
    }
  }

  lemma {:induction false} DigitsInjective(x: seq<bv8>, y: seq<bv8>)
    requires Digits(x) == Digits(y)
    ensures x == y
  {
    if |x| > 0 && |y| > 0 {
      DigitsFirst(x);
      DigitsFirst(y);
      DigitsInjective(x[1..], y[1..]);
      ByteOrder(x[0], y[0]);
      assert x == [x[0]] + x[1..] && y == [y[0]] + y[1..];
    }
  }

  lemma {:induction false} ValueBound(x: seq<nat>)
    requires Base256(x)
    ensures Value(x) < Pow256(|x|)
  {
    if |x| > 0 {
      ValueBound(x[1..]);
      MulMonotone(x[0], 255, Pow256(|x| - 1));
    }
  }

  lemma MulMonotone(a: nat, b: nat, n: nat)
    requires a <= b
    ensures a * n <= b * n
  {
  }

  lemma ByteOrder(x: bv8, y: bv8)
    ensures x < y <==> (x as nat) < (y as nat)
    ensures x == y <==> (x as nat) == (y as nat)
  {
  }

  lemma LeadingDigitDecides(a: nat, b: nat, n: nat, u: nat, v: nat)
    requires u < n && v < n
    ensures a < b ==> a * n + u < b * n + v
    ensures b < a ==> b * n + v < a * n + u
  {
    if a < b {
      MulMonotone(a + 1, b, n);
    } else if b < a {
      MulMonotone(b + 1, a, n);
    }
  }

  lemma {:induction false} DigitsLessIsNumeric(x: seq<nat>, y: seq<nat>)
    requires |x| == |y| && Base256(x) && Base256(y)
    ensures DigitsLess(x, y) <==> Value(x) < Value(y)
    ensures Value(x) == Value(y) ==> x == y
  {
    if |x| > 0 {
      DigitsLessIsNumeric(x[1..], y[1..]);
      ValueBound(x[1..]);
      ValueBound(y[1..]);
      LeadingDigitDecides(x[0], y[0], Pow256(|x| - 1), Value(x[1..]), Value(y[1..]));
      assert x == [x[0]] + x[1..] && y == [y[0]] + y[1..];
    }
  }

  /** Byte-lexicographic order on distances is the order of the numbers they write. */
  lemma LexIsNumeric(x: NodeId, y: NodeId)
    ensures LexLess(x, y) <==> Value(Digits(x)) < Value(Digits(y))
    ensures Value(Digits(x)) == Value(Digits(y)) ==> x == y
  {
    DigitsOrder(x, y);
    DigitsOfBytes(x);
    DigitsOfBytes(y);
    DigitsLessIsNumeric(Digits(x), Digits(y));
    if Value(Digits(x)) == Value(Digits(y)) {
      DigitsInjective(x, y);
    }
  }

  lemma {:induction false} LexLessAt(x: seq<bv8>, y: seq<bv8>, k: nat)
    requires |x| == |y| && k < |x|
    requires x[..k] == y[..k] && x[k] < y[k]
    ensures LexLess(x, y)
  {
    if k > 0 {
      assert x[0] == x[..k][0] == y[..k][0] == y[0];
      assert x[1..][..k - 1] == x[..k][1..] == y[..k][1..] == y[1..][..k - 1];
      LexLessAt(x[1..], y[1..], k - 1);
    }
  }

  /** The order is decided at the first bit where two bytes differ. */
  lemma ByteLess(x: bv8, y: bv8, i: nat)
    requires i < 8
    requires forall k: nat | k < i :: ByteBit(x, k) == ByteBit(y, k)
    requires !ByteBit(x, i) && ByteBit(y, i)
    ensures x < y
  {
    forall k: nat | k < i
      ensures (x & Mask(k) != 0) == (y & Mask(k) != 0)
    {
      assert ByteBit(x, k) == ByteBit(y, k);
    }
    MaskCases(0); MaskCases(1); MaskCases(2); MaskCases(3);
    MaskCases(4); MaskCases(5); MaskCases(6); MaskCases(7);
    if i == 0 {} else if i == 1 {} else if i == 2 {} else if i == 3 {}
    else if i == 4 {} else if i == 5 {} else if i == 6 {} else {}
  }

  /** ... and so for whole ids. */
  lemma FirstBitDecides(x: NodeId, y: NodeId, q: nat)
    requires q < ID_BITS
    requires forall bit: nat | bit < q :: BitValue(x, bit) == BitValue(y, bit)
    requires !BitValue(x, q) && BitValue(y, q)
    ensures LexLess(x, y)
  {
    hide BitValue, ByteBit, LexLess;
    var j := q / 8;
    forall k: nat | k < j
      ensures x[k] == y[k]
    {
      SameByte(x, y, q, k);
    }
    BitOfByte(x, j, q % 8);
    BitOfByte(y, j, q % 8);
    forall i: nat | i < q % 8
      ensures ByteBit(x[j], i) == ByteBit(y[j], i)
    {
      BitOfByte(x, j, i);
      BitOfByte(y, j, i);
    }
    ByteLess(x[j], y[j], q % 8);
    LexLessAt(x, y, j);
  }

  lemma BitOfByte(x: NodeId, k: nat, i: nat)
    requires k < 20 && i < 8
    ensures BitValue(x, 8 * k + i) == ByteBit(x[k], i)
  {
  }

  lemma SameByte(x: NodeId, y: NodeId, q: nat, k: nat)
    requires q < ID_BITS && k < q / 8
    requires forall bit: nat | bit < q :: BitValue(x, bit) == BitValue(y, bit)
    ensures x[k] == y[k]
  {
    hide BitValue, ByteBit;
    forall i: nat | i < 8
      ensures ByteBit(x[k], i) == ByteBit(y[k], i)
    {
      BitOfByte(x, k, i);
      BitOfByte(y, k, i);
    }
    ByteExtensional(x[k], y[k]);
  }

  lemma {:induction false} FirstDifference(prefix: NodeId, len: nat, id: NodeId) returns (q: nat)
    requires len <= ID_BITS
    requires !SharesPrefix(prefix, len, id)
    ensures q < len && SharesPrefix(prefix, q, id) && BitValue(prefix, q) != BitValue(id, q)
  {
    if SharesPrefix(prefix, len - 1, id) {
      q := len - 1;
    } else {
      q := FirstDifference(prefix, len - 1, id);
    }
  }

  /** An id inside the target's prefix is strictly closer than any id outside it. */
  lemma PrefixLocality(prefix: NodeId, len: nat, target: NodeId, inside: NodeId, outside: NodeId)
    requires len <= ID_BITS
    requires SharesPrefix(prefix, len, target) && SharesPrefix(prefix, len, inside)
    requires !SharesPrefix(prefix, len, outside)
    ensures LexLess(Distance(inside, target), Distance(outside, target))
  {
    var q := FirstDifference(prefix, len, outside);
    forall bit: nat | bit <= q
      ensures BitValue(Distance(inside, target), bit) == false
      ensures BitValue(Distance(outside, target), bit) == (bit == q)
    {
      DistanceBit(inside, target, bit);
      DistanceBit(outside, target, bit);
      assert BitValue(prefix, bit) == BitValue(target, bit) == BitValue(inside, bit);
    }
    FirstBitDecides(Distance(inside, target), Distance(outside, target), q);
  }
}
