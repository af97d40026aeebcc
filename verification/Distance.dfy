/** Kademlia ids, XOR distance and prefix length: `internal/dht/dht.go`. */
module Distance {

  const ID_BYTES := 20
  const ID_BITS := 160

  type NodeID = id: seq<bv8> | |id| == ID_BYTES witness seq(ID_BYTES, _ => 0)

  // ----- Bits

  function ByteBit(b: bv8, k: nat): bool
    requires k < 8
  {
    if k == 0 then b & 0x80 != 0 else if k == 1 then b & 0x40 != 0
    else if k == 2 then b & 0x20 != 0 else if k == 3 then b & 0x10 != 0
    else if k == 4 then b & 0x08 != 0 else if k == 5 then b & 0x04 != 0
    else if k == 6 then b & 0x02 != 0 else b & 0x01 != 0
  }

  /** Bit `p` of an id, most significant first. */
  function Bit(id: NodeID, p: nat): bool
    requires p < ID_BITS
  {
    ByteBit(id[p / 8], p % 8)
  }

  /** Do two ids agree on all bits below `p`? */
  ghost predicate AgreeBelow(a: NodeID, b: NodeID, p: nat)
    requires p <= ID_BITS
  {
    forall q: nat :: q < p ==> Bit(a, q) == Bit(b, q)
  }

  lemma ByteXor(a: bv8, b: bv8, k: nat)
    requires k < 8
    ensures ByteBit(a ^ b, k) <==> ByteBit(a, k) != ByteBit(b, k)
  {
    if k == 0 {
    } else if k == 1 {
    } else if k == 2 {
    } else if k == 3 {
    } else if k == 4 {
    } else if k == 5 {
    } else if k == 6 {
    } else {
    }
  }

  lemma ByteZero(b: bv8)
    ensures b == 0 <==> forall k: nat :: k < 8 ==> !ByteBit(b, k)
  {
    if forall k: nat :: k < 8 ==> !ByteBit(b, k) {
      assert !ByteBit(b, 0) && !ByteBit(b, 1) && !ByteBit(b, 2) && !ByteBit(b, 3);
      assert !ByteBit(b, 4) && !ByteBit(b, 5) && !ByteBit(b, 6) && !ByteBit(b, 7);
    }
  }

  /** Bytes compare as their first differing bit. */
  lemma ByteLess(a: bv8, b: bv8, k: nat)
    requires k < 8 && ByteBit(b, k) && !ByteBit(a, k)
    requires forall q: nat :: q < k ==> ByteBit(a, q) == ByteBit(b, q)
    ensures a < b
  {
    assert k > 0 ==> ByteBit(a, 0) == ByteBit(b, 0);
    assert k > 1 ==> ByteBit(a, 1) == ByteBit(b, 1);
    assert k > 2 ==> ByteBit(a, 2) == ByteBit(b, 2);
    assert k > 3 ==> ByteBit(a, 3) == ByteBit(b, 3);
    assert k > 4 ==> ByteBit(a, 4) == ByteBit(b, 4);
    assert k > 5 ==> ByteBit(a, 5) == ByteBit(b, 5);
    assert k > 6 ==> ByteBit(a, 6) == ByteBit(b, 6);
  }

  // ----- XOR

  function Xor(a: NodeID, b: NodeID): NodeID {
    seq(ID_BYTES, i requires 0 <= i < ID_BYTES => a[i] ^ b[i])
  }

  method XOR(a: NodeID, b: NodeID) returns (res: NodeID)
    ensures res == Xor(a, b)
  {
    var out := new bv8[ID_BYTES](_ => 0);
    for i := 0 to ID_BYTES
      invariant forall j :: 0 <= j < i ==> out[j] == a[j] ^ b[j]
    {
      out[i] := a[i] ^ b[i];
    }
    res := out[..];
  }

  lemma XorBit(a: NodeID, b: NodeID, p: nat)
    requires p < ID_BITS
    ensures Bit(Xor(a, b), p) <==> Bit(a, p) != Bit(b, p)
  {
    ByteXor(a[p / 8], b[p / 8], p % 8);
  }

  // ----- Prefix length

  /** The number of leading bits two ids share, counted bit by bit from `p`. */
  function SharedFrom(a: NodeID, b: NodeID, p: nat): nat
    requires p <= ID_BITS
    decreases ID_BITS - p
  {
    if p == ID_BITS || Bit(a, p) != Bit(b, p) then p else SharedFrom(a, b, p + 1)
  }

  function Prefix(a: NodeID, b: NodeID): nat {
    SharedFrom(a, b, 0)
  }

  /** The prefix length is where the first difference is, or 160. */
  ghost predicate IsPrefix(a: NodeID, b: NodeID, p: nat) {
    && p <= ID_BITS && AgreeBelow(a, b, p)
    && (p < ID_BITS ==> Bit(a, p) != Bit(b, p))
  }

  lemma {:induction false} SharedFromIs(a: NodeID, b: NodeID, p: nat)
    requires p <= ID_BITS && AgreeBelow(a, b, p)
    ensures IsPrefix(a, b, SharedFrom(a, b, p))
    decreases ID_BITS - p
  {
    if p < ID_BITS && Bit(a, p) == Bit(b, p) {
      SharedFromIs(a, b, p + 1);
    }
  }

  lemma PrefixUnique(a: NodeID, b: NodeID, p: nat)
    ensures IsPrefix(a, b, p) <==> p == Prefix(a, b)
  {
    SharedFromIs(a, b, 0);
    var q := Prefix(a, b);
    if IsPrefix(a, b, p) {
      assert !(p < q) by {
        assert p < ID_BITS ==> Bit(a, p) != Bit(b, p);
      }
      assert !(q < p) by {
        assert q < ID_BITS ==> Bit(a, q) != Bit(b, q);
      }
    }
  }

  /** The byte and bit loops of `PrefixLen`. */
  method PrefixLen(id: NodeID, target: NodeID) returns (p: nat)
    ensures p == Prefix(id, target)
  {
    var dist := XOR(id, target);
    for i := 0 to ID_BYTES
      invariant AgreeBelow(id, target, 8 * i)
    {
      var b := dist[i];
      if b != 0 {
        ByteZero(b);
        var bit := 7;
        while bit >= 0
          invariant -1 <= bit <= 7
          invariant forall k: nat :: k < 7 - bit ==> !ByteBit(b, k)
        {
          if b & (1 << bit) != 0 {
            assert ByteBit(b, 7 - bit);
            p := i * 8 + (7 - bit);
            FoundBit(id, target, i, 7 - bit);
            return;
          }
          assert !ByteBit(b, 7 - bit);
          bit := bit - 1;
        }
        assert false;
      }
      EqualByte(id, target, i);
    }
    PrefixUnique(id, target, ID_BITS);
    return ID_BYTES * 8;
  }

  lemma FoundBit(a: NodeID, b: NodeID, i: nat, k: nat)
    requires i < ID_BYTES && k < 8 && AgreeBelow(a, b, 8 * i)
    requires ByteBit(Xor(a, b)[i], k) && forall q: nat :: q < k ==> !ByteBit(Xor(a, b)[i], q)
    ensures Prefix(a, b) == i * 8 + k
  {
    var p := i * 8 + k;
    forall q: nat | q < p ensures Bit(a, q) == Bit(b, q) {
      if q >= 8 * i {
        assert q / 8 == i;
        XorBit(a, b, q);
      }
    }
    assert p / 8 == i && p % 8 == k;
    XorBit(a, b, p);
    PrefixUnique(a, b, p);
  }

  lemma EqualByte(a: NodeID, b: NodeID, i: nat)
    requires i < ID_BYTES && AgreeBelow(a, b, 8 * i) && Xor(a, b)[i] == 0
    ensures AgreeBelow(a, b, 8 * (i + 1))
  {
    forall q: nat | q < 8 * (i + 1) ensures Bit(a, q) == Bit(b, q) {
      if q >= 8 * i {
        assert q / 8 == i;
        XorBit(a, b, q);
      }
    }
  }

  // ----- Distance as a number

  function Pow2(n: nat): nat {
    if n == 0 then 1 else 2 * Pow2(n - 1)
  }

  /** The first `n` bits of an id, read as a big-endian number. */
  function Value(id: NodeID, n: nat): nat
    requires n <= ID_BITS
  {
    if n == 0 then 0 else 2 * Value(id, n - 1) + if Bit(id, n - 1) then 1 else 0
  }

  function Dist(a: NodeID, b: NodeID): nat {
    Value(Xor(a, b), ID_BITS)
  }

  lemma {:induction false} Pow2Monotone(m: nat, n: nat)
    requires m <= n
    ensures Pow2(m) <= Pow2(n)
  {
    if m < n {
      Pow2Monotone(m, n - 1);
    }
  }

  lemma {:induction false} ValueAgree(a: NodeID, b: NodeID, n: nat)
    requires n <= ID_BITS && AgreeBelow(a, b, n)
    ensures Value(a, n) == Value(b, n)
  {
    if n > 0 {
      ValueAgree(a, b, n - 1);
    }
  }

  lemma {:induction false} ValueLess(a: NodeID, b: NodeID, p: nat, n: nat)
    requires p < n <= ID_BITS && AgreeBelow(a, b, p) && !Bit(a, p) && Bit(b, p)
    ensures Value(a, n) < Value(b, n)
  {
    if n == p + 1 {
      ValueAgree(a, b, p);
    } else {
      ValueLess(a, b, p, n - 1);
    }
  }

  /** A number whose leading one is bit `p` lies between two powers of two. */
  lemma {:induction false} ValueRange(x: NodeID, p: nat, n: nat)
    requires p < n <= ID_BITS && Bit(x, p) && forall q: nat :: q < p ==> !Bit(x, q)
    ensures Pow2(n - p - 1) <= Value(x, n) < Pow2(n - p)
  {
    if n == p + 1 {
      ValueZero(x, p);
    } else {
      ValueRange(x, p, n - 1);
    }
  }

  lemma {:induction false} ValueZero(x: NodeID, n: nat)
    requires n <= ID_BITS && forall q: nat :: q < n ==> !Bit(x, q)
    ensures Value(x, n) == 0
  {
    if n > 0 {
      ValueZero(x, n - 1);
    }
  }

  lemma EqualBytes(a: NodeID, b: NodeID, i: nat)
    requires i < ID_BYTES && AgreeBelow(a, b, 8 * (i + 1))
    ensures a[i] == b[i]
  {
    var z := a[i] ^ b[i];
    forall k: nat | k < 8 ensures !ByteBit(z, k) {
      assert Bit(a, 8 * i + k) == Bit(b, 8 * i + k);
      assert (8 * i + k) / 8 == i && (8 * i + k) % 8 == k;
      ByteXor(a[i], b[i], k);
    }
    ByteZero(z);
    XorZero(a[i], b[i]);
  }

  lemma SameBits(a: NodeID, b: NodeID)
    requires AgreeBelow(a, b, ID_BITS)
    ensures a == b
  {
    forall i | 0 <= i < ID_BYTES ensures a[i] == b[i] {
      EqualBytes(a, b, i);
    }
  }

  lemma XorZero(a: bv8, b: bv8)
    requires a ^ b == 0
    ensures a == b
  {
  }

  /** Where the prefix ends, the distance has its leading one. */
  lemma DistRange(a: NodeID, b: NodeID)
    ensures var p := Prefix(a, b);
      if p < ID_BITS then Pow2(ID_BITS - 1 - p) <= Dist(a, b) < Pow2(ID_BITS - p)
      else Dist(a, b) == 0 && a == b
  {
    var p := Prefix(a, b);
    PrefixUnique(a, b, p);
    var x := Xor(a, b);
    forall q: nat | q < p ensures !Bit(x, q) {
      XorBit(a, b, q);
    }
    if p < ID_BITS {
      XorBit(a, b, p);
      ValueRange(x, p, ID_BITS);
    } else {
      ValueZero(x, ID_BITS);
      SameBits(a, b);
    }
  }

  /** Prefix length is the binary logarithm of the distance: it is `p` exactly when the distance
      lies in [2^(159-p), 2^(160-p)). */
  lemma PrefixIffRange(a: NodeID, b: NodeID, p: nat)
    requires p < 160
    ensures Prefix(a, b) == p <==> Pow2(159 - p) <= Dist(a, b) < Pow2(160 - p)
  {
    DistRange(a, b);
    var q := Prefix(a, b);
    if q < p {
      Pow2Monotone(ID_BITS - p, ID_BITS - 1 - q);
    } else if p < q < ID_BITS {
      Pow2Monotone(ID_BITS - q, ID_BITS - 1 - p);
    } else if q >= ID_BITS {
      Pow2Monotone(0, ID_BITS - 1 - p);
    }
  }

  // ----- bytes.Compare

  /** `bytes.Compare(a[i:], b[i:]) < 0`. */
  predicate BytesLess(a: NodeID, b: NodeID, i: nat)
    requires i <= ID_BYTES
    decreases ID_BYTES - i
  {
    i < ID_BYTES && (a[i] < b[i] || (a[i] == b[i] && BytesLess(a, b, i + 1)))
  }

  lemma {:induction false} BytesLessSkips(a: NodeID, b: NodeID, i: nat, j: nat)
    requires i <= j <= ID_BYTES && forall k :: i <= k < j ==> a[k] == b[k]
    ensures BytesLess(a, b, i) == BytesLess(a, b, j)
    decreases j - i
  {
    if i < j {
      BytesLessSkips(a, b, i + 1, j);
    }
  }

  /** Comparing bytes decides at the first differing bit. */
  lemma LessAtBit(a: NodeID, b: NodeID, p: nat)
    requires p < ID_BITS && AgreeBelow(a, b, p) && !Bit(a, p) && Bit(b, p)
    ensures BytesLess(a, b, 0) && !BytesLess(b, a, 0)
  {
    var i, k := p / 8, p % 8;
    forall j | 0 <= j < i ensures a[j] == b[j] {
      EqualBytes(a, b, j);
    }
    BytesLessSkips(a, b, 0, i);
    BytesLessSkips(b, a, 0, i);
    forall q: nat | q < k ensures ByteBit(a[i], q) == ByteBit(b[i], q) {
      assert Bit(a, 8 * i + q) == Bit(b, 8 * i + q);
      assert (8 * i + q) / 8 == i && (8 * i + q) % 8 == q;
    }
    ByteLess(a[i], b[i], k);
  }

  /** `bytes.Compare` on ids is the comparison of the numbers they stand for. */
  lemma BytesLessIsNumeric(a: NodeID, b: NodeID)
    ensures BytesLess(a, b, 0) <==> Value(a, ID_BITS) < Value(b, ID_BITS)
    ensures Value(a, ID_BITS) == Value(b, ID_BITS) ==> a == b
  {
    var p := Prefix(a, b);
    PrefixUnique(a, b, p);
    if p == ID_BITS {
      SameBits(a, b);
      BytesLessSkips(a, b, 0, ID_BYTES);
    } else if Bit(b, p) {
      LessAtBit(a, b, p);
      ValueLess(a, b, p, ID_BITS);
    } else {
      LessAtBit(b, a, p);
      ValueLess(b, a, p, ID_BITS);
    }
  }

  /** A contact with a longer shared prefix is strictly closer. */
  lemma LongerPrefixIsCloser(local: NodeID, near: NodeID, far: NodeID)
    requires Prefix(local, near) > Prefix(local, far)
    ensures Dist(local, near) < Dist(local, far)
    ensures BytesLess(Xor(near, local), Xor(far, local), 0)
  {
    DistRange(local, near);
    DistRange(local, far);
    var p, q := Prefix(local, near), Prefix(local, far);
    if p < ID_BITS {
      Pow2Monotone(ID_BITS - p, ID_BITS - 1 - q);
    } else {
      Pow2Monotone(0, ID_BITS - 1 - q);
    }
    XorSymmetric(local, near);
    XorSymmetric(local, far);
    BytesLessIsNumeric(Xor(near, local), Xor(far, local));
  }

  lemma XorSymmetric(a: NodeID, b: NodeID)
    ensures Xor(a, b) == Xor(b, a)
  {
    forall i | 0 <= i < ID_BYTES ensures a[i] ^ b[i] == b[i] ^ a[i] {
      ByteXorSymmetric(a[i], b[i]);
    }
  }

  lemma ByteXorSymmetric(a: bv8, b: bv8)
    ensures a ^ b == b ^ a
  {
  }

  // ----- Metric laws

  lemma {:induction false} ValueOfXor(x: NodeID, y: NodeID, n: nat)
    requires n <= ID_BITS
    ensures Value(Xor(x, y), n) <= Value(x, n) + Value(y, n)
  {
    if n > 0 {
      ValueOfXor(x, y, n - 1);
      XorBit(x, y, n - 1);
    }
  }

  lemma XorChain(a: NodeID, b: NodeID, c: NodeID)
    ensures Xor(Xor(a, b), Xor(b, c)) == Xor(a, c)
  {
    forall i | 0 <= i < ID_BYTES ensures (a[i] ^ b[i]) ^ (b[i] ^ c[i]) == a[i] ^ c[i] {
      ByteXorChain(a[i], b[i], c[i]);
    }
  }

  lemma ByteXorChain(a: bv8, b: bv8, c: bv8)
    ensures (a ^ b) ^ (b ^ c) == a ^ c
  {
  }

  /** The XOR distance is a metric. */
  lemma DistIsMetric(a: NodeID, b: NodeID, c: NodeID)
    ensures Dist(a, b) == 0 <==> a == b
    ensures Dist(a, b) == Dist(b, a)
    ensures Dist(a, c) <= Dist(a, b) + Dist(b, c)
  {
    DistRange(a, b);
    if Prefix(a, b) < ID_BITS {
      Pow2Monotone(0, ID_BITS - 1 - Prefix(a, b));
      PrefixUnique(a, b, Prefix(a, b));
    }
    XorSymmetric(a, b);
    XorChain(a, b, c);
    ValueOfXor(Xor(a, b), Xor(b, c), ID_BITS);
  }

  /** Shared prefixes are an ultrametric. */
  lemma PrefixUltrametric(a: NodeID, b: NodeID, c: NodeID)
    ensures var p, q, r := Prefix(a, b), Prefix(b, c), Prefix(a, c);
      r >= (if p < q then p else q) && (p != q ==> r == if p < q then p else q)
  {
    var p, q, r := Prefix(a, b), Prefix(b, c), Prefix(a, c);
    PrefixUnique(a, b, p);
    PrefixUnique(b, c, q);
    PrefixUnique(a, c, r);
  }

  lemma XorCancel(a: NodeID, b: NodeID, t: NodeID)
    requires Xor(a, t) == Xor(b, t)
    ensures a == b
  {
    forall p: nat | p < ID_BITS ensures Bit(a, p) == Bit(b, p) {
      XorBit(a, t, p);
      XorBit(b, t, p);
    }
    SameBits(a, b);
  }

  /** Two different ids are never equally far from a target. */
  lemma DistInjective(target: NodeID, a: NodeID, b: NodeID)
    requires Dist(a, target) == Dist(b, target)
    ensures a == b
  {
    BytesLessIsNumeric(Xor(a, target), Xor(b, target));
    XorCancel(a, b, target);
  }
}
