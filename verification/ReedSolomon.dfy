/** A Reed-Solomon code for up to eight shards: the library interface of `Erasure` has a model, in
    particular at four data and four parity shards.

    A byte is a pair of elements of GF(16), and `Twice` multiplies both by the generator 2. A column of
    the data shards lists the values at points 0, 1, ... of a polynomial with `k` coefficients; shard `i`
    holds its value at point `i`, which stands for the field element 2^i. So multiplying by a point is a
    shift, and, since 2^d + 1 is again a power of 2, so is multiplying by a difference of points. */
module ReedSolomon {
  import opened Base
  import opened Erasure
  import opened Polynomials

  const POINTS := 8

  /** Addition and multiplication by 2, where 2^4 = 2 + 1. */
  datatype Doubling<!F(!new)> = Doubling(zero: F, plus: (F, F) -> F, twice: F -> F, half: F -> F)
  {
    ghost predicate PlusLaws(a: F, b: F, c: F) {
      && plus(a, b) == plus(b, a)
      && plus(plus(a, b), c) == plus(a, plus(b, c))
      && plus(a, a) == zero
      && plus(a, zero) == a
    }

    ghost predicate TwiceLaws(a: F, b: F) {
      && twice(plus(a, b)) == plus(twice(a), twice(b))
      && twice(half(a)) == a && half(twice(a)) == a
      && twice(twice(twice(twice(a)))) == plus(twice(a), a)
    }

    ghost predicate Lawful() {
      && (forall a, b, c :: PlusLaws(a, b, c))
      && (forall a, b :: TwiceLaws(a, b))
    }

    /** Multiplication by point `i`. */
    function Shift(i: nat, b: F): F {
      if i == 0 then b else twice(Shift(i - 1, b))
    }

    function Unshift(i: nat, b: F): F {
      if i == 0 then b else Unshift(i - 1, half(b))
    }

    lemma {:induction false} ShiftLinear(i: nat, a: F, b: F)
      requires Lawful()
      ensures Shift(i, plus(a, b)) == plus(Shift(i, a), Shift(i, b))
    {
      if i > 0 {
        ShiftLinear(i - 1, a, b);
        assert TwiceLaws(Shift(i - 1, a), Shift(i - 1, b));
      }
    }

    lemma {:induction false} ShiftAdds(i: nat, j: nat, b: F)
      ensures Shift(i + j, b) == Shift(i, Shift(j, b))
    {
      if i > 0 {
        ShiftAdds(i - 1, j, b);
      }
    }

    lemma {:induction false} ShiftUnshift(i: nat, b: F)
      requires Lawful()
      ensures Shift(i, Unshift(i, b)) == b
    {
      if i > 0 {
        ShiftUnshift(i - 1, half(b));
        assert TwiceLaws(b, b);
      }
    }

    lemma {:induction false} ShiftZero(i: nat, b: F)
      requires Lawful() && Shift(i, b) == zero
      ensures b == zero
    {
      if i > 0 {
        var s := Shift(i - 1, b);
        assert TwiceLaws(s, s);
        assert PlusLaws(twice(s), zero, zero);
        assert PlusLaws(s, zero, zero);
        ShiftZero(i - 1, b);
      }
    }

    // ----- 2^d + 1 is a power of 2

    ghost predicate Zech(d: nat, z: nat, b: F) {
      plus(Shift(d, b), b) == Shift(z, b)
    }

    lemma Cancel(a: F, b: F)
      requires Lawful()
      ensures plus(plus(a, b), b) == a && plus(a, plus(a, b)) == b
    {
      assert PlusLaws(a, b, b);
      assert PlusLaws(a, a, b);
      assert PlusLaws(b, zero, b);
    }

    lemma ZechSwap(d: nat, z: nat, b: F)
      requires Lawful() && Zech(d, z, b)
      ensures Zech(z, d, b)
    {
      Cancel(Shift(d, b), b);
    }

    lemma ZechDouble(d: nat, z: nat, b: F)
      requires Lawful() && Zech(d, z, b) && Zech(d, z, Shift(d, b))
      ensures Zech(d + d, z + z, b)
    {
      var s := Shift(d, b);
      ShiftAdds(d, d, b);
      ShiftAdds(z, z, b);
      ShiftLinear(z, s, b);
      Cancel(Shift(d, s), s);
      assert PlusLaws(plus(Shift(d, s), s), s, b);
    }

    lemma Zech1(b: F)
      requires Lawful()
      ensures Zech(1, 4, b)
    {
      assert TwiceLaws(b, b);
      assert Shift(1, b) == twice(b);
      assert Shift(2, b) == twice(Shift(1, b));
      assert Shift(3, b) == twice(Shift(2, b));
    }

    lemma Zech2(b: F)
      requires Lawful()
      ensures Zech(2, 8, b)
    {
      Zech1(b);
      Zech1(Shift(1, b));
      ZechDouble(1, 4, b);
    }

    /** `Zech` above the exponent `n`. */
    lemma ZechAt(d: nat, z: nat, n: nat, b: F)
      requires Lawful() && Zech(d, z, Shift(n, b))
      ensures plus(Shift(d + n, b), Shift(n, b)) == Shift(z + n, b)
    {
      ShiftAdds(d, n, b);
      ShiftAdds(z, n, b);
    }

    lemma Powers(b: F)
      requires Lawful()
      ensures Shift(4, b) == plus(Shift(1, b), b)
      ensures Shift(5, b) == plus(Shift(2, b), Shift(1, b))
      ensures Shift(6, b) == plus(Shift(3, b), Shift(2, b))
      ensures Shift(7, b) == plus(Shift(4, b), Shift(3, b))
      ensures Shift(8, b) == plus(Shift(2, b), b)
      ensures Shift(9, b) == plus(Shift(3, b), Shift(1, b))
      ensures Shift(10, b) == plus(Shift(4, b), Shift(2, b))
      ensures Shift(14, b) == plus(Shift(8, b), Shift(6, b))
    {
      Zech1(b);
      PowersFrom(1, b);
      PowersFrom(2, b);
      PowersFrom(3, b);
      Zech2(b);
      PowersFrom(6, b);
    }

    lemma PowersFrom(n: nat, b: F)
      requires Lawful()
      ensures Shift(4 + n, b) == plus(Shift(1 + n, b), Shift(n, b))
      ensures Shift(8 + n, b) == plus(Shift(2 + n, b), Shift(n, b))
    {
      Zech1(Shift(n, b));
      ZechAt(1, 4, n, b);
      Zech2(Shift(n, b));
      ZechAt(2, 8, n, b);
    }

    lemma Middle(a: F, b: F, c: F)
      requires Lawful()
      ensures plus(plus(a, b), plus(c, a)) == plus(c, b)
      ensures plus(plus(a, b), c) == plus(plus(c, a), b)
      ensures plus(plus(plus(a, b), c), b) == plus(c, a)
    {
      assert PlusLaws(a, b, c);
      assert PlusLaws(plus(a, b), c, a);
      assert PlusLaws(c, plus(a, b), zero);
      assert PlusLaws(c, a, b);
      Cancel(plus(c, a), b);
      assert PlusLaws(plus(c, a), b, zero);
      assert PlusLaws(plus(a, b), plus(c, a), zero);
      assert PlusLaws(plus(c, b), a, zero);
      assert PlusLaws(c, b, a);
      assert PlusLaws(b, a, zero);
      Cancel(plus(c, b), a);
      assert plus(plus(a, b), c) == plus(plus(c, b), a);
      assert PlusLaws(plus(plus(a, b), c), a, zero);
    }

    lemma Zech3(b: F)
      requires Lawful()
      ensures Zech(3, 14, b)
    {
      Powers(b);
      Middle(Shift(2, b), b, Shift(3, b));
    }

    lemma Zech5(b: F)
      requires Lawful()
      ensures Zech(5, 10, b)
    {
      Powers(b);
      Middle(Shift(1, b), b, Shift(2, b));
    }

    lemma Zech7(b: F)
      requires Lawful()
      ensures Zech(7, 9, b)
    {
      Powers(b);
      Middle(Shift(1, b), b, Shift(3, b));
    }

    function Log(d: nat): nat
      requires 0 < d < POINTS
    {
      [4, 8, 14, 1, 10, 28, 9][d - 1]
    }

    lemma ZechLaw(d: nat, b: F)
      requires Lawful() && 0 < d < POINTS
      ensures Zech(d, Log(d), b)
    {
      if d == 1 {
        Zech1(b);
      } else if d == 2 {
        Zech2(b);
      } else if d == 3 {
        Zech3(b);
      } else if d == 4 {
        Zech1(b);
        ZechSwap(1, 4, b);
      } else if d == 5 {
        Zech5(b);
      } else if d == 6 {
        Zech3(b);
        Zech3(Shift(3, b));
        ZechDouble(3, 14, b);
      } else {
        Zech7(b);
      }
    }

    // ----- The field

    /** The power of 2 by which the difference of two points multiplies. */
    function GapPower(i: nat, j: nat): nat
      requires i < POINTS && j < POINTS && i != j
    {
      if i > j then j + Log(i - j) else i + Log(j - i)
    }

    lemma LaterGap(j: nat, d: nat, b: F)
      requires Lawful() && 0 < d < POINTS
      ensures plus(Shift(j + d, b), Shift(j, b)) == Shift(j + Log(d), b)
    {
      ZechLaw(d, b);
      ShiftLinear(j, Shift(d, b), b);
      ShiftAdds(j, d, b);
      ShiftAdds(j, Log(d), b);
    }

    lemma GapIsPower(i: nat, j: nat, b: F)
      requires Lawful() && i < POINTS && j < POINTS && i != j
      ensures plus(Shift(i, b), Shift(j, b)) == Shift(GapPower(i, j), b)
    {
      if i > j {
        LaterGap(j, i - j, b);
      } else {
        LaterGap(i, j - i, b);
        assert PlusLaws(Shift(i, b), Shift(j, b), zero);
      }
    }

    /** Division by the difference of two points. */
    function Over(i: nat, j: nat, b: F): F {
      if i < POINTS && j < POINTS && i != j then Unshift(GapPower(i, j), b) else b
    }

    function ToField(): Field<F> {
      Field(POINTS, zero, plus, (i: nat, b: F) => Shift(i, b), (i: nat, j: nat, b: F) => Over(i, j, b))
    }

    lemma FieldTimes(i: nat, j: nat, a: F, b: F)
      requires Lawful()
      ensures ToField().TimesLaws(i, j, a, b)
    {
      ShiftLinear(i, a, b);
      ShiftAdds(i, j, a);
      ShiftAdds(j, i, a);
    }

    lemma FieldOver(i: nat, j: nat, a: F)
      requires Lawful()
      ensures ToField().OverLaws(i, j, a)
    {
      if i < POINTS && j < POINTS && i != j {
        var p := GapPower(i, j);
        GapIsPower(i, j, Unshift(p, a));
        ShiftUnshift(p, a);
        GapIsPower(i, j, a);
        if Shift(p, a) == zero {
          ShiftZero(p, a);
        }
      }
    }

    lemma FieldLawful()
      requires Lawful()
      ensures ToField().Lawful()
    {
      var f := ToField();
      forall a, b, c ensures f.PlusLaws(a, b, c) { assert PlusLaws(a, b, c); }
      forall i, j, a, b ensures f.TimesLaws(i, j, a, b) { FieldTimes(i, j, a, b); }
      forall i, j, a ensures f.OverLaws(i, j, a) { FieldOver(i, j, a); }
    }
  }

  // ----- Bytes

  /** Multiplication by 2 modulo x^4 + x + 1, in both halves of a byte. */
  function Twice(b: bv8): bv8 {
    ((b & 0x77) << 1) ^ ((b & 0x88) >> 3) ^ ((b & 0x88) >> 2)
  }

  function Half(b: bv8): bv8 {
    ((b & 0xEE) >> 1) ^ ((b & 0x11) << 3) ^ (b & 0x11)
  }

  lemma TwiceLinear(a: bv8, b: bv8)
    ensures Twice(a ^ b) == Twice(a) ^ Twice(b)
  {
  }

  lemma TwiceHalf(b: bv8)
    ensures Twice(Half(b)) == b && Half(Twice(b)) == b
  {
  }

  lemma TwiceFourTimes(b: bv8)
    ensures Twice(Twice(Twice(Twice(b)))) == Twice(b) ^ b
  {
  }

  function Bytewise(): Doubling<bv8> {
    Doubling(0, (a: bv8, b: bv8) => a ^ b, (b: bv8) => Twice(b), (b: bv8) => Half(b))
  }

  lemma BytewiseAssociative(a: bv8, b: bv8, c: bv8)
    ensures Bytewise().plus(Bytewise().plus(a, b), c) == Bytewise().plus(a, Bytewise().plus(b, c))
  {
    assert Bytewise().plus(Bytewise().plus(a, b), c) == (a ^ b) ^ c;
    assert Bytewise().plus(a, Bytewise().plus(b, c)) == a ^ (b ^ c);
  }

  lemma BytewisePlus(a: bv8, b: bv8, c: bv8)
    ensures Bytewise().PlusLaws(a, b, c)
  {
    BytewiseAssociative(a, b, c);
  }

  lemma BytewiseFourTimes(b: bv8)
    ensures var g := Bytewise(); g.twice(g.twice(g.twice(g.twice(b)))) == g.plus(g.twice(b), b)
  {
    var g := Bytewise();
    TwiceFourTimes(b);
    assert g.twice(g.twice(g.twice(g.twice(b)))) == Twice(Twice(Twice(Twice(b))));
    assert g.plus(g.twice(b), b) == Twice(b) ^ b;
  }

  lemma BytewiseLinear(a: bv8, b: bv8)
    ensures var g := Bytewise(); g.twice(g.plus(a, b)) == g.plus(g.twice(a), g.twice(b))
  {
    var g := Bytewise();
    TwiceLinear(a, b);
    assert g.twice(g.plus(a, b)) == Twice(a ^ b);
    assert g.plus(g.twice(a), g.twice(b)) == Twice(a) ^ Twice(b);
  }

  lemma BytewiseTwice(a: bv8, b: bv8)
    ensures Bytewise().TwiceLaws(a, b)
  {
    BytewiseLinear(a, b);
    TwiceHalf(a);
    BytewiseFourTimes(a);
  }

  lemma BytewiseLawful()
    ensures Bytewise().Lawful()
  {
    forall a, b, c ensures Bytewise().PlusLaws(a, b, c) { BytewisePlus(a, b, c); }
    forall a, b ensures Bytewise().TwiceLaws(a, b) { BytewiseTwice(a, b); }
  }

  // ----- The code

  /** Byte `col` of every shard. */
  function Column(d: seq<Bytes>, col: nat): (r: Bytes)
    requires forall i :: 0 <= i < |d| ==> col < |d[i]|
    ensures |r| == |d|
    ensures forall i :: 0 <= i < |d| ==> r[i] == d[i][col]
  {
    seq(|d|, i requires 0 <= i < |d| => d[i][col])
  }

  /** The value at point `i` of the polynomial through column `col`. */
  function ValueAt(d: seq<Bytes>, col: nat, i: nat): bv8
    requires forall i :: 0 <= i < |d| ==> col < |d[i]|
  {
    var f := Bytewise().ToField();
    f.Eval(f.Through(Column(d, col), 0), i)
  }

  function Width(d: seq<Bytes>): nat {
    if d == [] then 0 else |d[0]|
  }

  /** Shard `i` of the codeword of `d`. */
  function ShardAt(d: seq<Bytes>, i: nat): (r: Bytes)
    ensures |r| == Width(d)
    ensures AllLength(d, Width(d)) ==> forall col :: 0 <= col < Width(d) ==> r[col] == ValueAt(d, col, i)
  {
    if forall j :: 0 <= j < |d| ==> |d[j]| == Width(d) then
      seq(Width(d), col requires 0 <= col < Width(d) => ValueAt(d, col, i))
    else seq(Width(d), _ => 0)
  }

  function Parity(m: nat, d: seq<Bytes>): (r: seq<Bytes>)
    ensures |r| == m
    ensures forall i :: 0 <= i < m ==> r[i] == ShardAt(d, |d| + i)
  {
    seq(m, i requires 0 <= i < m => ShardAt(d, |d| + i))
  }

  /** `part` comes from the codeword of `d` and has `k` shards left. */
  ghost predicate Fits(k: nat, m: nat, d: seq<Bytes>, n: nat, part: seq<Bytes>) {
    && n > 0 && |d| == k && AllLength(d, n)
    && PartOf(part, d + Parity(m, d))
    && |Present(part)| >= k
  }

  ghost function FillIn(k: nat, m: nat, part: seq<Bytes>): Option<seq<Bytes>> {
    if d, n :| Fits(k, m, d, n, part) then Some(d + Parity(m, d)) else None
  }

  ghost function ReedSolomonCode(k: nat, m: nat): Code {
    Code(k, m, (d: seq<Bytes>) => Parity(m, d), (part: seq<Bytes>) => FillIn(k, m, part))
  }

  lemma WordAt(m: nat, d: seq<Bytes>, n: nat, i: nat, col: nat)
    requires d != [] && AllLength(d, n) && i < |d| + m <= POINTS && col < n
    ensures |(d + Parity(m, d))[i]| == n
    ensures (d + Parity(m, d))[i][col] == ValueAt(d, col, i)
  {
    if i < |d| {
      BytewiseLawful();
      Bytewise().FieldLawful();
      Bytewise().ToField().ThroughValues(Column(d, col), 0, i);
    }
  }

  lemma SameWidth(k: nat, m: nat, d: seq<Bytes>, n: nat, e: seq<Bytes>, l: nat, part: seq<Bytes>)
    requires 0 < k && k + m <= POINTS
    requires Fits(k, m, d, n, part) && Fits(k, m, e, l, part)
    ensures n == l
  {
    Inhabited(Present(part));
    var i: nat :| i in Present(part);
    WordAt(m, d, n, i, 0);
    WordAt(m, e, l, i, 0);
  }

  lemma SameValue(k: nat, m: nat, d: seq<Bytes>, n: nat, e: seq<Bytes>, part: seq<Bytes>, col: nat, i: nat)
    requires 0 < k && k + m <= POINTS && col < n
    requires Fits(k, m, d, n, part) && Fits(k, m, e, n, part)
    ensures ValueAt(d, col, i) == ValueAt(e, col, i)
  {
    var f := Bytewise().ToField();
    BytewiseLawful();
    Bytewise().FieldLawful();
    var p, q := f.Through(Column(d, col), 0), f.Through(Column(e, col), 0);
    f.ThroughSize(Column(d, col), 0);
    f.ThroughSize(Column(e, col), 0);
    forall r: nat | r in Present(part)
      ensures f.Eval(p, r) == f.Eval(q, r)
    {
      WordAt(m, d, n, r, col);
      WordAt(m, e, n, r, col);
    }
    f.AgreeEverywhere(p, q, Present(part), i);
  }

  lemma OneWordFits(k: nat, m: nat, d: seq<Bytes>, n: nat, e: seq<Bytes>, l: nat, part: seq<Bytes>)
    requires 0 < k && k + m <= POINTS
    requires Fits(k, m, d, n, part) && Fits(k, m, e, l, part)
    ensures d + Parity(m, d) == e + Parity(m, e)
  {
    SameWidth(k, m, d, n, e, l, part);
    var v, w := d + Parity(m, d), e + Parity(m, e);
    forall i | 0 <= i < k + m
      ensures v[i] == w[i]
    {
      WordAt(m, d, n, i, 0);
      WordAt(m, e, n, i, 0);
      forall col | 0 <= col < n
        ensures v[i][col] == w[i][col]
      {
        WordAt(m, d, n, i, col);
        WordAt(m, e, n, i, col);
        SameValue(k, m, d, n, e, part, col, i);
      }
    }
  }

  /** Reed-Solomon codes of up to eight shards meet every law of the library interface. */
  lemma ReedSolomonIsLawful(k: nat, m: nat)
    requires 0 < k && 0 < m && k + m <= POINTS
    ensures ReedSolomonCode(k, m).Lawful()
  {
    var code := ReedSolomonCode(k, m);
    forall d, n
      ensures code.ParityLaw(d, n)
    {
    }
    forall d, n, part
      ensures code.FillLaw(d, n, part)
    {
      if code.DataShards(d, n) && PartOf(part, d + code.parity(d)) && |Present(part)| >= k {
        assert Fits(k, m, d, n, part);
        var e, l :| Fits(k, m, e, l, part) && FillIn(k, m, part) == Some(e + Parity(m, e));
        OneWordFits(k, m, d, n, e, l, part);
      }
    }
    forall part
      ensures code.ShapeLaw(part)
    {
    }
  }
}
