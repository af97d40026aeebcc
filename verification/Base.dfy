/** Values shared by every module: byte strings, results and 64-bit wrap-around. */
module Base {

  type Bytes = seq<bv8>

  datatype Option<+T> = None | Some(value: T)

  datatype Result<+T, +E> = Ok(value: T) | Err(error: E)

  /** Two's-complement value that Go keeps of `x` in an `int64`. */
  function Wrap64(x: int): int {
    (x + 0x8000_0000_0000_0000) % 0x1_0000_0000_0000_0000 - 0x8000_0000_0000_0000
  }

  predicate Fits64(x: int) {
    -0x8000_0000_0000_0000 <= x < 0x8000_0000_0000_0000
  }

  /** It is the one 64-bit number that differs from `x` by a multiple of 2^64; in range it is `x` itself. */
  lemma Wrap64Is(x: int, y: int)
    ensures Wrap64(x) == y <==>
      -0x8000_0000_0000_0000 <= y < 0x8000_0000_0000_0000 && (x - y) % 0x1_0000_0000_0000_0000 == 0
    ensures -0x8000_0000_0000_0000 <= x < 0x8000_0000_0000_0000 ==> Wrap64(x) == x
  {
  }

  function Zeros(n: nat): Bytes {
    seq(n, _ => 0)
  }

  function Concat(parts: seq<Bytes>): Bytes {
    if parts == [] then [] else parts[0] + Concat(parts[1..])
  }

  lemma {:induction false} ConcatAppend(parts: seq<Bytes>, tail: seq<Bytes>)
    ensures Concat(parts + tail) == Concat(parts) + Concat(tail)
  {
    if parts == [] {
      assert parts + tail == tail;
    } else {
      ConcatAppend(parts[1..], tail);
      assert (parts + tail)[1..] == parts[1..] + tail;
    }
  }

  lemma ConcatSnoc(parts: seq<Bytes>, last: Bytes)
    ensures Concat(parts + [last]) == Concat(parts) + last
  {
    ConcatAppend(parts, [last]);
    assert Concat([last]) == last + Concat([]);
  }

  lemma Inhabited(s: set<int>)
    requires s != {}
    ensures exists i :: i in s
  {
    assert (forall i :: i !in s) ==> s == {};
  }

  lemma SubsetSize<T>(s: set<T>, t: set<T>)
    requires s <= t
    ensures |s| <= |t|
  {
    assert t == s + (t - s);
  }
}
