/** Grouping a file's placements by chunk, as downloads and repairs do. */
module Placements {
  import opened Base
  import opened Storage
  import opened Tracker

  type Placement = ShardPlacement

  /** The entries of one chunk among the first `n`, in their order. */
  function OfChunk(list: seq<Placement>, n: nat, ci: int): seq<Placement>
    requires n <= |list|
  {
    if n == 0 then []
    else OfChunk(list, n - 1, ci) + if list[n - 1].chunkIndex == ci then [list[n - 1]] else []
  }

  ghost predicate Grouped(byChunk: map<int, seq<Placement>>, list: seq<Placement>, n: nat)
    requires n <= |list|
  {
    && (forall j :: 0 <= j < n ==> list[j].chunkIndex in byChunk)
    && (forall ci :: ci in byChunk ==> byChunk[ci] == OfChunk(list, n, ci) && byChunk[ci] != [])
  }

  lemma {:induction false} OfChunkAbsent(list: seq<Placement>, n: nat, ci: int)
    requires n <= |list| && forall j :: 0 <= j < n ==> list[j].chunkIndex != ci
    ensures OfChunk(list, n, ci) == []
  {
    if n > 0 {
      OfChunkAbsent(list, n - 1, ci);
    }
  }

  lemma {:induction false} OfChunkPresent(list: seq<Placement>, n: nat, ci: int)
    requires n <= |list| && OfChunk(list, n, ci) != []
    ensures exists j :: 0 <= j < n && list[j].chunkIndex == ci
  {
    if list[n - 1].chunkIndex == ci {
      var j := n - 1;
      assert 0 <= j < n && list[j].chunkIndex == ci;
    } else {
      assert OfChunk(list, n, ci) == OfChunk(list, n - 1, ci);
      OfChunkPresent(list, n - 1, ci);
    }
  }

  lemma GroupedStep(byChunk: map<int, seq<Placement>>, list: seq<Placement>, n: nat)
    requires n < |list| && Grouped(byChunk, list, n)
    ensures var ci := list[n].chunkIndex;
      Grouped(byChunk[ci := (if ci in byChunk then byChunk[ci] else []) + [list[n]]], list, n + 1)
  {
    if list[n].chunkIndex !in byChunk {
      OfChunkAbsent(list, n, list[n].chunkIndex);
    }
  }

  method GroupByChunk(list: seq<Placement>) returns (byChunk: map<int, seq<Placement>>)
    ensures Grouped(byChunk, list, |list|)
  {
    byChunk := map[];
    for n := 0 to |list|
      invariant Grouped(byChunk, list, n)
    {
      GroupedStep(byChunk, list, n);
      var p := list[n];
      byChunk := byChunk[p.chunkIndex := (if p.chunkIndex in byChunk then byChunk[p.chunkIndex] else []) + [p]];
    }
  }

  /** The part of the first `n` positions that belongs to chunk `c`: positions 8c to 8c+7. */
  function Slice(list: seq<Placement>, n: nat, c: nat): seq<Placement>
    requires n <= |list|
  {
    if n <= TOTAL_SHARDS * c then []
    else if n < TOTAL_SHARDS * (c + 1) then list[TOTAL_SHARDS * c..n]
    else list[TOTAL_SHARDS * c..TOTAL_SHARDS * (c + 1)]
  }

  lemma {:induction false} OfChunkIsSlice(list: seq<Placement>, n: nat, c: nat)
    requires n <= |list|
    requires forall j :: 0 <= j < |list| ==> list[j].chunkIndex == j / TOTAL_SHARDS
    ensures OfChunk(list, n, c) == Slice(list, n, c)
  {
    if n == 0 {
    } else {
      OfChunkIsSlice(list, n - 1, c);
      var more := if list[n - 1].chunkIndex == c then [list[n - 1]] else [];
      assert OfChunk(list, n, c) == OfChunk(list, n - 1, c) + more;
      SliceStep(list, n, c, more);
    }
  }

  lemma SliceStep(list: seq<Placement>, n: nat, c: nat, more: seq<Placement>)
    requires 0 < n <= |list| && more == if (n - 1) / TOTAL_SHARDS == c then [list[n - 1]] else []
    ensures Slice(list, n, c) == Slice(list, n - 1, c) + more
  {
    var lo, hi := TOTAL_SHARDS * c, TOTAL_SHARDS * (c + 1);
    assert (n - 1) / TOTAL_SHARDS == c <==> lo < n <= hi;
    if lo < n <= hi {
      assert list[lo..n] == list[lo..n - 1] + [list[n - 1]];
    }
  }

  lemma ChunkSlice(f: string, data: Bytes, list: seq<Placement>, c: nat)
    requires Shaped(f, data, list) && c < |Pieces(data)|
    ensures OfChunk(list, |list|, c) == list[TOTAL_SHARDS * c..TOTAL_SHARDS * (c + 1)]
  {
    forall j: nat | j < |list| ensures list[j].chunkIndex == j / TOTAL_SHARDS {
      assert EntryShaped(f, data, list, j);
    }
    OfChunkIsSlice(list, |list|, c);
  }

  /** The chunks of a well-shaped list are exactly the file's. */
  lemma GroupedShaped(f: string, data: Bytes, list: seq<Placement>, byChunk: map<int, seq<Placement>>)
    requires Shaped(f, data, list) && Grouped(byChunk, list, |list|)
    ensures forall c :: c in byChunk <==> 0 <= c < |Pieces(data)|
    ensures forall c :: c in byChunk ==> byChunk[c] == list[TOTAL_SHARDS * c..TOTAL_SHARDS * (c + 1)]
  {
    forall c: int | 0 <= c < |Pieces(data)| ensures c in byChunk {
      assert EntryShaped(f, data, list, TOTAL_SHARDS * c);
    }
    forall c | c in byChunk ensures 0 <= c < |Pieces(data)| {
      OfChunkPresent(list, |list|, c);
      var j :| 0 <= j < |list| && list[j].chunkIndex == c;
      assert EntryShaped(f, data, list, j);
    }
    forall c | c in byChunk ensures byChunk[c] == list[TOTAL_SHARDS * c..TOTAL_SHARDS * (c + 1)] {
      ChunkSlice(f, data, list, c);
    }
  }

  /** `sort.Ints` over the distinct chunk indices. */
  method SortedIndices(indices: set<int>) returns (r: seq<int>)
    ensures |r| == |indices|
    ensures forall i :: 0 <= i < |r| ==> r[i] in indices
    ensures Ascending(r)
  {
    r := [];
    var rest := indices;
    while rest != {}
      invariant |r| + |rest| == |indices|
      invariant rest <= indices
      invariant forall i :: 0 <= i < |r| ==> r[i] in indices
      invariant Ascending(r)
      invariant forall i, x :: 0 <= i < |r| && x in rest ==> r[i] < x
      decreases |rest|
    {
      MinExists(rest);
      ghost var least :| IsMin(least, rest);
      assert least in rest;
      var k :| k in rest && forall x :: x in rest ==> k <= x;
      r, rest := r + [k], rest - {k};
    }
  }

  ghost predicate Ascending(r: seq<int>) {
    forall i, j :: 0 <= i < j < |r| ==> r[i] < r[j]
  }

  ghost predicate IsMin(k: int, s: set<int>) {
    k in s && forall x :: x in s ==> k <= x
  }

  lemma {:induction false} MinExists(s: set<int>)
    requires s != {}
    ensures exists k :: IsMin(k, s)
    decreases |s|
  {
    Inhabited(s);
    var x :| x in s;
    var rest := s - {x};
    if rest == {} {
      assert s == {x};
      assert IsMin(x, s);
    } else {
      MinExists(rest);
      var k :| IsMin(k, rest);
      assert forall y :: y in s ==> y == x || y in rest;
      assert IsMin(if k < x then k else x, s);
    }
  }

  /** The indices of `n` chunks, sorted, are 0 to n-1. */
  lemma RangeSorted(r: seq<int>, indices: set<int>, n: nat)
    requires forall x :: x in indices <==> 0 <= x < n
    requires |r| == |indices| && Ascending(r)
    requires forall i :: 0 <= i < |r| ==> r[i] in indices
    ensures |r| == n && forall i :: 0 <= i < n ==> r[i] == i
  {
    RangeSize(indices, n);
    forall i | 0 <= i < n ensures r[i] == i {
      AscendingSpan(r, 0, i);
      AscendingSpan(r, i, n - 1);
    }
  }

  lemma {:induction false} AscendingSpan(r: seq<int>, i: nat, j: nat)
    requires Ascending(r) && i <= j < |r|
    ensures r[j] - r[i] >= j - i
  {
    if i < j {
      AscendingSpan(r, i, j - 1);
    }
  }

  lemma {:induction false} RangeSize(s: set<int>, n: nat)
    requires forall x :: x in s <==> 0 <= x < n
    ensures |s| == n
  {
    if n == 0 {
      assert forall x :: x !in s;
    } else {
      RangeSize(s - {n - 1}, n - 1);
    }
  }
}
