/** Erasure coding of one chunk: `internal/erasure/erasure.go` over an abstract
    Reed-Solomon library. */
module Erasure {
  import opened Base

  datatype Shard = Shard(index: int, data: Bytes)

  datatype Error = TooFewShards | ReconstructionFailed | JoinFailed

  ghost predicate AllLength(shards: seq<Bytes>, n: nat) {
    forall i :: 0 <= i < |shards| ==> |shards[i]| == n
  }

  /** Indices whose shard is present; the library reads an empty slice as missing. */
  function Present(shards: seq<Bytes>): set<int> {
    set i | 0 <= i < |shards| && shards[i] != []
  }

  /** `part` is `full` with some shards missing. */
  ghost predicate PartOf(part: seq<Bytes>, full: seq<Bytes>) {
    && |part| == |full|
    && forall i :: 0 <= i < |part| && part[i] != [] ==> part[i] == full[i]
  }

  /** The library: `parity` computes the parity shards of the data shards and `fill`
      restores missing shards, or fails. */
  datatype Code = Code(k: nat, m: nat, parity: seq<Bytes> -> seq<Bytes>, fill: seq<Bytes> -> Option<seq<Bytes>>)
  {
    function Total(): nat { k + m }

    ghost predicate DataShards(d: seq<Bytes>, n: nat) {
      n > 0 && |d| == k && AllLength(d, n)
    }

    ghost predicate ParityLaw(d: seq<Bytes>, n: nat) {
      DataShards(d, n) ==> |parity(d)| == m && AllLength(parity(d), n)
    }

    /** Any `k` shards of a codeword determine all of it. */
    ghost predicate FillLaw(d: seq<Bytes>, n: nat, part: seq<Bytes>) {
      DataShards(d, n) && PartOf(part, d + parity(d)) && |Present(part)| >= k ==> fill(part) == Some(d + parity(d))
    }

    /** What `fill` promises of an arbitrary array of shards. */
    ghost predicate ShapeLaw(part: seq<Bytes>) {
      |part| == Total() ==>
        && (|Present(part)| < k ==> fill(part) == None)
        && (fill(part).Some? ==> |fill(part).value| == Total())
    }

    ghost predicate Lawful() {
      && k > 0 && m > 0
      && (forall d, n :: ParityLaw(d, n))
      && (forall d, n, part :: FillLaw(d, n, part))
      && (forall part :: ShapeLaw(part))
    }

    /** The `k + m` shards of a chunk. */
    function Shards(data: Bytes): seq<Bytes>
      requires k > 0
    {
      if data == [] then seq(Total(), _ => [])
      else
        var d := Slices(data, PerShard(|data|, k), k);
        d + parity(d)
    }
  }

  /** Slice length: the data length over `k`, rounded up. */
  function PerShard(len: nat, k: nat): nat
    requires k > 0
  {
    (len + k - 1) / k
  }

  /** `count` slices of `per` bytes, the tail filled with zeros. */
  function Slices(data: Bytes, per: nat, count: nat): seq<Bytes>
    decreases count
  {
    if count == 0 then []
    else if |data| <= per then [data + seq(per - |data|, _ => 0)] + Slices([], per, count - 1)
    else [data[..per]] + Slices(data[per..], per, count - 1)
  }

  lemma {:induction false} SlicesCoverData(data: Bytes, per: nat, count: nat)
    requires |data| <= count * per
    ensures |Slices(data, per, count)| == count
    ensures AllLength(Slices(data, per, count), per)
    ensures |Concat(Slices(data, per, count))| == count * per
    ensures data <= Concat(Slices(data, per, count))
    decreases count
  {
    if count > 0 {
      assert count * per == per + (count - 1) * per;
      assert 0 <= (count - 1) * per;
      if |data| <= per {
        SlicesCoverData([], per, count - 1);
      } else {
        SlicesCoverData(data[per..], per, count - 1);
        assert data == data[..per] + data[per..];
      }
    }
  }

  lemma PerShardSuffices(len: nat, k: nat)
    requires k > 0 && len > 0
    ensures PerShard(len, k) > 0
    ensures len <= k * PerShard(len, k)
  {
    var q := (len + k - 1) / k;
    assert len + k - 1 == k * q + (len + k - 1) % k;
  }

  /** What `Shards` promises of a non-empty chunk. */
  lemma ShardsShape(code: Code, data: Bytes)
    requires code.Lawful() && data != []
    ensures var d := Slices(data, PerShard(|data|, code.k), code.k);
            && code.DataShards(d, PerShard(|data|, code.k))
            && code.Shards(data) == d + code.parity(d)
            && data <= Concat(d)
    ensures |code.Shards(data)| == code.Total()
    ensures AllLength(code.Shards(data), PerShard(|data|, code.k))
    ensures PerShard(|data|, code.k) > 0
  {
    var per := PerShard(|data|, code.k);
    PerShardSuffices(|data|, code.k);
    SlicesCoverData(data, per, code.k);
    assert code.ParityLaw(Slices(data, per, code.k), per);
  }

  // ----- Encode

  /** The concatenated slices are the data and zeros. */
  lemma SlicesPadWithZeros(data: Bytes, per: nat, count: nat)
    requires |data| <= count * per
    ensures Concat(Slices(data, per, count)) == data + Zeros(count * per - |data|)
  {
    SlicesFill(data, per, count, count * per);
  }

  lemma {:induction false} SlicesFill(data: Bytes, per: nat, count: nat, total: nat)
    requires |data| <= total == count * per
    ensures Concat(Slices(data, per, count)) == data + Zeros(total - |data|)
    decreases count
  {
    if count > 0 {
      OneSliceLess(per, count, total);
      if |data| <= per {
        SlicesFill([], per, count - 1, total - per);
        ConcatHead(data + Zeros(per - |data|), Slices([], per, count - 1));
        ZerosAdd(data, per - |data|, total - per);
      } else {
        SlicesFill(data[per..], per, count - 1, total - per);
        ConcatHead(data[..per], Slices(data[per..], per, count - 1));
        HeadOfData(data, per, Zeros(total - |data|));
      }
    }
  }

  lemma OneSliceLess(per: nat, count: nat, total: nat)
    requires count > 0 && total == count * per
    ensures total >= per && total - per == (count - 1) * per
  {
    assert count * per == per + (count - 1) * per;
    assert 0 <= (count - 1) * per;
  }

  lemma ConcatHead(head: Bytes, rest: seq<Bytes>)
    ensures Concat([head] + rest) == head + Concat(rest)
  {
  }

  lemma HeadOfData(data: Bytes, per: nat, zeros: Bytes)
    requires per <= |data|
    ensures data[..per] + (data[per..] + zeros) == data + zeros
  {
  }

  lemma ZerosAdd(data: Bytes, a: nat, b: nat)
    ensures (data + Zeros(a)) + ([] + Zeros(b)) == data + Zeros(a + b)
  {
  }

  /** `full` is `k` slices of `n` bytes, no longer than they need be, which are the data and zeros, and the parity of
      these slices. */
  ghost predicate IsSplit(code: Code, data: Bytes, full: seq<Bytes>, n: nat) {
    && |full| == code.k + code.m && AllLength(full, n)
    && code.k * (n - 1) < |data| <= code.k * n
    && Concat(full[..code.k]) == data + Zeros(code.k * n - |data|)
    && full[code.k..] == code.parity(full[..code.k])
  }

  /** The shards of a chunk, told without computing them. */
  ghost predicate IsEncoding(code: Code, data: Bytes, full: seq<Bytes>) {
    if data == [] then |full| == code.k + code.m && forall i :: 0 <= i < |full| ==> full[i] == []
    else exists n: nat :: IsSplit(code, data, full, n)
  }

  lemma PerShardIsLeast(len: nat, k: nat)
    requires k > 0 && len > 0
    ensures k * (PerShard(len, k) - 1) < len <= k * PerShard(len, k)
  {
    var q := (len + k - 1) / k;
    assert len + k - 1 == k * q + (len + k - 1) % k;
    assert k * (q - 1) == k * q - k;
  }

  lemma ShardsAreSplit(code: Code, data: Bytes)
    requires code.Lawful() && data != []
    ensures IsSplit(code, data, code.Shards(data), PerShard(|data|, code.k))
  {
    var n := PerShard(|data|, code.k);
    ShardsShape(code, data);
    PerShardIsLeast(|data|, code.k);
    SlicesPadWithZeros(data, n, code.k);
    var d := Slices(data, n, code.k);
    assert code.Shards(data)[..code.k] == d && code.Shards(data)[code.k..] == code.parity(d);
  }

  lemma ShardsAreEncoding(code: Code, data: Bytes)
    requires code.Lawful()
    ensures IsEncoding(code, data, code.Shards(data))
  {
    if data != [] {
      ShardsAreSplit(code, data);
    }
  }

  lemma {:induction false} SamePieces(a: seq<Bytes>, b: seq<Bytes>, n: nat)
    requires |a| == |b| && AllLength(a, n) && AllLength(b, n) && Concat(a) == Concat(b)
    ensures a == b
  {
    if a != [] {
      assert a[0] == Concat(a)[..n] == Concat(b)[..n] == b[0];
      assert Concat(a[1..]) == Concat(a)[n..] == Concat(b)[n..] == Concat(b[1..]);
      SamePieces(a[1..], b[1..], n);
      assert a == [a[0]] + a[1..] && b == [b[0]] + b[1..];
    }
  }

  lemma SameLeast(len: nat, k: nat, m: nat, n: nat)
    requires k > 0 && k * (m - 1) < len <= k * m && k * (n - 1) < len <= k * n
    ensures m == n
  {
    if n <= m - 1 {
      TimesMonotone(k, n, m - 1);
    }
    if m <= n - 1 {
      TimesMonotone(k, m, n - 1);
    }
  }

  lemma TimesMonotone(k: nat, a: int, b: int)
    requires a <= b
    ensures k * a <= k * b
  {
  }

  /** A chunk has only one encoding. */
  lemma EncodingUnique(code: Code, data: Bytes, a: seq<Bytes>, b: seq<Bytes>)
    requires code.k > 0 && IsEncoding(code, data, a) && IsEncoding(code, data, b)
    ensures a == b
  {
    if data != [] {
      var m: nat :| IsSplit(code, data, a, m);
      var n: nat :| IsSplit(code, data, b, n);
      SameLeast(|data|, code.k, m, n);
      SamePieces(a[..code.k], b[..code.k], n);
      assert a == a[..code.k] + a[code.k..] && b == b[..code.k] + b[code.k..];
    }
  }

  function DataOf(shards: seq<Shard>): seq<Bytes> {
    seq(|shards|, i requires 0 <= i < |shards| => shards[i].data)
  }

  method Encode(code: Code, data: Bytes) returns (shards: seq<Shard>)
    requires code.Lawful()
    ensures |shards| == |code.Shards(data)| == code.Total()
    ensures forall i :: 0 <= i < |shards| ==> shards[i] == Shard(i, code.Shards(data)[i])
    ensures IsEncoding(code, data, DataOf(shards)) && forall i :: 0 <= i < |shards| ==> shards[i].index == i
  {
    if |data| == 0 {
      var empty := new Shard[code.Total()];
      for i := 0 to empty.Length
        invariant forall j :: 0 <= j < i ==> empty[j] == Shard(j, [])
      {
        empty[i] := Shard(i, []);
      }
      ShardsAreEncoding(code, data);
      assert DataOf(empty[..]) == code.Shards(data);
      return empty[..];
    }
    ShardsShape(code, data);
    var rawShards := Slices(data, PerShard(|data|, code.k), code.k);
    rawShards := rawShards + code.parity(rawShards);
    var out := new Shard[|rawShards|];
    for i := 0 to |rawShards|
      invariant forall j :: 0 <= j < i ==> out[j] == Shard(j, rawShards[j])
    {
      out[i] := Shard(i, rawShards[i]);
    }
    ShardsAreEncoding(code, data);
    assert DataOf(out[..]) == code.Shards(data);
    return out[..];
  }

  // ----- Reconstruct

  predicate Usable(s: Shard, total: nat) {
    0 <= s.index < total && |s.data| > 0
  }

  /** The array of shards the loop leaves behind: the last usable entry wins. */
  function Raw(shards: seq<Shard>, total: nat): (raw: seq<Bytes>)
    ensures |raw| == total
  {
    if shards == [] then seq(total, _ => [])
    else
      var s := shards[|shards| - 1];
      var before := Raw(shards[..|shards| - 1], total);
      if Usable(s, total) then before[s.index := s.data] else before
  }

  function UsableCount(shards: seq<Shard>, total: nat): nat {
    if shards == [] then 0
    else UsableCount(shards[..|shards| - 1], total) + if Usable(shards[|shards| - 1], total) then 1 else 0
  }

  function Join(dataShards: seq<Bytes>, size: nat): Result<Bytes, Error> {
    var all := Concat(dataShards);
    if |all| < size then Err(JoinFailed) else Ok(all[..size])
  }

  function Rebuilt(code: Code, shards: seq<Shard>, size: nat): Result<Bytes, Error>
    requires code.Lawful()
  {
    if size == 0 then Ok([])
    else if |shards| < code.Total() || UsableCount(shards, code.Total()) < code.k then Err(TooFewShards)
    else
      var raw := Raw(shards, code.Total());
      assert code.ShapeLaw(raw);
      match code.fill(raw)
      case None => Err(ReconstructionFailed)
      case Some(full) => Join(full[..code.k], size)
  }

  method Reconstruct(code: Code, shards: seq<Shard>, originalSize: nat) returns (r: Result<Bytes, Error>)
    requires code.Lawful()
    ensures r == Rebuilt(code, shards, originalSize)
  {
    if originalSize == 0 {
      return Ok([]);
    }
    var total := code.Total();
    if |shards| < total {
      return Err(TooFewShards);
    }
    var rawShards := new Bytes[total](_ => []);
    var validCount := 0;
    assert rawShards[..] == Raw(shards[..0], total);
    for i := 0 to |shards|
      invariant rawShards[..] == Raw(shards[..i], total)
      invariant validCount == UsableCount(shards[..i], total)
    {
      var s := shards[i];
      assert shards[..i + 1][..i] == shards[..i];
      if 0 <= s.index < total && |s.data| > 0 {
        rawShards[s.index] := s.data;
        validCount := validCount + 1;
      }
    }
    assert shards[..|shards|] == shards;
    if validCount < code.k {
      return Err(TooFewShards);
    }
    assert code.ShapeLaw(rawShards[..]);
    var filled := code.fill(rawShards[..]);
    if filled.None? {
      return Err(ReconstructionFailed);
    }
    r := Join(filled.value[..code.k], originalSize);
  }

  // ----- Encode then Reconstruct

  /** Distinct indices among the usable entries. */
  ghost function UsableIndices(shards: seq<Shard>, total: nat): set<int> {
    set s | s in shards && Usable(s, total) :: s.index
  }

  /** Every usable entry carries the shard that `full` has at its index. */
  ghost predicate TakenFrom(shards: seq<Shard>, full: seq<Bytes>) {
    forall s :: s in shards && Usable(s, |full|) ==> s.data == full[s.index]
  }

  lemma {:induction false} RawTakenFrom(shards: seq<Shard>, full: seq<Bytes>)
    requires TakenFrom(shards, full)
    ensures PartOf(Raw(shards, |full|), full)
    ensures Present(Raw(shards, |full|)) == UsableIndices(shards, |full|)
  {
    if shards != [] {
      var before, s := shards[..|shards| - 1], shards[|shards| - 1];
      assert shards == before + [s];
      RawTakenFrom(before, full);
      assert UsableIndices(shards, |full|)
          == UsableIndices(before, |full|) + if Usable(s, |full|) then {s.index} else {};
    }
  }

  lemma {:induction false} DistinctAtMostUsable(shards: seq<Shard>, total: nat)
    ensures |UsableIndices(shards, total)| <= UsableCount(shards, total)
  {
    if shards != [] {
      var before, s := shards[..|shards| - 1], shards[|shards| - 1];
      assert shards == before + [s];
      DistinctAtMostUsable(before, total);
      var add := if Usable(s, total) then {s.index} else {};
      assert UsableIndices(shards, total) == UsableIndices(before, total) + add;
      assert |UsableIndices(before, total) + add| <= |UsableIndices(before, total)| + |add|;
    }
  }

  /** The indices below `total` that some non-empty entry carries. */
  ghost function Surviving(shards: seq<Shard>, total: nat): set<int> {
    set j | 0 <= j < |shards| && 0 <= shards[j].index < total && shards[j].data != [] :: shards[j].index
  }

  /** The positions of the non-empty entries with an index below `total`. */
  ghost function Entries(shards: seq<Shard>, total: nat, n: nat): set<int> {
    set j | 0 <= j < n && j < |shards| && 0 <= shards[j].index < total && shards[j].data != []
  }

  lemma SurvivingIsUsable(shards: seq<Shard>, total: nat)
    ensures Surviving(shards, total) == UsableIndices(shards, total)
  {
    forall s | s in shards && Usable(s, total) ensures s.index in Surviving(shards, total) {
      var j :| 0 <= j < |shards| && shards[j] == s;
    }
    forall j | 0 <= j < |shards| && 0 <= shards[j].index < total && shards[j].data != []
      ensures shards[j].index in UsableIndices(shards, total)
    {
      assert shards[j] in shards && Usable(shards[j], total);
    }
  }

  lemma {:induction false} EntriesCount(shards: seq<Shard>, total: nat, n: nat)
    requires n <= |shards|
    ensures UsableCount(shards[..n], total) == |Entries(shards, total, n)|
  {
    if n > 0 {
      EntriesCount(shards, total, n - 1);
      assert shards[..n][..n - 1] == shards[..n - 1];
      var last := if Usable(shards[n - 1], total) then {n - 1} else {};
      assert Entries(shards, total, n) == Entries(shards, total, n - 1) + last;
    }
  }

  lemma AllEntriesCount(shards: seq<Shard>, total: nat)
    ensures UsableCount(shards, total) == |Entries(shards, total, |shards|)|
  {
    EntriesCount(shards, total, |shards|);
    assert shards[..|shards|] == shards;
  }

  /** Every entry that is not empty and has an index in range carries the shard `full` has there. */
  ghost predicate Intact(shards: seq<Shard>, full: seq<Bytes>) {
    forall j :: 0 <= j < |shards| && 0 <= shards[j].index < |full| && shards[j].data != [] ==>
      shards[j].data == full[shards[j].index]
  }

  lemma IntactIsTaken(shards: seq<Shard>, full: seq<Bytes>)
    ensures Intact(shards, full) <==> TakenFrom(shards, full)
  {
    if Intact(shards, full) {
      forall s | s in shards && Usable(s, |full|) ensures s.data == full[s.index] {
        var j :| 0 <= j < |shards| && shards[j] == s;
      }
    }
    if TakenFrom(shards, full) {
      forall j | 0 <= j < |shards| && 0 <= shards[j].index < |full| && shards[j].data != []
        ensures shards[j].data == full[shards[j].index]
      {
        assert shards[j] in shards && Usable(shards[j], |full|);
      }
    }
  }

  /** Rebuilding from surviving shards of `data`, over every survivor list: the data itself exactly when it is
      empty, or the list has `k + m` entries and `k` distinct indices survive; and otherwise which of the two
      errors is raised. */
  lemma {:induction false} RebuiltFromSurvivors(code: Code, data: Bytes, shards: seq<Shard>)
    requires code.Lawful() && Intact(shards, code.Shards(data))
    ensures var total := code.k + code.m;
      var survivors, entries := |Surviving(shards, total)|, |Entries(shards, total, |shards|)|;
      var r := Rebuilt(code, shards, |data|);
      && (r == Ok(data) <==> data == [] || (|shards| >= total && survivors >= code.k))
      && (r == Err(TooFewShards) <==> data != [] && (|shards| < total || entries < code.k))
      && (r == Err(ReconstructionFailed) <==> data != [] && |shards| >= total && survivors < code.k <= entries)
  {
    SurvivingIsUsable(shards, code.Total());
    AllEntriesCount(shards, code.Total());
    DistinctAtMostUsable(shards, code.Total());
    if data != [] {
      SurvivorsDecide(code, data, shards);
    }
  }

  lemma {:induction false} SurvivorsDecide(code: Code, data: Bytes, shards: seq<Shard>)
    requires code.Lawful() && data != [] && Intact(shards, code.Shards(data))
    ensures Rebuilt(code, shards, |data|)
         == if |shards| < code.Total() || UsableCount(shards, code.Total()) < code.k then Err(TooFewShards)
            else if |UsableIndices(shards, code.Total())| < code.k then Err(ReconstructionFailed)
            else Ok(data)
  {
    ShardsShape(code, data);
    IntactIsTaken(shards, code.Shards(data));
    FillFromSurvivors(code, data, shards);
  }

  /** Asked for another size, it cuts the padded data there, and fails only beyond the padding. */
  lemma RebuiltAtAnySize(code: Code, data: Bytes, shards: seq<Shard>, size: nat, n: nat)
    requires code.Lawful() && Intact(shards, code.Shards(data)) && IsSplit(code, data, code.Shards(data), n)
    requires |shards| >= code.k + code.m && |Surviving(shards, code.k + code.m)| >= code.k && size > 0
    ensures Rebuilt(code, shards, size)
         == if size <= code.k * n then Ok((data + Zeros(code.k * n - |data|))[..size]) else Err(JoinFailed)
  {
    SurvivingIsUsable(shards, code.Total());
    assert data != [];
    IntactIsTaken(shards, code.Shards(data));
    DistinctAtMostUsable(shards, code.Total());
    FillFromSurvivors(code, data, shards);
    assert code.ShapeLaw(Raw(shards, code.Total()));
  }

  /** A list that leaves out one of eight intact shards is refused, though seven are more than enough. */
  lemma ShortListIsRefused(code: Code, data: Bytes)
    requires code.Lawful() && code.k == 4 && code.m == 4 && data != []
    ensures |code.Shards(data)| == 8
    ensures var seven := seq(7, i requires 0 <= i < 7 => Shard(i, code.Shards(data)[i]));
      && Intact(seven, code.Shards(data))
      && Surviving(seven, 8) == {0, 1, 2, 3, 4, 5, 6}
      && Rebuilt(code, seven, |data|) == Err(TooFewShards)
  {
    ShardsShape(code, data);
    var seven := seq(7, i requires 0 <= i < 7 => Shard(i, code.Shards(data)[i]));
    forall i | 0 <= i < 7 ensures i in Surviving(seven, 8) {
      assert seven[i].index == i;
    }
    RebuiltFromSurvivors(code, data, seven);
  }

  lemma FillFromSurvivors(code: Code, data: Bytes, shards: seq<Shard>)
    requires code.Lawful() && data != []
    requires TakenFrom(shards, code.Shards(data))
    ensures |UsableIndices(shards, code.Total())| < code.k ==> code.fill(Raw(shards, code.Total())) == None
    ensures |UsableIndices(shards, code.Total())| >= code.k ==>
      code.fill(Raw(shards, code.Total())) == Some(code.Shards(data))
    ensures |code.Shards(data)| == code.Total() && Join(code.Shards(data)[..code.k], |data|) == Ok(data)
  {
    ShardsShape(code, data);
    var per := PerShard(|data|, code.k);
    var d := Slices(data, per, code.k);
    RawTakenFrom(shards, code.Shards(data));
    var raw := Raw(shards, code.Total());
    assert code.ShapeLaw(raw);
    assert code.FillLaw(d, per, raw);
    assert code.Shards(data)[..code.k] == d;
    assert Concat(d)[..|data|] == data;
  }
}
