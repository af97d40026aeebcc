/** Cutting a stream into chunks and putting them back: `internal/chunker/chunker.go`. */
module Chunker {
  import opened Base

  const DEFAULT_CHUNK_SIZE := 1024 * 1024

  type Digest = Bytes

  datatype Chunk = Chunk(index: int, data: Bytes, hash: Digest)

  datatype Error = ReadFailed | InvalidChunkSequence | CorruptedChunk | WriteFailed(chunk: int)

  // ----- The reader

  datatype ReadStatus = More | EOF | Failed

  /** An `io.Reader`. It may return fewer bytes than asked, also none at all (`stalls` bounds how
      often it still will), may report the end together with the last bytes or after them, and may
      fail unless it is `reliable`. */
  class Reader {
    var rest: Bytes
    var stalls: nat
    const reliable: bool

    constructor (data: Bytes, stalls: nat, reliable: bool)
      ensures rest == data && this.stalls == stalls && this.reliable == reliable
    {
      rest, this.stalls, this.reliable := data, stalls, reliable;
    }

    method Read(want: nat) returns (data: Bytes, status: ReadStatus)
      requires want > 0
      modifies this
      ensures |data| <= want && data + rest == old(rest)
      ensures status == EOF ==> rest == []
      ensures status == Failed ==> !reliable
      ensures status == More ==> data != [] || stalls < old(stalls)
      ensures stalls <= old(stalls)
    {
      var n: nat :| n <= want && n <= |rest|;
      if !reliable {
        var fail: bool := *;
        if fail {
          data, rest, status := rest[..n], rest[n..], Failed;
          return;
        }
      }
      if n == 0 && (stalls == 0 || rest == []) {
        if rest == [] {
          return [], EOF;
        }
        n := 1;
      } else if n == 0 {
        stalls := stalls - 1;
      }
      var early: bool := *;
      data, rest := rest[..n], rest[n..];
      status := if rest == [] && early then EOF else More;
    }
  }

  datatype FullStatus = Full | UnexpectedEOF | NoData | ReadError

  /** `io.ReadFull`: reads until `buf` is full, or the stream ends or fails. */
  method ReadFull(r: Reader, buf: array<bv8>) returns (n: nat, status: FullStatus)
    requires buf.Length > 0
    modifies r, buf
    ensures n <= buf.Length && n <= |old(r.rest)|
    ensures status != ReadError ==> n == if |old(r.rest)| < buf.Length then |old(r.rest)| else buf.Length
    ensures buf[..n] == old(r.rest)[..n]
    ensures r.rest == old(r.rest)[n..]
    ensures status == Full <==> n == buf.Length
    ensures status == NoData ==> n == 0
    ensures status == UnexpectedEOF ==> n > 0
    ensures status == ReadError ==> !r.reliable
  {
    n := 0;
    var err := More;
    while n < buf.Length && err == More
      invariant n <= buf.Length && n <= |old(r.rest)|
      invariant buf[..n] == old(r.rest)[..n] && r.rest == old(r.rest)[n..]
      invariant err == EOF ==> r.rest == []
      invariant err == Failed ==> !r.reliable
      decreases buf.Length - n, r.stalls, err == More
    {
      var data;
      data, err := r.Read(buf.Length - n);
      forall i | 0 <= i < |data| {
        buf[n + i] := data[i];
      }
      assert old(r.rest)[n..] == data + r.rest;
      n := n + |data|;
    }
    if n >= buf.Length {
      status := Full;
    } else if n > 0 && err == EOF {
      status := UnexpectedEOF;
    } else if err == EOF {
      status := NoData;
    } else {
      status := ReadError;
    }
  }

  // ----- Split

  /** The stream cut into pieces of `size` bytes, the last one possibly shorter. */
  function Cut(stream: Bytes, size: nat): seq<Bytes>
    requires size > 0
  {
    if stream == [] then []
    else if |stream| <= size then [stream]
    else [stream[..size]] + Cut(stream[size..], size)
  }

  function ChunkOf(index: int, data: Bytes, hash: Bytes -> Digest): Chunk {
    Chunk(index, data, hash(data))
  }

  function EffectiveSize(chunkSize: int): nat {
    if chunkSize <= 0 then DEFAULT_CHUNK_SIZE else chunkSize
  }

  /** The chunks' data cut the stream, and each has its number and its hash. */
  ghost predicate IsSplit(chunks: seq<Chunk>, stream: Bytes, size: nat, hash: Bytes -> Digest) {
    && IsCut(DataOf(chunks), stream, size)
    && forall i :: 0 <= i < |chunks| ==> chunks[i].index == i && chunks[i].hash == hash(chunks[i].data)
  }

  function DataOf(chunks: seq<Chunk>): seq<Bytes> {
    seq(|chunks|, i requires 0 <= i < |chunks| => chunks[i].data)
  }

  /** However the reader fragments the stream, a successful split holds exactly its pieces. */
  method Split(r: Reader, chunkSize: int, hash: Bytes -> Digest) returns (res: Result<seq<Chunk>, Error>)
    modifies r
    ensures res.Err? ==> res.error == ReadFailed && !r.reliable
    ensures res.Ok? ==>
      var pieces := Cut(old(r.rest), EffectiveSize(chunkSize));
      && |res.value| == |pieces|
      && (forall i :: 0 <= i < |pieces| ==> res.value[i] == ChunkOf(i, pieces[i], hash))
    ensures res.Ok? ==> IsSplit(res.value, old(r.rest), if chunkSize > 0 then chunkSize else 1048576, hash)
  {
    var size := EffectiveSize(chunkSize);
    ghost var stream := r.rest;
    var chunks: seq<Chunk> := [];
    var index := 0;
    var buf := new bv8[size];
    while true
      invariant index == |chunks|
      invariant var left := Cut(r.rest, size);
        && |chunks| + |left| == |Cut(stream, size)|
        && left == Cut(stream, size)[|chunks|..]
      invariant forall i :: 0 <= i < |chunks| ==> chunks[i] == ChunkOf(i, Cut(stream, size)[i], hash)
      decreases |r.rest|, 1
    {
      var before := r.rest;
      var n, status := ReadFull(r, buf);
      if n > 0 {
        var data := buf[..n];
        if status != ReadError {
          CutStep(before, size);
        }
        chunks := chunks + [ChunkOf(index, data, hash)];
        index := index + 1;
      }
      if status == UnexpectedEOF || status == NoData {
        assert r.rest == [];
        break;
      }
      if status == ReadError {
        return Err(ReadFailed);
      }
    }
    ChunksAreCut(chunks, stream, size, hash);
    return Ok(chunks);
  }

  lemma ChunksAreCut(chunks: seq<Chunk>, stream: Bytes, size: nat, hash: Bytes -> Digest)
    requires size > 0 && |chunks| == |Cut(stream, size)|
    requires forall i :: 0 <= i < |chunks| ==> chunks[i] == ChunkOf(i, Cut(stream, size)[i], hash)
    ensures IsSplit(chunks, stream, size, hash)
  {
    CutIsCut(stream, size);
    assert DataOf(chunks) == Cut(stream, size);
  }

  lemma CutStep(stream: Bytes, size: nat)
    requires size > 0 && stream != []
    ensures var n := if |stream| < size then |stream| else size;
            Cut(stream, size) == [stream[..n]] + Cut(stream[n..], size)
  {
    if |stream| <= size {
      assert stream[..|stream|] == stream;
    }
  }

  /** All pieces but the last are full, none is empty, and together they are the stream. */
  ghost predicate IsCut(pieces: seq<Bytes>, stream: Bytes, size: nat) {
    && Concat(pieces) == stream
    && (forall i :: 0 <= i < |pieces| - 1 ==> |pieces[i]| == size)
    && (pieces != [] ==> 0 < |pieces[|pieces| - 1]| <= size)
  }

  lemma {:induction false} CutIsCut(stream: Bytes, size: nat)
    requires size > 0
    ensures IsCut(Cut(stream, size), stream, size)
  {
    if stream == [] {
    } else if |stream| <= size {
      assert Concat([stream]) == stream + Concat([]);
    } else {
      var rest := stream[size..];
      var tail := Cut(rest, size);
      CutIsCut(rest, size);
      var pieces := [stream[..size]] + tail;
      assert pieces[1..] == tail;
      assert stream == stream[..size] + rest;
      assert tail != [];
      assert pieces[|pieces| - 1] == tail[|tail| - 1];
    }
  }

  /** The number of pieces is the stream length over the size, rounded up. */
  lemma {:induction false} CutCount(stream: Bytes, size: nat)
    requires size > 0
    ensures |Cut(stream, size)| == (|stream| + size - 1) / size
  {
    if stream == [] {
      QuotientIs(size - 1, size, 0);
    } else if |stream| <= size {
      QuotientIs(|stream| + size - 1, size, 1);
    } else {
      CutCount(stream[size..], size);
      var x := |stream| - 1;
      assert x == (x / size) * size + x % size;
      QuotientIs(x + size, size, x / size + 1);
    }
  }

  lemma QuotientIs(x: int, d: nat, q: int)
    requires d > 0 && q * d <= x < q * d + d
    ensures x / d == q
  {
    var p := x / d;
    assert x == p * d + x % d;
    assert (q - p) * d == q * d - p * d;
    BelowOneMultiple(q - p, d);
  }

  lemma BelowOneMultiple(e: int, d: int)
    requires d > 0 && 0 - d < e * d < d
    ensures e == 0
  {
    assert e >= 1 ==> e * d >= d;
    assert e <= -1 ==> e * d <= 0 - d;
  }

  /** Only one list of pieces has that shape. */
  lemma {:induction false} CutUnique(pieces: seq<Bytes>, stream: Bytes, size: nat)
    requires size > 0 && IsCut(pieces, stream, size)
    ensures pieces == Cut(stream, size)
  {
    if |pieces| == 1 {
      assert pieces[1..] == [];
      assert Concat(pieces) == pieces[0] == stream;
    } else if |pieces| > 1 {
      var tail := pieces[1..];
      assert tail[|tail| - 1] == pieces[|pieces| - 1];
      assert forall i :: 0 <= i < |tail| - 1 ==> tail[i] == pieces[i + 1];
      assert stream[size..] == Concat(tail);
      NonEmptyConcat(tail);
      CutUnique(tail, stream[size..], size);
    }
  }

  lemma NonEmptyConcat(pieces: seq<Bytes>)
    requires pieces != [] && pieces[|pieces| - 1] != []
    ensures Concat(pieces) != []
  {
    ConcatSnoc(pieces[..|pieces| - 1], pieces[|pieces| - 1]);
    assert pieces == pieces[..|pieces| - 1] + [pieces[|pieces| - 1]];
  }

  // ----- Reassemble

  /** An `io.Writer`: appends, or fails after having written some prefix. */
  class Writer {
    var out: Bytes
    const reliable: bool

    constructor (reliable: bool)
      ensures out == [] && this.reliable == reliable
    {
      out, this.reliable := [], reliable;
    }

    method Write(data: Bytes) returns (ok: bool)
      modifies this
      ensures ok ==> out == old(out) + data
      ensures old(out) <= out <= old(out) + data
      ensures reliable ==> ok
    {
      if !reliable {
        var fail: bool := *;
        if fail {
          var n: nat :| n <= |data|;
          out := out + data[..n];
          return false;
        }
      }
      out := out + data;
      return true;
    }
  }

  predicate Sound(chunks: seq<Chunk>, i: nat, hash: Bytes -> Digest)
    requires i < |chunks|
  {
    chunks[i].index == i && hash(chunks[i].data) == chunks[i].hash
  }

  ghost predicate FirstUnsound(chunks: seq<Chunk>, bad: nat, hash: Bytes -> Digest, e: Error) {
    && bad < |chunks|
    && (forall i :: 0 <= i < bad ==> Sound(chunks, i, hash))
    && !Sound(chunks, bad, hash)
    && e == if chunks[bad].index != bad then InvalidChunkSequence else CorruptedChunk
  }

  /** An index out of order is one error, a wrong hash at the right index the other; all chunks before are right. */
  lemma UnsoundMeans(chunks: seq<Chunk>, bad: nat, hash: Bytes -> Digest, e: Error)
    requires FirstUnsound(chunks, bad, hash, e)
    ensures e == InvalidChunkSequence <==> chunks[bad].index != bad
    ensures e == CorruptedChunk <==> chunks[bad].index == bad && hash(chunks[bad].data) != chunks[bad].hash
    ensures forall i :: 0 <= i < bad ==> chunks[i].index == i && hash(chunks[i].data) == chunks[i].hash
  {
    forall i | 0 <= i < bad ensures chunks[i].index == i && hash(chunks[i].data) == chunks[i].hash {
      assert Sound(chunks, i, hash);
    }
  }

  function Contents(chunks: seq<Chunk>): Bytes {
    if chunks == [] then [] else Contents(chunks[..|chunks| - 1]) + chunks[|chunks| - 1].data
  }

  /** Writes the chunks up to the first unsound one, and says which check that one failed. */
  method Reassemble(chunks: seq<Chunk>, w: Writer, hash: Bytes -> Digest) returns (res: Result<(), Error>)
    modifies w
    ensures res.Ok? ==> w.out == old(w.out) + Contents(chunks) && forall i :: 0 <= i < |chunks| ==>
      Sound(chunks, i, hash)
    ensures res.Err? && !res.error.WriteFailed? ==>
      exists bad: nat :: FirstUnsound(chunks, bad, hash, res.error) && bad < |chunks| && w.out
           == old(w.out) + Contents(chunks[..bad])
    ensures res.Err? && res.error.WriteFailed? ==> !w.reliable
    ensures old(w.out) <= w.out <= old(w.out) + Contents(chunks)
  {
    for i := 0 to |chunks|
      invariant w.out == old(w.out) + Contents(chunks[..i])
      invariant forall j :: 0 <= j < i ==> Sound(chunks, j, hash)
    {
      ContentsPrefix(chunks, i);
      ContentsPrefix(chunks, i + 1);
      assert chunks[..i + 1][..i] == chunks[..i];
      var c := chunks[i];
      ghost var e := if c.index != i then InvalidChunkSequence else CorruptedChunk;
      assert !Sound(chunks, i, hash) ==> FirstUnsound(chunks, i, hash, e);
      if c.index != i {
        return Err(InvalidChunkSequence);
      }
      if hash(c.data) != c.hash {
        return Err(CorruptedChunk);
      }
      var ok := w.Write(c.data);
      if !ok {
        return Err(WriteFailed(i));
      }
    }
    assert chunks[..|chunks|] == chunks;
    return Ok(());
  }

  lemma {:induction false} ContentsPrefix(chunks: seq<Chunk>, i: nat)
    requires i <= |chunks|
    ensures Contents(chunks[..i]) <= Contents(chunks)
    decreases |chunks|
  {
    if i < |chunks| {
      ContentsPrefix(chunks[..|chunks| - 1], i);
      assert chunks[..|chunks| - 1][..i] == chunks[..i];
    } else {
      assert chunks[..i] == chunks;
    }
  }

  lemma {:induction false} ContentsOfPieces(chunks: seq<Chunk>, pieces: seq<Bytes>)
    requires |chunks| == |pieces|
    requires forall i :: 0 <= i < |pieces| ==> chunks[i].data == pieces[i]
    ensures Contents(chunks) == Concat(pieces)
  {
    if chunks != [] {
      var n := |chunks| - 1;
      ContentsOfPieces(chunks[..n], pieces[..n]);
      ConcatSnoc(pieces[..n], pieces[n]);
      assert pieces == pieces[..n] + [pieces[n]];
    }
  }

  /** `Reassemble` undoes `Split`. */
  method SplitThenReassemble(r: Reader, chunkSize: int, w: Writer, hash: Bytes -> Digest) returns (ok: bool)
    modifies r, w
    ensures r.reliable && w.reliable ==> ok
    ensures ok ==> w.out == old(w.out) + old(r.rest)
    ensures old(w.out) <= w.out <= old(w.out) + old(r.rest)
  {
    ghost var stream := r.rest;
    var split := Split(r, chunkSize, hash);
    if split.Err? {
      return false;
    }
    CutIsCut(stream, EffectiveSize(chunkSize));
    ContentsOfPieces(split.value, Cut(stream, EffectiveSize(chunkSize)));
    assert forall i :: 0 <= i < |split.value| ==> Sound(split.value, i, hash);
    var res := Reassemble(split.value, w, hash);
    return res.Ok?;
  }
}
