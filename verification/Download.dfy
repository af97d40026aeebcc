/** Downloading a file while the rest of the network keeps moving: `cmd/aldea/get.go`. */
module Download {
  import opened Base
  import opened Erasure
  import opened Placements
  import opened ShardServer
  import opened Storage
  import opened Tracker
  import Chunker

  // ----- Fetching one shard

  /** The plaintext gained from a placement, or none: its node unknown, silent or without the shard, or the
      stored value empty or rejected by decryption. */
  function Fetch(s: Setup, nodes: NodeTable, servers: map<string, Server>, online: set<string>, p: ShardPlacement)
    : Option<Bytes>
  {
    if p.nodeID !in nodes then None
    else
      var addr := nodes[p.nodeID].address;
      if addr !in online || addr !in servers || p.shardID !in servers[addr].shards then None
      else if servers[addr].shards[p.shardID] == [] then None
      else s.cipher.decrypt(servers[addr].shards[p.shardID])
  }

  /** The same, as the erasure decoder sees it: a missing shard is an empty one. */
  function FetchedShard(s: Setup, nodes: NodeTable, servers: map<string, Server>, online: set<string>,
                        p: ShardPlacement): Bytes
  {
    match Fetch(s, nodes, servers, online, p)
    case None => []
    case Some(plain) => plain
  }

  /** One request to a node for a shard, as sent by `getShard` and `fetchShard`. */
  method GetShard(servers: map<string, Server>, online: set<string>, addr: string, shardID: string)
    returns (data: Bytes)
    ensures addr in online && addr in servers && shardID in servers[addr].shards ==>
      data == servers[addr].shards[shardID]
    ensures !(addr in online && addr in servers && shardID in servers[addr].shards) ==> data == []
  {
    if addr !in online || addr !in servers {
      return [];
    }
    var node := new ShardStore.Of(servers[addr]);
    var found := node.HandleGet(shardID);
    data := if found.Some? then found.value else [];
  }

  /** Look the node up, ask it, decrypt. */
  method FetchShard(s: Setup, nodes: NodeTable, servers: map<string, Server>, online: set<string>, p: ShardPlacement)
    returns (plaintext: Option<Bytes>)
    ensures plaintext == Fetch(s, nodes, servers, online, p)
  {
    if p.nodeID !in nodes {
      return None;
    }
    var data := GetShard(servers, online, nodes[p.nodeID].address, p.shardID);
    if |data| == 0 {
      return None;
    }
    return s.cipher.decrypt(data);
  }

  lemma FetchedIsCanonical(s: Setup, w: World, nodes: NodeTable, online: set<string>, f: string, j: nat, nodeID: string)
    requires Inv(s, w) && f in w.originals && j / TOTAL_SHARDS < |Pieces(w.originals[f])|
    ensures var got := FetchedShard(s, nodes, w.servers, online, Placed(f, w.originals[f], j, nodeID));
      got == [] || got == Canonical(s, w.originals[f], j / TOTAL_SHARDS, j % TOTAL_SHARDS)
  {
    var p := Placed(f, w.originals[f], j, nodeID);
    if p.nodeID in nodes && nodes[p.nodeID].address in w.servers
       && p.shardID in w.servers[nodes[p.nodeID].address].shards {
      CopyIsCanonical(s, w, nodes[p.nodeID].address, f, j / TOTAL_SHARDS, j % TOTAL_SHARDS);
    }
  }

  // ----- The slots that a group of placements fills

  /** Placement `i` is the last of the first `n` that brought something for index `x`. */
  ghost predicate LastFor(group: seq<ShardPlacement>, answers: seq<Option<Bytes>>, n: nat, x: int, i: nat)
    requires n <= |group| && n <= |answers|
  {
    && i < n && group[i].shardIndex == x && answers[i].Some?
    && forall j :: i < j < n && group[j].shardIndex == x ==> answers[j].None?
  }

  /** Slot `x` holds what the last answer for its index brought, or nothing if there was none. */
  ghost predicate SlotFilled(group: seq<ShardPlacement>, answers: seq<Option<Bytes>>, n: nat, x: int, slot: Shard)
    requires n <= |group| && n <= |answers|
  {
    && slot.index == x
    && (forall i: nat :: LastFor(group, answers, n, x, i) ==> slot.data == answers[i].value)
    && ((forall i: nat :: !LastFor(group, answers, n, x, i)) ==> slot.data == [])
  }

  ghost predicate Filled(group: seq<ShardPlacement>, answers: seq<Option<Bytes>>, n: nat, raw: seq<Shard>)
    requires n <= |group| && n <= |answers|
  {
    |raw| == TOTAL_SHARDS && forall x :: 0 <= x < TOTAL_SHARDS ==> SlotFilled(group, answers, n, x, raw[x])
  }

  /** The chunk size that counts is that of the last placement whose index is in range. */
  function SizeOf(group: seq<ShardPlacement>, n: nat): int
    requires n <= |group|
  {
    if n == 0 then 0
    else if group[n - 1].shardIndex < TOTAL_SHARDS then group[n - 1].originalChunkSize
    else SizeOf(group, n - 1)
  }

  /** It is the last one, and nothing if there is none. */
  lemma {:induction false} SizeOfLast(group: seq<ShardPlacement>, n: nat, i: nat)
    requires n <= |group|
    ensures (forall j :: 0 <= j < n ==> group[j].shardIndex >= 8) ==> SizeOf(group, n) == 0
    ensures i < n && group[i].shardIndex < 8 && (forall j :: i < j < n ==> group[j].shardIndex >= 8) ==>
      SizeOf(group, n) == group[i].originalChunkSize
  {
    if n > 0 && group[n - 1].shardIndex >= 8 {
      SizeOfLast(group, n - 1, i);
    }
  }

  /** The slot that placement `n` asks to fill. */
  function FillSlot(raw: seq<Shard>, p: ShardPlacement, answer: Option<Bytes>): seq<Shard>
    requires 0 <= p.shardIndex && |raw| == TOTAL_SHARDS
  {
    if p.shardIndex < TOTAL_SHARDS && answer.Some? then raw[p.shardIndex := Shard(p.shardIndex, answer.value)]
    else raw
  }

  lemma FilledStep(group: seq<ShardPlacement>, answers: seq<Option<Bytes>>, n: nat, raw: seq<Shard>)
    requires n < |group| && n < |answers| && Filled(group, answers, n, raw) && 0 <= group[n].shardIndex
    ensures Filled(group, answers, n + 1, FillSlot(raw, group[n], answers[n]))
  {
    var next := FillSlot(raw, group[n], answers[n]);
    forall x | 0 <= x < TOTAL_SHARDS ensures SlotFilled(group, answers, n + 1, x, next[x]) {
      assert SlotFilled(group, answers, n, x, raw[x]);
      if group[n].shardIndex == x && answers[n].Some? {
        assert LastFor(group, answers, n + 1, x, n);
      } else {
        forall i: nat ensures LastFor(group, answers, n + 1, x, i) <==> LastFor(group, answers, n, x, i) {
        }
      }
    }
  }

  /** The end of a turn of the fetch loops: an answer goes into its slot. */
  method Fill(rawShards: array<Shard>, group: seq<ShardPlacement>, ghost answers: seq<Option<Bytes>>, n: nat,
              answer: Option<Bytes>)
    requires n == |answers| < |group| && 0 <= group[n].shardIndex
    requires rawShards.Length == TOTAL_SHARDS && Filled(group, answers, n, rawShards[..])
    modifies rawShards
    ensures Filled(group, answers + [answer], n + 1, rawShards[..])
  {
    ghost var before := rawShards[..];
    FilledMore(group, answers, answer, n, before);
    var p := group[n];
    if p.shardIndex < TOTAL_SHARDS && answer.Some? {
      rawShards[p.shardIndex] := Shard(p.shardIndex, answer.value);
    }
    assert rawShards[..] == FillSlot(before, p, answer);
  }

  /** For a group in place, one placement for each index, slot `x` is what placement `x` brought. */
  lemma FilledInPlace(group: seq<ShardPlacement>, answers: seq<Option<Bytes>>, raw: seq<Shard>, x: nat)
    requires |group| == |answers| == TOTAL_SHARDS && Filled(group, answers, TOTAL_SHARDS, raw) && x < TOTAL_SHARDS
    requires forall i :: 0 <= i < |group| ==> group[i].shardIndex == i
    ensures raw[x] == Shard(x, match answers[x] case None => [] case Some(plain) => plain)
  {
    assert SlotFilled(group, answers, TOTAL_SHARDS, x, raw[x]);
    if answers[x].Some? {
      assert LastFor(group, answers, TOTAL_SHARDS, x, x);
    }
  }

  // ----- Rebuilding one chunk from what was fetched

  /** The indices at which something was fetched. */
  ghost function Got(raw: seq<Shard>): set<int> {
    set i | 0 <= i < |raw| && raw[i].data != []
  }

  /** Eight shards, in place, each missing or canonical. */
  ghost predicate Fetched(s: Setup, data: Bytes, c: nat, raw: seq<Shard>)
    requires s.Lawful() && c < |Pieces(data)|
  {
    && |raw| == TOTAL_SHARDS
    && forall i :: 0 <= i < TOTAL_SHARDS ==>
        raw[i].index == i && (raw[i].data == [] || raw[i].data == Canonical(s, data, c, i))
  }

  /** A chunk is rebuilt, as its own bytes, exactly when four of its shards were fetched; with fewer,
      the error is the count check's. */
  lemma ChunkRebuilt(s: Setup, data: Bytes, c: nat, raw: seq<Shard>)
    requires s.Lawful() && c < |Pieces(data)| && Fetched(s, data, c, raw)
    ensures var r := Rebuilt(s.code, raw, |Pieces(data)[c]|);
      if |Got(raw)| >= 4 then r == Ok(Pieces(data)[c]) else r == Err(TooFewShards)
  {
    PiecesNotEmpty(data, c);
    var chunk := Pieces(data)[c];
    ShardsShape(s.code, chunk);
    assert Entries(raw, TOTAL_SHARDS, |raw|) == Got(raw);
    assert Surviving(raw, TOTAL_SHARDS) == Got(raw) by {
      forall i | i in Got(raw) ensures i in Surviving(raw, TOTAL_SHARDS) {
        assert raw[i].index == i;
      }
    }
    RebuiltFromSurvivors(s.code, chunk, raw);
  }

  // ----- The download

  /** What one remote call finds: the network's state, the addresses that answer and the tracker. */
  datatype Moment = Moment(world: World, online: set<string>, tracker: bool)

  /** The n-th remote call of a download sees the n-th moment. Between two calls the rest of the
      network takes any number of steps: other uploads, repairs, outages, losses. */
  type History = nat -> Moment

  ghost predicate Unfolds(s: Setup, view: History) {
    && s.Lawful()
    && Reaches(s, START, view(0).world)
    && forall n: nat :: Reaches(s, view(n).world, view(n + 1).world)
  }

  lemma {:induction false} InvAt(s: Setup, view: History, n: nat, f: string)
    requires Unfolds(s, view)
    ensures Inv(s, view(n).world)
    ensures f in view(0).world.originals ==>
      f in view(n).world.originals && view(n).world.originals[f] == view(0).world.originals[f]
  {
    if n == 0 {
      var actions := RunOf(s, START, view(0).world);
      RunKeepsInv(s, START, actions);
    } else {
      InvAt(s, view, n - 1, f);
      assert Reaches(s, view(n - 1).world, view(n - 1 + 1).world);
      var actions := RunOf(s, view(n - 1).world, view(n).world);
      RunKeepsInv(s, view(n - 1).world, actions);
    }
  }

  /** A download begun at any time after an upload, whatever happened in between, is measured against what
      was uploaded: the content it delivers is the content `w` records for the file. */
  lemma UploadIsRemembered(s: Setup, w: World, view: History, f: string)
    requires s.Lawful() && Reaches(s, START, w) && f in w.originals
    requires Reaches(s, w, view(0).world)
    ensures f in view(0).world.originals && view(0).world.originals[f] == w.originals[f]
  {
    var before := RunOf(s, START, w);
    RunKeepsInv(s, START, before);
    var after := RunOf(s, w, view(0).world);
    RunKeepsInv(s, w, after);
  }

  /** What the call for entry `j` of the file brings: the placements were read in call 0, the nodes
      in call 1, and entry `j` is asked for in call 2 + j. */
  function Answer(s: Setup, view: History, list: seq<ShardPlacement>, j: nat): Bytes
    requires j < |list|
  {
    var m := view(2 + j);
    FetchedShard(s, view(1).world.nodes, m.world.servers, m.online, list[j])
  }

  predicate Arrives(s: Setup, view: History, list: seq<ShardPlacement>, c: nat, i: int)
    requires TOTAL_SHARDS * (c + 1) <= |list| && 0 <= i < TOTAL_SHARDS
  {
    Answer(s, view, list, TOTAL_SHARDS * c + i) != []
  }

  ghost function Answers(s: Setup, view: History, list: seq<ShardPlacement>, c: nat): set<int>
    requires TOTAL_SHARDS * (c + 1) <= |list|
  {
    set i | 0 <= i < TOTAL_SHARDS && Arrives(s, view, list, c, i)
  }

  /** The tracker answers, knows the file, and four shards of every chunk arrive. */
  ghost predicate Retrievable(s: Setup, view: History, f: string) {
    && view(0).tracker && view(1).tracker
    && f in view(0).world.placements
    && AllArrive(s, view, view(0).world.placements[f], |view(0).world.placements[f]| / TOTAL_SHARDS)
  }

  datatype Error = TrackerUnavailable | NotFound | ChunkLost(chunk: int, e: Erasure.Error) | OutputFailed

  /** What placement `i` of a group brings when its call is number `tick + i`. */
  function AnswerAt(s: Setup, view: History, nodes: NodeTable, p: ShardPlacement, n: nat): Option<Bytes> {
    Fetch(s, nodes, view(n).world.servers, view(n).online, p)
  }

  /** Placement `j` is asked in call `tick + j`, unless its index is out of range. */
  ghost predicate AskedInTurn(s: Setup, view: History, nodes: NodeTable, group: seq<ShardPlacement>, tick: nat,
                              answers: seq<Option<Bytes>>)
  {
    && |answers| <= |group|
    && forall j: nat :: j < |answers| ==> AskedAt(s, view, nodes, group[j], tick + j, answers[j])
  }

  ghost predicate AskedAt(s: Setup, view: History, nodes: NodeTable, p: ShardPlacement, n: nat, answer: Option<Bytes>) {
    answer == if p.shardIndex < TOTAL_SHARDS then AnswerAt(s, view, nodes, p, n) else None
  }

  lemma AskedMore(s: Setup, view: History, nodes: NodeTable, group: seq<ShardPlacement>, tick: nat,
                  answers: seq<Option<Bytes>>, answer: Option<Bytes>)
    requires AskedInTurn(s, view, nodes, group, tick, answers) && |answers| < |group|
    requires AskedAt(s, view, nodes, group[|answers|], tick + |answers|, answer)
    ensures AskedInTurn(s, view, nodes, group, tick, answers + [answer])
  {
  }

  /** The inner loop of `runGet`: a group of placements, asked for in order. */
  method GatherChunk(s: Setup, view: History, nodes: NodeTable, group: seq<ShardPlacement>, tick: nat)
    returns (raw: seq<Shard>, originalChunkSize: int, ghost answers: seq<Option<Bytes>>)
    requires forall i :: 0 <= i < |group| ==> 0 <= group[i].shardIndex
    ensures |answers| == |group| && AskedInTurn(s, view, nodes, group, tick, answers)
    ensures Filled(group, answers, |group|, raw)
    ensures originalChunkSize == SizeOf(group, |group|)
  {
    var rawShards := new Shard[TOTAL_SHARDS](i => Shard(i, []));
    originalChunkSize := 0;
    answers := [];
    for i := 0 to |group|
      invariant |answers| == i && AskedInTurn(s, view, nodes, group, tick, answers)
      invariant Filled(group, answers, i, rawShards[..])
      invariant originalChunkSize == SizeOf(group, i)
    {
      var p := group[i];
      var plaintext := None;
      if p.shardIndex < TOTAL_SHARDS {
        originalChunkSize := p.originalChunkSize;
        var now := view(tick + i);
        plaintext := FetchShard(s, nodes, now.world.servers, now.online, p);
      }
      Fill(rawShards, group, answers, i, plaintext);
      AskedMore(s, view, nodes, group, tick, answers, plaintext);
      answers := answers + [plaintext];
    }
    raw := rawShards[..];
  }

  /** Answers still to come do not matter. */
  lemma FilledMore(group: seq<ShardPlacement>, answers: seq<Option<Bytes>>, answer: Option<Bytes>, n: nat,
                   raw: seq<Shard>)
    requires n == |answers| < |group| && Filled(group, answers, n, raw) && 0 <= group[n].shardIndex
    ensures Filled(group, answers + [answer], n + 1, FillSlot(raw, group[n], answer))
  {
    var more := answers + [answer];
    forall x | 0 <= x < TOTAL_SHARDS ensures SlotFilled(group, more, n, x, raw[x]) {
      assert SlotFilled(group, answers, n, x, raw[x]);
      forall i: nat ensures LastFor(group, more, n, x, i) <==> LastFor(group, answers, n, x, i) {
      }
    }
    FilledStep(group, more, n, raw);
  }

  lemma FileShaped(s: Setup, w: World, f: string)
    requires Inv(s, w) && f in w.placements
    ensures f in w.originals && Shaped(f, w.originals[f], w.placements[f])
  {
    assert GoodFile(w, f);
  }

  lemma EntryAt(f: string, data: Bytes, list: seq<ShardPlacement>, c: nat, i: nat)
    requires Shaped(f, data, list) && c < |Pieces(data)| && i < TOTAL_SHARDS
    ensures TOTAL_SHARDS * (c + 1) <= |list|
    ensures var j := TOTAL_SHARDS * c + i;
      j / TOTAL_SHARDS == c && j % TOTAL_SHARDS == i && list[j] == Placed(f, data, j, list[j].nodeID)
  {
    var j := TOTAL_SHARDS * c + i;
    assert j < |list|;
    assert EntryShaped(f, data, list, j);
  }

  lemma AnswerIsCanonical(s: Setup, view: History, f: string, data: Bytes, list: seq<ShardPlacement>, c: nat, i: nat)
    requires Shaped(f, data, list) && c < |Pieces(data)| && i < TOTAL_SHARDS
    requires Inv(s, view(2 + TOTAL_SHARDS * c + i).world)
    requires f in view(2 + TOTAL_SHARDS * c + i).world.originals
    requires view(2 + TOTAL_SHARDS * c + i).world.originals[f] == data
    ensures TOTAL_SHARDS * (c + 1) <= |list|
    ensures var got := Answer(s, view, list, TOTAL_SHARDS * c + i); got == [] || got == Canonical(s, data, c, i)
  {
    EntryAt(f, data, list, c, i);
    var j := TOTAL_SHARDS * c + i;
    FetchedIsCanonical(s, view(2 + j).world, view(1).world.nodes, view(2 + j).online, f, j, list[j].nodeID);
  }

  /** What the gathered shards of chunk `c` are. */
  lemma GatheredIsFetched(s: Setup, view: History, f: string, data: Bytes, list: seq<ShardPlacement>, c: nat,
                          raw: seq<Shard>)
    requires Unfolds(s, view) && f in view(0).world.originals && data == view(0).world.originals[f]
    requires Shaped(f, data, list) && c < |Pieces(data)|
    requires |raw| == TOTAL_SHARDS && TOTAL_SHARDS * (c + 1) <= |list|
    requires forall i :: 0 <= i < TOTAL_SHARDS ==> raw[i] == Shard(i, Answer(s, view, list, TOTAL_SHARDS * c + i))
    ensures Fetched(s, data, c, raw)
    ensures Got(raw) == Answers(s, view, list, c)
  {
    forall i | 0 <= i < TOTAL_SHARDS
      ensures raw[i].data == [] || raw[i].data == Canonical(s, data, c, i)
    {
      InvAt(s, view, 2 + TOTAL_SHARDS * c + i, f);
      AnswerIsCanonical(s, view, f, data, list, c, i);
    }
    assert forall i :: 0 <= i < TOTAL_SHARDS ==> (raw[i].data != [] <==> Arrives(s, view, list, c, i));
  }

  /** The group of chunk `c` in place: slot `i` is what entry 8c + i brought. */
  lemma RawInPlace(s: Setup, view: History, list: seq<ShardPlacement>, c: nat, group: seq<ShardPlacement>,
                   answers: seq<Option<Bytes>>, raw: seq<Shard>)
    requires TOTAL_SHARDS * (c + 1) <= |list| && |group| == |answers| == TOTAL_SHARDS
    requires forall i :: 0 <= i < TOTAL_SHARDS ==> group[i] == list[TOTAL_SHARDS * c + i] && group[i].shardIndex == i
    requires AskedInTurn(s, view, view(1).world.nodes, group, 2 + TOTAL_SHARDS * c, answers)
    requires Filled(group, answers, |group|, raw)
    ensures |raw| == TOTAL_SHARDS
    ensures forall i :: 0 <= i < TOTAL_SHARDS ==> raw[i] == Shard(i, Answer(s, view, list, TOTAL_SHARDS * c + i))
  {
    forall i | 0 <= i < TOTAL_SHARDS ensures raw[i] == Shard(i, Answer(s, view, list, TOTAL_SHARDS * c + i)) {
      FilledInPlace(group, answers, raw, i);
      assert AskedAt(s, view, view(1).world.nodes, group[i], 2 + TOTAL_SHARDS * c + i, answers[i]);
    }
  }

  /** What a published file's map has for chunk `c`. */
  lemma GroupInPlace(f: string, data: Bytes, list: seq<ShardPlacement>, byChunk: map<int, seq<ShardPlacement>>, c: nat)
    requires Shaped(f, data, list) && c < |Pieces(data)| && Grouped(byChunk, list, |list|)
    ensures c in byChunk && |byChunk[c]| == TOTAL_SHARDS && TOTAL_SHARDS * (c + 1) <= |list|
    ensures forall i :: 0 <= i < TOTAL_SHARDS ==>
      byChunk[c][i] == list[TOTAL_SHARDS * c + i] && byChunk[c][i].shardIndex == i
    ensures SizeOf(byChunk[c], TOTAL_SHARDS) == |Pieces(data)[c]|
  {
    GroupedShaped(f, data, list, byChunk);
    forall i | 0 <= i < TOTAL_SHARDS
      ensures byChunk[c][i] == list[TOTAL_SHARDS * c + i]
      ensures byChunk[c][i].shardIndex == i && byChunk[c][i].originalChunkSize == |Pieces(data)[c]|
    {
      EntryAt(f, data, list, c, i);
    }
  }

  /** The loop body of `runGet` up to the chunk's bytes. */
  method FetchChunk(s: Setup, view: History, f: string, ghost data: Bytes, ghost list: seq<ShardPlacement>,
                    byChunk: map<int, seq<ShardPlacement>>, c: nat)
    returns (r: Result<Bytes, Erasure.Error>)
    requires Unfolds(s, view) && f in view(0).world.originals && data == view(0).world.originals[f]
    requires Shaped(f, data, list) && c < |Pieces(data)|
    requires Grouped(byChunk, list, |list|)
    ensures r == if ChunkArrives(s, view, list, c) then Ok(Pieces(data)[c]) else Err(TooFewShards)
  {
    GroupInPlace(f, data, list, byChunk, c);
    var group := byChunk[c];
    var raw, size;
    ghost var answers;
    raw, size, answers := GatherChunk(s, view, view(1).world.nodes, group, 2 + TOTAL_SHARDS * c);
    RawInPlace(s, view, list, c, group, answers, raw);
    GatheredIsFetched(s, view, f, data, list, c, raw);
    ChunkRebuilt(s, data, c, raw);
    r := Reconstruct(s.code, raw, size);
  }

  ghost predicate ChunkArrives(s: Setup, view: History, list: seq<ShardPlacement>, c: nat) {
    TOTAL_SHARDS * (c + 1) <= |list| ==> |Answers(s, view, list, c)| >= 4
  }

  ghost predicate AllArrive(s: Setup, view: History, list: seq<ShardPlacement>, n: nat) {
    forall k: nat :: k < n ==> ChunkArrives(s, view, list, k)
  }

  ghost predicate FirstLost(s: Setup, view: History, list: seq<ShardPlacement>, c: nat) {
    c < |list| / TOTAL_SHARDS && !ChunkArrives(s, view, list, c) && AllArrive(s, view, list, c)
  }

  lemma OneFirstLost(s: Setup, view: History, list: seq<ShardPlacement>, c: nat)
    requires FirstLost(s, view, list, c)
    ensures forall d: nat :: FirstLost(s, view, list, d) ==> d == c
  {
    forall d: nat | FirstLost(s, view, list, d) ensures d == c {
      assert d < c ==> ChunkArrives(s, view, list, d);
      assert c < d ==> ChunkArrives(s, view, list, c);
    }
  }

  lemma AllArriveStep(s: Setup, view: History, list: seq<ShardPlacement>, n: nat)
    requires AllArrive(s, view, list, n)
    ensures AllArrive(s, view, list, n + 1) <==> ChunkArrives(s, view, list, n)
  {
  }

  ghost predicate ChunksOf(chunks: seq<Chunker.Chunk>, pieces: seq<Bytes>, n: nat, hash: Bytes -> Chunker.Digest) {
    && |chunks| == n <= |pieces|
    && forall k :: 0 <= k < n ==> chunks[k] == Chunker.ChunkOf(k, pieces[k], hash)
  }

  lemma ChunksOfStep(chunks: seq<Chunker.Chunk>, pieces: seq<Bytes>, n: nat, hash: Bytes -> Chunker.Digest)
    requires ChunksOf(chunks, pieces, n, hash) && n < |pieces|
    ensures ChunksOf(chunks + [Chunker.ChunkOf(n, pieces[n], hash)], pieces, n + 1, hash)
  {
  }

  /** The chunk loop of `runGet`: every chunk in index order, or the first that cannot be rebuilt. */
  method FetchChunks(s: Setup, view: History, f: string, ghost data: Bytes, list: seq<ShardPlacement>,
                     hash: Bytes -> Chunker.Digest)
    returns (r: Result<seq<Chunker.Chunk>, Error>)
    requires Unfolds(s, view) && f in view(0).world.originals && data == view(0).world.originals[f]
    requires Shaped(f, data, list)
    ensures r.Ok? ==>
      ChunksOf(r.value, Pieces(data), |Pieces(data)|, hash) && AllArrive(s, view, list, |list| / TOTAL_SHARDS)
    ensures r.Err? ==> exists c: nat :: FirstLost(s, view, list, c) && r.error == ChunkLost(c, TooFewShards)
  {
    var byChunk := GroupByChunk(list);
    var chunkIndices := SortedIndices(byChunk.Keys);
    ChunksInOrder(f, data, list, byChunk, chunkIndices);
    var chunks: seq<Chunker.Chunk> := [];
    for c := 0 to |chunkIndices|
      invariant ChunksOf(chunks, Pieces(data), c, hash)
      invariant AllArrive(s, view, list, c)
    {
      var ci := chunkIndices[c];
      var reconstructed := FetchChunk(s, view, f, data, list, byChunk, ci);
      if reconstructed.Err? {
        assert FirstLost(s, view, list, c);
        return Err(ChunkLost(ci, reconstructed.error));
      }
      AllArriveStep(s, view, list, c);
      ChunksOfStep(chunks, Pieces(data), c, hash);
      chunks := chunks + [Chunker.ChunkOf(ci, reconstructed.value, hash)];
    }
    return Ok(chunks);
  }

  lemma ChunksInOrder(f: string, data: Bytes, list: seq<ShardPlacement>, byChunk: map<int, seq<ShardPlacement>>,
                      chunkIndices: seq<int>)
    requires Shaped(f, data, list) && Grouped(byChunk, list, |list|)
    requires |chunkIndices| == |byChunk.Keys| && Ascending(chunkIndices)
    requires forall i :: 0 <= i < |chunkIndices| ==> chunkIndices[i] in byChunk.Keys
    ensures |chunkIndices| == |Pieces(data)| && forall c :: 0 <= c < |chunkIndices| ==> chunkIndices[c] == c
    ensures |list| == TOTAL_SHARDS * |chunkIndices|
  {
    GroupedShaped(f, data, list, byChunk);
    RangeSorted(chunkIndices, byChunk.Keys, |Pieces(data)|);
  }

  /** The end of `runGet`: create the output file and write the chunks into it. */
  method WriteOutput(ghost data: Bytes, chunks: seq<Chunker.Chunk>, hash: Bytes -> Chunker.Digest,
                     output: Chunker.Writer)
    returns (ok: bool)
    requires ChunksOf(chunks, Pieces(data), |Pieces(data)|, hash)
    modifies output
    ensures ok ==> output.out == data
    ensures !ok ==> !output.reliable && (output.out == old(output.out) || output.out <= data)
  {
    if !output.reliable {
      var createFails: bool := *;
      if createFails {
        return false;
      }
    }
    output.out := [];
    Chunker.CutIsCut(data, Chunker.DEFAULT_CHUNK_SIZE);
    Chunker.ContentsOfPieces(chunks, Pieces(data));
    assert forall i :: 0 <= i < |chunks| ==> Chunker.Sound(chunks, i, hash);
    var written := Chunker.Reassemble(chunks, output, hash);
    ok := written.Ok?;
  }

  /** `runGet`. Whatever happens to the network meanwhile, the output is the file that was put, or
      the download fails without touching the output file, or writing that very content is cut short.
      It gets as far as writing exactly when four shards of every chunk arrive. */
  method Get(s: Setup, view: History, f: string, hash: Bytes -> Chunker.Digest, output: Chunker.Writer)
    returns (r: Result<(), Error>)
    requires Unfolds(s, view)
    modifies output
    ensures r.Ok? ==> f in view(0).world.originals && output.out == view(0).world.originals[f]
    ensures r.Err? && r.error != OutputFailed ==> output.out == old(output.out)
    ensures r == Err(OutputFailed) ==>
      && !output.reliable
      && (output.out == old(output.out) || (f in view(0).world.originals && output.out <= view(0).world.originals[f]))
    ensures r.Ok? || r.error == OutputFailed <==> Retrievable(s, view, f)
    ensures r == Err(NotFound) <==> view(0).tracker && f !in view(0).world.placements
    ensures r == Err(TrackerUnavailable)
       <==> !view(0).tracker || (f in view(0).world.placements && !view(1).tracker)
    ensures view(0).tracker && view(1).tracker && f in view(0).world.placements ==> forall c: nat ::
      FirstLost(s, view, view(0).world.placements[f], c) <==> r == Err(ChunkLost(c, TooFewShards))
  {
    if !view(0).tracker {
      return Err(TrackerUnavailable);
    }
    if f !in view(0).world.placements {
      return Err(NotFound);
    }
    var placements := view(0).world.placements[f];
    if !view(1).tracker {
      return Err(TrackerUnavailable);
    }
    InvAt(s, view, 0, f);
    FileShaped(s, view(0).world, f);
    ghost var data := view(0).world.originals[f];
    var chunks := FetchChunks(s, view, f, data, placements, hash);
    if chunks.Err? {
      OneFirstLost(s, view, placements, chunks.error.chunk);
      return Err(chunks.error);
    }
    var ok := WriteOutput(data, chunks.value, hash, output);
    r := if ok then Ok(()) else Err(OutputFailed);
  }
}
