/** Rebuilding the shards of dead nodes: `internal/repair/repair.go`. */
module Repair {
  import opened Base
  import opened Cluster
  import opened Download
  import opened Erasure
  import opened Placements
  import opened ShardIds
  import opened ShardServer
  import opened Storage
  import opened Tracker

  datatype Error = Unrecoverable(fileID: string, chunk: int) | SelectFailed | EncryptFailed
    | UploadFailed(shardID: string, nodeID: string)

  // ----- Why a repair fails

  /** Where to look for the reason of an error: the call in which something was sent, the nonce drawn, the chunk and
      the shard, and the calls in which a chunk's shards were asked for. */
  datatype Cause = Cause(sent: nat, drawn: nat, chunk: nat, shard: nat, asked: seq<nat>)

  const NO_CAUSE := Cause(0, 0, 0, 0, [])

  /** The error has a reason in the node table or in a call or draw since the record `from`: no node is eligible, the
      random source failed, the selected node did not answer, was gone or had no room for the shard, or fewer than
      four of a chunk's shards were brought by the healthy nodes asked for them. */
  ghost predicate Blamed(from: Record, r: Record, nodes: NodeTable, healthy: NodeTable, f: string, data: Bytes,
                         list: seq<ShardPlacement>, why: Cause, e: Error)
    requires r.Lawful()
  {
    match e
    case SelectFailed => EligibleIDs(nodes, 0) == {}
    case EncryptFailed => from.draws <= why.drawn < r.draws && r.env.nonce(why.drawn).None?
    case UploadFailed(id, nodeID) =>
      && |from.log| <= why.sent < |r.log| && from.draws <= why.drawn < r.draws
      && why.chunk < |Pieces(data)| && why.shard < 8 && id == ShardId(f, why.chunk, why.shard)
      && nodeID == FirstSelected(r.order, nodes) && nodeID in nodes
      && exists sealed :: TargetRefused(r, nodes[nodeID].address, data, why, sealed)
    case Unrecoverable(file, c) =>
      && file == f && 0 <= c && 8 * (c + 1) <= |list|
      && TooFewBrought(from, r, healthy, list[8 * c..8 * (c + 1)], why.asked)
  }

  ghost predicate TargetRefused(r: Record, addr: string, data: Bytes, why: Cause, sealed: Bytes)
    requires r.Lawful() && why.chunk < |Pieces(data)| && why.shard < 8
  {
    && Sealed(r.s, r.env, Canonical(r.s, data, why.chunk, why.shard), why.drawn, sealed)
    && why.sent < |r.log| && Refuses(r.log[why.sent], addr, sealed)
  }

  /** All shards on healthy nodes were asked for, and fewer than four were brought. */
  ghost predicate TooFewBrought(from: Record, r: Record, healthy: NodeTable, group: seq<ShardPlacement>,
                                asked: seq<nat>)
  {
    && |asked| == |group|
    && (forall i :: 0 <= i < |group| && group[i].nodeID in healthy ==> |from.log| <= asked[i] < |r.log|)
    && |Brought(r, healthy, group, asked)| < 4
  }

  ghost function Brought(r: Record, healthy: NodeTable, group: seq<ShardPlacement>, asked: seq<nat>): set<int> {
    set i | 0 <= i < |group| && i < |asked| && BroughtAt(r, healthy, group[i], asked[i])
  }

  ghost predicate BroughtAt(r: Record, healthy: NodeTable, p: ShardPlacement, n: nat) {
    && p.nodeID in healthy && n < |r.log|
    && FetchedShard(r.s, healthy, r.log[n].world.servers, r.log[n].air.up, p) != []
  }

  lemma BlamedEarlier(from: Record, later: Record, r: Record, nodes: NodeTable, healthy: NodeTable, f: string,
                      data: Bytes, list: seq<ShardPlacement>, why: Cause, e: Error)
    requires r.Lawful() && Continues(from, later) && Blamed(later, r, nodes, healthy, f, data, list, why, e)
    ensures Blamed(from, r, nodes, healthy, f, data, list, why, e)
  {
  }

  /** Placement `p`, if its node is healthy, was asked for in call `n`, which found the moment `m`. */
  ghost predicate CallSeen(from: Record, r: Record, healthy: NodeTable, p: ShardPlacement, m: Moment, n: nat) {
    p.nodeID in healthy ==> |from.log| <= n < |r.log| && r.log[n].world == m.world && r.log[n].air.up == m.online
  }

  ghost predicate CallsSeen(from: Record, r: Record, healthy: NodeTable, group: seq<ShardPlacement>, seen: seq<Moment>,
                            asked: seq<nat>)
  {
    && |asked| == |seen| <= |group|
    && forall i :: 0 <= i < |asked| ==> CallSeen(from, r, healthy, group[i], seen[i], asked[i])
  }

  lemma CallsSeenMore(from: Record, r: Record, r': Record, healthy: NodeTable, group: seq<ShardPlacement>,
                      seen: seq<Moment>, asked: seq<nat>, m: Moment, n: nat)
    requires CallsSeen(from, r, healthy, group, seen, asked) && Continues(r, r') && |seen| < |group|
    requires CallSeen(from, r', healthy, group[|seen|], m, n)
    ensures CallsSeen(from, r', healthy, group, seen + [m], asked + [n])
  {
    forall i | 0 <= i < |asked| ensures CallSeen(from, r', healthy, group[i], seen[i], asked[i]) {
      assert CallSeen(from, r, healthy, group[i], seen[i], asked[i]);
      if group[i].nodeID in healthy {
        ContinuesAt(r, r', asked[i]);
      }
    }
  }

  // ----- What a repair does to a placement list

  /** The list with every entry on a dead node moved to node `target`, and nothing else changed. */
  function Moved(list: seq<ShardPlacement>, dead: set<string>, target: string): seq<ShardPlacement> {
    seq(|list|, j requires 0 <= j < |list| => if list[j].nodeID in dead then list[j].(nodeID := target) else list[j])
  }

  /** How many of the first `n` entries sit on dead nodes. */
  function DeadCount(list: seq<ShardPlacement>, dead: set<string>, n: nat): nat
    requires n <= |list|
  {
    if n == 0 then 0 else DeadCount(list, dead, n - 1) + if list[n - 1].nodeID in dead then 1 else 0
  }

  /** The positions below `n` that are on dead nodes. */
  ghost function DeadAt(list: seq<ShardPlacement>, dead: set<string>, n: nat): set<int> {
    set j | 0 <= j < n && j < |list| && list[j].nodeID in dead
  }

  lemma {:induction false} DeadCountIs(list: seq<ShardPlacement>, dead: set<string>, n: nat)
    requires n <= |list|
    ensures DeadCount(list, dead, n) == |DeadAt(list, dead, n)|
  {
    if n > 0 {
      DeadCountIs(list, dead, n - 1);
      assert DeadAt(list, dead, n) == DeadAt(list, dead, n - 1) + if list[n - 1].nodeID in dead then {n - 1} else {};
    }
  }

  lemma ShapedMoved(f: string, data: Bytes, list: seq<ShardPlacement>, dead: set<string>, target: string)
    requires Shaped(f, data, list)
    ensures Shaped(f, data, Moved(list, dead, target))
  {
    forall j: nat ensures EntryShaped(f, data, Moved(list, dead, target), j) {
      assert EntryShaped(f, data, list, j);
    }
  }

  // ----- Rebuilding one chunk

  /** Shards of chunk `c` that can be fetched from the healthy nodes. */
  ghost function Fetchable(s: Setup, healthy: NodeTable, servers: map<string, Server>, online: set<string>,
                           group: seq<ShardPlacement>): set<int>
  {
    set i | 0 <= i < |group| && FetchedShard(s, healthy, servers, online, group[i]) != []
  }

  /** While shards are fetched only others act, on nodes and shards. */
  ghost predicate Came(s: Setup, calm: Calm, w: World, w': World) {
    Passed(s, calm, w, w') && SameTracker(w, w') && Inv(s, w') && Remembers(w, w')
  }

  /** A moment at which a shard was asked for. */
  ghost predicate Seen(s: Setup, calm: Calm, w: World, m: Moment) {
    Came(s, calm, w, m.world) && (calm.Some? ==> calm.value.keeps <= m.online)
  }

  /** One turn of the fetch loop: an unhealthy node is not asked. */
  method FetchNext(net: Network, ghost calm: Calm, ghost start: World, dead: set<string>, healthy: NodeTable,
                   p: ShardPlacement)
    returns (plain: Option<Bytes>, ghost now: Moment, ghost n: nat)
    requires net.Valid() && net.env.LeavesTracker() && CalmIn(net.s, net.env, calm) && dead !! healthy.Keys
    requires Came(net.s, calm, start, net.View())
    modifies net
    ensures net.Valid() && Came(net.s, calm, start, net.View())
    ensures AnsweredAt(net.s, calm, start, healthy, p, now, plain)
    ensures Continues(old(net.Done()), net.Done())
    ensures CallSeen(old(net.Done()), net.Done(), healthy, p, now, n)
  {
    if p.nodeID in dead || p.nodeID !in healthy {
      return None, Moment(net.View(), if calm.Some? then calm.value.keeps else {}, true), 0;
    }
    ghost var w := net.View();
    n := net.calls;
    var air := net.PassNodes(calm);
    PassedTransitive(net.s, calm, start, w, net.View());
    now := Moment(net.View(), air.up, true);
    plain := FetchShard(net.s, healthy, net.servers, air.up, p);
  }

  ghost predicate AllSeen(s: Setup, calm: Calm, w: World, seen: seq<Moment>) {
    forall i :: 0 <= i < |seen| ==> Seen(s, calm, w, seen[i])
  }

  /** Each placement's answer is what its node brought at the moment it was asked. */
  ghost predicate AllAnswered(s: Setup, calm: Calm, w: World, healthy: NodeTable, group: seq<ShardPlacement>,
                           seen: seq<Moment>, answers: seq<Option<Bytes>>)
  {
    && |seen| == |answers| <= |group|
    && forall i :: 0 <= i < |seen| ==> AnsweredAt(s, calm, w, healthy, group[i], seen[i], answers[i])
  }

  ghost predicate AnsweredAt(s: Setup, calm: Calm, w: World, healthy: NodeTable, p: ShardPlacement, m: Moment,
                             answer: Option<Bytes>)
  {
    Seen(s, calm, w, m) && answer == Fetch(s, healthy, m.world.servers, m.online, p)
  }

  lemma AnsweredMore(s: Setup, calm: Calm, w: World, healthy: NodeTable, group: seq<ShardPlacement>,
                     seen: seq<Moment>, answers: seq<Option<Bytes>>, m: Moment, answer: Option<Bytes>)
    requires AllAnswered(s, calm, w, healthy, group, seen, answers) && |seen| < |group|
    requires AnsweredAt(s, calm, w, healthy, group[|seen|], m, answer)
    ensures AllAnswered(s, calm, w, healthy, group, seen + [m], answers + [answer])
  {
  }

  /** What the fetch loop has found: the moments of its calls, their answers and their numbers. */
  ghost predicate Gathered(calm: Calm, w: World, from: Record, r: Record, healthy: NodeTable,
                           group: seq<ShardPlacement>, seen: seq<Moment>, answers: seq<Option<Bytes>>, asked: seq<nat>)
  {
    && Continues(from, r)
    && AllAnswered(r.s, calm, w, healthy, group, seen, answers)
    && CallsSeen(from, r, healthy, group, seen, asked)
  }

  lemma GatheredMore(calm: Calm, w: World, from: Record, r: Record, r': Record, healthy: NodeTable,
                     group: seq<ShardPlacement>, seen: seq<Moment>, answers: seq<Option<Bytes>>, asked: seq<nat>,
                     m: Moment, answer: Option<Bytes>, n: nat)
    requires Gathered(calm, w, from, r, healthy, group, seen, answers, asked) && |seen| < |group| && Continues(r, r')
    requires AnsweredAt(r'.s, calm, w, healthy, group[|seen|], m, answer)
    requires CallSeen(r, r', healthy, group[|seen|], m, n)
    ensures Gathered(calm, w, from, r', healthy, group, seen + [m], answers + [answer], asked + [n])
  {
    ContinuesTransitive(from, r, r');
    AnsweredMore(r'.s, calm, w, healthy, group, seen, answers, m, answer);
    CallsSeenMore(from, r, r', healthy, group, seen, asked, m, n);
  }

  /** The fetch loop: whatever cannot be fetched stays missing. Each fetch finds the network at another moment. */
  method Gather(net: Network, ghost calm: Calm, dead: set<string>, healthy: NodeTable, group: seq<ShardPlacement>)
    returns (raw: seq<Shard>, originalChunkSize: int, ghost seen: seq<Moment>, ghost answers: seq<Option<Bytes>>,
             ghost asked: seq<nat>)
    requires net.Valid() && net.env.LeavesTracker() && CalmIn(net.s, net.env, calm) && dead !! healthy.Keys
    requires forall i :: 0 <= i < |group| ==> 0 <= group[i].shardIndex < TOTAL_SHARDS
    modifies net
    ensures net.Valid() && Came(net.s, calm, old(net.View()), net.View())
    ensures |seen| == |group|
    ensures Gathered(calm, old(net.View()), old(net.Done()), net.Done(), healthy, group, seen, answers, asked)
    ensures Filled(group, answers, |group|, raw)
    ensures originalChunkSize == SizeOf(group, |group|)
  {
    ghost var start := net.View();
    PassedItself(net.s, calm, start);
    var rawShards := new Shard[TOTAL_SHARDS](i => Shard(i, []));
    originalChunkSize, seen, answers, asked := 0, [], [], [];
    ghost var first := net.Done();
    for i := 0 to |group|
      invariant net.Valid() && Came(net.s, calm, start, net.View())
      invariant |seen| == i && Gathered(calm, start, first, net.Done(), healthy, group, seen, answers, asked)
      invariant Filled(group, answers, i, rawShards[..])
      invariant originalChunkSize == SizeOf(group, i)
    {
      var p := group[i];
      originalChunkSize := p.originalChunkSize;
      var plain;
      ghost var now, n, done := Moment(start, {}, true), 0, net.Done();
      plain, now, n := FetchNext(net, calm, start, dead, healthy, p);
      GatheredMore(calm, start, first, done, net.Done(), healthy, group, seen, answers, asked, now, plain, n);
      Fill(rawShards, group, answers, i, plain);
      seen, answers, asked := seen + [now], answers + [plain], asked + [n];
    }
    raw := rawShards[..];
  }

  ghost predicate GroupOf(f: string, data: Bytes, c: nat, group: seq<ShardPlacement>) {
    && c < |Pieces(data)| && |group| == TOTAL_SHARDS
    && forall i :: 0 <= i < TOTAL_SHARDS ==>
        group[i] == ShardPlacement(ShardId(f, c, i), f, c, i, group[i].nodeID, |Pieces(data)[c]|)
  }

  /** The indices at which the fetches, each at its own moment, brought a shard. */
  ghost function Arrived(s: Setup, healthy: NodeTable, seen: seq<Moment>, group: seq<ShardPlacement>): set<int>
    requires |seen| == |group|
  {
    set i | 0 <= i < |group| && FetchedShard(s, healthy, seen[i].world.servers, seen[i].online, group[i]) != []
  }

  /** What the steady nodes held at the start arrives, whatever else may. */
  lemma ArrivedWhenCalm(s: Setup, healthy: NodeTable, calm: Calm, w: World, seen: seq<Moment>,
                        group: seq<ShardPlacement>)
    requires |seen| == |group| && calm.Some? && AllSeen(s, calm, w, seen)
    ensures Fetchable(s, healthy, w.servers, calm.value.keeps, group) <= Arrived(s, healthy, seen, group)
  {
    var keeps := calm.value.keeps;
    forall i | i in Fetchable(s, healthy, w.servers, keeps, group) ensures i in Arrived(s, healthy, seen, group) {
      assert Seen(s, calm, w, seen[i]);
      HeldMeansFetched(s, healthy, w.servers, keeps, group[i]);
      HeldKept(s, keeps, healthy, w.servers, seen[i].world.servers, group[i]);
      HeldMeansFetched(s, healthy, seen[i].world.servers, seen[i].online, group[i]);
    }
  }

  /** Whatever moment it was fetched at, a shard is missing or the canonical one. */
  lemma GatheredIsCanonical(s: Setup, healthy: NodeTable, calm: Calm, w: World, f: string, data: Bytes, c: nat,
                            group: seq<ShardPlacement>, seen: seq<Moment>, answers: seq<Option<Bytes>>, raw: seq<Shard>)
    requires s.Lawful() && f in w.originals && w.originals[f] == data && GroupOf(f, data, c, group)
    requires |seen| == |answers| == |group| && Filled(group, answers, |group|, raw)
    requires AllAnswered(s, calm, w, healthy, group, seen, answers)
    ensures AllSeen(s, calm, w, seen) && Fetched(s, data, c, raw) && Got(raw) == Arrived(s, healthy, seen, group)
  {
    forall i | 0 <= i < |seen| ensures Seen(s, calm, w, seen[i]) {
      assert AnsweredAt(s, calm, w, healthy, group[i], seen[i], answers[i]);
    }
    forall i | 0 <= i < TOTAL_SHARDS
      ensures raw[i] == Shard(i, FetchedShard(s, healthy, seen[i].world.servers, seen[i].online, group[i]))
      ensures raw[i].data == [] || raw[i].data == Canonical(s, data, c, i)
    {
      FilledInPlace(group, answers, raw, i);
      assert AnsweredAt(s, calm, w, healthy, group[i], seen[i], answers[i]);
      var j := TOTAL_SHARDS * c + i;
      assert group[i] == Placed(f, data, j, group[i].nodeID);
      FetchedIsCanonical(s, seen[i].world, healthy, seen[i].online, f, j, group[i].nodeID);
    }
  }

  lemma BroughtIsArrived(from: Record, r: Record, healthy: NodeTable, group: seq<ShardPlacement>, seen: seq<Moment>,
                         asked: seq<nat>)
    requires CallsSeen(from, r, healthy, group, seen, asked) && |seen| == |group|
    ensures Brought(r, healthy, group, asked) == Arrived(r.s, healthy, seen, group)
    ensures forall i :: 0 <= i < |group| && group[i].nodeID in healthy ==> |from.log| <= asked[i] < |r.log|
  {
    forall i | 0 <= i < |group|
      ensures i in Brought(r, healthy, group, asked) <==> i in Arrived(r.s, healthy, seen, group)
      ensures group[i].nodeID in healthy ==> |from.log| <= asked[i] < |r.log|
    {
      assert CallSeen(from, r, healthy, group[i], seen[i], asked[i]);
    }
  }

  /** Decode and re-encode: from any four healthy shards, fetched at whatever moments, all eight canonical shards
      again. */
  method Rebuild(net: Network, ghost calm: Calm, f: string, ghost data: Bytes, dead: set<string>, healthy: NodeTable,
                 group: seq<ShardPlacement>, c: nat)
    returns (r: Result<seq<Shard>, Error>, ghost seen: seq<Moment>, ghost asked: seq<nat>)
    requires net.Valid() && net.env.LeavesTracker() && CalmIn(net.s, net.env, calm) && net.Holds(f, data)
    requires GroupOf(f, data, c, group) && dead !! healthy.Keys
    modifies net
    ensures net.Valid() && Passed(net.s, calm, old(net.View()), net.View()) && net.Holds(f, data)
    ensures r == Err(Unrecoverable(f, c)) || r.Ok?
    ensures Continues(old(net.Done()), net.Done())
    ensures r.Err? ==> TooFewBrought(old(net.Done()), net.Done(), healthy, group, asked)
    ensures |seen| == |group| && AllSeen(net.s, calm, old(net.View()), seen)
    ensures r.Ok? <==> |Arrived(net.s, healthy, seen, group)| >= 4
    ensures calm.Some? ==>
      Fetchable(net.s, healthy, old(net.servers), calm.value.keeps, group) <= Arrived(net.s, healthy, seen, group)
    ensures r.Ok? ==> AllCanonical(net.s, data, c, r.value)
  {
    ghost var w := net.View();
    var raw, originalChunkSize;
    ghost var answers;
    ghost var first := net.Done();
    raw, originalChunkSize, seen, answers, asked := Gather(net, calm, dead, healthy, group);
    GatheredIsCanonical(net.s, healthy, calm, w, f, data, c, group, seen, answers, raw);
    if calm.Some? {
      ArrivedWhenCalm(net.s, healthy, calm, w, seen, group);
    }
    ChunkRebuilt(net.s, data, c, raw);
    var chunk := Reconstruct(net.s.code, raw, originalChunkSize);
    if chunk.Err? {
      BroughtIsArrived(first, net.Done(), healthy, group, seen, asked);
      return Err(Unrecoverable(f, c)), seen, asked;
    }
    var freshShards := Encode(net.s.code, chunk.value);
    r := Ok(freshShards);
  }

  // ----- How far a repair of one list has come

  /** The placement is on a healthy node that may answer, and holds the shard if it is a steady one. */
  ghost predicate Reached(s: Setup, nodes: NodeTable, servers: map<string, Server>, calm: Calm, p: ShardPlacement) {
    && p.nodeID in nodes && nodes[p.nodeID].isHealthy
    && (calm.Some? ==>
        && nodes[p.nodeID].address in calm.value.answers
        && (nodes[p.nodeID].address in calm.value.keeps ==> Held(s, nodes, servers, p)))
  }

  lemma ReachedKept(s: Setup, nodes: NodeTable, before: map<string, Server>, after: map<string, Server>, calm: Calm,
                    p: ShardPlacement)
    requires Reached(s, nodes, before, calm, p) && (calm.Some? ==> KeptOn(s, calm.value.keeps, before, after))
    ensures Reached(s, nodes, after, calm, p)
  {
    if calm.Some? && nodes[p.nodeID].address in calm.value.keeps {
      HeldKept(s, calm.value.keeps, nodes, before, after, p);
    }
  }

  /** The chunks of `done` are handled, and of chunk `c` the positions below `idx`. */
  datatype Stage = Stage(done: set<int>, c: int, idx: nat)

  ghost predicate Due(list: seq<ShardPlacement>, dead: set<string>, at: Stage, j: nat)
    requires j < |list|
  {
    list[j].nodeID in dead && (list[j].chunkIndex in at.done || (list[j].chunkIndex == at.c && j < at.idx))
  }

  /** A due entry has moved to the target, which answers and holds its shard; any other is as it was. */
  ghost predicate EntryDone(s: Setup, w: World, calm: Calm, list: seq<ShardPlacement>, dead: set<string>,
                            target: string, at: Stage, updated: seq<ShardPlacement>, j: nat)
  {
    j < |list| == |updated| ==>
      if Due(list, dead, at, j) then
        updated[j] == list[j].(nodeID := target) && Reached(s, w.nodes, w.servers, calm, updated[j])
      else updated[j] == list[j]
  }

  ghost predicate Progress(s: Setup, w: World, calm: Calm, list: seq<ShardPlacement>, dead: set<string>,
                           target: string, at: Stage, updated: seq<ShardPlacement>)
  {
    |updated| == |list| && forall j: nat :: EntryDone(s, w, calm, list, dead, target, at, updated, j)
  }

  ghost function DueCount(list: seq<ShardPlacement>, dead: set<string>, at: Stage, n: nat): nat
    requires n <= |list|
  {
    if n == 0 then 0 else DueCount(list, dead, at, n - 1) + if Due(list, dead, at, n - 1) then 1 else 0
  }

  /** Two stages with the same due entries are the same progress. */
  lemma SameStage(s: Setup, w: World, calm: Calm, list: seq<ShardPlacement>, dead: set<string>,
                  target: string, at: Stage, at': Stage, updated: seq<ShardPlacement>)
    requires Progress(s, w, calm, list, dead, target, at, updated)
    requires forall j: nat :: j < |list| ==> Due(list, dead, at, j) == Due(list, dead, at', j)
    ensures Progress(s, w, calm, list, dead, target, at', updated)
    ensures DueCount(list, dead, at', |list|) == DueCount(list, dead, at, |list|)
  {
    forall j: nat ensures EntryDone(s, w, calm, list, dead, target, at', updated, j) {
      assert EntryDone(s, w, calm, list, dead, target, at, updated, j);
    }
    SameCount(list, dead, at, at', |list|);
  }

  lemma {:induction false} SameCount(list: seq<ShardPlacement>, dead: set<string>, at: Stage, at': Stage, n: nat)
    requires n <= |list| && forall j: nat :: j < n ==> Due(list, dead, at, j) == Due(list, dead, at', j)
    ensures DueCount(list, dead, at', n) == DueCount(list, dead, at, n)
  {
    if n > 0 {
      SameCount(list, dead, at, at', n - 1);
    }
  }

  lemma {:induction false} OneMoreDue(list: seq<ShardPlacement>, dead: set<string>, at: Stage, n: nat)
    requires at.idx < n <= |list| && Due(list, dead, at.(idx := at.idx + 1), at.idx) && !Due(list, dead, at, at.idx)
    ensures DueCount(list, dead, at.(idx := at.idx + 1), n) == DueCount(list, dead, at, n) + 1
  {
    if n == at.idx + 1 {
      SameCount(list, dead, at, at.(idx := at.idx + 1), n - 1);
    } else {
      OneMoreDue(list, dead, at, n - 1);
    }
  }

  /** Moving entry `at.idx` advances the stage past it. */
  lemma ProgressStep(s: Setup, w: World, w': World, calm: Calm, list: seq<ShardPlacement>, dead: set<string>,
                     target: string, at: Stage, to: Stage, updated: seq<ShardPlacement>, next: seq<ShardPlacement>)
    requires Progress(s, w, calm, list, dead, target, at, updated) && Passed(s, calm, w, w') && w'.nodes == w.nodes
    requires at.idx < |list| && list[at.idx].nodeID in dead && list[at.idx].chunkIndex == at.c && at.c !in at.done
    requires Reached(s, w'.nodes, w'.servers, calm, list[at.idx].(nodeID := target))
    requires to == at.(idx := at.idx + 1) && next == updated[at.idx := list[at.idx].(nodeID := target)]
    ensures Progress(s, w', calm, list, dead, target, to, next)
    ensures DueCount(list, dead, to, |list|) == DueCount(list, dead, at, |list|) + 1
  {
    OneMoreDue(list, dead, at, |list|);
    ProgressKept(s, w, w', calm, list, dead, target, at, updated);
    forall j: nat ensures EntryDone(s, w', calm, list, dead, target, to, next, j) {
      assert EntryDone(s, w', calm, list, dead, target, at, updated, j);
    }
  }

  /** Progress survives uploads. */
  lemma ProgressKept(s: Setup, w: World, w': World, calm: Calm, list: seq<ShardPlacement>, dead: set<string>,
                     target: string, at: Stage, updated: seq<ShardPlacement>)
    requires Progress(s, w, calm, list, dead, target, at, updated) && Passed(s, calm, w, w') && w'.nodes == w.nodes
    ensures Progress(s, w', calm, list, dead, target, at, updated)
  {
    forall j: nat ensures EntryDone(s, w', calm, list, dead, target, at, updated, j) {
      assert EntryDone(s, w, calm, list, dead, target, at, updated, j);
      if j < |list| && Due(list, dead, at, j) {
        ReachedKept(s, w.nodes, w.servers, w'.servers, calm, updated[j]);
      }
    }
  }

  // ----- Moving one chunk's dead entries

  lemma TargetBlamed(from: Record, r: Record, nodes: NodeTable, healthy: NodeTable, f: string, data: Bytes,
                     list: seq<ShardPlacement>, why: Cause, node: NodeMetadata, sealed: Bytes)
    requires r.Lawful() && why.chunk < |Pieces(data)| && why.shard < 8
    requires |from.log| <= why.sent < |r.log| && from.draws <= why.drawn < r.draws
    requires node.nodeID == FirstSelected(r.order, nodes) && node.nodeID in nodes && nodes[node.nodeID] == node
    requires Sealed(r.s, r.env, Canonical(r.s, data, why.chunk, why.shard), why.drawn, sealed)
    requires Refuses(r.log[why.sent], node.address, sealed)
    ensures Blamed(from, r, nodes, healthy, f, data, list, why,
                   UploadFailed(ShardId(f, why.chunk, why.shard), node.nodeID))
  {
    assert TargetRefused(r, node.address, data, why, sealed);
  }

  /** One relocation: select, encrypt, upload. */
  method Relocate(net: Network, ghost calm: Calm, ghost data: Bytes, p: ShardPlacement, c: nat, i: nat, shard: Bytes,
                  ghost healthy: NodeTable, ghost list: seq<ShardPlacement>)
    returns (r: Result<string, Error>, ghost why: Cause)
    requires net.Valid() && net.env.LeavesTracker() && CalmIn(net.s, net.env, calm) && net.Holds(p.fileID, data)
    requires c < |Pieces(data)| && i < TOTAL_SHARDS && p.shardID == ShardId(p.fileID, c, i)
    requires shard == Canonical(net.s, data, c, i)
    modifies net
    ensures net.Valid() && Passed(net.s, calm, old(net.View()), net.View()) && net.Holds(p.fileID, data)
    ensures Continues(old(net.Done()), net.Done())
    ensures r.Ok? ==>
      && r.value == net.GoTo()
      && Reached(net.s, net.store.nodes, net.servers, calm, p.(nodeID := r.value))
    ensures r.Err? ==> !r.error.Unrecoverable?
    ensures r.Err? ==>
      Blamed(old(net.Done()), net.Done(), net.store.nodes, healthy, p.fileID, data, list, why, r.error)
  {
    why := NO_CAUSE;
    PassedItself(net.s, calm, net.View());
    SelectionIsBest(net.store.order, net.store.nodes, 1, 0);
    var newNodes := net.store.SelectPlacementNodes(1, 0);
    if newNodes.Err? {
      return Err(SelectFailed), why;
    }
    var newNode := newNodes.value[0];
    assert newNode in newNodes.value;
    r, why := SealAndSend(net, calm, data, p, c, i, shard, newNode, healthy, list);
  }

  /** The shard is encrypted and sent to its new node. */
  method SealAndSend(net: Network, ghost calm: Calm, ghost data: Bytes, p: ShardPlacement, c: nat, i: nat, shard: Bytes,
                     newNode: NodeMetadata, ghost healthy: NodeTable, ghost list: seq<ShardPlacement>)
    returns (r: Result<string, Error>, ghost why: Cause)
    requires net.Valid() && net.env.LeavesTracker() && CalmIn(net.s, net.env, calm) && net.Holds(p.fileID, data)
    requires c < |Pieces(data)| && i < TOTAL_SHARDS && p.shardID == ShardId(p.fileID, c, i)
    requires shard == Canonical(net.s, data, c, i)
    requires newNode.nodeID == net.GoTo() && newNode.nodeID in net.store.nodes
    requires net.store.nodes[newNode.nodeID] == newNode && newNode.isHealthy
    modifies net
    ensures net.Valid() && Passed(net.s, calm, old(net.View()), net.View()) && net.Holds(p.fileID, data)
    ensures Continues(old(net.Done()), net.Done())
    ensures r.Ok? ==>
      && r.value == net.GoTo()
      && Reached(net.s, net.store.nodes, net.servers, calm, p.(nodeID := r.value))
    ensures r.Err? ==> !r.error.Unrecoverable?
    ensures r.Err? ==>
      Blamed(old(net.Done()), net.Done(), net.store.nodes, healthy, p.fileID, data, list, why, r.error)
  {
    ghost var first := net.Done();
    PassedItself(net.s, calm, net.View());
    why := Cause(net.calls, net.draws, c, i, []);
    var encrypted := net.Seal(shard);
    if encrypted.None? {
      return Err(EncryptFailed), why;
    }
    var air := net.PassNodes(calm);
    ghost var before := net.View();
    var ok := net.Send(air, newNode.address, p.fileID, c, i, p.shardID, encrypted.value);
    GrewPassed(net.s, calm, before, net.View());
    PassedTransitive(net.s, calm, old(net.View()), before, net.View());
    if !ok {
      TargetBlamed(first, net.Done(), net.store.nodes, healthy, p.fileID, data, list, why, newNode, encrypted.value);
      return Err(UploadFailed(p.shardID, newNode.nodeID)), why;
    }
    return Ok(newNode.nodeID), why;
  }

  /** What the loop reads at the stage's position is still the old entry. */
  lemma EntryUntouched(s: Setup, w: World, calm: Calm, f: string, data: Bytes, list: seq<ShardPlacement>,
                       dead: set<string>, target: string, at: Stage, updated: seq<ShardPlacement>)
    requires Progress(s, w, calm, list, dead, target, at, updated)
    requires Shaped(f, data, list) && at.idx < |list| && at.c !in at.done
    ensures updated[at.idx].chunkIndex == list[at.idx].chunkIndex
    ensures at.c == list[at.idx].chunkIndex ==> updated[at.idx] == list[at.idx]
    ensures list[at.idx] == Placed(f, data, at.idx, list[at.idx].nodeID)
  {
    assert EntryDone(s, w, calm, list, dead, target, at, updated, at.idx);
    assert EntryShaped(f, data, list, at.idx);
  }

  /** An entry that is not a dead one of the chunk is passed over. */
  lemma SkipStep(s: Setup, w: World, calm: Calm, list: seq<ShardPlacement>, dead: set<string>, target: string,
                 at: Stage, updated: seq<ShardPlacement>)
    requires Progress(s, w, calm, list, dead, target, at, updated) && at.idx < |list|
    requires list[at.idx].chunkIndex != at.c || list[at.idx].nodeID !in dead
    ensures Progress(s, w, calm, list, dead, target, Stage(at.done, at.c, at.idx + 1), updated)
    ensures DueCount(list, dead, Stage(at.done, at.c, at.idx + 1), |list|) == DueCount(list, dead, at, |list|)
  {
    var next := Stage(at.done, at.c, at.idx + 1);
    forall j: nat | j < |list| ensures Due(list, dead, at, j) == Due(list, dead, next, j) {
    }
    SameStage(s, w, calm, list, dead, target, at, next, updated);
  }

  /** The shards are the canonical ones of chunk `c`. */
  ghost predicate AllCanonical(s: Setup, data: Bytes, c: nat, shards: seq<Shard>)
    requires s.Lawful() && c < |Pieces(data)|
  {
    |shards| == TOTAL_SHARDS
    && forall i: nat {:trigger IsCanonical(s, data, c, i, shards)} :: i < TOTAL_SHARDS ==>
      IsCanonical(s, data, c, i, shards)
  }

  ghost predicate IsCanonical(s: Setup, data: Bytes, c: nat, i: nat, shards: seq<Shard>)
    requires s.Lawful() && c < |Pieces(data)| && i < TOTAL_SHARDS && |shards| == TOTAL_SHARDS
  {
    shards[i].data == Canonical(s, data, c, i)
  }

  /** One turn of the relocation loop: a dead entry of the chunk moves to the target, any other stays. */
  method MoveEntry(net: Network, ghost calm: Calm, f: string, ghost data: Bytes, dead: set<string>,
                   ghost list: seq<ShardPlacement>, ghost done: set<int>, updated: seq<ShardPlacement>,
                   shards: seq<Shard>, c: nat, idx: nat, ghost healthy: NodeTable)
    returns (r: Result<(seq<ShardPlacement>, nat), Error>, ghost why: Cause)
    requires net.Valid() && net.env.LeavesTracker() && CalmIn(net.s, net.env, calm) && net.Holds(f, data)
    requires Shaped(f, data, list) && c < |Pieces(data)| && c !in done && idx < |list|
    requires Progress(net.s, net.View(), calm, list, dead, net.GoTo(), Stage(done, c, idx), updated)
    requires AllCanonical(net.s, data, c, shards)
    modifies net
    ensures net.Valid() && Passed(net.s, calm, old(net.View()), net.View()) && net.Holds(f, data)
    ensures Continues(old(net.Done()), net.Done())
    ensures r.Err? ==> Blamed(old(net.Done()), net.Done(), net.store.nodes, healthy, f, data, list, why, r.error)
    ensures r.Ok? ==>
      && Progress(net.s, net.View(), calm, list, dead, net.GoTo(), Stage(done, c, idx + 1), r.value.0)
      && DueCount(list, dead, Stage(done, c, idx + 1), |list|)
           == DueCount(list, dead, Stage(done, c, idx), |list|) + r.value.1
    ensures r.Err? ==> !r.error.Unrecoverable? && DeadCount(list, dead, |list|) > 0
  {
    why := NO_CAUSE;
    PassedItself(net.s, calm, net.View());
    ghost var at := Stage(done, c, idx);
    var p := updated[idx];
    EntryUntouched(net.s, net.View(), calm, f, data, list, dead, net.GoTo(), at, updated);
    if p.chunkIndex != c || p.nodeID !in dead {
      SkipStep(net.s, net.View(), calm, list, dead, net.GoTo(), at, updated);
      return Ok((updated, 0)), why;
    }
    DeadCountPositive(list, dead, idx, |list|);
    assert IsCanonical(net.s, data, c, p.shardIndex, shards);
    ghost var before := net.View();
    var newNode;
    newNode, why := Relocate(net, calm, data, p, c, p.shardIndex, shards[p.shardIndex].data, healthy, list);
    if newNode.Err? {
      return Err(newNode.error), why;
    }
    assert p == list[idx] && newNode.value == net.GoTo();
    var next := updated[idx := p.(nodeID := newNode.value)];
    ProgressStep(net.s, before, net.View(), calm, list, dead, net.GoTo(), at, Stage(done, c, idx + 1), updated, next);
    return Ok((next, 1)), why;
  }

  lemma {:induction false} DeadCountPositive(list: seq<ShardPlacement>, dead: set<string>, j: nat, n: nat)
    requires j < n <= |list| && list[j].nodeID in dead
    ensures DeadCount(list, dead, n) > 0
  {
    if j < n - 1 {
      DeadCountPositive(list, dead, j, n - 1);
    }
  }

  lemma {:induction false} DueAtMostDead(list: seq<ShardPlacement>, dead: set<string>, at: Stage, n: nat)
    requires n <= |list|
    ensures DueCount(list, dead, at, n) <= DeadCount(list, dead, n)
  {
    if n > 0 {
      DueAtMostDead(list, dead, at, n - 1);
    }
  }

  /** The relocation loop for one chunk: its dead entries, and no others, move to the target. */
  method MoveChunk(net: Network, ghost calm: Calm, f: string, ghost data: Bytes, dead: set<string>,
                   ghost list: seq<ShardPlacement>, ghost done: set<int>, updated: seq<ShardPlacement>,
                   shards: seq<Shard>, c: nat, ghost healthy: NodeTable)
    returns (next: seq<ShardPlacement>, moved: nat, err: Option<Error>, ghost why: Cause)
    requires net.Valid() && net.env.LeavesTracker() && CalmIn(net.s, net.env, calm) && net.Holds(f, data)
    requires Shaped(f, data, list) && c < |Pieces(data)| && c !in done
    requires Progress(net.s, net.View(), calm, list, dead, net.GoTo(), Stage(done, c, 0), updated)
    requires AllCanonical(net.s, data, c, shards)
    modifies net
    ensures net.Valid() && Passed(net.s, calm, old(net.View()), net.View()) && net.Holds(f, data)
    ensures Continues(old(net.Done()), net.Done())
    ensures err.Some? ==> Blamed(old(net.Done()), net.Done(), net.store.nodes, healthy, f, data, list, why, err.value)
    ensures err.None? ==>
      && Progress(net.s, net.View(), calm, list, dead, net.GoTo(), Stage(done, c, |list|), next)
      && DueCount(list, dead, Stage(done, c, |list|), |list|) == DueCount(list, dead, Stage(done, c, 0), |list|) + moved
    ensures DueCount(list, dead, Stage(done, c, 0), |list|) + moved <= DeadCount(list, dead, |list|)
    ensures err.Some? ==> !err.value.Unrecoverable? && DeadCount(list, dead, |list|) > 0
  {
    why := NO_CAUSE;
    ghost var first := net.Done();
    PassedItself(net.s, calm, net.View());
    next, moved := updated, 0;
    DueAtMostDead(list, dead, Stage(done, c, 0), |list|);
    for idx := 0 to |updated|
      invariant net.Valid() && Passed(net.s, calm, old(net.View()), net.View()) && net.Holds(f, data)
      invariant Continues(first, net.Done())
      invariant Progress(net.s, net.View(), calm, list, dead, net.GoTo(), Stage(done, c, idx), next)
      invariant DueCount(list, dead, Stage(done, c, idx), |list|)
           == DueCount(list, dead, Stage(done, c, 0), |list|) + moved
      invariant DueCount(list, dead, Stage(done, c, idx), |list|) <= DeadCount(list, dead, |list|)
    {
      ghost var before, later := net.View(), net.Done();
      var turn;
      turn, why := MoveEntry(net, calm, f, data, dead, list, done, next, shards, c, idx, healthy);
      ContinuesTransitive(first, later, net.Done());
      PassedTransitive(net.s, calm, old(net.View()), before, net.View());
      if turn.Err? {
        BlamedEarlier(first, later, net.Done(), net.store.nodes, healthy, f, data, list, why, turn.error);
        return next, moved, Some(turn.error), why;
      }
      DueAtMostDead(list, dead, Stage(done, c, idx + 1), |list|);
      next, moved := turn.value.0, moved + turn.value.1;
    }
    err := None;
  }

  // ----- One chunk

  /** The chunk's own check: does any of its entries sit on a dead node? */
  method AnyDead(group: seq<ShardPlacement>, dead: set<string>) returns (missing: bool)
    ensures missing <==> exists i :: 0 <= i < |group| && group[i].nodeID in dead
  {
    for i := 0 to |group|
      invariant forall j :: 0 <= j < i ==> group[j].nodeID !in dead
    {
      if group[i].nodeID in dead {
        return true;
      }
    }
    return false;
  }

  lemma GroupShape(f: string, data: Bytes, list: seq<ShardPlacement>, c: nat, group: seq<ShardPlacement>)
    requires Shaped(f, data, list) && c < |Pieces(data)|
    requires group == list[TOTAL_SHARDS * c..TOTAL_SHARDS * (c + 1)]
    ensures GroupOf(f, data, c, group)
  {
    forall i | 0 <= i < TOTAL_SHARDS
      ensures group[i] == ShardPlacement(ShardId(f, c, i), f, c, i, group[i].nodeID, |Pieces(data)[c]|)
    {
      EntryAt(f, data, list, c, i);
    }
  }

  /** A chunk without dead entries has nothing due. */
  lemma WholeChunk(f: string, data: Bytes, list: seq<ShardPlacement>, dead: set<string>, done: set<int>, c: nat, j: nat)
    requires Shaped(f, data, list) && c < |Pieces(data)| && j < |list|
    requires forall i :: TOTAL_SHARDS * c <= i < TOTAL_SHARDS * (c + 1) && i < |list| ==> list[i].nodeID !in dead
    ensures Due(list, dead, Stage(done, c, 0), j) == Due(list, dead, Stage(done, c, |list|), j)
  {
    assert EntryShaped(f, data, list, j);
  }

  /** Chunk `c` is one of the list, and fewer than four of its shards could be fetched from healthy steady nodes. */
  ghost predicate Short(s: Setup, healthy: NodeTable, servers: map<string, Server>, calm: Calm,
                        list: seq<ShardPlacement>, c: int)
  {
    && 0 <= c && TOTAL_SHARDS * (c + 1) <= |list|
    && (calm.Some? ==>
        |Fetchable(s, healthy, servers, calm.value.keeps, list[TOTAL_SHARDS * c..TOTAL_SHARDS * (c + 1)])| < 4)
  }

  /** The body of the chunk loop: nothing if the chunk is whole, otherwise rebuild it and move its dead entries. */
  method RepairChunk(net: Network, ghost calm: Calm, f: string, ghost data: Bytes, dead: set<string>,
                     healthy: NodeTable,
                     ghost list: seq<ShardPlacement>, ghost done: set<int>, updated: seq<ShardPlacement>,
                     group: seq<ShardPlacement>, c: nat)
    returns (next: seq<ShardPlacement>, moved: nat, err: Option<Error>, ghost why: Cause)
    requires net.Valid() && net.env.LeavesTracker() && CalmIn(net.s, net.env, calm) && net.Holds(f, data)
             && dead !! healthy.Keys
    requires Shaped(f, data, list) && c < |Pieces(data)| && c !in done
    requires group == list[TOTAL_SHARDS * c..TOTAL_SHARDS * (c + 1)]
    requires Progress(net.s, net.View(), calm, list, dead, net.GoTo(), Stage(done, -1, 0), updated)
    modifies net
    ensures net.Valid() && Passed(net.s, calm, old(net.View()), net.View()) && net.Holds(f, data)
    ensures Continues(old(net.Done()), net.Done())
    ensures err.Some? ==> Blamed(old(net.Done()), net.Done(), net.store.nodes, healthy, f, data, list, why, err.value)
    ensures err.None? ==>
      && Progress(net.s, net.View(), calm, list, dead, net.GoTo(), Stage(done + {c}, -1, 0), next)
      && DueCount(list, dead, Stage(done + {c}, -1, 0), |list|)
           == DueCount(list, dead, Stage(done, -1, 0), |list|) + moved
    ensures DueCount(list, dead, Stage(done, -1, 0), |list|) + moved <= DeadCount(list, dead, |list|)
    ensures err.Some? ==> DeadCount(list, dead, |list|) > 0
    ensures err.Some? && err.value.Unrecoverable? ==>
      err.value == Unrecoverable(f, c) && Short(net.s, healthy, old(net.servers), calm, list, c)
    ensures DeadCount(list, dead, |list|) == 0 ==> net.View() == old(net.View())
  {
    why := NO_CAUSE;
    ghost var start, first := net.View(), net.Done();
    PassedItself(net.s, calm, start);
    GroupShape(f, data, list, c, group);
    EnterChunk(net.s, net.View(), calm, f, data, list, dead, net.GoTo(), done, c, updated);
    var missing := AnyDead(group, dead);
    if !missing {
      forall j: nat | j < |list|
        ensures Due(list, dead, Stage(done, c, 0), j) == Due(list, dead, Stage(done, c, |list|), j)
      {
        NoDeadInChunk(list, dead, c, group);
        WholeChunk(f, data, list, dead, done, c, j);
      }
      SameStage(net.s, net.View(), calm, list, dead, net.GoTo(), Stage(done, c, 0), Stage(done, c, |list|), updated);
      LeaveChunk(net.s, net.View(), calm, list, dead, net.GoTo(), done, c, updated);
      DueAtMostDead(list, dead, Stage(done, c, 0), |list|);
      return updated, 0, None, why;
    }
    SomeDeadInChunk(list, dead, c, group);
    DueAtMostDead(list, dead, Stage(done, c, 0), |list|);
    var shards;
    ghost var seen, asked;
    shards, seen, asked := Rebuild(net, calm, f, data, dead, healthy, group, c);
    ghost var rebuilt, later := net.View(), net.Done();
    ProgressKept(net.s, start, rebuilt, calm, list, dead, net.GoTo(), Stage(done, c, 0), updated);
    if shards.Err? {
      if calm.Some? {
        SubsetSize(Fetchable(net.s, healthy, start.servers, calm.value.keeps, group),
                   Arrived(net.s, healthy, seen, group));
      }
      return updated, 0, Some(shards.error), Cause(0, 0, 0, 0, asked);
    }
    next, moved, err, why := MoveChunk(net, calm, f, data, dead, list, done, updated, shards.value, c, healthy);
    ContinuesTransitive(first, later, net.Done());
    PassedTransitive(net.s, calm, start, rebuilt, net.View());
    if err.None? {
      LeaveChunk(net.s, net.View(), calm, list, dead, net.GoTo(), done, c, next);
    } else {
      BlamedEarlier(first, later, net.Done(), net.store.nodes, healthy, f, data, list, why, err.value);
    }
  }

  lemma NoDeadInChunk(list: seq<ShardPlacement>, dead: set<string>, c: nat, group: seq<ShardPlacement>)
    requires TOTAL_SHARDS * (c + 1) <= |list| && group == list[TOTAL_SHARDS * c..TOTAL_SHARDS * (c + 1)]
    requires forall i :: 0 <= i < |group| ==> group[i].nodeID !in dead
    ensures forall i :: TOTAL_SHARDS * c <= i < TOTAL_SHARDS * (c + 1) ==> list[i].nodeID !in dead
  {
    forall i | TOTAL_SHARDS * c <= i < TOTAL_SHARDS * (c + 1) ensures list[i].nodeID !in dead {
      assert group[i - TOTAL_SHARDS * c] == list[i];
    }
  }

  lemma SomeDeadInChunk(list: seq<ShardPlacement>, dead: set<string>, c: nat, group: seq<ShardPlacement>)
    requires TOTAL_SHARDS * (c + 1) <= |list| && group == list[TOTAL_SHARDS * c..TOTAL_SHARDS * (c + 1)]
    requires exists i :: 0 <= i < |group| && group[i].nodeID in dead
    ensures DeadCount(list, dead, |list|) > 0
  {
    var i :| 0 <= i < |group| && group[i].nodeID in dead;
    DeadCountPositive(list, dead, TOTAL_SHARDS * c + i, |list|);
  }

  // ----- One file

  lemma FetchableGrows(s: Setup, healthy: NodeTable, before: map<string, Server>, after: map<string, Server>,
                       calm: Calm, list: seq<ShardPlacement>, c: int)
    requires (calm.Some? ==> KeptOn(s, calm.value.keeps, before, after)) && Short(s, healthy, after, calm, list, c)
    ensures Short(s, healthy, before, calm, list, c)
  {
    if calm.Some? {
      var group := list[TOTAL_SHARDS * c..TOTAL_SHARDS * (c + 1)];
      var keeps := calm.value.keeps;
      var earlier, later := Fetchable(s, healthy, before, keeps, group), Fetchable(s, healthy, after, keeps, group);
      forall i | i in earlier ensures i in later {
        HeldMeansFetched(s, healthy, before, keeps, group[i]);
        HeldKept(s, keeps, healthy, before, after, group[i]);
        HeldMeansFetched(s, healthy, after, keeps, group[i]);
      }
      SubsetSize(earlier, later);
    }
  }

  lemma NothingDue(s: Setup, w: World, calm: Calm, list: seq<ShardPlacement>, dead: set<string>, target: string)
    ensures Progress(s, w, calm, list, dead, target, Stage({}, -1, 0), list)
    ensures DueCount(list, dead, Stage({}, -1, 0), |list|) == 0
  {
    NoneDueCount(list, dead, |list|);
  }

  lemma {:induction false} NoneDueCount(list: seq<ShardPlacement>, dead: set<string>, n: nat)
    requires n <= |list|
    ensures DueCount(list, dead, Stage({}, -1, 0), n) == 0
  {
    if n > 0 {
      NoneDueCount(list, dead, n - 1);
    }
  }

  lemma AllDue(s: Setup, w: World, calm: Calm, list: seq<ShardPlacement>, dead: set<string>, target: string,
               done: set<int>, updated: seq<ShardPlacement>)
    requires Progress(s, w, calm, list, dead, target, Stage(done, -1, 0), updated)
    requires forall j: nat :: j < |list| ==> list[j].chunkIndex in done
    ensures updated == Moved(list, dead, target)
    ensures DueCount(list, dead, Stage(done, -1, 0), |list|) == DeadCount(list, dead, |list|)
  {
    forall j: nat | j < |list| ensures updated[j] == Moved(list, dead, target)[j] {
      assert EntryDone(s, w, calm, list, dead, target, Stage(done, -1, 0), updated, j);
    }
    AllDueCount(list, dead, done, |list|);
  }

  lemma {:induction false} AllDueCount(list: seq<ShardPlacement>, dead: set<string>, done: set<int>, n: nat)
    requires n <= |list| && forall j: nat :: j < |list| ==> list[j].chunkIndex in done
    ensures DueCount(list, dead, Stage(done, -1, 0), n) == DeadCount(list, dead, n)
  {
    if n > 0 {
      AllDueCount(list, dead, done, n - 1);
    }
  }

  /** Every entry of the new list that left a dead node is held by a node that answers. */
  ghost predicate Restored(s: Setup, w: World, calm: Calm, list: seq<ShardPlacement>, dead: set<string>,
                           updated: seq<ShardPlacement>)
  {
    |updated| == |list| && forall j :: EntryRestored(s, w, calm, list, dead, updated, j)
  }

  ghost predicate EntryRestored(s: Setup, w: World, calm: Calm, list: seq<ShardPlacement>, dead: set<string>,
                                updated: seq<ShardPlacement>, j: int)
  {
    0 <= j < |list| == |updated| && list[j].nodeID in dead ==> Reached(s, w.nodes, w.servers, calm, updated[j])
  }

  lemma AllRestored(s: Setup, w: World, calm: Calm, list: seq<ShardPlacement>, dead: set<string>, target: string,
                    done: set<int>, updated: seq<ShardPlacement>)
    requires Progress(s, w, calm, list, dead, target, Stage(done, -1, 0), updated)
    requires forall j: nat :: j < |list| ==> list[j].chunkIndex in done
    ensures Restored(s, w, calm, list, dead, updated)
  {
    forall j ensures EntryRestored(s, w, calm, list, dead, updated, j) {
      if 0 <= j < |list| {
        assert EntryDone(s, w, calm, list, dead, target, Stage(done, -1, 0), updated, j);
      }
    }
  }

  /** `group` is the slice of the list that belongs to chunk `c` of the file. */
  ghost predicate ChunkGroup(data: Bytes, list: seq<ShardPlacement>, byChunk: map<int, seq<ShardPlacement>>, c: int) {
    c in byChunk ==>
      && 0 <= c < |Pieces(data)| && TOTAL_SHARDS * (c + 1) <= |list|
      && byChunk[c] == list[TOTAL_SHARDS * c..TOTAL_SHARDS * (c + 1)]
  }

  /** The chunk loop, in whatever order the chunk map is walked. */
  method RepairChunks(net: Network, ghost calm: Calm, f: string, ghost data: Bytes, dead: set<string>,
                      healthy: NodeTable, list: seq<ShardPlacement>, byChunk: map<int, seq<ShardPlacement>>)
    returns (next: seq<ShardPlacement>, moved: nat, err: Option<Error>, ghost why: Cause)
    requires net.Valid() && net.env.LeavesTracker() && CalmIn(net.s, net.env, calm) && net.Holds(f, data)
             && dead !! healthy.Keys
    requires Shaped(f, data, list) && forall c :: ChunkGroup(data, list, byChunk, c)
    modifies net
    ensures net.Valid() && Passed(net.s, calm, old(net.View()), net.View()) && net.Holds(f, data)
    ensures Continues(old(net.Done()), net.Done())
    ensures err.Some? ==> Blamed(old(net.Done()), net.Done(), net.store.nodes, healthy, f, data, list, why, err.value)
    ensures err.None? ==>
      && Progress(net.s, net.View(), calm, list, dead, net.GoTo(), Stage(byChunk.Keys, -1, 0), next)
      && moved == DueCount(list, dead, Stage(byChunk.Keys, -1, 0), |list|)
    ensures moved <= DeadCount(list, dead, |list|)
    ensures err.Some? ==> DeadCount(list, dead, |list|) > 0
    ensures err.Some? && err.value.Unrecoverable? ==>
      err.value.fileID == f && Short(net.s, healthy, old(net.servers), calm, list, err.value.chunk)
    ensures DeadCount(list, dead, |list|) == 0 ==> net.View() == old(net.View())
  {
    why := NO_CAUSE;
    ghost var first := net.Done();
    PassedItself(net.s, calm, net.View());
    var rest := byChunk.Keys;
    ghost var done: set<int> := {};
    next, moved := list, 0;
    NothingDue(net.s, net.View(), calm, list, dead, net.GoTo());
    while rest != {}
      invariant done == byChunk.Keys - rest && rest <= byChunk.Keys
      invariant net.Valid() && Passed(net.s, calm, old(net.View()), net.View()) && net.Holds(f, data)
      invariant Continues(first, net.Done())
      invariant moved == DueCount(list, dead, Stage(done, -1, 0), |list|) <= DeadCount(list, dead, |list|)
      invariant Progress(net.s, net.View(), calm, list, dead, net.GoTo(), Stage(done, -1, 0), next)
      invariant DeadCount(list, dead, |list|) == 0 ==> net.View() == old(net.View())
      decreases |rest|
    {
      Inhabited(rest);
      var ci :| ci in rest;
      assert ChunkGroup(data, list, byChunk, ci);
      ghost var before, later := net.View(), net.Done();
      var n;
      next, n, err, why := RepairChunk(net, calm, f, data, dead, healthy, list, done, next, byChunk[ci], ci);
      PassedTransitive(net.s, calm, old(net.View()), before, net.View());
      ContinuesTransitive(first, later, net.Done());
      moved := moved + n;
      if err.Some? {
        BlamedEarlier(first, later, net.Done(), net.store.nodes, healthy, f, data, list, why, err.value);
        if err.value.Unrecoverable? {
          FetchableGrows(net.s, healthy, old(net.servers), before.servers, calm, list, ci);
        }
        return;
      }
      rest, done := rest - {ci}, done + {ci};
    }
    assert done == byChunk.Keys;
    err := None;
  }

  /** Repair of one file's placements: on success every dead entry, and nothing else, has moved to the
      target; an error can only come from a file that has dead entries. */
  method RepairPlacements(net: Network, ghost calm: Calm, f: string, ghost data: Bytes, dead: set<string>,
                          healthy: NodeTable, list: seq<ShardPlacement>)
    returns (next: seq<ShardPlacement>, moved: nat, err: Option<Error>, ghost why: Cause)
    requires net.Valid() && net.env.LeavesTracker() && CalmIn(net.s, net.env, calm) && net.Holds(f, data)
             && dead !! healthy.Keys
    requires Shaped(f, data, list)
    modifies net
    ensures net.Valid() && Passed(net.s, calm, old(net.View()), net.View()) && net.Holds(f, data)
    ensures Continues(old(net.Done()), net.Done())
    ensures err.Some? ==> Blamed(old(net.Done()), net.Done(), net.store.nodes, healthy, f, data, list, why, err.value)
    ensures err.None? ==>
      && next == Moved(list, dead, net.GoTo()) && moved == DeadCount(list, dead, |list|)
      && Restored(net.s, net.View(), calm, list, dead, next)
    ensures moved <= DeadCount(list, dead, |list|)
    ensures err.Some? ==> DeadCount(list, dead, |list|) > 0
    ensures err.Some? && err.value.Unrecoverable? ==>
      err.value.fileID == f && Short(net.s, healthy, old(net.servers), calm, list, err.value.chunk)
    ensures DeadCount(list, dead, |list|) == 0 ==> net.View() == old(net.View())
  {
    var byChunk := GroupByChunk(list);
    GroupedShaped(f, data, list, byChunk);
    next, moved, err, why := RepairChunks(net, calm, f, data, dead, healthy, list, byChunk);
    if err.None? {
      AllDue(net.s, net.View(), calm, list, dead, net.GoTo(), byChunk.Keys, next);
      AllRestored(net.s, net.View(), calm, list, dead, net.GoTo(), byChunk.Keys, next);
    }
  }

  lemma EnterChunk(s: Setup, w: World, calm: Calm, f: string, data: Bytes, list: seq<ShardPlacement>, dead: set<string>,
                   target: string, done: set<int>, c: nat, updated: seq<ShardPlacement>)
    requires Progress(s, w, calm, list, dead, target, Stage(done, -1, 0), updated) && Shaped(f, data, list)
    ensures Progress(s, w, calm, list, dead, target, Stage(done, c, 0), updated)
    ensures DueCount(list, dead, Stage(done, c, 0), |list|) == DueCount(list, dead, Stage(done, -1, 0), |list|)
  {
    forall j: nat | j < |list| ensures Due(list, dead, Stage(done, -1, 0), j) == Due(list, dead, Stage(done, c, 0), j) {
      assert EntryShaped(f, data, list, j);
    }
    SameStage(s, w, calm, list, dead, target, Stage(done, -1, 0), Stage(done, c, 0), updated);
  }

  lemma LeaveChunk(s: Setup, w: World, calm: Calm, list: seq<ShardPlacement>, dead: set<string>,
                   target: string, done: set<int>, c: nat, updated: seq<ShardPlacement>)
    requires Progress(s, w, calm, list, dead, target, Stage(done, c, |list|), updated)
    ensures Progress(s, w, calm, list, dead, target, Stage(done + {c}, -1, 0), updated)
    ensures DueCount(list, dead, Stage(done + {c}, -1, 0), |list|)
         == DueCount(list, dead, Stage(done, c, |list|), |list|)
  {
    forall j: nat | j < |list|
      ensures Due(list, dead, Stage(done, c, |list|), j) == Due(list, dead, Stage(done + {c}, -1, 0), j)
    {
    }
    SameStage(s, w, calm, list, dead, target, Stage(done, c, |list|), Stage(done + {c}, -1, 0), updated);
  }
}
