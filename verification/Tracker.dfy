/** The tracker's node and file tables: `internal/tracker/tracker.go` and `liveness.go`. */
module Tracker {
  import opened Base
  import opened Listing

  datatype NodeMetadata = NodeMetadata(nodeID: string, address: string, storageAllocated: int,
    storageUsed: int, lastSeen: int, isHealthy: bool)

  datatype FileMetadata = FileMetadata(fileID: string, fileName: string, size: int, chunkCount: int, createdAt: int)

  datatype ShardPlacement = ShardPlacement(shardID: string, fileID: string, chunkIndex: int,
    shardIndex: int, nodeID: string, originalChunkSize: int)

  datatype Error = InsufficientNodes | FileNotFound

  type NodeTable = map<string, NodeMetadata>

  ghost predicate Keyed(nodes: NodeTable) {
    forall id :: id in nodes ==> nodes[id].nodeID == id
  }

  // ----- Placement selection

  function FreeSpace(n: NodeMetadata): int {
    Wrap64(n.storageAllocated - n.storageUsed)
  }

  predicate Eligible(n: NodeMetadata, space: int) {
    n.isHealthy && FreeSpace(n) >= space
  }

  /** `sort.Slice` by free space: a function of the slice, ties in an order it does not promise. */
  type Sorter = seq<NodeMetadata> -> seq<NodeMetadata>

  ghost predicate Descending(list: seq<NodeMetadata>) {
    forall i, j :: 0 <= i < j < |list| ==> FreeSpace(list[i]) >= FreeSpace(list[j])
  }

  ghost predicate Sorts(order: Sorter, list: seq<NodeMetadata>) {
    multiset(order(list)) == multiset(list) && Descending(order(list))
  }

  ghost predicate LawfulSorter(order: Sorter) {
    forall list :: Sorts(order, list)
  }

  function EligibleOf(list: seq<NodeMetadata>, space: int): seq<NodeMetadata> {
    if list == [] then []
    else EligibleOf(list[..|list| - 1], space) + if Eligible(list[|list| - 1], space) then [list[|list| - 1]] else []
  }

  ghost function NodesOf(nodes: NodeTable, ids: seq<string>): seq<NodeMetadata>
    requires forall id :: id in ids ==> id in nodes
  {
    seq(|ids|, i requires 0 <= i < |ids| => nodes[ids[i]])
  }

  ghost predicate DistinctIDs(list: seq<NodeMetadata>) {
    forall i, j :: 0 <= i < j < |list| ==> list[i].nodeID != list[j].nodeID
  }

  ghost function ListOf(nodes: NodeTable): seq<NodeMetadata> {
    SortedKeysListed(nodes.Keys);
    NodesOf(nodes, SortedKeys(nodes.Keys))
  }

  /** The listing holds each node once. */
  lemma ListOfNodes(nodes: NodeTable)
    requires Keyed(nodes)
    ensures DistinctIDs(ListOf(nodes))
    ensures forall n: NodeMetadata :: n in ListOf(nodes) <==> n.nodeID in nodes && nodes[n.nodeID] == n
  {
    var keys, list := SortedKeys(nodes.Keys), ListOf(nodes);
    SortedKeysListed(nodes.Keys);
    assert forall i :: 0 <= i < |list| ==> keys[i] in keys && list[i] == nodes[keys[i]];
    forall n: NodeMetadata | n.nodeID in nodes && nodes[n.nodeID] == n ensures n in list {
      assert n.nodeID in keys;
      var i :| 0 <= i < |keys| && keys[i] == n.nodeID;
      assert list[i] == n;
    }
    forall i, j | 0 <= i < j < |list| ensures list[i].nodeID != list[j].nodeID {
      SortedKeysDistinct(nodes.Keys, i, j);
    }
  }

  ghost function Selection(order: Sorter, nodes: NodeTable, count: nat, space: int)
    : (r: Result<seq<NodeMetadata>, Error>)
    requires LawfulSorter(order)
    ensures r.Ok? ==> |r.value| == count
  {
    var eligible := EligibleOf(ListOf(nodes), space);
    if |eligible| < count then Err(InsufficientNodes)
    else
      assert Sorts(order, eligible);
      SameSize(order(eligible), eligible);
      Ok(order(eligible)[..count])
  }

  lemma SameSize(a: seq<NodeMetadata>, b: seq<NodeMetadata>)
    requires multiset(a) == multiset(b)
    ensures |a| == |b|
  {
    assert |multiset(a)| == |a| && |multiset(b)| == |b|;
  }

  ghost function EligibleIDs(nodes: NodeTable, space: int): set<string> {
    set id | id in nodes && Eligible(nodes[id], space)
  }

  ghost function IDs(list: seq<NodeMetadata>): set<string> {
    set n | n in list :: n.nodeID
  }

  lemma {:induction false} EligibleOfMembers(list: seq<NodeMetadata>, space: int)
    requires DistinctIDs(list)
    ensures DistinctIDs(EligibleOf(list, space))
    ensures forall n :: n in EligibleOf(list, space) <==> n in list && Eligible(n, space)
  {
    if list != [] {
      var before, last := list[..|list| - 1], list[|list| - 1];
      EligibleOfMembers(before, space);
      assert list == before + [last];
      assert forall n :: n in before ==> n.nodeID != last.nodeID;
    }
  }

  lemma {:induction false} DistinctIDsCount(list: seq<NodeMetadata>)
    requires DistinctIDs(list)
    ensures |IDs(list)| == |list|
  {
    if list != [] {
      var before, last := list[..|list| - 1], list[|list| - 1];
      assert list == before + [last];
      DistinctIDsCount(before);
      assert IDs(list) == IDs(before) + {last.nodeID};
      assert last.nodeID !in IDs(before);
    }
  }

  lemma PermutedDistinct(a: seq<NodeMetadata>, b: seq<NodeMetadata>)
    requires multiset(a) == multiset(b) && DistinctIDs(b)
    ensures DistinctIDs(a)
    ensures forall n :: n in a <==> n in b
  {
    forall n ensures n in a <==> n in b {
      assert n in a <==> n in multiset(a);
      assert n in b <==> n in multiset(b);
    }
    forall i, j | 0 <= i < j < |a| ensures a[i].nodeID != a[j].nodeID {
      if a[i].nodeID == a[j].nodeID {
        assert a[i] in b && a[j] in b;
        assert a[i] == a[j];
        TwiceInMultiset(a, i, j);
        OnceInMultiset(b, a[i]);
        assert false;
      }
    }
  }

  lemma TwiceInMultiset(a: seq<NodeMetadata>, i: nat, j: nat)
    requires i < j < |a| && a[i] == a[j]
    ensures multiset(a)[a[i]] >= 2
  {
    assert a == a[..j] + [a[j]] + a[j + 1..];
    assert a[i] in a[..j] by { assert a[..j][i] == a[i]; }
    assert multiset(a[..j])[a[i]] >= 1;
  }

  lemma {:induction false} OnceInMultiset(b: seq<NodeMetadata>, n: NodeMetadata)
    requires DistinctIDs(b)
    ensures multiset(b)[n] <= 1
  {
    if b != [] {
      var before, last := b[..|b| - 1], b[|b| - 1];
      assert b == before + [last];
      OnceInMultiset(before, n);
      if last == n {
        assert n !in before;
        assert n !in multiset(before);
      }
    }
  }

  /** Selection fails exactly when fewer than `count` nodes are eligible. Otherwise it returns distinct
      registered eligible nodes, most free space first, and leaves out none with more space. */
  lemma SelectionIsBest(order: Sorter, nodes: NodeTable, count: nat, space: int)
    requires LawfulSorter(order) && Keyed(nodes)
    ensures var r := Selection(order, nodes, count, space);
      && (r.Err? <==> |EligibleIDs(nodes, space)| < count)
      && (r.Ok? ==>
          && |r.value| == count && DistinctIDs(r.value) && Descending(r.value)
          && (forall n :: n in r.value ==> n.nodeID in nodes && nodes[n.nodeID] == n && Eligible(n, space))
          && (forall n, id :: n in r.value && id in EligibleIDs(nodes, space) && nodes[id] !in r.value
                ==> FreeSpace(nodes[id]) <= FreeSpace(n)))
  {
    var eligible := EligibleOf(ListOf(nodes), space);
    ListOfNodes(nodes);
    EligibleOfMembers(ListOf(nodes), space);
    DistinctIDsCount(eligible);
    assert IDs(eligible) == EligibleIDs(nodes, space) by {
      forall id | id in EligibleIDs(nodes, space) ensures id in IDs(eligible) {
        assert nodes[id] in eligible;
      }
    }
    if |eligible| >= count {
      assert Sorts(order, eligible);
      SameSize(order(eligible), eligible);
      SelectedAreBest(order(eligible), eligible, nodes, count, space);
    }
  }

  /** Bytes a node has allocated and not used. */
  function Unused(n: NodeMetadata): int {
    n.storageAllocated - n.storageUsed
  }

  ghost predicate SpaceFits(nodes: NodeTable) {
    forall id :: id in nodes ==> Fits64(nodes[id].storageAllocated - nodes[id].storageUsed)
  }

  /** The healthy nodes with at least `space` bytes unused. */
  ghost function Roomy(nodes: NodeTable, space: int): set<string> {
    set id | id in nodes && nodes[id].isHealthy && nodes[id].storageAllocated - nodes[id].storageUsed >= space
  }

  /** Selection told in the nodes' own fields, where the unused space fits an int64: it fails exactly when fewer than
      `count` healthy nodes have the space unused, and otherwise takes those with the most unused, in that order. */
  lemma SelectionInFields(order: Sorter, nodes: NodeTable, count: nat, space: int)
    requires LawfulSorter(order) && Keyed(nodes) && SpaceFits(nodes)
    ensures var r := Selection(order, nodes, count, space);
      && (r.Err? <==> |Roomy(nodes, space)| < count)
      && (r.Ok? ==>
          && |r.value| == count && DistinctIDs(r.value)
          && (forall n :: n in r.value ==> n.nodeID in nodes && nodes[n.nodeID] == n && n.isHealthy
                                           && n.storageAllocated - n.storageUsed >= space)
          && (forall i, j :: 0 <= i < j < count ==> Unused(r.value[i]) >= Unused(r.value[j]))
          && (forall n, id :: n in r.value && id in Roomy(nodes, space) && nodes[id] !in r.value ==>
               nodes[id].storageAllocated - nodes[id].storageUsed <= n.storageAllocated - n.storageUsed))
  {
    SelectionIsBest(order, nodes, count, space);
    forall id | id in nodes
      ensures FreeSpace(nodes[id]) == nodes[id].storageAllocated - nodes[id].storageUsed
    {
    }
    assert EligibleIDs(nodes, space) == Roomy(nodes, space);
    var r := Selection(order, nodes, count, space);
    if r.Ok? {
      forall n | n in r.value ensures FreeSpace(n) == n.storageAllocated - n.storageUsed {
        assert nodes[n.nodeID] == n;
      }
      forall i, j | 0 <= i < j < count ensures Unused(r.value[i]) >= Unused(r.value[j]) {
        assert r.value[i] in r.value && r.value[j] in r.value;
      }
    }
  }

  lemma SelectedAreBest(sorted: seq<NodeMetadata>, eligible: seq<NodeMetadata>, nodes: NodeTable, count: nat,
                        space: int)
    requires multiset(sorted) == multiset(eligible) && Descending(sorted) && count <= |sorted|
    requires DistinctIDs(eligible) && Keyed(nodes)
    requires IDs(eligible) == EligibleIDs(nodes, space)
    requires forall n :: n in eligible ==> n.nodeID in nodes && nodes[n.nodeID] == n && Eligible(n, space)
    ensures var r := sorted[..count];
      && DistinctIDs(r) && Descending(r)
      && (forall n :: n in r ==> n.nodeID in nodes && nodes[n.nodeID] == n && Eligible(n, space))
      && (forall n, id :: n in r && id in EligibleIDs(nodes, space) && nodes[id] !in r
                ==> FreeSpace(nodes[id]) <= FreeSpace(n))
  {
    PermutedDistinct(sorted, eligible);
    var r := sorted[..count];
    forall n, id | n in r && id in EligibleIDs(nodes, space) && nodes[id] !in r
      ensures FreeSpace(nodes[id]) <= FreeSpace(n)
    {
      assert id in IDs(eligible);
      var e :| e in eligible && e.nodeID == id;
      assert e == nodes[id] && e in sorted;
      var i :| 0 <= i < |r| && r[i] == n;
      var j :| 0 <= j < |sorted| && sorted[j] == e;
      assert j < |r| ==> e in r;
      assert sorted[i] == n;
    }
  }

  // ----- Liveness

  datatype NodeStatus = StatusHealthy | StatusTransient | StatusDead

  /** Thresholds in nanoseconds, the unit of `time.Duration`. */
  datatype LivenessConfig = LivenessConfig(transientAfter: int, deadAfter: int)

  const SECOND := 1_000_000_000

  /** `time.Duration(now - lastSeen) * time.Second`, both operations in int64. */
  function Silence(n: NodeMetadata, now: int): int {
    Wrap64(Wrap64(now - n.lastSeen) * SECOND)
  }

  function Evaluate(cfg: LivenessConfig, n: NodeMetadata, now: int): NodeStatus {
    if !n.isHealthy then StatusDead
    else if Silence(n, now) < cfg.transientAfter then StatusHealthy
    else if Silence(n, now) < cfg.deadAfter then StatusTransient
    else StatusDead
  }

  /** The status told in seconds, while the clock stays within 292 years of the node's last sign of life. */
  lemma EvaluateInFields(cfg: LivenessConfig, n: NodeMetadata, now: int)
    requires -9223372036 <= now - n.lastSeen <= 9223372036
    ensures var status, silent := Evaluate(cfg, n, now), (now - n.lastSeen) * 1_000_000_000;
      && (status == StatusHealthy <==> n.isHealthy && silent < cfg.transientAfter)
      && (status == StatusTransient <==> n.isHealthy && cfg.transientAfter <= silent < cfg.deadAfter)
      && (status == StatusDead <==> !n.isHealthy || (silent >= cfg.transientAfter && silent >= cfg.deadAfter))
  {
  }

  function Judged(cfg: LivenessConfig, n: NodeMetadata, now: int): NodeMetadata {
    n.(isHealthy := Evaluate(cfg, n, now) == StatusHealthy)
  }

  function JudgedTable(cfg: LivenessConfig, nodes: NodeTable, now: int): NodeTable {
    map id | id in nodes :: Judged(cfg, nodes[id], now)
  }

  ghost function Turned(cfg: LivenessConfig, nodes: NodeTable, now: int): set<string> {
    set id | id in nodes && Judged(cfg, nodes[id], now) != nodes[id]
  }

  /** A node silent at `t1` that the same test finds fresh at `t2`. */
  predicate Revives(cfg: LivenessConfig, n: NodeMetadata, t1: int, t2: int) {
    n.isHealthy && Silence(n, t1) >= cfg.transientAfter && Silence(n, t2) < cfg.transientAfter
  }

  ghost predicate NoneRevives(cfg: LivenessConfig, nodes: NodeTable, t1: int, t2: int) {
    forall id :: id in nodes ==> !Revives(cfg, nodes[id], t1, t2)
  }

  lemma JudgedTwiceAt(cfg: LivenessConfig, n: NodeMetadata, t1: int, t2: int)
    ensures Judged(cfg, Judged(cfg, n, t1), t2) == Judged(cfg, n, t2) <==> !Revives(cfg, n, t1, t2)
  {
  }

  /** Two passes leave what the second alone leaves exactly when no node revives in between. */
  lemma JudgedTwice(cfg: LivenessConfig, nodes: NodeTable, t1: int, t2: int)
    ensures JudgedTable(cfg, JudgedTable(cfg, nodes, t1), t2) == JudgedTable(cfg, nodes, t2)
       <==> NoneRevives(cfg, nodes, t1, t2)
  {
    var twice, direct := JudgedTable(cfg, JudgedTable(cfg, nodes, t1), t2), JudgedTable(cfg, nodes, t2);
    assert twice.Keys == direct.Keys == nodes.Keys;
    forall id | id in nodes
      ensures twice[id] == direct[id] <==> !Revives(cfg, nodes[id], t1, t2)
    {
      JudgedTwiceAt(cfg, nodes[id], t1, t2);
    }
    if id :| id in nodes && Revives(cfg, nodes[id], t1, t2) {
      assert twice[id] != direct[id];
    } else {
      assert twice == direct;
    }
  }

  /** The nodes that revive between `t1` and `t2`. */
  ghost function Revived(cfg: LivenessConfig, nodes: NodeTable, t1: int, t2: int): set<string> {
    set id | id in nodes && Revives(cfg, nodes[id], t1, t2)
  }

  /** The change counts of the two passes exceed that of the second alone by the number of nodes that revive. */
  lemma ChangesAddUp(cfg: LivenessConfig, nodes: NodeTable, t1: int, t2: int)
    ensures |Turned(cfg, nodes, t1)| + |Turned(cfg, JudgedTable(cfg, nodes, t1), t2)|
         == |Turned(cfg, nodes, t2)| + |Revived(cfg, nodes, t1, t2)|
    ensures |Turned(cfg, nodes, t1)| + |Turned(cfg, JudgedTable(cfg, nodes, t1), t2)| == |Turned(cfg, nodes, t2)|
       <==> NoneRevives(cfg, nodes, t1, t2)
  {
    var once := JudgedTable(cfg, nodes, t1);
    var first, second, direct := Turned(cfg, nodes, t1), Turned(cfg, once, t2), Turned(cfg, nodes, t2);
    var revived := Revived(cfg, nodes, t1, t2);
    forall id | id in nodes
      ensures id in first || id in second <==> id in direct || id in revived
      ensures !(id in first && id in second) && !(id in direct && id in revived)
    {
      TurnsOf(cfg, nodes[id], t1, t2);
    }
    SameUnion(first, second, direct, revived);
    if revived == {} {
      forall id | id in nodes ensures !Revives(cfg, nodes[id], t1, t2) {
        assert id !in revived;
      }
    }
  }

  /** One node: it turns in one of the two passes exactly when it turns in the second alone or revives. */
  lemma TurnsOf(cfg: LivenessConfig, n: NodeMetadata, t1: int, t2: int)
    ensures var once := Judged(cfg, n, t1);
      var first, second, direct := once != n, Judged(cfg, once, t2) != once, Judged(cfg, n, t2) != n;
      && (first || second <==> direct || Revives(cfg, n, t1, t2))
      && !(first && second) && !(direct && Revives(cfg, n, t1, t2))
  {
  }

  lemma SameUnion(a: set<string>, b: set<string>, c: set<string>, d: set<string>)
    requires forall id :: id in a || id in b <==> id in c || id in d
    requires a !! b && c !! d
    ensures |a| + |b| == |c| + |d|
  {
    assert a + b == c + d;
  }

  /** Longest silence, in seconds, whose nanoseconds fit an int64. */
  const MAX_SILENCE := 9223372036

  /** While the clock stays within 292 years of each node's last sign of life, nobody revives. */
  lemma NobodyRevives(cfg: LivenessConfig, n: NodeMetadata, t1: int, t2: int)
    requires t1 <= t2
    requires -MAX_SILENCE <= t1 - n.lastSeen && t2 - n.lastSeen <= MAX_SILENCE
    ensures !Revives(cfg, n, t1, t2)
    ensures Silence(n, t1) == (t1 - n.lastSeen) * SECOND
  {
  }

  /** Outside that range the product wraps: whenever a node was last seen, it is silent after 9223372036 seconds
      and fresh a second later. */
  lemma SilenceWraps(n: NodeMetadata)
    requires n.isHealthy
    ensures var cfg, t1 := LivenessConfig(60 * SECOND, 600 * SECOND), n.lastSeen + MAX_SILENCE;
      && Revives(cfg, n, t1, t1 + 1)
      && JudgedTable(cfg, JudgedTable(cfg, map["n" := n], t1), t1 + 1) != JudgedTable(cfg, map["n" := n], t1 + 1)
  {
    var cfg, t1 := LivenessConfig(60 * SECOND, 600 * SECOND), n.lastSeen + MAX_SILENCE;
    JudgedTwice(cfg, map["n" := n], t1, t1 + 1);
    assert Revives(cfg, map["n" := n]["n"], t1, t1 + 1);
  }

  // ----- Repair's own classification

  predicate Unhealthy(n: NodeMetadata, now: int, timeout: int) {
    !n.isHealthy || Wrap64(now - n.lastSeen) > timeout
  }

  /** Where the silence fits an int64, a repair finds unhealthy the nodes flagged so and those silent for longer than
      the timeout. */
  lemma UnhealthyInFields(n: NodeMetadata, now: int, timeout: int)
    requires Fits64(now - n.lastSeen)
    ensures Unhealthy(n, now, timeout) <==> !n.isHealthy || now - n.lastSeen > timeout
  {
  }

  function UnhealthyIDs(nodes: NodeTable, now: int, timeout: int): set<string> {
    set id | id in nodes && Unhealthy(nodes[id], now, timeout)
  }

  /** A later clock or a smaller timeout finds no fewer nodes unhealthy. */
  lemma UnhealthyGrows(nodes: NodeTable, now: int, timeout: int, later: int, shorter: int)
    requires now <= later && shorter <= timeout
    requires forall id :: id in nodes ==> Fits64(now - nodes[id].lastSeen) && Fits64(later - nodes[id].lastSeen)
    ensures UnhealthyIDs(nodes, now, timeout) <= UnhealthyIDs(nodes, later, shorter)
  {
    forall id | id in UnhealthyIDs(nodes, now, timeout) ensures id in UnhealthyIDs(nodes, later, shorter) {
      UnhealthyInFields(nodes[id], now, timeout);
      UnhealthyInFields(nodes[id], later, shorter);
    }
  }

  function MarkedTable(nodes: NodeTable, now: int, timeout: int): NodeTable {
    map id | id in nodes :: nodes[id].(isHealthy := !Unhealthy(nodes[id], now, timeout))
  }

  /** The comments in `liveness.go` keep a transient node out of repair. The code does not: a pass
      clears its health flag and repair then counts it as unhealthy, whatever its timeout. */
  lemma TransientIsRepaired(cfg: LivenessConfig, nodes: NodeTable, id: string, now: int, later: int, timeout: int)
    requires id in nodes && Evaluate(cfg, nodes[id], now) == StatusTransient
    ensures id in UnhealthyIDs(JudgedTable(cfg, nodes, now), later, timeout)
  {
    assert JudgedTable(cfg, nodes, now)[id] == Judged(cfg, nodes[id], now);
  }

  // ----- The store

  class Store {
    const order: Sorter
    var nodes: NodeTable
    var files: map<string, FileMetadata>
    var placements: map<string, seq<ShardPlacement>>

    ghost predicate Valid()
      reads this
    {
      && LawfulSorter(order)
      && Keyed(nodes)
      && files.Keys == placements.Keys
      && forall f :: f in files ==> files[f].fileID == f
    }

    constructor (order: Sorter)
      requires LawfulSorter(order)
      ensures Valid() && this.order == order
      ensures nodes == map[] && files == map[] && placements == map[]
    {
      this.order := order;
      nodes, files, placements := map[], map[], map[];
    }

    method RegisterNode(node: NodeMetadata)
      requires Valid()
      modifies this`nodes
      ensures Valid() && nodes == old(nodes)[node.nodeID := node]
    {
      nodes := nodes[node.nodeID := node];
    }

    method ListNodes() returns (list: seq<NodeMetadata>)
      requires Valid()
      ensures list == ListOf(nodes)
    {
      SortedKeysListed(nodes.Keys);
      var keys := WalkKeys(nodes.Keys);
      list := [];
      for i := 0 to |keys|
        invariant |list| == i
        invariant forall j :: 0 <= j < i ==> keys[j] in nodes && list[j] == nodes[keys[j]]
      {
        assert keys[i] in keys;
        list := list + [nodes[keys[i]]];
      }
      assert list == ListOf(nodes);
    }

    method SelectPlacementNodes(count: nat, requiredSpace: int) returns (r: Result<seq<NodeMetadata>, Error>)
      requires Valid()
      ensures r == Selection(order, nodes, count, requiredSpace)
    {
      var list := ListNodes();
      var eligible := [];
      for i := 0 to |list|
        invariant eligible == EligibleOf(list[..i], requiredSpace)
      {
        assert list[..i + 1][..i] == list[..i];
        if list[i].isHealthy && FreeSpace(list[i]) >= requiredSpace {
          eligible := eligible + [list[i]];
        }
      }
      assert list[..|list|] == list;
      if |eligible| < count {
        return Err(InsufficientNodes);
      }
      assert Sorts(order, eligible);
      SameSize(order(eligible), eligible);
      r := Ok(order(eligible)[..count]);
    }

    method SaveFilePlacement(file: FileMetadata, shards: seq<ShardPlacement>)
      requires Valid()
      modifies this`files, this`placements
      ensures Valid()
      ensures files == old(files)[file.fileID := file]
      ensures placements == old(placements)[file.fileID := shards]
    {
      files := files[file.fileID := file];
      placements := placements[file.fileID := shards];
    }

    method ListFiles() returns (list: seq<FileMetadata>)
      requires Valid()
      ensures |list| == |SortedKeys(files.Keys)|
      ensures forall i :: 0 <= i < |list| ==>
        SortedKeys(files.Keys)[i] in files && list[i] == files[SortedKeys(files.Keys)[i]]
    {
      SortedKeysListed(files.Keys);
      var keys := WalkKeys(files.Keys);
      list := [];
      for i := 0 to |keys|
        invariant |list| == i
        invariant forall j :: 0 <= j < i ==> keys[j] in files && list[j] == files[keys[j]]
      {
        assert keys[i] in keys;
        list := list + [files[keys[i]]];
      }
    }

    method GetFilePlacement(fileID: string) returns (r: Result<(FileMetadata, seq<ShardPlacement>), Error>)
      requires Valid()
      ensures r == if fileID in files then Ok((files[fileID], placements[fileID])) else Err(FileNotFound)
    {
      if fileID !in files {
        return Err(FileNotFound);
      }
      return Ok((files[fileID], placements[fileID]));
    }

    /** Judges every node at `now`; the count is the number of nodes whose flag changed. */
    method ApplyLiveness(cfg: LivenessConfig, now: int) returns (changed: nat)
      requires Valid()
      modifies this`nodes
      ensures Valid()
      ensures nodes == JudgedTable(cfg, old(nodes), now)
      ensures changed == |Turned(cfg, old(nodes), now)|
      ensures JudgedInFields(cfg, old(nodes), nodes, now)
      ensures changed == |FlagsChanged(old(nodes), nodes)|
    {
      ghost var before := nodes;
      ghost var after := JudgedTable(cfg, nodes, now);
      var list := ListNodes();
      changed := 0;
      UpdatedNone(before, after);
      assert list[..0] == [];
      for i := 0 to |list|
        invariant Valid()
        invariant nodes == PartlyUpdated(before, after, IDs(list[..i]))
        invariant changed == |Turned(cfg, before, now) * IDs(list[..i])|
      {
        var n := list[i];
        UpdatedStep(before, after, i);
        TurnedStep(cfg, before, now, i);
        assert after[n.nodeID] == Judged(cfg, n, now);
        var shouldBeHealthy := Evaluate(cfg, n, now) == StatusHealthy;
        if n.isHealthy != shouldBeHealthy {
          RegisterNode(n.(isHealthy := shouldBeHealthy));
          changed := changed + 1;
        }
      }
      assert list[..|list|] == list;
      UpdatedAll(before, after);
      TurnedAll(cfg, before, now);
      TableInFields(cfg, before, now);
    }
  }

  /** The pass told in fields: it changes flags only, never sets one, and within 292 years leaves exactly those of the
      nodes silent for less than the first threshold. */
  ghost predicate JudgedInFields(cfg: LivenessConfig, before: NodeTable, after: NodeTable, now: int) {
    after.Keys == before.Keys && forall id :: id in before ==> NodeJudged(cfg, before[id], after[id], now)
  }

  ghost predicate NodeJudged(cfg: LivenessConfig, n: NodeMetadata, n': NodeMetadata, now: int) {
    && n' == n.(isHealthy := n'.isHealthy) && (n'.isHealthy ==> n.isHealthy)
    && (-9223372036 <= now - n.lastSeen <= 9223372036 ==>
         (n'.isHealthy <==> n.isHealthy && (now - n.lastSeen) * 1_000_000_000 < cfg.transientAfter))
  }

  ghost function FlagsChanged(before: NodeTable, after: NodeTable): set<string> {
    set id | id in before && id in after && after[id].isHealthy != before[id].isHealthy
  }

  lemma TableInFields(cfg: LivenessConfig, nodes: NodeTable, now: int)
    ensures JudgedInFields(cfg, nodes, JudgedTable(cfg, nodes, now), now)
    ensures Turned(cfg, nodes, now) == FlagsChanged(nodes, JudgedTable(cfg, nodes, now))
  {
    assert forall id :: id in nodes ==> JudgedTable(cfg, nodes, now)[id] == Judged(cfg, nodes[id], now);
    forall id | id in nodes ensures NodeJudged(cfg, nodes[id], JudgedTable(cfg, nodes, now)[id], now) {
      if -9223372036 <= now - nodes[id].lastSeen <= 9223372036 {
        EvaluateInFields(cfg, nodes[id], now);
      }
    }
  }

  /** `nodes` with the entries of `seen` replaced by those of `after`. */
  ghost function PartlyUpdated(nodes: NodeTable, after: NodeTable, seen: set<string>): NodeTable
    requires nodes.Keys <= after.Keys
  {
    map id | id in nodes :: if id in seen then after[id] else nodes[id]
  }

  lemma UpdatedNone(nodes: NodeTable, after: NodeTable)
    requires nodes.Keys <= after.Keys
    ensures PartlyUpdated(nodes, after, IDs([])) == nodes
  {
  }

  lemma UpdatedAll(nodes: NodeTable, after: NodeTable)
    requires Keyed(nodes) && nodes.Keys == after.Keys
    ensures PartlyUpdated(nodes, after, IDs(ListOf(nodes))) == after
    ensures IDs(ListOf(nodes)) == nodes.Keys
  {
    ListOfNodes(nodes);
    forall id | id in nodes ensures id in IDs(ListOf(nodes)) {
      assert nodes[id] in ListOf(nodes);
    }
  }

  lemma ListStep(nodes: NodeTable, i: nat)
    requires Keyed(nodes) && i < |ListOf(nodes)|
    ensures var list := ListOf(nodes);
      && list[i].nodeID in nodes && nodes[list[i].nodeID] == list[i]
      && list[i].nodeID !in IDs(list[..i])
      && IDs(list[..i + 1]) == IDs(list[..i]) + {list[i].nodeID}
  {
    var list := ListOf(nodes);
    ListOfNodes(nodes);
    assert list[i] in list;
    assert list[..i + 1] == list[..i] + [list[i]];
  }

  lemma UpdatedStep(nodes: NodeTable, after: NodeTable, i: nat)
    requires Keyed(nodes) && nodes.Keys == after.Keys && i < |ListOf(nodes)|
    ensures var n, list := ListOf(nodes)[i], ListOf(nodes);
      var before, next := PartlyUpdated(nodes, after, IDs(list[..i])), PartlyUpdated(nodes, after, IDs(list[..i + 1]));
      && n.nodeID in nodes && nodes[n.nodeID] == n
      && next == before[n.nodeID := after[n.nodeID]]
      && (after[n.nodeID] == n ==> next == before)
  {
    ListStep(nodes, i);
  }

  lemma TurnedAll(cfg: LivenessConfig, nodes: NodeTable, now: int)
    requires Keyed(nodes)
    ensures Turned(cfg, nodes, now) * IDs(ListOf(nodes)) == Turned(cfg, nodes, now)
  {
    UpdatedAll(nodes, nodes);
  }

  lemma TurnedStep(cfg: LivenessConfig, nodes: NodeTable, now: int, i: nat)
    requires Keyed(nodes) && i < |ListOf(nodes)|
    ensures var n, list, turned := ListOf(nodes)[i], ListOf(nodes), Turned(cfg, nodes, now);
      |turned * IDs(list[..i + 1])| == |turned * IDs(list[..i])| + if Judged(cfg, n, now) != n then 1 else 0
  {
    ListStep(nodes, i);
    var list, turned := ListOf(nodes), Turned(cfg, nodes, now);
    var id, seen := list[i].nodeID, IDs(list[..i]);
    assert turned * (seen + {id}) == turned * seen + if id in turned then {id} else {};
  }
}
