/** Which losses an uploaded or repaired file survives. */
module Durability {
  import opened Base
  import opened Cluster
  import opened Download
  import opened Inspect
  import opened Listing
  import opened Placements
  import opened Repair
  import opened ShardIds
  import opened Storage
  import opened Tracker
  import opened Upload
  import Chunker

  // ----- Counting the losses of one chunk

  /** Positions of a group whose node is lost. */
  function LostAt(group: seq<ShardPlacement>, lost: set<string>, n: nat): set<int> {
    set i | 0 <= i < n && i < |group| && group[i].nodeID in lost
  }

  /** On distinct nodes no more positions are lost than nodes. */
  lemma {:induction false} LostAtMost(group: seq<ShardPlacement>, lost: set<string>, n: nat)
    requires n <= |group| && DistinctNodes(group)
    ensures |LostAt(group, lost, n)| <= |lost|
  {
    if n > 0 {
      LostAtMost(group, lost - {group[n - 1].nodeID}, n - 1);
      LostAtStep(group, lost, n);
    }
  }

  lemma LostAtStep(group: seq<ShardPlacement>, lost: set<string>, n: nat)
    requires 0 < n <= |group| && DistinctNodes(group)
    ensures var id := group[n - 1].nodeID;
      LostAt(group, lost, n) == LostAt(group, lost - {id}, n - 1) + if id in lost then {n - 1} else {}
  {
  }

  lemma EightSplit(gone: set<int>, kept: set<int>)
    requires forall i :: i in gone || i in kept ==> 0 <= i < TOTAL_SHARDS
    requires forall i :: 0 <= i < TOTAL_SHARDS ==> (i in kept <==> i !in gone)
    ensures |gone| + |kept| == TOTAL_SHARDS
  {
    RangeSize(gone + kept, TOTAL_SHARDS);
    assert gone !! kept;
  }

  /** A chunk arrives if at most four of its positions stay silent. */
  lemma ArrivesWithout(s: Setup, view: History, list: seq<ShardPlacement>, c: nat, gone: set<int>)
    requires TOTAL_SHARDS * (c + 1) <= |list| && |gone| <= 4 && forall i :: i in gone ==> 0 <= i < TOTAL_SHARDS
    requires forall i: nat :: i < TOTAL_SHARDS && i !in gone ==> Arrives(s, view, list, c, i)
    ensures ChunkArrives(s, view, list, c)
  {
    var rest := set i | 0 <= i < TOTAL_SHARDS && i !in gone;
    EightSplit(gone, rest);
    SubsetSize(rest, Answers(s, view, list, c));
  }

  /** A chunk is lost if more than four of its positions stay silent. */
  lemma LostWithout(s: Setup, view: History, list: seq<ShardPlacement>, c: nat, gone: set<int>)
    requires TOTAL_SHARDS * (c + 1) <= |list| && |gone| > 4
    requires forall i :: i in gone ==> 0 <= i < TOTAL_SHARDS && !Arrives(s, view, list, c, i)
    ensures !ChunkArrives(s, view, list, c)
  {
    var rest := set i | 0 <= i < TOTAL_SHARDS && i !in gone;
    EightSplit(gone, rest);
    SubsetSize(Answers(s, view, list, c), rest);
  }

  // ----- Losing nodes, whatever list the tracker has

  /** Placement `j` brings its shard when it is asked for. */
  ghost predicate Brings(s: Setup, view: History, list: seq<ShardPlacement>, j: nat) {
    j < |list| && Answer(s, view, list, j) != []
  }

  /** The placements on the nodes of `lost`, and no others, bring nothing. */
  ghost predicate JustLost(s: Setup, view: History, list: seq<ShardPlacement>, lost: set<string>) {
    forall j: nat :: j < |list| ==> (Brings(s, view, list, j) <==> list[j].nodeID !in lost)
  }

  /** A chunk arrives exactly when at most four of its placements are on lost nodes, be they one node or many. */
  lemma ChunkArrivesIff(s: Setup, view: History, list: seq<ShardPlacement>, lost: set<string>, c: nat)
    requires JustLost(s, view, list, lost) && TOTAL_SHARDS * (c + 1) <= |list|
    ensures ChunkArrives(s, view, list, c) <==> |LostAt(GroupAt(list, c), lost, TOTAL_SHARDS)| <= 4
  {
    var group, kept := GroupAt(list, c), Answers(s, view, list, c);
    forall i | 0 <= i < TOTAL_SHARDS ensures i in kept <==> i !in LostAt(group, lost, TOTAL_SHARDS) {
      var j := TOTAL_SHARDS * c + i;
      assert group[i] == list[j];
      assert Brings(s, view, list, j) <==> list[j].nodeID !in lost;
    }
    EightSplit(LostAt(group, lost, TOTAL_SHARDS), kept);
  }

  ghost predicate Tolerable(list: seq<ShardPlacement>, lost: set<string>) {
    forall c: nat :: c < |list| / TOTAL_SHARDS ==> |LostAt(GroupAt(list, c), lost, TOTAL_SHARDS)| <= 4
  }

  /** A published file can be downloaded exactly when no chunk has more than four placements on lost nodes. */
  lemma RetrievableIff(s: Setup, view: History, f: string, lost: set<string>)
    requires view(0).tracker && view(1).tracker && f in view(0).world.placements
    requires JustLost(s, view, view(0).world.placements[f], lost)
    ensures Retrievable(s, view, f) <==> Tolerable(view(0).world.placements[f], lost)
  {
    var list := view(0).world.placements[f];
    forall c: nat | c < |list| / TOTAL_SHARDS
      ensures ChunkArrives(s, view, list, c) <==> |LostAt(GroupAt(list, c), lost, TOTAL_SHARDS)| <= 4
    {
      ChunkArrivesIff(s, view, list, lost, c);
    }
  }

  /** A file on distinct nodes for each chunk survives the loss of any four, whatever else happens meanwhile. */
  lemma SurvivesFourLosses(s: Setup, view: History, f: string, lost: set<string>)
    requires view(0).tracker && view(1).tracker && f in view(0).world.placements && |lost| <= 4
    requires var list := view(0).world.placements[f];
      && (forall c: nat :: c < |list| / TOTAL_SHARDS ==> DistinctNodes(GroupAt(list, c)))
      && (forall j: nat :: j < |list| && list[j].nodeID !in lost ==> Brings(s, view, list, j))
    ensures Retrievable(s, view, f)
  {
    var list := view(0).world.placements[f];
    forall c: nat | c < |list| / TOTAL_SHARDS ensures ChunkArrives(s, view, list, c) {
      var group := GroupAt(list, c);
      LostAtMost(group, lost, TOTAL_SHARDS);
      forall i: nat | i < TOTAL_SHARDS && i !in LostAt(group, lost, TOTAL_SHARDS)
        ensures Arrives(s, view, list, c, i)
      {
        var j := TOTAL_SHARDS * c + i;
        assert group[i] == list[j];
        assert Brings(s, view, list, j);
      }
      ArrivesWithout(s, view, list, c, LostAt(group, lost, TOTAL_SHARDS));
    }
  }

  // ----- After a repair

  /** What a moved group has on lost nodes: all that was on dead ones, if the target is lost, and what was on lost
      nodes that had been healthy. */
  lemma MovedLosses(group: seq<ShardPlacement>, dead: set<string>, target: string, lost: set<string>, n: nat)
    ensures |LostAt(Moved(group, dead, target), lost, n)|
         == (if target in lost then |LostAt(group, dead, n)| else 0) + |LostAt(group, lost - dead, n)|
  {
    var before, rest := LostAt(group, dead, n), LostAt(group, lost - dead, n);
    var gone := LostAt(Moved(group, dead, target), lost, n);
    assert before !! rest;
    if target in lost {
      assert gone == before + rest;
    } else {
      assert gone == rest;
    }
  }

  lemma MovedGroup(list: seq<ShardPlacement>, dead: set<string>, target: string, c: nat)
    ensures GroupAt(Moved(list, dead, target), c) == Moved(GroupAt(list, c), dead, target)
  {
  }

  /** The losses that a repaired chunk bears, told from where it lay before: shards count, not nodes. */
  ghost predicate TolerableRepaired(list: seq<ShardPlacement>, dead: set<string>, target: string, lost: set<string>) {
    forall c: nat :: c < |list| / TOTAL_SHARDS ==> RepairedLosses(GroupAt(list, c), dead, target, lost) <= 4
  }

  ghost function RepairedLosses(group: seq<ShardPlacement>, dead: set<string>, target: string, lost: set<string>): nat {
    (if target in lost then |LostAt(group, dead, TOTAL_SHARDS)| else 0) + |LostAt(group, lost - dead, TOTAL_SHARDS)|
  }

  /** After a completed repair the loss of a set of nodes leaves a file exactly when, for each chunk, the moved
      shards (if the node they went to is lost) and those that lay on the lost nodes before are at most four. */
  lemma SurvivesRepairIff(s: Setup, w: World, w': World, calm: Calm, now: int, timeout: int, target: string,
                          view: History, f: string, lost: set<string>)
    requires Outcome(s, w, w', calm, now, timeout, target, |SortedKeys(w.files.Keys)|)
    requires f in w.files && f in w.placements && f in w'.placements
    requires view(0).tracker && view(1).tracker && f in view(0).world.placements
    requires view(0).world.placements[f] == w'.placements[f] && JustLost(s, view, w'.placements[f], lost)
    ensures Retrievable(s, view, f)
       <==> TolerableRepaired(w.placements[f], UnhealthyIDs(w.nodes, now, timeout), target, lost)
  {
    CompletedMoves(s, w, w', calm, now, timeout, target, f);
    RetrievableIff(s, view, f, lost);
    RepairedTolerable(w.placements[f], UnhealthyIDs(w.nodes, now, timeout), target, lost);
  }

  lemma RepairedTolerable(list: seq<ShardPlacement>, dead: set<string>, target: string, lost: set<string>)
    ensures Tolerable(Moved(list, dead, target), lost) <==> TolerableRepaired(list, dead, target, lost)
  {
    forall c: nat
      ensures |LostAt(GroupAt(Moved(list, dead, target), c), lost, TOTAL_SHARDS)|
           == RepairedLosses(GroupAt(list, c), dead, target, lost)
    {
      MovedGroup(list, dead, target, c);
      MovedLosses(GroupAt(list, c), dead, target, lost, TOTAL_SHARDS);
    }
  }

  // ----- Eight nodes are one too few

  ghost function NodeIDs(group: seq<ShardPlacement>, n: nat): set<string>
    requires n <= |group|
  {
    if n == 0 then {} else NodeIDs(group, n - 1) + {group[n - 1].nodeID}
  }

  lemma {:induction false} NodeIDsOf(group: seq<ShardPlacement>, n: nat, id: string)
    requires n <= |group|
    ensures id in NodeIDs(group, n) <==> exists i :: 0 <= i < n && group[i].nodeID == id
  {
    if n > 0 {
      NodeIDsOf(group, n - 1, id);
    }
  }

  lemma {:induction false} NodesOfGroup(group: seq<ShardPlacement>, n: nat)
    requires n <= |group| && DistinctNodes(group)
    ensures |NodeIDs(group, n)| == n
  {
    if n > 0 {
      NodesOfGroup(group, n - 1);
      NodeIDsOf(group, n - 1, group[n - 1].nodeID);
    }
  }

  lemma SubsetOfSameSize(a: set<string>, b: set<string>)
    requires a <= b && |a| == |b|
    ensures a == b
  {
    SubsetSize(a, b);
    assert |b - a| == 0;
  }

  /** In a network of eight nodes, eight distinct registered ones are all. */
  lemma EveryNodeHasOne(nodes: NodeTable, group: seq<ShardPlacement>, id: string) returns (i: nat)
    requires |nodes| == TOTAL_SHARDS == |group| && DistinctNodes(group) && id in nodes
    requires forall i :: 0 <= i < |group| ==> group[i].nodeID in nodes
    ensures i < TOTAL_SHARDS && group[i].nodeID == id
  {
    NodesOfGroup(group, TOTAL_SHARDS);
    var ids := NodeIDs(group, TOTAL_SHARDS);
    forall x | x in ids ensures x in nodes.Keys {
      NodeIDsOf(group, TOTAL_SHARDS, x);
    }
    SubsetOfSameSize(ids, nodes.Keys);
    NodeIDsOf(group, TOTAL_SHARDS, id);
    i :| 0 <= i < TOTAL_SHARDS && group[i].nodeID == id;
  }

  /** A repair that moves a placement has a registered target that it found healthy. */
  lemma TargetIsHealthy(s: Setup, w: World, w': World, calm: Calm, now: int, timeout: int, target: string, f: string,
                        j: nat)
    requires Outcome(s, w, w', calm, now, timeout, target, |SortedKeys(w.files.Keys)|)
    requires f in w.files && f in w.placements && j < |w.placements[f]|
    requires w.placements[f][j].nodeID in UnhealthyIDs(w.nodes, now, timeout)
    ensures target in w.nodes && target !in UnhealthyIDs(w.nodes, now, timeout)
  {
    CompletedMoves(s, w, w', calm, now, timeout, target, f);
    NoneLeftOnDead(s, w, w', calm, now, timeout, target, f, j);
    var keys := SortedKeys(w.files.Keys);
    SortedKeysListed(w.files.Keys);
    var k: nat :| k < |keys| && keys[k] == f;
    assert FileRestored(s, w, w', calm, UnhealthyIDs(w.nodes, now, timeout), |keys|, k);
    assert EntryRestored(s, w', calm, w.placements[f], UnhealthyIDs(w.nodes, now, timeout), w'.placements[f], j);
  }

  /** With eight nodes, a chunk on all of them and four of these dead, a completed repair puts five shards on one
      node: losing that node alone loses the file, whatever all others do. */
  lemma RepairTargetCanBeFatal(s: Setup, w: World, w': World, calm: Calm, now: int, timeout: int, target: string,
                               view: History, f: string, c: nat)
    requires Outcome(s, w, w', calm, now, timeout, target, |SortedKeys(w.files.Keys)|)
    requires f in w.files && f in w.placements && f in w'.placements && |w.nodes| == TOTAL_SHARDS
    requires var dead, group := UnhealthyIDs(w.nodes, now, timeout), GroupAt(w.placements[f], c);
      && c < |w.placements[f]| / TOTAL_SHARDS && DistinctNodes(group)
      && (forall i :: 0 <= i < |group| ==> group[i].nodeID in w.nodes)
      && |LostAt(group, dead, TOTAL_SHARDS)| == 4
    requires f in view(0).world.placements && view(0).world.placements[f] == w'.placements[f]
    requires forall j: nat :: j < |w'.placements[f]| && w'.placements[f][j].nodeID == target ==>
      !Brings(s, view, w'.placements[f], j)
    ensures !Retrievable(s, view, f)
  {
    var dead, list := UnhealthyIDs(w.nodes, now, timeout), w.placements[f];
    var group := GroupAt(list, c);
    CompletedMoves(s, w, w', calm, now, timeout, target, f);
    Inhabited(LostAt(group, dead, TOTAL_SHARDS));
    var k: nat :| k in LostAt(group, dead, TOTAL_SHARDS);
    assert group[k] == list[TOTAL_SHARDS * c + k];
    TargetIsHealthy(s, w, w', calm, now, timeout, target, f, TOTAL_SHARDS * c + k);
    var i := EveryNodeHasOne(w.nodes, group, target);
    FiveOnTarget(list, dead, target, c, i);
    TargetLost(s, view, w'.placements[f], target, c);
  }

  /** Four moved placements and one that was there. */
  lemma FiveOnTarget(list: seq<ShardPlacement>, dead: set<string>, target: string, c: nat, i: nat)
    requires target !in dead && TOTAL_SHARDS * (c + 1) <= |list| && i < TOTAL_SHARDS
    requires GroupAt(list, c)[i].nodeID == target && |LostAt(GroupAt(list, c), dead, TOTAL_SHARDS)| == 4
    ensures |LostAt(GroupAt(Moved(list, dead, target), c), {target}, TOTAL_SHARDS)| > 4
  {
    var group := GroupAt(list, c);
    MovedGroup(list, dead, target, c);
    MovedLosses(group, dead, target, {target}, TOTAL_SHARDS);
    assert i in LostAt(group, {target} - dead, TOTAL_SHARDS);
  }

  lemma TargetLost(s: Setup, view: History, list: seq<ShardPlacement>, target: string, c: nat)
    requires TOTAL_SHARDS * (c + 1) <= |list| && |LostAt(GroupAt(list, c), {target}, TOTAL_SHARDS)| > 4
    requires forall j: nat :: j < |list| && list[j].nodeID == target ==> !Brings(s, view, list, j)
    ensures !ChunkArrives(s, view, list, c)
  {
    var gone := LostAt(GroupAt(list, c), {target}, TOTAL_SHARDS);
    forall x | x in gone ensures 0 <= x < TOTAL_SHARDS && !Arrives(s, view, list, c, x) {
      var j := TOTAL_SHARDS * c + x;
      assert GroupAt(list, c)[x] == list[j];
      assert !Brings(s, view, list, j);
    }
    LostWithout(s, view, list, c, gone);
  }

  // ----- From an upload to a download

  /** Entry `j` of the file is still `p`, and its node is where it was and has the shard. */
  ghost predicate Standing(s: Setup, w: World, j: nat, p: ShardPlacement, addr: string) {
    && p.fileID in w.placements && j < |w.placements[p.fileID]| && w.placements[p.fileID][j] == p
    && p.nodeID in w.nodes && w.nodes[p.nodeID].address == addr
    && Readable(s, w.servers, addr, p.shardID)
  }

  /** The action takes nothing from the entry: its node keeps its disk, its address and this shard, and a new
      placement list has the entry where it was. A repair that moves other entries is such an action. */
  ghost predicate Spares(a: Action, j: nat, p: ShardPlacement, addr: string) {
    match a
    case Register(n) => n.nodeID == p.nodeID ==> n.address == addr
    case MoveServer(from, _) => from != addr
    case LoseServer(x) => x != addr
    case Damage(x, id, _) => x != addr || id != p.shardID
    case Publish(file, list) => file.fileID == p.fileID ==> j < |list| && list[j] == p
    case _ => true
  }

  lemma StandingStep(s: Setup, w: World, a: Action, j: nat, p: ShardPlacement, addr: string)
    requires Inv(s, w) && Legal(s, w, a) && Standing(s, w, j, p, addr) && Spares(a, j, p, addr)
    ensures Standing(s, Apply(w, a), j, p, addr)
  {
    if a.StoreShard? {
      CanonicalNotEmpty(s, w.originals[a.fileID], a.chunk, a.shard);
      StoreKeeps(s, w.servers, a.address, ShardId(a.fileID, a.chunk, a.shard), a.stored);
      assert CopyKept(s, w.servers, Apply(w, a).servers, addr, p.shardID);
    }
  }

  lemma {:induction false} StandingRun(s: Setup, w: World, actions: seq<Action>, j: nat, p: ShardPlacement,
                                       addr: string)
    requires Inv(s, w) && Standing(s, w, j, p, addr)
    requires forall k :: 0 <= k < |actions| ==> Spares(actions[k], j, p, addr)
    ensures Standing(s, Run(s, w, actions), j, p, addr)
  {
    if actions != [] {
      var front := actions[..|actions| - 1];
      StandingRun(s, w, front, j, p, addr);
      RunKeepsInv(s, w, front);
      if Legal(s, Run(s, w, front), actions[|actions| - 1]) {
        StandingStep(s, Run(s, w, front), actions[|actions| - 1], j, p, addr);
      }
    }
  }

  /** Entry `j` is to be spared: its node, registered in `nodes`, is not one of `lost`. */
  ghost predicate Spared(nodes: NodeTable, list: seq<ShardPlacement>, lost: set<string>, j: nat) {
    j < |list| && list[j].nodeID in nodes && list[j].nodeID !in lost
  }

  ghost predicate SparesAll(a: Action, nodes: NodeTable, list: seq<ShardPlacement>, lost: set<string>) {
    forall j: nat :: Spared(nodes, list, lost, j) ==> Spares(a, j, list[j], nodes[list[j].nodeID].address)
  }

  /** Some run leads from `w` to `w'` that spares every entry of the list outside `lost`. */
  ghost predicate ReachesSparing(s: Setup, nodes: NodeTable, list: seq<ShardPlacement>, lost: set<string>, w: World,
                                 w': World)
  {
    exists actions :: SparingRun(s, nodes, list, lost, w, w', actions)
  }

  ghost predicate SparingRun(s: Setup, nodes: NodeTable, list: seq<ShardPlacement>, lost: set<string>, w: World,
                             w': World, actions: seq<Action>)
  {
    Run(s, w, actions) == w' && forall k :: 0 <= k < |actions| ==> SparesAll(actions[k], nodes, list, lost)
  }

  /** After `w` anything may happen that spares the file's entries outside `lost`; their nodes and the tracker answer
      the download, while the nodes of `lost` may be silent, wiped, moved or damaged. */
  ghost predicate SparingHistory(s: Setup, w: World, f: string, lost: set<string>, view: History)
    requires f in w.placements
  {
    var list := w.placements[f];
    && view(0).tracker && view(1).tracker
    && ReachesSparing(s, w.nodes, list, lost, w, view(0).world)
    && (forall n: nat :: ReachesSparing(s, w.nodes, list, lost, view(n).world, view(n + 1).world))
    && forall n: nat, j: nat :: Spared(w.nodes, list, lost, j) ==> w.nodes[list[j].nodeID].address in view(n).online
  }

  lemma StandingThrough(s: Setup, nodes: NodeTable, list: seq<ShardPlacement>, lost: set<string>, w: World, w': World,
                        j: nat)
    requires Inv(s, w) && ReachesSparing(s, nodes, list, lost, w, w') && Spared(nodes, list, lost, j)
    requires Standing(s, w, j, list[j], nodes[list[j].nodeID].address)
    ensures Inv(s, w') && Standing(s, w', j, list[j], nodes[list[j].nodeID].address)
  {
    var actions :| SparingRun(s, nodes, list, lost, w, w', actions);
    RunKeepsInv(s, w, actions);
    forall k | 0 <= k < |actions| ensures Spares(actions[k], j, list[j], nodes[list[j].nodeID].address) {
      assert SparesAll(actions[k], nodes, list, lost);
    }
    StandingRun(s, w, actions, j, list[j], nodes[list[j].nodeID].address);
  }

  lemma {:induction false} StandingAt(s: Setup, w: World, f: string, lost: set<string>, view: History, j: nat, n: nat)
    requires Inv(s, w) && f in w.placements && SparingHistory(s, w, f, lost, view)
    requires Spared(w.nodes, w.placements[f], lost, j)
    requires Standing(s, w, j, w.placements[f][j], w.nodes[w.placements[f][j].nodeID].address)
    ensures Inv(s, view(n).world)
    ensures Standing(s, view(n).world, j, w.placements[f][j], w.nodes[w.placements[f][j].nodeID].address)
  {
    var list := w.placements[f];
    if n == 0 {
      StandingThrough(s, w.nodes, list, lost, w, view(0).world, j);
    } else {
      StandingAt(s, w, f, lost, view, j, n - 1);
      assert ReachesSparing(s, w.nodes, list, lost, view(n - 1).world, view(n - 1 + 1).world);
      StandingThrough(s, w.nodes, list, lost, view(n - 1).world, view(n).world, j);
    }
  }

  /** The entries outside `lost` are held. */
  ghost predicate HeldOutside(s: Setup, w: World, f: string, lost: set<string>)
    requires f in w.placements
  {
    forall j: nat :: EntryHeld(s, w, w.placements[f], lost, j)
  }

  ghost predicate EntryHeld(s: Setup, w: World, list: seq<ShardPlacement>, lost: set<string>, j: nat) {
    j < |list| && list[j].nodeID !in lost ==> Held(s, w.nodes, w.servers, list[j])
  }

  /** What is held stands. */
  lemma HeldStands(s: Setup, w: World, f: string, lost: set<string>, j: nat)
    requires Inv(s, w) && f in w.placements && HeldOutside(s, w, f, lost)
    requires j < |w.placements[f]| && w.placements[f][j].nodeID !in lost
    ensures var p := w.placements[f][j];
      && p.fileID == f && p.nodeID in w.nodes && Standing(s, w, j, p, w.nodes[p.nodeID].address)
  {
    FileShaped(s, w, f);
    assert EntryShaped(f, w.originals[f], w.placements[f], j);
    assert EntryHeld(s, w, w.placements[f], lost, j);
  }

  lemma SparedBrings(s: Setup, w: World, f: string, lost: set<string>, view: History, j: nat)
    requires Inv(s, w) && f in w.placements && HeldOutside(s, w, f, lost) && SparingHistory(s, w, f, lost, view)
    requires j < |w.placements[f]| && w.placements[f][j].nodeID !in lost
    ensures f in view(0).world.placements && Brings(s, view, view(0).world.placements[f], j)
  {
    var p := w.placements[f][j];
    HeldStands(s, w, f, lost, j);
    assert Spared(w.nodes, w.placements[f], lost, j);
    StandingAt(s, w, f, lost, view, j, 0);
    StandingAt(s, w, f, lost, view, j, 1);
    StandingAt(s, w, f, lost, view, j, 2 + j);
    HeldMeansFetched(s, view(1).world.nodes, view(2 + j).world.servers, view(2 + j).online, p);
  }

  /** The list keeps its length whoever republishes it. */
  lemma SameLength(s: Setup, w: World, w': World, f: string)
    requires Inv(s, w) && Reaches(s, w, w') && f in w.placements && f in w.originals
    ensures f in w'.placements && |w'.placements[f]| == |w.placements[f]|
  {
    var actions := RunOf(s, w, w');
    PublishedStays(s, w, actions, f);
    ReachesKeeps(s, w, w');
    FileShaped(s, w, f);
    FileShaped(s, w', f);
  }

  /** A published file whose entries outside `lost` are held, at most four of a chunk being on lost nodes, can be
      downloaded after any history that spares those entries, be it uploaded or repaired, on distinct nodes or not. */
  lemma HeldSurvives(s: Setup, w: World, f: string, lost: set<string>, view: History)
    requires Inv(s, w) && f in w.placements && HeldOutside(s, w, f, lost)
    requires Tolerable(w.placements[f], lost) && SparingHistory(s, w, f, lost, view)
    ensures Retrievable(s, view, f)
  {
    var before, list := w.placements[f], view(0).world.placements;
    SparingReaches(s, w, f, lost, view);
    FileShaped(s, w, f);
    SameLength(s, w, view(0).world, f);
    forall c: nat | c < |list[f]| / TOTAL_SHARDS ensures ChunkArrives(s, view, list[f], c) {
      var gone := LostAt(GroupAt(before, c), lost, TOTAL_SHARDS);
      forall i: nat | i < TOTAL_SHARDS && i !in gone ensures Arrives(s, view, list[f], c, i) {
        var j := TOTAL_SHARDS * c + i;
        assert GroupAt(before, c)[i] == before[j];
        SparedBrings(s, w, f, lost, view, j);
      }
      ArrivesWithout(s, view, list[f], c, gone);
    }
  }

  /** Four lost nodes are at most four placements of any chunk of an upload. */
  lemma FourAreTolerable(s: Setup, spared: Spared, w: World, f: string, lost: set<string>)
    requires Spread(s, spared, w, f) && |lost| <= 4
    ensures Tolerable(w.placements[f], lost)
  {
    var list := w.placements[f];
    forall c: nat | c < |list| / TOTAL_SHARDS ensures |LostAt(GroupAt(list, c), lost, TOTAL_SHARDS)| <= 4 {
      assert ChunkPlaced(s, spared, w.nodes, w.servers, f, w.originals[f], c, GroupAt(list, c));
      LostAtMost(GroupAt(list, c), lost, TOTAL_SHARDS);
    }
  }

  lemma SpreadIsHeld(s: Setup, w: World, f: string, spared: set<string>, lost: set<string>)
    requires Spread(s, Some(spared), w, f) && spared <= lost
    ensures HeldOutside(s, w, f, lost)
  {
    var list, data := w.placements[f], w.originals[f];
    forall j: nat ensures EntryHeld(s, w, list, lost, j) {
      if j < |list| {
        var c, i := j / TOTAL_SHARDS, j % TOTAL_SHARDS;
        assert ChunkPlaced(s, Some(spared), w.nodes, w.servers, f, data, c, GroupAt(list, c));
        assert GroupAt(list, c)[i] == list[j];
        assert EntryPlaced(s, Some(spared), w.nodes, w.servers, f, data, c, i, GroupAt(list, c)[i]);
      }
    }
  }

  /** Any four nodes may be lost during or after an upload, by silence, wiped disk or otherwise, while uploads,
      repairs and all other steps go on: the download still succeeds. More may, if no chunk has more than four. */
  lemma UploadSurvives(s: Setup, w: World, f: string, spared: set<string>, lost: set<string>, view: History)
    requires Inv(s, w) && Spread(s, Some(spared), w, f) && spared <= lost
    requires |lost| <= 4 || Tolerable(w.placements[f], lost)
    requires SparingHistory(s, w, f, lost, view)
    ensures Retrievable(s, view, f)
  {
    if |lost| <= 4 {
      FourAreTolerable(s, Some(spared), w, f, lost);
    }
    SpreadIsHeld(s, w, f, spared, lost);
    HeldSurvives(s, w, f, lost, view);
  }

  /** Before a repair: the entries outside `lost` that it leaves alone are held at steady addresses, and the node it
      moves the others to is steady, or lost itself. */
  ghost predicate ReadyForRepair(s: Setup, w: World, f: string, dead: set<string>, target: string, lost: set<string>,
                                 steady: Steady)
    requires f in w.placements
  {
    && (forall j: nat :: j < |w.placements[f]| && w.placements[f][j].nodeID !in dead ==>
         SteadyEntry(s, w, w.placements[f][j], lost, steady))
    && (target in w.nodes && target !in lost ==> w.nodes[target].address in steady.keeps)
  }

  ghost predicate SteadyEntry(s: Setup, w: World, p: ShardPlacement, lost: set<string>, steady: Steady) {
    p.nodeID !in lost ==> Held(s, w.nodes, w.servers, p) && w.nodes[p.nodeID].address in steady.keeps
  }

  /** What a repair leaves is held: the entries it moved at their new node, the others where they were. */
  lemma RepairedIsHeld(s: Setup, w: World, w': World, steady: Steady, now: int, timeout: int, target: string, f: string,
                       lost: set<string>)
    requires Outcome(s, w, w', Some(steady), now, timeout, target, |SortedKeys(w.files.Keys)|)
    requires f in w.files && f in w.placements
    requires ReadyForRepair(s, w, f, UnhealthyIDs(w.nodes, now, timeout), target, lost, steady)
    ensures f in w'.placements && HeldOutside(s, w', f, lost)
  {
    var dead := UnhealthyIDs(w.nodes, now, timeout);
    CompletedMoves(s, w, w', Some(steady), now, timeout, target, f);
    var list, moved := w.placements[f], w'.placements[f];
    forall j: nat ensures EntryHeld(s, w', moved, lost, j) {
      if j < |list| && moved[j].nodeID !in lost {
        if list[j].nodeID in dead {
          TargetIsHealthy(s, w, w', Some(steady), now, timeout, target, f, j);
          DeadAreRestored(s, w, w', steady, now, timeout, target, f, j);
          HeldMeansFetched(s, w'.nodes, w'.servers, steady.keeps, moved[j]);
        } else {
          assert SteadyEntry(s, w, list[j], lost, steady);
          HeldKept(s, steady.keeps, w.nodes, w.servers, w'.servers, list[j]);
        }
      }
    }
  }

  /** From a repair to a download: a file with at most four shards of each chunk on lost nodes, counted where the
      repair put them, survives their loss, whether during the repair or after it. */
  lemma RepairedSurvives(s: Setup, w: World, w': World, steady: Steady, now: int, timeout: int, target: string,
                         f: string, lost: set<string>, view: History)
    requires Inv(s, w') && Outcome(s, w, w', Some(steady), now, timeout, target, |SortedKeys(w.files.Keys)|)
    requires f in w.files && f in w.placements && f in w'.placements
    requires ReadyForRepair(s, w, f, UnhealthyIDs(w.nodes, now, timeout), target, lost, steady)
    requires TolerableRepaired(w.placements[f], UnhealthyIDs(w.nodes, now, timeout), target, lost)
    requires SparingHistory(s, w', f, lost, view)
    ensures Retrievable(s, view, f)
  {
    CompletedMoves(s, w, w', Some(steady), now, timeout, target, f);
    RepairedIsHeld(s, w, w', steady, now, timeout, target, f, lost);
    RepairedTolerable(w.placements[f], UnhealthyIDs(w.nodes, now, timeout), target, lost);
    HeldSurvives(s, w', f, lost, view);
  }

  lemma SparingReaches(s: Setup, w: World, f: string, lost: set<string>, view: History)
    requires f in w.placements && SparingHistory(s, w, f, lost, view)
    ensures Reaches(s, w, view(0).world)
  {
    var actions :| SparingRun(s, w.nodes, w.placements[f], lost, w, view(0).world, actions);
    ReachesBy(s, w, actions);
  }

  /** Upload, then anything, then download. If both succeed, the output holds the bytes the reader held; a download
      that fails leaves the output as it was or at a part of those bytes. And if others spare all but some nodes
      during the upload, and afterwards the file's entries but for these and others, in all four nodes or four
      placements of a chunk, a download into a sound output does succeed. */
  method PutThenGet(net: Network, ghost spared: Spared, f: string, fileName: string, reader: Chunker.Reader, size: int,
                    now: int, hash: Bytes -> Chunker.Digest, view: History, output: Chunker.Writer)
    returns (put: Result<(), Upload.Error>, got: Result<(), Download.Error>, ghost uploaded: World)
    requires net.Valid() && SparedIn(net.s, net.env, spared) && f !in net.originals && Unfolds(net.s, view)
    modifies net, net.store, reader, output
    ensures Inv(net.s, uploaded) && (put.Ok? ==> f in uploaded.placements)
    ensures put.Ok? && got.Ok? && Reaches(net.s, uploaded, view(0).world) ==> output.out == old(reader.rest)
    ensures put.Ok? && got.Err? && Reaches(net.s, uploaded, view(0).world) ==>
      output.out == old(output.out) || output.out <= old(reader.rest)
    ensures put.Ok? && spared.Some? && output.reliable ==>
      forall lost :: spared.value <= lost && Survivable(net.s, uploaded, f, lost, view) ==> got.Ok?
  {
    ghost var data := reader.rest;
    ghost var published, why;
    put, published, why := Upload.Put(net, spared, f, fileName, reader, size, now, hash);
    uploaded := net.View();
    got := Get(net.s, view, f, hash, output);
    if put.Ok? {
      if Reaches(net.s, uploaded, view(0).world) {
        ReachesKeeps(net.s, uploaded, view(0).world);
      }
      forall lost | spared.Some? && spared.value <= lost && Survivable(net.s, uploaded, f, lost, view)
        ensures Retrievable(net.s, view, f)
      {
        UploadSurvives(net.s, uploaded, f, spared.value, lost, view);
      }
    }
  }

  /** After `w` only nodes of `lost` fail, and they are four, or have at most four placements of each chunk. */
  ghost predicate Survivable(s: Setup, w: World, f: string, lost: set<string>, view: History)
    requires f in w.placements
  {
    SparingHistory(s, w, f, lost, view) && (|lost| <= 4 || Tolerable(w.placements[f], lost))
  }
}
