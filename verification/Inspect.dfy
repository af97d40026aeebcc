/** `InspectAndRepair` over the whole tracker store: `internal/repair/repair.go`. */
module Inspect {
  import opened Base
  import opened Cluster
  import opened Download
  import opened Listing
  import opened Repair
  import opened ShardServer
  import opened Storage
  import opened Tracker
  import Upload

  // ----- Classifying the nodes

  function HealthyTable(nodes: NodeTable, now: int, timeout: int): NodeTable {
    map id | id in nodes && !Unhealthy(nodes[id], now, timeout) :: nodes[id]
  }

  /** What the loop has made of node `id` once it has seen the nodes of `seen`. */
  ghost predicate NodeClassified(nodes: NodeTable, now: int, timeout: int, seen: set<string>,
                                 marked: NodeTable, dead: set<string>, healthy: NodeTable, id: string)
  {
    var known := id in nodes && id in seen;
    && (id in marked <==> id in nodes)
    && (id in nodes ==>
      marked[id] == if known && Unhealthy(nodes[id], now, timeout) then nodes[id].(isHealthy := false) else nodes[id])
    && (id in dead <==> known && Unhealthy(nodes[id], now, timeout))
    && (id in healthy <==> known && !Unhealthy(nodes[id], now, timeout))
    && (id in healthy ==> healthy[id] == nodes[id])
  }

  ghost predicate Classified(nodes: NodeTable, now: int, timeout: int, seen: set<string>,
                             marked: NodeTable, dead: set<string>, healthy: NodeTable)
  {
    forall id :: NodeClassified(nodes, now, timeout, seen, marked, dead, healthy, id)
  }

  lemma ClassifiedNone(nodes: NodeTable, now: int, timeout: int)
    ensures Classified(nodes, now, timeout, IDs([]), nodes, {}, map[])
  {
  }

  lemma ClassifyStep(nodes: NodeTable, now: int, timeout: int, i: nat, marked: NodeTable, dead: set<string>,
                     healthy: NodeTable)
    requires Keyed(nodes) && i < |ListOf(nodes)|
    requires Classified(nodes, now, timeout, IDs(ListOf(nodes)[..i]), marked, dead, healthy)
    ensures var n, seen := ListOf(nodes)[i], IDs(ListOf(nodes)[..i + 1]);
      if Unhealthy(n, now, timeout) then
        Classified(nodes, now, timeout, seen, marked[n.nodeID := n.(isHealthy := false)], dead + {n.nodeID}, healthy)
      else Classified(nodes, now, timeout, seen, marked, dead, healthy[n.nodeID := n])
  {
    ListStep(nodes, i);
    ClassifyOne(nodes, now, timeout, IDs(ListOf(nodes)[..i]), marked, dead, healthy, ListOf(nodes)[i]);
  }

  lemma ClassifyOne(nodes: NodeTable, now: int, timeout: int, seen: set<string>, marked: NodeTable, dead: set<string>,
                    healthy: NodeTable, n: NodeMetadata)
    requires Classified(nodes, now, timeout, seen, marked, dead, healthy)
    requires n.nodeID in nodes && nodes[n.nodeID] == n && n.nodeID !in seen
    ensures if Unhealthy(n, now, timeout) then
        Classified(nodes, now, timeout, seen + {n.nodeID}, marked[n.nodeID := n.(isHealthy := false)],
                   dead + {n.nodeID}, healthy)
      else Classified(nodes, now, timeout, seen + {n.nodeID}, marked, dead, healthy[n.nodeID := n])
  {
    var bad := Unhealthy(n, now, timeout);
    var marked' := if bad then marked[n.nodeID := n.(isHealthy := false)] else marked;
    var dead' := if bad then dead + {n.nodeID} else dead;
    var healthy' := if bad then healthy else healthy[n.nodeID := n];
    forall id ensures NodeClassified(nodes, now, timeout, seen + {n.nodeID}, marked', dead', healthy', id) {
      assert NodeClassified(nodes, now, timeout, seen, marked, dead, healthy, id);
    }
  }

  lemma ClassifiedAll(nodes: NodeTable, now: int, timeout: int, marked: NodeTable, dead: set<string>,
                      healthy: NodeTable)
    requires Keyed(nodes) && Classified(nodes, now, timeout, IDs(ListOf(nodes)), marked, dead, healthy)
    ensures marked == MarkedTable(nodes, now, timeout)
    ensures dead == UnhealthyIDs(nodes, now, timeout) && healthy == HealthyTable(nodes, now, timeout)
  {
    UpdatedAll(nodes, nodes);
    forall id
      ensures id in marked <==> id in nodes
      ensures id in nodes ==> marked[id] == nodes[id].(isHealthy := !Unhealthy(nodes[id], now, timeout))
      ensures id in dead <==> id in UnhealthyIDs(nodes, now, timeout)
      ensures id in healthy <==> id in HealthyTable(nodes, now, timeout)
      ensures id in healthy ==> healthy[id] == nodes[id]
    {
      assert NodeClassified(nodes, now, timeout, IDs(ListOf(nodes)), marked, dead, healthy, id);
    }
  }

  /** The first loop: splits the nodes and marks the unhealthy ones in the store. */
  method Classify(store: Store, now: int, timeout: int) returns (dead: set<string>, healthy: NodeTable)
    requires store.Valid()
    modifies store`nodes
    ensures store.Valid() && store.nodes == MarkedTable(old(store.nodes), now, timeout)
    ensures dead == UnhealthyIDs(old(store.nodes), now, timeout)
    ensures healthy == HealthyTable(old(store.nodes), now, timeout)
    ensures forall id :: id in old(store.nodes) && Fits64(now - old(store.nodes)[id].lastSeen) ==>
      (id in dead <==> !old(store.nodes)[id].isHealthy || now - old(store.nodes)[id].lastSeen > timeout)
    ensures dead <= old(store.nodes).Keys && healthy.Keys == old(store.nodes).Keys - dead
    ensures forall id :: id in healthy ==> healthy[id] == old(store.nodes)[id]
  {
    ghost var before := store.nodes;
    forall id | id in before && Fits64(now - before[id].lastSeen)
      ensures Unhealthy(before[id], now, timeout) <==> !before[id].isHealthy || now - before[id].lastSeen > timeout
    {
      UnhealthyInFields(before[id], now, timeout);
    }
    var list := store.ListNodes();
    dead, healthy := {}, map[];
    ClassifiedNone(before, now, timeout);
    assert list[..0] == [];
    for i := 0 to |list|
      invariant store.Valid()
      invariant Classified(before, now, timeout, IDs(list[..i]), store.nodes, dead, healthy)
    {
      var n := list[i];
      ClassifyStep(before, now, timeout, i, store.nodes, dead, healthy);
      if !n.isHealthy || Wrap64(now - n.lastSeen) > timeout {
        dead := dead + {n.nodeID};
        store.RegisterNode(n.(isHealthy := false));
      } else {
        healthy := healthy[n.nodeID := n];
      }
    }
    assert list[..|list|] == list;
    ClassifiedAll(before, now, timeout, store.nodes, dead, healthy);
  }

  // ----- What a run leaves

  /** Placements on the dead nodes among the first `n` files in listing order. */
  ghost function DeadTotal(placements: map<string, seq<ShardPlacement>>, keys: seq<string>, dead: set<string>,
                           n: nat): nat
    requires n <= |keys|
  {
    if n == 0 then 0
    else
      DeadTotal(placements, keys, dead, n - 1)
        + if keys[n - 1] in placements then
            DeadCount(placements[keys[n - 1]], dead, |placements[keys[n - 1]]|)
          else 0
  }

  /** The k-th file: its dead entries moved if it was handled, else as it was. */
  ghost predicate FileState(w: World, w': World, dead: set<string>, target: string, handled: nat, k: nat)
  {
    var keys := SortedKeys(w.files.Keys);
    k < |keys| ==>
      && keys[k] in w.placements && keys[k] in w'.placements
      && w'.placements[keys[k]]
           == if k < handled then Moved(w.placements[keys[k]], dead, target) else w.placements[keys[k]]
  }

  /** Every entry of a handled file that left a dead node is held by a node that answers. */
  ghost predicate FileRestored(s: Setup, w: World, w': World, calm: Calm, dead: set<string>, handled: nat, k: nat)
  {
    var keys := SortedKeys(w.files.Keys);
    k < handled && k < |keys| && keys[k] in w.placements && keys[k] in w'.placements ==>
      Restored(s, w', calm, w.placements[keys[k]], dead, w'.placements[keys[k]])
  }

  /** The state a repair leaves after `handled` files: the nodes marked, those files repaired, nothing else changed. */
  ghost predicate Outcome(s: Setup, w: World, w': World, calm: Calm, now: int, timeout: int, target: string,
                          handled: nat)
  {
    && w'.nodes == MarkedTable(w.nodes, now, timeout)
    && w'.files == w.files && w'.placements.Keys == w.placements.Keys && Remembers(w, w')
    && (calm.Some? ==> KeptOn(s, calm.value.keeps, w.servers, w'.servers))
    && (forall k: nat :: FileState(w, w', UnhealthyIDs(w.nodes, now, timeout), target, handled, k))
    && (forall k: nat :: FileRestored(s, w, w', calm, UnhealthyIDs(w.nodes, now, timeout), handled, k))
  }

  lemma RestoredKept(s: Setup, w: World, w': World, calm: Calm, list: seq<ShardPlacement>, dead: set<string>,
                     updated: seq<ShardPlacement>)
    requires Restored(s, w, calm, list, dead, updated) && w'.nodes == w.nodes
    requires calm.Some? ==> KeptOn(s, calm.value.keeps, w.servers, w'.servers)
    ensures Restored(s, w', calm, list, dead, updated)
  {
    forall j ensures EntryRestored(s, w', calm, list, dead, updated, j) {
      assert EntryRestored(s, w, calm, list, dead, updated, j);
      if 0 <= j < |list| && list[j].nodeID in dead {
        ReachedKept(s, w.nodes, w.servers, w'.servers, calm, updated[j]);
      }
    }
  }

  /** Uploads made for a later file disturb no handled one. */
  lemma OutcomeKept(s: Setup, w: World, w': World, w'': World, calm: Calm, now: int, timeout: int, target: string,
                    handled: nat)
    requires Outcome(s, w, w', calm, now, timeout, target, handled)
    requires Passed(s, calm, w', w'') && SameTracker(w', w'') && Remembers(w', w'')
    ensures Outcome(s, w, w'', calm, now, timeout, target, handled)
  {
    var dead := UnhealthyIDs(w.nodes, now, timeout);
    if calm.Some? {
      KeptTransitive(s, calm.value.keeps, w.servers, w'.servers, w''.servers);
    }
    forall k: nat ensures FileState(w, w'', dead, target, handled, k)
      && FileRestored(s, w, w'', calm, dead, handled, k) {
      assert FileState(w, w', dead, target, handled, k) && FileRestored(s, w, w', calm, dead, handled, k);
      var keys := SortedKeys(w.files.Keys);
      if k < handled && k < |keys| {
        RestoredKept(s, w', w'', calm, w.placements[keys[k]], dead, w'.placements[keys[k]]);
      }
    }
  }

  /** Saving the repaired placements of file number `handled` handles one more file. */
  lemma OutcomeNext(s: Setup, w: World, w': World, w'': World, calm: Calm, now: int, timeout: int, target: string,
                    handled: nat, next: seq<ShardPlacement>)
    requires Outcome(s, w, w', calm, now, timeout, target, handled)
    requires handled < |SortedKeys(w.files.Keys)|
    requires var f := SortedKeys(w.files.Keys)[handled];
      && f in w.placements
      && next == Moved(w.placements[f], UnhealthyIDs(w.nodes, now, timeout), target)
      && Restored(s, w', calm, w.placements[f], UnhealthyIDs(w.nodes, now, timeout), next)
      && w'' == w'.(placements := w'.placements[f := next])
    ensures Outcome(s, w, w'', calm, now, timeout, target, handled + 1)
  {
    var dead, keys := UnhealthyIDs(w.nodes, now, timeout), SortedKeys(w.files.Keys);
    var more := handled + 1;
    forall k: nat ensures FileState(w, w'', dead, target, more, k) && FileRestored(s, w, w'', calm, dead, more, k) {
      assert FileState(w, w', dead, target, handled, k) && FileRestored(s, w, w', calm, dead, handled, k);
      if k < |keys| && k != handled {
        if k < handled {
          SortedKeysDistinct(w.files.Keys, k, handled);
        } else {
          SortedKeysDistinct(w.files.Keys, handled, k);
        }
        if k < handled {
          RestoredKept(s, w', w'', calm, w.placements[keys[k]], dead, w'.placements[keys[k]]);
        }
      } else if k == handled && k < |keys| {
        RestoredKept(s, w', w'', calm, w.placements[keys[k]], dead, next);
      }
    }
  }

  // ----- The run

  /** The end of the callback: the placements are saved only if some entry moved. */
  method SaveRepaired(net: Network, file: FileMetadata, list: seq<ShardPlacement>, next: seq<ShardPlacement>,
                      ghost dead: set<string>, moved: nat)
    requires net.Valid() && file.fileID in net.store.files && net.store.files[file.fileID] == file
    requires file.fileID in net.store.placements && net.store.placements[file.fileID] == list
    requires next == Moved(list, dead, net.GoTo()) && moved == DeadCount(list, dead, |list|)
    modifies net.store`files, net.store`placements
    ensures net.Valid() && Reaches(net.s, old(net.View()), net.View())
    ensures net.View() == old(net.View()).(placements := old(net.store.placements)[file.fileID := next])
  {
    ghost var w := net.View();
    FileShaped(net.s, w, file.fileID);
    if moved > 0 {
      ShapedMoved(file.fileID, net.originals[file.fileID], list, dead, net.GoTo());
      Upload.PublishStep(net.s, w, file, next);
      net.store.SaveFilePlacement(file, next);
    } else {
      NothingMoved(list, dead, net.GoTo());
      ReachesItself(net.s, w);
    }
  }

  /** One file's turn led from `w'` to `w''`: it is handled, or an error left its placements as they were. */
  ghost predicate FileTurn(s: Setup, w: World, w': World, w'': World, calm: Calm, now: int, timeout: int,
                           target: string, healthy: NodeTable, handled: nat, f: string, moved: nat,
                           err: Option<Repair.Error>)
  {
    var dead := UnhealthyIDs(w.nodes, now, timeout);
    && f in w.placements && Reaches(s, w', w'') && (calm.Some? ==> KeptOn(s, calm.value.keeps, w'.servers, w''.servers))
    && var list := w.placements[f];
    && Outcome(s, w, w'', calm, now, timeout, target, if err.None? then handled + 1 else handled)
    && (err.None? ==> moved == DeadCount(list, dead, |list|))
    && (err.Some? ==> moved <= DeadCount(list, dead, |list|) && DeadCount(list, dead, |list|) > 0)
    && (err.Some? && err.value.Unrecoverable? ==>
         err.value.fileID == f && Short(s, healthy, w'.servers, calm, list, err.value.chunk))
    && (DeadCount(list, dead, |list|) == 0 ==> w'' == w')
  }

  /** The error has its reason in what was found while the first unhandled file was repaired. */
  ghost predicate FileBlamed(from: Record, r: Record, w: World, w': World, healthy: NodeTable, handled: nat,
                             why: Repair.Cause, e: Repair.Error)
    requires r.Lawful()
  {
    var keys := SortedKeys(w.files.Keys);
    && handled < |keys| && keys[handled] in w.placements && keys[handled] in w'.originals
    && Repair.Blamed(from, r, w'.nodes, healthy, keys[handled], w'.originals[keys[handled]],
                     w.placements[keys[handled]], why, e)
  }

  lemma FileBlamedEarlier(from: Record, later: Record, r: Record, w: World, w': World, healthy: NodeTable, handled: nat,
                          why: Repair.Cause, e: Repair.Error)
    requires r.Lawful() && Continues(from, later) && FileBlamed(later, r, w, w', healthy, handled, why, e)
    ensures FileBlamed(from, r, w, w', healthy, handled, why, e)
  {
    var f := SortedKeys(w.files.Keys)[handled];
    Repair.BlamedEarlier(from, later, r, w'.nodes, healthy, f, w'.originals[f], w.placements[f], why, e);
  }

  /** The callback of `InspectAndRepair` on one file. */
  method RepairFile(net: Network, ghost calm: Calm, ghost w: World, now: int, timeout: int, dead: set<string>,
                    healthy: NodeTable, f: string, ghost k: nat)
    returns (moved: nat, err: Option<Repair.Error>, ghost why: Repair.Cause)
    requires net.Valid() && net.env.LeavesTracker() && CalmIn(net.s, net.env, calm)
    requires Outcome(net.s, w, net.View(), calm, now, timeout, net.GoTo(), k)
    requires k < |SortedKeys(w.files.Keys)| && SortedKeys(w.files.Keys)[k] == f && f in w.files
    requires dead == UnhealthyIDs(w.nodes, now, timeout) && dead !! healthy.Keys
    modifies net, net.store`files, net.store`placements
    ensures net.Valid() && Continues(old(net.Done()), net.Done())
    ensures err.Some? ==> FileBlamed(old(net.Done()), net.Done(), w, net.View(), healthy, k, why, err.value)
    ensures FileTurn(net.s, w, old(net.View()), net.View(), calm, now, timeout, net.GoTo(), healthy, k, f, moved, err)
  {
    ghost var start := net.View();
    assert FileState(w, start, dead, net.GoTo(), k, k);
    var found := net.store.GetFilePlacement(f);
    var file, list := found.value.0, found.value.1;
    FileShaped(net.s, start, f);
    assert GoodFile(start, f);
    var next;
    next, moved, err, why := RepairPlacements(net, calm, f, net.originals[f], dead, healthy, list);
    ghost var uploaded := net.View();
    ReachesKeeps(net.s, start, uploaded);
    OutcomeKept(net.s, w, start, uploaded, calm, now, timeout, net.GoTo(), k);
    if err.None? {
      SaveRepaired(net, file, list, next, dead, moved);
      TurnEnds(net.s, w, start, uploaded, net.View(), calm, now, timeout, net.GoTo(), healthy, k, f, moved, next);
    }
  }

  /** A file repaired and saved: `uploaded` is the state in between. */
  lemma TurnEnds(s: Setup, w: World, start: World, uploaded: World, w': World, calm: Calm, now: int, timeout: int,
                 target: string, healthy: NodeTable, k: nat, f: string, moved: nat, next: seq<ShardPlacement>)
    requires Outcome(s, w, uploaded, calm, now, timeout, target, k) && Passed(s, calm, start, uploaded)
    requires k < |SortedKeys(w.files.Keys)| && SortedKeys(w.files.Keys)[k] == f && f in w.placements
    requires var list, dead := w.placements[f], UnhealthyIDs(w.nodes, now, timeout);
      && next == Moved(list, dead, target) && moved == DeadCount(list, dead, |list|)
      && Restored(s, uploaded, calm, list, dead, next)
      && f in uploaded.placements && uploaded.placements[f] == list
      && (DeadCount(list, dead, |list|) == 0 ==> uploaded == start)
    requires Reaches(s, uploaded, w') && w' == uploaded.(placements := uploaded.placements[f := next])
    ensures FileTurn(s, w, start, w', calm, now, timeout, target, healthy, k, f, moved, None)
  {
    OutcomeNext(s, w, uploaded, w', calm, now, timeout, target, k, next);
    ReachesTransitive(s, start, uploaded, w');
    if moved == 0 {
      NothingMoved(w.placements[f], UnhealthyIDs(w.nodes, now, timeout), target);
      assert w'.placements == uploaded.placements;
    }
  }

  lemma {:induction false} NoDeadEntry(list: seq<ShardPlacement>, dead: set<string>, n: nat, j: nat)
    requires j < n <= |list| && DeadCount(list, dead, n) == 0
    ensures list[j].nodeID !in dead
  {
    if j < n - 1 {
      NoDeadEntry(list, dead, n - 1, j);
    }
  }

  lemma NothingMoved(list: seq<ShardPlacement>, dead: set<string>, target: string)
    requires DeadCount(list, dead, |list|) == 0
    ensures Moved(list, dead, target) == list
  {
    forall j: nat | j < |list| ensures Moved(list, dead, target)[j] == list[j] {
      NoDeadEntry(list, dead, |list|, j);
    }
  }

  // ----- The count

  /** All placements on dead nodes, by file and position. */
  ghost function PlacementsOn(placements: map<string, seq<ShardPlacement>>, dead: set<string>): set<(string, int)> {
    set f, j | f in placements && 0 <= j < |placements[f]| && placements[f][j].nodeID in dead :: (f, j)
  }

  ghost function PlacementsBelow(placements: map<string, seq<ShardPlacement>>, keys: seq<string>, dead: set<string>,
                                 n: nat): set<(string, int)>
    requires n <= |keys|
  {
    if n == 0 then {}
    else
      PlacementsBelow(placements, keys, dead, n - 1)
        + if keys[n - 1] in placements then
            Paired(keys[n - 1], DeadAt(placements[keys[n - 1]], dead, |placements[keys[n - 1]]|))
          else {}
  }

  ghost function Paired(f: string, js: set<int>): set<(string, int)> {
    set j | j in js :: (f, j)
  }

  lemma {:induction false} PairedSize(f: string, js: set<int>)
    ensures |Paired(f, js)| == |js|
  {
    if js != {} {
      Inhabited(js);
      var j :| j in js;
      PairedSize(f, js - {j});
      assert Paired(f, js) == Paired(f, js - {j}) + {(f, j)};
    }
  }

  lemma {:induction false} BelowMembers(placements: map<string, seq<ShardPlacement>>, keys: seq<string>,
                                        dead: set<string>, n: nat, f: string, j: int)
    requires n <= |keys|
    ensures (f, j) in PlacementsBelow(placements, keys, dead, n)
       <==> f in keys[..n] && f in placements && 0 <= j < |placements[f]| && placements[f][j].nodeID in dead
  {
    if n > 0 {
      BelowMembers(placements, keys, dead, n - 1, f, j);
      assert keys[..n] == keys[..n - 1] + [keys[n - 1]];
    }
  }

  lemma {:induction false} DeadTotalIs(placements: map<string, seq<ShardPlacement>>, keys: seq<string>,
                                       dead: set<string>, n: nat)
    requires n <= |keys| && forall i, j :: 0 <= i < j < |keys| ==> keys[i] != keys[j]
    ensures DeadTotal(placements, keys, dead, n) == |PlacementsBelow(placements, keys, dead, n)|
  {
    if n > 0 {
      DeadTotalIs(placements, keys, dead, n - 1);
      var f := keys[n - 1];
      if f in placements {
        var list := placements[f];
        DeadCountIs(list, dead, |list|);
        PairedSize(f, DeadAt(list, dead, |list|));
        NewFileIsNew(placements, keys, dead, n, DeadAt(list, dead, |list|));
        DisjointSize(PlacementsBelow(placements, keys, dead, n - 1), Paired(f, DeadAt(list, dead, |list|)));
      }
    }
  }

  lemma NewFileIsNew(placements: map<string, seq<ShardPlacement>>, keys: seq<string>, dead: set<string>, n: nat,
                     js: set<int>)
    requires 0 < n <= |keys| && forall i, j :: 0 <= i < j < |keys| ==> keys[i] != keys[j]
    ensures Paired(keys[n - 1], js) !! PlacementsBelow(placements, keys, dead, n - 1)
  {
    var pairs, below := Paired(keys[n - 1], js), PlacementsBelow(placements, keys, dead, n - 1);
    forall x | x in pairs ensures x !in below {
      BelowMembers(placements, keys, dead, n - 1, x.0, x.1);
    }
  }

  lemma DisjointSize(a: set<(string, int)>, b: set<(string, int)>)
    requires a !! b
    ensures |a + b| == |a| + |b|
  {
  }

  /** The total over the files is the number of placements on dead nodes. */
  lemma AllDeadCounted(s: Setup, w: World, dead: set<string>)
    requires Inv(s, w)
    ensures DeadTotal(w.placements, SortedKeys(w.files.Keys), dead, |SortedKeys(w.files.Keys)|)
         == |PlacementsOn(w.placements, dead)|
  {
    var keys := SortedKeys(w.files.Keys);
    SortedKeysListed(w.files.Keys);
    forall i, j | 0 <= i < j < |keys| ensures keys[i] != keys[j] {
      SortedKeysDistinct(w.files.Keys, i, j);
    }
    DeadTotalIs(w.placements, keys, dead, |keys|);
    forall f | f in w.placements ensures f in keys {
      assert GoodFile(w, f);
    }
    BelowIsAll(w.placements, keys, dead);
  }

  lemma BelowIsAll(placements: map<string, seq<ShardPlacement>>, keys: seq<string>, dead: set<string>)
    requires forall f :: f in placements ==> f in keys
    ensures PlacementsBelow(placements, keys, dead, |keys|) == PlacementsOn(placements, dead)
  {
    assert keys[..|keys|] == keys;
    forall x: (string, int)
      ensures x in PlacementsBelow(placements, keys, dead, |keys|) <==> x in PlacementsOn(placements, dead)
    {
      BelowMembers(placements, keys, dead, |keys|, x.0, x.1);
    }
  }

  // ----- The nodes a repair found unhealthy, in their own fields

  /** A node flagged healthy and silent no longer than the timeout is left alone, and so are its placements. */
  lemma FreshIsLeftAlone(s: Setup, w: World, w': World, calm: Calm, now: int, timeout: int, target: string,
                         handled: nat, id: string)
    requires Inv(s, w) && Outcome(s, w, w', calm, now, timeout, target, handled)
    requires id in w.nodes && Fits64(now - w.nodes[id].lastSeen)
    requires w.nodes[id].isHealthy && now - w.nodes[id].lastSeen <= timeout
    ensures id in w'.nodes && w'.nodes[id] == w.nodes[id]
    ensures forall f, j :: f in w.placements && 0 <= j < |w.placements[f]| && w.placements[f][j].nodeID == id ==>
      f in w'.placements && j < |w'.placements[f]| && w'.placements[f][j] == w.placements[f][j]
  {
    UnhealthyInFields(w.nodes[id], now, timeout);
    var dead, keys := UnhealthyIDs(w.nodes, now, timeout), SortedKeys(w.files.Keys);
    SortedKeysListed(w.files.Keys);
    forall f, j | f in w.placements && 0 <= j < |w.placements[f]| && w.placements[f][j].nodeID == id
      ensures f in w'.placements && j < |w'.placements[f]| && w'.placements[f][j] == w.placements[f][j]
    {
      assert GoodFile(w, f);
      assert f in keys;
      var k: nat :| k < |keys| && keys[k] == f;
      assert FileState(w, w', dead, target, handled, k);
    }
  }

  /** A node flagged unhealthy or silent for longer has its flag cleared, and once the repair completes no placement. */
  lemma SilentIsCleared(s: Setup, w: World, w': World, calm: Calm, now: int, timeout: int, target: string, handled: nat,
                        id: string)
    requires Inv(s, w) && Outcome(s, w, w', calm, now, timeout, target, handled)
    requires id in w.nodes && Fits64(now - w.nodes[id].lastSeen)
    requires !w.nodes[id].isHealthy || now - w.nodes[id].lastSeen > timeout
    ensures id in w'.nodes && w'.nodes[id] == w.nodes[id].(isHealthy := false)
    ensures handled == |SortedKeys(w.files.Keys)| ==>
      forall f, j :: f in w'.placements && 0 <= j < |w'.placements[f]| ==> w'.placements[f][j].nodeID != id
  {
    UnhealthyInFields(w.nodes[id], now, timeout);
    if handled == |SortedKeys(w.files.Keys)| {
      forall f, j: nat | f in w'.placements && j < |w'.placements[f]| ensures w'.placements[f][j].nodeID != id {
        assert GoodFile(w, f);
        CompletedMoves(s, w, w', calm, now, timeout, target, f);
        NoneLeftOnDead(s, w, w', calm, now, timeout, target, f, j);
      }
    }
  }

  // ----- Main consequences

  /** What a completed repair has made of a file's placements. */
  lemma CompletedMoves(s: Setup, w: World, w': World, calm: Calm, now: int, timeout: int, target: string, f: string)
    requires Outcome(s, w, w', calm, now, timeout, target, |SortedKeys(w.files.Keys)|)
    requires f in w.files
    ensures f in w.placements && f in w'.placements
    ensures w'.placements[f] == Moved(w.placements[f], UnhealthyIDs(w.nodes, now, timeout), target)
  {
    var keys := SortedKeys(w.files.Keys);
    SortedKeysListed(w.files.Keys);
    var k: nat :| k < |keys| && keys[k] == f;
    assert FileState(w, w', UnhealthyIDs(w.nodes, now, timeout), target, |keys|, k);
  }

  /** A completed repair leaves no placement on a node it found unhealthy and changes nothing but node ids. */
  lemma NoneLeftOnDead(s: Setup, w: World, w': World, calm: Calm, now: int, timeout: int, target: string, f: string,
                       j: nat)
    requires Outcome(s, w, w', calm, now, timeout, target, |SortedKeys(w.files.Keys)|)
    requires f in w.files && f in w.placements && j < |w.placements[f]|
    ensures f in w'.placements && |w'.placements[f]| == |w.placements[f]|
    ensures w'.placements[f][j].nodeID !in UnhealthyIDs(w.nodes, now, timeout)
    ensures w'.placements[f][j] == w.placements[f][j].(nodeID := w'.placements[f][j].nodeID)
    ensures w.placements[f][j].nodeID !in UnhealthyIDs(w.nodes, now, timeout) ==>
      w'.placements[f][j] == w.placements[f][j]
  {
    var keys := SortedKeys(w.files.Keys);
    SortedKeysListed(w.files.Keys);
    var k: nat :| k < |keys| && keys[k] == f;
    var dead := UnhealthyIDs(w.nodes, now, timeout);
    assert FileState(w, w', dead, target, |keys|, k) && FileRestored(s, w, w', calm, dead, |keys|, k);
    assert EntryRestored(s, w', calm, w.placements[f], dead, w'.placements[f], j);
  }

  /** The entry a repair has recorded can be fetched from the steady addresses if it is on one. */
  ghost predicate StillFetched(s: Setup, w': World, steady: Steady, f: string, j: nat)
    requires f in w'.placements && j < |w'.placements[f]|
  {
    var p := w'.placements[f][j];
    && p.nodeID in w'.nodes
    && (w'.nodes[p.nodeID].address in steady.keeps || steady.answers <= steady.keeps ==>
         FetchedShard(s, w'.nodes, w'.servers, steady.keeps, p) != [])
  }

  /** Completed or aborted, a repair loses no shard: one that could be fetched from a steady address before through
      its placement can be fetched afterwards through the placement then recorded, unless that is on a node that
      failed during the repair; if only steady addresses answer, there is no such node. */
  lemma NoShardLost(s: Setup, w: World, w': World, steady: Steady, now: int, timeout: int, target: string,
                    handled: nat, f: string, j: nat)
    requires Outcome(s, w, w', Some(steady), now, timeout, target, handled)
    requires f in w.files && f in w.placements && j < |w.placements[f]|
    requires FetchedShard(s, w.nodes, w.servers, steady.keeps, w.placements[f][j]) != []
    ensures f in w'.placements && |w'.placements[f]| == |w.placements[f]|
    ensures StillFetched(s, w', steady, f, j)
    ensures w'.placements[f][j] == w.placements[f][j] ==>
      FetchedShard(s, w'.nodes, w'.servers, steady.keeps, w'.placements[f][j]) != []
  {
    var dead, keys := UnhealthyIDs(w.nodes, now, timeout), SortedKeys(w.files.Keys);
    SortedKeysListed(w.files.Keys);
    var k: nat :| k < |keys| && keys[k] == f;
    assert FileState(w, w', dead, target, handled, k) && FileRestored(s, w, w', Some(steady), dead, handled, k);
    var p := w.placements[f][j];
    HeldMeansFetched(s, w.nodes, w.servers, steady.keeps, p);
    HeldKept(s, steady.keeps, w.nodes, w.servers, w'.servers, p);
    if k < handled && p.nodeID in dead {
      assert EntryRestored(s, w', Some(steady), w.placements[f], dead, w'.placements[f], j);
    }
    HeldMeansFetched(s, w'.nodes, w'.servers, steady.keeps, w'.placements[f][j]);
  }

  /** After a completed repair every placement that was on an unhealthy node can be fetched, unless the node it
      moved to has failed since. */
  lemma DeadAreRestored(s: Setup, w: World, w': World, steady: Steady, now: int, timeout: int, target: string,
                        f: string, j: nat)
    requires Outcome(s, w, w', Some(steady), now, timeout, target, |SortedKeys(w.files.Keys)|)
    requires f in w.files && f in w.placements && j < |w.placements[f]|
    requires w.placements[f][j].nodeID in UnhealthyIDs(w.nodes, now, timeout)
    ensures f in w'.placements && |w'.placements[f]| == |w.placements[f]|
    ensures StillFetched(s, w', steady, f, j)
  {
    var dead, keys := UnhealthyIDs(w.nodes, now, timeout), SortedKeys(w.files.Keys);
    SortedKeysListed(w.files.Keys);
    var k: nat :| k < |keys| && keys[k] == f;
    assert FileState(w, w', dead, target, |keys|, k) && FileRestored(s, w, w', Some(steady), dead, |keys|, k);
    assert EntryRestored(s, w', Some(steady), w.placements[f], dead, w'.placements[f], j);
    HeldMeansFetched(s, w'.nodes, w'.servers, steady.keeps, w'.placements[f][j]);
  }

  /** Two completed repairs of one state agree on every table and count, whatever order they walked the
      chunks in and whatever either met on its way. Each moves shards to the node that selection gives for
      the node table it left. */
  lemma CompletedAgree(s: Setup, order: Sorter, w: World, a: World, b: World, calm: Calm, calm': Calm,
                       now: int, timeout: int, countA: nat, countB: nat)
    requires Inv(s, w) && LawfulSorter(order)
    requires Outcome(s, w, a, calm, now, timeout, FirstSelected(order, a.nodes), |SortedKeys(w.files.Keys)|)
    requires Outcome(s, w, b, calm', now, timeout, FirstSelected(order, b.nodes), |SortedKeys(w.files.Keys)|)
    requires CountFits(w, UnhealthyIDs(w.nodes, now, timeout), |SortedKeys(w.files.Keys)|, countA, None)
    requires CountFits(w, UnhealthyIDs(w.nodes, now, timeout), |SortedKeys(w.files.Keys)|, countB, None)
    ensures a.nodes == b.nodes && a.files == b.files && a.placements == b.placements && countA == countB
  {
    var dead, keys := UnhealthyIDs(w.nodes, now, timeout), SortedKeys(w.files.Keys);
    SortedKeysListed(w.files.Keys);
    forall f | f in w.placements ensures a.placements[f] == b.placements[f] {
      assert GoodFile(w, f);
      var k: nat :| k < |keys| && keys[k] == f;
      assert FileState(w, a, dead, FirstSelected(order, a.nodes), |keys|, k);
      assert FileState(w, b, dead, FirstSelected(order, b.nodes), |keys|, k);
    }
  }

  /** A second inspection at the same clock finds the same nodes unhealthy and nothing on them. */
  lemma NothingLeft(s: Setup, w: World, w': World, calm: Calm, now: int, timeout: int, target: string)
    requires Outcome(s, w, w', calm, now, timeout, target, |SortedKeys(w.files.Keys)|)
    ensures UnhealthyIDs(w'.nodes, now, timeout) == UnhealthyIDs(w.nodes, now, timeout)
    ensures MarkedTable(w'.nodes, now, timeout) == w'.nodes
    ensures NoneDue(w', now, timeout)
  {
    assert forall id :: id in w.nodes ==>
      w'.nodes[id] == w.nodes[id].(isHealthy := !Unhealthy(w.nodes[id], now, timeout));
    assert UnhealthyIDs(w'.nodes, now, timeout) == UnhealthyIDs(w.nodes, now, timeout);
    TotalZero(s, w, w', calm, now, timeout, target, |SortedKeys(w.files.Keys)|);
  }

  lemma {:induction false} TotalZero(s: Setup, w: World, w': World, calm: Calm, now: int, timeout: int,
                                     target: string, n: nat)
    requires Outcome(s, w, w', calm, now, timeout, target, |SortedKeys(w.files.Keys)|)
    requires n <= |SortedKeys(w.files.Keys)|
    ensures DeadTotal(w'.placements, SortedKeys(w.files.Keys), UnhealthyIDs(w.nodes, now, timeout), n) == 0
  {
    if n > 0 {
      TotalZero(s, w, w', calm, now, timeout, target, n - 1);
      var keys := SortedKeys(w.files.Keys);
      SortedKeysListed(w.files.Keys);
      var f := keys[n - 1];
      assert f in keys;
      assert FileState(w, w', UnhealthyIDs(w.nodes, now, timeout), target, |keys|, n - 1);
      forall j: nat | j < |w'.placements[f]|
        ensures w'.placements[f][j].nodeID !in UnhealthyIDs(w.nodes, now, timeout)
      {
        NoneLeftOnDead(s, w, w', calm, now, timeout, target, f, j);
      }
      NoneDead(w'.placements[f], UnhealthyIDs(w.nodes, now, timeout), |w'.placements[f]|);
    }
  }

  lemma {:induction false} NoneDead(list: seq<ShardPlacement>, dead: set<string>, n: nat)
    requires n <= |list| && forall j: nat :: j < |list| ==> list[j].nodeID !in dead
    ensures DeadCount(list, dead, n) == 0
  {
    if n > 0 {
      NoneDead(list, dead, n - 1);
    }
  }

  // ----- InspectAndRepair

  lemma DeadTotalStep(placements: map<string, seq<ShardPlacement>>, keys: seq<string>, dead: set<string>, n: nat,
                      m: nat)
    requires n <= m <= |keys|
    ensures DeadTotal(placements, keys, dead, n) <= DeadTotal(placements, keys, dead, m)
    decreases m
  {
    if n < m {
      DeadTotalStep(placements, keys, dead, n, m - 1);
    }
  }

  lemma OutcomeStart(s: Setup, w: World, w': World, calm: Calm, now: int, timeout: int, target: string)
    requires Inv(s, w) && w' == w.(nodes := MarkedTable(w.nodes, now, timeout))
    ensures Outcome(s, w, w', calm, now, timeout, target, 0)
    ensures Reaches(s, w, w') && Inv(s, w')
  {
    SortedKeysListed(w.files.Keys);
    forall k: nat ensures FileState(w, w', UnhealthyIDs(w.nodes, now, timeout), target, 0, k) {
      var keys := SortedKeys(w.files.Keys);
      if k < |keys| {
        assert keys[k] in keys;
        assert GoodFile(w, keys[k]);
      }
    }
    ReachesItself(s, w);
    ReachesNext(s, w, w, Mark(now, timeout));
    InvStep(s, w, Mark(now, timeout));
    forall f | f in w.placements ensures f in w.files {
      assert GoodFile(w, f);
    }
  }

  /** Where a run over the files stands: started in `start`, `handled` files done, `count` entries moved. */
  ghost predicate Sofar(s: Setup, w: World, start: World, w': World, calm: Calm, now: int, timeout: int, target: string,
                        handled: nat, count: nat)
  {
    var keys, dead := SortedKeys(w.files.Keys), UnhealthyIDs(w.nodes, now, timeout);
    && Reaches(s, start, w') && (calm.Some? ==> KeptOn(s, calm.value.keeps, start.servers, w'.servers))
    && Outcome(s, w, w', calm, now, timeout, target, handled)
    && handled <= |keys| && count == DeadTotal(w.placements, keys, dead, handled)
    && (DeadTotal(w.placements, keys, dead, |keys|) == 0 ==> w' == start)
  }

  /** How a run over the files ended. */
  ghost predicate Ended(s: Setup, w: World, start: World, w': World, calm: Calm, now: int, timeout: int, target: string,
                        healthy: NodeTable, handled: nat, count: nat, err: Option<Repair.Error>)
  {
    var keys, dead := SortedKeys(w.files.Keys), UnhealthyIDs(w.nodes, now, timeout);
    && Reaches(s, start, w') && Outcome(s, w, w', calm, now, timeout, target, handled)
    && CountFits(w, dead, handled, count, err)
    && (err.Some? && err.value.Unrecoverable? ==> LostFor(s, w, healthy, start.servers, calm, handled, err.value))
    && (DeadTotal(w.placements, keys, dead, |keys|) == 0 ==> w' == start)
  }

  lemma SofarStart(s: Setup, w: World, start: World, calm: Calm, now: int, timeout: int, target: string)
    requires Outcome(s, w, start, calm, now, timeout, target, 0)
    ensures Sofar(s, w, start, start, calm, now, timeout, target, 0, 0)
  {
    ReachesItself(s, start);
  }

  lemma SofarEnd(s: Setup, w: World, start: World, w': World, calm: Calm, now: int, timeout: int, target: string,
                 healthy: NodeTable, handled: nat, count: nat)
    requires Sofar(s, w, start, w', calm, now, timeout, target, handled, count) && handled == |SortedKeys(w.files.Keys)|
    ensures Ended(s, w, start, w', calm, now, timeout, target, healthy, handled, count, None)
  {
  }

  /** Another file's turn. */
  lemma SofarTurn(s: Setup, w: World, start: World, w': World, w'': World, calm: Calm, now: int, timeout: int,
                  target: string, healthy: NodeTable, f: string, handled: nat, count: nat, moved: nat,
                  err: Option<Repair.Error>)
    requires Sofar(s, w, start, w', calm, now, timeout, target, handled, count)
    requires handled < |SortedKeys(w.files.Keys)| && SortedKeys(w.files.Keys)[handled] == f
    requires FileTurn(s, w, w', w'', calm, now, timeout, target, healthy, handled, f, moved, err)
    ensures if err.None? then Sofar(s, w, start, w'', calm, now, timeout, target, handled + 1, count + moved)
            else Ended(s, w, start, w'', calm, now, timeout, target, healthy, handled, count + moved, err)
  {
    var keys, dead := SortedKeys(w.files.Keys), UnhealthyIDs(w.nodes, now, timeout);
    ReachesTransitive(s, start, w', w'');
    DeadTotalStep(w.placements, keys, dead, handled + 1, |keys|);
    if err.None? {
      if calm.Some? {
        KeptTransitive(s, calm.value.keeps, start.servers, w'.servers, w''.servers);
      }
    } else if err.value.Unrecoverable? {
      FetchableGrows(s, healthy, start.servers, w'.servers, calm, w.placements[f], err.value.chunk);
    }
  }

  /** One turn of the walk over the files. */
  method RepairNext(net: Network, ghost calm: Calm, ghost w: World, ghost start: World, now: int, timeout: int,
                    dead: set<string>, healthy: NodeTable, f: string, ghost handled: nat, count: nat)
    returns (total: nat, err: Option<Repair.Error>, ghost why: Repair.Cause)
    requires net.Valid() && net.env.LeavesTracker() && CalmIn(net.s, net.env, calm)
    requires Sofar(net.s, w, start, net.View(), calm, now, timeout, net.GoTo(), handled, count)
    requires dead == UnhealthyIDs(w.nodes, now, timeout) && dead !! healthy.Keys
    requires handled < |SortedKeys(w.files.Keys)| && f == SortedKeys(w.files.Keys)[handled] && f in w.files
    modifies net, net.store`files, net.store`placements
    ensures net.Valid() && Continues(old(net.Done()), net.Done())
    ensures err.Some? ==> FileBlamed(old(net.Done()), net.Done(), w, net.View(), healthy, handled, why, err.value)
    ensures if err.None? then Sofar(net.s, w, start, net.View(), calm, now, timeout, net.GoTo(), handled + 1, total)
            else Ended(net.s, w, start, net.View(), calm, now, timeout, net.GoTo(), healthy, handled, total, err)
  {
    ghost var before := net.View();
    var moved;
    moved, err, why := RepairFile(net, calm, w, now, timeout, dead, healthy, f, handled);
    total := count + moved;
    SofarTurn(net.s, w, start, before, net.View(), calm, now, timeout, net.GoTo(), healthy, f, handled, count, moved,
              err);
  }

  /** Walks the files in listing order until one fails. */
  method RepairFiles(net: Network, ghost calm: Calm, ghost w: World, now: int, timeout: int, dead: set<string>,
                     healthy: NodeTable)
    returns (count: nat, err: Option<Repair.Error>, ghost handled: nat, ghost why: Repair.Cause)
    requires net.Valid() && net.env.LeavesTracker() && CalmIn(net.s, net.env, calm)
    requires Outcome(net.s, w, net.View(), calm, now, timeout, net.GoTo(), 0)
    requires dead == UnhealthyIDs(w.nodes, now, timeout) && dead !! healthy.Keys
    modifies net, net.store`files, net.store`placements
    ensures net.Valid() && Continues(old(net.Done()), net.Done())
    ensures err.Some? ==> FileBlamed(old(net.Done()), net.Done(), w, net.View(), healthy, handled, why, err.value)
    ensures Ended(net.s, w, old(net.View()), net.View(), calm, now, timeout, net.GoTo(), healthy, handled, count, err)
  {
    ghost var keys := SortedKeys(w.files.Keys);
    ghost var start := net.View();
    var files := net.store.ListFiles();
    count, handled, why := 0, 0, Repair.NO_CAUSE;
    ghost var first := net.Done();
    SofarStart(net.s, w, start, calm, now, timeout, net.GoTo());
    for k := 0 to |files|
      invariant net.Valid() && handled == k && Continues(first, net.Done())
      invariant Sofar(net.s, w, start, net.View(), calm, now, timeout, net.GoTo(), handled, count)
    {
      FileListed(net.s, net.View(), w.files, k);
      ghost var later := net.Done();
      count, err, why := RepairNext(net, calm, w, start, now, timeout, dead, healthy, files[k].fileID, handled, count);
      ContinuesTransitive(first, later, net.Done());
      if err.Some? {
        FileBlamedEarlier(first, later, net.Done(), w, net.View(), healthy, handled, why, err.value);
        return;
      }
      handled := handled + 1;
    }
    err := None;
    SofarEnd(net.s, w, start, net.View(), calm, now, timeout, net.GoTo(), healthy, handled, count);
  }

  lemma FileListed(s: Setup, w: World, files: map<string, FileMetadata>, k: nat)
    requires Inv(s, w) && w.files == files && k < |SortedKeys(files.Keys)|
    ensures SortedKeys(files.Keys)[k] in files && files[SortedKeys(files.Keys)[k]].fileID == SortedKeys(files.Keys)[k]
  {
    SortedKeysListed(files.Keys);
    var f := SortedKeys(files.Keys)[k];
    assert f in SortedKeys(files.Keys);
    assert GoodFile(w, f);
  }

  /** The count returned: exact when the run completes; an aborted one also counts what the failing file had moved. */
  ghost predicate CountFits(w: World, dead: set<string>, handled: nat, count: nat, err: Option<Repair.Error>) {
    var keys := SortedKeys(w.files.Keys);
    && handled <= |keys|
    && (err.None? ==> handled == |keys| && count == DeadTotal(w.placements, keys, dead, |keys|))
    && (err.Some? ==> handled < |keys| && DeadTotal(w.placements, keys, dead, handled) <= count
                      <= DeadTotal(w.placements, keys, dead, handled + 1)
                      && DeadTotal(w.placements, keys, dead, |keys|) > 0)
  }

  /** The failing chunk belongs to the first unhandled file and had fewer than four healthy shards from the start. */
  ghost predicate LostFor(s: Setup, w: World, healthy: NodeTable, servers: map<string, Server>, calm: Calm,
                          handled: nat, e: Repair.Error)
  {
    var keys := SortedKeys(w.files.Keys);
    && e.Unrecoverable? && handled < |keys| && e.fileID == keys[handled] && e.fileID in w.placements
    && Short(s, healthy, servers, calm, w.placements[e.fileID], e.chunk)
  }

  /** `InspectAndRepair`, completed or aborted, while nodes come and go, shards are lost and others upload. */
  method InspectAndRepair(net: Network, ghost calm: Calm, now: int, timeout: int)
    returns (count: nat, err: Option<Repair.Error>, ghost handled: nat, ghost why: Repair.Cause)
    requires net.Valid() && net.env.LeavesTracker() && CalmIn(net.s, net.env, calm)
    modifies net, net.store`nodes, net.store`files, net.store`placements
    ensures net.Valid() && Reaches(net.s, old(net.View()), net.View())
    ensures Outcome(net.s, old(net.View()), net.View(), calm, now, timeout, net.GoTo(), handled)
    ensures CountFits(old(net.View()), UnhealthyIDs(old(net.store.nodes), now, timeout), handled, count, err)
    ensures err.Some? && err.value.Unrecoverable? ==>
      LostFor(net.s, old(net.View()), HealthyTable(old(net.store.nodes), now, timeout), old(net.servers), calm, handled,
              err.value)
    ensures err.None? ==>
      count == |PlacementsOn(old(net.store.placements), UnhealthyIDs(old(net.store.nodes), now, timeout))|
    ensures err.Some? ==>
      FileBlamed(old(net.Done()), net.Done(), old(net.View()), net.View(),
                 HealthyTable(old(net.store.nodes), now, timeout), handled, why, err.value)
    ensures NoneDue(old(net.View()), now, timeout) ==>
      err.None? && net.View() == old(net.View()).(nodes := net.store.nodes)
  {
    why := Repair.NO_CAUSE;
    ghost var w := net.View();
    AllDeadCounted(net.s, w, UnhealthyIDs(w.nodes, now, timeout));
    var dead, healthy := Classify(net.store, now, timeout);
    OutcomeStart(net.s, w, net.View(), calm, now, timeout, net.GoTo());
    ghost var marked := net.View();
    if |dead| == 0 {
      handled := |SortedKeys(w.files.Keys)|;
      OutcomeWithoutDead(net.s, w, marked, calm, now, timeout, net.GoTo(), handled);
      return 0, None, handled, why;
    }
    count, err, handled, why := RepairFiles(net, calm, w, now, timeout, dead, healthy);
    ReachesTransitive(net.s, w, marked, net.View());
  }

  /** No placement is on a node that a repair would find unhealthy. */
  ghost predicate NoneDue(w: World, now: int, timeout: int) {
    var keys := SortedKeys(w.files.Keys);
    DeadTotal(w.placements, keys, UnhealthyIDs(w.nodes, now, timeout), |keys|) == 0
  }

  lemma {:induction false} OutcomeWithoutDead(s: Setup, w: World, w': World, calm: Calm, now: int, timeout: int,
                                              target: string, n: nat)
    requires Outcome(s, w, w', calm, now, timeout, target, 0)
    requires UnhealthyIDs(w.nodes, now, timeout) == {} && n <= |SortedKeys(w.files.Keys)|
    ensures Outcome(s, w, w', calm, now, timeout, target, n)
    ensures DeadTotal(w.placements, SortedKeys(w.files.Keys), {}, n) == 0
  {
    if n > 0 {
      OutcomeWithoutDead(s, w, w', calm, now, timeout, target, n - 1);
      var f := SortedKeys(w.files.Keys)[n - 1];
      assert FileState(w, w', {}, target, n - 1, n - 1);
      var list := w.placements[f];
      NoneDead(list, {}, |list|);
      NothingMoved(list, {}, target);
      assert w'.placements[f := list] == w'.placements;
      forall j ensures EntryRestored(s, w', calm, list, {}, list, j) {
      }
      OutcomeNext(s, w, w', w', calm, now, timeout, target, n - 1, list);
    }
  }

  /** A repair where all flags are set and nothing is due. */
  method InspectIdle(net: Network, now: int, timeout: int) returns (count: nat, err: Option<Repair.Error>)
    requires net.Valid() && net.env.LeavesTracker()
    requires NoneDue(net.View(), now, timeout) && MarkedTable(net.store.nodes, now, timeout) == net.store.nodes
    modifies net, net.store`nodes, net.store`files, net.store`placements
    ensures net.Valid() && err.None? && count == 0 && net.View() == old(net.View())
  {
    ghost var handled, why;
    count, err, handled, why := InspectAndRepair(net, None, now, timeout);
  }

  /** Two repairs at one clock, whatever becomes of the nodes meanwhile: after a completed first one, the second
      completes, counts nothing and changes nothing. */
  method InspectTwice(net: Network, ghost calm: Calm, now: int, timeout: int)
    returns (first: Option<Repair.Error>, second: Option<Repair.Error>, again: nat,
             ghost repaired: World, ghost later: World)
    requires net.Valid() && net.env.LeavesTracker() && CalmIn(net.s, net.env, calm)
    modifies net, net.store`nodes, net.store`files, net.store`placements
    ensures net.Valid()
    ensures SameTracker(repaired, later)
    ensures first.None? ==>
      && Outcome(net.s, old(net.View()), repaired, calm, now, timeout, FirstSelected(net.store.order, repaired.nodes),
                 |SortedKeys(old(net.store.files).Keys)|)
      && second.None? && again == 0 && net.View() == later
  {
    ghost var w := net.View();
    var count;
    ghost var handled, why;
    count, first, handled, why := InspectAndRepair(net, calm, now, timeout);
    repaired := net.View();
    if first.None? {
      NothingLeft(net.s, w, repaired, calm, now, timeout, net.GoTo());
    }
    var _ := net.PassNodes(calm);
    later := net.View();
    if first.None? {
      again, second := InspectIdle(net, now, timeout);
    } else {
      again, second, handled, why := InspectAndRepair(net, None, now, timeout);
    }
  }
}
