/** The running network a client or the repairer acts on: the tracker's store and the storage nodes. */
module Cluster {
  import opened Base
  import opened ShardIds
  import opened ShardServer
  import opened Storage
  import opened Tracker
  import opened Download

  /** A copy that a fetch would bring back whole. */
  ghost predicate Readable(s: Setup, servers: map<string, Server>, addr: string, id: string) {
    && addr in servers && id in servers[addr].shards
    && servers[addr].shards[id] != []
    && s.cipher.decrypt(servers[addr].shards[id]).Some?
    && s.cipher.decrypt(servers[addr].shards[id]).value != []
  }

  /** Every readable copy is still readable. */
  ghost predicate Kept(s: Setup, before: map<string, Server>, after: map<string, Server>) {
    forall addr, id :: CopyKept(s, before, after, addr, id)
  }

  ghost predicate CopyKept(s: Setup, before: map<string, Server>, after: map<string, Server>, addr: string,
                           id: string) {
    Readable(s, before, addr, id) ==> Readable(s, after, addr, id)
  }

  /** The placement's node is registered and holds a readable copy. */
  ghost predicate Held(s: Setup, nodes: NodeTable, servers: map<string, Server>, p: ShardPlacement) {
    p.nodeID in nodes && Readable(s, servers, nodes[p.nodeID].address, p.shardID)
  }

  lemma HeldMeansFetched(s: Setup, nodes: NodeTable, servers: map<string, Server>, online: set<string>,
                         p: ShardPlacement)
    ensures FetchedShard(s, nodes, servers, online, p) != []
       <==> Held(s, nodes, servers, p) && nodes[p.nodeID].address in online
  {
  }

  lemma Opened(cipher: Cipher, plain: Bytes, nonce: Bytes)
    requires cipher.Lawful()
    ensures cipher.Opens(plain, nonce)
  {
  }

  lemma CanonicalNotEmpty(s: Setup, data: Bytes, c: nat, i: nat)
    requires s.Lawful() && c < |Pieces(data)| && i < TOTAL_SHARDS
    ensures Canonical(s, data, c, i) != []
  {
    PiecesNotEmpty(data, c);
    Erasure.ShardsShape(s.code, Pieces(data)[c]);
  }

  /** Storing one more readable copy loses none. */
  lemma StoreKeeps(s: Setup, servers: map<string, Server>, addr: string, id: string, stored: Bytes)
    requires addr in servers && stored != []
    requires s.cipher.decrypt(stored).Some? && s.cipher.decrypt(stored).value != []
    ensures var after := servers[addr := servers[addr].With(id, stored)];
      Readable(s, after, addr, id) && Kept(s, servers, after)
  {
    var after := servers[addr := servers[addr].With(id, stored)];
    forall a, i ensures CopyKept(s, servers, after, a, i) {
    }
  }

  /** An accepted upload is a step of the network. */
  lemma StoreStep(s: Setup, w: World, addr: string, f: string, c: nat, i: nat, stored: Bytes)
    requires Inv(s, w) && f in w.originals && c < |Pieces(w.originals[f])| && i < TOTAL_SHARDS
    requires stored != [] && s.cipher.decrypt(stored) == Some(Canonical(s, w.originals[f], c, i))
    requires addr in w.servers && w.servers[addr].Accepts(stored)
    ensures var w' := w.(servers := w.servers[addr := w.servers[addr].With(ShardId(f, c, i), stored)]);
      Reaches(s, w, w') && Inv(s, w')
  {
    var a := StoreShard(addr, f, c, i, stored);
    ReachesItself(s, w);
    ReachesNext(s, w, w, a);
    InvStep(s, w, a);
  }

  // ----- Everybody else

  datatype Fate = Lost | Unanswered | Answered

  /** What gets through in one remote call: the addresses that answer, those that hear the request whether or not
      their answer is heard, and what becomes of a request to the tracker. */
  datatype Air = Air(up: set<string>, hears: set<string>, tracker: Fate)

  /** Everything an upload or repair does not decide: what everyone else has made of the network by its n-th remote
      call, what gets through in that call, and the n-th nonce drawn, unless the random source fails. */
  datatype Environment = Environment(others: (nat, World) -> World, air: nat -> Air, nonce: nat -> Option<Bytes>) {
    ghost predicate RunsAt(s: Setup, n: nat, w: World) {
      Inv(s, w) ==> Reaches(s, w, others(n, w))
    }

    /** Others only take steps of the network, any number of any kind. */
    ghost predicate Lawful(s: Setup) {
      forall n, w :: RunsAt(s, n, w)
    }

    ghost predicate SparesTables(n: nat, w: World) {
      SameTracker(w, others(n, w))
    }

    /** Others leave the tracker alone: nodes, shards and other clients move, its tables do not. */
    ghost predicate LeavesTracker() {
      forall n, w :: SparesTables(n, w)
    }

    ghost predicate SparesNodes(s: Setup, n: nat, w: World, lost: set<string>) {
      Inv(s, w) ==> NodesKept(s, lost, w, others(n, w))
    }

    /** Others take nothing from the nodes outside `lost`; those of `lost` they may wipe, damage and move. */
    ghost predicate Spares(s: Setup, lost: set<string>) {
      forall n, w :: SparesNodes(s, n, w, lost)
    }

    ghost predicate SteadyAt(s: Setup, n: nat, w: World, steady: Steady) {
      && (Inv(s, w) ==> KeptOn(s, steady.keeps, w.servers, others(n, w).servers))
      && steady.keeps <= air(n).up <= steady.answers
    }

    ghost predicate IsSteady(s: Setup, steady: Steady) {
      forall n, w :: SteadyAt(s, n, w, steady)
    }
  }

  ghost predicate SameTracker(w: World, w': World) {
    w'.nodes == w.nodes && w'.files == w.files && w'.placements == w.placements
  }

  // ----- What an upload may rely on

  /** `Some(lost)` if others spare all nodes outside `lost`; `None` claims nothing. */
  type Spared = Option<set<string>>

  ghost predicate SparedIn(s: Setup, env: Environment, spared: Spared) {
    spared.Some? ==> env.Spares(s, spared.value)
  }

  /** A registered node is still registered at its address, and what could be read there still can. */
  ghost predicate NodeKept(s: Setup, w: World, w': World, id: string) {
    id in w.nodes ==>
      && id in w'.nodes && w'.nodes[id].address == w.nodes[id].address
      && forall shard :: CopyKept(s, w.servers, w'.servers, w.nodes[id].address, shard)
  }

  ghost predicate NodesKept(s: Setup, lost: set<string>, w: World, w': World) {
    forall id :: id !in lost ==> NodeKept(s, w, w', id)
  }

  /** The network went from `w` to `w'` by its own steps, which took nothing from the spared nodes. */
  ghost predicate Went(s: Setup, spared: Spared, w: World, w': World) {
    Reaches(s, w, w') && (spared.Some? ==> NodesKept(s, spared.value, w, w'))
  }

  lemma WentItself(s: Setup, spared: Spared, w: World)
    ensures Went(s, spared, w, w)
  {
    ReachesItself(s, w);
  }

  lemma WentTransitive(s: Setup, spared: Spared, w: World, w': World, w'': World)
    requires Went(s, spared, w, w') && Went(s, spared, w', w'')
    ensures Went(s, spared, w, w'')
  {
    ReachesTransitive(s, w, w', w'');
    if spared.Some? {
      forall id | id !in spared.value ensures NodeKept(s, w, w'', id) {
        NodeKeptTransitive(s, w, w', w'', id);
      }
    }
  }

  lemma NodeKeptTransitive(s: Setup, w: World, w': World, w'': World, id: string)
    requires NodeKept(s, w, w', id) && NodeKept(s, w', w'', id)
    ensures NodeKept(s, w, w'', id)
  {
    if id in w.nodes {
      var addr := w.nodes[id].address;
      forall shard ensures CopyKept(s, w.servers, w''.servers, addr, shard) {
        assert CopyKept(s, w.servers, w'.servers, addr, shard);
        assert CopyKept(s, w'.servers, w''.servers, addr, shard);
      }
    }
  }

  /** What a spared node held it still holds. */
  lemma HeldSpared(s: Setup, spared: Spared, w: World, w': World, p: ShardPlacement)
    requires Went(s, spared, w, w') && spared.Some? && p.nodeID !in spared.value
    requires Held(s, w.nodes, w.servers, p)
    ensures Held(s, w'.nodes, w'.servers, p)
  {
    assert NodeKept(s, w, w', p.nodeID);
    assert CopyKept(s, w.servers, w'.servers, w.nodes[p.nodeID].address, p.shardID);
  }

  // ----- What a repair may rely on

  /** Addresses that answer every call and keep what could be read there, and addresses outside which none answers.
      Others may store and open what they like, and do as they like at all other addresses. */
  datatype Steady = Steady(keeps: set<string>, answers: set<string>)

  /** `None` claims nothing. */
  type Calm = Option<Steady>

  ghost predicate CalmIn(s: Setup, env: Environment, calm: Calm) {
    calm.Some? ==> env.IsSteady(s, calm.value)
  }

  ghost predicate KeptOn(s: Setup, keeps: set<string>, before: map<string, Server>, after: map<string, Server>) {
    forall addr, id :: addr in keeps ==> CopyKept(s, before, after, addr, id)
  }

  /** The network passed from `w` to `w'` by its own steps, and the steady addresses kept what they had. */
  ghost predicate Passed(s: Setup, calm: Calm, w: World, w': World) {
    Reaches(s, w, w') && (calm.Some? ==> KeptOn(s, calm.value.keeps, w.servers, w'.servers))
  }

  lemma PassedItself(s: Setup, calm: Calm, w: World)
    ensures Passed(s, calm, w, w)
  {
    ReachesItself(s, w);
  }

  lemma PassedTransitive(s: Setup, calm: Calm, w: World, w': World, w'': World)
    requires Passed(s, calm, w, w') && Passed(s, calm, w', w'')
    ensures Passed(s, calm, w, w'')
  {
    ReachesTransitive(s, w, w', w'');
    if calm.Some? {
      KeptTransitive(s, calm.value.keeps, w.servers, w'.servers, w''.servers);
    }
  }

  lemma KeptTransitive(s: Setup, keeps: set<string>, a: map<string, Server>, b: map<string, Server>,
                       c: map<string, Server>)
    requires KeptOn(s, keeps, a, b) && KeptOn(s, keeps, b, c)
    ensures KeptOn(s, keeps, a, c)
  {
    forall addr, id | addr in keeps ensures CopyKept(s, a, c, addr, id) {
      assert CopyKept(s, a, b, addr, id);
      assert CopyKept(s, b, c, addr, id);
    }
  }

  /** What was held at a steady address still is. */
  lemma HeldKept(s: Setup, keeps: set<string>, nodes: NodeTable, before: map<string, Server>,
                 after: map<string, Server>, p: ShardPlacement)
    requires KeptOn(s, keeps, before, after) && Held(s, nodes, before, p) && nodes[p.nodeID].address in keeps
    ensures Held(s, nodes, after, p)
  {
    assert CopyKept(s, before, after, nodes[p.nodeID].address, p.shardID);
  }

  // ----- One's own uploads

  /** Shards were added, and nothing else happened. */
  ghost predicate Grew(s: Setup, w: World, w': World) {
    Reaches(s, w, w') && Kept(s, w.servers, w'.servers) && w' == w.(servers := w'.servers)
  }

  lemma GrewWent(s: Setup, spared: Spared, w: World, w': World)
    requires Grew(s, w, w')
    ensures Went(s, spared, w, w')
  {
    forall id ensures NodeKept(s, w, w', id) {
      if id in w.nodes {
        forall shard ensures CopyKept(s, w.servers, w'.servers, w.nodes[id].address, shard) {
        }
      }
    }
  }

  /** A step that touches neither nodes nor shards. */
  lemma TablesWent(s: Setup, spared: Spared, w: World, w': World)
    requires Reaches(s, w, w') && w'.nodes == w.nodes && w'.servers == w.servers
    ensures Went(s, spared, w, w')
  {
    forall id ensures NodeKept(s, w, w', id) {
      if id in w.nodes {
        forall shard ensures CopyKept(s, w.servers, w'.servers, w.nodes[id].address, shard) {
        }
      }
    }
  }

  lemma GrewPassed(s: Setup, calm: Calm, w: World, w': World)
    requires Grew(s, w, w')
    ensures Passed(s, calm, w, w')
  {
  }

  // ----- The network

  /** The one node selected from a node table. */
  ghost function FirstSelected(order: Sorter, nodes: NodeTable): string
    requires LawfulSorter(order)
  {
    var r := Selection(order, nodes, 1, 0);
    if r.Ok? then r.value[0].nodeID else ""
  }

  /** It is a healthy node, and none has more bytes unused, where these fit an int64. */
  lemma FirstIsRoomiest(order: Sorter, nodes: NodeTable)
    requires LawfulSorter(order) && Keyed(nodes) && SpaceFits(nodes) && Roomy(nodes, 0) != {}
    ensures var id := FirstSelected(order, nodes);
      && id in Roomy(nodes, 0)
      && forall other :: other in Roomy(nodes, 0) ==> Unused(nodes[other]) <= Unused(nodes[id])
  {
    SelectionInFields(order, nodes, 1, 0);
    assert |Roomy(nodes, 0)| >= 1;
    var r := Selection(order, nodes, 1, 0);
    assert r.value[0] in r.value;
    forall other | other in Roomy(nodes, 0) ensures Unused(nodes[other]) <= Unused(r.value[0]) {
      if nodes[other] in r.value {
        assert nodes[other] == r.value[0];
      }
    }
  }

  /** What the n-th remote call found. */
  datatype Call = Call(world: World, air: Air)

  /** The n-th nonce was drawn for `sealed`. */
  ghost predicate Sealed(s: Setup, env: Environment, plain: Bytes, n: nat, sealed: Bytes) {
    env.nonce(n).Some? && sealed == s.cipher.encrypt(plain, env.nonce(n).value)
  }

  /** The node at the address does not answer, is gone, or has no room for what is sent. */
  ghost predicate Refuses(call: Call, addr: string, sent: Bytes) {
    || addr !in call.air.up
    || addr !in call.world.servers
    || Used(call.world.servers[addr].shards) + |sent| > call.world.servers[addr].quota
  }

  /** All remote calls and draws so far, with what they rest on. */
  datatype Record = Record(s: Setup, env: Environment, order: Sorter, log: seq<Call>, draws: nat) {
    ghost predicate Lawful() {
      s.Lawful() && LawfulSorter(order)
    }
  }

  ghost predicate Continues(r: Record, r': Record) {
    r'.s == r.s && r'.env == r.env && r'.order == r.order && r.draws <= r'.draws && r.log <= r'.log
  }

  lemma ContinuesTransitive(r: Record, r': Record, r'': Record)
    requires Continues(r, r') && Continues(r', r'')
    ensures Continues(r, r'')
  {
  }

  lemma ContinuesAt(r: Record, r': Record, n: nat)
    requires Continues(r, r') && n < |r.log|
    ensures n < |r'.log| && r'.log[n] == r.log[n]
  {
  }

  class Network {
    const s: Setup
    const env: Environment
    const store: Store
    var servers: map<string, Server>
    var originals: map<string, Bytes>   // for the specification: no decision depends on it
    var calls: nat
    var draws: nat
    ghost var log: seq<Call>

    function View(): World
      reads this, store
    {
      World(store.nodes, store.files, store.placements, servers, originals)
    }

    ghost function Done(): Record
      reads this
    {
      Record(s, env, store.order, log, draws)
    }

    ghost predicate Valid()
      reads this, store
    {
      store.Valid() && Inv(s, View()) && env.Lawful(s) && |log| == calls
    }

    /** The file was begun with that content. */
    ghost predicate Holds(f: string, data: Bytes)
      reads this
    {
      f in originals && originals[f] == data
    }

    /** If others leave the tracker alone, its tables are those of `w`. */
    ghost predicate Undisturbed(w: World)
      reads this, store
    {
      env.LeavesTracker() ==> SameTracker(w, View())
    }

    /** The node a relocated shard goes to: the first one selected. A repair does not change the node
        table once it has marked it, so this is one node throughout. */
    ghost function GoTo(): string
      requires store.Valid()
      reads store
    {
      FirstSelected(store.order, store.nodes)
    }

    constructor (s: Setup, env: Environment, order: Sorter)
      requires s.Lawful() && env.Lawful(s) && LawfulSorter(order)
      ensures Valid() && fresh(store) && View() == START && this.s == s && this.env == env
    {
      this.s, this.env := s, env;
      store := new Store(order);
      servers, originals, calls, draws, log := map[], map[], 0, 0, [];
    }

    /** `crypto.Encrypt`: it fails only with the random source. */
    method Seal(plain: Bytes) returns (r: Option<Bytes>)
      requires s.cipher.Lawful()
      modifies this`draws
      ensures draws == old(draws) + 1
      ensures r.None? <==> env.nonce(old(draws)).None?
      ensures r.Some? ==> Sealed(s, env, plain, old(draws), r.value)
      ensures r.Some? ==> r.value != [] && s.cipher.decrypt(r.value) == Some(plain)
    {
      var nonce := env.nonce(draws);
      draws := draws + 1;
      if nonce.None? {
        return None;
      }
      Opened(s.cipher, plain, nonce.value);
      return Some(s.cipher.encrypt(plain, nonce.value));
    }

    /** Time passes before a remote call: others act, and `air` says what gets through. */
    method Pass(ghost spared: Spared) returns (air: Air)
      requires Valid() && SparedIn(s, env, spared)
      modifies this`servers, this`originals, this`calls, this`log, store
      ensures log == old(log) + [Call(View(), air)]
      ensures Valid() && Went(s, spared, old(View()), View()) && Remembers(old(View()), View())
      ensures env.LeavesTracker() ==> SameTracker(old(View()), View())
    {
      ghost var w := View();
      var w' := env.others(calls, View());
      assert env.RunsAt(s, calls, w);
      assert spared.Some? ==> env.SparesNodes(s, calls, w, spared.value);
      assert env.LeavesTracker() ==> env.SparesTables(calls, w);
      ReachesKeeps(s, w, w');
      TablesFit(s, w');
      store.nodes, store.files, store.placements := w'.nodes, w'.files, w'.placements;
      servers, originals := w'.servers, w'.originals;
      air := env.air(calls);
      calls := calls + 1;
      log := log + [Call(View(), air)];
    }

    /** The same for a repair, whose tracker nobody else uses. */
    method PassNodes(ghost calm: Calm) returns (air: Air)
      requires Valid() && env.LeavesTracker() && CalmIn(s, env, calm)
      modifies this`servers, this`originals, this`calls, this`log
      ensures log == old(log) + [Call(View(), air)]
      ensures Valid() && Passed(s, calm, old(View()), View()) && Remembers(old(View()), View())
      ensures calm.Some? ==> calm.value.keeps <= air.up <= calm.value.answers
    {
      ghost var w := View();
      var w' := env.others(calls, View());
      assert env.RunsAt(s, calls, w) && env.SparesTables(calls, w);
      assert calm.Some? ==> env.SteadyAt(s, calls, w, calm.value);
      ReachesKeeps(s, w, w');
      servers, originals := w'.servers, w'.originals;
      assert View() == w';
      air := env.air(calls);
      calls := calls + 1;
      log := log + [Call(View(), air)];
    }

    /** One shard upload, as sent by `putShard` and `uploadShard`: it succeeds exactly when the node answers and has
        room for it. A node that hears it without being heard stores it too. */
    method Send(air: Air, addr: string, ghost f: string, ghost c: nat, ghost i: nat, id: string, stored: Bytes)
      returns (ok: bool)
      requires Valid()
      requires f in originals && c < |Pieces(originals[f])| && i < TOTAL_SHARDS && id == ShardId(f, c, i)
      requires stored != [] && s.cipher.decrypt(stored) == Some(Canonical(s, originals[f], c, i))
      modifies this`servers
      ensures Valid() && Grew(s, old(View()), View())
      ensures ok ==> addr in air.up && Readable(s, servers, addr, id)
      ensures ok <==> !Refuses(Call(old(View()), air), addr, stored)
      ensures servers == if addr in air.up + air.hears && addr in old(servers)
                            && Used(old(servers)[addr].shards) + |stored| <= old(servers)[addr].quota
                         then old(servers)[addr := old(servers)[addr].With(id, stored)] else old(servers)
    {
      ReachesItself(s, View());
      if addr !in air.up + air.hears || addr !in servers {
        return false;
      }
      var node := new ShardStore.Of(servers[addr]);
      ok := node.HandlePut(id, stored);
      if !ok {
        return;
      }
      StoreStep(s, View(), addr, f, c, i, stored);
      CanonicalNotEmpty(s, originals[f], c, i);
      StoreKeeps(s, servers, addr, id, stored);
      servers := servers[addr := node.View()];
      ok := addr in air.up;
    }
  }

  /** Under the invariant the tracker's tables fit each other. */
  lemma TablesFit(s: Setup, w: World)
    requires Inv(s, w)
    ensures w.files.Keys == w.placements.Keys && forall f :: f in w.files ==> w.files[f].fileID == f
  {
    forall f ensures f in w.files <==> f in w.placements {
      assert GoodFile(w, f);
    }
    forall f | f in w.files ensures w.files[f].fileID == f {
      assert GoodFile(w, f);
    }
  }

  lemma {:induction false} ReachesTransitive(s: Setup, w: World, w': World, w'': World)
    requires Reaches(s, w, w') && Reaches(s, w', w'')
    ensures Reaches(s, w, w'')
  {
    var first := RunOf(s, w, w');
    var second := RunOf(s, w', w'');
    RunAppend(s, w, first, second);
    ReachesBy(s, w, first + second);
  }

  lemma {:induction false} RunAppend(s: Setup, w: World, first: seq<Action>, second: seq<Action>)
    ensures Run(s, w, first + second) == Run(s, Run(s, w, first), second)
  {
    if second == [] {
      assert first + second == first;
    } else {
      var n := |second| - 1;
      RunAppend(s, w, first, second[..n]);
      assert (first + second)[..|first + second| - 1] == first + second[..n];
    }
  }
}
