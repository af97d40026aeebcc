/** The whole network as one state machine: what the tracker and every storage node hold, and the
    steps clients, nodes and the repairer may take in any order. */
module Storage {
  import opened Base
  import opened Erasure
  import opened ShardIds
  import opened ShardServer
  import opened Tracker
  import Chunker

  /** `crypto.Encrypt` under the network's one key, with its random nonce, and `crypto.Decrypt`. */
  datatype Cipher = Cipher(encrypt: (Bytes, Bytes) -> Bytes, decrypt: Bytes -> Option<Bytes>) {
    ghost predicate Opens(plain: Bytes, nonce: Bytes) {
      encrypt(plain, nonce) != [] && decrypt(encrypt(plain, nonce)) == Some(plain)
    }

    ghost predicate Lawful() {
      forall plain, nonce :: Opens(plain, nonce)
    }
  }

  const TOTAL_SHARDS := 8

  /** The libraries a client and the repairer share. */
  datatype Setup = Setup(code: Code, cipher: Cipher) {
    ghost predicate Lawful() {
      code.Lawful() && code.k == 4 && code.m == 4 && cipher.Lawful()
    }
  }

  // ----- Canonical shards

  function Pieces(data: Bytes): seq<Bytes> {
    Chunker.Cut(data, Chunker.DEFAULT_CHUNK_SIZE)
  }

  lemma PiecesNotEmpty(data: Bytes, c: nat)
    requires c < |Pieces(data)|
    ensures Pieces(data)[c] != []
  {
    Chunker.CutIsCut(data, Chunker.DEFAULT_CHUNK_SIZE);
  }

  /** The shard that `Encode` gives for chunk `c` of the file, at index `i`. */
  ghost function Canonical(s: Setup, data: Bytes, c: nat, i: nat): Bytes
    requires s.Lawful() && c < |Pieces(data)| && i < TOTAL_SHARDS
  {
    PiecesNotEmpty(data, c);
    ShardsShape(s.code, Pieces(data)[c]);
    s.code.Shards(Pieces(data)[c])[i]
  }

  // ----- State

  datatype World = World(
    nodes: NodeTable,
    files: map<string, FileMetadata>,
    placements: map<string, seq<ShardPlacement>>,
    servers: map<string, Server>,   // by network address
    originals: map<string, Bytes>)  // every file whose upload was ever begun

  const START := World(map[], map[], map[], map[], map[])

  /** The placement entry number `j` of a file, on some node. */
  function Placed(f: string, data: Bytes, j: nat, nodeID: string): ShardPlacement
    requires j / TOTAL_SHARDS < |Pieces(data)|
  {
    var c, i := j / TOTAL_SHARDS, j % TOTAL_SHARDS;
    ShardPlacement(ShardId(f, c, i), f, c, i, nodeID, |Pieces(data)[c]|)
  }

  ghost predicate Shaped(f: string, data: Bytes, list: seq<ShardPlacement>) {
    |list| == TOTAL_SHARDS * |Pieces(data)| && forall j: nat :: EntryShaped(f, data, list, j)
  }

  ghost predicate EntryShaped(f: string, data: Bytes, list: seq<ShardPlacement>, j: nat) {
    j < |list| ==> j / TOTAL_SHARDS < |Pieces(data)| && list[j] == Placed(f, data, j, list[j].nodeID)
  }

  /** A stored value is the encrypted canonical shard of its id, or something decryption rejects. */
  ghost predicate CopyOf(s: Setup, originals: map<string, Bytes>, f: string, c: nat, i: nat, id: string, stored: Bytes)
    requires s.Lawful()
  {
    && f in originals && c < |Pieces(originals[f])| && i < TOTAL_SHARDS
    && id == ShardId(f, c, i)
    && (s.cipher.decrypt(stored) == None || s.cipher.decrypt(stored) == Some(Canonical(s, originals[f], c, i)))
  }

  ghost predicate GoodCopy(s: Setup, originals: map<string, Bytes>, id: string, stored: Bytes)
    requires s.Lawful()
  {
    exists f, c, i :: CopyOf(s, originals, f, c, i, id, stored)
  }

  ghost predicate GoodServer(s: Setup, originals: map<string, Bytes>, server: Server)
    requires s.Lawful()
  {
    forall id :: id in server.shards ==> GoodCopy(s, originals, id, server.shards[id])
  }

  ghost predicate GoodFile(w: World, f: string) {
    && (f in w.files <==> f in w.placements)
    && (f in w.files ==> w.files[f].fileID == f && f in w.originals && Shaped(f, w.originals[f], w.placements[f]))
  }

  ghost predicate GoodAddress(s: Setup, w: World, addr: string)
    requires s.Lawful()
  {
    addr in w.servers ==> GoodServer(s, w.originals, w.servers[addr])
  }

  /** The invariant behind every download. */
  ghost predicate Inv(s: Setup, w: World) {
    && s.Lawful()
    && Keyed(w.nodes)
    && (forall f :: GoodFile(w, f))
    && (forall addr :: GoodAddress(s, w, addr))
  }

  // ----- Steps

  datatype Action =
    | Register(node: NodeMetadata)                       // a node (re)announces itself, with any metadata
    | Liveness(cfg: LivenessConfig, now: int)            // tracker.ApplyLiveness
    | Mark(now: int, timeout: int)                       // the first loop of InspectAndRepair
    | OpenServer(address: string, quota: int)        // a new, empty storage node
    | MoveServer(from: string, to: string)               // a node comes back elsewhere with its old shards
    | LoseServer(address: string)                        // a node's disk is gone
    | Damage(address: string, shardID: string, junk: Option<Bytes>)  // a shard is lost or corrupted
    | Begin(fileID: string, data: Bytes)                 // put draws a fresh file id
    | StoreShard(address: string, fileID: string, chunk: nat, shard: nat, stored: Bytes)
    | Publish(file: FileMetadata, list: seq<ShardPlacement>)

  ghost predicate Legal(s: Setup, w: World, a: Action) {
    match a
    case Register(_) => true
    case Liveness(_, _) => true
    case Mark(_, _) => true
    case OpenServer(addr, _) => addr !in w.servers
    case MoveServer(from, to) => from in w.servers && to !in w.servers
    case LoseServer(addr) => addr in w.servers
    case Damage(addr, id, junk) =>
      && addr in w.servers && id in w.servers[addr].shards
      && (junk.Some? ==> s.cipher.decrypt(junk.value) == None)
    case Begin(f, _) => f !in w.originals
    case StoreShard(addr, f, c, i, stored) =>
      && s.Lawful()
      && f in w.originals && c < |Pieces(w.originals[f])| && i < TOTAL_SHARDS
      && stored != [] && s.cipher.decrypt(stored) == Some(Canonical(s, w.originals[f], c, i))
      && addr in w.servers && w.servers[addr].Accepts(stored)
    case Publish(file, list) =>
      file.fileID in w.originals && Shaped(file.fileID, w.originals[file.fileID], list)
  }

  function Apply(w: World, a: Action): World {
    match a
    case Register(n) => w.(nodes := w.nodes[n.nodeID := n])
    case Liveness(cfg, now) => w.(nodes := JudgedTable(cfg, w.nodes, now))
    case Mark(now, timeout) => w.(nodes := MarkedTable(w.nodes, now, timeout))
    case OpenServer(addr, quota) => w.(servers := w.servers[addr := Server(quota, map[])])
    case MoveServer(from, to) =>
      if from in w.servers then w.(servers := (w.servers - {from})[to := w.servers[from]]) else w
    case LoseServer(addr) => w.(servers := w.servers - {addr})
    case Damage(addr, id, junk) =>
      if addr !in w.servers then w else
        var shards := w.servers[addr].shards;
        w.(servers := w.servers[addr := w.servers[addr].(shards :=
          if junk.None? then shards - {id} else shards[id := junk.value])])
    case Begin(f, data) => w.(originals := w.originals[f := data])
    case StoreShard(addr, f, c, i, stored) =>
      if addr in w.servers then w.(servers := w.servers[addr := w.servers[addr].With(ShardId(f, c, i), stored)]) else w
    case Publish(file, list) =>
      w.(files := w.files[file.fileID := file], placements := w.placements[file.fileID := list])
  }

  /** Runs are lists of actions; an action that is not legal where it comes changes nothing. */
  ghost function Run(s: Setup, w: World, actions: seq<Action>): World {
    if actions == [] then w
    else
      var before := Run(s, w, actions[..|actions| - 1]);
      var a := actions[|actions| - 1];
      if Legal(s, before, a) then Apply(before, a) else before
  }

  /** Some run leads from `w` to `w'`. */
  ghost predicate Reaches(s: Setup, w: World, w': World) {
    exists actions :: Run(s, w, actions) == w'
  }

  lemma ReachesBy(s: Setup, w: World, actions: seq<Action>)
    ensures Reaches(s, w, Run(s, w, actions))
  {
  }

  lemma RunOf(s: Setup, w: World, w': World) returns (actions: seq<Action>)
    requires Reaches(s, w, w')
    ensures Run(s, w, actions) == w'
  {
    actions :| Run(s, w, actions) == w';
  }

  lemma ReachesItself(s: Setup, w: World)
    ensures Reaches(s, w, w)
  {
    ReachesBy(s, w, []);
  }

  lemma ReachesNext(s: Setup, w: World, w': World, a: Action)
    requires Reaches(s, w, w') && Legal(s, w', a)
    ensures Reaches(s, w, Apply(w', a))
  {
    var actions := RunOf(s, w, w');
    assert (actions + [a])[..|actions + [a]| - 1] == actions;
    ReachesBy(s, w, actions + [a]);
  }

  // ----- The invariant holds in every run

  lemma GoodCopyKept(s: Setup, originals: map<string, Bytes>, f: string, data: Bytes, server: Server)
    requires s.Lawful() && f !in originals && GoodServer(s, originals, server)
    ensures GoodServer(s, originals[f := data], server)
  {
    forall id | id in server.shards ensures GoodCopy(s, originals[f := data], id, server.shards[id]) {
      var f', c, i :| CopyOf(s, originals, f', c, i, id, server.shards[id]);
      assert CopyOf(s, originals[f := data], f', c, i, id, server.shards[id]);
    }
  }

  /** A change that leaves the tables alone keeps every file good. */
  lemma SameTables(w: World, w': World)
    requires forall f :: GoodFile(w, f)
    requires w'.files == w.files && w'.placements == w.placements
    requires forall f :: f in w.originals ==> f in w'.originals && w'.originals[f] == w.originals[f]
    ensures forall f :: GoodFile(w', f)
  {
    forall f ensures GoodFile(w', f) {
      assert GoodFile(w, f);
    }
  }

  /** A change that leaves the servers and originals alone keeps every server good. */
  lemma SameServers(s: Setup, w: World, w': World)
    requires s.Lawful() && forall addr :: GoodAddress(s, w, addr)
    requires w'.servers == w.servers && w'.originals == w.originals
    ensures forall addr :: GoodAddress(s, w', addr)
  {
    forall addr ensures GoodAddress(s, w', addr) {
      assert GoodAddress(s, w, addr);
    }
  }

  lemma OneServer(s: Setup, w: World, w': World, changed: string)
    requires s.Lawful() && forall addr :: GoodAddress(s, w, addr)
    requires w'.originals == w.originals && GoodAddress(s, w', changed)
    requires forall addr :: addr in w'.servers && addr != changed ==>
      addr in w.servers && w'.servers[addr] == w.servers[addr]
    ensures forall addr :: GoodAddress(s, w', addr)
  {
    forall addr ensures GoodAddress(s, w', addr) {
      assert GoodAddress(s, w, addr);
    }
  }

  lemma GoodAfterStore(s: Setup, w: World, a: Action)
    requires Inv(s, w) && Legal(s, w, a) && a.StoreShard?
    ensures Inv(s, Apply(w, a))
  {
    var id := ShardId(a.fileID, a.chunk, a.shard);
    assert CopyOf(s, w.originals, a.fileID, a.chunk, a.shard, id, a.stored);
    assert GoodAddress(s, w, a.address);
    assert GoodServer(s, w.originals, w.servers[a.address].With(id, a.stored));
    OneServer(s, w, Apply(w, a), a.address);
    SameTables(w, Apply(w, a));
  }

  lemma GoodAfterDamage(s: Setup, w: World, a: Action)
    requires Inv(s, w) && Legal(s, w, a) && a.Damage?
    ensures Inv(s, Apply(w, a))
  {
    var server := w.servers[a.address];
    assert GoodAddress(s, w, a.address);
    assert GoodCopy(s, w.originals, a.shardID, server.shards[a.shardID]);
    var f, c, i :| CopyOf(s, w.originals, f, c, i, a.shardID, server.shards[a.shardID]);
    if a.junk.Some? {
      assert CopyOf(s, w.originals, f, c, i, a.shardID, a.junk.value);
    }
    assert GoodServer(s, w.originals, Apply(w, a).servers[a.address]);
    OneServer(s, w, Apply(w, a), a.address);
    SameTables(w, Apply(w, a));
  }

  lemma GoodAfterServers(s: Setup, w: World, a: Action)
    requires Inv(s, w) && Legal(s, w, a) && (a.OpenServer? || a.MoveServer? || a.LoseServer?)
    ensures Inv(s, Apply(w, a))
  {
    SameTables(w, Apply(w, a));
    match a
    case OpenServer(addr, _) => OneServer(s, w, Apply(w, a), addr);
    case LoseServer(addr) => OneServer(s, w, Apply(w, a), addr);
    case MoveServer(from, to) =>
      assert GoodAddress(s, w, from);
      OneServer(s, w, Apply(w, a), to);
  }

  lemma GoodAfterBegin(s: Setup, w: World, a: Action)
    requires Inv(s, w) && Legal(s, w, a) && a.Begin?
    ensures Inv(s, Apply(w, a))
  {
    forall addr ensures GoodAddress(s, Apply(w, a), addr) {
      assert GoodAddress(s, w, addr);
      if addr in w.servers {
        GoodCopyKept(s, w.originals, a.fileID, a.data, w.servers[addr]);
      }
    }
    SameTables(w, Apply(w, a));
  }

  lemma GoodAfterPublish(s: Setup, w: World, a: Action)
    requires Inv(s, w) && Legal(s, w, a) && a.Publish?
    ensures Inv(s, Apply(w, a))
  {
    forall f ensures GoodFile(Apply(w, a), f) {
      assert GoodFile(w, f);
    }
    SameServers(s, w, Apply(w, a));
  }

  lemma InvStep(s: Setup, w: World, a: Action)
    requires Inv(s, w) && Legal(s, w, a)
    ensures Inv(s, Apply(w, a))
  {
    if a.StoreShard? {
      GoodAfterStore(s, w, a);
    } else if a.Damage? {
      GoodAfterDamage(s, w, a);
    } else if a.Begin? {
      GoodAfterBegin(s, w, a);
    } else if a.Publish? {
      GoodAfterPublish(s, w, a);
    } else if a.OpenServer? || a.MoveServer? || a.LoseServer? {
      GoodAfterServers(s, w, a);
    } else {
      SameTables(w, Apply(w, a));
      SameServers(s, w, Apply(w, a));
    }
  }

  /** Every run keeps the invariant and every file's original content. */
  lemma {:induction false} RunKeepsInv(s: Setup, w: World, actions: seq<Action>)
    requires Inv(s, w)
    ensures Inv(s, Run(s, w, actions))
    ensures forall f :: f in w.originals ==>
      f in Run(s, w, actions).originals && Run(s, w, actions).originals[f] == w.originals[f]
  {
    if actions != [] {
      var before := Run(s, w, actions[..|actions| - 1]);
      var a := actions[|actions| - 1];
      RunKeepsInv(s, w, actions[..|actions| - 1]);
      if Legal(s, before, a) {
        InvStep(s, before, a);
      }
    }
  }

  /** What was published stays published. */
  lemma {:induction false} PublishedStays(s: Setup, w: World, actions: seq<Action>, f: string)
    requires f in w.placements
    ensures f in Run(s, w, actions).placements
  {
    if actions != [] {
      PublishedStays(s, w, actions[..|actions| - 1], f);
    }
  }

  /** Files once begun keep their content. */
  ghost predicate Remembers(w: World, w': World) {
    forall f :: f in w.originals ==> f in w'.originals && w'.originals[f] == w.originals[f]
  }

  lemma ReachesKeeps(s: Setup, w: World, w': World)
    requires Inv(s, w) && Reaches(s, w, w')
    ensures Inv(s, w') && Remembers(w, w')
  {
    var actions := RunOf(s, w, w');
    RunKeepsInv(s, w, actions);
  }

  /** From the empty network on, any copy stored anywhere under a shard's id, current, stale or orphaned,
      decrypts to that file's canonical shard or is rejected. */
  lemma EveryCopyIsCanonical(s: Setup, actions: seq<Action>, addr: string, f: string, c: nat, i: nat)
    requires s.Lawful()
    requires var w := Run(s, START, actions);
      addr in w.servers && ShardId(f, c, i) in w.servers[addr].shards
    ensures var w := Run(s, START, actions);
      && f in w.originals && c < |Pieces(w.originals[f])| && i < TOTAL_SHARDS
      && s.cipher.decrypt(w.servers[addr].shards[ShardId(f, c, i)]) in {None, Some(Canonical(s, w.originals[f], c, i))}
  {
    RunKeepsInv(s, START, actions);
    CopyIsCanonical(s, Run(s, START, actions), addr, f, c, i);
  }

  lemma CopyIsCanonical(s: Setup, w: World, addr: string, f: string, c: nat, i: nat)
    requires Inv(s, w) && addr in w.servers && ShardId(f, c, i) in w.servers[addr].shards
    ensures f in w.originals && c < |Pieces(w.originals[f])| && i < TOTAL_SHARDS
    ensures var plain := s.cipher.decrypt(w.servers[addr].shards[ShardId(f, c, i)]);
      plain == None || plain == Some(Canonical(s, w.originals[f], c, i))
  {
    var id := ShardId(f, c, i);
    assert GoodAddress(s, w, addr);
    assert GoodCopy(s, w.originals, id, w.servers[addr].shards[id]);
    var f', c', i' :| CopyOf(s, w.originals, f', c', i', id, w.servers[addr].shards[id]);
    ShardIdInjective(f, c, i, f', c', i');
  }
}
