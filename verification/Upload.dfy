/** Uploading a file: `cmd/aldea/put.go`. */
module Upload {
  import opened Base
  import opened Cluster
  import opened Download
  import opened Erasure
  import opened ShardIds
  import opened ShardServer
  import opened Storage
  import opened Tracker
  import Chunker

  datatype Error = ReadFailed | EncryptFailed | SelectFailed | UploadFailed(shardID: string, nodeID: string)
    | PublishFailed

  // ----- Why an upload fails

  /** Where to look for the reason of an error: the calls in which the nodes were chosen and something was sent, the
      nonce drawn, the chunk and the shard. */
  datatype Cause = Cause(chosen: nat, sent: nat, drawn: nat, chunk: nat, shard: nat)

  /** The eight nodes that a call to the tracker gave. */
  ghost predicate Chosen(r: Record, n: nat, nodes: seq<NodeMetadata>)
    requires r.Lawful()
  {
    && n < |r.log| && r.log[n].air.tracker == Answered
    && Selection(r.order, r.log[n].world.nodes, 8, 0) == Ok(nodes)
  }

  lemma ChosenLater(r: Record, r': Record, n: nat, nodes: seq<NodeMetadata>)
    requires r.Lawful() && Continues(r, r') && Chosen(r, n, nodes)
    ensures Chosen(r', n, nodes)
  {
    ContinuesAt(r, r', n);
  }

  /** The error has a reason in a call or draw since the record `from`: the random source failed; the tracker did not
      answer, or knew fewer than eight eligible nodes; or the node chosen for a shard did not answer, was gone or had
      no room for that shard. */
  ghost predicate Blamed(from: Record, r: Record, f: string, data: Bytes, why: Cause, e: Error)
    requires r.Lawful()
  {
    match e
    case ReadFailed => false
    case EncryptFailed => from.draws <= why.drawn < r.draws && r.env.nonce(why.drawn).None?
    case SelectFailed => |from.log| <= why.chosen < |r.log| && NoneChosen(r.log[why.chosen])
    case UploadFailed(id, nodeID) =>
      && |from.log| <= why.chosen < why.sent < |r.log| && from.draws <= why.drawn < r.draws
      && why.chunk < |Pieces(data)| && why.shard < 8 && id == ShardId(f, why.chunk, why.shard)
      && exists nodes, sealed :: ShardRefused(r, data, why, nodeID, nodes, sealed)
    case PublishFailed => |from.log| <= why.sent < |r.log| && r.log[why.sent].air.tracker != Answered
  }

  ghost predicate NoneChosen(call: Call) {
    call.air.tracker != Answered || |EligibleIDs(call.world.nodes, 0)| < 8
  }

  ghost predicate ShardRefused(r: Record, data: Bytes, why: Cause, nodeID: string, nodes: seq<NodeMetadata>,
                               sealed: Bytes)
    requires r.Lawful() && why.chunk < |Pieces(data)| && why.shard < 8
  {
    && Chosen(r, why.chosen, nodes) && |nodes| == 8 && nodes[why.shard].nodeID == nodeID
    && Sealed(r.s, r.env, Canonical(r.s, data, why.chunk, why.shard), why.drawn, sealed)
    && why.sent < |r.log| && Refuses(r.log[why.sent], nodes[why.shard].address, sealed)
  }

  lemma BlamedEarlier(from: Record, later: Record, r: Record, f: string, data: Bytes, why: Cause, e: Error)
    requires r.Lawful() && Continues(from, later) && Blamed(later, r, f, data, why, e)
    ensures Blamed(from, r, f, data, why, e)
  {
  }

  /** Eight entries for chunk `c`, on distinct nodes; those on spared nodes hold their shard. */
  ghost predicate ChunkPlaced(s: Setup, spared: Spared, nodes: NodeTable, servers: map<string, Server>, f: string,
                              data: Bytes, c: nat, list: seq<ShardPlacement>)
  {
    && c < |Pieces(data)| && |list| == TOTAL_SHARDS
    && (forall i :: 0 <= i < TOTAL_SHARDS ==> EntryPlaced(s, spared, nodes, servers, f, data, c, i, list[i]))
    && DistinctNodes(list)
  }

  ghost predicate DistinctNodes(list: seq<ShardPlacement>) {
    forall i, j :: 0 <= i < j < |list| ==> list[i].nodeID != list[j].nodeID
  }

  ghost predicate EntryPlaced(s: Setup, spared: Spared, nodes: NodeTable, servers: map<string, Server>, f: string,
                              data: Bytes, c: nat, i: nat, p: ShardPlacement)
    requires c < |Pieces(data)| && i < TOTAL_SHARDS
  {
    && p == ShardPlacement(ShardId(f, c, i), f, c, i, p.nodeID, |Pieces(data)[c]|)
    && (spared.Some? && p.nodeID !in spared.value ==> Held(s, nodes, servers, p))
  }

  /** The encryption loop of `runPut`. */
  method EncryptShards(net: Network, shards: seq<Shard>, ghost f: string, ghost data: Bytes)
    returns (r: Result<seq<Bytes>, Error>, ghost why: Cause)
    requires net.Valid()
    modifies net`draws
    ensures net.Valid() && Continues(old(net.Done()), net.Done())
    ensures r.Ok? ==> |r.value| == |shards| && forall i :: 0 <= i < |shards| ==>
      r.value[i] != [] && net.s.cipher.decrypt(r.value[i]) == Some(shards[i].data)
    ensures r.Ok? ==> net.draws == old(net.draws) + |shards| && forall i :: 0 <= i < |shards| ==>
      Sealed(net.s, net.env, shards[i].data, old(net.draws) + i, r.value[i])
    ensures r.Err? ==> r.error == EncryptFailed && Blamed(old(net.Done()), net.Done(), f, data, why, r.error)
  {
    why := Cause(0, 0, 0, 0, 0);
    var encrypted := new Bytes[|shards|];
    for i := 0 to |shards|
      invariant net.Valid() && net.draws == old(net.draws) + i
      invariant forall j :: 0 <= j < i ==>
        encrypted[j] != [] && net.s.cipher.decrypt(encrypted[j]) == Some(shards[j].data)
      invariant forall j :: 0 <= j < i ==>
        Sealed(net.s, net.env, shards[j].data, old(net.draws) + j, encrypted[j])
    {
      var ct := net.Seal(shards[i].data);
      if ct.None? {
        return Err(EncryptFailed), Cause(0, 0, old(net.draws) + i, 0, 0);
      }
      encrypted[i] := ct.value;
    }
    return Ok(encrypted[..]), why;
  }

  ghost predicate Registered(nodes: NodeTable, n: NodeMetadata) {
    n.nodeID in nodes && nodes[n.nodeID] == n
  }

  /** `sealed` is an encryption of the chunk's shard `i`. */
  ghost predicate Seals(s: Setup, data: Bytes, c: nat, i: nat, sealed: Bytes)
    requires s.Lawful() && c < |Pieces(data)| && i < TOTAL_SHARDS
  {
    sealed != [] && s.cipher.decrypt(sealed) == Some(Canonical(s, data, c, i))
  }

  /** Shard `i` of the chunk is encrypted with nonce `drawn + i`. */
  ghost predicate AllSealed(s: Setup, env: Environment, data: Bytes, c: nat, drawn: nat, encrypted: seq<Bytes>)
    requires s.Lawful() && c < |Pieces(data)|
  {
    |encrypted| == TOTAL_SHARDS && forall i: nat :: i < TOTAL_SHARDS ==> SealedAt(s, env, data, c, drawn, encrypted, i)
  }

  ghost predicate SealedAt(s: Setup, env: Environment, data: Bytes, c: nat, drawn: nat, encrypted: seq<Bytes>, i: nat)
    requires s.Lawful() && c < |Pieces(data)| && i < TOTAL_SHARDS
  {
    && i < |encrypted| && Seals(s, data, c, i, encrypted[i])
    && Sealed(s, env, Canonical(s, data, c, i), drawn + i, encrypted[i])
  }

  lemma ChunkIsSealed(s: Setup, env: Environment, data: Bytes, c: nat, drawn: nat, shards: seq<Shard>,
                      encrypted: seq<Bytes>)
    requires s.Lawful() && c < |Pieces(data)| && |shards| == |encrypted| == TOTAL_SHARDS
    requires |s.code.Shards(Pieces(data)[c])| == TOTAL_SHARDS
    requires forall i :: 0 <= i < TOTAL_SHARDS ==> shards[i] == Shard(i, s.code.Shards(Pieces(data)[c])[i])
    requires forall i :: 0 <= i < TOTAL_SHARDS ==>
      && encrypted[i] != [] && s.cipher.decrypt(encrypted[i]) == Some(shards[i].data)
      && Sealed(s, env, shards[i].data, drawn + i, encrypted[i])
    ensures AllSealed(s, env, data, c, drawn, encrypted)
  {
    forall i: nat | i < TOTAL_SHARDS ensures SealedAt(s, env, data, c, drawn, encrypted, i) {
      assert Canonical(s, data, c, i) == shards[i].data;
    }
  }

  /** The first entries of a chunk, as the upload loop has made them. */
  ghost predicate Uploaded(s: Setup, spared: Spared, w: World, f: string, data: Bytes, c: nat, nodes: seq<NodeMetadata>,
                           list: seq<ShardPlacement>)
    requires c < |Pieces(data)| && |nodes| == TOTAL_SHARDS
  {
    && |list| <= TOTAL_SHARDS
    && forall j :: 0 <= j < |list| ==>
        list[j].nodeID == nodes[j].nodeID && EntryPlaced(s, spared, w.nodes, w.servers, f, data, c, j, list[j])
  }

  /** What was uploaded to spared nodes stays there. */
  lemma UploadedKept(s: Setup, spared: Spared, w: World, w': World, f: string, data: Bytes, c: nat,
                     nodes: seq<NodeMetadata>, list: seq<ShardPlacement>)
    requires c < |Pieces(data)| && |nodes| == TOTAL_SHARDS && Went(s, spared, w, w')
    requires Uploaded(s, spared, w, f, data, c, nodes, list)
    ensures Uploaded(s, spared, w', f, data, c, nodes, list)
  {
    forall j | 0 <= j < |list| ensures EntryPlaced(s, spared, w'.nodes, w'.servers, f, data, c, j, list[j]) {
      assert EntryPlaced(s, spared, w.nodes, w.servers, f, data, c, j, list[j]);
      if spared.Some? && list[j].nodeID !in spared.value {
        HeldSpared(s, spared, w, w', list[j]);
      }
    }
  }

  lemma UploadedMore(s: Setup, spared: Spared, w: World, f: string, data: Bytes, c: nat, nodes: seq<NodeMetadata>,
                     list: seq<ShardPlacement>)
    requires c < |Pieces(data)| && |nodes| == TOTAL_SHARDS && |list| < TOTAL_SHARDS
    requires Uploaded(s, spared, w, f, data, c, nodes, list)
    requires var i := |list|; spared.Some? && nodes[i].nodeID !in spared.value ==>
      && nodes[i].nodeID in w.nodes && w.nodes[nodes[i].nodeID].address == nodes[i].address
      && Readable(s, w.servers, nodes[i].address, ShardId(f, c, i))
    ensures var i := |list|;
      Uploaded(s, spared, w, f, data, c, nodes,
               list + [ShardPlacement(ShardId(f, c, i), f, c, i, nodes[i].nodeID, |Pieces(data)[c]|)])
  {
  }

  lemma UploadBlamed(from: Record, r: Record, f: string, data: Bytes, why: Cause, nodes: seq<NodeMetadata>,
                     drawn: nat, encrypted: seq<Bytes>)
    requires r.Lawful() && why.chunk < |Pieces(data)| && why.shard < TOTAL_SHARDS
    requires |from.log| <= why.chosen < why.sent < |r.log| && from.draws <= drawn && drawn + TOTAL_SHARDS <= r.draws
    requires Chosen(r, why.chosen, nodes) && why.drawn == drawn + why.shard && |nodes| == |encrypted| == TOTAL_SHARDS
    requires SealedAt(r.s, r.env, data, why.chunk, drawn, encrypted, why.shard)
    requires Refuses(r.log[why.sent], nodes[why.shard].address, encrypted[why.shard])
    ensures Blamed(from, r, f, data, why, UploadFailed(ShardId(f, why.chunk, why.shard), nodes[why.shard].nodeID))
  {
    assert ShardRefused(r, data, why, nodes[why.shard].nodeID, nodes, encrypted[why.shard]);
  }

  ghost predicate NodeKeptIf(s: Setup, spared: Spared, w: World, w': World, id: string) {
    spared.Some? && id !in spared.value ==> NodeKept(s, w, w', id)
  }

  /** One turn of the upload loop: shard `i` goes to node `i`. */
  method UploadShard(net: Network, ghost spared: Spared, f: string, ghost data: Bytes, c: nat, i: nat,
                     node: NodeMetadata, encrypted: Bytes)
    returns (ok: bool)
    requires net.Valid() && SparedIn(net.s, net.env, spared) && net.Holds(f, data)
    requires c < |Pieces(data)| && i < TOTAL_SHARDS && Seals(net.s, data, c, i, encrypted)
    modifies net, net.store
    ensures net.Valid() && Went(net.s, spared, old(net.View()), net.View()) && net.Holds(f, data)
    ensures net.Undisturbed(old(net.View()))
    ensures net.draws == old(net.draws) && net.calls == old(net.calls) + 1
    ensures Continues(old(net.Done()), net.Done())
    ensures ok ==> Readable(net.s, net.servers, node.address, ShardId(f, c, i))
    ensures ok <==> !Refuses(net.log[old(net.calls)], node.address, encrypted)
  {
    var air := net.Pass(spared);
    ghost var before := net.View();
    ok := net.Send(air, node.address, f, c, i, ShardId(f, c, i), encrypted);
    GrewWent(net.s, spared, before, net.View());
    WentTransitive(net.s, spared, old(net.View()), before, net.View());
  }

  /** The upload loop of `runPut`: shard `i` goes to the i-th selected node. */
  method UploadShards(net: Network, ghost spared: Spared, f: string, ghost data: Bytes, c: nat, size: nat,
                      nodes: seq<NodeMetadata>, encrypted: seq<Bytes>, ghost from: Record, ghost chosen: nat,
                      ghost drawn: nat)
    returns (r: Result<seq<ShardPlacement>, Error>, ghost why: Cause)
    requires net.Valid() && SparedIn(net.s, net.env, spared) && net.Holds(f, data)
    requires c < |Pieces(data)| && size == |Pieces(data)[c]|
    requires |nodes| == |encrypted| == TOTAL_SHARDS
    requires forall i :: 0 <= i < TOTAL_SHARDS ==> Registered(net.store.nodes, nodes[i])
    requires AllSealed(net.s, net.env, data, c, drawn, encrypted)
    requires Chosen(net.Done(), chosen, nodes) && |from.log| <= chosen && from.draws <= drawn
    requires drawn + TOTAL_SHARDS <= net.draws
    modifies net, net.store
    ensures net.Valid() && Went(net.s, spared, old(net.View()), net.View()) && net.Holds(f, data)
    ensures net.Undisturbed(old(net.View()))
    ensures Continues(old(net.Done()), net.Done()) && Chosen(net.Done(), chosen, nodes)
    ensures r.Ok? ==> |r.value| == TOTAL_SHARDS && Uploaded(net.s, spared, net.View(), f, data, c, nodes, r.value)
    ensures r.Err? ==> Blamed(from, net.Done(), f, data, why, r.error)
  {
    why := Cause(0, 0, 0, 0, 0);
    WentItself(net.s, spared, net.View());
    var list: seq<ShardPlacement> := [];
    for i := 0 to |nodes|
      invariant net.Valid() && Went(net.s, spared, old(net.View()), net.View()) && net.Holds(f, data)
      invariant net.Undisturbed(old(net.View()))
      invariant |list| == i && Uploaded(net.s, spared, net.View(), f, data, c, nodes, list)
      invariant Continues(old(net.Done()), net.Done()) && Chosen(net.Done(), chosen, nodes)
    {
      assert SealedAt(net.s, net.env, data, c, drawn, encrypted, i) && Registered(old(net.store.nodes), nodes[i]);
      ghost var before, done := net.View(), net.Done();
      var ok := UploadShard(net, spared, f, data, c, i, nodes[i], encrypted[i]);
      WentTransitive(net.s, spared, old(net.View()), before, net.View());
      ContinuesTransitive(old(net.Done()), done, net.Done());
      ChosenLater(done, net.Done(), chosen, nodes);
      assert NodeKeptIf(net.s, spared, old(net.View()), net.View(), nodes[i].nodeID);
      UploadedKept(net.s, spared, before, net.View(), f, data, c, nodes, list);
      if !ok {
        why := Cause(chosen, net.calls - 1, drawn + i, c, i);
        UploadBlamed(from, net.Done(), f, data, why, nodes, drawn, encrypted);
        return Err(UploadFailed(ShardId(f, c, i), nodes[i].nodeID)), why;
      }
      UploadedMore(net.s, spared, net.View(), f, data, c, nodes, list);
      list := list + [ShardPlacement(ShardId(f, c, i), f, c, i, nodes[i].nodeID, size)];
    }
    return Ok(list), why;
  }

  /** The tracker's answer to a request for eight nodes. */
  method Select(net: Network, ghost spared: Spared) returns (r: Result<seq<NodeMetadata>, Error>)
    requires net.Valid() && SparedIn(net.s, net.env, spared)
    modifies net, net.store
    ensures net.Valid() && Went(net.s, spared, old(net.View()), net.View()) && Remembers(old(net.View()), net.View())
    ensures net.Undisturbed(old(net.View()))
    ensures net.draws == old(net.draws) && net.calls == old(net.calls) + 1
    ensures Continues(old(net.Done()), net.Done())
    ensures r.Ok? ==> |r.value| == TOTAL_SHARDS && DistinctIDs(r.value) && Chosen(net.Done(), old(net.calls), r.value)
    ensures r.Ok? ==> forall i :: 0 <= i < TOTAL_SHARDS ==> Registered(net.store.nodes, r.value[i])
    ensures r.Err? ==> r.error == SelectFailed
    ensures r.Err? <==> NoneChosen(net.log[old(net.calls)])
  {
    var air := net.Pass(spared);
    SelectionIsBest(net.store.order, net.store.nodes, TOTAL_SHARDS, 0);
    var selected := net.store.SelectPlacementNodes(TOTAL_SHARDS, 0);
    if air.tracker != Answered || selected.Err? {
      return Err(SelectFailed);
    }
    forall i | 0 <= i < TOTAL_SHARDS ensures Registered(net.store.nodes, selected.value[i]) {
      assert selected.value[i] in selected.value;
    }
    return Ok(selected.value);
  }

  /** The placements are on the nodes that a call to the tracker gave, in its order. */
  ghost predicate OnChosen(r: Record, n: nat, list: seq<ShardPlacement>)
    requires r.Lawful()
  {
    exists nodes :: Chosen(r, n, nodes) && InOrder(nodes, list)
  }

  ghost predicate InOrder(nodes: seq<NodeMetadata>, list: seq<ShardPlacement>) {
    |list| == |nodes| == 8 && forall i :: 0 <= i < 8 ==> list[i].nodeID == nodes[i].nodeID
  }

  /** The body of the chunk loop of `runPut`: encode, encrypt, select eight nodes, upload. */
  method PutChunk(net: Network, ghost spared: Spared, f: string, ghost data: Bytes, c: nat, chunk: Bytes)
    returns (r: Result<seq<ShardPlacement>, Error>, ghost why: Cause)
    requires net.Valid() && SparedIn(net.s, net.env, spared) && net.Holds(f, data)
    requires c < |Pieces(data)| && chunk == Pieces(data)[c]
    modifies net, net.store
    ensures net.Valid() && Went(net.s, spared, old(net.View()), net.View()) && net.Holds(f, data)
    ensures net.Undisturbed(old(net.View()))
    ensures Continues(old(net.Done()), net.Done())
    ensures r.Ok? ==> ChunkPlaced(net.s, spared, net.store.nodes, net.servers, f, data, c, r.value)
    ensures r.Ok? ==> OnChosen(net.Done(), old(net.calls), r.value)
    ensures r.Err? ==> Blamed(old(net.Done()), net.Done(), f, data, why, r.error)
  {
    ghost var done := net.Done();
    WentItself(net.s, spared, net.View());
    var shards := Encode(net.s.code, chunk);
    var encrypted;
    encrypted, why := EncryptShards(net, shards, f, data);
    if encrypted.Err? {
      return Err(encrypted.error), why;
    }
    ChunkIsSealed(net.s, net.env, data, c, done.draws, shards, encrypted.value);
    r, why := PlaceChunk(net, spared, f, data, c, |chunk|, encrypted.value, done);
  }

  /** Its second half: the nodes are selected and the encrypted shards uploaded. */
  method PlaceChunk(net: Network, ghost spared: Spared, f: string, ghost data: Bytes, c: nat, size: nat,
                    encrypted: seq<Bytes>, ghost from: Record)
    returns (r: Result<seq<ShardPlacement>, Error>, ghost why: Cause)
    requires net.Valid() && SparedIn(net.s, net.env, spared) && net.Holds(f, data)
    requires c < |Pieces(data)| && size == |Pieces(data)[c]|
    requires AllSealed(net.s, net.env, data, c, from.draws, encrypted) && Continues(from, net.Done())
    requires from.draws + TOTAL_SHARDS <= net.draws && |from.log| == net.calls
    modifies net, net.store
    ensures net.Valid() && Went(net.s, spared, old(net.View()), net.View()) && net.Holds(f, data)
    ensures net.Undisturbed(old(net.View()))
    ensures Continues(from, net.Done())
    ensures r.Ok? ==> ChunkPlaced(net.s, spared, net.store.nodes, net.servers, f, data, c, r.value)
    ensures r.Ok? ==> OnChosen(net.Done(), old(net.calls), r.value)
    ensures r.Err? ==> Blamed(from, net.Done(), f, data, why, r.error)
  {
    ghost var start, sealed := net.View(), net.Done();
    var selected := Select(net, spared);
    ContinuesTransitive(from, sealed, net.Done());
    if selected.Err? {
      return Err(SelectFailed), Cause(|from.log|, 0, 0, 0, 0);
    }
    ghost var before, chosen := net.View(), net.Done();
    r, why := UploadShards(net, spared, f, data, c, size, selected.value, encrypted, from, |from.log|, from.draws);
    WentTransitive(net.s, spared, start, before, net.View());
    ContinuesTransitive(from, chosen, net.Done());
    if r.Ok? {
      UploadedIsPlaced(net.s, spared, net.View(), f, data, c, selected.value, r.value);
    }
  }

  lemma UploadedIsPlaced(s: Setup, spared: Spared, w: World, f: string, data: Bytes, c: nat, nodes: seq<NodeMetadata>,
                         list: seq<ShardPlacement>)
    requires c < |Pieces(data)| && |nodes| == |list| == TOTAL_SHARDS && DistinctIDs(nodes)
    requires Uploaded(s, spared, w, f, data, c, nodes, list)
    ensures ChunkPlaced(s, spared, w.nodes, w.servers, f, data, c, list) && InOrder(nodes, list)
  {
  }

  /** The first `n` chunks are placed. */
  ghost predicate AllPlaced(s: Setup, spared: Spared, nodes: NodeTable, servers: map<string, Server>, f: string,
                            data: Bytes, n: nat, list: seq<ShardPlacement>)
  {
    && |list| == TOTAL_SHARDS * n
    && forall c: nat :: c < n ==> ChunkPlaced(s, spared, nodes, servers, f, data, c, GroupAt(list, c))
  }

  /** The entries of chunk `c` in a list of eight for each chunk. */
  function GroupAt(list: seq<ShardPlacement>, c: nat): seq<ShardPlacement> {
    if TOTAL_SHARDS * (c + 1) <= |list| then list[TOTAL_SHARDS * c..TOTAL_SHARDS * (c + 1)] else []
  }

  lemma GroupAtAppend(list: seq<ShardPlacement>, more: seq<ShardPlacement>, n: nat, c: nat)
    requires |list| == TOTAL_SHARDS * n && |more| == TOTAL_SHARDS && c <= n
    ensures GroupAt(list + more, c) == if c < n then GroupAt(list, c) else more
  {
  }

  /** The file is published, each chunk on eight distinct nodes, of which the spared ones hold its shards. */
  ghost predicate Spread(s: Setup, spared: Spared, w: World, f: string) {
    && f in w.originals && f in w.placements
    && AllPlaced(s, spared, w.nodes, w.servers, f, w.originals[f], |Pieces(w.originals[f])|, w.placements[f])
  }

  lemma ChunkPlacedKept(s: Setup, spared: Spared, w: World, w': World, f: string, data: Bytes, c: nat,
                        list: seq<ShardPlacement>)
    requires ChunkPlaced(s, spared, w.nodes, w.servers, f, data, c, list) && Went(s, spared, w, w')
    ensures ChunkPlaced(s, spared, w'.nodes, w'.servers, f, data, c, list)
  {
    forall i | 0 <= i < TOTAL_SHARDS
      ensures EntryPlaced(s, spared, w'.nodes, w'.servers, f, data, c, i, list[i])
    {
      assert EntryPlaced(s, spared, w.nodes, w.servers, f, data, c, i, list[i]);
      if spared.Some? && list[i].nodeID !in spared.value {
        HeldSpared(s, spared, w, w', list[i]);
      }
    }
  }

  lemma AllPlacedStep(s: Setup, spared: Spared, w: World, w': World, f: string, data: Bytes, n: nat,
                      list: seq<ShardPlacement>, more: seq<ShardPlacement>)
    requires AllPlaced(s, spared, w.nodes, w.servers, f, data, n, list) && Went(s, spared, w, w')
    requires ChunkPlaced(s, spared, w'.nodes, w'.servers, f, data, n, more)
    ensures AllPlaced(s, spared, w'.nodes, w'.servers, f, data, n + 1, list + more)
  {
    forall c: nat | c < n + 1
      ensures ChunkPlaced(s, spared, w'.nodes, w'.servers, f, data, c, GroupAt(list + more, c))
    {
      GroupAtAppend(list, more, n, c);
      if c < n {
        ChunkPlacedKept(s, spared, w, w', f, data, c, GroupAt(list, c));
      }
    }
  }

  lemma AllPlacedShaped(s: Setup, spared: Spared, nodes: NodeTable, servers: map<string, Server>, f: string,
                        data: Bytes, list: seq<ShardPlacement>)
    requires AllPlaced(s, spared, nodes, servers, f, data, |Pieces(data)|, list)
    ensures Shaped(f, data, list)
  {
    forall j: nat | j < |list| ensures EntryShaped(f, data, list, j) {
      var c, i := j / TOTAL_SHARDS, j % TOTAL_SHARDS;
      var part := GroupAt(list, c);
      assert ChunkPlaced(s, spared, nodes, servers, f, data, c, part);
      assert part[i] == list[j];
      assert EntryPlaced(s, spared, nodes, servers, f, data, c, i, part[i]);
    }
  }

  lemma BeginStep(s: Setup, w: World, f: string, data: Bytes)
    requires Inv(s, w) && f !in w.originals
    ensures var w' := w.(originals := w.originals[f := data]); Reaches(s, w, w') && Inv(s, w')
  {
    ReachesItself(s, w);
    ReachesNext(s, w, w, Begin(f, data));
    InvStep(s, w, Begin(f, data));
  }

  lemma PublishStep(s: Setup, w: World, file: FileMetadata, list: seq<ShardPlacement>)
    requires Inv(s, w) && file.fileID in w.originals && Shaped(file.fileID, w.originals[file.fileID], list)
    ensures var w' := w.(files := w.files[file.fileID := file], placements := w.placements[file.fileID := list]);
      Reaches(s, w, w') && Inv(s, w')
  {
    ReachesItself(s, w);
    ReachesNext(s, w, w, Publish(file, list));
    InvStep(s, w, Publish(file, list));
  }

  /** The chunk loop of `runPut`. */
  method PutChunks(net: Network, ghost spared: Spared, f: string, ghost data: Bytes, chunks: seq<Chunker.Chunk>,
                   hash: Bytes -> Chunker.Digest)
    returns (r: Result<seq<ShardPlacement>, Error>, ghost why: Cause)
    requires net.Valid() && SparedIn(net.s, net.env, spared) && net.Holds(f, data)
    requires ChunksOf(chunks, Pieces(data), |Pieces(data)|, hash)
    modifies net, net.store
    ensures net.Valid() && Went(net.s, spared, old(net.View()), net.View()) && net.Holds(f, data)
    ensures net.Undisturbed(old(net.View()))
    ensures Continues(old(net.Done()), net.Done())
    ensures r.Err? ==> Blamed(old(net.Done()), net.Done(), f, data, why, r.error)
    ensures r.Ok? ==> AllPlaced(net.s, spared, net.store.nodes, net.servers, f, data, |chunks|, r.value)
  {
    why := Cause(0, 0, 0, 0, 0);
    WentItself(net.s, spared, net.View());
    var all: seq<ShardPlacement> := [];
    for c := 0 to |chunks|
      invariant net.Valid() && Went(net.s, spared, old(net.View()), net.View()) && net.Holds(f, data)
      invariant net.Undisturbed(old(net.View()))
      invariant Continues(old(net.Done()), net.Done())
      invariant AllPlaced(net.s, spared, net.store.nodes, net.servers, f, data, c, all)
    {
      assert chunks[c] == Chunker.ChunkOf(c, Pieces(data)[c], hash);
      ghost var before, done := net.View(), net.Done();
      var list;
      list, why := PutChunk(net, spared, f, data, chunks[c].index, chunks[c].data);
      WentTransitive(net.s, spared, old(net.View()), before, net.View());
      ContinuesTransitive(old(net.Done()), done, net.Done());
      if list.Err? {
        BlamedEarlier(old(net.Done()), done, net.Done(), f, data, why, list.error);
        return Err(list.error), why;
      }
      AllPlacedStep(net.s, spared, before, net.View(), f, data, c, all, list.value);
      all := all + list.value;
    }
    return Ok(all), why;
  }

  lemma PlacedKept(s: Setup, spared: Spared, w: World, w': World, f: string, data: Bytes, n: nat,
                   list: seq<ShardPlacement>)
    requires AllPlaced(s, spared, w.nodes, w.servers, f, data, n, list) && Went(s, spared, w, w')
    ensures AllPlaced(s, spared, w'.nodes, w'.servers, f, data, n, list)
  {
    forall c: nat | c < n ensures ChunkPlaced(s, spared, w'.nodes, w'.servers, f, data, c, GroupAt(list, c)) {
      ChunkPlacedKept(s, spared, w, w', f, data, c, GroupAt(list, c));
    }
  }

  /** The last call of `runPut`: the placement is published, whether or not the client hears of it. */
  method PublishFile(net: Network, ghost spared: Spared, file: FileMetadata, ghost data: Bytes,
                     list: seq<ShardPlacement>)
    returns (acknowledged: bool, ghost arrived: bool)
    requires net.Valid() && SparedIn(net.s, net.env, spared) && net.Holds(file.fileID, data)
    requires AllPlaced(net.s, spared, net.store.nodes, net.servers, file.fileID, data, |Pieces(data)|, list)
    modifies net, net.store
    ensures net.Valid() && Went(net.s, spared, old(net.View()), net.View()) && net.Holds(file.fileID, data)
    ensures net.draws == old(net.draws) && net.calls == old(net.calls) + 1
    ensures Continues(old(net.Done()), net.Done())
    ensures acknowledged ==> arrived
    ensures acknowledged <==> net.log[old(net.calls)].air.tracker == Answered
    ensures arrived ==> Spread(net.s, spared, net.View(), file.fileID)
    ensures arrived ==> file.fileID in net.store.files && net.store.files[file.fileID] == file
    ensures net.env.LeavesTracker() ==>
      && net.store.nodes == old(net.store.nodes)
      && net.store.files == (if arrived then old(net.store.files)[file.fileID := file] else old(net.store.files))
      && net.store.placements
           == if arrived then old(net.store.placements)[file.fileID := list] else old(net.store.placements)
  {
    ghost var start := net.View();
    var air := net.Pass(spared);
    if air.tracker == Lost {
      return false, false;
    }
    ghost var w := net.View();
    PlacedKept(net.s, spared, start, w, file.fileID, data, |Pieces(data)|, list);
    AllPlacedShaped(net.s, spared, net.store.nodes, net.servers, file.fileID, data, list);
    PublishStep(net.s, w, file, list);
    net.store.SaveFilePlacement(file, list);
    TablesWent(net.s, spared, w, net.View());
    WentTransitive(net.s, spared, start, w, net.View());
    acknowledged, arrived := air.tracker == Answered, true;
  }

  /** What an upload has done to the tracker's tables, if others leave these alone. */
  ghost predicate OnlyPublished(w: World, w': World, f: string, file: FileMetadata, published: bool) {
    && w'.nodes == w.nodes
    && w'.files == (if published then w.files[f := file] else w.files)
    && w'.placements.Keys == w.placements.Keys + (if published then {f} else {})
    && forall g :: g in w.placements && g != f ==> w'.placements[g] == w.placements[g]
  }

  /** `runPut` once the file is split: the chunks, then the placement. */
  method PutBegun(net: Network, ghost spared: Spared, f: string, ghost data: Bytes, chunks: seq<Chunker.Chunk>,
                  file: FileMetadata, hash: Bytes -> Chunker.Digest)
    returns (r: Result<(), Error>, ghost published: bool, ghost why: Cause)
    requires net.Valid() && SparedIn(net.s, net.env, spared) && net.Holds(f, data) && file.fileID == f
    requires ChunksOf(chunks, Pieces(data), |Pieces(data)|, hash)
    modifies net, net.store
    ensures net.Valid() && Went(net.s, spared, old(net.View()), net.View()) && net.Holds(f, data)
    ensures r.Ok? ==> published
    ensures r.Err? && r.error != PublishFailed ==> !published
    ensures r.Err? ==> Blamed(old(net.Done()), net.Done(), f, data, why, r.error)
    ensures Continues(old(net.Done()), net.Done())
    ensures published ==> f in net.store.files && net.store.files[f] == file && Spread(net.s, spared, net.View(), f)
    ensures net.env.LeavesTracker() ==> OnlyPublished(old(net.View()), net.View(), f, file, published)
  {
    ghost var start, done := net.View(), net.Done();
    var list;
    list, why := PutChunks(net, spared, f, data, chunks, hash);
    ghost var uploaded, sent := net.View(), net.Done();
    if list.Err? {
      return Err(list.error), false, why;
    }
    why := Cause(0, net.calls, 0, 0, 0);
    var acknowledged;
    acknowledged, published := PublishFile(net, spared, file, data, list.value);
    WentTransitive(net.s, spared, start, uploaded, net.View());
    ContinuesTransitive(done, sent, net.Done());
    r := if acknowledged then Ok(()) else Err(PublishFailed);
  }

  /** `runPut` under a fresh file id, while others do as they like. It may be abandoned anywhere, leaving orphaned
      shards but nothing published, and fails only for a reason; a success leaves every chunk published on eight
      distinct nodes, of which all that others spared hold their shard, under a record of the file. */
  method Put(net: Network, ghost spared: Spared, f: string, fileName: string, reader: Chunker.Reader, size: int,
             now: int, hash: Bytes -> Chunker.Digest)
    returns (r: Result<(), Error>, ghost published: bool, ghost why: Cause)
    requires net.Valid() && SparedIn(net.s, net.env, spared) && f !in net.originals
    modifies net, net.store, reader
    ensures net.Valid() && Went(net.s, spared, old(net.View()), net.View())
    ensures r.Ok? ==> published
    ensures r.Err? && r.error != PublishFailed ==> !published
    ensures r == Err(ReadFailed) ==> !reader.reliable
    ensures r.Err? && r.error != ReadFailed ==>
      Blamed(old(net.Done()), net.Done(), f, old(reader.rest), why, r.error)
    ensures published ==>
      && f in net.store.files
      && net.store.files[f] == FileMetadata(f, fileName, size, (|old(reader.rest)| + 1048575) / 1048576, now)
    ensures published ==> Spread(net.s, spared, net.View(), f) && net.Holds(f, old(reader.rest))
    ensures f !in old(net.store.files) && f !in old(net.store.placements)
    ensures net.env.LeavesTracker() ==>
      && net.store.nodes == old(net.store.nodes)
      && net.store.files == (if published then
           old(net.store.files)[f := FileMetadata(f, fileName, size, (|old(reader.rest)| + 1048575) / 1048576, now)]
         else old(net.store.files))
      && net.store.placements.Keys == old(net.store.placements).Keys + (if published then {f} else {})
      && forall g :: g in old(net.store.placements) ==> net.store.placements[g] == old(net.store.placements)[g]
  {
    ghost var start := net.View();
    WentItself(net.s, spared, start);
    assert GoodFile(start, f);
    var data := reader.rest;
    var chunks := Chunker.Split(reader, 0, hash);
    if chunks.Err? {
      return Err(ReadFailed), false, Cause(0, 0, 0, 0, 0);
    }
    Chunker.CutCount(data, Chunker.DEFAULT_CHUNK_SIZE);
    var file := FileMetadata(f, fileName, size, |chunks.value|, now);
    BeginStep(net.s, start, f, data);
    net.originals := net.originals[f := data];
    ghost var begun := net.View();
    TablesWent(net.s, spared, start, begun);
    r, published, why := PutBegun(net, spared, f, data, chunks.value, file, hash);
    WentTransitive(net.s, spared, start, begun, net.View());
  }
}
