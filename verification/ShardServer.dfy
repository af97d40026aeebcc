/** A storage node's shard bucket and its quota check: `cmd/noded/server.go`. */
module ShardServer {
  import opened Base

  type Shards = map<string, Bytes>

  /** Bytes stored, whatever order the bucket is walked in. */
  ghost function Used(shards: Shards): nat {
    if shards == map[] then 0
    else
      var k :| k in shards;
      |shards[k]| + Used(shards - {k})
  }

  lemma {:induction false} UsedWithout(shards: Shards, k: string)
    requires k in shards
    ensures Used(shards) == |shards[k]| + Used(shards - {k})
    decreases |shards|
  {
    var picked :| picked in shards && Used(shards) == |shards[picked]| + Used(shards - {picked});
    if picked != k {
      UsedWithout(shards - {picked}, k);
      UsedWithout(shards - {k}, picked);
      assert shards - {picked} - {k} == shards - {k} - {picked};
    }
  }

  /** Overwriting a key releases what it held. */
  lemma UsedAfterPut(shards: Shards, k: string, data: Bytes)
    ensures Used(shards[k := data]) == Used(shards) + |data| - if k in shards then |shards[k]| else 0
  {
    UsedWithout(shards[k := data], k);
    assert shards[k := data] - {k} == shards - {k};
    if k in shards {
      UsedWithout(shards, k);
    } else {
      assert shards - {k} == shards;
    }
  }

  datatype Server = Server(quota: int, shards: Shards) {
    ghost predicate WithinQuota() {
      Used(shards) <= quota
    }

    /** The check made before a shard is written: the whole new value must fit beside what is stored. */
    ghost predicate Accepts(data: Bytes) {
      Used(shards) + |data| <= quota
    }

    function With(shardID: string, data: Bytes): Server {
      this.(shards := shards[shardID := data])
    }
  }

  /** `storageUsed`: adds up the bucket, in whatever order it is walked. */
  method StorageUsed(shards: Shards) returns (used: nat)
    ensures used == Used(shards)
  {
    used := 0;
    var left := shards;
    while left != map[]
      invariant used + Used(left) == Used(shards)
      decreases |left|
    {
      var k :| k in left;
      UsedWithout(left, k);
      used := used + |left[k]|;
      left := left - {k};
    }
  }

  class ShardStore {
    const quota: int
    var shards: Shards

    function View(): Server
      reads this
    {
      Server(quota, shards)
    }

    constructor (quota: int)
      ensures View() == Server(quota, map[])
      ensures quota >= 0 ==> View().WithinQuota()
    {
      this.quota, shards := quota, map[];
    }

    /** A node that comes up with what its disk holds. */
    constructor Of(server: Server)
      ensures View() == server
    {
      quota, shards := server.quota, server.shards;
    }

    /** Stores the shard exactly when it fits, and then the node stays within its quota. */
    method HandlePut(shardID: string, data: Bytes) returns (stored: bool)
      modifies this`shards
      ensures stored <==> old(View()).Accepts(data)
      ensures stored <==> Used(old(shards)) + |data| <= quota
      ensures View() == if stored then old(View()).With(shardID, data) else old(View())
      ensures old(View()).WithinQuota() ==> View().WithinQuota()
      ensures stored ==> Used(shards) <= quota
    {
      UsedAfterPut(shards, shardID, data);
      var used := StorageUsed(shards);
      if used + |data| > quota {
        return false;
      }
      shards := shards[shardID := data];
      return true;
    }

    method HandleGet(shardID: string) returns (found: Option<Bytes>)
      ensures found == if shardID in shards then Some(shards[shardID]) else None
    {
      if shardID in shards {
        return Some(shards[shardID]);
      }
      return None;
    }
  }

  // ----- Put, then get

  datatype Request = PutRequest(shardID: string, data: Bytes)

  /** What a new node holds after a run of put requests. */
  ghost function AfterPuts(quota: int, puts: seq<Request>): Server {
    if puts == [] then Server(quota, map[])
    else
      var before, p := AfterPuts(quota, puts[..|puts| - 1]), puts[|puts| - 1];
      if before.Accepts(p.data) then before.With(p.shardID, p.data) else before
  }

  ghost predicate AcceptedAt(quota: int, puts: seq<Request>, n: nat) {
    n < |puts| && AfterPuts(quota, puts[..n]).Accepts(puts[n].data)
  }

  /** Request `n` is the last one accepted for the shard. */
  ghost predicate LastAccepted(quota: int, puts: seq<Request>, shardID: string, n: nat) {
    && AcceptedAt(quota, puts, n) && puts[n].shardID == shardID
    && forall m: nat :: m > n && AcceptedAt(quota, puts, m) ==> puts[m].shardID != shardID
  }

  lemma AcceptedBefore(quota: int, puts: seq<Request>, last: Request, n: nat)
    requires n < |puts|
    ensures AcceptedAt(quota, puts + [last], n) == AcceptedAt(quota, puts, n)
  {
    assert (puts + [last])[..n] == puts[..n];
  }

  lemma AfterOneMore(quota: int, puts: seq<Request>, last: Request)
    ensures var before := AfterPuts(quota, puts);
      && AcceptedAt(quota, puts + [last], |puts|) == before.Accepts(last.data)
      && AfterPuts(quota, puts + [last])
           == if before.Accepts(last.data) then before.With(last.shardID, last.data) else before
  {
    assert (puts + [last])[..|puts|] == puts;
  }

  /** A new node has a shard exactly when some put of it was accepted, and then what the last of these sent,
      whatever else was put, refused or overwritten; and it stays within its quota. */
  lemma {:induction false} LastAcceptedWins(quota: int, puts: seq<Request>, shardID: string)
    ensures shardID in AfterPuts(quota, puts).shards <==> exists n: nat :: LastAccepted(quota, puts, shardID, n)
    ensures forall n: nat :: LastAccepted(quota, puts, shardID, n) ==>
      AfterPuts(quota, puts).shards[shardID] == puts[n].data
    ensures quota >= 0 ==> AfterPuts(quota, puts).WithinQuota()
  {
    if puts != [] {
      var front, last := puts[..|puts| - 1], puts[|puts| - 1];
      assert puts == front + [last];
      LastAcceptedWins(quota, front, shardID);
      AfterOneMore(quota, front, last);
      UsedAfterPut(AfterPuts(quota, front).shards, last.shardID, last.data);
      LastAcceptedStep(quota, front, last, shardID);
    }
  }

  lemma LastAcceptedStep(quota: int, puts: seq<Request>, last: Request, shardID: string)
    ensures var won := AcceptedAt(quota, puts + [last], |puts|) && last.shardID == shardID;
      && (won ==> LastAccepted(quota, puts + [last], shardID, |puts|))
      && forall n: nat :: LastAccepted(quota, puts + [last], shardID, n) <==>
           if won then n == |puts| else LastAccepted(quota, puts, shardID, n)
  {
    var all := puts + [last];
    forall m: nat | m < |puts| ensures AcceptedAt(quota, all, m) == AcceptedAt(quota, puts, m) {
      AcceptedBefore(quota, puts, last, m);
    }
    var won := AcceptedAt(quota, all, |puts|) && last.shardID == shardID;
    forall n: nat
      ensures LastAccepted(quota, all, shardID, n) <==>
        if won then n == |puts| else LastAccepted(quota, puts, shardID, n)
    {
      if LastAccepted(quota, all, shardID, n) && n < |puts| {
        assert !won;
      }
    }
  }

  /** A node's life from empty: it answers a get with the last put it accepted. */
  method PutsThenGet(quota: int, puts: seq<Request>, shardID: string) returns (found: Option<Bytes>)
    ensures found.Some? <==> exists n: nat :: LastAccepted(quota, puts, shardID, n)
    ensures forall n: nat :: LastAccepted(quota, puts, shardID, n) ==> found == Some(puts[n].data)
  {
    var store := new ShardStore(quota);
    for i := 0 to |puts|
      invariant store.View() == AfterPuts(quota, puts[..i])
    {
      assert puts[..i + 1] == puts[..i] + [puts[i]];
      AfterOneMore(quota, puts[..i], puts[i]);
      var _ := store.HandlePut(puts[i].shardID, puts[i].data);
    }
    assert puts[..|puts|] == puts;
    LastAcceptedWins(quota, puts, shardID);
    found := store.HandleGet(shardID);
  }
}
