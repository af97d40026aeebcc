/** The library interfaces of this model can be met: one concrete instance of each. */
module Instances {
  import opened Base
  import opened Cluster
  import opened Tracker
  import opened Storage
  import ReedSolomon

  /** Marks a ciphertext with a leading byte and hides nothing. */
  function MarkingCipher(): Cipher {
    Cipher((plain: Bytes, nonce: Bytes) => [1] + plain,
           (stored: Bytes) => if stored != [] && stored[0] == 1 then Some(stored[1..]) else None)
  }

  lemma MarkingCipherIsLawful()
    ensures MarkingCipher().Lawful()
  {
    forall plain: Bytes, nonce: Bytes
      ensures MarkingCipher().Opens(plain, nonce)
    {
      var one: Bytes := [1];
      assert (one + plain)[1..] == plain;
    }
  }

  ghost function SomeSetup(): Setup {
    Setup(ReedSolomon.ReedSolomonCode(4, 4), MarkingCipher())
  }

  lemma SomeSetupIsLawful()
    ensures SomeSetup().Lawful()
  {
    ReedSolomon.ReedSolomonIsLawful(4, 4);
    MarkingCipherIsLawful();
  }

  /** Insertion sort by free space, the most first. */
  function Sorted(list: seq<NodeMetadata>): seq<NodeMetadata> {
    if list == [] then [] else Insert(list[0], Sorted(list[1..]))
  }

  function Insert(n: NodeMetadata, list: seq<NodeMetadata>): seq<NodeMetadata> {
    if list == [] || FreeSpace(n) >= FreeSpace(list[0]) then [n] + list else [list[0]] + Insert(n, list[1..])
  }

  lemma HeadAndTail(list: seq<NodeMetadata>)
    requires list != []
    ensures multiset(list) == multiset(list[1..]) + multiset{list[0]}
  {
    assert list == [list[0]] + list[1..];
  }

  lemma {:induction false} InsertContents(n: NodeMetadata, list: seq<NodeMetadata>)
    ensures multiset(Insert(n, list)) == multiset(list) + multiset{n}
  {
    if list != [] && FreeSpace(n) < FreeSpace(list[0]) {
      HeadAndTail(list);
      InsertContents(n, list[1..]);
      HeadAndTail(Insert(n, list));
    }
  }

  /** `Insert` leaves no more free space behind a bound than there was. */
  lemma {:induction false} InsertBelow(n: NodeMetadata, list: seq<NodeMetadata>, top: int)
    requires FreeSpace(n) <= top && forall i :: 0 <= i < |list| ==> FreeSpace(list[i]) <= top
    ensures forall i :: 0 <= i < |Insert(n, list)| ==> FreeSpace(Insert(n, list)[i]) <= top
  {
    if list != [] && FreeSpace(n) < FreeSpace(list[0]) {
      InsertBelow(n, list[1..], top);
    }
  }

  lemma {:induction false} InsertDescends(n: NodeMetadata, list: seq<NodeMetadata>)
    requires Descending(list)
    ensures Descending(Insert(n, list))
  {
    if list != [] && FreeSpace(n) < FreeSpace(list[0]) {
      InsertDescends(n, list[1..]);
      InsertBelow(n, list[1..], FreeSpace(list[0]));
    }
  }

  lemma {:induction false} SortedContents(list: seq<NodeMetadata>)
    ensures multiset(Sorted(list)) == multiset(list)
  {
    if list != [] {
      SortedContents(list[1..]);
      InsertContents(list[0], Sorted(list[1..]));
      HeadAndTail(list);
    }
  }

  lemma {:induction false} SortedDescends(list: seq<NodeMetadata>)
    ensures Descending(Sorted(list))
  {
    if list != [] {
      SortedDescends(list[1..]);
      InsertDescends(list[0], Sorted(list[1..]));
    }
  }

  lemma SortedIsLawful()
    ensures LawfulSorter(Sorted)
  {
    forall list
      ensures Sorts(Sorted, list)
    {
      SortedContents(list);
      SortedDescends(list);
    }
  }

  // ----- Others

  /** The disk at an address is gone by the second call, if only nodes of `lost` are there. */
  function DiskLost(address: string, lost: set<string>, online: set<string>): Environment {
    Environment((n: nat, w: World) =>
                  if n > 0 && OnlyLostAt(w, address, lost) then Apply(w, LoseServer(address)) else w,
                (n: nat) => Air(online, online, Answered), (n: nat) => Some([]))
  }

  predicate OnlyLostAt(w: World, address: string, lost: set<string>) {
    address in w.servers && forall id :: id in w.nodes && w.nodes[id].address == address ==> id in lost
  }

  /** Everything an upload or a repair may rely on holds of others who wipe a disk. */
  lemma DiskLostIsLawful(s: Setup, address: string, lost: set<string>, online: set<string>)
    requires address !in online
    ensures var env := DiskLost(address, lost, online);
      env.Lawful(s) && env.LeavesTracker() && env.Spares(s, lost) && env.IsSteady(s, Steady(online, online))
  {
    var env := DiskLost(address, lost, online);
    forall n: nat, w: World
      ensures env.RunsAt(s, n, w) && env.SparesTables(n, w)
      ensures env.SparesNodes(s, n, w, lost) && env.SteadyAt(s, n, w, Steady(online, online))
    {
      ReachesItself(s, w);
      if n > 0 && OnlyLostAt(w, address, lost) {
        ReachesNext(s, w, w, LoseServer(address));
        WipedSpares(s, w, address, lost, online);
      } else {
        WentItself(s, Some(lost), w);
      }
    }
  }

  lemma WipedSpares(s: Setup, w: World, address: string, lost: set<string>, online: set<string>)
    requires address !in online && OnlyLostAt(w, address, lost)
    ensures var w' := Apply(w, LoseServer(address));
      NodesKept(s, lost, w, w') && KeptOn(s, online, w.servers, w'.servers)
  {
    var w' := Apply(w, LoseServer(address));
    forall addr, id | addr != address ensures CopyKept(s, w.servers, w'.servers, addr, id) {
    }
    forall id | id !in lost ensures NodeKept(s, w, w', id) {
    }
  }
}
