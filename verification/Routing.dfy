/** The routing table: `RoutingTable` of `internal/dht/dht.go`. */
module Routing {
  import opened Base
  import opened Distance

  const BUCKET_SIZE := 20

  datatype Contact = Contact(id: NodeID, address: string, lastSeen: int)

  // ----- The table as a partial map

  /** The ids that share exactly `p` leading bits with the local one. */
  function Zone(local: NodeID, table: map<NodeID, Contact>, p: nat): set<NodeID> {
    set id | id in table && Prefix(local, id) == p
  }

  /** What `Add` means for the map: never the local id; a known id is replaced; a new one is taken while
      fewer than twenty contacts share its prefix length. */
  predicate Admits(local: NodeID, table: map<NodeID, Contact>, c: Contact) {
    c.id != local && (c.id in table || |Zone(local, table, Prefix(local, c.id))| < BUCKET_SIZE)
  }

  function Added(local: NodeID, table: map<NodeID, Contact>, c: Contact): map<NodeID, Contact> {
    if Admits(local, table, c) then table[c.id := c] else table
  }

  datatype Op = AddContact(c: Contact) | RemoveContact(id: NodeID)

  function RunOps(local: NodeID, ops: seq<Op>): map<NodeID, Contact> {
    if ops == [] then map[]
    else
      var before := RunOps(local, ops[..|ops| - 1]);
      match ops[|ops| - 1]
      case AddContact(c) => Added(local, before, c)
      case RemoveContact(id) => before - {id}
  }

  ghost predicate WellKept(local: NodeID, table: map<NodeID, Contact>) {
    && local !in table
    && (forall id :: id in table ==> table[id].id == id)
    && forall p: nat :: |Zone(local, table, p)| <= 20
  }

  lemma ZoneAfterAdd(local: NodeID, table: map<NodeID, Contact>, c: Contact, p: nat)
    ensures Zone(local, table[c.id := c], p) == Zone(local, table, p) + if Prefix(local, c.id) == p then {c.id} else {}
  {
  }

  /** Every run of additions and removals keeps the table well: no local id, at most twenty contacts a zone. */
  lemma {:induction false} RunsKeepWell(local: NodeID, ops: seq<Op>)
    ensures WellKept(local, RunOps(local, ops))
  {
    if ops == [] {
      forall p: nat ensures |Zone(local, map[], p)| <= BUCKET_SIZE {
        assert Zone(local, map[], p) == {};
      }
    } else {
      var before := RunOps(local, ops[..|ops| - 1]);
      RunsKeepWell(local, ops[..|ops| - 1]);
      match ops[|ops| - 1]
      case AddContact(c) =>
        if Admits(local, before, c) {
          var after := before[c.id := c];
          forall p: nat ensures |Zone(local, after, p)| <= BUCKET_SIZE {
            ZoneAfterAdd(local, before, c, p);
            assert |Zone(local, before, p)| <= BUCKET_SIZE;
            if c.id in before {
              assert Zone(local, after, p) == Zone(local, before, p);
            }
          }
        }
      case RemoveContact(id) =>
        forall p: nat ensures |Zone(local, before - {id}, p)| <= BUCKET_SIZE {
          assert Zone(local, before - {id}, p) <= Zone(local, before, p);
          SubsetSize(Zone(local, before - {id}, p), Zone(local, before, p));
        }
    }
  }

  // ----- Nearest contacts

  function Far(c: Contact, target: NodeID): nat {
    Dist(c.id, target)
  }

  ghost predicate Nearer(list: seq<Contact>, target: NodeID) {
    forall i, j :: 0 <= i < j < |list| ==> Far(list[i], target) < Far(list[j], target)
  }

  /** `r` holds the `count` contacts nearest to the target, nearest first. */
  ghost predicate IsClosest(table: map<NodeID, Contact>, target: NodeID, count: nat, r: seq<Contact>) {
    && |r| == (if |table| < count then |table| else count)
    && (forall i :: 0 <= i < |r| ==> r[i].id in table && table[r[i].id] == r[i])
    && Nearer(r, target)
    && forall id, i :: id in table && table[id] !in r && 0 <= i < |r| ==> Far(r[i], target) < Far(table[id], target)
  }

  /** Only one list is that: the answer depends on the contacts alone, not on how they were added. */
  lemma ClosestUnique(table: map<NodeID, Contact>, target: NodeID, count: nat, a: seq<Contact>, b: seq<Contact>)
    requires forall id :: id in table ==> table[id].id == id
    requires IsClosest(table, target, count, a) && IsClosest(table, target, count, b)
    ensures a == b
  {
    forall i: nat ensures SameThen(a, b, i) {
      if i < |a| && SameBelow(a, b, i) {
        SameNext(table, target, count, a, b, i);
      }
    }
    SameByStep(a, b, |a|);
  }

  predicate SameBelow(a: seq<Contact>, b: seq<Contact>, n: nat) {
    n <= |a| == |b| && forall j :: 0 <= j < n ==> a[j] == b[j]
  }

  /** If the lists agree below `i`, they agree at `i`. */
  predicate SameThen(a: seq<Contact>, b: seq<Contact>, i: nat) {
    i < |a| && SameBelow(a, b, i) ==> i < |b| && a[i] == b[i]
  }

  lemma {:induction false} SameByStep(a: seq<Contact>, b: seq<Contact>, n: nat)
    requires n <= |a| == |b| && forall i: nat :: SameThen(a, b, i)
    ensures SameBelow(a, b, n)
  {
    if n > 0 {
      SameByStep(a, b, n - 1);
      assert SameThen(a, b, n - 1);
    }
  }

  lemma SameNext(table: map<NodeID, Contact>, target: NodeID, count: nat, a: seq<Contact>, b: seq<Contact>, i: nat)
    requires forall id :: id in table ==> table[id].id == id
    requires IsClosest(table, target, count, a) && IsClosest(table, target, count, b)
    requires i < |a| && SameBelow(a, b, i)
    ensures a[i] == b[i]
  {
    SameAt(table, target, count, a, b, i);
    SameAt(table, target, count, b, a, i);
    DistInjective(target, a[i].id, b[i].id);
  }

  lemma SameAt(table: map<NodeID, Contact>, target: NodeID, count: nat, a: seq<Contact>, b: seq<Contact>, i: nat)
    requires forall id :: id in table ==> table[id].id == id
    requires IsClosest(table, target, count, a) && IsClosest(table, target, count, b)
    requires i < |a| && forall j :: 0 <= j < i ==> a[j] == b[j]
    ensures Far(b[i], target) <= Far(a[i], target)
  {
    if a[i] in b {
      var j :| 0 <= j < |b| && b[j] == a[i];
      NotEarlier(a, b, target, i, j);
    } else {
      assert table[a[i].id] == a[i];
    }
  }

  lemma NotEarlier(a: seq<Contact>, b: seq<Contact>, target: NodeID, i: nat, j: nat)
    requires Nearer(a, target) && Nearer(b, target) && i < |a| && j < |b| && i < |b|
    requires b[j] == a[i] && forall k :: 0 <= k < i ==> a[k] == b[k]
    ensures Far(b[i], target) <= Far(a[i], target)
  {
    assert i <= j;
  }

  // ----- The buckets

  ghost predicate Distinct(list: seq<Contact>) {
    forall i, j :: 0 <= i < j < |list| ==> list[i].id != list[j].id
  }

  /** Bucket `p` lists exactly the contacts of the map in zone `p`, each once. */
  ghost predicate BucketOf(local: NodeID, table: map<NodeID, Contact>, p: nat, list: seq<Contact>) {
    && Distinct(list)
    && (forall i :: 0 <= i < |list| ==>
      list[i].id in table && table[list[i].id] == list[i] && Prefix(local, list[i].id) == p)
    && forall id :: id in table && Prefix(local, id) == p ==> table[id].id == id && table[id] in list
  }

  ghost function IDsOf(list: seq<Contact>): set<NodeID> {
    set c | c in list :: c.id
  }

  lemma {:induction false} DistinctSize(list: seq<Contact>)
    requires Distinct(list)
    ensures |IDsOf(list)| == |list|
  {
    if list != [] {
      var n := |list| - 1;
      DistinctSize(list[..n]);
      assert list == list[..n] + [list[n]];
      assert IDsOf(list) == IDsOf(list[..n]) + {list[n].id};
      assert list[n].id !in IDsOf(list[..n]);
    }
  }

  lemma BucketFillsZone(local: NodeID, table: map<NodeID, Contact>, p: nat, list: seq<Contact>)
    requires BucketOf(local, table, p, list)
    ensures |Zone(local, table, p)| == |list|
  {
    DistinctSize(list);
    assert IDsOf(list) == Zone(local, table, p);
  }

  /** The maps differ at most in `id`. */
  ghost predicate SameBut(table: map<NodeID, Contact>, table': map<NodeID, Contact>, id: NodeID) {
    forall x :: x != id ==> (x in table <==> x in table') && (x in table ==> table'[x] == table[x])
  }

  lemma OneChange(table: map<NodeID, Contact>, id: NodeID, c: Contact)
    ensures SameBut(table, table[id := c], id) && SameBut(table, table - {id}, id)
  {
  }

  /** Changing one contact leaves the buckets of other zones right. */
  lemma OtherBucket(local: NodeID, table: map<NodeID, Contact>, table': map<NodeID, Contact>, p: nat,
                    list: seq<Contact>, id: NodeID)
    requires BucketOf(local, table, p, list) && Prefix(local, id) != p
    requires SameBut(table, table', id)
    ensures BucketOf(local, table', p, list)
  {
  }

  lemma BucketReplaced(local: NodeID, table: map<NodeID, Contact>, p: nat, list: seq<Contact>, c: Contact, i: nat)
    requires BucketOf(local, table, p, list) && Prefix(local, c.id) == p && i < |list| && list[i].id == c.id
    ensures BucketOf(local, table[c.id := c], p, list[i := c])
  {
    var list' := list[i := c];
    forall id | id in table[c.id := c] && Prefix(local, id) == p
      ensures table[c.id := c][id].id == id && table[c.id := c][id] in list'
    {
      if id == c.id {
        assert list'[i] == c;
      } else {
        var j :| 0 <= j < |list| && list[j] == table[id];
        assert list'[j] == table[id];
      }
    }
  }

  lemma BucketAppended(local: NodeID, table: map<NodeID, Contact>, p: nat, list: seq<Contact>, c: Contact)
    requires BucketOf(local, table, p, list) && Prefix(local, c.id) == p
    requires forall i :: 0 <= i < |list| ==> list[i].id != c.id
    ensures c.id !in table
    ensures BucketOf(local, table[c.id := c], p, list + [c])
  {
    assert c.id !in table;
    forall id | id in table[c.id := c] && Prefix(local, id) == p
      ensures table[c.id := c][id].id == id && table[c.id := c][id] in list + [c]
    {
      if id != c.id {
        assert table[id] in list;
      } else {
        assert (list + [c])[|list|] == c;
      }
    }
  }

  lemma BucketShortened(local: NodeID, table: map<NodeID, Contact>, p: nat, list: seq<Contact>, i: nat)
    requires BucketOf(local, table, p, list) && i < |list|
    ensures BucketOf(local, table - {list[i].id}, p, list[..i] + list[i + 1..])
  {
    var id, rest := list[i].id, list[..i] + list[i + 1..];
    WithoutOne(list, i);
    forall x | x in table - {id} && Prefix(local, x) == p ensures table[x].id == x && table[x] in rest {
      assert table[x] in list && table[x] != list[i];
    }
  }

  lemma WithoutOne(list: seq<Contact>, i: nat)
    requires Distinct(list) && i < |list|
    ensures var rest := list[..i] + list[i + 1..];
      && Distinct(rest)
      && (forall j :: 0 <= j < |rest| ==> rest[j] in list && rest[j].id != list[i].id)
      && forall c :: c in list && c != list[i] ==> c in rest
  {
    var rest := list[..i] + list[i + 1..];
    forall j | 0 <= j < |rest| ensures rest[j] in list && rest[j].id != list[i].id {
      assert rest[j] == list[if j < i then j else j + 1];
    }
    forall c | c in list && c != list[i] ensures c in rest {
      var j :| 0 <= j < |list| && list[j] == c;
      assert rest[if j < i then j else j - 1] == c;
    }
  }

  /** The contacts of zones below `n`, each once. */
  ghost predicate CollectedBelow(local: NodeID, table: map<NodeID, Contact>, n: nat, all: seq<Contact>) {
    && Distinct(all)
    && (forall i :: 0 <= i < |all| ==> all[i].id in table && table[all[i].id] == all[i] && Prefix(local, all[i].id) < n)
    && forall id :: id in table && Prefix(local, id) < n ==> table[id].id == id && table[id] in all
  }

  lemma CollectMore(local: NodeID, table: map<NodeID, Contact>, n: nat, all: seq<Contact>, list: seq<Contact>)
    requires CollectedBelow(local, table, n, all) && BucketOf(local, table, n, list)
    ensures CollectedBelow(local, table, n + 1, all + list)
  {
    forall id | id in table && Prefix(local, id) < n + 1 ensures table[id].id == id && table[id] in all + list {
      if Prefix(local, id) < n {
        assert table[id] in all;
      } else {
        assert table[id] in list;
      }
    }
  }

  // ----- Sorting

  /** Where `c` belongs in a sorted list that does not hold its id. */
  method Slot(r: seq<Contact>, c: Contact, target: NodeID) returns (i: nat)
    requires Nearer(r, target) && forall j :: 0 <= j < |r| ==> r[j].id != c.id
    ensures i <= |r| && SlotAt(r, c, i, target)
  {
    i := 0;
    while i < |r| && BytesLess(Xor(r[i].id, target), Xor(c.id, target), 0)
      invariant i <= |r|
      invariant forall j :: 0 <= j < i ==> Far(r[j], target) < Far(c, target)
    {
      BytesLessIsNumeric(Xor(r[i].id, target), Xor(c.id, target));
      i := i + 1;
    }
    if i < |r| {
      NotLessIsFarther(r[i], c, target);
    }
  }

  lemma NotLessIsFarther(a: Contact, c: Contact, target: NodeID)
    requires !BytesLess(Xor(a.id, target), Xor(c.id, target), 0) && a.id != c.id
    ensures Far(c, target) < Far(a, target)
  {
    BytesLessIsNumeric(Xor(a.id, target), Xor(c.id, target));
    if Far(a, target) == Far(c, target) {
      DistInjective(target, a.id, c.id);
    }
  }

  ghost predicate SlotAt(r: seq<Contact>, c: Contact, i: nat, target: NodeID) {
    && (forall j :: 0 <= j < i && j < |r| ==> Far(r[j], target) < Far(c, target))
    && (i < |r| ==> Far(c, target) < Far(r[i], target))
  }

  /** `sort.Slice` with the comparison of `FindClosest`, for contacts with distinct ids. */
  method SortByDistance(all: seq<Contact>, target: NodeID) returns (r: seq<Contact>)
    requires Distinct(all)
    ensures |r| == |all| && Nearer(r, target) && SameContacts(r, all)
  {
    r := [];
    for n := 0 to |all|
      invariant |r| == n && Nearer(r, target) && SameContacts(r, all[..n])
    {
      NewContact(r, all, n);
      var i := Slot(r, all[n], target);
      InsertNearer(r, all[n], i, target);
      InsertSame(r, all[n], i, all, n);
      r := r[..i] + [all[n]] + r[i..];
    }
    assert all[..|all|] == all;
  }

  ghost predicate SameContacts(a: seq<Contact>, b: seq<Contact>) {
    forall c :: c in a <==> c in b
  }

  lemma NewContact(r: seq<Contact>, all: seq<Contact>, n: nat)
    requires Distinct(all) && n < |all| && SameContacts(r, all[..n])
    ensures forall j :: 0 <= j < |r| ==> r[j].id != all[n].id
  {
    forall j | 0 <= j < |r| ensures r[j].id != all[n].id {
      assert r[j] in all[..n];
    }
  }

  lemma InsertSame(r: seq<Contact>, c: Contact, i: nat, all: seq<Contact>, n: nat)
    requires n < |all| && i <= |r| && c == all[n] && SameContacts(r, all[..n])
    ensures SameContacts(r[..i] + [c] + r[i..], all[..n + 1])
  {
    assert all[..n + 1] == all[..n] + [c];
    assert r == r[..i] + r[i..];
  }

  lemma InsertNearer(r: seq<Contact>, c: Contact, i: nat, target: NodeID)
    requires Nearer(r, target) && i <= |r| && SlotAt(r, c, i, target)
    ensures Nearer(r[..i] + [c] + r[i..], target)
  {
    var s := r[..i] + [c] + r[i..];
    forall j, k | 0 <= j < k < |s| ensures Far(s[j], target) < Far(s[k], target) {
      assert s[j] == if j < i then r[j] else if j == i then c else r[j - 1];
      assert s[k] == if k < i then r[k] else if k == i then c else r[k - 1];
    }
  }

  lemma CollectedAll(local: NodeID, table: map<NodeID, Contact>, all: seq<Contact>)
    requires CollectedBelow(local, table, ID_BITS, all) && forall id :: id in table ==> Prefix(local, id) < ID_BITS
    ensures |table| == |all|
    ensures forall id :: id in table ==> table[id].id == id && table[id] in all
    ensures forall c :: c in all ==> c.id in table && table[c.id] == c
  {
    DistinctSize(all);
    assert IDsOf(all) == table.Keys;
  }

  lemma FirstAreClosest(table: map<NodeID, Contact>, target: NodeID, count: nat, sorted: seq<Contact>, r: seq<Contact>)
    requires |sorted| == |table| && Nearer(sorted, target)
    requires forall id :: id in table ==> table[id] in sorted
    requires forall c :: c in sorted ==> c.id in table && table[c.id] == c
    requires r == if |sorted| > count then sorted[..count] else sorted
    ensures IsClosest(table, target, count, r)
  {
    forall i | 0 <= i < |r| ensures r[i].id in table && table[r[i].id] == r[i] {
      assert sorted[i] in sorted;
    }
    forall id, i | id in table && table[id] !in r && 0 <= i < |r| ensures Far(r[i], target) < Far(table[id], target) {
      OmittedIsFarther(target, sorted, r, table[id], i);
    }
  }

  lemma OmittedIsFarther(target: NodeID, sorted: seq<Contact>, r: seq<Contact>, c: Contact, i: nat)
    requires Nearer(sorted, target) && r <= sorted && c in sorted && c !in r && i < |r|
    ensures Far(r[i], target) < Far(c, target)
  {
    var j :| 0 <= j < |sorted| && sorted[j] == c;
    assert forall k :: 0 <= k < |r| ==> r[k] == sorted[k] && r[k] in r;
  }

  /** What the scan of its bucket says of a new contact, found at `i` or not at all. */
  lemma AddDecides(local: NodeID, table: map<NodeID, Contact>, p: nat, list: seq<Contact>, c: Contact, i: nat)
    requires BucketOf(local, table, p, list) && c.id != local && Prefix(local, c.id) == p && i <= |list|
    requires (i < |list| ==> list[i].id == c.id) && forall j :: 0 <= j < i ==> list[j].id != c.id
    ensures Admits(local, table, c) <==> i < |list| || |list| < BUCKET_SIZE
    ensures i < |list| ==> BucketOf(local, table[c.id := c], p, list[i := c])
    ensures i == |list| ==> c.id !in table && BucketOf(local, table[c.id := c], p, list + [c])
  {
    BucketFillsZone(local, table, p, list);
    if i < |list| {
      BucketReplaced(local, table, p, list, c, i);
    } else {
      BucketAppended(local, table, p, list, c);
    }
  }

  /** The full prefix, which only the local id has, falls into the last bucket. */
  function BucketIndex(prefix: nat): nat {
    if prefix >= ID_BITS then ID_BITS - 1 else prefix
  }

  /** The scan of a bucket for an id: its position, or the length if it is absent. */
  method Search(list: seq<Contact>, id: NodeID) returns (i: nat)
    ensures i <= |list| && (i < |list| ==> list[i].id == id)
    ensures forall j :: 0 <= j < i ==> list[j].id != id
  {
    i := 0;
    while i < |list| && list[i].id != id
      invariant i <= |list|
      invariant forall j :: 0 <= j < i ==> list[j].id != id
    {
      i := i + 1;
    }
  }

  // ----- The class

  class RoutingTable {
    const local: NodeID
    const buckets: array<seq<Contact>>
    ghost var table: map<NodeID, Contact>

    ghost predicate Valid()
      reads this, buckets
    {
      && buckets.Length == ID_BITS
      && (forall p: nat :: BucketAt(p))
      && forall id :: id in table ==> Prefix(local, id) < ID_BITS
    }

    ghost predicate BucketAt(p: nat)
      reads this, buckets
    {
      p < buckets.Length ==> BucketOf(local, table, p, buckets[p]) && |buckets[p]| <= BUCKET_SIZE
    }

    constructor (local: NodeID)
      ensures Valid() && this.local == local && table == map[] && fresh(buckets)
    {
      this.local := local;
      buckets := new seq<Contact>[ID_BITS](_ => []);
      table := map[];
    }

    /** True exactly when the contact is in the table afterwards; the table changes as the map does. */
    method Add(c: Contact) returns (ok: bool)
      requires Valid()
      modifies this`table, buckets
      ensures Valid()
      ensures table == Added(local, old(table), c)
      ensures ok <==> Admits(local, old(table), c)
      ensures ok <==> c.id in table && table[c.id] == c
      ensures ok <==>
        && c.id != local
        && (c.id in old(table) || |set id | id in old(table) && Prefix(local, id) == Prefix(local, c.id)| < 20)
      ensures table == if ok then old(table)[c.id := c] else old(table)
    {
      assert Zone(local, table, Prefix(local, c.id))
          == set id | id in table && Prefix(local, id) == Prefix(local, c.id);
      PrefixUnique(local, c.id, Prefix(local, c.id));
      if c.id == local {
        PrefixUnique(local, local, ID_BITS);
        return false;
      }
      DistRange(local, c.id);
      var prefix := PrefixLen(local, c.id);
      var bucketIdx := BucketIndex(prefix);
      var b := buckets[bucketIdx];
      assert BucketAt(bucketIdx);
      var i := Search(b, c.id);
      AddDecides(local, table, bucketIdx, b, c, i);
      OneChange(table, c.id, c);
      if i < |b| {
        Update(bucketIdx, b[i := c], c.id, table[c.id := c]);
        return true;
      }
      if |b| < BUCKET_SIZE {
        Update(bucketIdx, b + [c], c.id, table[c.id := c]);
        return true;
      }
      return false;
    }

    method Remove(id: NodeID)
      requires Valid()
      modifies this`table, buckets
      ensures Valid()
      ensures table == old(table) - {id}
    {
      PrefixUnique(local, id, Prefix(local, id));
      var prefix := PrefixLen(local, id);
      var bucketIdx := BucketIndex(prefix);
      var b := buckets[bucketIdx];
      assert BucketAt(bucketIdx);
      var i := Search(b, id);
      if i < |b| {
        BucketShortened(local, table, bucketIdx, b, i);
        OneChange(table, id, b[i]);
        Update(bucketIdx, b[..i] + b[i + 1..], id, table - {id});
        return;
      }
      assert id !in table;
    }

    /** Writes one bucket back, with the map following. */
    method Update(p: nat, list: seq<Contact>, ghost id: NodeID, ghost table': map<NodeID, Contact>)
      requires Valid() && p < buckets.Length && Prefix(local, id) == p
      requires BucketOf(local, table', p, list) && |list| <= BUCKET_SIZE
      requires SameBut(table, table', id)
      modifies this`table, buckets
      ensures Valid() && table == table'
    {
      ghost var before := table;
      ghost var lists := buckets[..];
      buckets[p] := list;
      table := table';
      forall q: nat ensures BucketAt(q) {
        assert old(BucketAt(q));
        if q != p && q < buckets.Length {
          OtherBucket(local, before, table', q, lists[q], id);
        }
      }
    }

    /** The nearest `count` contacts, nearest first. */
    method FindClosest(target: NodeID, count: nat) returns (r: seq<Contact>)
      requires Valid()
      ensures IsClosest(table, target, count, r)
    {
      var all: seq<Contact> := [];
      for p := 0 to buckets.Length
        invariant CollectedBelow(local, table, p, all)
      {
        assert BucketAt(p);
        CollectMore(local, table, p, all, buckets[p]);
        all := all + buckets[p];
      }
      var sorted := SortByDistance(all, target);
      CollectedAll(local, table, all);
      assert forall c :: c in sorted <==> c in all;
      r := if |sorted| > count then sorted[..count] else sorted;
      FirstAreClosest(table, target, count, sorted, r);
    }
  }

  /** Any run of additions and removals on a new table: the buckets follow the map step by step. */
  method Replay(local: NodeID, ops: seq<Op>) returns (rt: RoutingTable)
    ensures fresh(rt) && fresh(rt.buckets) && rt.Valid() && rt.local == local
    ensures rt.table == RunOps(local, ops) && WellKept(local, rt.table)
  {
    rt := new RoutingTable(local);
    for i := 0 to |ops|
      invariant fresh(rt) && fresh(rt.buckets) && rt.Valid() && rt.local == local
      invariant rt.table == RunOps(local, ops[..i])
    {
      assert ops[..i + 1][..i] == ops[..i];
      match ops[i] {
        case AddContact(c) =>
          var _ := rt.Add(c);
        case RemoveContact(id) =>
          rt.Remove(id);
      }
    }
    assert ops[..|ops|] == ops;
    RunsKeepWell(local, ops);
  }
}
