/** The label table: a chained hash table that doubles when it is more than three quarters full.
    It refines a finite map in which the first value inserted for a key stays, for every hash
    function. */
module LabelTable {
  import opened Words
  import opened Syntax
  import opened Buckets

  const DEFAULT_CAPACITY: nat := 16

  /** What the proof knows about the buckets: each one's chain and entries, and to which bucket
      each allocated node belongs. */
  datatype Table = Table(chains: seq<seq<Addr>>, pairs: seq<seq<Pair>>, owner: seq<nat>)

  function Slot(hash: string -> nat, capacity: nat, k: string): nat
    requires capacity > 0
  {
    hash(k) % capacity
  }

  ghost predicate Owned(c: seq<Addr>, owner: seq<nat>, i: nat) {
    forall j :: 0 <= j < |c| ==> c[j] < |owner| && owner[c[j]] == i
  }

  ghost predicate Hashed(pairs: seq<Pair>, hash: string -> nat, capacity: nat, i: nat)
    requires capacity > 0
  {
    forall j :: 0 <= j < |pairs| ==> Slot(hash, capacity, pairs[j].0) == i
  }

  ghost predicate BucketOk(store: Store, t: Table, hash: string -> nat, i: nat)
    requires i < |t.chains| == |t.pairs|
  {
    && ChainOk(store, t.chains[i], t.pairs[i], i)
    && Owned(t.chains[i], t.owner, i)
    && Hashed(t.pairs[i], hash, |t.chains|, i)
  }

  /** Every bucket's chain is in order and no node is in two of them. */
  ghost predicate TableOk(store: Store, t: Table, hash: string -> nat, capacity: nat) {
    && 0 < capacity == |t.chains| == |t.pairs| <= |store| == |t.owner|
    && forall i :: 0 <= i < capacity ==> BucketOk(store, t, hash, i)
  }

  function Find(pairs: seq<seq<Pair>>, hash: string -> nat, k: string): Option<nat>
    requires pairs != []
  {
    Lookup(pairs[Slot(hash, |pairs|, k)], k)
  }

  function Entry(m: map<string, nat>, k: string): Option<nat> { if k in m then Some(m[k]) else None }

  /** Looking up in the buckets is looking up in the map. */
  ghost predicate Maps(pairs: seq<seq<Pair>>, hash: string -> nat, m: map<string, nat>)
    requires pairs != []
  {
    forall k :: Find(pairs, hash, k) == Entry(m, k)
  }

  /** The capacities growth can reach. */
  ghost predicate PowerCapacity(capacity: nat) { exists e: nat :: capacity == DEFAULT_CAPACITY * Pow2(e) }

  // ---------- changing one bucket ----------

  ghost predicate Elsewhere(store: Store, store': Store, t: Table, i: nat) {
    && |store| <= |store'| && |t.owner| == |store|
    && forall a :: 0 <= a < |store| && t.owner[a] != i ==> store'[a] == store[a]
  }

  ghost predicate Extends(owner: seq<nat>, owner': seq<nat>) {
    |owner| <= |owner'| && forall a :: 0 <= a < |owner| ==> owner'[a] == owner[a]
  }

  lemma UpdateBucket(store: Store, store': Store, t: Table, hash: string -> nat, capacity: nat, i: nat,
                     c: seq<Addr>, ps: seq<Pair>, owner: seq<nat>)
    requires TableOk(store, t, hash, capacity) && i < capacity
    requires Elsewhere(store, store', t, i) && Extends(t.owner, owner) && |owner| == |store'|
    requires ChainOk(store', c, ps, i) && Owned(c, owner, i) && Hashed(ps, hash, capacity, i)
    ensures TableOk(store', Table(t.chains[i := c], t.pairs[i := ps], owner), hash, capacity)
  {
    var t' := Table(t.chains[i := c], t.pairs[i := ps], owner);
    forall n | 0 <= n < capacity
      ensures BucketOk(store', t', hash, n)
    {
      if n != i {
        OtherBucket(store, store', t, hash, capacity, i, n, owner);
        hide ChainOk, Owned, Hashed;
      }
    }
  }

  lemma OtherBucket(store: Store, store': Store, t: Table, hash: string -> nat, capacity: nat, i: nat, n: nat,
                    owner: seq<nat>)
    requires TableOk(store, t, hash, capacity) && i < capacity && n < capacity && n != i
    requires Elsewhere(store, store', t, i) && Extends(t.owner, owner)
    ensures ChainOk(store', t.chains[n], t.pairs[n], n) && Owned(t.chains[n], owner, n)
    ensures Hashed(t.pairs[n], hash, capacity, n)
  {
    assert BucketOk(store, t, hash, n);
    hide ChainOk;
    var c := t.chains[n];
    StoredOf(store, c, t.pairs[n], n);
    forall j | 0 <= j < |c|
      ensures c[j] < |store'| && store'[c[j]] == store[c[j]]
    {
      assert t.owner[c[j]] == n;
    }
    ChainFrame(store, store', c, t.pairs[n], n);
  }

  lemma StoredOf(store: Store, c: seq<Addr>, ps: seq<Pair>, head: Addr)
    requires ChainOk(store, c, ps, head)
    ensures forall j :: 0 <= j < |c| ==> c[j] < |store|
  {
  }

  /** A new entry at the end of its key's bucket extends the map. */
  lemma MapsInsert(pairs: seq<seq<Pair>>, hash: string -> nat, m: map<string, nat>, k: string, v: nat)
    requires pairs != [] && Maps(pairs, hash, m) && k !in m
    ensures Maps(pairs[Slot(hash, |pairs|, k) := pairs[Slot(hash, |pairs|, k)] + [(k, v)]], hash, m[k := v])
  {
    var i := Slot(hash, |pairs|, k);
    var pairs' := pairs[i := pairs[i] + [(k, v)]];
    forall q
      ensures Find(pairs', hash, q) == Entry(m[k := v], q)
    {
      assert Find(pairs, hash, q) == Entry(m, q);
      LookupConcat(pairs[i], [(k, v)], q);
    }
  }

  /** Removing a key's entry from its bucket removes the key. */
  lemma MapsRemove(pairs: seq<seq<Pair>>, hash: string -> nat, m: map<string, nat>, k: string, j: nat)
    requires pairs != [] && Maps(pairs, hash, m)
    requires var i := Slot(hash, |pairs|, k); NoDuplicates(pairs[i]) && j < |pairs[i]| && pairs[i][j].0 == k
    ensures var i := Slot(hash, |pairs|, k); Maps(pairs[i := Without(pairs[i], j)], hash, m - {k})
  {
    var i := Slot(hash, |pairs|, k);
    var pairs' := pairs[i := Without(pairs[i], j)];
    forall q
      ensures Find(pairs', hash, q) == Entry(m - {k}, q)
    {
      assert Find(pairs, hash, q) == Entry(m, q);
      LookupWithout(pairs[i], j, q);
    }
  }

  // ---------- the map object ----------

  class LabelMap {
    const hash: string -> nat
    var capacity: nat
    var len: nat
    var store: Store
    ghost var table: Table
    /** The finite map this object implements. */
    ghost var contents: map<string, nat>

    ghost predicate Valid()
      reads this
    {
      && TableOk(store, table, hash, capacity)
      && Maps(table.pairs, hash, contents)
      && PowerCapacity(capacity)
      && |contents| <= len <= capacity / 4 * 3 + 1
    }

    /** The entry count is exact until something is removed. */
    ghost predicate Exact()
      reads this
    {
      len == |contents|
    }

    /** `new_map_with_capacity` */
    constructor WithCapacity(hash: string -> nat, capacity: nat)
      requires PowerCapacity(capacity) && capacity > 0
      ensures Valid() && Exact() && contents == map[] && len == 0
      ensures this.hash == hash && this.capacity == capacity
    {
      this.hash, this.capacity, len := hash, capacity, 0;
      store := seq(capacity, _ => Node(None, 0, None, None));
      table := Table(seq(capacity, i => [i]), seq(capacity, i => []), seq(capacity, i => i));
      contents := map[];
      new;
      EmptyTable(store, table, hash, capacity);
    }

    /** `get_bucket` */
    method GetBucket(head: Addr, k: string) returns (r: Option<nat>)
      requires TableOk(store, table, hash, capacity) && head < capacity
      ensures r == Lookup(table.pairs[head], k)
    {
      hide TableOk, ChainOk, Owned, Hashed, Searched, Absent, BucketOk, Lookup, Without;
      ChainStart(store, table, hash, capacity, head);
      var bucket := head;
      ghost var c, ps := table.chains[head], table.pairs[head];
      ghost var j := 0;
      while true
        invariant ChainOk(store, c, ps, head) && j < |c| && c[j] == bucket && bucket < |store|
        invariant Searched(ps, j, k)
        decreases |c| - j
      {
        ChainStep(store, c, ps, head, j, k);
        if store[bucket].key == None {
          return None;
        }
        if store[bucket].key == Some(k) {
          return Some(store[bucket].value);
        }
        if store[bucket].next == None {
          return None;
        }
        bucket := store[bucket].next.value;
        j := j + 1;
      }
    }

    /** `insert_bucket`: a key that is already there keeps its value. */
    method InsertBucket(head: Addr, k: string, v: nat) returns (inserted: bool)
      requires TableOk(store, table, hash, capacity) && head < capacity && head == Slot(hash, capacity, k)
      modifies `store, `table
      ensures TableOk(store, table, hash, capacity)
      ensures inserted == Lookup(old(table.pairs[head]), k).None?
      ensures table.pairs ==
        if inserted then old(table.pairs)[head := old(table.pairs[head]) + [(k, v)]] else old(table.pairs)
    {
      hide TableOk, ChainOk, Owned, Hashed, Searched, Absent, BucketOk, Lookup, Without;
      ChainStart(store, table, hash, capacity, head);
      var bucket := head;
      ghost var c, ps := table.chains[head], table.pairs[head];
      ghost var j := 0;
      while true
        invariant ChainOk(store, c, ps, head) && j < |c| && c[j] == bucket && bucket < |store|
        invariant Searched(ps, j, k)
        invariant store == old(store) && table == old(table)
        decreases |c| - j
      {
        ChainStep(store, c, ps, head, j, k);
        if store[bucket].key == None {
          FillTable(store, table, hash, capacity, k, v);
          store := store[bucket := store[bucket].(key := Some(k), value := v)];
          table := table.(pairs := table.pairs[head := ps + [(k, v)]]);
          return true;
        }
        if store[bucket].key == Some(k) {
          return false;
        }
        if store[bucket].next == None {
          AppendTable(store, table, hash, capacity, k, v);
          var node := |store|;
          store := store[bucket := store[bucket].(next := Some(node))] + [Node(Some(k), v, Some(bucket), None)];
          table := Table(table.chains[head := c + [node]], table.pairs[head := ps + [(k, v)]], table.owner + [head]);
          return true;
        }
        bucket := store[bucket].next.value;
        j := j + 1;
      }
    }

    /** `remove_bucket`: a head is emptied or takes over its successor's entry; any other node is
        bypassed. */
    method RemoveBucket(head: Addr, k: string) returns (removed: bool, ghost at: nat)
      requires TableOk(store, table, hash, capacity) && head < capacity && head == Slot(hash, capacity, k)
      modifies `store, `table
      ensures TableOk(store, table, hash, capacity)
      ensures removed == Lookup(old(table.pairs[head]), k).Some?
      ensures !removed ==> table.pairs == old(table.pairs)
      ensures removed ==> && at < |old(table.pairs[head])| && old(table.pairs[head])[at].0 == k
                          && table.pairs == old(table.pairs)[head := Without(old(table.pairs[head]), at)]
    {
      hide TableOk, ChainOk, Owned, Hashed, Searched, Absent, BucketOk, Lookup, Without;
      ChainStart(store, table, hash, capacity, head);
      var current := Some(head);
      ghost var c, ps := table.chains[head], table.pairs[head];
      at := 0;
      while current.Some?
        invariant ChainOk(store, c, ps, head) && at <= |c|
        invariant if current.Some? then at < |c| && c[at] == current.value < |store| else Lookup(ps, k) == None
        invariant Searched(ps, at, k)
        invariant store == old(store) && table == old(table)
        decreases |c| - at
      {
        var node := current.value;
        ChainStep(store, c, ps, head, at, k);
        if store[node].key == None {
          return false, at;
        }
        if store[node].key == Some(k) {
          RemoveNode(head, node, at);
          return true, at;
        }
        current := store[node].next;
        at := at + 1;
      }
      return false, at;
    }

    method RemoveNode(ghost head: Addr, node: Addr, ghost at: nat)
      requires TableOk(store, table, hash, capacity) && head < capacity
      requires at < |table.chains[head]| == |table.pairs[head]| && table.chains[head][at] == node < |store|
      modifies `store, `table
      ensures TableOk(store, table, hash, capacity)
      ensures table.pairs == old(table.pairs)[head := Without(old(table.pairs[head]), at)]
    {
      hide TableOk, ChainOk, Owned, Hashed, Searched, Absent, BucketOk, Lookup, Without;
      ChainStart(store, table, hash, capacity, head);
      ghost var c, ps := table.chains[head], table.pairs[head];
      NodeLinks(store, c, ps, head, at);
      if store[node].prev == None {
        if store[node].next == None {
          EmptiedTable(store, table, hash, capacity, head);
          store := store[node := store[node].(key := None, value := 0)];
          table := table.(pairs := table.pairs[head := Without(ps, 0)]);
        } else {
          PromoteTable(store, table, hash, capacity, head);
          NodeLinks(store, c, ps, head, 1);
          var next := store[node].next.value;
          store := store[node := store[node].(key := store[next].key, value := store[next].value,
                                              next := store[next].next)];
          if store[next].next != None {
            var after := store[next].next.value;
            store := store[after := store[after].(prev := Some(node))];
          }
          table := table.(chains := table.chains[head := Without(c, 1)], pairs := table.pairs[head := Without(ps, 0)]);
        }
      } else {
        BypassTable(store, table, hash, capacity, head, at);
        var prev, next := store[node].prev.value, store[node].next;
        store := store[prev := store[prev].(next := next)];
        if next != None {
          store := store[next.value := store[next.value].(prev := Some(prev))];
        }
        table := table.(chains := table.chains[head := Without(c, at)], pairs := table.pairs[head := Without(ps, at)]);
      }
    }

    /** `get_map` */
    method Get(k: string) returns (r: Option<nat>)
      requires Valid()
      ensures r == Entry(contents, k)
    {
      hide TableOk, ChainOk;
      SlotInRange(store, table, hash, capacity, k);
      var idx := hash(k) % capacity;
      r := GetBucket(idx, k);
      assert Find(table.pairs, hash, k) == Entry(contents, k);
    }

    /** `insert_map`: the table doubles first if it is more than three quarters full. */
    method Insert(k: string, v: nat) returns (inserted: bool)
      requires Valid()
      modifies this
      ensures Valid() && (old(Exact()) ==> Exact())
      ensures inserted == (k !in old(contents))
      ensures contents == if inserted then old(contents)[k := v] else old(contents)
      ensures capacity == if Full(old(len), old(capacity)) then 2 * old(capacity) else old(capacity)
      ensures len <= old(len) + 1
      decreases Full(len, capacity), 1
    {
      hide TableOk, ChainOk, Maps, PowerCapacity;
      if len > capacity / 4 * 3 {
        var bigger := Rehash();
        capacity, len, store := bigger.capacity, bigger.len, bigger.store;
        table := bigger.table;
      }
      SlotInRange(store, table, hash, capacity, k);
      EntryInBucket(table.pairs, hash, contents, k);
      var idx := hash(k) % capacity;
      ghost var pairs := table.pairs;
      inserted := InsertBucket(idx, k, v);
      if inserted {
        MapsInsert(pairs, hash, contents, k, v);
        contents := contents[k := v];
        len := len + 1;
      }
    }

    /** The growth loop: every entry of every chain goes into a table of twice the capacity,
        which never has to grow meanwhile. */
    method Rehash() returns (bigger: LabelMap)
      requires Valid() && Full(len, capacity)
      ensures fresh(bigger) && bigger.Valid() && bigger.Exact() && !Full(bigger.len, bigger.capacity)
      ensures bigger.hash == hash && bigger.capacity == 2 * capacity && bigger.contents == contents
      decreases Full(len, capacity), 0
    {
      hide TableOk, ChainOk, Maps, PowerCapacity, CopiedTo, Within;
      CapacityDoubles(capacity);
      SlotInRange(store, table, hash, capacity, "");
      bigger := new LabelMap.WithCapacity(hash, capacity * 2);
      NothingCopied(table.pairs, contents);
      for i := 0 to capacity
        invariant bigger.Valid() && bigger.Exact() && fresh(bigger)
        invariant bigger.hash == hash && bigger.capacity == 2 * capacity
        invariant Within(bigger.contents, contents)
        invariant CopiedTo(table.pairs, bigger.contents, i)
      {
        CopyBucket(i, bigger);
      }
      AllCopied(table.pairs, hash, contents, bigger.contents);
      NotFullYet(bigger.contents, contents, len, capacity);
    }

    method CopyBucket(i: Addr, bigger: LabelMap)
      requires Valid() && Full(len, capacity) && bigger != this && i < capacity
      requires bigger.Valid() && bigger.Exact() && bigger.hash == hash && bigger.capacity == 2 * capacity
      requires Within(bigger.contents, contents) && CopiedTo(table.pairs, bigger.contents, i)
      modifies bigger
      ensures bigger.Valid() && bigger.Exact() && bigger.capacity == 2 * capacity
      ensures Within(bigger.contents, contents) && CopiedTo(table.pairs, bigger.contents, i + 1)
      decreases Full(len, capacity), 0, 0
    {
      hide *;
      ValidParts();
      ChainStart(store, table, hash, capacity, i);
      ghost var c, ps := table.chains[i], table.pairs[i];
      ghost var j := 0;
      var bucket := Some(i);
      NoneCopied(ps, bigger.contents);
      while bucket.Some?
        invariant bigger.Valid() && bigger.Exact() && bigger.capacity == 2 * capacity
        invariant if bucket.Some? then j < |c| && c[j] == bucket.value < |store| else j >= |ps|
        invariant Within(bigger.contents, contents)
        invariant CopiedTo(table.pairs, bigger.contents, i) && BucketCopied(ps, bigger.contents, j)
        decreases |c| - j
      {
        var node := bucket.value;
        WalkStep(store, table, hash, capacity, contents, i, j);
        if store[node].key != None {
          var k := store[node].key.value;
          NotFullYet(bigger.contents, contents, len, capacity);
          bigger.ExactLen();
          ghost var before := bigger.contents;
          var inserted := bigger.Insert(k, store[node].value);
          CopiedMore(table.pairs, before, bigger.contents, contents, i, j, k);
        }
        CopiedNext(ps, bigger.contents, j);
        bucket := store[node].next;
        j := j + 1;
      }
      BucketDone(table.pairs, bigger.contents, i, j);
    }

    lemma ValidParts()
      requires Valid()
      ensures TableOk(store, table, hash, capacity) && capacity > 0 && table.pairs != [] && PowerCapacity(capacity)
      ensures |contents| <= len <= capacity / 4 * 3 + 1 && capacity % 4 == 0 && capacity >= 16
      ensures Maps(table.pairs, hash, contents)
    {
      CapacityDoubles(capacity);
    }

    lemma ExactLen()
      requires Exact()
      ensures len == |contents|
    {
    }

    /** `remove_map`. The entry count is not lowered. */
    method Remove(k: string) returns (removed: bool)
      requires Valid()
      modifies this
      ensures Valid() && capacity == old(capacity) && len == old(len)
      ensures removed == (k in old(contents))
      ensures contents == old(contents) - {k}
    {
      hide TableOk, ChainOk, Maps, PowerCapacity;
      SlotInRange(store, table, hash, capacity, k);
      EntryInBucket(table.pairs, hash, contents, k);
      var idx := hash(k) % capacity;
      ghost var pairs := table.pairs;
      ghost var at;
      NoDuplicatesAt(store, table, hash, capacity, idx);
      removed, at := RemoveBucket(idx, k);
      if removed {
        MapsRemove(pairs, hash, contents, k, at);
        contents := contents - {k};
      } else {
        assert contents - {k} == contents;
      }
    }
  }

  predicate Full(len: nat, capacity: nat) { len > capacity / 4 * 3 }

  lemma SlotInRange(store: Store, t: Table, hash: string -> nat, capacity: nat, k: string)
    requires TableOk(store, t, hash, capacity)
    ensures 0 < capacity == |t.pairs| == |t.chains| && Slot(hash, capacity, k) < capacity
  {
  }

  lemma EntryInBucket(pairs: seq<seq<Pair>>, hash: string -> nat, m: map<string, nat>, k: string)
    requires pairs != [] && Maps(pairs, hash, m)
    ensures Lookup(pairs[Slot(hash, |pairs|, k)], k).Some? <==> k in m
  {
    assert Find(pairs, hash, k) == Entry(m, k);
  }

  lemma NoDuplicatesAt(store: Store, t: Table, hash: string -> nat, capacity: nat, i: nat)
    requires TableOk(store, t, hash, capacity) && i < capacity
    ensures i < |t.pairs| && NoDuplicates(t.pairs[i])
  {
    assert BucketOk(store, t, hash, i);
  }

  lemma CapacityDoubles(capacity: nat)
    requires PowerCapacity(capacity)
    ensures PowerCapacity(capacity * 2) && capacity % 4 == 0 && capacity >= 16
  {
    hide Pow2;
    var e: nat :| capacity == DEFAULT_CAPACITY * Pow2(e);
    NextPow2(e);
    assert capacity * 2 == DEFAULT_CAPACITY * Pow2(e + 1);
  }

  lemma NextPow2(e: nat)
    ensures Pow2(e + 1) == 2 * Pow2(e)
  {
  }

  /** Every entry of the first map is one of the second. */
  ghost predicate Within(a: map<string, nat>, b: map<string, nat>) {
    forall k :: k in a ==> k in b && b[k] == a[k]
  }

  /** The first i buckets' keys have all been inserted. */
  ghost predicate CopiedTo(pairs: seq<seq<Pair>>, m: map<string, nat>, i: nat) {
    forall n :: 0 <= n < i && n < |pairs| ==> BucketCopied(pairs[n], m, |pairs[n]|)
  }

  ghost predicate BucketCopied(ps: seq<Pair>, m: map<string, nat>, j: nat) {
    forall n :: 0 <= n < j && n < |ps| ==> ps[n].0 in m
  }

  lemma NothingCopied(pairs: seq<seq<Pair>>, m: map<string, nat>)
    ensures Within(map[], m) && CopiedTo(pairs, map[], 0)
  {
  }

  lemma NoneCopied(ps: seq<Pair>, m: map<string, nat>)
    ensures BucketCopied(ps, m, 0)
  {
  }

  lemma CopiedMore(pairs: seq<seq<Pair>>, before: map<string, nat>, after: map<string, nat>, m: map<string, nat>,
                   i: nat, j: nat, k: string)
    requires i < |pairs| && k in m && k in after && Within(before, m)
    requires after == if k in before then before else before[k := m[k]]
    requires CopiedTo(pairs, before, i) && BucketCopied(pairs[i], before, j)
    ensures Within(after, m) && CopiedTo(pairs, after, i) && BucketCopied(pairs[i], after, j)
  {
    forall n | 0 <= n < i && n < |pairs|
      ensures BucketCopied(pairs[n], after, |pairs[n]|)
    {
      assert BucketCopied(pairs[n], before, |pairs[n]|);
    }
  }

  lemma CopiedNext(ps: seq<Pair>, m: map<string, nat>, j: nat)
    requires BucketCopied(ps, m, j) && (j < |ps| ==> ps[j].0 in m)
    ensures BucketCopied(ps, m, j + 1)
  {
  }

  lemma BucketDone(pairs: seq<seq<Pair>>, m: map<string, nat>, i: nat, j: nat)
    requires i < |pairs| && CopiedTo(pairs, m, i) && BucketCopied(pairs[i], m, j) && j >= |pairs[i]|
    ensures CopiedTo(pairs, m, i + 1)
  {
    assert BucketCopied(pairs[i], m, |pairs[i]|);
  }

  /** A table holding part of an overfull one's entries is not full at twice the capacity. */
  lemma NotFullYet(part: map<string, nat>, whole: map<string, nat>, len: nat, capacity: nat)
    requires Within(part, whole) && |whole| <= len <= capacity / 4 * 3 + 1
    requires capacity % 4 == 0 && capacity >= 16
    ensures !Full(|part|, 2 * capacity)
  {
    assert part.Keys <= whole.Keys;
    SubsetSize(part.Keys, whole.Keys);
    assert |part.Keys| == |part| && |whole.Keys| == |whole|;
  }

  lemma {:induction false} SubsetSize(a: set<string>, b: set<string>)
    requires a <= b
    ensures |a| <= |b|
    decreases |a|
  {
    if a != {} {
      var x :| x in a;
      SubsetSize(a - {x}, b - {x});
    }
  }

  /** What the growth loop sees at node j of bucket i. */
  lemma WalkStep(store: Store, t: Table, hash: string -> nat, capacity: nat, m: map<string, nat>, i: nat, j: nat)
    requires TableOk(store, t, hash, capacity) && t.pairs != [] && Maps(t.pairs, hash, m) && i < capacity
    requires j < |t.chains[i]| && t.chains[i][j] < |store|
    ensures var c, ps, node := t.chains[i], t.pairs[i], store[t.chains[i][j]];
            && (node.key == None ==> ps == [])
            && (node.key.Some? ==> && j < |ps| == |c| && ps[j].0 == node.key.value
                                   && node.key.value in m && m[node.key.value] == node.value)
            && node.next == (if j + 1 < |c| then Some(c[j + 1]) else None)
            && (j + 1 < |c| ==> c[j + 1] < |store|)
            && (j + 1 >= |c| ==> j + 1 >= |ps|)
  {
    assert BucketOk(store, t, hash, i);
    var c, ps := t.chains[i], t.pairs[i];
    assert LinkedAt(store, c, j);
    if store[c[j]].key.Some? {
      LookupAt(ps, j);
      assert Slot(hash, capacity, ps[j].0) == i;
      assert Find(t.pairs, hash, ps[j].0) == Entry(m, ps[j].0);
    }
  }

  lemma AllCopied(pairs: seq<seq<Pair>>, hash: string -> nat, m: map<string, nat>, copy: map<string, nat>)
    requires pairs != [] && Maps(pairs, hash, m) && Within(copy, m) && CopiedTo(pairs, copy, |pairs|)
    ensures copy == m
  {
    forall k | k in m
      ensures k in copy
    {
      assert Find(pairs, hash, k) == Entry(m, k);
      var i := Slot(hash, |pairs|, k);
      var j := LookupFound(pairs[i], k);
      assert BucketCopied(pairs[i], copy, |pairs[i]|);
    }
  }

  lemma EmptyTable(store: Store, t: Table, hash: string -> nat, capacity: nat)
    requires capacity > 0 && store == seq(capacity, _ => Node(None, 0, None, None))
    requires t == Table(seq(capacity, i => [i]), seq(capacity, i => []), seq(capacity, i => i))
    ensures TableOk(store, t, hash, capacity) && Maps(t.pairs, hash, map[])
  {
    forall i | 0 <= i < capacity
      ensures BucketOk(store, t, hash, i)
    {
      EmptyChain(store, i);
    }
  }

  lemma ChainStart(store: Store, t: Table, hash: string -> nat, capacity: nat, head: Addr)
    requires TableOk(store, t, hash, capacity) && head < capacity
    ensures |t.chains| == |t.pairs| == capacity
    ensures ChainOk(store, t.chains[head], t.pairs[head], head)
    ensures t.chains[head] != [] && t.chains[head][0] == head && head < |store|
    ensures forall k :: Searched(t.pairs[head], 0, k)
  {
    assert BucketOk(store, t, hash, head);
  }

  /** None of the first j entries has the key. */
  ghost predicate Searched(ps: seq<Pair>, j: nat, k: string) {
    forall i :: 0 <= i < j && i < |ps| ==> ps[i].0 != k
  }

  /** What a walk down a chain sees at node j, and what it may conclude there. */
  lemma ChainStep(store: Store, c: seq<Addr>, ps: seq<Pair>, head: Addr, j: nat, k: string)
    requires ChainOk(store, c, ps, head) && j < |c| && Searched(ps, j, k)
    ensures c[j] < |store|
    ensures store[c[j]].key == None ==> ps == [] && Lookup(ps, k) == None && j == 0
    ensures store[c[j]].key == Some(k) ==> j < |ps| == |c| && ps[j].0 == k && Lookup(ps, k) == Some(store[c[j]].value)
    ensures store[c[j]].key.Some? && store[c[j]].key != Some(k) ==> Searched(ps, j + 1, k) && ps != [] && |ps| == |c|
    ensures store[c[j]].next == if j + 1 < |c| then Some(c[j + 1]) else None
    ensures store[c[j]].key.Some? && store[c[j]].key != Some(k) && j + 1 == |c| ==>
              Absent(ps, k) && Lookup(ps, k) == None
    ensures j + 1 < |c| ==> c[j + 1] < |store|
  {
    assert LinkedAt(store, c, j);
    if store[c[j]].key == Some(k) {
      LookupAt(ps, j);
    } else if store[c[j]].key.Some? && j + 1 == |c| {
      LookupAbsent(ps, k);
    }
  }

  // ---------- what each relinking does to the table ----------

  lemma TableAt(store: Store, t: Table, hash: string -> nat, capacity: nat, i: nat)
    requires TableOk(store, t, hash, capacity) && i < capacity
    ensures |t.chains| == |t.pairs| == capacity <= |store| == |t.owner|
    ensures ChainOk(store, t.chains[i], t.pairs[i], i)
    ensures Owned(t.chains[i], t.owner, i) && Hashed(t.pairs[i], hash, capacity, i)
    ensures t.chains[i] != [] && t.chains[i][0] == i
  {
    assert BucketOk(store, t, hash, i);
  }

  lemma FillTable(store: Store, t: Table, hash: string -> nat, capacity: nat, k: string, v: nat)
    requires TableOk(store, t, hash, capacity)
    requires var i := Slot(hash, capacity, k); store[i].key == None
    ensures var i := Slot(hash, capacity, k);
            TableOk(store[i := store[i].(key := Some(k), value := v)],
                    t.(pairs := t.pairs[i := t.pairs[i] + [(k, v)]]), hash, capacity)
  {
    var i := Slot(hash, capacity, k);
    TableAt(store, t, hash, capacity, i);
    FillChain(store, t.chains[i], t.pairs[i], i, k, v);
    hide TableOk, ChainOk, BucketOk;
    assert t.owner[i] == i;
    assert t.chains[i := t.chains[i]] == t.chains;
    assert t.pairs[i] + [(k, v)] == [(k, v)];
    UpdateBucket(store, store[i := store[i].(key := Some(k), value := v)], t, hash, capacity, i, t.chains[i], [(k, v)],
                 t.owner);
  }

  lemma AppendTable(store: Store, t: Table, hash: string -> nat, capacity: nat, k: string, v: nat)
    requires TableOk(store, t, hash, capacity)
    requires var i := Slot(hash, capacity, k); t.pairs[i] != [] && Absent(t.pairs[i], k)
    ensures var i := Slot(hash, capacity, k);
            var c := t.chains[i];
            && c != [] && c[|c| - 1] < |store|
            && TableOk(Linking(store, c[|c| - 1], k, v),
                       Table(t.chains[i := c + [|store|]], t.pairs[i := t.pairs[i] + [(k, v)]], t.owner + [i]), hash,
                       capacity)
  {
    var i := Slot(hash, capacity, k);
    TableAt(store, t, hash, capacity, i);
    var c := t.chains[i];
    AppendChain(store, c, t.pairs[i], i, k, v);
    hide TableOk, ChainOk, BucketOk;
    assert t.owner[c[|c| - 1]] == i;
    UpdateBucket(store, Linking(store, c[|c| - 1], k, v), t, hash, capacity, i, c + [|store|], t.pairs[i] + [(k, v)],
                 t.owner + [i]);
  }

  lemma NodeLinks(store: Store, c: seq<Addr>, ps: seq<Pair>, head: Addr, at: nat)
    requires ChainOk(store, c, ps, head) && at < |c|
    ensures c[at] < |store|
    ensures store[c[at]].prev == At(c, at - 1) && store[c[at]].next == At(c, at + 1)
    ensures store[c[at]].prev == None <==> at == 0
    ensures store[c[at]].next == None <==> at + 1 == |c|
  {
    assert LinkedAt(store, c, at);
  }

  lemma EmptiedTable(store: Store, t: Table, hash: string -> nat, capacity: nat, i: nat)
    requires TableOk(store, t, hash, capacity) && i < capacity
    requires store[i].next == None && |t.pairs[i]| == |t.chains[i]|
    ensures |t.pairs[i]| == 1
    ensures TableOk(store[i := store[i].(key := None, value := 0)],
                    t.(pairs := t.pairs[i := Without(t.pairs[i], 0)]), hash, capacity)
  {
    TableAt(store, t, hash, capacity, i);
    EmptiedChain(store, t.chains[i], t.pairs[i], i);
    hide TableOk, ChainOk, BucketOk;
    assert t.owner[i] == i;
    assert t.chains[i := t.chains[i]] == t.chains;
    assert Without(t.pairs[i], 0) == [];
    UpdateBucket(store, store[i := store[i].(key := None, value := 0)], t, hash, capacity, i, t.chains[i], [], t.owner);
  }

  /** The bypassed node's neighbours belong to the same bucket. */
  lemma BypassElsewhere(store: Store, t: Table, i: nat, j: nat)
    requires i < |t.chains| && Neighbours(store, t.chains[i], j) && |t.owner| == |store|
    requires Owned(t.chains[i], t.owner, i)
    ensures var c := t.chains[i]; Elsewhere(store, Bypass(store, c[j - 1], At(c, j + 1)), t, i)
    ensures var c := t.chains[i]; |Bypass(store, c[j - 1], At(c, j + 1))| == |store|
  {
    var c := t.chains[i];
    assert t.owner[c[j - 1]] == i;
    if j + 1 < |c| {
      assert t.owner[c[j + 1]] == i;
    }
  }

  lemma WithoutKeeps(c: seq<Addr>, ps: seq<Pair>, owner: seq<nat>, hash: string -> nat, capacity: nat, i: nat, j: nat,
                     j': nat)
    requires Owned(c, owner, i) && capacity > 0 && Hashed(ps, hash, capacity, i) && j < |c| && j' < |ps|
    ensures Owned(Without(c, j), owner, i) && Hashed(Without(ps, j'), hash, capacity, i)
  {
  }

  lemma BypassTable(store: Store, t: Table, hash: string -> nat, capacity: nat, i: nat, j: nat)
    requires TableOk(store, t, hash, capacity) && i < capacity && 0 < j < |t.chains[i]|
    ensures |t.pairs[i]| == |t.chains[i]| && Neighbours(store, t.chains[i], j)
    ensures var c := t.chains[i];
            TableOk(Bypass(store, c[j - 1], At(c, j + 1)),
                    t.(chains := t.chains[i := Without(c, j)], pairs := t.pairs[i := Without(t.pairs[i], j)]), hash,
                    capacity)
  {
    hide TableOk, ChainOk, Bypass, Owned, Hashed, Elsewhere;
    TableAt(store, t, hash, capacity, i);
    var c := t.chains[i];
    BypassChain(store, c, t.pairs[i], i, j);
    BypassElsewhere(store, t, i, j);
    WithoutKeeps(c, t.pairs[i], t.owner, hash, capacity, i, j, j);
    UpdateBucket(store, Bypass(store, c[j - 1], At(c, j + 1)), t, hash, capacity, i, Without(c, j),
                 Without(t.pairs[i], j), t.owner);
  }

  /** The head takes over its successor's entry and link, and the next node is linked back. */
  function Promoted(store: Store, head: Addr, next: Addr, after: Option<Addr>): Store
    requires head < |store| && next < |store| && (after.Some? ==> after.value < |store|)
  {
    var s := store[head := store[head].(key := store[next].key, value := store[next].value, next := after)];
    if after.Some? then s[after.value := s[after.value].(prev := Some(head))] else s
  }

  lemma PromotedIs(store: Store, head: Addr, next: Addr, after: Option<Addr>)
    requires head < |store| && next < |store| && (after.Some? ==> after.value < |store| && after.value != head)
    ensures var s := Bypass(store, head, after);
            Promoted(store, head, next, after)
              == s[head := s[head].(key := store[next].key, value := store[next].value)]
  {
  }

  lemma PromoteTable(store: Store, t: Table, hash: string -> nat, capacity: nat, i: nat)
    requires TableOk(store, t, hash, capacity) && i < capacity && |t.chains[i]| > 1
    ensures |t.pairs[i]| == |t.chains[i]| && Neighbours(store, t.chains[i], 1) && t.chains[i][1] < |store|
    ensures var c := t.chains[i];
            && (At(c, 2).Some? ==> At(c, 2).value < |store|)
            && TableOk(Promoted(store, i, c[1], At(c, 2)),
                       t.(chains := t.chains[i := Without(c, 1)], pairs := t.pairs[i := Without(t.pairs[i], 0)]), hash,
                       capacity)
  {
    hide TableOk, ChainOk, Bypass, Hashed;
    TableAt(store, t, hash, capacity, i);
    var c := t.chains[i];
    PromoteChain(store, c, t.pairs[i], i);
    BypassElsewhere(store, t, i, 1);
    WithoutKeeps(c, t.pairs[i], t.owner, hash, capacity, i, 1, 0);
    assert Without(t.pairs[i], 0) == t.pairs[i][1..];
    var s := Bypass(store, i, At(c, 2));
    assert t.owner[c[0]] == i;
    NodeApart(store, c, t.pairs[i], i);
    PromotedIs(store, i, c[1], At(c, 2));
    UpdateBucket(store, s[i := s[i].(key := store[c[1]].key, value := store[c[1]].value)], t, hash, capacity, i,
                 Without(c, 1), Without(t.pairs[i], 0), t.owner);
  }

  lemma NodeApart(store: Store, c: seq<Addr>, ps: seq<Pair>, head: Addr)
    requires ChainOk(store, c, ps, head) && |c| > 1
    ensures At(c, 2).Some? ==> At(c, 2).value != head && At(c, 2).value < |store|
    ensures head < |store|
  {
  }
}
