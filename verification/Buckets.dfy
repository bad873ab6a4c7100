/** The bucket chains of the label map. Nodes live in a store indexed by address, so that links
    are addresses and relinking is an update of the store; the head of bucket i has address i. */
module Buckets {
  import opened Syntax

  type Addr = nat

  /** A node without a key is an empty bucket head. */
  datatype Node = Node(key: Option<string>, value: nat, prev: Option<Addr>, next: Option<Addr>)

  type Store = seq<Node>

  type Pair = (string, nat)

  // ---------- association lists ----------

  /** The first entry for a key. */
  function Lookup(pairs: seq<Pair>, k: string): Option<nat> {
    if pairs == [] then None
    else if pairs[0].0 == k then Some(pairs[0].1)
    else Lookup(pairs[1..], k)
  }

  ghost predicate NoDuplicates(pairs: seq<Pair>) {
    forall i, j :: 0 <= i < j < |pairs| ==> pairs[i].0 != pairs[j].0
  }

  ghost predicate Absent(pairs: seq<Pair>, k: string) {
    forall i :: 0 <= i < |pairs| ==> pairs[i].0 != k
  }

  function Without<T>(s: seq<T>, j: nat): seq<T>
    requires j < |s|
  {
    s[..j] + s[j + 1..]
  }

  lemma {:induction false} LookupAt(pairs: seq<Pair>, j: nat)
    requires j < |pairs| && Absent(pairs[..j], pairs[j].0)
    ensures Lookup(pairs, pairs[j].0) == Some(pairs[j].1)
  {
    if j > 0 {
      assert pairs[0] == pairs[..j][0];
      assert pairs[1..][..j - 1] == pairs[..j][1..];
      LookupAt(pairs[1..], j - 1);
    }
  }

  lemma {:induction false} LookupAbsent(pairs: seq<Pair>, k: string)
    requires Absent(pairs, k)
    ensures Lookup(pairs, k) == None
  {
    if pairs != [] {
      assert pairs[0].0 != k;
      LookupAbsent(pairs[1..], k);
    }
  }

  lemma {:induction false} LookupFound(pairs: seq<Pair>, k: string) returns (j: nat)
    requires Lookup(pairs, k).Some?
    ensures j < |pairs| && pairs[j].0 == k && Lookup(pairs, k) == Some(pairs[j].1)
  {
    if pairs[0].0 == k {
      j := 0;
    } else {
      j := LookupFound(pairs[1..], k);
      j := j + 1;
    }
  }

  lemma {:induction false} LookupConcat(a: seq<Pair>, b: seq<Pair>, k: string)
    ensures Lookup(a + b, k) == if Lookup(a, k).Some? then Lookup(a, k) else Lookup(b, k)
  {
    if a == [] {
      assert a + b == b;
    } else {
      assert (a + b)[1..] == a[1..] + b;
      LookupConcat(a[1..], b, k);
    }
  }

  /** Removing an entry removes its key and no other. */
  lemma LookupWithout(pairs: seq<Pair>, j: nat, k: string)
    requires NoDuplicates(pairs) && j < |pairs|
    ensures Lookup(Without(pairs, j), k) == if k == pairs[j].0 then None else Lookup(pairs, k)
  {
    var a, b := pairs[..j], pairs[j + 1..];
    LookupConcat(a, b, k);
    assert pairs == a + ([pairs[j]] + b);
    LookupConcat(a, [pairs[j]] + b, k);
    LookupConcat([pairs[j]], b, k);
    if k == pairs[j].0 {
      LookupAbsent(a, k);
      LookupAbsent(b, k);
    }
  }

  // ---------- chains ----------

  ghost function At(c: seq<Addr>, i: int): Option<Addr> { if 0 <= i < |c| then Some(c[i]) else None }

  ghost predicate Distinct(c: seq<Addr>) {
    forall i, j :: 0 <= i < j < |c| ==> c[i] != c[j]
  }

  /** All nodes of the chain are allocated. */
  ghost predicate Stored(store: Store, c: seq<Addr>) {
    forall i :: 0 <= i < |c| ==> c[i] < |store|
  }

  /** A node's links agree with its place in the chain. */
  ghost predicate LinkedAt(store: Store, c: seq<Addr>, i: nat)
    requires i < |c| && c[i] < |store|
  {
    store[c[i]].next == At(c, i + 1) && store[c[i]].prev == At(c, i - 1)
  }

  /** The links run through the chain in both directions and end in null. */
  ghost predicate Linked(store: Store, c: seq<Addr>)
    requires Stored(store, c)
  {
    forall i :: 0 <= i < |c| ==> LinkedAt(store, c, i)
  }

  /** Each node carries one entry; only a head without successors may be empty. */
  ghost predicate Carries(store: Store, c: seq<Addr>, pairs: seq<Pair>)
    requires Stored(store, c) && c != []
  {
    if pairs == [] then |c| == 1 && store[c[0]].key == None
    else
      && |c| == |pairs|
      && forall i :: 0 <= i < |c| ==> store[c[i]].key == Some(pairs[i].0) && store[c[i]].value == pairs[i].1
  }

  /** The chain of a bucket: distinct nodes from the head on, linked both ways, carrying the
      entries in order, no key twice. */
  ghost predicate ChainOk(store: Store, c: seq<Addr>, pairs: seq<Pair>, head: Addr) {
    && c != [] && c[0] == head && Distinct(c) && Stored(store, c)
    && Linked(store, c) && Carries(store, c, pairs) && NoDuplicates(pairs)
  }

  /** A chain depends only on its own nodes. */
  lemma ChainFrame(store: Store, store': Store, c: seq<Addr>, pairs: seq<Pair>, head: Addr)
    requires ChainOk(store, c, pairs, head)
    requires forall i :: 0 <= i < |c| ==> c[i] < |store'| && store'[c[i]] == store[c[i]]
    ensures ChainOk(store', c, pairs, head)
  {
    assert forall i :: 0 <= i < |c| ==> LinkedAt(store, c, i) ==> LinkedAt(store', c, i);
  }

  /** A new bucket head. */
  lemma EmptyChain(store: Store, head: Addr)
    requires head < |store| && store[head] == Node(None, 0, None, None)
    ensures ChainOk(store, [head], [], head)
  {
  }

  lemma ChainParts(store: Store, c: seq<Addr>, pairs: seq<Pair>, head: Addr)
    requires ChainOk(store, c, pairs, head)
    ensures c != [] && c[0] == head && Distinct(c) && Stored(store, c)
    ensures Linked(store, c) && Carries(store, c, pairs) && NoDuplicates(pairs)
  {
  }

  lemma ChainWhole(store: Store, c: seq<Addr>, pairs: seq<Pair>, head: Addr)
    requires c != [] && c[0] == head && Distinct(c) && Stored(store, c)
    requires Linked(store, c) && Carries(store, c, pairs) && NoDuplicates(pairs)
    ensures ChainOk(store, c, pairs, head)
  {
  }

  // ---------- insertion ----------

  /** Filling an empty head. */
  lemma FillChain(store: Store, c: seq<Addr>, pairs: seq<Pair>, head: Addr, k: string, v: nat)
    requires ChainOk(store, c, pairs, head) && store[head].key == None
    ensures pairs == [] && c == [head]
    ensures ChainOk(store[head := store[head].(key := Some(k), value := v)], c, [(k, v)], head)
  {
    assert LinkedAt(store, c, 0);
  }

  /** A node allocated at the end of the store and linked after the last one. */
  function Linking(store: Store, last: Addr, k: string, v: nat): Store
    requires last < |store|
  {
    store[last := store[last].(next := Some(|store|))] + [Node(Some(k), v, Some(last), None)]
  }

  lemma AppendChain(store: Store, c: seq<Addr>, pairs: seq<Pair>, head: Addr, k: string, v: nat)
    requires ChainOk(store, c, pairs, head) && pairs != [] && Absent(pairs, k)
    ensures ChainOk(Linking(store, c[|c| - 1], k, v), c + [|store|], pairs + [(k, v)], head)
  {
    hide *;
    ChainParts(store, c, pairs, head);
    AppendStored(store, c, k, v);
    AppendLinked(store, c, k, v);
    AppendCarries(store, c, pairs, k, v);
    AppendPairs(pairs, k, v);
    ChainWhole(Linking(store, c[|c| - 1], k, v), c + [|store|], pairs + [(k, v)], head);
  }

  lemma AppendStored(store: Store, c: seq<Addr>, k: string, v: nat)
    requires c != [] && Stored(store, c) && Distinct(c)
    ensures Distinct(c + [|store|]) && c[|c| - 1] < |store|
    ensures Stored(Linking(store, c[|c| - 1], k, v), c + [|store|])
  {
  }

  lemma AppendLinked(store: Store, c: seq<Addr>, k: string, v: nat)
    requires c != [] && Stored(store, c) && Distinct(c) && Linked(store, c) && c[|c| - 1] < |store|
    requires Stored(Linking(store, c[|c| - 1], k, v), c + [|store|])
    ensures Linked(Linking(store, c[|c| - 1], k, v), c + [|store|])
  {
    var d, s := c + [|store|], Linking(store, c[|c| - 1], k, v);
    forall i | 0 <= i < |d|
      ensures LinkedAt(s, d, i)
    {
      if i < |c| {
        assert LinkedAt(store, c, i);
        assert i < |c| - 1 ==> c[i] != c[|c| - 1];
      }
    }
  }

  lemma AppendCarries(store: Store, c: seq<Addr>, pairs: seq<Pair>, k: string, v: nat)
    requires c != [] && Stored(store, c) && Carries(store, c, pairs) && pairs != [] && c[|c| - 1] < |store|
    requires Stored(Linking(store, c[|c| - 1], k, v), c + [|store|])
    ensures Carries(Linking(store, c[|c| - 1], k, v), c + [|store|], pairs + [(k, v)])
  {
  }

  lemma AppendPairs(pairs: seq<Pair>, k: string, v: nat)
    requires NoDuplicates(pairs) && Absent(pairs, k)
    ensures NoDuplicates(pairs + [(k, v)])
  {
  }

  // ---------- removal ----------

  /** Emptying a head on its own. */
  lemma EmptiedChain(store: Store, c: seq<Addr>, pairs: seq<Pair>, head: Addr)
    requires ChainOk(store, c, pairs, head) && store[head].next == None
    ensures c == [head]
    ensures ChainOk(store[head := store[head].(key := None, value := 0)], c, [], head)
  {
    assert LinkedAt(store, c, 0);
  }

  /** Node j bypassed: its neighbours are linked to each other. */
  function Bypass(store: Store, prev: Addr, next: Option<Addr>): Store
    requires prev < |store| && (next.Some? ==> next.value < |store|)
  {
    var s := store[prev := store[prev].(next := next)];
    if next.Some? then s[next.value := s[next.value].(prev := Some(prev))] else s
  }

  lemma WithoutAt(c: seq<Addr>, j: nat, i: int)
    requires j < |c|
    ensures At(Without(c, j), i) == if i < j then At(c, i) else At(c, i + 1)
  {
  }

  lemma WithoutDistinct(c: seq<Addr>, j: nat)
    requires Distinct(c) && j < |c|
    ensures Distinct(Without(c, j))
  {
  }

  lemma WithoutPairs(pairs: seq<Pair>, j: nat)
    requires NoDuplicates(pairs) && j < |pairs|
    ensures NoDuplicates(Without(pairs, j))
  {
  }

  /** Both neighbours of node j, if it is not the head, are allocated. */
  ghost predicate Neighbours(store: Store, c: seq<Addr>, j: nat) {
    0 < j < |c| && c[j - 1] < |store| && (At(c, j + 1).Some? ==> At(c, j + 1).value < |store|)
  }

  lemma BypassStored(store: Store, c: seq<Addr>, j: nat)
    requires Stored(store, c) && Neighbours(store, c, j)
    ensures Stored(Bypass(store, c[j - 1], At(c, j + 1)), Without(c, j))
  {
  }

  lemma BypassLinked(store: Store, c: seq<Addr>, j: nat)
    requires Stored(store, c) && Distinct(c) && Linked(store, c) && Neighbours(store, c, j)
    requires Stored(Bypass(store, c[j - 1], At(c, j + 1)), Without(c, j))
    ensures Linked(Bypass(store, c[j - 1], At(c, j + 1)), Without(c, j))
  {
    var s, d := Bypass(store, c[j - 1], At(c, j + 1)), Without(c, j);
    hide Bypass, LinkedAt;
    forall i | 0 <= i < |d|
      ensures LinkedAt(s, d, i)
    {
      BypassLinkedAt(store, c, j, if i < j then i else i + 1);
    }
  }

  lemma BypassLinkedAt(store: Store, c: seq<Addr>, j: nat, i: nat)
    requires Stored(store, c) && Distinct(c) && Neighbours(store, c, j) && i < |c| && i != j
    requires LinkedAt(store, c, i)
    requires Stored(Bypass(store, c[j - 1], At(c, j + 1)), Without(c, j))
    ensures LinkedAt(Bypass(store, c[j - 1], At(c, j + 1)), Without(c, j), if i < j then i else i - 1)
  {
    assert c[i] == c[j - 1] ==> i == j - 1;
    assert j + 1 < |c| && c[i] == c[j + 1] ==> i == j + 1;
    hide Distinct, Stored;
    var i' := if i < j then i else i - 1;
    assert Without(c, j)[i'] == c[i];
    WithoutAt(c, j, i' - 1);
    WithoutAt(c, j, i' + 1);
    hide Without;
  }

  lemma BypassCarries(store: Store, c: seq<Addr>, pairs: seq<Pair>, j: nat)
    requires Stored(store, c) && Neighbours(store, c, j) && Carries(store, c, pairs)
    requires Stored(Bypass(store, c[j - 1], At(c, j + 1)), Without(c, j))
    ensures |pairs| == |c|
    ensures Carries(Bypass(store, c[j - 1], At(c, j + 1)), Without(c, j), Without(pairs, j))
  {
    var s, d, ps := Bypass(store, c[j - 1], At(c, j + 1)), Without(c, j), Without(pairs, j);
    forall i | 0 <= i < |d|
      ensures s[d[i]].key == Some(ps[i].0) && s[d[i]].value == ps[i].1
    {
      var i' := if i < j then i else i + 1;
      assert d[i] == c[i'] && ps[i] == pairs[i'];
    }
  }

  lemma WithoutHead(store: Store, c: seq<Addr>, j: nat)
    requires 0 < j < |c| && Stored(store, c)
    ensures Without(c, j) != [] && Without(c, j)[0] == c[0] && Neighbours(store, c, j)
  {
  }

  /** Removing node j other than the head. */
  lemma BypassChain(store: Store, c: seq<Addr>, pairs: seq<Pair>, head: Addr, j: nat)
    requires ChainOk(store, c, pairs, head) && 0 < j < |c|
    ensures |pairs| == |c| && Neighbours(store, c, j)
    ensures ChainOk(Bypass(store, c[j - 1], At(c, j + 1)), Without(c, j), Without(pairs, j), head)
  {
    hide *;
    ChainParts(store, c, pairs, head);
    WithoutHead(store, c, j);
    NeighboursStored(store, c, j);
    BypassStored(store, c, j);
    BypassLinked(store, c, j);
    BypassCarries(store, c, pairs, j);
    WithoutPairs(pairs, j);
    WithoutDistinct(c, j);
    ChainWhole(Bypass(store, c[j - 1], At(c, j + 1)), Without(c, j), Without(pairs, j), head);
  }

  lemma NeighboursStored(store: Store, c: seq<Addr>, j: nat)
    requires Neighbours(store, c, j)
    ensures c[j - 1] < |store| && (At(c, j + 1).Some? ==> At(c, j + 1).value < |store|)
  {
  }

  /** The head takes over its successor's entry, and the successor is bypassed. */
  lemma PromoteChain(store: Store, c: seq<Addr>, pairs: seq<Pair>, head: Addr)
    requires ChainOk(store, c, pairs, head) && |c| > 1
    ensures |pairs| == |c| && Neighbours(store, c, 1)
    ensures c[1] < |store| && store[c[1]].key == Some(pairs[1].0) && store[c[1]].value == pairs[1].1
    ensures var s := Bypass(store, head, At(c, 2));
            ChainOk(s[head := s[head].(key := Some(pairs[1].0), value := pairs[1].1)], Without(c, 1), pairs[1..], head)
  {
    BypassChain(store, c, pairs, head, 1);
    var s := Bypass(store, head, At(c, 2));
    assert Without(pairs, 1)[1..] == pairs[2..];
    assert [pairs[1]] + pairs[2..] == pairs[1..];
    hide ChainOk, Bypass, At;
    EntryOf(store, c, pairs, head, 1);
    ReplaceHead(s, Without(c, 1), Without(pairs, 1), head, pairs[1].0, pairs[1].1);
  }

  lemma EntryOf(store: Store, c: seq<Addr>, pairs: seq<Pair>, head: Addr, j: nat)
    requires ChainOk(store, c, pairs, head) && j < |pairs|
    ensures |c| == |pairs| && c[j] < |store|
    ensures store[c[j]].key == Some(pairs[j].0) && store[c[j]].value == pairs[j].1
  {
  }

  lemma ReplaceHead(store: Store, c: seq<Addr>, pairs: seq<Pair>, head: Addr, k: string, v: nat)
    requires ChainOk(store, c, pairs, head) && pairs != [] && Absent(pairs[1..], k)
    ensures ChainOk(store[head := store[head].(key := Some(k), value := v)], c, [(k, v)] + pairs[1..], head)
  {
    var s, ps := store[head := store[head].(key := Some(k), value := v)], [(k, v)] + pairs[1..];
    assert NoDuplicates(ps) by {
      forall i, j | 0 <= i < j < |ps|
        ensures ps[i].0 != ps[j].0
      {
        assert ps[j] == pairs[j] && pairs[1..][j - 1] == pairs[j];
        assert i > 0 ==> ps[i] == pairs[i];
      }
    }
    assert Linked(s, c) by {
      assert forall i :: 0 <= i < |c| ==> LinkedAt(store, c, i) ==> LinkedAt(s, c, i);
    }
    assert forall i :: 0 < i < |c| ==> c[i] != head;
  }
}
