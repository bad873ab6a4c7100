/** Why assembling in two passes is the same as assembling once with every label known:
    patching the recorded sites of placeholder bytes yields the encoding under the final
    environment, whatever the order the sites are patched in. */
module TwoPass {
  import opened Words
  import opened Isa
  import opened Encoding

  /** Patching all references of a stretch of items, wherever it lies, resolves it. */
  lemma {:induction false} PatchResolves(env: Env, pre: seq<Byte>, items: seq<Item>, post: seq<Byte>)
    requires AllWellFormed(items)
    ensures InBounds(pre + Encode(map[], items) + post, Refs(items, |pre|))
    ensures PatchAll(pre + Encode(map[], items) + post, Refs(items, |pre|), env)
         == pre + Encode(env, items) + post
    decreases |items|
  {
    hide Patch, PatchAll, InBounds, ItemBytes, ItemRefs, ItemSize, WellFormed, Encode, Refs;
    if items == [] {
      NothingPatched(env, pre, post);
    } else {
      var it, rest := items[0], items[1..];
      var tail := Encode(map[], rest) + post;
      var pre' := pre + ItemBytes(env, it);
      EncodeParts(env, pre, items, post);
      EncodeParts(map[], pre, items, post);
      PatchResolves(env, pre', rest, post);
      PatchItem(env, pre, it, tail);
      RefsTail(items, |pre|);
      assert pre' + Encode(map[], rest) + post == pre' + tail;
      PatchFirst(env, pre + ItemBytes(map[], it) + tail, pre' + tail, ItemRefs(it, |pre|), Refs(rest, |pre'|));
    }
  }

  lemma NothingPatched(env: Env, pre: seq<Byte>, post: seq<Byte>)
    ensures InBounds(pre + Encode(map[], []) + post, Refs([], |pre|))
    ensures PatchAll(pre + Encode(map[], []) + post, Refs([], |pre|), env) == pre + Encode(env, []) + post
  {
  }

  lemma EncodeParts(env: Env, pre: seq<Byte>, items: seq<Item>, post: seq<Byte>)
    requires AllWellFormed(items) && items != []
    ensures WellFormed(items[0]) && AllWellFormed(items[1..])
    ensures |ItemBytes(env, items[0])| == ItemSize(items[0])
    ensures pre + Encode(env, items) + post == pre + ItemBytes(env, items[0]) + Encode(env, items[1..]) + post
    ensures pre + Encode(env, items) + post == pre + ItemBytes(env, items[0]) + (Encode(env, items[1..]) + post)
  {
    hide ItemBytes, WellFormed, Encode;
    EncodeFirst(env, items);
    Regrouped(pre, ItemBytes(env, items[0]), Encode(env, items[1..]), post);
  }

  lemma EncodeFirst(env: Env, items: seq<Item>)
    requires AllWellFormed(items) && items != []
    ensures WellFormed(items[0]) && AllWellFormed(items[1..])
    ensures Encode(env, items) == ItemBytes(env, items[0]) + Encode(env, items[1..])
  {
    hide ItemBytes, WellFormed;
  }

  lemma Regrouped(a: seq<Byte>, b: seq<Byte>, c: seq<Byte>, d: seq<Byte>)
    ensures a + (b + c) + d == a + b + c + d == a + b + (c + d)
  {
  }

  /** Patching at most one site first, and then the others. */
  lemma PatchFirst(env: Env, before: seq<Byte>, after: seq<Byte>, first: seq<Ref>, rest: seq<Ref>)
    requires |first| <= 1 && InBounds(after, rest) && |after| == |before|
    requires first == [] ==> before == after
    requires first != [] ==> first[0].idx + 1 < |before| && Patch(before, first[0], env) == after
    ensures InBounds(before, first + rest)
    ensures PatchAll(before, first + rest, env) == PatchAll(after, rest, env)
  {
    hide Patch;
    if first == [] {
      assert first + rest == rest;
    } else {
      assert (first + rest)[1..] == rest;
    }
  }

  lemma RefsTail(items: seq<Item>, base: nat)
    requires items != []
    ensures Refs(items, base) == ItemRefs(items[0], base) + Refs(items[1..], base + ItemSize(items[0]))
  {
  }

  /** One item has at most one reference, and patching it turns the item's placeholder bytes
      into its resolved bytes. */
  lemma PatchItem(env: Env, pre: seq<Byte>, it: Item, tail: seq<Byte>)
    requires WellFormed(it)
    ensures |ItemRefs(it, |pre|)| <= 1
    ensures ItemRefs(it, |pre|) == [] ==> ItemBytes(env, it) == ItemBytes(map[], it)
    ensures ItemRefs(it, |pre|) != [] ==>
              var r := ItemRefs(it, |pre|)[0];
              && r.idx + 1 < |pre + ItemBytes(map[], it) + tail|
              && Patch(pre + ItemBytes(map[], it) + tail, r, env) == pre + ItemBytes(env, it) + tail
  {
    hide ToByte, Opcode, High, Low;
    if ItemRefs(it, |pre|) != [] {
      var t := it.arg.t;
      var head := if it.arg.WordArg? then pre + [Opcode(it.op)] else pre + [Opcode(it.op), it.arg.mask];
      assert pre + ItemBytes(map[], it) + tail == head + WordBytes(t.offset) + tail;
      assert pre + ItemBytes(env, it) + tail == head + TargetBytes(env, t) + tail;
      PairReplaced(head, WordBytes(t.offset), TargetBytes(env, t), tail);
    }
  }

  lemma PairReplaced(head: seq<Byte>, a: seq<Byte>, b: seq<Byte>, tail: seq<Byte>)
    requires |a| == |b| == 2
    ensures var bytes := head + a + tail;
            && bytes[|head|] == a[0] && bytes[|head| + 1] == a[1]
            && bytes[|head| := b[0]][|head| + 1 := b[1]] == head + b + tail
  {
  }

  // ---------- the sites ----------

  /** Sites lie at least two bytes apart, in increasing order, inside [lo, hi). */
  ghost predicate Spread(refs: seq<Ref>, lo: nat, hi: nat) {
    && (forall i :: 0 <= i < |refs| ==> lo < refs[i].idx && refs[i].idx + 1 < hi)
    && (forall i, j :: 0 <= i < j < |refs| ==> refs[i].idx + 3 <= refs[j].idx)
  }

  /** Recorded indices increase by at least three and lie inside the emitted bytes. */
  lemma {:induction false} RefsSpread(items: seq<Item>, base: nat)
    requires AllWellFormed(items)
    ensures Spread(Refs(items, base), base, base + SizeOf(items))
    decreases |items|
  {
    hide WellFormed, ItemRefs;
    if items != [] {
      RefsSpread(items[1..], base + ItemSize(items[0]));
      ItemSpread(items[0], base);
      RefsTail(items, base);
    }
  }

  lemma ItemSpread(it: Item, base: nat)
    ensures |ItemRefs(it, base)| <= 1
    ensures ItemRefs(it, base) != [] ==>
              base < ItemRefs(it, base)[0].idx && ItemRefs(it, base)[0].idx + 2 == base + ItemSize(it)
  {
  }

  ghost predicate Disjoint(refs: seq<Ref>) {
    forall i, j :: 0 <= i < j < |refs| ==>
      refs[i].idx + 1 < refs[j].idx || refs[j].idx + 1 < refs[i].idx
  }

  /** Sites as far apart as the recorded ones do not overlap. */
  lemma SpreadSites(refs: seq<Ref>, bytes: seq<Byte>, lo: nat)
    requires Spread(refs, lo, |bytes|)
    ensures InBounds(bytes, refs) && Disjoint(refs)
  {
  }

  /** Byte k is one of the two bytes of the site. */
  predicate Covers(r: Ref, k: nat) { k == r.idx || k == r.idx + 1 }

  /** Bytes outside every site are left alone. */
  lemma {:induction false} PatchElsewhere(bytes: seq<Byte>, refs: seq<Ref>, env: Env, k: nat)
    requires InBounds(bytes, refs) && k < |bytes|
    requires forall i :: 0 <= i < |refs| ==> !Covers(refs[i], k)
    ensures PatchAll(bytes, refs, env)[k] == bytes[k]
    decreases |refs|
  {
    hide ToByte;
    if refs != [] {
      assert !Covers(refs[0], k);
      PatchElsewhere(Patch(bytes, refs[0], env), refs[1..], env, k);
    }
  }

  /** Each site ends up holding the label's value added to what it held at the start. */
  lemma {:induction false} PatchAtSite(bytes: seq<Byte>, refs: seq<Ref>, env: Env, i: nat)
    requires InBounds(bytes, refs) && Disjoint(refs) && i < |refs|
    ensures PatchAll(bytes, refs, env)[refs[i].idx] == PatchedHigh(bytes, refs[i], env)
    ensures PatchAll(bytes, refs, env)[refs[i].idx + 1] == PatchedLow(bytes, refs[i], env)
    decreases |refs|
  {
    hide ToByte;
    var next := Patch(bytes, refs[0], env);
    if i == 0 {
      PatchElsewhere(next, refs[1..], env, refs[0].idx);
      PatchElsewhere(next, refs[1..], env, refs[0].idx + 1);
    } else {
      assert refs[1..][i - 1] == refs[i];
      PatchAtSite(next, refs[1..], env, i - 1);
    }
  }

  /** The word at a patched site is the label's value added to the placeholder, exactly when the low
      bytes do not carry. */
  lemma PatchedWord(bytes: seq<Byte>, r: Ref, env: Env)
    requires r.idx + 1 < |bytes| && r.name in env
    ensures var w := Join(bytes[r.idx], bytes[r.idx + 1]);
            (Join(PatchedHigh(bytes, r, env), PatchedLow(bytes, r, env)) == ToWord(w + env[r.name]))
              == (bytes[r.idx + 1] + env[r.name] % 256 < 256)
  {
    hide ToByte, ToWord, Join, High, Low;
    var w := Join(bytes[r.idx], bytes[r.idx + 1]);
    JoinParts(bytes[r.idx], bytes[r.idx + 1]);
    AddBytesExact(w, env[r.name]);
  }

  /** The order in which the sites are patched does not matter. */
  lemma PatchOrder(bytes: seq<Byte>, refs: seq<Ref>, other: seq<Ref>, env: Env)
    requires InBounds(bytes, refs) && Disjoint(refs) && multiset(refs) == multiset(other)
    ensures InBounds(bytes, other)
    ensures PatchAll(bytes, other, env) == PatchAll(bytes, refs, env)
  {
    hide PatchAll, Disjoint;
    DisjointReordered(refs, other);
    forall i | 0 <= i < |other|
      ensures other[i].idx + 1 < |bytes|
    {
      var j := SameElement(other, refs, i);
    }
    forall k | 0 <= k < |bytes|
      ensures PatchAll(bytes, other, env)[k] == PatchAll(bytes, refs, env)[k]
    {
      PatchOrderAt(bytes, refs, other, env, k);
    }
  }

  /** Sites that do not overlap do not overlap in any other order. */
  lemma DisjointReordered(refs: seq<Ref>, other: seq<Ref>)
    requires Disjoint(refs) && multiset(refs) == multiset(other)
    ensures Disjoint(other)
  {
    forall i, j | 0 <= i < j < |other|
      ensures other[i].idx + 1 < other[j].idx || other[j].idx + 1 < other[i].idx
    {
      var k := SameElement(other, refs, i);
      var m := SameElement(other, refs, j);
      if k == m {
        OccursOnce(refs, other[i]);
        OccursTwice(other, i, j);
      }
    }
  }

  lemma {:induction false} OccursOnce(refs: seq<Ref>, r: Ref)
    requires Disjoint(refs)
    ensures multiset(refs)[r] <= 1
    decreases |refs|
  {
    if refs != [] {
      OccursOnce(refs[1..], r);
      assert refs == [refs[0]] + refs[1..];
      assert refs[0] !in refs[1..];
    }
  }

  lemma OccursTwice(refs: seq<Ref>, i: nat, j: nat)
    requires i < j < |refs| && refs[i] == refs[j]
    ensures multiset(refs)[refs[i]] >= 2
  {
    var a, b := refs[..j], refs[j..];
    assert refs == a + b;
    assert a[i] in a && b[0] in b;
  }

  lemma PatchOrderAt(bytes: seq<Byte>, refs: seq<Ref>, other: seq<Ref>, env: Env, k: nat)
    requires InBounds(bytes, refs) && InBounds(bytes, other) && Disjoint(refs) && Disjoint(other)
    requires multiset(refs) == multiset(other) && k < |bytes|
    ensures PatchAll(bytes, other, env)[k] == PatchAll(bytes, refs, env)[k]
  {
    hide PatchAll, PatchedHigh, PatchedLow, Disjoint;
    if i :| 0 <= i < |refs| && Covers(refs[i], k) {
      var j := SameElement(refs, other, i);
      PatchAtSite(bytes, refs, env, i);
      PatchAtSite(bytes, other, env, j);
    } else {
      forall j | 0 <= j < |other|
        ensures !Covers(other[j], k)
      {
        var i := SameElement(other, refs, j);
        assert !Covers(refs[i], k);
      }
      PatchElsewhere(bytes, refs, env, k);
      PatchElsewhere(bytes, other, env, k);
    }
  }

  lemma SameElement(a: seq<Ref>, b: seq<Ref>, i: nat) returns (j: nat)
    requires multiset(a) == multiset(b) && i < |a|
    ensures j < |b| && b[j] == a[i]
  {
    assert a[i] in multiset(b);
    j :| j < |b| && b[j] == a[i];
  }
}
