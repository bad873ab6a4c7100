/** Instructions with symbolic operands, their bytes under a label environment, the references
    the first pass records, and the patching the second pass does. */
module Encoding {
  import opened Words
  import opened Isa

  /** Label values, unbounded: `size_t` in the map, truncated when patched in. */
  type Env = map<string, nat>

  datatype Target = Abs(w: Word) | Lab(name: string, offset: Word)

  datatype Arg = NoArg | ByteArg(b: Byte) | WordArg(t: Target) | MaskArg(mask: Byte, t: Target)

  datatype Item = Ins(op: Op, arg: Arg) | Raw(b: Byte)

  /** The operand bytes fit the opcode: what is emitted is as long as what is executed. */
  predicate WellFormed(it: Item) {
    it.Ins? ==> Exists(it.op) && Length(it.op) == 1 + ArgSize(it.arg)
  }

  function ArgSize(arg: Arg): nat {
    match arg case NoArg => 0 case ByteArg(_) => 1 case WordArg(_) => 2 case MaskArg(_, _) => 3
  }

  function ItemSize(it: Item): nat {
    if it.Raw? then 1 else 1 + ArgSize(it.arg)
  }

  function SizeOf(items: seq<Item>): nat {
    if items == [] then 0 else ItemSize(items[0]) + SizeOf(items[1..])
  }

  // ---------- resolution ----------

  /** Pass 2 adds the two bytes of the label's value to the two placeholder bytes separately. */
  function AddBytes(offset: Word, value: nat): Word {
    Join(ToByte(High(offset) + value / 256), ToByte(Low(offset) + value))
  }

  /** A reference to a label that is never defined keeps its placeholder. */
  function Resolve(env: Env, t: Target): Word {
    match t
    case Abs(w) => w
    case Lab(n, o) => if n in env then AddBytes(o, env[n]) else o
  }

  /** The carry out of the low byte is lost: the sum is exact if and only if there is none, and
      256 too small modulo 65536 otherwise. */
  lemma AddBytesExact(offset: Word, value: nat)
    ensures AddBytes(offset, value) == ToWord(offset + value)
       <==> Low(offset) + value % 256 < 256
    ensures Low(offset) + value % 256 >= 256
        ==> AddBytes(offset, value) == ToWord(offset + value - 256)
  {
    var h, l := High(offset) + value / 256, Low(offset) + value % 256;
    assert offset + value == 256 * h + l;
    assert ToByte(Low(offset) + value) == l % 256;
    if l < 256 {
      WordOf(h, l);
    } else {
      WordOf(h, l - 256);
      WordOf(h + 1, l - 256);
      NextByteDiffers(h);
    }
  }

  lemma NextByteDiffers(h: nat)
    ensures ToByte(h) != ToByte(h + 1)
  {
  }

  /** A plain label resolves to its value. */
  lemma LabelWord(env: Env, name: string, a: Word)
    requires name in env && env[name] == a
    ensures Resolve(env, Lab(name, 0)) == a
  {
    hide ToByte;
    AddBytesExact(0, a);
    WrapSum(a, 0);
    WordsThemselves(a);
  }

  // ---------- bytes ----------

  function WordBytes(w: Word): seq<Byte> { [High(w), Low(w)] }

  /** The bytes of a target, high byte first. */
  function TargetBytes(env: Env, t: Target): (bs: seq<Byte>)
    ensures |bs| == 2
  {
    match t
    case Abs(w) => WordBytes(w)
    case Lab(n, o) =>
      if n in env then [ToByte(High(o) + env[n] / 256), ToByte(Low(o) + env[n])] else WordBytes(o)
  }

  /** Together they are the word the target resolves to. */
  lemma TargetWord(env: Env, t: Target)
    ensures Join(TargetBytes(env, t)[0], TargetBytes(env, t)[1]) == Resolve(env, t)
  {
    hide ToByte, Join, High, Low;
    match t
    case Abs(w) => WholeWord(w);
    case Lab(_, o) => WholeWord(o);
  }

  function ArgBytes(env: Env, arg: Arg): (bs: seq<Byte>)
    ensures |bs| == ArgSize(arg)
  {
    match arg
    case NoArg => []
    case ByteArg(b) => [b]
    case WordArg(t) => TargetBytes(env, t)
    case MaskArg(m, t) => [m] + TargetBytes(env, t)
  }

  function ItemBytes(env: Env, it: Item): (bs: seq<Byte>)
    requires WellFormed(it)
    ensures |bs| == ItemSize(it)
  {
    match it
    case Raw(b) => [b]
    case Ins(op, arg) => [Opcode(op)] + ArgBytes(env, arg)
  }

  predicate AllWellFormed(items: seq<Item>) {
    forall i :: 0 <= i < |items| ==> WellFormed(items[i])
  }

  /** The one-shot assembler: each item's bytes under a given environment, in order. With the
      empty environment these are the bytes of pass 1, placeholders included. */
  function Encode(env: Env, items: seq<Item>): (bs: seq<Byte>)
    requires AllWellFormed(items)
    ensures |bs| == SizeOf(items)
  {
    if items == [] then [] else ItemBytes(env, items[0]) + Encode(env, items[1..])
  }

  lemma {:induction false} EncodeConcat(env: Env, a: seq<Item>, b: seq<Item>)
    requires AllWellFormed(a) && AllWellFormed(b)
    ensures AllWellFormed(a + b)
    ensures Encode(env, a + b) == Encode(env, a) + Encode(env, b)
    ensures SizeOf(a + b) == SizeOf(a) + SizeOf(b)
  {
    hide ItemBytes, ItemSize, WellFormed;
    if a == [] {
      assert a + b == b;
    } else {
      EncodeConcat(env, a[1..], b);
      assert (a + b)[1..] == a[1..] + b;
    }
  }

  // ---------- references and patching ----------

  /** A recorded reference: the label and the index of the high placeholder byte. */
  datatype Ref = Ref(name: string, idx: nat)

  function TargetRefs(t: Target, idx: nat): seq<Ref> {
    if t.Lab? then [Ref(t.name, idx)] else []
  }

  function ItemRefs(it: Item, base: nat): seq<Ref> {
    match it
    case Ins(_, WordArg(t)) => TargetRefs(t, base + 1)
    case Ins(_, MaskArg(_, t)) => TargetRefs(t, base + 2)
    case _ => []
  }

  /** The references of items emitted from index base on, in the order pass 1 records them. */
  function Refs(items: seq<Item>, base: nat): seq<Ref> {
    if items == [] then [] else ItemRefs(items[0], base) + Refs(items[1..], base + ItemSize(items[0]))
  }

  lemma {:induction false} RefsConcat(a: seq<Item>, b: seq<Item>, base: nat)
    ensures Refs(a + b, base) == Refs(a, base) + Refs(b, base + SizeOf(a))
  {
    hide ItemRefs, ItemSize;
    if a == [] {
      assert a + b == b;
    } else {
      RefsConcat(a[1..], b, base + ItemSize(a[0]));
      assert (a + b)[1..] == a[1..] + b;
    }
  }

  predicate InBounds(bytes: seq<Byte>, refs: seq<Ref>) {
    forall i :: 0 <= i < |refs| ==> refs[i].idx + 1 < |bytes|
  }

  /** What pass 2 does for one reference. */
  function Patch(bytes: seq<Byte>, r: Ref, env: Env): (out: seq<Byte>)
    requires r.idx + 1 < |bytes|
    ensures |out| == |bytes|
  {
    bytes[r.idx := PatchedHigh(bytes, r, env)][r.idx + 1 := PatchedLow(bytes, r, env)]
  }

  /** The two bytes of the label's value, added to those of the site separately. */
  function PatchedHigh(bytes: seq<Byte>, r: Ref, env: Env): Byte
    requires r.idx + 1 < |bytes|
  {
    if r.name in env then ToByte(bytes[r.idx] + env[r.name] / 256) else bytes[r.idx]
  }

  function PatchedLow(bytes: seq<Byte>, r: Ref, env: Env): Byte
    requires r.idx + 1 < |bytes|
  {
    if r.name in env then ToByte(bytes[r.idx + 1] + env[r.name]) else bytes[r.idx + 1]
  }

  function PatchAll(bytes: seq<Byte>, refs: seq<Ref>, env: Env): (out: seq<Byte>)
    requires InBounds(bytes, refs)
    ensures |out| == |bytes|
    decreases |refs|
  {
    if refs == [] then bytes else PatchAll(Patch(bytes, refs[0], env), refs[1..], env)
  }
}
