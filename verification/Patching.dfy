/** What the second pass does to a program: any order of the recorded references gives the same
    executable, and each operand that names a label holds the sum it should exactly when the low
    bytes do not carry. */
module Patching {
  import opened Words
  import opened Isa
  import opened Encoding
  import opened Syntax
  import opened Lowering
  import opened TwoPass
  import opened AssemblerModel

  // ---------- order ----------

  /** The recorded sites lie inside the bytes of pass 1 and do not overlap. */
  lemma SitesApart(lines: seq<seq<Token>>)
    ensures InBounds(PassOne(lines), Recorded(lines)) && Disjoint(Recorded(lines))
  {
    hide *;
    TwoPassesAreOne(lines);
    RecordedSpread(lines);
    SpreadSites(Recorded(lines), Zeros(256) + Encode(map[], ProgramItems(lines)), 256);
  }

  lemma RecordedSpread(lines: seq<seq<Token>>)
    ensures Spread(Recorded(lines), 256, |Zeros(256) + Encode(map[], ProgramItems(lines))|)
  {
    hide Refs, Encode, SizeOf, ProgramItems, Spread;
    RefsSpread(ProgramItems(lines), 256);
  }

  /** Patching the references pass 1 records in any order gives the executable. */
  lemma AnyOrder(lines: seq<seq<Token>>, other: seq<Ref>)
    requires multiset(other) == multiset(Recorded(lines))
    ensures InBounds(PassOne(lines), other)
    ensures PatchAll(PassOne(lines), other, Labels(lines)) == OneShot(lines)
  {
    hide *;
    SitesApart(lines);
    TwoPassesAreOne(lines);
    PatchOrder(PassOne(lines), Recorded(lines), other, Labels(lines));
  }

  // ---------- operands ----------

  /** The big-endian word at index i. */
  function WordAt(bytes: seq<Byte>, i: nat): Word
    requires i + 1 < |bytes|
  {
    Join(bytes[i], bytes[i + 1])
  }

  /** The low bytes of an offset and a label's value carry. */
  predicate LowCarries(offset: Word, value: nat) { Low(offset) + value % 256 >= 256 }

  /** The label an instruction's operand names. */
  function NamedTarget(it: Item): Option<Target> {
    match it
    case Ins(_, WordArg(Lab(n, o))) => Some(Lab(n, o))
    case Ins(_, MaskArg(_, Lab(n, o))) => Some(Lab(n, o))
    case _ => None
  }

  /** The index of item k's last two bytes. */
  function Site(items: seq<Item>, k: nat): nat
    requires k < |items| && NamedTarget(items[k]).Some?
  {
    256 + SizeOf(items[..k]) + ItemSize(items[k]) - 2
  }

  /** Pass 1 records a reference for it there. */
  lemma ItemRecorded(items: seq<Item>, k: nat) returns (i: nat)
    requires k < |items| && NamedTarget(items[k]).Some?
    ensures i < |Refs(items, 256)|
    ensures Refs(items, 256)[i] == Ref(NamedTarget(items[k]).value.name, Site(items, k))
  {
    hide Refs, SizeOf, ItemSize;
    var before, it, after := items[..k], items[k], items[k + 1..];
    assert items == before + ([it] + after);
    RefsConcat(before, [it] + after, 256);
    RefsTail([it] + after, 256 + SizeOf(before));
    OneReference(it, 256 + SizeOf(before));
    i := |Refs(before, 256)|;
  }

  lemma OneReference(it: Item, base: nat)
    requires NamedTarget(it).Some?
    ensures ItemSize(it) >= 3
    ensures ItemRefs(it, base) == [Ref(NamedTarget(it).value.name, base + ItemSize(it) - 2)]
  {
  }

  /** And leaves the operand's displacement there. */
  lemma ItemPlaceholder(items: seq<Item>, k: nat, post: seq<Byte>)
    requires AllWellFormed(items) && k < |items| && NamedTarget(items[k]).Some?
    ensures var bytes, a := Zeros(256) + Encode(map[], items) + post, Site(items, k);
            a + 1 < |bytes| && WordAt(bytes, a) == NamedTarget(items[k]).value.offset
  {
    hide Encode, SizeOf, ItemSize, ItemBytes, WellFormed, Join, High, Low;
    var before, it, after := items[..k], items[k], items[k + 1..];
    assert items == before + ([it] + after);
    assert WellFormed(it);
    EncodeConcat(map[], before, [it] + after);
    EncodeFirst(map[], [it] + after);
    OneReference(it, 0);
    LastBytes(it);
    var pre, mid := Zeros(256) + Encode(map[], before), ItemBytes(map[], it);
    assert Zeros(256) + Encode(map[], items) + post == pre + mid + (Encode(map[], after) + post);
    WholeWord(NamedTarget(it).value.offset);
  }

  lemma LastBytes(it: Item)
    requires WellFormed(it) && NamedTarget(it).Some? && ItemSize(it) >= 3
    ensures var bytes, o := ItemBytes(map[], it), NamedTarget(it).value.offset;
            bytes[ItemSize(it) - 2] == High(o) && bytes[ItemSize(it) - 1] == Low(o)
  {
    hide Opcode, Length, High, Low;
  }

  /** Each recorded site of the executable holds the label's value added to what pass 1 left there
      exactly when the low bytes do not carry. */
  lemma SiteWord(lines: seq<seq<Token>>, i: nat)
    requires i < |Recorded(lines)| && Recorded(lines)[i].name in Labels(lines)
    ensures var r, env := Recorded(lines)[i], Labels(lines);
            && r.idx + 1 < |PassOne(lines)| == |OneShot(lines)|
            && var o := WordAt(PassOne(lines), r.idx);
               (WordAt(OneShot(lines), r.idx) == ToWord(o + env[r.name])) == !LowCarries(o, env[r.name])
  {
    hide PassOne, Recorded, Labels, OneShot, PatchAll, PatchedHigh, PatchedLow, Join, ToWord, Low, Disjoint;
    var bytes, refs, env := PassOne(lines), Recorded(lines), Labels(lines);
    TwoPassesAreOne(lines);
    SitesApart(lines);
    PatchAtSite(bytes, refs, env, i);
    PatchedWord(bytes, refs[i], env);
    JoinParts(bytes[refs[i].idx], bytes[refs[i].idx + 1]);
  }

  /** An operand that names a defined label holds the label's value plus its displacement, modulo
      65536, exactly when the low bytes of the two do not carry. */
  lemma OperandHolds(lines: seq<seq<Token>>, k: nat, name: string, offset: Word)
    requires k < |ProgramItems(lines)| && NamedTarget(ProgramItems(lines)[k]) == Some(Lab(name, offset))
    requires name in Labels(lines)
    ensures var a, v := Site(ProgramItems(lines), k), Labels(lines)[name];
            && a + 1 < |OneShot(lines)|
            && (WordAt(OneShot(lines), a) == ToWord(offset + v)) == !LowCarries(offset, v)
  {
    hide *;
    var i := ItemRecorded(ProgramItems(lines), k);
    RecordedIs(lines);
    ItemPlaceholder(ProgramItems(lines), k, [HALT]);
    SiteWord(lines, i);
  }

  lemma RecordedIs(lines: seq<seq<Token>>)
    ensures Recorded(lines) == Refs(ProgramItems(lines), 256)
    ensures PassOne(lines) == Zeros(256) + Encode(map[], ProgramItems(lines)) + [HALT]
  {
    hide Refs, ProgramItems, Encode, Zeros;
  }
}
