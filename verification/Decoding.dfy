/** Reading assembled code back: the byte stream decodes to exactly the instructions emitted. */
module Decoding {
  import opened Words
  import opened Isa
  import opened Encoding
  import opened Syntax
  import opened Lowering

  /** An operation and its operand bytes. */
  datatype Decoded = Decoded(op: Op, args: seq<Byte>)

  /** Sequential decoding by opcode length; none if the bytes end inside an instruction. */
  function DecodeStream(bytes: seq<Byte>): Option<seq<Decoded>> {
    if bytes == [] then Some([])
    else
      var op := Decode(bytes[0]);
      if Length(op) == 0 || |bytes| < Length(op) then None
      else
        match DecodeStream(bytes[Length(op)..])
        case None => None
        case Some(rest) => Some([Decoded(op, bytes[1..Length(op)])] + rest)
  }

  predicate DataFree(items: seq<Item>) { forall i :: 0 <= i < |items| ==> items[i].Ins? }

  /** What the items are with every label resolved. */
  function Resolved(env: Env, items: seq<Item>): seq<Decoded>
    requires DataFree(items)
  {
    if items == [] then [] else [Decoded(items[0].op, ArgBytes(env, items[0].arg))] + Resolved(env, items[1..])
  }

  /** Any data-free code decodes to the instructions it encodes. */
  lemma {:induction false} DecodeEncode(env: Env, items: seq<Item>)
    requires AllWellFormed(items) && DataFree(items)
    ensures DecodeStream(Encode(env, items)) == Some(Resolved(env, items))
    decreases |items|
  {
    hide Decode, Opcode, Length, ArgBytes, ArgSize, Exists;
    if items != [] {
      var it, bytes := items[0], Encode(env, items);
      DecodeEncode(env, items[1..]);
      WellFormedIns(it);
      DecodeOpcode(it.op);
      assert bytes == [Opcode(it.op)] + ArgBytes(env, it.arg) + Encode(env, items[1..]);
      assert bytes[Length(it.op)..] == Encode(env, items[1..]);
      assert bytes[1..Length(it.op)] == ArgBytes(env, it.arg);
    }
  }

  lemma WellFormedIns(it: Item)
    requires it.Ins? && WellFormed(it)
    ensures Exists(it.op) && Length(it.op) == 1 + ArgSize(it.arg) && Length(it.op) > 0
  {
  }

  /** Code has one reading: equal bytes mean equal instructions and operands. */
  lemma EncodeInjective(env: Env, a: seq<Item>, env': Env, b: seq<Item>)
    requires AllWellFormed(a) && DataFree(a) && AllWellFormed(b) && DataFree(b)
    requires Encode(env, a) == Encode(env', b)
    ensures Resolved(env, a) == Resolved(env', b)
  {
    hide *;
    DecodeEncode(env, a);
    DecodeEncode(env', b);
  }

  /** Decoding a data-free executable from PROGRAM_START on recovers the program and its HALT. */
  lemma DecodeExecutable(lines: seq<seq<Token>>)
    requires DataFree(ProgramItems(lines))
    ensures DecodeStream(OneShot(lines)[256..])
         == Some(Resolved(Labels(lines), ProgramItems(lines)) + [Decoded(Halt, [])])
  {
    hide Encode, DecodeStream, ItemsTo, LabelsTo, Opcode;
    var env, items := Labels(lines), ProgramItems(lines);
    var all := items + [Ins(Halt, NoArg)];
    EncodeConcat(env, items, [Ins(Halt, NoArg)]);
    HaltBytes(env);
    HaltOpcode();
    assert OneShot(lines)[256..] == Encode(env, all);
    DecodeEncode(env, all);
    ResolvedConcat(env, items, [Ins(Halt, NoArg)]);
  }

  lemma HaltBytes(env: Env)
    ensures AllWellFormed([Ins(Halt, NoArg)]) && Encode(env, [Ins(Halt, NoArg)]) == [Opcode(Halt)]
    ensures DataFree([Ins(Halt, NoArg)]) && Resolved(env, [Ins(Halt, NoArg)]) == [Decoded(Halt, [])]
  {
  }

  lemma {:induction false} ResolvedConcat(env: Env, a: seq<Item>, b: seq<Item>)
    requires DataFree(a) && DataFree(b)
    ensures DataFree(a + b) && Resolved(env, a + b) == Resolved(env, a) + Resolved(env, b)
    decreases |a|
  {
    if a == [] {
      assert a + b == b;
    } else {
      ResolvedConcat(env, a[1..], b);
      assert (a + b)[1..] == a[1..] + b;
    }
  }
}
