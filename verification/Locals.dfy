/** Frame addressing: what `{BP + 3 + j}` and `{BP - i}` denote after a caller has pushed its
    arguments and called, and the callee has entered its frame. */
module Locals {
  import opened Words
  import opened Isa
  import opened Machine
  import opened Encoding
  import opened Syntax
  import opened Lowering
  import opened Spelling
  import opened Frames

  /** Execution from s to t that pushes the given bytes in order: before each push and behind the
      last it follows a trace, so an argument may itself be computed by calls, pushes and pops. */
  ghost predicate Pushing(s: State, gaps: seq<Trace>, vs: seq<Byte>, t: State, sc: Scope)
    decreases |gaps|
  {
    && |gaps| == |vs| + 1
    && match Follow(gaps[0], s, sc.args, sc.locals)
       case None => false
       case Some(u) => if vs == [] then u == t else Pushes(u, vs[0]) && Pushing(Step(u), gaps[1..], vs[1..], t, sc)
  }

  predicate Pushes(u: State, v: Byte) {
    CanStep(u) && Current(u).Push? && PushedByte(Current(u).pushed, u) == v
  }

  /** The traces are balanced and have room above what is pushed before them. */
  ghost predicate GapsFit(gaps: seq<Trace>, z: int, lo: int, sc: Scope) {
    forall k :: 0 <= k < |gaps| ==> Fits(gaps[k], z + k, lo, sc) && Drops(gaps[k]) == 0
  }

  /** After the arguments: CALL leads to e, ENTER with n locals to f. */
  ghost predicate Entered(c: State, e: State, f: State, n: Byte) {
    && CanStep(c) && Current(c) == Call && e == Step(c)
    && CanStep(e) && Current(e) == Enter && OperandByte(e, 0) == n && f == Step(e)
  }

  /** The bytes from position z on. */
  ghost predicate Holds(stack: Stack, z: int, vs: seq<Byte>) {
    forall j :: 0 <= j < |vs| ==> ByteAt(stack, z + j) == vs[j]
  }

  lemma HoldsSet(stack: Stack, z: int, vs: seq<Byte>, y: int, v: Byte)
    requires Holds(stack, z, vs) && z + |vs| <= y < z + 256
    ensures Holds(Set(stack, y, v), z, vs)
  {
    hide Set, ByteAt;
    forall j | 0 <= j < |vs|
      ensures ByteAt(Set(stack, y, v), z + j) == vs[j]
    {
      SetAt(stack, y, v, z + j);
    }
  }

  lemma HoldsOneMore(stack: Stack, z: int, vs: seq<Byte>, v: Byte)
    requires Holds(stack, z, vs) && |vs| < 256
    ensures Holds(Set(stack, z + |vs|, v), z, vs + [v])
  {
    hide Set, ByteAt;
    HoldsSet(stack, z, vs, z + |vs|, v);
    SetAt(stack, z + |vs|, v, z + |vs|);
  }

  lemma PushedAt(s: State, y: int)
    requires CanStep(s) && Current(s).Push? && s.sp == ToByte(y)
    ensures var v, t := PushedByte(Current(s).pushed, s), Step(s);
            t.stack == Set(s.stack, y, v) && t.sp == ToByte(y + 1) && t.bp == s.bp
  {
    hide *;
    StepIs(s);
    PushedExec(Current(s), s);
    Shift(s.sp, y, 1);
    Shift(s.sp, y, 0);
    assert s.sp + 0 == s.sp && y + 0 == y;
    Same(s.stack, s.sp, y, PushedByte(Current(s).pushed, s));
  }

  lemma PushedExec(op: Op, s: State)
    requires Exists(op) && Defined(op, s) && op.Push?
    ensures var t := Exec(op, s);
            t.stack == Set(s.stack, s.sp, PushedByte(op.pushed, s)) && t.sp == ToByte(s.sp + 1) && t.bp == s.bp
  {
    hide FlagsByte, PlaceOf, ZeroSign, Get;
  }

  lemma PushingParts(s: State, gaps: seq<Trace>, vs: seq<Byte>, t: State, sc: Scope) returns (u: State)
    requires Pushing(s, gaps, vs, t, sc)
    ensures |gaps| == |vs| + 1 && Follow(gaps[0], s, sc.args, sc.locals) == Some(u)
    ensures if vs == [] then u == t else Pushes(u, vs[0]) && Pushing(Step(u), gaps[1..], vs[1..], t, sc)
    ensures vs != [] ==> CanStep(u) && Current(u).Push? && PushedByte(Current(u).pushed, u) == vs[0]
  {
    hide CanStep, Step, Current, PushedByte, Follow;
    u := Follow(gaps[0], s, sc.args, sc.locals).value;
  }

  lemma GapsParts(gaps: seq<Trace>, z: int, lo: int, sc: Scope)
    requires GapsFit(gaps, z, lo, sc) && gaps != []
    ensures Fits(gaps[0], z, lo, sc) && Drops(gaps[0]) == 0 && lo <= z && z < lo + 257
    ensures sc.args + sc.locals > 0 ==> sc.b + sc.locals <= z
    ensures GapsFit(gaps[1..], z + 1, lo, sc)
  {
    hide Drops, WellBracketed, Depth;
    assert Fits(gaps[0], z + 0, lo, sc) && Drops(gaps[0]) == 0;
    DepthNat(gaps[0]);
    forall k | 0 <= k < |gaps[1..]|
      ensures Fits(gaps[1..][k], z + 1 + k, lo, sc) && Drops(gaps[1..][k]) == 0
    {
      assert Fits(gaps[k + 1], z + (k + 1), lo, sc);
    }
  }

  /** A trace that restores the stack keeps what lies on it behind the frame it runs in. */
  lemma HoldsKept(s: State, u: State, vs: seq<Byte>, z: int, lo: int, sc: Scope)
    requires Unchanged(s.stack, u.stack, lo, z + |vs|, sc) && Holds(s.stack, z, vs) && lo <= z
    requires sc.args + sc.locals > 0 ==> sc.b + sc.locals <= z
    ensures Holds(u.stack, z, vs)
  {
    hide ByteAt;
  }

  lemma GapKeeps(tr: Trace, s: State, u: State, vs: seq<Byte>, z: int, lo: int, sc: Scope)
    requires Fits(tr, z + |vs|, lo, sc) && Drops(tr) == 0 && Stands(s, z + |vs|, sc) && lo <= z
    requires Follow(tr, s, sc.args, sc.locals) == Some(u) && Holds(s.stack, z, vs)
    requires sc.args + sc.locals > 0 ==> sc.b + sc.locals <= z
    ensures Holds(u.stack, z, vs) && Stands(u, z + |vs|, sc) && u.bp == s.bp
  {
    hide *;
    var t := Discipline(tr, s, z + |vs|, lo, sc);
    RestoresParts(tr, s, z + |vs|, lo, sc, t);
    RestoresStack(tr, s, z + |vs|, lo, sc, t);
    StandsAgain(s, t, z + |vs|, z + |vs|, sc);
    HoldsKept(s, t, vs, z, lo, sc);
  }

  lemma RestoresStack(tr: Trace, s: State, z: int, lo: int, sc: Scope, t: State)
    requires Restores(tr, s, z, lo, sc, t) && Drops(tr) == 0
    ensures Unchanged(s.stack, t.stack, lo, z, sc)
  {
    hide Lands, Unchanged, ToByte, Drops;
  }

  /** The pushed bytes lie in order above the bytes already there. */
  lemma {:induction false} ArgumentsLie(s: State, gaps: seq<Trace>, vs: seq<Byte>, t: State, z: int, lo: int,
                                        sc: Scope, before: seq<Byte>)
    requires Pushing(s, gaps, vs, t, sc) && Holds(s.stack, z, before) && |before| + |vs| <= 256
    requires Stands(s, z + |before|, sc) && GapsFit(gaps, z + |before|, lo, sc) && lo <= z
    requires sc.args + sc.locals > 0 ==> sc.b + sc.locals <= z
    ensures Holds(t.stack, z, before + vs) && Stands(t, z + |before| + |vs|, sc) && t.bp == s.bp
    decreases |gaps|
  {
    hide *;
    var u := PushingParts(s, gaps, vs, t, sc);
    GapsParts(gaps, z + |before|, lo, sc);
    GapKeeps(gaps[0], s, u, before, z, lo, sc);
    if vs == [] {
      assert before + vs == before;
    } else {
      StandsParts(u, z + |before|, sc);
      PushedAt(u, z + |before|);
      StandsAt(Step(u), z + |before| + 1, sc);
      HoldsOneMore(u.stack, z, before, vs[0]);
      ArgumentsLie(Step(u), gaps[1..], vs[1..], t, z, lo, sc, before + [vs[0]]);
      assert before + [vs[0]] + vs[1..] == before + vs;
    }
  }

  lemma StandsParts(s: State, z: int, sc: Scope)
    requires Stands(s, z, sc)
    ensures s.sp == ToByte(z) && s.bp == ToByte(sc.b)
  {
    hide ToByte;
  }

  /** The frame of the callee, from position z on: the arguments, the return address, the saved
      frame pointer, and the locals from the frame pointer on. */
  ghost predicate FrameAt(f: State, z: int, vs: seq<Byte>, back: Word, saved: Byte, n: Byte) {
    && Holds(f.stack, z, vs + [High(back), Low(back), saved])
    && f.bp == ToByte(z + |vs| + 3) && f.sp == ToByte(z + |vs| + 3 + n)
  }

  lemma FrameLaidOut(s: State, gaps: seq<Trace>, vs: seq<Byte>, c: State, e: State, f: State, n: Byte,
                     z: int, lo: int, sc: Scope)
    requires Pushing(s, gaps, vs, c, sc) && GapsFit(gaps, z, lo, sc) && Stands(s, z, sc)
    requires Entered(c, e, f, n) && |vs| + n + 3 <= 256
    ensures FrameAt(f, z, vs, ToWord(c.pc + 3), s.bp, n)
  {
    hide *;
    NothingHeldYet(s, z);
    var _ := PushingParts(s, gaps, vs, c, sc);
    GapsParts(gaps, z, lo, sc);
    ArgumentsLie(s, gaps, vs, c, z, lo, sc, []);
    assert [] + vs == vs;
    FrameEntered(vs, c, e, f, n, z, sc);
  }

  /** CALL and ENTER build the frame above the arguments. */
  lemma FrameEntered(vs: seq<Byte>, c: State, e: State, f: State, n: Byte, z: int, sc: Scope)
    requires Holds(c.stack, z, vs) && Stands(c, z + |vs|, sc) && Entered(c, e, f, n) && |vs| + n + 3 <= 256
    ensures FrameAt(f, z, vs, ToWord(c.pc + 3), c.bp, n)
  {
    hide *;
    EnteredParts(c, e, f, n);
    var y, w := z + |vs|, ToWord(c.pc + 3);
    CallAt(c, y, sc);
    EnterAt(e, y + 2, sc);
    HoldsOneMore(c.stack, z, vs, High(w));
    HoldsOneMore(Set(c.stack, y, High(w)), z, vs + [High(w)], Low(w));
    HoldsOneMore(e.stack, z, vs + [High(w)] + [Low(w)], c.bp);
    assert vs + [High(w)] + [Low(w)] + [c.bp] == vs + [High(w), Low(w), c.bp];
    FrameIs(f, z, vs, w, c.bp, n);
  }

  lemma EnteredParts(c: State, e: State, f: State, n: Byte)
    requires Entered(c, e, f, n)
    ensures CanStep(c) && Current(c) == Call && e == Step(c)
    ensures CanStep(e) && Current(e) == Enter && OperandByte(e, 0) == n && f == Step(e)
  {
    hide CanStep, Step, Current, OperandByte;
  }

  lemma StandsAt(s: State, z: int, sc: Scope)
    requires s.sp == ToByte(z) && s.bp == ToByte(sc.b)
    ensures Stands(s, z, sc)
  {
    hide ToByte;
  }

  lemma FrameIs(f: State, z: int, vs: seq<Byte>, w: Word, saved: Byte, n: Byte)
    requires Holds(f.stack, z, vs + [High(w), Low(w), saved])
    requires f.bp == ToByte(z + |vs| + 3) && f.sp == ToByte(z + |vs| + 3 + n)
    ensures FrameAt(f, z, vs, w, saved, n)
  {
    hide ToByte, Holds, High, Low;
  }

  lemma NothingHeldYet(s: State, z: int)
    ensures Holds(s.stack, z, [])
  {
  }

  // ---------- what the expressions denote ----------

  /** The stack byte the instruction for `{...}` with displacement d addresses. */
  function LocalByte(d: Word, f: State): Byte { ToByte(f.bp - ToByte(d + 1)) }

  /** A `{...}` operand of any instruction becomes the frame variant addressing that byte. */
  lemma LocalLowers(kind: Kind, d: Word, s: State)
    requires OperandByte(s, 0) == ToByte(d + 1)
    ensures Lower(Use(kind, Local(d))) == [Ins(Do(kind, Frame), ByteArg(ToByte(d + 1)))]
    ensures PlaceOf(Frame, s) == Slot(LocalByte(d, s))
  {
  }

  lemma MinusLocal(i: nat)
    ensures ParseOperand([Mark(LCurly), Mark(Register(BP)), Mark(Minus), Literal(i), Mark(RCurly)])
         == Some(Local(ToWord(0 - i)))
  {
    hide ParseTerms, ToWord;
    var ts := [Mark(LCurly), Mark(Register(BP)), Mark(Minus), Literal(i), Mark(RCurly)];
    var inner := ts[1..];
    assert inner == [Mark(Register(BP)), Mark(Minus), Literal(i), Mark(RCurly)];
    RegisterFirst(inner, Minus, RCurly);
    assert inner[2..] == [Literal(i), Mark(RCurly)];
    NumberLast(inner[2..], true, i);
    assert ParseExpr(inner, RCurly) == ParseTerms(inner, false, MemExpr(Absolute, 0), RCurly);
  }

  lemma PlusLocal(i: nat)
    ensures ParseOperand([Mark(LCurly), Mark(Register(BP)), Mark(Plus), Literal(i), Mark(RCurly)])
         == Some(Local(ToWord(i)))
  {
    hide ParseTerms, ToWord;
    var ts := [Mark(LCurly), Mark(Register(BP)), Mark(Plus), Literal(i), Mark(RCurly)];
    var inner := ts[1..];
    assert inner == [Mark(Register(BP)), Mark(Plus), Literal(i), Mark(RCurly)];
    RegisterFirst(inner, Plus, RCurly);
    assert inner[2..] == [Literal(i), Mark(RCurly)];
    NumberLast(inner[2..], false, i);
    assert ParseExpr(inner, RCurly) == ParseTerms(inner, false, MemExpr(Absolute, 0), RCurly);
  }

  lemma RegisterFirst(ts: seq<Token>, sign: Sym, end: Sym)
    requires |ts| >= 2 && ts[0] == Mark(Register(BP)) && ts[1].sym == sign && IsSign(sign)
    ensures ParseTerms(ts, false, MemExpr(Absolute, 0), end)
         == ParseTerms(ts[2..], sign == Minus, MemExpr(ByBP, 0), end)
  {
    hide ApplyTerm;
    RegisterApplied(ByBP);
  }

  lemma NumberLast(ts: seq<Token>, minus: bool, i: nat)
    requires ts == [Literal(i), Mark(RCurly)]
    ensures ParseTerms(ts, minus, MemExpr(ByBP, 0), RCurly)
         == Some(MemExpr(ByBP, ToWord(if minus then 0 - i else i)))
  {
    hide ToWord;
  }

  /** `{BP + 3 + j}` is the j-th argument from the last, for every j: through the 16-bit
      displacement, the increment, the truncation to a byte, and the subtraction from BP. */
  lemma ArgumentAddressed(f: State, z: int, vs: seq<Byte>, back: Word, saved: Byte, n: Byte, j: nat)
    requires FrameAt(f, z, vs, back, saved, n) && j < |vs| && |vs| + n + 3 <= 256
    ensures ArgumentByte(j, f) == ToByte(z + |vs| - 1 - j)
    ensures f.stack[ArgumentByte(j, f)] == vs[|vs| - 1 - j]
  {
    hide High, Low;
    LocalPosition(f, z + |vs| + 3, 3 + j);
    var i := |vs| - 1 - j;
    assert ByteAt(f.stack, z + i) == (vs + [High(back), Low(back), saved])[i];
  }

  /** `{BP - i}` is the i-th local. */
  lemma LocalAddressed(f: State, z: int, vs: seq<Byte>, back: Word, saved: Byte, n: Byte, i: nat)
    requires FrameAt(f, z, vs, back, saved, n) && 1 <= i <= n
    ensures LocalAt(i, f) == ToByte(z + |vs| + 3 + i - 1)
  {
    hide Holds;
    LocalPosition(f, z + |vs| + 3, 0 - i);
  }

  lemma LocalPosition(f: State, b: int, d: int)
    requires f.bp == ToByte(b)
    ensures LocalByte(ToWord(d), f) == ToByte(b - d - 1)
  {
    ByteOfWord(d);
    SubtractWrapped(b, d + 1);
  }

  lemma ByteOfWord(d: int)
    ensures ToByte(ToWord(d) + 1) == ToByte(d + 1)
  {
    assert ToWord(d) == d - 65536 * (d / 65536);
    assert d + 1 == (ToWord(d) + 1) + 256 * (256 * (d / 65536));
    WholeTurns(ToWord(d) + 1, 256 * (d / 65536));
  }

  lemma SubtractWrapped(b: int, d: int)
    ensures ToByte(ToByte(b) - ToByte(d)) == ToByte(b - d)
  {
  }

  /** Arguments, return address, saved frame pointer and locals are pairwise distinct bytes. */
  lemma FrameDistinct(z: int, k: nat, n: nat, x: int, y: int)
    requires k + n + 3 <= 256 && z <= x < z + k + 3 + n && z <= y < z + k + 3 + n
    ensures ToByte(x) == ToByte(y) <==> x == y
  {
  }

  /** The byte `{BP + 3 + j}` addresses. */
  function ArgumentByte(j: nat, f: State): Byte { LocalByte(ToWord(3 + j), f) }

  /** The byte `{BP - i}` addresses. */
  function LocalAt(i: nat, f: State): Byte { LocalByte(ToWord(0 - i), f) }

  /** The byte x below the frame pointer: 1 the saved frame pointer, 2 and 3 the return address,
      and the arguments from 4 on. */
  function BelowFrame(x: nat, f: State): Byte { ToByte(f.bp - x) }

  /** The whole protocol: whatever balanced code runs around the pushes, inside the callee the
      expressions denote the pushed arguments and distinct local bytes, none of which is an argument,
      the saved frame pointer or part of the return address. The caller stands at position z, in a
      frame of its own that lies between lo and z. */
  lemma FrameExpressions(s: State, gaps: seq<Trace>, vs: seq<Byte>, c: State, e: State, f: State, n: Byte,
                         z: int, lo: int, sc: Scope)
    requires Pushing(s, gaps, vs, c, sc) && GapsFit(gaps, z, lo, sc) && Stands(s, z, sc)
    requires Entered(c, e, f, n) && |vs| + n + 3 <= 256
    ensures forall j :: 0 <= j < |vs| ==> f.stack[ArgumentByte(j, f)] == vs[|vs| - 1 - j]
    ensures f.stack[BelowFrame(1, f)] == s.bp
    ensures Join(f.stack[BelowFrame(3, f)], f.stack[BelowFrame(2, f)]) == ToWord(c.pc + 3)
    ensures forall i, x :: 1 <= i <= n && 1 <= x <= 3 + |vs| ==> LocalAt(i, f) != BelowFrame(x, f)
    ensures forall i, i' :: 1 <= i < i' <= n ==> LocalAt(i, f) != LocalAt(i', f)
  {
    hide *;
    var back := ToWord(c.pc + 3);
    FrameLaidOut(s, gaps, vs, c, e, f, n, z, lo, sc);
    FrameLinks(f, z, vs, back, s.bp, n);
    forall j | 0 <= j < |vs|
      ensures f.stack[ArgumentByte(j, f)] == vs[|vs| - 1 - j]
    {
      ArgumentAddressed(f, z, vs, back, s.bp, n, j);
    }
    forall i, x | 1 <= i <= n && 1 <= x <= 3 + |vs|
      ensures LocalAt(i, f) != BelowFrame(x, f)
    {
      LocalAddressed(f, z, vs, back, s.bp, n, i);
      FrameBelow(f, z, vs, back, s.bp, n, x);
      FrameDistinct(z, |vs|, n, z + |vs| + 3 + i - 1, z + |vs| + 3 - x);
    }
    forall i, i' | 1 <= i < i' <= n
      ensures LocalAt(i, f) != LocalAt(i', f)
    {
      LocalAddressed(f, z, vs, back, s.bp, n, i);
      LocalAddressed(f, z, vs, back, s.bp, n, i');
      FrameDistinct(z, |vs|, n, z + |vs| + 3 + i - 1, z + |vs| + 3 + i' - 1);
    }
  }

  lemma FrameBelow(f: State, z: int, vs: seq<Byte>, back: Word, saved: Byte, n: Byte, x: nat)
    requires FrameAt(f, z, vs, back, saved, n)
    ensures BelowFrame(x, f) == ToByte(z + |vs| + 3 - x)
  {
    hide Holds;
    Shift(f.bp, z + |vs| + 3, -(x as int));
  }

  lemma FrameLinks(f: State, z: int, vs: seq<Byte>, back: Word, saved: Byte, n: Byte)
    requires FrameAt(f, z, vs, back, saved, n)
    ensures f.stack[BelowFrame(1, f)] == saved
    ensures Join(f.stack[BelowFrame(3, f)], f.stack[BelowFrame(2, f)]) == back
  {
    hide High, Low, ToByte;
    var all, k := vs + [High(back), Low(back), saved], |vs|;
    FrameBelow(f, z, vs, back, saved, n, 1);
    FrameBelow(f, z, vs, back, saved, n, 2);
    FrameBelow(f, z, vs, back, saved, n, 3);
    assert ByteAt(f.stack, z + k) == all[k];
    assert ByteAt(f.stack, z + (k + 1)) == all[k + 1];
    assert ByteAt(f.stack, z + (k + 2)) == all[k + 2];
    WholeWord(back);
  }
}
