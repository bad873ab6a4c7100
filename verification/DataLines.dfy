/** Programs that write to their own data lines: such stores leave the code intact, so whole runs
    that make them are followed. The counting loop of programs/test.casm is one that never ends. */
module DataLines {
  import opened Words
  import opened Isa
  import opened Machine
  import opened Encoding
  import opened Syntax
  import opened Lowering
  import opened Source
  import opened Program

  // ---------- data ----------

  /** Address a is one of the bytes line j emits, and line j is not code. */
  ghost predicate DataAt(lines: Lines, j: nat, a: nat) {
    j < |lines| && !IsCode(lines, j) && AddressOf(lines, j) <= a < AddressOf(lines, j + 1)
  }

  ghost predicate IsData(lines: Lines, a: nat) { exists j: nat :: DataAt(lines, j, a) }

  /** Data lies outside all code, and before the final HALT. */
  lemma DataApart(lines: Lines, a: nat, i: nat)
    requires IsData(lines, a) && i < |lines| && IsCode(lines, i)
    ensures a < AddressOf(lines, i) || AddressOf(lines, i + 1) <= a
    ensures a < AddressOf(lines, |lines|)
  {
    hide AddressOf, IsCode;
    var j: nat :| DataAt(lines, j, a);
    AddressesGrow(lines, j + 1, |lines|);
    if i < j {
      AddressesGrow(lines, i + 1, j);
    } else {
      AddressesGrow(lines, j + 1, i);
    }
  }

  lemma DataBeforeEnd(lines: Lines, a: nat)
    requires IsData(lines, a)
    ensures a < AddressOf(lines, |lines|)
  {
    hide AddressOf, IsCode;
    var j: nat :| DataAt(lines, j, a);
    AddressesGrow(lines, j + 1, |lines|);
  }

  /** Only data differs. */
  ghost predicate OnlyData(lines: Lines, mem: Memory, mem': Memory) {
    forall a :: 0 <= a < 65536 && mem'[a] != mem[a] ==> IsData(lines, a)
  }

  /** Writing data leaves the code intact. */
  lemma DataWritten(lines: Lines, mem: Memory, mem': Memory)
    requires Intact(lines, mem) && OnlyData(lines, mem, mem')
    ensures Intact(lines, mem')
  {
    hide AddressOf, IsCode, LineHeld, IsData;
    forall i | 0 <= i < |lines| && IsCode(lines, i)
      ensures LineHeld(lines, i, mem')
    {
      LineStaysHeld(lines, i, mem, mem');
    }
    var end := AddressOf(lines, |lines|);
    if mem'[end] != mem[end] {
      DataBeforeEnd(lines, end);
    }
  }

  lemma LineStaysHeld(lines: Lines, i: nat, mem: Memory, mem': Memory)
    requires i < |lines| && IsCode(lines, i) && LineHeld(lines, i, mem) && OnlyData(lines, mem, mem')
    ensures LineHeld(lines, i, mem')
  {
    hide AddressOf, IsCode, IsData, Encode, Labels, LineItems;
    var at, bytes := AddressOf(lines, i), Encode(Labels(lines), LineItems(lines[i]));
    AddressNext(lines, i);
    forall k | 0 <= k < |bytes|
      ensures mem'[at + k] == bytes[k]
    {
      if mem'[at + k] != mem[at + k] {
        DataApart(lines, at + k, i);
      }
    }
  }

  // ---------- following lines ----------

  /** At an intact line whose meaning is defined the program can be followed. */
  lemma LineFollows(lines: Lines, i: nat, s: State)
    requires i < |lines| && ParseLine(lines[i]).Some? && Intact(lines, s.mem) && s.pc == AddressOf(lines, i)
    requires MeaningDefined(Labels(lines), ParseLine(lines[i]).value, s)
    ensures CanFollow(lines, s) && Follow(lines, s) == Meaning(Labels(lines), ParseLine(lines[i]).value, s)
  {
    hide AddressOf, LineHeld, Meaning, MeaningDefined, FindLine, Labels, LineItems, Executable, ParseLine, Lower;
    var st := ParseLine(lines[i]).value;
    LowerShape(Labels(lines), st, s);
    MeaningExecutes(Labels(lines), st, s);
    LineItemsIs(lines[i]);
    LineFound(lines, i);
    assert IsCode(lines, i);
  }

  lemma MeaningExecutes(env: Env, st: Stmt, s: State)
    requires MeaningDefined(env, st, s)
    ensures Executable(st)
  {
    hide Executable, Legal, StmtSize;
  }

  lemma FollowedRun(lines: Lines, s: State)
    requires CanFollow(lines, s)
    ensures SourceRun(lines, s, 1, Follow(lines, s))
  {
    hide CanFollow, Follow;
    assert SourceRun(lines, Follow(lines, s), 0, Follow(lines, s));
  }

  lemma {:induction false} SourceRunsCompose(lines: Lines, s: State, m: nat, t: State, n: nat, u: State)
    requires SourceRun(lines, s, m, t) && SourceRun(lines, t, n, u)
    ensures SourceRun(lines, s, m + n, u)
    decreases m
  {
    hide CanFollow, Follow;
    if m > 0 {
      SourceRunsCompose(lines, Follow(lines, s), m - 1, t, n, u);
    }
  }

  /** The memory operand at a label and a displacement. */
  function LabelByte(name: string, d: Word): Operand { Labelled(name, MemExpr(Absolute, d)) }

  lemma StoreMeans(env: Env, name: string, d: Word, s: State)
    requires s.pc + StmtSize(Use(Store, LabelByte(name, d))) < 65536
    ensures MeaningDefined(env, Use(Store, LabelByte(name, d)), s)
    ensures var t := Meaning(env, Use(Store, LabelByte(name, d)), s);
            && t.mem == s.mem[Resolve(env, Lab(name, d)) := s.acc]
            && t.pc == s.pc + StmtSize(Use(Store, LabelByte(name, d)))
  {
    hide Resolve, StmtSize, ZeroSign;
  }

  /** A store to the program's own labelled data is a line of a source-level run, and so two
      machine steps at most; the code stays intact, so the run goes on from the next line. */
  lemma StoreToData(lines: Lines, i: nat, name: string, d: Word, s: State) returns (t: State, m: nat)
    requires i < |lines| && ParseLine(lines[i]) == Some(Use(Store, LabelByte(name, d)))
    requires Intact(lines, s.mem) && s.pc == AddressOf(lines, i)
    requires IsData(lines, Resolve(Labels(lines), Lab(name, d)))
    ensures SourceRun(lines, s, 1, t) && Run(s, m, t) && 1 <= m <= 2
    ensures t.mem == s.mem[Resolve(Labels(lines), Lab(name, d)) := s.acc]
    ensures Intact(lines, t.mem) && t.pc == AddressOf(lines, i + 1)
  {
    hide *;
    StoreFits(lines, i, Use(Store, LabelByte(name, d)), s);
    StoreMeans(Labels(lines), name, d, s);
    LineFollows(lines, i, s);
    t := Follow(lines, s);
    FollowedRun(lines, s);
    m := ProgramSim(lines, s, 1, t);
    OneByteOfData(lines, s.mem, t.mem, Resolve(Labels(lines), Lab(name, d)), s.acc);
    DataWritten(lines, s.mem, t.mem);
  }

  lemma StoreFits(lines: Lines, i: nat, st: Stmt, s: State)
    requires i < |lines| && ParseLine(lines[i]) == Some(st) && Intact(lines, s.mem) && s.pc == AddressOf(lines, i)
    ensures s.pc + StmtSize(st) == AddressOf(lines, i + 1) < 65536
  {
    hide AddressOf, Lower, IsCode, LineHeld, ParseLine, SizeOf;
    AddressNext(lines, i);
    LineItemsIs(lines[i]);
    AddressesGrow(lines, i + 1, |lines|);
  }

  lemma OneByteOfData(lines: Lines, mem: Memory, mem': Memory, a: Word, v: Byte)
    requires mem' == mem[a := v] && IsData(lines, a)
    ensures OnlyData(lines, mem, mem')
  {
    hide IsData;
  }
}
