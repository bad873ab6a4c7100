/** The loop of programs/test.casm, for a counter of any number of bytes: it counts for ever, in
    the program's own data. */
module CountingLoop {
  import opened Words
  import opened Isa
  import opened Machine
  import opened Encoding
  import opened Syntax
  import opened Lowering
  import opened Source
  import opened Simulation
  import opened Program
  import opened DataLines
  import opened Carry
  import opened Counter

  // ---------- the counter's lines ----------

  /** From line p on the lines spell the given statements. */
  predicate Spelled(lines: Lines, p: nat, sts: seq<Stmt>) {
    p + |sts| <= |lines| && forall i :: 0 <= i < |sts| ==> ParseLine(lines[p + i]) == Some(sts[i])
  }

  /** The counter is the label's bytes, and they are data. */
  ghost predicate CounterIsData(lines: Lines, name: string, a: nat, n: nat) {
    && At(Labels(lines), name, a, n)
    && forall i: nat :: a <= i < a + n ==> IsData(lines, i)
  }

  lemma OnlyCounter(lines: Lines, name: string, a: nat, n: nat, mem: Memory, mem': Memory)
    requires CounterIsData(lines, name, a, n) && Elsewhere(mem, mem', a, n)
    ensures OnlyData(lines, mem, mem')
  {
    hide IsData, At;
  }

  lemma SpelledParts(lines: Lines, p: nat, sts: seq<Stmt>)
    requires Spelled(lines, p, sts) && sts != []
    ensures p < |lines| && ParseLine(lines[p]) == Some(sts[0]) && Spelled(lines, p + 1, sts[1..])
  {
    hide ParseLine;
    assert ParseLine(lines[p + 0]) == Some(sts[0]);
    forall i | 0 <= i < |sts[1..]|
      ensures ParseLine(lines[p + 1 + i]) == Some(sts[1..][i])
    {
      assert ParseLine(lines[p + (i + 1)]) == Some(sts[i + 1]);
    }
  }

  /** The machine's view of a line at which the program can be followed. */
  lemma HeldStatement(lines: Lines, i: nat, st: Stmt, s: State)
    requires i < |lines| && ParseLine(lines[i]) == Some(st) && Executable(st)
    requires Intact(lines, s.mem) && s.pc == AddressOf(lines, i)
    ensures AllWellFormed(Lower(st)) && Holding(Labels(lines), Lower(st), s)
  {
    hide AddressOf, Lower, Labels, Encode, ParseLine, Executable, SizeOf;
    StoreFits(lines, i, st, s);
    LineItemsIs(lines[i]);
    LowerWellFormed(st);
    assert IsCode(lines, i);
  }

  /** The counter's lines are followed one after the other. */
  lemma {:induction false} CounterFollows(lines: Lines, p: nat, sts: seq<Stmt>, name: string, a: nat, n: nat,
                                          s: State)
    returns (t: State)
    requires Spelled(lines, p, sts) && AllCounterLines(sts, name, n) && CounterIsData(lines, name, a, n)
    requires Intact(lines, s.mem) && s.pc == AddressOf(lines, p)
    ensures SourceRun(lines, s, |sts|, t) && Executes(Labels(lines), sts, s, t)
    ensures Intact(lines, t.mem) && t.pc == AddressOf(lines, p + |sts|)
    decreases |sts|
  {
    hide *;
    t := s;
    if sts == [] {
      ExecutesNone(Labels(lines), s);
      NoLineFollowed(lines, s);
    } else {
      SpelledParts(lines, p, sts);
      FirstIsCounterLine(sts, name, n);
      CounterLineLegal(sts[0], name, n);
      CounterAt(lines, name, a, n);
      StoreFits(lines, p, sts[0], s);
      CounterLineKeeps(Labels(lines), sts[0], name, a, n, s);
      LineFollows(lines, p, s);
      var u := Follow(lines, s);
      OnlyCounter(lines, name, a, n, s.mem, u.mem);
      DataWritten(lines, s.mem, u.mem);
      t := CounterFollows(lines, p + 1, sts[1..], name, a, n, u);
      FollowedRun(lines, s);
      SourceRunsCompose(lines, s, 1, u, |sts[1..]|, t);
      HeldStatement(lines, p, sts[0], s);
      ExecutesMore(Labels(lines), sts, s, t);
    }
  }

  lemma NoLineFollowed(lines: Lines, s: State)
    ensures SourceRun(lines, s, 0, s)
  {
  }

  lemma CounterAt(lines: Lines, name: string, a: nat, n: nat)
    requires CounterIsData(lines, name, a, n)
    ensures At(Labels(lines), name, a, n)
  {
    hide At, IsData;
  }

  // ---------- the lines behind them ----------

  /** Goes on to the next line in every state and leaves memory alone. */
  predicate Quiet(st: Stmt) {
    match st
    case Use(Load, Labelled(_, e)) => e.base == Absolute
    case Use(Load, Immediate(_)) => true
    case PushOperand(o) => o == Reg(Acc)
    case PopOperand(o) => o == Reg(Acc)
    case _ => false
  }

  lemma QuietMeans(env: Env, st: Stmt, s: State)
    requires Quiet(st) && s.pc + StmtSize(st) < 65536
    ensures MeaningDefined(env, st, s)
    ensures var t := Meaning(env, st, s); t.mem == s.mem && t.pc == s.pc + StmtSize(st)
  {
    hide Resolve, StmtSize, ZeroSign, ToByte;
  }

  /** A line that emits nothing, or a quiet one. */
  predicate QuietLine(line: seq<Token>) {
    LineItems(line) == [] || (ParseLine(line).Some? && Quiet(ParseLine(line).value))
  }

  lemma {:induction false} QuietLinesFollow(lines: Lines, i: nat, q: nat, s: State) returns (m: nat, t: State)
    requires i <= q <= |lines| && forall k :: i <= k < q ==> QuietLine(lines[k])
    requires Intact(lines, s.mem) && s.pc == AddressOf(lines, i)
    ensures SourceRun(lines, s, m, t) && t.mem == s.mem && t.pc == AddressOf(lines, q)
    decreases q - i
  {
    hide *;
    m, t := 0, s;
    if i == q {
      NoLineFollowed(lines, s);
    } else {
      QuietParts(lines, i);
      if LineItems(lines[i]) == [] {
        m, t := QuietLinesFollow(lines, i + 1, q, s);
      } else {
        var st := ParseLine(lines[i]).value;
        StoreFits(lines, i, st, s);
        QuietMeans(Labels(lines), st, s);
        LineFollows(lines, i, s);
        var u := Follow(lines, s);
        m, t := QuietLinesFollow(lines, i + 1, q, u);
        FollowedRun(lines, s);
        SourceRunsCompose(lines, s, 1, u, m, t);
        m := 1 + m;
      }
    }
  }

  lemma QuietParts(lines: Lines, i: nat)
    requires i < |lines| && QuietLine(lines[i])
    ensures LineItems(lines[i]) != [] ==> ParseLine(lines[i]).Some? && Quiet(ParseLine(lines[i]).value)
    ensures LineItems(lines[i]) == [] ==> AddressOf(lines, i + 1) == AddressOf(lines, i)
  {
    hide AddressOf, LineItems, ParseLine, Quiet;
    AddressNext(lines, i);
  }

  // ---------- the loop ----------

  /** From line p on the counter's lines, then quiet lines, then at q a jump back to p. */
  ghost predicate Loops(lines: Lines, p: nat, q: nat, main: string, name: string, a: nat, n: nat) {
    && 0 < n < 65536 && p + |CounterLines(name, n)| <= q < |lines|
    && Spelled(lines, p, CounterLines(name, n)) && CounterIsData(lines, name, a, n)
    && (forall k :: p + |CounterLines(name, n)| <= k < q ==> QuietLine(lines[k]))
    && ParseLine(lines[q]) == Some(JumpTo(Always, Lab(main, 0)))
    && Resolve(Labels(lines), Lab(main, 0)) == AddressOf(lines, p)
  }

  lemma JumpMeans(env: Env, main: string, s: State)
    requires s.pc + StmtSize(JumpTo(Always, Lab(main, 0))) < 65536
    ensures MeaningDefined(env, JumpTo(Always, Lab(main, 0)), s)
    ensures Meaning(env, JumpTo(Always, Lab(main, 0)), s) == s.(pc := Resolve(env, Lab(main, 0)))
  {
    hide Resolve, StmtSize;
  }

  lemma LoopParts(lines: Lines, p: nat, q: nat, main: string, name: string, a: nat, n: nat)
    requires Loops(lines, p, q, main, name, a, n)
    ensures 0 < n < 65536 && a + n <= 65536 && p + |CounterLines(name, n)| <= q < |lines|
    ensures Spelled(lines, p, CounterLines(name, n)) && CounterIsData(lines, name, a, n)
    ensures forall k :: p + |CounterLines(name, n)| <= k < q ==> QuietLine(lines[k])
    ensures ParseLine(lines[q]) == Some(JumpTo(Always, Lab(main, 0)))
    ensures Resolve(Labels(lines), Lab(main, 0)) == AddressOf(lines, p)
  {
    hide Spelled, QuietLine, Resolve, Labels, ParseLine, CounterLines, IsData;
  }

  /** Once around the loop adds one. */
  lemma OneRound(lines: Lines, p: nat, q: nat, main: string, name: string, a: nat, n: nat, s: State)
    returns (m: nat, t: State)
    requires Loops(lines, p, q, main, name, a, n) && Intact(lines, s.mem) && s.pc == AddressOf(lines, p)
    ensures SourceRun(lines, s, m, t) && m >= 1 && Intact(lines, t.mem) && t.pc == AddressOf(lines, p)
    ensures a + n <= 65536 && Elsewhere(s.mem, t.mem, a, n)
    ensures Count(t.mem, a, n) == (Count(s.mem, a, n) + 1) % Pow256(n)
  {
    hide *;
    LoopParts(lines, p, q, main, name, a, n);
    var sts := CounterLines(name, n);
    CounterLinesCount(name, n);
    var u := CounterFollows(lines, p, sts, name, a, n, s);
    CounterAt(lines, name, a, n);
    CounterCounts(Labels(lines), name, a, n, s, u);
    var k, v := QuietLinesFollow(lines, p + |sts|, q, u);
    t := JumpBack(lines, q, main, v);
    SourceRunsCompose(lines, s, |sts|, u, k, v);
    SourceRunsCompose(lines, s, |sts| + k, v, 1, t);
    m := |sts| + k + 1;
  }

  lemma JumpBack(lines: Lines, q: nat, main: string, s: State) returns (t: State)
    requires q < |lines| && ParseLine(lines[q]) == Some(JumpTo(Always, Lab(main, 0)))
    requires Intact(lines, s.mem) && s.pc == AddressOf(lines, q)
    ensures SourceRun(lines, s, 1, t) && t == s.(pc := Resolve(Labels(lines), Lab(main, 0)))
  {
    hide *;
    StoreFits(lines, q, JumpTo(Always, Lab(main, 0)), s);
    JumpMeans(Labels(lines), main, s);
    LineFollows(lines, q, s);
    t := Follow(lines, s);
    FollowedRun(lines, s);
  }

  lemma ElsewhereTwice(x: Memory, y: Memory, z: Memory, a: nat, n: nat)
    requires Elsewhere(x, y, a, n) && Elsewhere(y, z, a, n)
    ensures Elsewhere(x, z, a, n)
  {
  }

  lemma OneMore(x: nat, p: nat)
    requires p > 0
    ensures (x % p + 1) % p == (x + 1) % p
  {
    var k, d := x / p, x % p + 1;
    if d < p {
      RemainderUnique(x + 1, p, k, d);
      RemainderUnique(d, p, 0, d);
    } else {
      OneMoreTime(p, k);
      RemainderUnique(x + 1, p, k + 1, 0);
      RemainderUnique(d, p, 1, 0);
    }
  }

  lemma OneMoreTime(p: nat, k: nat)
    ensures p * (k + 1) == p * k + p
  {
  }

  /** The loop counts for ever, modulo 256^n, writing its own data and nothing else: the source-level
      run and the machine run behind it go on for any number of rounds. */
  lemma {:induction false} CountsForever(lines: Lines, p: nat, q: nat, main: string, name: string, a: nat, n: nat,
                                         s: State, r: nat)
    returns (m: nat, t: State)
    requires Loops(lines, p, q, main, name, a, n) && Intact(lines, s.mem) && s.pc == AddressOf(lines, p)
    ensures SourceRun(lines, s, m, t) && m >= r && Intact(lines, t.mem) && t.pc == AddressOf(lines, p)
    ensures a + n <= 65536 && Elsewhere(s.mem, t.mem, a, n)
    ensures Count(t.mem, a, n) == (Count(s.mem, a, n) + r) % Pow256(n)
    decreases r
  {
    hide *;
    m, t := 0, s;
    LoopParts(lines, p, q, main, name, a, n);
    if r == 0 {
      NoLineFollowed(lines, s);
      CountBound(s.mem, a, n);
      SameElsewhere(s.mem, a, n);
      RemainderUnique(Count(s.mem, a, n), Pow256(n), 0, Count(s.mem, a, n));
    } else {
      var k, u := CountsForever(lines, p, q, main, name, a, n, s, r - 1);
      var j, v := OneRound(lines, p, q, main, name, a, n, u);
      SourceRunsCompose(lines, s, k, u, j, v);
      ElsewhereTwice(s.mem, u.mem, v.mem, a, n);
      OneMore(Count(s.mem, a, n) + (r - 1), Pow256(n));
      m, t := k + j, v;
    }
  }
}
