/** programs/fib_recursive.casm as it is laid out: every line, indentation, padding and blank line of
    the file, down to its unterminated last one, with any words in its comments. */
module FibFile {
  import opened Machine
  import opened CpuModel
  import opened Syntax
  import opened Rendering
  import opened Layout
  import opened FibProgram

  const COMMENTS := 41

  /** The comments: 0 to 36 behind the statements that have one, the others on lines of their own. */
  ghost predicate AreComments(words: seq<Token>) {
    |words| == COMMENTS && forall i :: 0 <= i < COMMENTS ==> words[i].sym == Comment && Rendering.WellFormed(words[i])
  }

  function BlankLine(indent: nat): Laid { RawLaid.Laid(indent, [], []) }

  function CommentLine(word: Token): Laid { RawLaid.Laid(0, [word], [0]) }

  /** What stands above the line of statement i. */
  function Above(i: nat, words: seq<Token>): seq<Laid>
    requires |words| == COMMENTS
  {
    match i
    case 0 => [CommentLine(words[37]), CommentLine(words[38]), BlankLine(0), CommentLine(words[39]), BlankLine(0)]
    case 2 | 4 => [BlankLine(0)]
    case 3 => [BlankLine(0), CommentLine(words[40]), BlankLine(0)]
    case 12 | 16 | 21 | 23 | 25 | 28 | 30 => [BlankLine(4)]
    case _ => []
  }

  function Indent(i: nat): nat { if i < 4 || i in {4, 12, 16} then 0 else 4 }

  /** The spaces at the end of line i, or in front of its comment. */
  function Padding(i: nat): nat {
    match i
    case 6 | 9 | 13 | 31 | 34 => 11
    case 7 | 14 => 5
    case 10 | 20 | 29 => 3
    case 11 | 15 | 36 => 13
    case 18 | 19 | 22 | 24 | 28 => 10
    case 21 | 27 | 30 | 32 | 33 | 35 => 9
    case _ => 0
  }

  /** Every line with padding has a comment behind it, but line 21. */
  function Remark(i: nat, words: seq<Token>): Option<Token>
    requires |words| == COMMENTS && i < 37
  {
    if Padding(i) > 0 && i != 21 then Some(words[i]) else None
  }

  /** Single spaces between tokens, and the padding behind the last. */
  function LineGaps(line: seq<Token>, i: nat, words: seq<Token>): (gaps: seq<nat>)
    requires |words| == COMMENTS && i < 37
    ensures |gaps| == |line| + (if Remark(i, words).Some? then 1 else 0)
  {
    var n := |line| + (if Remark(i, words).Some? then 1 else 0);
    seq<nat>(n, j requires 0 <= j < n => if j + 1 < |line| then 1 else if j + 1 == |line| then Padding(i) else 0)
  }

  function Note(i: nat, words: seq<Token>): Annotation
    requires |words| == COMMENTS && i < 37
  {
    Annotation(Above(i, words), Indent(i), LineGaps(FibLines(35)[i], i, words), Remark(i, words))
  }

  function Notes(words: seq<Token>): (notes: seq<Annotation>)
    requires |words| == COMMENTS
    ensures |notes| == 37
  {
    seq(37, i requires 0 <= i < 37 => Note(i, words))
  }

  // ---------- its layout is proper ----------

  lemma BlankIsNote(indent: nat)
    ensures WellLaid(BlankLine(indent)) && IsNote(BlankLine(indent))
  {
  }

  lemma CommentIsNote(word: Token)
    requires word.sym == Comment && Rendering.WellFormed(word)
    ensures WellLaid(CommentLine(word)) && IsNote(CommentLine(word))
  {
    hide Rendering.WellFormed;
  }

  lemma AboveNotes(i: nat, words: seq<Token>)
    requires AreComments(words)
    ensures AllNotes(Above(i, words))
  {
    hide WellLaid, IsNote, BlankLine, CommentLine, Rendering.WellFormed;
    BlankIsNote(0);
    BlankIsNote(4);
    CommentIsNote(words[37]);
    CommentIsNote(words[38]);
    CommentIsNote(words[39]);
    CommentIsNote(words[40]);
  }

  lemma BelowNotes()
    ensures AllNotes([BlankLine(4)])
  {
    hide WellLaid, IsNote, BlankLine;
    BlankIsNote(4);
  }

  lemma LineProper(i: nat, words: seq<Token>)
    requires AreComments(words) && i < 37
    ensures Proper(FibLines(35)[i], Note(i, words))
  {
    hide Rendering.WellFormed, FibLines, AllNotes, Behind, WellFormedLine, Padding;
    var line, a := FibLines(35)[i], Note(i, words);
    AboveNotes(i, words);
    FibCodeLines(35);
    FibUnindexed(35, i);
    var ts := Remarked(line, a);
    forall j | 0 <= j < |ts|
      ensures GapAt(ts, a.gaps, j)
    {
    }
  }

  lemma FileNotes(words: seq<Token>)
    requires AreComments(words)
    ensures |words| == COMMENTS && FibNotes(35, Notes(words))
  {
    hide Proper, Note, FibLines, Rendering.WellFormed;
    forall i | 0 <= i < 37
      ensures Proper(FibLines(35)[i], Notes(words)[i])
    {
      LineProper(i, words);
    }
  }

  /** The file, with these comments. */
  ghost function FileText(words: seq<Token>): string
    requires AreComments(words)
  {
    FileNotes(words);
    FibText(35, Notes(words), [BlankLine(4)])
  }

  lemma FileTextIs(words: seq<Token>)
    requires AreComments(words)
    ensures |words| == COMMENTS && FibNotes(35, Notes(words))
    ensures FileText(words) == FibText(35, Notes(words), [BlankLine(4)])
  {
    hide FibText, FibNotes, Notes, Rendering.WellFormed;
    FileNotes(words);
  }

  /** Assembling and running the file leaves 52425 in HL, whatever the words of its comments. */
  method RunFile(text: string, hash: string -> nat, ghost words: seq<Token>) returns (cpu: Cpu)
    requires AreComments(words) && text == FileText(words)
    ensures fresh(cpu) && cpu.Valid() && Halted(cpu.Snapshot()) && HLof(cpu.Snapshot()) == 52425
  {
    hide *;
    FileTextIs(words);
    BelowNotes();
    NumberThirtyFive();
    cpu := RunFibonacci(text, hash, 35, Notes(words), [BlankLine(4)]);
  }
}
