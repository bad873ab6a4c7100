/** The whole path: assemble a program, load it, run it. The final machine state is the one the
    source-level run ends in. */
module Vm {
  import opened Words
  import opened Machine
  import opened CpuModel
  import opened Encoding
  import opened Lowering
  import opened Source
  import opened Program
  import opened AssemblerModel

  /** A fresh CPU with the executable in memory. */
  function Loaded(lines: Lines): State
    requires |OneShot(lines)| < 65536
  {
    Initial().(mem := OneShot(lines) + Zeros(65536)[|OneShot(lines)|..])
  }

  /** Loading puts the image at PROGRAM_START. */
  lemma ImageLoaded(lines: Lines)
    requires |OneShot(lines)| < 65536
    ensures CodeAt(Loaded(lines).mem, 256, Image(lines))
  {
    hide Labels, ItemsTo, Encode;
    var mem := Loaded(lines).mem;
    assert OneShot(lines) == Zeros(256) + Image(lines);
    assert forall i :: 0 <= i < |Image(lines)| ==> mem[256 + i] == Image(lines)[i];
  }

  /** After loading, all code is in memory as it was emitted. */
  lemma LoadedIntact(lines: Lines)
    requires |OneShot(lines)| < 65536
    ensures Intact(lines, Loaded(lines).mem) && Loaded(lines).pc == AddressOf(lines, 0)
  {
    hide OneShot, Image, Intact, CodeAt;
    ImageLoaded(lines);
    ImageIntact(lines, Loaded(lines).mem);
    StartAddress(lines);
  }

  lemma StartAddress(lines: Lines)
    ensures AddressOf(lines, 0) == 256
  {
  }

  /** Assembling, loading and running a program whose source-level run halts ends in the state
      that run ends in. */
  method AssembleAndRun(lines: Lines, hash: string -> nat, ghost n: nat, ghost t: State) returns (cpu: Cpu)
    requires |OneShot(lines)| < 65536
    requires SourceHaltsIn(lines, Loaded(lines), n) && SourceRun(lines, Loaded(lines), n, t)
    ensures fresh(cpu) && cpu.Valid() && cpu.Snapshot() == t && Halted(t)
  {
    hide *;
    cpu := new Cpu();
    var executable := Assemble(lines, hash);
    cpu.LoadProgram(executable, |executable|);
    LoadedIs(lines, cpu.Snapshot());
    ghost var m := HaltSim(lines, Loaded(lines), n, t);
    cpu.RunCpu(m);
    RunsAgree(Loaded(lines), m, t, cpu.Snapshot());
  }

  lemma LoadedIs(lines: Lines, s: State)
    requires |OneShot(lines)| < 65536
    requires s == Initial().(mem := OneShot(lines)[..|OneShot(lines)|] + Initial().mem[|OneShot(lines)|..])
    ensures s == Loaded(lines)
  {
    hide OneShot;
    assert OneShot(lines)[..|OneShot(lines)|] == OneShot(lines);
  }
}
