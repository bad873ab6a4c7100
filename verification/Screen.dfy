/** The producer's routine as the render thread runs it when nothing interferes. */
module Screen {
  import opened Words
  import opened Machine
  import opened CpuModel
  import opened RingBuffer
  import opened Keyboard

  /** `write_input`: works directly in the CPU's memory. */
  method WriteInput(cpu: Cpu, input: Byte)
    requires cpu.Valid()
    modifies cpu.memory
    ensures cpu.Valid()
    ensures cpu.Snapshot() == old(cpu.Snapshot()).(mem := Written(old(cpu.Snapshot().mem), input))
  {
    if (cpu.memory[WRITE_IDX] as int + 1) % BUF_SIZE == cpu.memory[READ_IDX] {
      assert cpu.memory[..] == Written(old(cpu.memory[..]), input);
      return;
    }
    cpu.memory[RINGBUF + cpu.memory[WRITE_IDX]] := input;
    cpu.memory[WRITE_IDX] := (cpu.memory[WRITE_IDX] as int + 1) % BUF_SIZE;
    assert cpu.memory[..] == Written(old(cpu.memory[..]), input);
  }

  function Written(mem: Memory, input: Byte): Memory {
    if Full(mem) then mem else Publish(WriteSlot(mem, input))
  }

  /** It appends the key to the queue, or drops it if there are fifteen already. */
  lemma WrittenAppends(mem: Memory, input: Byte)
    requires RingOk(mem)
    ensures RingOk(Written(mem, input))
    ensures Queue(Written(mem, input)) == if |Queue(mem)| < 15 then Queue(mem) + [input] else Queue(mem)
  {
    hide Queue;
    FullIff(mem);
    if !Full(mem) {
      SlotWritten(mem, input);
      IndexPublished(WriteSlot(mem, input));
    }
  }
}
