/** The keyboard ring buffer as memory: two index bytes and sixteen slots, and the queue of at
    most fifteen bytes they stand for. */
module RingBuffer {
  import opened Words
  import opened Machine

  const WRITE_IDX: Word := 0x9fed
  const READ_IDX: Word := 0x9fee
  const RINGBUF: Word := 0x9fef
  const BUF_SIZE := 16

  /** The frame buffer: 192 rows of 256 half-byte pixels below the last byte of memory. */
  const FRAME_BUFFER: Word := 65536 - 1 - 192 * 256 / 2

  /** Both indices are in range. */
  predicate RingOk(mem: Memory) { mem[WRITE_IDX] < 16 && mem[READ_IDX] < 16 }

  function Count(mem: Memory): nat { ((mem[WRITE_IDX] as int) - mem[READ_IDX]) % 16 }

  function SlotAt(mem: Memory, i: nat): Word { RINGBUF + (mem[READ_IDX] + i) % 16 }

  /** The bytes between the read and the write index, oldest first. */
  function Queue(mem: Memory): (q: seq<Byte>)
    ensures |q| == Count(mem) <= 15
  {
    seq(Count(mem), i requires 0 <= i => mem[SlotAt(mem, i)])
  }

  lemma EmptyIff(mem: Memory)
    requires RingOk(mem)
    ensures Queue(mem) == [] <==> mem[READ_IDX] == mem[WRITE_IDX]
  {
  }

  /** The producer's test for a full buffer. */
  lemma FullIff(mem: Memory)
    requires RingOk(mem)
    ensures |Queue(mem)| == 15 <==> (mem[WRITE_IDX] + 1) % 16 == mem[READ_IDX]
  {
  }

  /** The slot at the write index is never one of the queue's. */
  lemma WriteSlotFree(mem: Memory, i: nat)
    requires RingOk(mem) && i < Count(mem)
    ensures SlotAt(mem, i) != RINGBUF + mem[WRITE_IDX]
  {
  }

  /** Writing the free slot leaves the queue alone. */
  lemma SlotWritten(mem: Memory, k: Byte)
    requires RingOk(mem)
    ensures var mem' := mem[RINGBUF + mem[WRITE_IDX] := k]; RingOk(mem') && Queue(mem') == Queue(mem)
  {
    var mem' := mem[RINGBUF + mem[WRITE_IDX] := k];
    assert Count(mem') == Count(mem);
    forall i | 0 <= i < Count(mem)
      ensures Queue(mem')[i] == Queue(mem)[i]
    {
      WriteSlotFree(mem, i);
    }
  }

  lemma CountsUp(w: int, r: int)
    requires 0 <= w < 16 && 0 <= r < 16 && (w - r) % 16 < 15
    ensures ((w + 1) % 16 - r) % 16 == (w - r) % 16 + 1
  {
  }

  lemma CountsDown(w: int, r: int)
    requires 0 <= w < 16 && 0 <= r < 16 && (w - r) % 16 > 0
    ensures (w - (r + 1) % 16) % 16 == (w - r) % 16 - 1
  {
  }

  lemma NextSlot(r: int, i: int)
    ensures ((r + 1) % 16 + i) % 16 == (r + (i + 1)) % 16
  {
  }

  /** Advancing the write index appends what the slot holds. */
  lemma IndexPublished(mem: Memory)
    requires RingOk(mem) && |Queue(mem)| < 15
    ensures var mem' := mem[WRITE_IDX := (mem[WRITE_IDX] + 1) % 16];
            RingOk(mem') && Queue(mem') == Queue(mem) + [mem[RINGBUF + mem[WRITE_IDX]]]
  {
    var mem' := mem[WRITE_IDX := (mem[WRITE_IDX] + 1) % 16];
    CountsUp(mem[WRITE_IDX], mem[READ_IDX]);
    assert Count(mem') == Count(mem) + 1;
    assert SlotAt(mem, Count(mem)) == RINGBUF + mem[WRITE_IDX];
    assert forall i :: 0 <= i <= Count(mem) ==> SlotAt(mem', i) == SlotAt(mem, i);
  }

  /** Advancing the read index removes the oldest byte. */
  lemma IndexConsumed(mem: Memory)
    requires RingOk(mem) && Queue(mem) != []
    ensures var mem' := mem[READ_IDX := (mem[READ_IDX] + 1) % 16];
            RingOk(mem') && Queue(mem') == Queue(mem)[1..]
  {
    var mem' := mem[READ_IDX := (mem[READ_IDX] + 1) % 16];
    CountsDown(mem[WRITE_IDX], mem[READ_IDX]);
    assert Count(mem') == Count(mem) - 1;
    forall i | 0 <= i < Count(mem')
      ensures Queue(mem')[i] == Queue(mem)[1..][i]
    {
      NextSlot(mem[READ_IDX], i);
      assert SlotAt(mem', i) == SlotAt(mem, i + 1);
    }
  }

  lemma HeadOfQueue(mem: Memory)
    requires RingOk(mem) && Queue(mem) != []
    ensures Queue(mem)[0] == mem[RINGBUF + mem[READ_IDX]]
  {
  }

  /** The queue depends on the index bytes and the slots only. */
  lemma QueueFrame(mem: Memory, mem': Memory)
    requires forall a :: WRITE_IDX <= a < FRAME_BUFFER ==> mem'[a] == mem[a]
    ensures Queue(mem') == Queue(mem) && (RingOk(mem) ==> RingOk(mem'))
  {
    assert Count(mem') == Count(mem);
    forall i | 0 <= i < Count(mem)
      ensures Queue(mem')[i] == Queue(mem)[i]
    {
      assert WRITE_IDX <= SlotAt(mem, i) < FRAME_BUFFER;
    }
  }
}
