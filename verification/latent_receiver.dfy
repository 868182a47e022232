/**
 * The receiving end of a latent (rate-limited) transfer: CLatentReceiver
 * assembles the chunks of one transfer into a buffer and, when the tail
 * arrives, turns the buffer back into a packet.
 *
 * A chunk is modelled after its header has been read: the 15-bit transfer
 * id, what its special flag byte said, the size field and the bytes that
 * follow it. The receive slot is the `activeRx` record. Any error ends the
 * connection (OnReceiveError disconnects the remote), so an `Error` outcome
 * is final.
 */
module LatentReceiver {
  import opened Common

  /** Transfer ids travel in 15 bits. */
  type ChunkId = x: int | 0 <= x < 0x8000

  /** What the special flag byte of a chunk said, if the special bit was set. */
  datatype Special =
    | Plain
    | Head(category: uint16, finalSize: uint32, rate: uint32)
    | Tail
    | Cancel
    | InvalidFlag

  datatype Chunk = Chunk(id: ChunkId, special: Special, sizeSent: uint16, data: seq<uint8>)

  /** The active receive: `activeRx` with its buffer's contents. */
  datatype Slot = Slot(
    id: uint16, started: bool, category: uint16, rate: uint32,
    buffer: seq<uint8>, writePosition: uint32)

  /** A default-constructed SReceiveItem. */
  const DefaultSlot := Slot(0, false, 0, 0, [], 0)

  /** Largest transfer a head may announce: 100 MiB. */
  const MaxFinalSize := 100 * 1024 * 1024

  datatype ReceiveError =
    | InvalidSpecialType
    | HeadWhileActive
    | FinalSizeTooLarge
    | WrongId
    | BufferWouldOverflow
    | BufferSizeWrong
    | BufferSizeMismatch

  datatype Outcome =
    | Continue
    | Cancelled
    | Delivered(packetId: uint8, bitsUsed: uint32, payload: seq<uint8>)
    | UnknownCategory
    | Error(reason: ReceiveError)

  datatype Step = Step(slot: Slot, outcome: Outcome)

  /** The slot invariant the receiver keeps: the write position stays inside a buffer of allowed size. */
  predicate Valid(slot: Slot)
  {
    slot.writePosition <= |slot.buffer| <= MaxFinalSize
  }

  /** `CBuffer::SetSize`: keeps the bytes that fit and zero-fills the rest. */
  function Resize(buffer: seq<uint8>, size: nat): (r: seq<uint8>)
    ensures |r| == size
    ensures forall i :: 0 <= i < size && i < |buffer| ==> r[i] == buffer[i]
    ensures forall i :: |buffer| <= i < size ==> r[i] == 0
  {
    if size <= |buffer| then buffer[..size] else buffer + seq(size - |buffer|, _ => 0)
  }

  /**
   * Copying the chunk's `size` bytes into the buffer at `position`. A chunk
   * carrying fewer bytes than its size field makes the stream read fail
   * and leaves the buffer as it was.
   */
  function WriteAt(buffer: seq<uint8>, position: nat, data: seq<uint8>, size: nat): (r: seq<uint8>)
    ensures |r| == |buffer|
    ensures position + size <= |buffer| && size <= |data| ==>
              r[..position] == buffer[..position] && r[position..position + size] == data[..size]
              && r[position + size..] == buffer[position + size..]
  {
    if position + size <= |buffer| && size <= |data| then
      buffer[..position] + data[..size] + buffer[position + size..]
    else
      buffer
  }

  /** The little-endian `uint` in four bytes, as CBufferReadStream reads it on x86. */
  function LittleEndian32(b: seq<uint8>): (r: uint32)
    requires |b| == 4
    ensures r % 0x100 == b[0]
  {
    (b[0] as int) + 0x100 * (b[1] as int) + 0x1_0000 * (b[2] as int) + 0x100_0000 * (b[3] as int)
  }

  /** `(bits + 7) >> 3` in 32-bit unsigned arithmetic: the whole bytes that hold `bits` bits. */
  function BytesUsed(bits: uint32): (n: uint32)
    ensures n < 0x2000_0000
    ensures bits < 0x1_0000_0000 - 7 ==> n * 8 >= bits && (n == 0 || (n - 1) * 8 < bits)
  {
    ToUInt32(bits + 7) / 8
  }

  /** The bit count a packet tail's buffer announces in bytes 1 to 4 (0 when the buffer is too short to read it). */
  function AnnouncedBits(buffer: seq<uint8>): uint32
  {
    if |buffer| >= 5 then LittleEndian32(buffer[1..5]) else 0
  }

  /** The packet id in byte 0 of a packet tail's buffer (0 when the buffer is empty). */
  function AnnouncedPacketId(buffer: seq<uint8>): uint8
  {
    if |buffer| >= 1 then buffer[0] else 0
  }

  /**
   * What a completed transfer becomes: for the packet category, the
   * announced bit count must fill exactly the bytes after the five header
   * bytes, both sides computed in 32-bit unsigned arithmetic.
   */
  function CompleteTail(slot: Slot, packetCategory: uint16): (r: Step)
    ensures r.outcome.Delivered? || r.outcome == UnknownCategory ==> r.slot == DefaultSlot
    ensures r.outcome.Error? ==> r.outcome.reason == BufferSizeMismatch && r.slot == slot
    ensures r.outcome == UnknownCategory <==> slot.category != packetCategory
    ensures r.outcome.Delivered? ==> |slot.buffer| >= 5 && r.outcome.payload == slot.buffer[5..]
  {
    if slot.category == packetCategory then
      var bits := AnnouncedBits(slot.buffer);
      if BytesUsed(bits) != ToUInt32(|slot.buffer| - 5) then
        Step(slot, Error(BufferSizeMismatch))
      else
        Step(DefaultSlot, Delivered(AnnouncedPacketId(slot.buffer), bits, slot.buffer[5..]))
    else
      Step(DefaultSlot, UnknownCategory)
  }

  /** Processing the header: a head opens the slot, unless one is open or it announces too much. */
  function ApplyHead(slot: Slot, chunk: Chunk): (r: Step)
    ensures r.outcome == Error(HeadWhileActive) <==> chunk.special.Head? && slot.started
    ensures r.outcome == Error(FinalSizeTooLarge) <==>
              chunk.special.Head? && !slot.started && chunk.special.finalSize > MaxFinalSize
    ensures r.outcome.Error? || r.outcome == Continue
    ensures !chunk.special.Head? ==> r == Step(slot, Continue)
  {
    match chunk.special
    case Head(category, finalSize, rate) =>
      if slot.started then Step(slot, Error(HeadWhileActive))
      else if finalSize > MaxFinalSize then Step(slot, Error(FinalSizeTooLarge))
      else
        Step(Slot(chunk.id, true, category, rate, Resize(slot.buffer, finalSize), 0), Continue)
    case _ => Step(slot, Continue)
  }

  /** OnReceive: one chunk's effect on the slot, and what became of it. */
  function OnReceive(slot: Slot, chunk: Chunk, packetCategory: uint16): (r: Step)
    ensures r.outcome == Error(InvalidSpecialType) <==> chunk.special.InvalidFlag?
    ensures r.outcome == Error(HeadWhileActive) <==> chunk.special.Head? && slot.started
    ensures r.outcome == Error(WrongId) <==>
              !chunk.special.InvalidFlag? && !chunk.special.Head? && slot.id != chunk.id
    ensures r.outcome == Cancelled <==> chunk.special.Cancel? && slot.id == chunk.id
    ensures r.outcome == Cancelled ==> r.slot == DefaultSlot
    ensures r.outcome.Delivered? || r.outcome == UnknownCategory ==> chunk.special.Tail? && r.slot == DefaultSlot
    ensures r.outcome == Continue ==> chunk.special.Plain? || chunk.special.Head?
  {
    if chunk.special.InvalidFlag? then
      Step(slot, Error(InvalidSpecialType))
    else
      var afterHead := ApplyHead(slot, chunk);
      if afterHead.outcome.Error? then afterHead
      else
        var s := afterHead.slot;
        if s.id != chunk.id then Step(s, Error(WrongId))
        else if chunk.special.Cancel? then Step(DefaultSlot, Cancelled)
        else
          var end := ToUInt32(s.writePosition + chunk.sizeSent);
          if end > |s.buffer| then Step(s, Error(BufferWouldOverflow))
          else if chunk.special.Tail? && end != |s.buffer| then Step(s, Error(BufferSizeWrong))
          else
            var written := s.(buffer := WriteAt(s.buffer, s.writePosition, chunk.data, chunk.sizeSent),
                              writePosition := end);
            if chunk.special.Tail? then CompleteTail(written, packetCategory)
            else Step(written, Continue)
  }

  /** Receiving never breaks the slot invariant, whatever the outcome. */
  lemma ReceivePreservesValid(slot: Slot, chunk: Chunk, packetCategory: uint16)
    requires Valid(slot)
    ensures Valid(OnReceive(slot, chunk, packetCategory).slot)
  {
  }

  /** A head on a free slot opens it with the announced fields, then takes the head's own bytes. */
  lemma HeadOpensSlot(slot: Slot, chunk: Chunk, packetCategory: uint16)
    requires chunk.special.Head? && !slot.started && chunk.special.finalSize <= MaxFinalSize
    requires chunk.sizeSent <= chunk.special.finalSize
    ensures var r := OnReceive(slot, chunk, packetCategory);
            && r.outcome == Continue
            && r.slot.id == chunk.id && r.slot.started
            && r.slot.category == chunk.special.category && r.slot.rate == chunk.special.rate
            && |r.slot.buffer| == chunk.special.finalSize
            && r.slot.writePosition == chunk.sizeSent
  {
  }

  /** A head announcing more than 100 MiB is refused and the slot stays as it was. */
  lemma OversizeHeadRefused(slot: Slot, chunk: Chunk, packetCategory: uint16)
    requires chunk.special.Head? && !slot.started && chunk.special.finalSize > MaxFinalSize
    ensures OnReceive(slot, chunk, packetCategory) == Step(slot, Error(FinalSizeTooLarge))
  {
  }

  /**
   * Once the id matches, a body or tail chunk is refused for overflow
   * exactly when it would run past the buffer, and a tail is refused for
   * size exactly when it would not end at the buffer's end.
   */
  lemma ChunkFitsBuffer(slot: Slot, chunk: Chunk, packetCategory: uint16)
    requires Valid(slot) && slot.id == chunk.id
    requires chunk.special.Plain? || chunk.special.Tail?
    ensures var r := OnReceive(slot, chunk, packetCategory);
            && (r.outcome == Error(BufferWouldOverflow) <==>
                  slot.writePosition + chunk.sizeSent > |slot.buffer|)
            && (chunk.special.Tail? ==>
                  (r.outcome == Error(BufferSizeWrong) <==>
                     slot.writePosition + chunk.sizeSent < |slot.buffer|))
  {
  }

  /** A plain chunk that fits lands right after what is already written. */
  lemma BodyAppends(slot: Slot, chunk: Chunk, packetCategory: uint16)
    requires Valid(slot) && slot.id == chunk.id && chunk.special.Plain?
    requires slot.writePosition + chunk.sizeSent <= |slot.buffer| && chunk.sizeSent == |chunk.data|
    ensures var r := OnReceive(slot, chunk, packetCategory);
            && r.outcome == Continue
            && r.slot.writePosition == slot.writePosition + chunk.sizeSent
            && r.slot.buffer[..r.slot.writePosition] == slot.buffer[..slot.writePosition] + chunk.data
            && |r.slot.buffer| == |slot.buffer|
            && r.slot.(buffer := slot.buffer, writePosition := slot.writePosition) == slot
  {
    var w := slot.writePosition;
    var b := WriteAt(slot.buffer, w, chunk.data, chunk.sizeSent);
    assert b[..w + chunk.sizeSent] == b[..w] + b[w..w + chunk.sizeSent];
    assert chunk.data[..chunk.sizeSent] == chunk.data;
  }

  /**
   * A packet-category tail that fills the buffer is delivered exactly when
   * the announced bit count needs as many bytes as follow the five header
   * bytes; then the slot is free again.
   */
  lemma PacketTailChecksSize(slot: Slot, chunk: Chunk, packetCategory: uint16)
    requires Valid(slot) && slot.id == chunk.id && chunk.special.Tail?
    requires slot.writePosition + chunk.sizeSent == |slot.buffer|
    requires slot.category == packetCategory
    ensures var r := OnReceive(slot, chunk, packetCategory);
            var buffer := WriteAt(slot.buffer, slot.writePosition, chunk.data, chunk.sizeSent);
            && (r.outcome.Delivered? <==> BytesUsed(AnnouncedBits(buffer)) == ToUInt32(|buffer| - 5))
            && (r.outcome.Delivered? ==> r.slot == DefaultSlot && r.outcome.payload == buffer[5..])
            && (!r.outcome.Delivered? ==> r.outcome == Error(BufferSizeMismatch))
  {
  }

  /** A transfer shorter than its five header bytes can never pass the packet size check. */
  lemma ShortPacketRejected(buffer: seq<uint8>, bits: uint32)
    requires |buffer| < 5
    ensures BytesUsed(bits) != ToUInt32(|buffer| - 5)
  {
  }

  /** A tail of another category is dropped with a debug line, and the slot is freed. */
  lemma OtherCategoryTailFreesSlot(slot: Slot, chunk: Chunk, packetCategory: uint16)
    requires Valid(slot) && slot.id == chunk.id && chunk.special.Tail?
    requires slot.writePosition + chunk.sizeSent == |slot.buffer|
    requires slot.category != packetCategory
    ensures OnReceive(slot, chunk, packetCategory) == Step(DefaultSlot, UnknownCategory)
  {
  }

  /** Feeding chunks in order; the first error ends the connection and with it the run. */
  function Run(slot: Slot, chunks: seq<Chunk>, packetCategory: uint16): (r: Step)
    requires |chunks| >= 1
    decreases |chunks|
  {
    var first := OnReceive(slot, chunks[0], packetCategory);
    if |chunks| == 1 || first.outcome.Error? then first
    else Run(first.slot, chunks[1..], packetCategory)
  }

  function Flatten(pieces: seq<seq<uint8>>): seq<uint8>
  {
    if |pieces| == 0 then [] else pieces[0] + Flatten(pieces[1..])
  }

  /** Every piece fits a chunk's 16-bit size field. */
  predicate ChunkSized(pieces: seq<seq<uint8>>)
  {
    forall i :: 0 <= i < |pieces| ==> |pieces[i]| < 0x1_0000
  }

  /** The chunks after the head: plain chunks for all pieces but the last, which the tail carries. */
  function AfterHead(id: ChunkId, pieces: seq<seq<uint8>>): (chunks: seq<Chunk>)
    requires |pieces| >= 1 && ChunkSized(pieces)
    ensures |chunks| == |pieces|
    decreases |pieces|
  {
    if |pieces| == 1 then [Chunk(id, Tail, |pieces[0]|, pieces[0])]
    else [Chunk(id, Plain, |pieces[0]|, pieces[0])] + AfterHead(id, pieces[1..])
  }

  /**
   * The chunks a sender produces for a message cut into `pieces`: the head
   * announces the whole length and carries the first piece, the tail
   * carries the last.
   */
  function Transfer(id: ChunkId, category: uint16, rate: uint32, pieces: seq<seq<uint8>>): (chunks: seq<Chunk>)
    requires |pieces| >= 2 && ChunkSized(pieces) && |Flatten(pieces)| <= MaxFinalSize
    ensures |chunks| == |pieces|
  {
    [Chunk(id, Head(category, |Flatten(pieces)|, rate), |pieces[0]|, pieces[0])] + AfterHead(id, pieces[1..])
  }

  /** An open slot whose buffer, of the message's size, starts with `written`. */
  predicate Filling(slot: Slot, id: ChunkId, category: uint16, rate: uint32, size: nat, written: seq<uint8>)
  {
    && slot.id == id && slot.started && slot.category == category && slot.rate == rate
    && |slot.buffer| == size && slot.writePosition == |written| <= size
    && slot.buffer[..|written|] == written
  }

  /** The chunks after the head fill the buffer with the rest of the message and complete it. */
  lemma {:induction false} AfterHeadCompletes(
    slot: Slot, id: ChunkId, category: uint16, rate: uint32, message: seq<uint8>, written: seq<uint8>,
    pieces: seq<seq<uint8>>, packetCategory: uint16)
    requires |message| <= MaxFinalSize && |pieces| >= 1 && ChunkSized(pieces)
    requires Filling(slot, id, category, rate, |message|, written)
    requires written + Flatten(pieces) == message
    ensures Run(slot, AfterHead(id, pieces), packetCategory) ==
              CompleteTail(Slot(id, true, category, rate, message, |message|), packetCategory)
    decreases |pieces|
  {
    var chunk := AfterHead(id, pieces)[0];
    var w := |written|;
    var b := WriteAt(slot.buffer, w, pieces[0], |pieces[0]|);
    assert Flatten(pieces) == pieces[0] + Flatten(pieces[1..]);
    assert w + |pieces[0]| <= |message| by {
      assert |message| == w + |pieces[0]| + |Flatten(pieces[1..])|;
    }
    assert b[..w] == written && b[w..w + |pieces[0]|] == pieces[0];
    assert b[..w + |pieces[0]|] == written + pieces[0] by {
      assert b[..w + |pieces[0]|] == b[..w] + b[w..w + |pieces[0]|];
    }
    if |pieces| == 1 {
      assert Flatten(pieces[1..]) == [];
      assert b == message by {
        assert b == b[..w + |pieces[0]|];
      }
    } else {
      var next := OnReceive(slot, chunk, packetCategory);
      assert next.slot == slot.(buffer := b, writePosition := w + |pieces[0]|);
      assert Filling(next.slot, id, category, rate, |message|, written + pieces[0]);
      assert AfterHead(id, pieces)[1..] == AfterHead(id, pieces[1..]);
      AfterHeadCompletes(next.slot, id, category, rate, message, written + pieces[0], pieces[1..], packetCategory);
    }
  }

  /**
   * Receiving a whole transfer on a free slot rebuilds the message in the
   * buffer and completes it as a tail completes that buffer.
   */
  lemma {:induction false} TransferRebuildsMessage(
    slot: Slot, id: ChunkId, category: uint16, rate: uint32, pieces: seq<seq<uint8>>, packetCategory: uint16)
    requires !slot.started
    requires |pieces| >= 2 && ChunkSized(pieces) && |Flatten(pieces)| <= MaxFinalSize
    ensures Run(slot, Transfer(id, category, rate, pieces), packetCategory) ==
              CompleteTail(Slot(id, true, category, rate, Flatten(pieces), |Flatten(pieces)|), packetCategory)
  {
    var message := Flatten(pieces);
    var chunks := Transfer(id, category, rate, pieces);
    assert message == pieces[0] + Flatten(pieces[1..]);
    var afterHead := Slot(id, true, category, rate, Resize(slot.buffer, |message|), 0);
    var b := WriteAt(afterHead.buffer, 0, pieces[0], |pieces[0]|);
    assert b[..|pieces[0]|] == pieces[0] by {
      assert b[0..|pieces[0]|] == pieces[0];
    }
    var next := OnReceive(slot, chunks[0], packetCategory);
    assert next.slot == afterHead.(buffer := b, writePosition := |pieces[0]|);
    assert Filling(next.slot, id, category, rate, |message|, pieces[0]);
    assert chunks[1..] == AfterHead(id, pieces[1..]);
    AfterHeadCompletes(next.slot, id, category, rate, message, pieces[0], pieces[1..], packetCategory);
  }

  /**
   * The round trip: a packet-category transfer whose message announces a
   * bit count that fills its payload bytes is delivered as that packet id,
   * bit count and payload, and leaves the slot free.
   */
  lemma TransferDeliversPacket(
    slot: Slot, id: ChunkId, rate: uint32, pieces: seq<seq<uint8>>, packetCategory: uint16)
    requires !slot.started
    requires |pieces| >= 2 && ChunkSized(pieces) && |Flatten(pieces)| <= MaxFinalSize
    requires var m := Flatten(pieces); |m| >= 5 && BytesUsed(LittleEndian32(m[1..5])) == |m| - 5
    ensures var m := Flatten(pieces);
            Run(slot, Transfer(id, packetCategory, rate, pieces), packetCategory) ==
              Step(DefaultSlot, Delivered(m[0], LittleEndian32(m[1..5]), m[5..]))
  {
    TransferRebuildsMessage(slot, id, packetCategory, rate, pieces, packetCategory);
  }
}
