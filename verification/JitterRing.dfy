/** The jitter buffer of examples/p2p_voice/audio_codec.cpp: received voice frames are cached
    in a ring by packet number and played in order. The Opus codec and the checksum are
    parameters; each method is one step. */
module JitterRing {
  import opened Bytes
  import opened Wrappers

  type Sample = x: int | -0x8000 <= x < 0x8000

  datatype Packet = Packet(index: u32, frame: seq<Sample>)

  const HEADER_SIZE: nat := 6
  const OPUS_OK := 0
  const OPUS_BAD_ARG := -1
  const OPUS_BUFFER_TOO_SMALL := -2

  // i modulo m, i divided by m and r times n as recursions, which the solver unfolds only a
  // step at a time: see DivisionIs and OffsetIsProduct.
  function Residue(i: nat, m: nat): (r: nat)
    requires m > 0
    ensures r < m
  {
    if i < m then i else Residue(i - m, m)
  }

  function Quotient(i: nat, m: nat): nat
    requires m > 0
  {
    if i < m then 0 else Quotient(i - m, m) + 1
  }

  function Offset(r: nat, n: nat): nat {
    if r == 0 then 0 else Offset(r - 1, n) + n
  }

  lemma {:induction false} Recompose(i: nat, m: nat)
    requires m > 0
    ensures i == Quotient(i, m) * m + Residue(i, m)
  {
    if i >= m {
      Recompose(i - m, m);
      var p := Quotient(i - m, m);
      assert (p + 1) * m == p * m + m;
    }
  }

  lemma DivisionIs(i: nat, m: nat)
    requires m > 0
    ensures Residue(i, m) == i % m && Quotient(i, m) == i / m
  {
    Recompose(i, m);
    DivBounds(i, m);
    MulOrder(Quotient(i, m), i / m, m);
    MulOrder(i / m, Quotient(i, m), m);
  }

  lemma {:induction false} OffsetIsProduct(r: nat, n: nat)
    ensures Offset(r, n) == r * n
  {
    if r > 0 {
      OffsetIsProduct(r - 1, n);
    }
  }

  lemma {:induction false} OffsetOrder(r: nat, s: nat, n: nat)
    requires r < s
    ensures Offset(r, n) + n <= Offset(s, n)
  {
    if r < s - 1 {
      OffsetOrder(r, s - 1, n);
    }
  }

  // A count as a 32-bit counter shows it: modulo 2^32.
  function Wrap(n: nat): u32 { Residue(n, 0x1_0000_0000) }

  lemma WrapIs(n: nat)
    ensures Wrap(n) == n % 0x1_0000_0000
    ensures n < 0x1_0000_0000 ==> Wrap(n) == n
  {
    DivisionIs(n, 0x1_0000_0000);
  }

  method Increment(x: u32, ghost n: nat) returns (y: u32)
    requires x == Wrap(n)
    ensures y == Wrap(n + 1)
  {
    DivisionIs(n, 0x1_0000_0000);
    DivisionIs(n + 1, 0x1_0000_0000);
    y := (x + 1) % 0x1_0000_0000;
  }

  // The last accepted packet whose number is r modulo the ring size.
  function LastAt(log: seq<Packet>, max: nat, r: nat): (p: Option<Packet>)
    requires max > 0
    ensures p.Some? ==> p.value in log && Residue(p.value.index, max) == r
    ensures p.None? ==> forall q :: q in log ==> Residue(q.index, max) != r
  {
    if log == [] then None
    else
      var n := |log| - 1;
      if Residue(log[n].index, max) == r then Some(log[n]) else LastAt(log[..n], max, r)
  }

  function Largest(log: seq<Packet>): (m: nat)
    requires log != []
    ensures (forall q :: q in log ==> q.index <= m) && exists q :: q in log && q.index == m
  {
    var n := |log| - 1;
    if n == 0 then log[0].index
    else
      var m := Largest(log[..n]);
      assert log == log[..n] + [log[n]];
      if m < log[n].index then log[n].index else m
  }

  // The lap the newest packet is in.
  function Lap(log: seq<Packet>, max: nat): nat
    requires max > 0
  {
    if log == [] then 0 else Quotient(Largest(log), max)
  }

  // A packet too old to keep: more than half a ring before the lap of the newest one.
  predicate Stale(log: seq<Packet>, max: nat, half: nat, index: nat)
    requires max > 0
  {
    Lap(log, max) > 0 && index < Lap(log, max) * max - half
  }

  // The filter in plain arithmetic: once a lap is complete, a packet is dropped exactly if it
  // is more than half a ring before the start of the lap the newest packet is in.
  lemma StaleIff(log: seq<Packet>, max: nat, half: nat, index: nat)
    requires 0 < half && max == 2 * half
    ensures Stale(log, max, half, index)
       <==> log != [] && Largest(log) >= max && index + half < Largest(log) / max * max
  {
    if log != [] {
      DivisionIs(Largest(log), max);
      Recompose(Largest(log), max);
    }
  }

  // What should be kept is kept: a packet at most half a ring older than the newest one.
  lemma RecentIsKept(log: seq<Packet>, max: nat, half: nat, index: nat)
    requires 0 < half && max == 2 * half
    requires log == [] || index + half >= Largest(log)
    ensures !Stale(log, max, half, index)
  {
    if log != [] {
      StaleIff(log, max, half, index);
      DivBounds(Largest(log), max);
    }
  }

  lemma LastAtAppend(log: seq<Packet>, max: nat, p: Packet, r: nat)
    requires max > 0
    ensures LastAt(log + [p], max, r) == if Residue(p.index, max) == r then Some(p) else LastAt(log, max, r)
  {
    assert (log + [p])[..|log|] == log;
  }

  lemma LargestAppend(log: seq<Packet>, p: Packet)
    ensures Largest(log + [p]) == if log != [] && Largest(log) >= p.index then Largest(log) else p.index
  {
    assert (log + [p])[..|log|] == log;
  }

  lemma QuotientMonotone(a: nat, b: nat, max: nat)
    requires max > 0 && a <= b
    ensures Quotient(a, max) <= Quotient(b, max)
  {
    Recompose(a, max);
    Recompose(b, max);
    MulOrder(Quotient(b, max), Quotient(a, max), max);
  }

  lemma LapAppend(log: seq<Packet>, p: Packet, max: nat)
    requires max > 0
    ensures Lap(log + [p], max)
         == if Quotient(p.index, max) > Lap(log, max) then Quotient(p.index, max) else Lap(log, max)
  {
    LargestAppend(log, p);
    if log != [] {
      if Largest(log) >= p.index {
        QuotientMonotone(p.index, Largest(log), max);
      } else {
        QuotientMonotone(Largest(log), p.index, max);
      }
    }
  }

  lemma DivBounds(i: nat, max: nat)
    requires max > 0
    ensures i == (i / max) * max + i % max && 0 <= i % max < max
  {
  }

  lemma {:induction false} MulMonotone(a: nat, b: nat, m: nat)
    requires a <= b
    ensures a * m <= b * m
  {
    if a < b {
      MulMonotone(a, b - 1, m);
      assert (b - 1) * m + m == b * m;
    }
  }

  lemma MulOrder(a: nat, b: nat, m: nat)
    ensures a <= b ==> a * m <= b * m
    ensures a < b ==> a * m + m <= b * m
  {
    if a < b {
      MulMonotone(a + 1, b, m);
      assert (a + 1) * m == a * m + m;
    }
  }

  // The filter in the source's uint32 arithmetic is the one above: the product stays below
  // 2^32, and subtracting half a ring does not wrap because a whole lap has gone by.
  lemma ThresholdNeverWraps(log: seq<Packet>, max: nat, half: nat)
    requires 0 < half && max == 2 * half
    ensures var base := Lap(log, max);
      base > 0 ==> half <= base * max - half < 0x1_0000_0000
                   && (base * max - half) % 0x1_0000_0000 == base * max - half
  {
    var base := Lap(log, max);
    if base > 0 {
      Recompose(Largest(log), max);
      MulOrder(0, base, max);
      var t := base * max - half;
      assert half <= t < 0x1_0000_0000;
    }
  }

  // The packet in lap a and the resident in lap b share the slot rho; lap is the newest one.
  lemma DisplacementArithmetic(half: nat, max: nat, a: nat, b: nat, rho: nat, lap: nat)
    requires 0 < half && max == 2 * half && rho < max
    requires b * max + rho < lap * max + max
    requires lap > 0 ==> lap * max - half <= a * max + rho
    ensures b * max + rho <= a * max + rho + max
    ensures rho < half ==> b * max + rho <= a * max + rho
  {
    MulOrder(lap, b, max);
    assert b <= lap;
    MulOrder(a, lap, max);
    MulOrder(a, a + 1, max);
    MulOrder(a + 1, lap, max);
    assert lap <= a + 1;
    MulOrder(b, a, max);
    MulOrder(b, lap, max);
  }

  // What an accepted packet can push out of its slot: a packet at most one ring newer, and
  // never a newer one if its own slot is in the lower half of the ring.
  lemma Displacement(log: seq<Packet>, max: nat, half: nat, index: nat)
    requires 0 < half && max == 2 * half && !Stale(log, max, half, index)
    ensures var resident := LastAt(log, max, Residue(index, max));
      resident.Some? ==>
        && resident.value.index <= index + max
        && (Residue(index, max) < half ==> resident.value.index <= index)
  {
    var rho := Residue(index, max);
    var resident := LastAt(log, max, rho);
    if resident.Some? {
      var r := resident.value.index;
      Recompose(index, max);
      Recompose(r, max);
      Recompose(Largest(log), max);
      DisplacementArithmetic(half, max, Quotient(index, max), Quotient(r, max), rho, Lap(log, max));
    }
  }

  /* ---------- packets on the wire ---------- */

  type Crc = seq<u8> -> u16

  // Number, checksum of the payload, payload.
  function Wire(crc: Crc, index: u32, payload: seq<u8>): seq<u8> {
    BigEndian(index, 4) + BigEndian(crc(payload), 2) + payload
  }

  // The packet's number, if its checksum is right.
  function Header(crc: Crc, input: seq<u8>): Option<u32> {
    if |input| < HEADER_SIZE then None
    else
      Pow256Values();
      if crc(input[HEADER_SIZE..]) != Value(input[4..6]) then None else Some(Value(input[0..4]))
  }

  // Which byte goes where: number, checksum of the payload, payload.
  lemma WireBytes(crc: Crc, index: u32, payload: seq<u8>)
    ensures var w := Wire(crc, index, payload);
      && |w| == 6 + |payload|
      && w[..4] == [index / 0x100_0000, index / 0x1_0000 % 0x100, index / 0x100 % 0x100, index % 0x100]
      && w[4..6] == [crc(payload) / 0x100, crc(payload) % 0x100] && w[6..] == payload
  {
    FourBytes(index);
    TwoBytes(crc(payload));
  }

  // A packet as encoded is taken for what it is, and only such packets pass.
  lemma HeaderIff(crc: Crc, input: seq<u8>, index: u32)
    ensures Header(crc, input) == Some(index)
       <==> |input| >= HEADER_SIZE && input == Wire(crc, index, input[HEADER_SIZE..])
  {
    Pow256Values();
    ValueOfBigEndian(index, 4);
    if |input| >= HEADER_SIZE {
      var payload := input[HEADER_SIZE..];
      ValueOfBigEndian(crc(payload), 2);
      var n, c := input[0..4], input[4..6];
      BigEndianOfValue(n);
      BigEndianOfValue(c);
      assert input == n + c + payload;
      var w := Wire(crc, index, payload);
      assert w[0..4] == BigEndian(index, 4) && w[4..6] == BigEndian(crc(payload), 2);
    }
  }

  // opus_encode: an error code, or the bytes it wrote.
  datatype Encoded = Failed(code: int) | Payload(bytes: seq<u8>)

  class AudioCodec {
    const max: u16        // slots in the ring
    const half: u16
    const frameSize: nat  // samples a frame, all channels together
    var sendIndex: u32
    var playedIndex: u32
    var recvBaseIndex: u32
    var recvCount: u32
    var losesPackNum: u32
    const jitterBuffer: array<Sample>
    const cachedIndexBuf: array<u32>
    ghost var log: seq<Packet>  // the packets accepted so far, with the frames decoded from them
    ghost var hits: nat
    ghost var losses: nat

    ghost predicate Shape() {
      && 0 < half && max == 2 * half
      && cachedIndexBuf.Length == max && jitterBuffer.Length == Offset(max, frameSize)
    }

    // Slot r of the flat sample buffer.
    ghost function Slot(r: nat): (s: seq<Sample>)
      requires Shape() && r < max
      reads jitterBuffer
      ensures |s| == frameSize
    {
      OffsetOrder(r, max, frameSize);
      jitterBuffer[Offset(r, frameSize)..Offset(r, frameSize) + frameSize]
    }

    // Slot r caches the last accepted packet of its residue; untouched, it claims number 0.
    ghost predicate SlotOk(r: nat)
      requires Shape() && r < max
      reads this`log, jitterBuffer, cachedIndexBuf
    {
      match LastAt(log, max, r)
      case None => cachedIndexBuf[r] == 0
      case Some(p) => cachedIndexBuf[r] == p.index && Slot(r) == p.frame
    }

    ghost predicate RingOk()
      requires Shape()
      reads this`log, jitterBuffer, cachedIndexBuf
    {
      forall r {:trigger SlotOk(r)} :: 0 <= r < max ==> SlotOk(r)
    }

    // The 32-bit counters, and the lap of the newest packet.
    ghost predicate CountersOk()
      requires Shape()
      reads this
    {
      && recvBaseIndex == Lap(log, max)
      && recvCount == Wrap(|log|)
      && playedIndex == Wrap(hits + losses)
      && losesPackNum == Wrap(losses)
    }

    ghost predicate Valid()
      reads this, jitterBuffer, cachedIndexBuf
    {
      Shape() && RingOk() && CountersOk()
    }

    // `init`, for ring sizes whose double fits the 16-bit counters.
    constructor (jitterBufSize: nat, frameSize: nat)
      requires 0 < jitterBufSize < 0x8000
      ensures Valid() && fresh(jitterBuffer) && fresh(cachedIndexBuf)
      ensures half == jitterBufSize && this.frameSize == frameSize
      ensures log == [] && hits == 0 && losses == 0 && sendIndex == 0
    {
      OffsetIsProduct(2 * jitterBufSize, frameSize);
      max, half, this.frameSize := 2 * jitterBufSize, jitterBufSize, frameSize;
      jitterBuffer := new Sample[2 * jitterBufSize * frameSize](_ => 0);
      cachedIndexBuf := new u32[2 * jitterBufSize](_ => 0);
      sendIndex, playedIndex, recvBaseIndex, recvCount, losesPackNum := 0, 0, 0, 0, 0;
      log, hits, losses := [], 0, 0;
    }

    // Writes the header before the payload the codec has put behind it.
    method WriteHeader(crc: Crc, payload: seq<u8>, out: array<u8>) returns (size: nat)
      requires HEADER_SIZE + |payload| <= out.Length
      requires out[HEADER_SIZE..HEADER_SIZE + |payload|] == payload
      modifies this`sendIndex, out
      ensures sendIndex == (old(sendIndex) + 1) % 0x1_0000_0000
      ensures size == HEADER_SIZE + |payload| && out[..size] == Wire(crc, sendIndex, payload)
    {
      sendIndex := (sendIndex + 1) % 0x1_0000_0000;
      size := |payload| + HEADER_SIZE;
      ToBigEndian(sendIndex, 4, out, 0);
      ghost var behind := out[4..];
      assert behind == old(out[4..]) && behind[2..size - 4] == old(out[HEADER_SIZE..size]);
      assert out[HEADER_SIZE..size] == behind[2..size - 4];
      ghost var number := out[..4];
      assert number == out[0..4];
      var check := crc(out[HEADER_SIZE..size]);
      ghost var rest := out[6..];
      assert rest[..|payload|] == out[HEADER_SIZE..size];
      ToBigEndian(check, 2, out, 4);
      assert out[4 + 2..] == rest && out[..4] == number;
      assert out[..size] == out[..4] + out[4..6] + out[6..size] && out[6..size] == rest[..|payload|];
    }

    // `encode`: `samples` are the frame's samples in all channels, `encoded` what the codec
    // makes of them in the room behind the header. A buffer too small for the raw frame and a
    // codec that fails use up no packet number.
    method Encode(crc: Crc, samples: nat, encoded: Encoded, out: array<u8>) returns (r: int)
      requires encoded.Failed? ==> encoded.code < 0
      requires encoded.Payload? && out.Length >= HEADER_SIZE ==> HEADER_SIZE + |encoded.bytes| <= out.Length
      modifies this`sendIndex, out
      ensures out.Length < HEADER_SIZE + 2 * samples ==>
                r == OPUS_BUFFER_TOO_SMALL && sendIndex == old(sendIndex) && out[..] == old(out[..])
      ensures out.Length >= HEADER_SIZE + 2 * samples && encoded.Failed? ==>
                r == encoded.code && sendIndex == old(sendIndex)
      ensures out.Length >= HEADER_SIZE + 2 * samples && encoded.Payload? ==>
                && sendIndex == (old(sendIndex) + 1) % 0x1_0000_0000
                && r == HEADER_SIZE + |encoded.bytes| && out[..r] == Wire(crc, sendIndex, encoded.bytes)
    {
      if out.Length < HEADER_SIZE + 2 * samples {
        return OPUS_BUFFER_TOO_SMALL;
      }
      match encoded {
        case Failed(code) => return code;
        case Payload(bytes) =>
          forall i | 0 <= i < |bytes| {
            out[HEADER_SIZE + i] := bytes[i];
          }
          r := WriteHeader(crc, bytes, out);
      }
    }

    method GetCacheIndexOffset(index: u32) returns (r: nat)
      requires Shape()
      ensures r == Residue(index, max)
    {
      DivisionIs(index, max);
      r := index % max;
    }

    method GetJitterBufOffset(index: u32) returns (offset: nat)
      requires Shape()
      ensures offset == Offset(Residue(index, max), frameSize) && offset + frameSize <= jitterBuffer.Length
    {
      DivisionIs(index, max);
      OffsetIsProduct(Residue(index, max), frameSize);
      OffsetOrder(Residue(index, max), max, frameSize);
      offset := index % max * frameSize;
    }

    method TryGetJitterBuffer(index: u32) returns (offset: nat)
      requires Shape()
      modifies cachedIndexBuf
      ensures offset == Offset(Residue(index, max), frameSize) && offset + frameSize <= jitterBuffer.Length
      ensures cachedIndexBuf[Residue(index, max)] == index
      ensures forall r :: 0 <= r < max && r != Residue(index, max) ==> cachedIndexBuf[r] == old(cachedIndexBuf[r])
    {
      var slot := GetCacheIndexOffset(index);
      offset := GetJitterBufOffset(index);
      cachedIndexBuf[slot] := index;
    }

    // The codec's write through the span of one frame.
    method CopyFrame(offset: nat, pcm: seq<Sample>)
      requires |pcm| <= frameSize && offset + frameSize <= jitterBuffer.Length
      modifies jitterBuffer
      ensures jitterBuffer[offset..offset + frameSize] == pcm + old(jitterBuffer[offset..offset + frameSize])[|pcm|..]
      ensures forall lo, hi :: 0 <= lo <= hi <= jitterBuffer.Length && (hi <= offset || offset + frameSize <= lo) ==>
                jitterBuffer[lo..hi] == old(jitterBuffer[lo..hi])
    {
      forall i | 0 <= i < |pcm| {
        jitterBuffer[offset + i] := pcm[i];
      }
    }

    // Puts a decoded frame into its slot and its number into the index cache: exactly the
    // residue's entry of the log changes.
    method Fill(index: u32, pcm: seq<Sample>) returns (ghost p: Packet)
      requires Shape() && |pcm| <= frameSize
      requires RingOk()
      modifies this`log, jitterBuffer, cachedIndexBuf
      ensures p == Packet(index, pcm + old(Slot(Residue(index, max)))[|pcm|..])
      ensures log == old(log) + [p]
      ensures RingOk()
    {
      ghost var s := Residue(index, max);
      ghost var before := Slot(s);
      var offset := TryGetJitterBuffer(index);
      CopyFrame(offset, pcm);
      p := Packet(index, pcm + before[|pcm|..]);
      log := log + [p];
      forall r | 0 <= r < max ensures SlotOk(r) {
        LastAtAppend(old(log), max, p, r);
        assert old(SlotOk(r));
        OffsetOrder(r, max, frameSize);
        if r < s {
          OffsetOrder(r, s, frameSize);
        } else if s < r {
          OffsetOrder(s, r, frameSize);
        }
      }
    }

    // The test of `decode` for a packet that comes too late.
    method IsPrevious(index: u32) returns (stale: bool)
      requires Valid()
      ensures stale == Stale(log, max, half, index)
    {
      ThresholdNeverWraps(log, max, half);
      stale := recvBaseIndex > 0 && index < (recvBaseIndex * max - half) % 0x1_0000_0000;
    }

    method RaiseBase(index: u32, ghost before: seq<Packet>, ghost p: Packet)
      requires Shape() && recvBaseIndex == Lap(before, max) && p.index == index
      modifies this`recvBaseIndex
      ensures recvBaseIndex == Lap(before + [p], max)
    {
      DivisionIs(index, max);
      LapAppend(before, p, max);
      if index / max > recvBaseIndex {
        recvBaseIndex := index / max;
      }
    }

    // The counters, once packet `p` is behind the log `before`.
    method CountPacket(index: u32, count: u32, ghost before: seq<Packet>, ghost p: Packet)
      requires Shape() && log == before + [p] && p.index == index && count == Wrap(|log|)
      requires recvBaseIndex == Lap(before, max) && playedIndex == Wrap(hits + losses) && losesPackNum == Wrap(losses)
      modifies this`recvBaseIndex, this`recvCount
      ensures CountersOk()
    {
      RaiseBase(index, before, p);
      recvCount := count;
    }

    // A packet that passed all tests.
    method Accept(index: u32, pcm: seq<Sample>)
      requires Valid() && |pcm| <= frameSize
      modifies this`log, this`recvBaseIndex, this`recvCount, jitterBuffer, cachedIndexBuf
      ensures Valid()
      ensures log == old(log) + [Packet(index, pcm + old(Slot(Residue(index, max)))[|pcm|..])]
    {
      ghost var before := log;
      var count := Increment(recvCount, |log|);
      ghost var p := Fill(index, pcm);
      CountPacket(index, count, before, p);
    }

    // A packet arrives. `pcm` is what the codec decodes or, failing that, conceals into the
    // front of the frame, and `size` what it reports.
    method Decode(crc: Crc, input: seq<u8>, pcm: seq<Sample>, size: int) returns (r: int)
      requires Valid() && |pcm| <= frameSize
      modifies this`log, this`recvBaseIndex, this`recvCount, jitterBuffer, cachedIndexBuf
      ensures Valid()
      ensures var h := Header(crc, input);
        if h.None? || Stale(old(log), max, half, h.value) then
          log == old(log) && r == if |input| < HEADER_SIZE then OPUS_BAD_ARG else OPUS_OK
        else
          log == old(log) + [Packet(h.value, pcm + old(Slot(Residue(h.value, max)))[|pcm|..])] && r == size
    {
      if |input| < HEADER_SIZE {
        return OPUS_BAD_ARG;
      }
      Pow256Values();
      var checksum := crc(input[HEADER_SIZE..]);
      var recvChecksum := Value(input[4..6]);
      var index: u32 := Value(input[0..4]);
      assert Header(crc, input) == if checksum != recvChecksum then None else Some(index);
      if checksum != recvChecksum {
        return OPUS_OK;
      }
      var previous := IsPrevious(index);
      if previous {
        return OPUS_OK;
      }
      Accept(index, pcm);
      return size;
    }

    // Looks packet `index` up in the ring.
    method Lookup(index: u32, plc: seq<Sample>) returns (hit: bool, out: seq<Sample>)
      requires Valid()
      ensures var p := LastAt(log, max, Residue(index, max));
        && hit == (if p.Some? then p.value.index == index else index == 0)
        && (hit && p.Some? ==> out == p.value.frame)
        && (!hit ==> out == plc)
    {
      var slot := GetCacheIndexOffset(index);
      var offset := GetJitterBufOffset(index);
      assert SlotOk(slot);
      hit := cachedIndexBuf[slot] == index;
      out := if hit then jitterBuffer[offset..offset + frameSize] else plc;
    }

    // The next frame to play. While fewer than half a ring of packets have come in, and for
    // a packet that is not cached, the codec conceals: `plc`. Packets received and frames
    // played are counted modulo 2^32; below that, the number played is hits and losses.
    method NextFarEndData(plc: seq<Sample>, plcSize: int) returns (out: seq<Sample>, size: int, index: u32)
      requires Valid()
      modifies this`playedIndex, this`losesPackNum, this`hits, this`losses
      ensures Valid() && log == old(log)
      ensures |log| % 0x1_0000_0000 < half ==>
                out == plc && size == plcSize && index == 0 && hits == old(hits) && losses == old(losses)
      ensures |log| % 0x1_0000_0000 >= half ==>
                && index == (hits + losses) % 0x1_0000_0000
                && (hits + losses < 0x1_0000_0000 ==> index == hits + losses)
                && size == frameSize * 2
                && var p := LastAt(log, max, Residue(index, max));
                   var hit := if p.Some? then p.value.index == index else index == 0;
                   && hits == old(hits) + (if hit then 1 else 0)
                   && losses == old(losses) + (if hit then 0 else 1)
                   && (hit && p.Some? ==> out == p.value.frame)
                   && (!hit ==> out == plc)
    {
      WrapIs(|log|);
      WrapIs(hits + losses + 1);
      if recvCount < half {
        return plc, plcSize, 0;
      }
      index := Increment(playedIndex, hits + losses);
      var hit;
      hit, out := Lookup(index, plc);
      if hit {
        hits := hits + 1;
      } else {
        losesPackNum := Increment(losesPackNum, losses);
        losses := losses + 1;
      }
      playedIndex := index;
      size := frameSize * 2;
    }
  }
}
