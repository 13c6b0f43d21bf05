/**
 The shared-memory ring buffer (src/ringbuf.hpp): one producer, any number of readers that
 take no lock. `stream` is the unbounded logical stream the buffer is a window onto.
 */
module Ring {
  import opened Words

  /** std::complex<int16_t>; memset to zero bytes yields ZERO. */
  datatype Sample = Sample(re: int, im: int)

  const ZERO := Sample(0, 0)

  function Zeros(n: nat): (s: seq<Sample>)
    ensures |s| == n && forall i :: 0 <= i < n ==> s[i] == ZERO
  {
    seq(n, _ => ZERO)
  }

  /** Length of the span both span getters hand out: as wanted, or up to the end of the ring. */
  function Clip(pos: nat, want: nat, size: nat): (n: nat)
    requires PowerOfTwo(size)
    ensures n <= want && Slot(pos, size) + n <= size
    ensures n == want || Slot(pos, size) + n == size
    ensures want > 0 ==> n > 0
  {
    if Slot(pos, size) + want <= size then want else size - Slot(pos, size)
  }

  lemma {:induction false} SlotAdd(pos: nat, size: nat, k: nat)
    requires PowerOfTwo(size) && Slot(pos, size) + k < size
    ensures Slot(pos + k, size) == Slot(pos, size) + k
  {
    SlotIsMod(pos, size);
    SlotIsMod(pos + k, size);
    ModPlus(pos, size, k);
  }

  /** A clipped span is contiguous: consecutive indices in it have consecutive cells. */
  lemma {:induction false} SpanSlots(pos: nat, size: nat, n: nat)
    requires PowerOfTwo(size) && Slot(pos, size) + n <= size
    ensures forall i: nat :: pos <= i < pos + n ==> Slot(i, size) == Slot(pos, size) + (i - pos)
  {
    forall i: nat | pos <= i < pos + n
      ensures Slot(i, size) == Slot(pos, size) + (i - pos)
    {
      SlotAdd(pos, size, i - pos);
    }
  }

  /** head rounded down to a multiple of want. */
  function AlignDown(head: nat, want: nat): (r: nat)
    requires want > 0
    ensures r <= head < r + want
  {
    head - head % want
  }

  /** One past the last index of the block GetAlignedSamples returns. */
  function AlignedEnd(head: nat, want: nat, size: nat): int
    requires want > 0 && PowerOfTwo(size)
  {
    var aligned := AlignDown(head, want);
    if Slot(aligned, size) >= want then aligned else aligned - want
  }

  /** The cells off .. off + want are in bounds and are those of the want indices below end. */
  ghost predicate BlockAt(off: int, end: int, want: nat, size: nat)
    requires PowerOfTwo(size)
  {
    && 0 <= off && off + want <= size && want <= end
    && forall i: nat :: end - want <= i < end ==> Slot(i, size) == off + (i - (end - want))
  }

  lemma {:induction false} PositionScaled(nsec: nat, rateHz: real)
    ensures Position(nsec, rateHz) * 1000000000.0 == nsec as real * rateHz
  {
  }

  datatype TailResult = Tail(tail: nat) | PrecedesStart | Clobbered

  /** Where a time that many nanoseconds after the start lies, in samples. */
  function Position(nsec: nat, rateHz: real): real {
    nsec as real / 1000000000.0 * rateHz
  }

  class Ringbuf {
    const size: nat
    const ring: array<Sample>

    var head: nat       // _head, the producer's own copy
    var descHead: nat   // desc->head, what readers see
    var clob: nat       // desc->clob
    var startNsec: nat
    var rateHz: real

    ghost var stream: seq<Sample>
    ghost var dirty: nat  // cells of head .. dirty may have been overwritten

    /** Every stored sample whose cell the indices up to `upTo` have not reused is still in the ring. */
    ghost predicate Intact(upTo: nat)
      requires PowerOfTwo(size) && ring.Length == size && |stream| == head
      reads this, ring
    {
      forall i: nat :: i < head && upTo <= i + size ==> ring[Slot(i, size)] == stream[i]
    }

    ghost predicate Valid()
      reads this, ring
    {
      && PowerOfTwo(size) && ring.Length == size
      && |stream| == head == descHead
      && head <= clob <= head + size
      && head <= dirty <= head + size
      && Intact(dirty)
    }

    /** The producer has overwritten nothing but what its last grant announced. */
    ghost predicate Announced()
      reads this
    {
      dirty <= clob
    }

    /** Nothing beyond head has been overwritten: the state between two rounds of the receive worker. */
    ghost predicate Quiet()
      reads this, ring
    {
      Valid() && dirty == head
    }

    /** Any size is accepted; masks address a ring rightly exactly if it is a power of two. */
    constructor (n: nat)
      ensures fresh(ring) && size == n && (PowerOfTwo(n) ==> Quiet())
      ensures stream == [] && clob == 0 && startNsec == 0 && rateHz == 0.0
    {
      size := n;
      ring := new Sample[n](_ => ZERO);
      head, descHead, clob, dirty := 0, 0, 0, 0;
      startNsec, rateHz := 0, 0.0;
      stream := [];
    }

    method SetDescriptorInfo(nsec: nat, rate: real)
      requires Valid()
      modifies this`startNsec, this`rateHz
      ensures Valid() && startNsec == nsec && rateHz == rate
    {
      startNsec, rateHz := nsec, rate;
    }

    /**
     Grant the producer space. The span is what was asked for or ends with the ring, its cells
     are those of the next n indices, and `clob` announces exactly these n as about to change,
     which may be less than it announced before. The announcement is complete exactly if the
     producer has not already written beyond it, in a longer span it published only part of.
     */
    method GetProducerSpan(want: nat) returns (off: nat, n: nat)
      requires Valid() && head + want < TWO64
      modifies this`clob
      ensures Valid() && clob == head + n
      ensures Announced() <==> dirty <= head + n
      ensures n <= want && off + n <= size && (n == want || off + n == size) && (want > 0 ==> n > 0)
      ensures n == Clip(head, want, size) && off == Slot(head, size)
      ensures forall i: nat :: head <= i < head + n ==> Slot(i, size) == off + (i - head)
    {
      off := BitAnd(head, size - 1);
      assert off == Slot(head, size);
      if off + want <= size {
        n := want;
      } else {
        n := size - off;
      }
      clob := head + n;
      SpanSlots(head, size, n);
    }

    /** Publish the first n granted samples, however many the producer has written. */
    method Produce(n: nat)
      requires Valid() && head + n <= clob
      modifies this`head, this`descHead, this`stream, this`dirty
      ensures Valid() && head == old(head) + n
      ensures dirty == if old(dirty) < head then head else old(dirty)
      ensures old(stream) <= stream
      ensures forall i: nat :: old(head) <= i < head ==> stream[i] == ring[Slot(i, size)]
    {
      stream := stream + seq(n, k requires 0 <= k < n reads this, ring => ring[Slot(head + k, size)]);
      head := head + n;
      descHead := head;
      dirty := if dirty < head then head else dirty;
    }

    method GetConsumerSpan(tail: nat, want: nat) returns (off: nat, n: nat)
      requires Valid() && tail < TWO64 && want < TWO64
      ensures n == 0 <==> want == 0 || Wrap64(tail + want) > descHead
      ensures n > 0 && tail + want < TWO64 ==> tail + n <= head
      ensures n > 0 ==> n <= want && off + n <= size && (n == want || off + n == size)
      ensures n > 0 ==> n == Clip(tail, want, size)
      ensures forall i: nat :: tail <= i < tail + n ==> Slot(i, size) == off + (i - tail)
    {
      off := BitAnd(tail, size - 1);
      assert off == Slot(tail, size);
      if Wrap64(tail + want) > descHead {
        n := 0;
      } else if off + want <= size {
        n := want;
      } else {
        n := size - off;
      }
      SpanSlots(tail, size, n);
    }

    /**
     The seqlock check. Its sign is that of the true distance while the counters are within half
     the 64-bit range of each other, and a non-negative result means that every published sample
     from tail on is still in the ring, provided the producer announced what it overwrote.
     */
    method GetClobberDistance(tail: nat) returns (d: int)
      requires Valid()
      ensures -TWO63 <= tail + size - clob < TWO63 ==> d == tail + size - clob
      ensures -TWO63 <= tail + size - clob < TWO63 && d >= 0 && Announced()
              ==> forall i: nat :: tail <= i < head ==> ring[Slot(i, size)] == stream[i]
    {
      d := Signed64(Wrap64(tail + size - clob));
      if -TWO63 <= tail + size - clob < TWO63 {
        SignedDifference(tail + size - clob);
      }
    }

    method GetBacklogSamples(tail: nat) returns (n: nat)
      requires Valid()
      ensures tail + n == if tail >= head then tail else head
    {
      n := if tail >= descHead then 0 else descHead - tail;
    }

    lemma {:induction false} Window(off: int, end: int, want: nat)
      requires Valid() && BlockAt(off, end, want, size) && end <= head && dirty <= end - want + size
      ensures ring[off..off + want] == stream[end - want..end]
    {
      var lo: nat := end - want;
      forall k: nat | k < want
        ensures ring[off..off + want][k] == stream[lo..end][k]
      {
        var i := lo + k;
        assert Slot(i, size) == off + k;
      }
    }

    /**
     The most recent block of `want` samples aligned to a multiple of `want`, or the one before
     it when that one wraps. With room for two blocks it lies inside the ring and is one
     contiguous stretch of the stream; with room for three and the current grant, no sample of it
     has been overwritten.
     */
    method GetAlignedSamples(want: nat) returns (off: int)
      requires Valid() && 0 < want && head < TWO64
      ensures 2 * want <= size <= TWO64 && head < want ==> off + 2 * want == size
      ensures 2 * want <= size && head >= want
              ==> var end := AlignedEnd(head, want, size);
                  && end == (if AlignDown(head, want) % size >= want then AlignDown(head, want)
                             else AlignDown(head, want) - want)
                  && end % want == 0
                  && BlockAt(off, end, want, size)
      ensures Announced() && 3 * want + (clob - head) <= size && head >= want
              ==> var end := AlignedEnd(head, want, size);
                  && BlockAt(off, end, want, size) && end <= head
                  && ring[off..off + want] == stream[end - want..end]
    {
      var aligned := AlignDown(descHead, want);
      var inRing := BitAnd(aligned, size - 1);
      assert inRing == Slot(aligned, size);
      if inRing >= want {
        off := inRing - want;
      } else {
        off := BitAnd(Wrap64(aligned - want), size - 1) - want;
      }
      AlignedAddress(head, want, size, off);
      SlotIsMod(aligned, size);
      if Announced() && 3 * want + (clob - head) <= size && head >= want {
        Window(off, AlignedEnd(head, want, size), want);
      }
    }

    /**
     First index of a recording that is to start at tailNsec: within half a sample of that time,
     and beyond everything published, granted or announced, so that no sample of the recording is
     overwritten before the writer has begun. Refused exactly if the time precedes the start, or
     lies less than half a sample beyond `clob`.
     */
    method GetTail(tailNsec: nat) returns (r: TailResult)
      requires Valid() && rateHz >= 0.0
      ensures r.PrecedesStart? <==> tailNsec < startNsec
      ensures r.Clobbered? <==>
                startNsec <= tailNsec
                && (tailNsec - startNsec) as real * rateHz < (clob as real + 0.5) * 1000000000.0
      ensures r.Tail? ==> startNsec <= tailNsec && head <= clob < r.tail
      ensures r.Tail? ==>
                && (r.tail as real - 0.5) * 1000000000.0 <= (tailNsec - startNsec) as real * rateHz
                && (tailNsec - startNsec) as real * rateHz < (r.tail as real + 0.5) * 1000000000.0
    {
      if tailNsec < startNsec {
        return PrecedesStart;
      }
      var tail := RecordingTail(tailNsec - startNsec, rateHz);
      PositionScaled(tailNsec - startNsec, rateHz);
      if tail <= clob {
        return Clobbered;
      }
      return Tail(tail);
    }
  }

  /** The sample count closest to nsec nanoseconds at the given rate; halves round up. */
  function RecordingTail(nsec: nat, rateHz: real): (t: nat)
    requires rateHz >= 0.0
    ensures t as real - 0.5 <= Position(nsec, rateHz) < t as real + 0.5
  {
    (Position(nsec, rateHz) + 0.5).Floor
  }

  /**
     What goes wrong otherwise, in a ring of four: the producer fills a grant of two, publishes
     none of it and takes a grant of one. That lowers `clob` below what was overwritten, and the
     check passes although the sample at the tail is gone.
   */
  method OverwriteUnannounced(a: Sample, b: Sample) returns (r: Ringbuf, d: int)
    requires a != b && a != ZERO
    ensures r.Valid() && !r.Announced() && r.head == 4 && r.size == 4
    ensures d >= 0 && d == 1 + r.size - r.clob
    ensures r.stream[1] == a && r.ring[Slot(1, r.size)] == b
  {
    Pow2IsPowerOfTwo(2);
    assert Pow2(2) == 4;
    r := new Ringbuf(4);
    SlotIsMod(0, 4);
    SlotIsMod(1, 4);
    SlotIsMod(2, 4);
    SlotIsMod(3, 4);
    SlotIsMod(4, 4);
    SlotIsMod(5, 4);
    var off, n := r.GetProducerSpan(4);
    r.ring[0], r.ring[1], r.ring[2], r.ring[3] := a, a, a, a;
    r.dirty := 4;
    r.Produce(4);
    off, n := r.GetProducerSpan(2);
    r.ring[0], r.ring[1] := b, b;
    r.dirty := 6;
    r.Produce(0);
    off, n := r.GetProducerSpan(1);
    d := r.GetClobberDistance(1);
  }

  lemma {:induction false} AlignedMultiple(head: nat, want: nat)
    requires 0 < want <= head
    ensures var aligned := AlignDown(head, want);
            want <= aligned && aligned % want == 0 && (aligned - want) % want == 0
  {
    var q := head / want;
    assert head == q * want + head % want;
    assert q * want > 0;
    MulAtLeast(q, want);
    DivModUnique(q * want, want, q, 0);
    assert q * want - want == (q - 1) * want;
    DivModUnique(q * want - want, want, q - 1, 0);
  }

  lemma {:induction false} Unaligned(head: nat, want: nat)
    requires head < want
    ensures AlignDown(head, want) == 0
  {
    DivModUnique(head, want, 0, head);
  }

  lemma {:induction false} SlotMinus(pos: nat, size: nat, d: nat)
    requires PowerOfTwo(size) && d <= Slot(pos, size) && d <= pos
    ensures Slot(pos - d, size) == Slot(pos, size) - d
  {
    SlotIsMod(pos, size);
    SlotIsMod(pos - d, size);
    ModPlus(pos, size, 0 - d);
  }

  lemma {:induction false} SlotBorrow(pos: nat, size: nat, d: nat)
    requires PowerOfTwo(size) && Slot(pos, size) < d <= size && d <= pos
    ensures Slot(pos - d, size) == Slot(pos, size) + size - d
    ensures pos >= size
  {
    SlotIsMod(pos, size);
    SlotIsMod(pos - d, size);
    ModBorrow(pos, size, d);
    AtLeastDivisor(pos, size);
  }

  /** What the address arithmetic yields for a multiple of want: a block that does not wrap. */
  lemma {:induction false} AlignedBlock(aligned: nat, want: nat, size: nat)
    requires 0 < want <= aligned < TWO64 && 2 * want <= size && PowerOfTwo(size)
    ensures Slot(aligned, size) >= want
            ==> BlockAt(Slot(aligned, size) - want, aligned, want, size)
    ensures Slot(aligned, size) < want
            ==> BlockAt(BitAnd(Wrap64(aligned - want), size - 1) - want, aligned - want, want, size)
  {
    if Slot(aligned, size) >= want {
      SlotMinus(aligned, size, want);
      SpanSlots(aligned - want, size, want);
    } else {
      SlotBorrow(aligned, size, want);
      SlotMinus(aligned - want, size, want);
      SpanSlots(aligned - 2 * want, size, want);
      DivModUnique(aligned - want, TWO64, 0, aligned - want);
    }
  }

  lemma {:induction false} AlignedAddress(head: nat, want: nat, size: nat, off: int)
    requires 0 < want && head < TWO64 && PowerOfTwo(size)
    requires var aligned := AlignDown(head, want);
             off == if Slot(aligned, size) >= want then Slot(aligned, size) - want
                    else BitAnd(Wrap64(aligned - want), size - 1) - want
    ensures 2 * want <= size <= TWO64 && head < want ==> off + 2 * want == size
    ensures 2 * want <= size && head >= want
            ==> AlignedEnd(head, want, size) % want == 0 && BlockAt(off, AlignedEnd(head, want, size), want, size)
  {
    if head >= want {
      AlignedMultiple(head, want);
      if 2 * want <= size {
        AlignedBlock(AlignDown(head, want), want, size);
      }
    } else {
      Unaligned(head, want);
      if 2 * want <= size <= TWO64 {
        EmptyBlock(want, size);
      }
    }
  }

  /** With nothing aligned yet, the wrapped subtraction lands two blocks below the ring's end. */
  lemma {:induction false} EmptyBlock(want: nat, size: nat)
    requires 0 < want && 2 * want <= size <= TWO64 && PowerOfTwo(size)
    ensures BitAnd(0, size - 1) == 0
    ensures BitAnd(Wrap64(0 - want), size - 1) == size - want
  {
    DivModUnique(0 - want, TWO64, -1, TWO64 - want);
    WordRange();
    Divides(size, 64);
    MaskIsMod(TWO64 - want, size);
    ModBorrow(TWO64, size, want);
  }
}
