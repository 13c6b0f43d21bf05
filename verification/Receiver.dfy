/**
 The receive worker (src/rx.cpp) over the ring buffers of its channels. Its environment, the
 results of recv(), is the script it is run on.
 */
module Receiver {
  import opened Words
  import opened Ring
  import opened RxSpec

  /** memset(), memcpy() and recv() fill consecutive cells and touch no other. */
  method Store(a: array<Sample>, off: nat, chunk: seq<Sample>)
    requires off + |chunk| <= a.Length
    modifies a
    ensures forall k :: off <= k < off + |chunk| ==> a[k] == chunk[k - off]
    ensures forall k :: 0 <= k < a.Length && !(off <= k < off + |chunk|) ==> a[k] == old(a[k])
  {
    for n := 0 to |chunk|
      invariant forall k :: off <= k < off + n ==> a[k] == chunk[k - off]
      invariant forall k :: 0 <= k < a.Length && !(off <= k < off + n) ==> a[k] == old(a[k])
    {
      a[off + n] := chunk[n];
    }
  }

  /** The granted cells hold `chunk`; whatever they did not replace is still there. */
  ghost predicate Filled(r: Ringbuf, chunk: seq<Sample>)
    reads r, r.ring
  {
    && r.Valid() && r.dirty == r.head + |chunk| <= r.clob
    && forall i: nat :: r.head <= i < r.head + |chunk| ==> r.ring[Slot(i, r.size)] == chunk[i - r.head]
  }

  /** Write a chunk to the start of the granted span. */
  method Fill(r: Ringbuf, off: nat, chunk: seq<Sample>)
    requires r.Quiet() && r.head + |chunk| <= r.clob
    requires off == Slot(r.head, r.size) && off + |chunk| <= r.size
    modifies r.ring, r`dirty
    ensures Filled(r, chunk)
  {
    Store(r.ring, off, chunk);
    SpanSlots(r.head, r.size, |chunk|);
    r.dirty := r.head + |chunk|;
    forall i: nat | i < r.head && r.dirty <= i + r.size
      ensures r.ring[Slot(i, r.size)] == r.stream[i]
    {
      var cell := Slot(i, r.size);
      if off <= cell < off + |chunk| {
        SlotsApart(i, r.head + (cell - off), r.size);
        assert false;
      }
    }
  }

  method Publish(r: Ringbuf, ghost chunk: seq<Sample>, n: nat)
    requires Filled(r, chunk) && n == |chunk|
    modifies r`head, r`descHead, r`stream, r`dirty
    ensures r.Quiet() && r.stream == old(r.stream) + chunk
  {
    r.Produce(n);
    assert r.stream[old(r.head)..] == chunk;
  }

  /** Zero-pad lost samples, around the ring's end as often as needed. */
  method PadLost(r: Ringbuf, lost: nat)
    requires r.Quiet() && r.head + lost < TWO64
    modifies r`head, r`descHead, r`clob, r`stream, r`dirty, r.ring
    ensures r.Quiet() && r.stream == old(r.stream) + Zeros(lost)
  {
    var zeroed := 0;
    while zeroed < lost
      invariant zeroed <= lost && r.Quiet() && r.stream == old(r.stream) + Zeros(zeroed)
    {
      var off, n := r.GetProducerSpan(lost - zeroed);
      Fill(r, off, Zeros(n));
      Publish(r, Zeros(n), n);
      assert Zeros(zeroed + n) == Zeros(zeroed) + Zeros(n);
      zeroed := zeroed + n;
    }
  }

  /** Copy received samples behind the padding, around the ring's end as often as needed. */
  method CopyReceived(r: Ringbuf, data: seq<Sample>)
    requires r.Quiet() && r.head + |data| < TWO64
    modifies r`head, r`descHead, r`clob, r`stream, r`dirty, r.ring
    ensures r.Quiet() && r.stream == old(r.stream) + data
  {
    var copied := 0;
    while copied < |data|
      invariant copied <= |data| && r.Quiet() && r.stream == old(r.stream) + data[..copied]
    {
      var off, n := r.GetProducerSpan(|data| - copied);
      Fill(r, off, data[copied..copied + n]);
      Publish(r, data[copied..copied + n], n);
      SliceNext(old(r.stream), data, copied, n);
      copied := copied + n;
    }
    assert data[..copied] == data;
  }

  lemma {:induction false} SliceNext(stream: seq<Sample>, data: seq<Sample>, i: nat, n: nat)
    requires i + n <= |data|
    ensures stream + data[..i] + data[i..i + n] == stream + data[..i + n]
  {
  }

  method PlacePacket(r: Ringbuf, lost: nat, data: seq<Sample>)
    requires r.Quiet() && r.head + lost + |data| < TWO64
    modifies r`head, r`descHead, r`clob, r`stream, r`dirty, r.ring
    ensures r.Quiet() && r.stream == old(r.stream) + (Zeros(lost) + data)
  {
    PadLost(r, lost);
    CopyReceived(r, data);
    assert old(r.stream) + Zeros(lost) + data == old(r.stream) + (Zeros(lost) + data);
  }

  predicate SameShape(s: RxState, t: RxState) {
    s.next == t.next && s.contiguous == t.contiguous && s.run == t.run && |s.stream| == |t.stream|
  }

  lemma {:induction false} Appended(cfg: Config, ch: nat, events: seq<Recv>, ev: Recv)
    requires Proper(cfg, events) && Proper(cfg, events + [ev]) && ch < cfg.channels
    ensures SameShape(RxSpec.Run(cfg, 0, events), RxSpec.Run(cfg, ch, events))
    ensures WellFormed(cfg, ev)
    ensures RxSpec.Run(cfg, ch, events + [ev]) == RxSpec.Step(cfg, ch, RxSpec.Run(cfg, ch, events), ev)
    ensures cfg.start + |RxSpec.Run(cfg, ch, events).stream| == RxSpec.Run(cfg, 0, events).next <= TWO63
  {
    ChannelsAgree(cfg, ch, events);
    TickInvariant(cfg, ch, events);
    assert WellFormed(cfg, (events + [ev])[|events|]);
    assert (events + [ev])[..|events|] == events;
    assert events[..|events|] == events;
  }

  /** The streams of all channels after a run. */
  ghost function StreamsOf(cfg: Config, events: seq<Recv>): (ss: seq<seq<Sample>>)
    requires Proper(cfg, events)
  {
    seq(cfg.channels, ch requires 0 <= ch < cfg.channels => RxSpec.Run(cfg, ch, events).stream)
  }

  /** Each stream extended by its own piece. */
  ghost function Extended(streams: seq<seq<Sample>>, pieces: seq<seq<Sample>>): (ss: seq<seq<Sample>>)
    requires |streams| == |pieces|
  {
    seq(|streams|, ch requires 0 <= ch < |streams| => streams[ch] + pieces[ch])
  }

  /** The samples a placed packet adds to each channel. */
  ghost function Pieces(cfg: Config, s: RxState, ev: Recv): (ps: seq<seq<Sample>>)
    requires PowerOfTwo(cfg.size) && ev.Packet? && WellFormed(cfg, ev)
  {
    seq(cfg.channels, ch requires 0 <= ch < cfg.channels =>
      if s.contiguous > 0 then Taken(cfg, ch, s, ev)
      else Zeros(Lost(s, ev.ts)) + Taken(cfg, 0, s, ev))
  }

  lemma {:induction false} TurnAt(cfg: Config, ch: nat, events: seq<Recv>, ev: Recv)
    requires Proper(cfg, events) && Proper(cfg, events + [ev]) && ch < cfg.channels
    ensures WellFormed(cfg, ev)
    ensures cfg.start + |RxSpec.Run(cfg, ch, events).stream| == RxSpec.Run(cfg, 0, events).next
    ensures var s := RxSpec.Run(cfg, 0, events);
            RxSpec.Run(cfg, ch, events + [ev]).stream
            == if Placed(cfg, s, ev) then RxSpec.Run(cfg, ch, events).stream + Pieces(cfg, s, ev)[ch]
               else RxSpec.Run(cfg, ch, events).stream
  {
    Appended(cfg, ch, events, ev);
    var s, t := RxSpec.Run(cfg, 0, events), RxSpec.Run(cfg, ch, events);
    if Placed(cfg, s, ev) && s.contiguous == 0 {
      var zeros, taken := Zeros(Lost(s, ev.ts)), Taken(cfg, 0, s, ev);
      assert t.stream + zeros + taken == t.stream + (zeros + taken);
    }
  }

  /** What one turn of the loop does to the state of all channels. */
  lemma {:induction false} Turn(cfg: Config, events: seq<Recv>, ev: Recv)
    requires Proper(cfg, events) && Proper(cfg, events + [ev])
    ensures WellFormed(cfg, ev)
    ensures var s, s' := RxSpec.Run(cfg, 0, events), RxSpec.Run(cfg, 0, events + [ev]);
            && s' == RxSpec.Step(cfg, 0, s, ev)
            && s.next <= TWO63 && s'.next <= TWO63
            && cfg.start + |s.stream| == s.next
            && StreamsOf(cfg, events + [ev]) ==
                 if !Placed(cfg, s, ev) then StreamsOf(cfg, events)
                 else Extended(StreamsOf(cfg, events), Pieces(cfg, s, ev))
  {
    Appended(cfg, 0, events, ev);
    assert (events + [ev])[..|events + [ev]|] == events + [ev];
    forall ch | 0 <= ch < cfg.channels
      ensures var s := RxSpec.Run(cfg, 0, events);
              StreamsOf(cfg, events + [ev])[ch]
              == if Placed(cfg, s, ev) then StreamsOf(cfg, events)[ch] + Pieces(cfg, s, ev)[ch]
                 else StreamsOf(cfg, events)[ch]
    {
      TurnAt(cfg, ch, events, ev);
    }
  }

  /** A packet takes state s and the streams to s' and streams'; all counters stay within a word. */
  ghost predicate PacketTurn(
    cfg: Config, s: RxState, s': RxState, streams: seq<seq<Sample>>, streams': seq<seq<Sample>>, ev: Recv)
    requires PowerOfTwo(cfg.size) && ev.Packet? && WellFormed(cfg, ev) && |streams| == cfg.channels
  {
    && s.run && s'.run == Placed(cfg, s, ev)
    && (if Placed(cfg, s, ev) then
          && s'.contiguous == s.contiguous + Received(cfg, s, ev)
          && s'.next == (if s.contiguous > 0 then s.next else ev.ts) + Received(cfg, s, ev)
          && streams' == Extended(streams, Pieces(cfg, s, ev))
        else
          s' == s.(run := false) && streams' == streams)
    && (Placed(cfg, s, ev) && s.contiguous == 0 ==>
          |s.stream| + Lost(s, ev.ts) + Received(cfg, s, ev) <= TWO63)
  }

  lemma {:induction false} TurnOfPacket(cfg: Config, events: seq<Recv>, ev: Recv)
    requires Proper(cfg, events) && Proper(cfg, events + [ev]) && ev.Packet? && WellFormed(cfg, ev)
    requires RxSpec.Run(cfg, 0, events).run
    ensures PacketTurn(cfg, RxSpec.Run(cfg, 0, events), RxSpec.Run(cfg, 0, events + [ev]),
                       StreamsOf(cfg, events), StreamsOf(cfg, events + [ev]), ev)
  {
    Turn(cfg, events, ev);
    LostExact(cfg, RxSpec.Run(cfg, 0, events), ev.ts);
  }

  /** Once the stop flag has fallen, further results change nothing. */
  lemma {:induction false} Stopped(cfg: Config, ch: nat, script: seq<Recv>, k: nat)
    requires Proper(cfg, script) && ch < cfg.channels && k <= |script|
    requires k < |script| ==> !RxSpec.Run(cfg, 0, script[..k]).run
    ensures RxSpec.Run(cfg, ch, script) == RxSpec.Run(cfg, ch, script[..k])
    decreases |script|
  {
    if k < |script| {
      var init := script[..|script| - 1];
      assert init[..k] == script[..k];
      ProperPrefix(cfg, script, |init|);
      ChannelsAgree(cfg, ch, init[..k]);
      Stopped(cfg, ch, init, k);
    } else {
      assert script[..k] == script;
    }
  }

  class Rx {
    const rings: seq<Ringbuf>
    var run: bool

    constructor (rings: seq<Ringbuf>)
      ensures this.rings == rings && run
    {
      this.rings := rings;
      run := true;
    }

    /** Every channel has a ring of its own, and all are between two rounds of the producer. */
    ghost predicate Quiet(size: nat)
      reads rings, set r <- rings :: r.ring
    {
      && (forall ch :: 0 <= ch < |rings| ==> rings[ch].Quiet() && rings[ch].size == size)
      && Distinct()
    }

    ghost predicate Distinct() {
      forall i, j :: 0 <= i < j < |rings| ==> rings[i] != rings[j] && rings[i].ring != rings[j].ring
    }

    ghost function Streams(): (ss: seq<seq<Sample>>)
      reads rings
    {
      seq(|rings|, ch requires 0 <= ch < |rings| reads rings => rings[ch].stream)
    }

    /** The spans of the next contiguous receive: one per channel, and the shortest length. */
    method GetSpans(cfg: Config) returns (offs: seq<nat>, recvMax: nat)
      requires Quiet(cfg.size) && PowerOfTwo(cfg.size) && 0 < |rings| && 0 < cfg.maxSamps < TWO63
      requires forall ch :: 0 <= ch < |rings| ==> rings[ch].head == rings[0].head <= TWO63
      modifies (set r <- rings)`clob
      ensures Quiet(cfg.size) && |offs| == |rings| && Streams() == old(Streams())
      ensures recvMax == Clip(rings[0].head, cfg.maxSamps, cfg.size)
      ensures forall ch :: 0 <= ch < |rings| ==>
                && rings[ch].head + recvMax <= rings[ch].clob
                && offs[ch] == Slot(rings[ch].head, cfg.size) && offs[ch] + recvMax <= cfg.size
    {
      recvMax := cfg.maxSamps;
      offs := [];
      for n := 0 to |rings|
        invariant Quiet(cfg.size) && |offs| == n
        invariant recvMax == if n == 0 then cfg.maxSamps else Clip(rings[0].head, cfg.maxSamps, cfg.size)
        invariant forall ch :: 0 <= ch < n ==>
                    && rings[ch].head + recvMax <= rings[ch].clob
                    && offs[ch] == Slot(rings[ch].head, cfg.size) && offs[ch] + recvMax <= cfg.size
      {
        var off, len := rings[n].GetProducerSpan(cfg.maxSamps);
        recvMax := Min(recvMax, len);
        offs := offs + [off];
      }
    }

    /** recv() fills the granted spans of all rings. */
    method RecvIntoRings(offs: seq<nat>, data: seq<seq<Sample>>, size: nat)
      requires Quiet(size) && PowerOfTwo(size) && |offs| == |data| == |rings|
      requires forall ch :: 0 <= ch < |rings| ==>
                 && rings[ch].head + |data[ch]| <= rings[ch].clob
                 && offs[ch] == Slot(rings[ch].head, size) && offs[ch] + |data[ch]| <= size
      modifies set r <- rings :: r.ring, (set r <- rings)`dirty
      ensures forall ch :: 0 <= ch < |rings| ==> Filled(rings[ch], data[ch])
    {
      for n := 0 to |rings|
        invariant forall ch :: n <= ch < |rings| ==> rings[ch].Quiet() && rings[ch].size == size
        invariant forall ch :: 0 <= ch < n ==> Filled(rings[ch], data[ch])
      {
        assert forall ch :: 0 <= ch < |rings| && ch != n ==> rings[ch] != rings[n] && rings[ch].ring != rings[n].ring;
        Fill(rings[n], offs[n], data[n]);
      }
    }

    /** Publish what recv() reported, in every ring. */
    method ProduceAll(ghost data: seq<seq<Sample>>, rcvd: nat, size: nat)
      requires |data| == |rings|
      requires Distinct()
      requires forall ch :: 0 <= ch < |rings| ==>
                 |data[ch]| == rcvd && Filled(rings[ch], data[ch]) && rings[ch].size == size
      modifies (set r <- rings)`head, (set r <- rings)`descHead, (set r <- rings)`stream, (set r <- rings)`dirty
      ensures Quiet(size) && Streams() == Extended(old(Streams()), data)
    {
      ghost var before := Streams();
      for n := 0 to |rings|
        invariant forall ch :: n <= ch < |rings| ==> Filled(rings[ch], data[ch]) && rings[ch].stream == before[ch]
        invariant forall ch :: 0 <= ch < n ==> rings[ch].Quiet() && rings[ch].stream == before[ch] + data[ch]
      {
        assert forall ch :: 0 <= ch < |rings| && ch != n ==> rings[ch] != rings[n] && rings[ch].ring != rings[n].ring;
        Publish(rings[n], data[n], rcvd);
      }
      assert Streams() == Extended(before, data);
    }

    /** Samples of all channels straight into the rings. */
    method ReceiveContiguous(offs: seq<nat>, data: seq<seq<Sample>>, rcvd: nat, size: nat)
      requires Quiet(size) && PowerOfTwo(size) && |offs| == |data| == |rings|
      requires forall ch :: 0 <= ch < |rings| ==>
                 && |data[ch]| == rcvd && rings[ch].head + rcvd <= rings[ch].clob
                 && offs[ch] == Slot(rings[ch].head, size) && offs[ch] + rcvd <= size
      modifies set r <- rings, set r <- rings :: r.ring
      ensures Quiet(size) && Streams() == Extended(old(Streams()), data)
    {
      ghost var before := Streams();
      RecvIntoRings(offs, data, size);
      assert Streams() == before;
      ProduceAll(data, rcvd, size);
    }

    /** Zero-pad every channel and copy the received samples; the source buffer is always the first channel's. */
    method ReceiveAfterGap(lost: nat, tmpBufs: seq<seq<Sample>>, size: nat)
      requires Quiet(size) && 0 < |rings| == |tmpBufs|
      requires forall ch :: 0 <= ch < |rings| ==> rings[ch].head + lost + |tmpBufs[0]| < TWO64
      modifies set r <- rings, set r <- rings :: r.ring
      ensures Quiet(size)
      ensures Streams() == Extended(old(Streams()), seq(|rings|, _ => Zeros(lost) + tmpBufs[0]))
    {
      ghost var before := Streams();
      ghost var piece := Zeros(lost) + tmpBufs[0];
      for n := 0 to |rings|
        invariant Distinct()
        invariant forall ch :: 0 <= ch < |rings| ==> rings[ch].Quiet() && rings[ch].size == size
        invariant forall ch :: 0 <= ch < n ==> rings[ch].stream == before[ch] + piece
        invariant forall ch :: n <= ch < |rings| ==>
                    rings[ch].stream == before[ch] && rings[ch].head + lost + |tmpBufs[0]| < TWO64
      {
        assert forall ch :: 0 <= ch < |rings| && ch != n ==> rings[ch] != rings[n] && rings[ch].ring != rings[n].ring;
        PlacePacket(rings[n], lost, tmpBufs[0]);
      }
      assert Streams() == Extended(before, seq(|rings|, _ => piece));
    }

    /** The rings hold the given streams; the loop's variables are those of a state of the specification. */
    ghost predicate Follows(cfg: Config, s: RxState, streams: seq<seq<Sample>>, next: nat, contiguous: nat)
      reads this, rings, set r <- rings :: r.ring
    {
      && Quiet(cfg.size) && |rings| == cfg.channels && Streams() == streams
      && next == s.next && contiguous == s.contiguous && run == s.run
    }

    ghost predicate FollowsRun(cfg: Config, events: seq<Recv>, next: nat, contiguous: nat)
      requires Proper(cfg, events)
      reads this, rings, set r <- rings :: r.ring
    {
      Follows(cfg, RxSpec.Run(cfg, 0, events), StreamsOf(cfg, events), next, contiguous)
    }

    lemma {:induction false} HeadsEqual(cfg: Config, events: seq<Recv>, next: nat, contiguous: nat)
      requires Proper(cfg, events) && FollowsRun(cfg, events, next, contiguous)
      ensures forall ch :: 0 <= ch < |rings| ==> cfg.start + rings[ch].head == next <= TWO63
      ensures forall ch :: 0 <= ch < |rings| ==> rings[ch].head == |RxSpec.Run(cfg, 0, events).stream|
    {
      assert events[..|events|] == events;
      TickInvariant(cfg, 0, events);
      forall ch | 0 <= ch < |rings|
        ensures rings[ch].head == |RxSpec.Run(cfg, 0, events).stream|
      {
        ChannelsAgree(cfg, ch, events);
        assert rings[ch].Quiet() && Streams()[ch] == rings[ch].stream == StreamsOf(cfg, events)[ch];
      }
    }

    /** The receive call of one turn with the samples it returns; false if too many were lost. */
    method ReceivePacket(cfg: Config, next: nat, contiguous: nat, ghost s: RxState, offs: seq<nat>, rcvd: nat, ev: Recv)
      returns (placed: bool)
      requires ValidConfig(cfg) && WellFormed(cfg, ev) && ev.Packet? && s.run
      requires Quiet(cfg.size) && |rings| == cfg.channels && |offs| == cfg.channels
      requires rcvd == Received(cfg, s, ev) <= cfg.maxSamps && next == s.next && contiguous == s.contiguous
      requires Placed(cfg, s, ev) && s.contiguous == 0 ==>
                 forall ch :: 0 <= ch < cfg.channels ==> rings[ch].head + Lost(s, ev.ts) + rcvd < TWO64
      requires s.contiguous > 0 ==>
                 forall ch :: 0 <= ch < cfg.channels ==>
                   && rings[ch].head + rcvd <= rings[ch].clob
                   && offs[ch] == Slot(rings[ch].head, cfg.size) && offs[ch] + rcvd <= cfg.size
      modifies set r <- rings, set r <- rings :: r.ring
      ensures Quiet(cfg.size)
      ensures placed <==> Placed(cfg, s, ev)
      ensures Streams() == if placed then Extended(old(Streams()), Pieces(cfg, s, ev)) else old(Streams())
    {
      var data := seq(|rings|, ch requires 0 <= ch < |rings| => ev.data[ch][..rcvd]);
      if contiguous > 0 {
        assert data == Pieces(cfg, s, ev);
        ReceiveContiguous(offs, data, rcvd, cfg.size);
        placed := true;
      } else {
        var lost := Wrap64(ev.ts - next);
        placed := lost <= cfg.rate;
        if placed {
          assert seq(|rings|, _ => Zeros(lost) + data[0]) == Pieces(cfg, s, ev);
          ReceiveAfterGap(lost, data, cfg.size);
        }
      }
    }

    /** Place what was received, or stop; account for it. */
    method TakePacket(
        cfg: Config, ghost s: RxState, ghost s': RxState, ghost streams: seq<seq<Sample>>,
        ghost streams': seq<seq<Sample>>, ev: Recv, next: nat, contiguous: nat, offs: seq<nat>, recvMax: nat)
      returns (next': nat, contiguous': nat)
      requires ValidConfig(cfg) && ev.Packet? && WellFormed(cfg, ev) && |streams| == cfg.channels == |offs|
      requires PacketTurn(cfg, s, s', streams, streams', ev)
      requires Follows(cfg, s, streams, next, contiguous) && recvMax == Limit(cfg, s)
      requires forall ch :: 0 <= ch < cfg.channels ==> rings[ch].head == |s.stream|
      requires contiguous > 0 ==>
                 forall ch :: 0 <= ch < cfg.channels ==>
                   && rings[ch].head + recvMax <= rings[ch].clob
                   && offs[ch] == Slot(rings[ch].head, cfg.size) && offs[ch] + recvMax <= cfg.size
      modifies this`run, set r <- rings, set r <- rings :: r.ring
      ensures Follows(cfg, s', streams', next', contiguous')
    {
      var rcvd := Min(|ev.data[0]|, recvMax);
      var placed := ReceivePacket(cfg, next, contiguous, s, offs, rcvd, ev);
      if placed {
        next' := (if contiguous > 0 then next else ev.ts) + rcvd;
        contiguous' := contiguous + rcvd;
      } else {
        run := false;
        next', contiguous' := next, contiguous;
      }
    }

    /** One turn of the main loop. */
    method Iterate(cfg: Config, ghost events: seq<Recv>, ev: Recv, next: nat, contiguous: nat)
      returns (next': nat, contiguous': nat)
      requires Proper(cfg, events) && Proper(cfg, events + [ev])
      requires run && FollowsRun(cfg, events, next, contiguous)
      modifies this`run, set r <- rings, set r <- rings :: r.ring
      ensures FollowsRun(cfg, events + [ev], next', contiguous')
    {
      next', contiguous' := next, contiguous;
      Turn(cfg, events, ev);
      HeadsEqual(cfg, events, next, contiguous);
      var recvMax := cfg.maxSamps;
      var offs: seq<nat> := seq(|rings|, _ => 0);
      if contiguous > 0 {
        offs, recvMax := GetSpans(cfg);
      }
      match ev
      case Failure(code) =>
        if code == Overflow {
          contiguous' := 0;
        } else if code != NoError {
          run := false;
        }
      case Packet(_, _) =>
        TurnOfPacket(cfg, events, ev);
        next', contiguous' := TakePacket(
          cfg, RxSpec.Run(cfg, 0, events), RxSpec.Run(cfg, 0, events + [ev]),
          StreamsOf(cfg, events), StreamsOf(cfg, events + [ev]), ev, next, contiguous, offs, recvMax);
    }

    /** Where the loop ends, the rings hold the streams of the whole script. */
    lemma {:induction false} EndOfRun(cfg: Config, script: seq<Recv>, k: nat, next: nat, contiguous: nat)
      requires Proper(cfg, script) && k <= |script| && Proper(cfg, script[..k])
      requires FollowsRun(cfg, script[..k], next, contiguous) && (k < |script| ==> !run)
      ensures Quiet(cfg.size) && run == RxSpec.Run(cfg, 0, script).run
      ensures forall ch :: 0 <= ch < cfg.channels ==> rings[ch].stream == RxSpec.Run(cfg, ch, script).stream
      ensures forall ch :: 0 <= ch < cfg.channels ==> cfg.start + rings[ch].descHead == next
    {
      Stopped(cfg, 0, script, k);
      HeadsEqual(cfg, script[..k], next, contiguous);
      forall ch | 0 <= ch < cfg.channels
        ensures rings[ch].stream == RxSpec.Run(cfg, ch, script).stream
      {
        Stopped(cfg, ch, script, k);
        assert Streams()[ch] == StreamsOf(cfg, script[..k])[ch];
      }
    }

    /**
     The main loop, run until the stop flag falls or the script ends. Each channel's ring then
     holds the stream the results call for, and all heads agree with the expected tick.
     */
    method Worker(cfg: Config, script: seq<Recv>) returns (next: nat)
      requires Proper(cfg, script) && Quiet(cfg.size) && |rings| == cfg.channels && run
      requires forall ch :: 0 <= ch < |rings| ==> rings[ch].stream == []
      modifies this`run, set r <- rings, set r <- rings :: r.ring
      ensures Quiet(cfg.size)
      ensures forall ch :: 0 <= ch < cfg.channels ==> rings[ch].stream == RxSpec.Run(cfg, ch, script).stream
      ensures forall ch :: 0 <= ch < cfg.channels ==> cfg.start + rings[ch].descHead == next
      ensures run == RxSpec.Run(cfg, 0, script).run
    {
      next := cfg.start;
      var contiguous := 0;
      var k := 0;
      while k < |script| && run
        invariant k <= |script| && Proper(cfg, script[..k])
        invariant FollowsRun(cfg, script[..k], next, contiguous)
      {
        assert script[..k] + [script[k]] == script[..k + 1];
        ProperPrefix(cfg, script, k + 1);
        next, contiguous := Iterate(cfg, script[..k], script[k], next, contiguous);
        k := k + 1;
      }
      EndOfRun(cfg, script, k, next, contiguous);
    }
  }
}
