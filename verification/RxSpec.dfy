/**
 What a run of the receive worker (src/rx.cpp) puts into the logical stream of a channel, given
 the results of its recv() calls, and what that means in device ticks.
 */
module RxSpec {
  import opened Words
  import opened Ring

  datatype ErrorCode = NoError | Overflow | Alignment | BadPacket | BrokenChain | LateCommand | Timeout | Other

  /**
   One result of recv(): samples of every channel, the first of them taken at device tick ts, or
   no samples and an error code. recv() hands over at most as many samples as it was asked for.
   */
  datatype Recv = Packet(ts: nat, data: seq<seq<Sample>>) | Failure(code: ErrorCode)

  /** size: ring length; maxSamps: packet capacity; rate: samples per second; start: first tick. */
  datatype Config = Config(size: nat, channels: nat, maxSamps: nat, rate: nat, start: nat)

  ghost predicate ValidConfig(cfg: Config) {
    && PowerOfTwo(cfg.size) && cfg.size < TWO63 && cfg.channels > 0
    && 0 < cfg.maxSamps < TWO63 && cfg.rate < TWO63 && cfg.start <= TWO63
  }

  /** recv() fills all channels equally; its time stamps are int64_t tick counts. */
  predicate WellFormed(cfg: Config, ev: Recv) {
    ev.Packet? ==>
      && ev.ts < TWO63 && |ev.data| == cfg.channels > 0 && |ev.data[0]| > 0
      && forall ch :: 0 <= ch < cfg.channels ==> |ev.data[ch]| == |ev.data[0]|
  }

  /** The worker's variables: ts_samples_next_recv, contiguous, run; and the stream of one channel. */
  datatype RxState = RxState(next: nat, contiguous: nat, run: bool, stream: seq<Sample>)

  function Min(a: nat, b: nat): nat {
    if a < b then a else b
  }

  /** Samples recv() is asked for: contiguous data must fit the span granted in the ring. */
  function Limit(cfg: Config, s: RxState): (n: nat)
    requires PowerOfTwo(cfg.size)
    ensures cfg.maxSamps > 0 ==> n > 0
  {
    if s.contiguous > 0 then Clip(|s.stream|, cfg.maxSamps, cfg.size) else cfg.maxSamps
  }

  function Received(cfg: Config, s: RxState, ev: Recv): (n: nat)
    requires PowerOfTwo(cfg.size) && ev.Packet? && WellFormed(cfg, ev)
    ensures n <= |ev.data[0]|
    ensures cfg.maxSamps > 0 ==> n > 0
  {
    Min(|ev.data[0]|, Limit(cfg, s))
  }

  /** The part of a packet's samples for channel ch that recv() hands over. */
  function Taken(cfg: Config, ch: nat, s: RxState, ev: Recv): (d: seq<Sample>)
    requires PowerOfTwo(cfg.size) && ev.Packet? && WellFormed(cfg, ev) && ch < cfg.channels
    ensures |d| == Received(cfg, s, ev)
  {
    ev.data[ch][..Received(cfg, s, ev)]
  }

  /** Samples lost before a packet, in the unsigned arithmetic of the worker. */
  function Lost(s: RxState, ts: nat): nat {
    Wrap64(ts - s.next)
  }

  predicate Placed(cfg: Config, s: RxState, ev: Recv) {
    s.run && ev.Packet? && (s.contiguous > 0 || Lost(s, ev.ts) <= cfg.rate)
  }

  function Step(cfg: Config, ch: nat, s: RxState, ev: Recv): RxState
    requires PowerOfTwo(cfg.size) && WellFormed(cfg, ev) && ch < cfg.channels
  {
    if !s.run then s else
      match ev
      case Failure(code) =>
        if code == NoError then s
        else if code == Overflow then s.(contiguous := 0)
        else s.(run := false)
      case Packet(ts, data) =>
        var n := Received(cfg, s, ev);
        if s.contiguous > 0 then
          RxState(s.next + n, s.contiguous + n, true, s.stream + Taken(cfg, ch, s, ev))
        else if Lost(s, ts) > cfg.rate then
          s.(run := false)
        else
          RxState(ts + n, s.contiguous + n, true, s.stream + Zeros(Lost(s, ts)) + Taken(cfg, 0, s, ev))
  }

  function Init(cfg: Config): RxState {
    RxState(cfg.start, 0, true, [])
  }

  function Run(cfg: Config, ch: nat, events: seq<Recv>): RxState
    requires PowerOfTwo(cfg.size) && ch < cfg.channels
    requires forall k :: 0 <= k < |events| ==> WellFormed(cfg, events[k])
  {
    if events == [] then Init(cfg)
    else
      var k := |events| - 1;
      Step(cfg, ch, Run(cfg, ch, events[..k]), events[k])
  }

  /** Results the worker can meet while tick counts stay within the range of int64_t. */
  ghost predicate Proper(cfg: Config, events: seq<Recv>) {
    && ValidConfig(cfg)
    && (forall k :: 0 <= k < |events| ==> WellFormed(cfg, events[k]))
    && (forall k :: 0 <= k <= |events| ==> Run(cfg, 0, events[..k]).next <= TWO63)
  }

  lemma {:induction false} ProperPrefix(cfg: Config, events: seq<Recv>, k: nat)
    requires Proper(cfg, events) && k <= |events|
    ensures Proper(cfg, events[..k])
  {
    forall j | 0 <= j <= k
      ensures events[..k][..j] == events[..j]
    {
    }
    assert Run(cfg, 0, events[..|events|]).next <= TWO63;
  }

  /** A packet is placed exactly if it is not early and at most one second late. */
  lemma {:induction false} LostExact(cfg: Config, s: RxState, ts: nat)
    requires s.next <= TWO63 && ts < TWO63 && cfg.rate < TWO63
    ensures Lost(s, ts) <= cfg.rate <==> s.next <= ts <= s.next + cfg.rate
    ensures Lost(s, ts) <= cfg.rate ==> Lost(s, ts) == ts - s.next
  {
    if ts >= s.next {
      DivModUnique(ts - s.next, TWO64, 0, ts - s.next);
    } else {
      DivModUnique(ts - s.next, TWO64, -1, ts - s.next + TWO64);
    }
  }

  lemma {:induction false} StepsAgree(cfg: Config, ch: nat, s: RxState, t: RxState, ev: Recv)
    requires PowerOfTwo(cfg.size) && ch < cfg.channels && WellFormed(cfg, ev)
    requires s.next == t.next && s.contiguous == t.contiguous && s.run == t.run && |s.stream| == |t.stream|
    ensures var s', t' := Step(cfg, 0, s, ev), Step(cfg, ch, t, ev);
            s'.next == t'.next && s'.contiguous == t'.contiguous && s'.run == t'.run && |s'.stream| == |t'.stream|
  {
  }

  /** All channels are given the same number of samples by every run. */
  lemma {:induction false} ChannelsAgree(cfg: Config, ch: nat, events: seq<Recv>)
    requires PowerOfTwo(cfg.size) && ch < cfg.channels
    requires forall k :: 0 <= k < |events| ==> WellFormed(cfg, events[k])
    ensures var s, t := Run(cfg, 0, events), Run(cfg, ch, events);
            s.next == t.next && s.contiguous == t.contiguous && s.run == t.run && |s.stream| == |t.stream|
  {
    if events != [] {
      var k := |events| - 1;
      ChannelsAgree(cfg, ch, events[..k]);
      StepsAgree(cfg, ch, Run(cfg, 0, events[..k]), Run(cfg, ch, events[..k]), events[k]);
    }
  }

  /** The tick expected next is always the start tick plus the length of every channel's stream. */
  lemma {:induction false} TickInvariant(cfg: Config, ch: nat, events: seq<Recv>)
    requires Proper(cfg, events) && ch < cfg.channels
    ensures var s := Run(cfg, ch, events); s.next == cfg.start + |s.stream|
  {
    if events != [] {
      var k := |events| - 1;
      ProperPrefix(cfg, events, k);
      TickInvariant(cfg, ch, events[..k]);
      ChannelsAgree(cfg, ch, events[..k]);
      var s := Run(cfg, ch, events[..k]);
      if events[k].Packet? {
        LostExact(cfg, s, events[k].ts);
      }
    }
  }

  /** A packet early by any amount, or late by more than a second, ends the run with nothing of it placed. */
  lemma {:induction false} AbortRule(cfg: Config, ch: nat, events: seq<Recv>, ev: Recv)
    requires Proper(cfg, events) && ch < cfg.channels && ev.Packet? && WellFormed(cfg, ev)
    requires Run(cfg, ch, events).run && Run(cfg, ch, events).contiguous == 0
    ensures var s, s' := Run(cfg, ch, events), Run(cfg, ch, events + [ev]);
            && (s'.run <==> s.next <= ev.ts <= s.next + cfg.rate)
            && (!s'.run ==> s' == s.(run := false))
            && (s'.run ==> |s'.stream| == ev.ts - cfg.start + Received(cfg, s, ev))
  {
    var all := events + [ev];
    assert all[..|all| - 1] == events;
    TickInvariant(cfg, ch, events);
    ChannelsAgree(cfg, ch, events);
    assert events[..|events|] == events;
    LostExact(cfg, Run(cfg, ch, events), ev.ts);
  }

  /** What recv() may return at most: a packet, and while contiguous no more than reaches the ring's end. */
  function Room(cfg: Config, s: RxState): (n: nat)
    requires cfg.size > 0
  {
    if s.contiguous > 0 && cfg.size - |s.stream| % cfg.size < cfg.maxSamps then cfg.size - |s.stream| % cfg.size
    else cfg.maxSamps
  }

  /** The tick a packet's first sample belongs to: its time stamp, or while contiguous the tick expected. */
  function FirstTick(s: RxState, ev: Recv): nat
    requires ev.Packet?
  {
    if s.contiguous > 0 then s.next else ev.ts
  }

  /** In contiguous mode a channel is given its own samples; after a gap, the first channel's. */
  function Samples(ch: nat, s: RxState, ev: Recv): seq<Sample>
    requires ev.Packet? && ch < |ev.data| && 0 < |ev.data|
  {
    if s.contiguous > 0 then ev.data[ch] else ev.data[0]
  }

  predicate OnTime(cfg: Config, s: RxState, ev: Recv)
    requires ev.Packet?
  {
    s.run && (s.contiguous > 0 || s.next <= ev.ts <= s.next + cfg.rate)
  }

  lemma {:induction false} RoomExact(cfg: Config, s: RxState)
    requires PowerOfTwo(cfg.size)
    ensures Limit(cfg, s) == Room(cfg, s)
  {
    SlotIsMod(|s.stream|, cfg.size);
  }

  /**
     A packet is placed whole: behind the zeros of a gap come all samples recv() returned, the first
     at its tick, and the tick expected next is the one behind the last. Only a packet longer than
     recv() was asked for is cut, at exactly that length.
   */
  lemma {:induction false} PlacedWhole(cfg: Config, ch: nat, events: seq<Recv>, ev: Recv)
    requires Proper(cfg, events) && ch < cfg.channels && ev.Packet? && WellFormed(cfg, ev)
    requires OnTime(cfg, Run(cfg, ch, events), ev)
    ensures var s, s' := Run(cfg, ch, events), Run(cfg, ch, events + [ev]);
            var n := if |ev.data[0]| <= Room(cfg, s) then |ev.data[0]| else Room(cfg, s);
            && FirstTick(s, ev) >= s.next == cfg.start + |s.stream|
            && s'.stream == s.stream + Zeros(FirstTick(s, ev) - s.next) + Samples(ch, s, ev)[..n]
            && s'.next == FirstTick(s, ev) + n && s'.contiguous == s.contiguous + n && s'.run
  {
    var all := events + [ev];
    assert all[..|all| - 1] == events && events[..|events|] == events;
    TickInvariant(cfg, ch, events);
    ChannelsAgree(cfg, ch, events);
    var s := Run(cfg, ch, events);
    LostExact(cfg, s, ev.ts);
    RoomExact(cfg, s);
    if s.contiguous > 0 {
      assert s.stream + Zeros(0) == s.stream;
    }
  }

  /** Streams only grow. */
  lemma {:induction false} StreamGrows(cfg: Config, ch: nat, events: seq<Recv>, k: nat)
    requires Proper(cfg, events) && ch < cfg.channels && k <= |events|
    ensures Run(cfg, ch, events[..k]).stream <= Run(cfg, ch, events).stream
    decreases |events|
  {
    if k == |events| {
      assert events[..k] == events;
    } else {
      var m := |events| - 1;
      ProperPrefix(cfg, events, m);
      StreamGrows(cfg, ch, events[..m], k);
      assert events[..m][..k] == events[..k];
      StepGrows(cfg, ch, Run(cfg, ch, events[..m]), events[m]);
    }
  }

  lemma {:induction false} StepGrows(cfg: Config, ch: nat, s: RxState, ev: Recv)
    requires PowerOfTwo(cfg.size) && WellFormed(cfg, ev) && ch < cfg.channels
    ensures s.stream <= Step(cfg, ch, s, ev).stream
  {
  }

  /** The stream has these samples from index `at` on. */
  predicate Holds(stream: seq<Sample>, at: int, samples: seq<Sample>) {
    0 <= at && at + |samples| <= |stream| && stream[at..at + |samples|] == samples
  }

  /**
     No sample recv() returned is dropped or moved by anything that happens later: in the stream of
     a whole run, every packet that was in time and no longer than asked for lies at its ticks.
   */
  lemma {:induction false} NothingDropped(cfg: Config, ch: nat, events: seq<Recv>, k: nat)
    requires Proper(cfg, events) && ch < cfg.channels && k < |events| && events[k].Packet?
    requires var s := Run(cfg, ch, events[..k]); OnTime(cfg, s, events[k]) && |events[k].data[0]| <= Room(cfg, s)
    ensures var s, ev := Run(cfg, ch, events[..k]), events[k];
            Holds(Run(cfg, ch, events).stream, FirstTick(s, ev) - cfg.start, Samples(ch, s, ev))
  {
    ProperPrefix(cfg, events, k);
    assert events[..k] + [events[k]] == events[..k + 1];
    PlacedHeld(cfg, ch, events[..k], events[k]);
    StreamGrows(cfg, ch, events, k + 1);
    var s, ev := Run(cfg, ch, events[..k]), events[k];
    HeldByLonger(Run(cfg, ch, events[..k + 1]).stream, Run(cfg, ch, events).stream,
                 FirstTick(s, ev) - cfg.start, Samples(ch, s, ev));
  }

  lemma {:induction false} PlacedHeld(cfg: Config, ch: nat, events: seq<Recv>, ev: Recv)
    requires Proper(cfg, events) && ch < cfg.channels && ev.Packet? && WellFormed(cfg, ev)
    requires var s := Run(cfg, ch, events); OnTime(cfg, s, ev) && |ev.data[0]| <= Room(cfg, s)
    ensures var s := Run(cfg, ch, events);
            Holds(Run(cfg, ch, events + [ev]).stream, FirstTick(s, ev) - cfg.start, Samples(ch, s, ev))
  {
    PlacedWhole(cfg, ch, events, ev);
    var s := Run(cfg, ch, events);
    WholeSlice(Samples(ch, s, ev));
    HeldOnceAppended(s.stream, Zeros(FirstTick(s, ev) - s.next), Samples(ch, s, ev));
  }

  lemma {:induction false} WholeSlice(s: seq<Sample>)
    ensures s[..|s|] == s
  {
  }

  lemma {:induction false} HeldByLonger(part: seq<Sample>, all: seq<Sample>, at: int, samples: seq<Sample>)
    requires part <= all && Holds(part, at, samples)
    ensures Holds(all, at, samples)
  {
    assert all[..|part|] == part;
  }

  lemma {:induction false} HeldOnceAppended(a: seq<Sample>, z: seq<Sample>, b: seq<Sample>)
    ensures Holds(a + z + b, |a| + |z|, b)
  {
  }

  /** A result without samples moves neither stream nor expected tick; what else it does goes by its code. */
  lemma {:induction false} FailureKeepsStream(cfg: Config, ch: nat, events: seq<Recv>, code: ErrorCode)
    requires Proper(cfg, events) && ch < cfg.channels && Run(cfg, ch, events).run
    ensures var s, s' := Run(cfg, ch, events), Run(cfg, ch, events + [Failure(code)]);
            && s'.stream == s.stream && s'.next == s.next
            && (s'.run <==> code in [NoError, Overflow])
            && s'.contiguous == if code == Overflow then 0 else s.contiguous
  {
    var all := events + [Failure(code)];
    assert all[..|all| - 1] == events;
  }

  /** Results that end a run: any error but an overflow, and a packet that is early or late. */
  predicate Ends(cfg: Config, s: RxState, ev: Recv) {
    match ev
    case Failure(code) => code != NoError && code != Overflow
    case Packet(ts, _) => s.contiguous == 0 && !(s.next <= ts <= s.next + cfg.rate)
  }

  predicate NoneEnds(cfg: Config, ch: nat, events: seq<Recv>)
    requires PowerOfTwo(cfg.size) && ch < cfg.channels
    requires forall k :: 0 <= k < |events| ==> WellFormed(cfg, events[k])
  {
    events == [] ||
    (var k := |events| - 1;
     NoneEnds(cfg, ch, events[..k]) && !Ends(cfg, Run(cfg, ch, events[..k]), events[k]))
  }

  /** The worker is running exactly as long as it has met none of them. */
  lemma {:induction false} RunsExactly(cfg: Config, ch: nat, events: seq<Recv>)
    requires Proper(cfg, events) && ch < cfg.channels
    ensures Run(cfg, ch, events).run <==> NoneEnds(cfg, ch, events)
  {
    if events != [] {
      var k := |events| - 1;
      ProperPrefix(cfg, events, k);
      RunsExactly(cfg, ch, events[..k]);
      TickInvariant(cfg, ch, events[..k]);
      ChannelsAgree(cfg, ch, events[..k]);
      if events[k].Packet? {
        LostExact(cfg, Run(cfg, ch, events[..k]), events[k].ts);
      }
    }
  }

  /** A packet was received since the start or the last overflow. */
  predicate PacketSinceGap(events: seq<Recv>) {
    && events != []
    && var k := |events| - 1;
       events[k] != Failure(Overflow) && (events[k].Packet? || PacketSinceGap(events[..k]))
  }

  /** While it runs, the worker trusts the next packet to be contiguous exactly if it has received one since a gap. */
  lemma {:induction false} TrustsExactly(cfg: Config, ch: nat, events: seq<Recv>)
    requires Proper(cfg, events) && ch < cfg.channels && Run(cfg, ch, events).run
    ensures Run(cfg, ch, events).contiguous > 0 <==> PacketSinceGap(events)
  {
    if events != [] {
      var k := |events| - 1;
      ProperPrefix(cfg, events, k);
      TrustsExactly(cfg, ch, events[..k]);
    }
  }

  /**
   The environment: a packet's samples of channel ch are the device samples of consecutive ticks
   from its time stamp on, and no gap goes unreported while the worker believes the reception to
   be contiguous (it does not look at time stamps then).
   */
  ghost predicate Faithful(cfg: Config, ch: nat, events: seq<Recv>, device: nat -> Sample)
    requires PowerOfTwo(cfg.size) && ch < cfg.channels
    requires forall k :: 0 <= k < |events| ==> WellFormed(cfg, events[k])
  {
    events == [] ||
    (var k := |events| - 1;
     var s := Run(cfg, ch, events[..k]);
     && Faithful(cfg, ch, events[..k], device)
     && (events[k].Packet? ==>
           && (forall i: nat :: i < |Taken(cfg, ch, s, events[k])| ==>
                 Taken(cfg, ch, s, events[k])[i] == device(events[k].ts + i))
           && (s.run && s.contiguous > 0 ==> events[k].ts == s.next)))
  }

  /** A run of such results, within the range of tick counts. */
  ghost predicate Honest(cfg: Config, ch: nat, events: seq<Recv>, device: nat -> Sample) {
    Proper(cfg, events) && ch < cfg.channels && Faithful(cfg, ch, events, device)
  }

  /** Tick t was among the samples of a packet that was placed. */
  ghost predicate Covered(cfg: Config, events: seq<Recv>, t: nat)
    requires PowerOfTwo(cfg.size) && cfg.channels > 0
    requires forall k :: 0 <= k < |events| ==> WellFormed(cfg, events[k])
  {
    events != [] &&
    (var k := |events| - 1;
     var s := Run(cfg, 0, events[..k]);
     || Covered(cfg, events[..k], t)
     || (Placed(cfg, s, events[k]) && events[k].ts <= t < events[k].ts + Received(cfg, s, events[k])))
  }

  /** The sample that belongs at tick t: the device's, or zero if that tick was lost. */
  ghost function Expected(cfg: Config, events: seq<Recv>, device: nat -> Sample, t: nat): Sample
    requires PowerOfTwo(cfg.size) && cfg.channels > 0
    requires forall k :: 0 <= k < |events| ==> WellFormed(cfg, events[k])
  {
    if Covered(cfg, events, t) then device(t) else ZERO
  }

  /** What belongs at the first n indices of the stream: index i is tick start + i. */
  ghost function ExpectedStream(cfg: Config, events: seq<Recv>, device: nat -> Sample, n: nat): (s: seq<Sample>)
    requires PowerOfTwo(cfg.size) && cfg.channels > 0
    requires forall k :: 0 <= k < |events| ==> WellFormed(cfg, events[k])
    ensures |s| == n && forall i :: 0 <= i < n ==> s[i] == Expected(cfg, events, device, cfg.start + i)
  {
    seq(n, i requires 0 <= i => Expected(cfg, events, device, cfg.start + i))
  }

  /** Every sample of the channel's stream sits at the index its hardware tick dictates. */
  ghost predicate Coherent(cfg: Config, ch: nat, events: seq<Recv>, device: nat -> Sample)
    requires PowerOfTwo(cfg.size) && ch < cfg.channels
    requires forall k :: 0 <= k < |events| ==> WellFormed(cfg, events[k])
  {
    var stream := Run(cfg, ch, events).stream;
    stream == ExpectedStream(cfg, events, device, |stream|)
  }

  /** Wherever a packet was placed from the temporary buffers, the first channel's samples equal this channel's. */
  ghost predicate GapsAgree(cfg: Config, ch: nat, events: seq<Recv>)
    requires PowerOfTwo(cfg.size) && ch < cfg.channels
    requires forall k :: 0 <= k < |events| ==> WellFormed(cfg, events[k])
  {
    events == [] ||
    (var k := |events| - 1;
     var s := Run(cfg, ch, events[..k]);
     && GapsAgree(cfg, ch, events[..k])
     && (Placed(cfg, s, events[k]) && s.contiguous == 0 ==>
           Taken(cfg, 0, s, events[k]) == Taken(cfg, ch, s, events[k])))
  }

  lemma {:induction false} NextGrows(cfg: Config, s: RxState, ev: Recv)
    requires ValidConfig(cfg) && WellFormed(cfg, ev) && s.next <= TWO63
    requires ev.Packet? && s.run && s.contiguous > 0 ==> ev.ts == s.next
    ensures s.next <= Step(cfg, 0, s, ev).next
    ensures Placed(cfg, s, ev) ==> s.next <= ev.ts && ev.ts + Received(cfg, s, ev) == Step(cfg, 0, s, ev).next
  {
    if ev.Packet? {
      LostExact(cfg, s, ev.ts);
    }
  }

  lemma {:induction false} CoveredRange(cfg: Config, events: seq<Recv>, device: nat -> Sample, ch: nat, t: nat)
    requires Honest(cfg, ch, events, device)
    ensures Covered(cfg, events, t) ==> cfg.start <= t < Run(cfg, 0, events).next
  {
    if events != [] {
      var k := |events| - 1;
      ProperPrefix(cfg, events, k);
      CoveredRange(cfg, events[..k], device, ch, t);
      TickInvariant(cfg, 0, events[..k]);
      ChannelsAgree(cfg, ch, events[..k]);
      NextGrows(cfg, Run(cfg, 0, events[..k]), events[k]);
    }
  }

  /**
   The receive promise, with its exact condition. The copy loop of the non-contiguous path reads
   tmp_bufs[0] for every channel, so channel 0 is always coherent and any other channel exactly
   if the first channel's samples happened to equal its own wherever that path was taken.
   */
  lemma {:induction false} CoherentExactly(cfg: Config, ch: nat, events: seq<Recv>, device: nat -> Sample)
    requires Honest(cfg, ch, events, device)
    ensures Coherent(cfg, ch, events, device) <==> GapsAgree(cfg, ch, events)
  {
    if events != [] {
      var k := |events| - 1;
      ProperPrefix(cfg, events, k);
      CoherentExactly(cfg, ch, events[..k], device);
      CoherentStep(cfg, ch, events, device);
    }
  }

  /** A recording of two channels whose second channel holds the first one's sample. */
  lemma {:induction false} SecondChannelLost(size: nat, a: Sample, b: Sample)
    requires PowerOfTwo(size) && size < TWO63 && a != b
    ensures var cfg, events := Config(size, 2, 1, 1, 0), [Packet(0, [[a], [b]])];
            Honest(cfg, 1, events, _ => b) && !Coherent(cfg, 1, events, _ => b)
            && Run(cfg, 1, events).stream == [a]
  {
    var cfg, ev := Config(size, 2, 1, 1, 0), Packet(0, [[a], [b]]);
    var events := [ev];
    var device: nat -> Sample := _ => b;
    assert events[..0] == [] && events[..1] == events;
    assert Taken(cfg, 0, Init(cfg), ev) == [a] && Taken(cfg, 1, Init(cfg), ev) == [b];
    assert [] + Zeros(0) + [a] == [a];
    assert Run(cfg, 1, events) == Step(cfg, 1, Init(cfg), ev);
    assert Faithful(cfg, 1, events[..0], device);
    assert !GapsAgree(cfg, 1, events);
    CoherentExactly(cfg, 1, events, device);
  }

  lemma {:induction false} CoherentStep(cfg: Config, ch: nat, events: seq<Recv>, device: nat -> Sample)
    requires Honest(cfg, ch, events, device) && events != []
    ensures var k := |events| - 1;
            var s := Run(cfg, ch, events[..k]);
            Coherent(cfg, ch, events, device) <==>
              Coherent(cfg, ch, events[..k], device)
              && (Placed(cfg, s, events[k]) && s.contiguous == 0 ==>
                    Taken(cfg, 0, s, events[k]) == Taken(cfg, ch, s, events[k]))
  {
    var k := |events| - 1;
    var before, ev := events[..k], events[k];
    ProperPrefix(cfg, events, k);
    TickInvariant(cfg, ch, before);
    ChannelsAgree(cfg, ch, before);
    var s := Run(cfg, ch, before);
    if Placed(cfg, s, ev) {
      LostExact(cfg, s, ev.ts);
      CoherentPlaced(cfg, ch, events, device, ev.ts - s.next);
    } else {
      ExpectedKept(cfg, ch, events, device);
    }
  }

  lemma {:induction false} CoherentPlaced(
      cfg: Config, ch: nat, events: seq<Recv>, device: nat -> Sample, gap: nat)
    requires Honest(cfg, ch, events, device) && events != []
    requires var s, ev := Run(cfg, ch, events[..|events| - 1]), events[|events| - 1];
             Placed(cfg, s, ev) && ev.ts == s.next + gap && gap == if s.contiguous > 0 then 0 else Lost(s, ev.ts)
    ensures var before, ev := events[..|events| - 1], events[|events| - 1];
            var s := Run(cfg, ch, before);
            Coherent(cfg, ch, events, device) <==>
              Coherent(cfg, ch, before, device) && PlacedData(cfg, ch, s, ev) == Taken(cfg, ch, s, ev)
  {
    var before, ev := events[..|events| - 1], events[|events| - 1];
    var s := Run(cfg, ch, before);
    PlacedStream(cfg, ch, events, gap);
    ExpectedGrowth(cfg, ch, events, device, gap);
    SameParts(s.stream, ExpectedStream(cfg, before, device, |s.stream|), Zeros(gap),
              PlacedData(cfg, ch, s, ev), Taken(cfg, ch, s, ev));
  }

  /** What the worker stores after the padding: its own samples, or the first channel's after a gap. */
  function PlacedData(cfg: Config, ch: nat, s: RxState, ev: Recv): (d: seq<Sample>)
    requires PowerOfTwo(cfg.size) && ev.Packet? && WellFormed(cfg, ev) && ch < cfg.channels
    ensures |d| == Received(cfg, s, ev)
  {
    if s.contiguous > 0 then Taken(cfg, ch, s, ev) else Taken(cfg, 0, s, ev)
  }

  lemma {:induction false} PlacedStream(cfg: Config, ch: nat, events: seq<Recv>, gap: nat)
    requires PowerOfTwo(cfg.size) && ch < cfg.channels && events != []
    requires forall k :: 0 <= k < |events| ==> WellFormed(cfg, events[k])
    requires var s, ev := Run(cfg, ch, events[..|events| - 1]), events[|events| - 1];
             Placed(cfg, s, ev) && gap == if s.contiguous > 0 then 0 else Lost(s, ev.ts)
    ensures var s, ev := Run(cfg, ch, events[..|events| - 1]), events[|events| - 1];
            Run(cfg, ch, events).stream == s.stream + Zeros(gap) + PlacedData(cfg, ch, s, ev)
  {
    assert Zeros(0) == [];
  }

  lemma {:induction false} ExpectedKept(cfg: Config, ch: nat, events: seq<Recv>, device: nat -> Sample)
    requires Proper(cfg, events) && ch < cfg.channels && events != []
    requires !Placed(cfg, Run(cfg, ch, events[..|events| - 1]), events[|events| - 1])
    ensures var s := Run(cfg, ch, events[..|events| - 1]);
            && Run(cfg, ch, events).stream == s.stream
            && ExpectedStream(cfg, events, device, |s.stream|)
               == ExpectedStream(cfg, events[..|events| - 1], device, |s.stream|)
  {
    var before := events[..|events| - 1];
    ChannelsAgree(cfg, ch, before);
    var s := Run(cfg, ch, before);
    forall t: nat
      ensures Covered(cfg, events, t) <==> Covered(cfg, before, t)
    {
    }
    var l := ExpectedStream(cfg, events, device, |s.stream|);
    var r := ExpectedStream(cfg, before, device, |s.stream|);
    assert forall i :: 0 <= i < |l| ==> l[i] == r[i];
  }

  /** A placed packet covers its own ticks and no other. */
  lemma {:induction false} CoveredNext(cfg: Config, ch: nat, events: seq<Recv>, t: nat)
    requires Proper(cfg, events) && ch < cfg.channels && events != []
    requires Placed(cfg, Run(cfg, ch, events[..|events| - 1]), events[|events| - 1])
    ensures var before, ev := events[..|events| - 1], events[|events| - 1];
            var s := Run(cfg, ch, before);
            Covered(cfg, events, t) <==> Covered(cfg, before, t) || ev.ts <= t < ev.ts + Received(cfg, s, ev)
  {
    ChannelsAgree(cfg, ch, events[..|events| - 1]);
  }

  /** What belongs at index i after a packet is placed behind a gap: as before, zero, or the packet's sample. */
  lemma {:induction false} ExpectedAt(cfg: Config, ch: nat, events: seq<Recv>, device: nat -> Sample, gap: nat, i: nat)
    requires Honest(cfg, ch, events, device) && events != []
    requires var s, ev := Run(cfg, ch, events[..|events| - 1]), events[|events| - 1];
             && Placed(cfg, s, ev) && ev.ts == s.next + gap
             && i < |s.stream| + gap + Received(cfg, s, ev)
    ensures var before, ev := events[..|events| - 1], events[|events| - 1];
            var s := Run(cfg, ch, before);
            Expected(cfg, events, device, cfg.start + i)
            == if i < |s.stream| then Expected(cfg, before, device, cfg.start + i)
               else if i < |s.stream| + gap then ZERO
               else Taken(cfg, ch, s, ev)[i - |s.stream| - gap]
  {
    var before, ev := events[..|events| - 1], events[|events| - 1];
    var s := Run(cfg, ch, before);
    ProperPrefix(cfg, events, |before|);
    TickInvariant(cfg, ch, before);
    ChannelsAgree(cfg, ch, before);
    CoveredRange(cfg, before, device, ch, cfg.start + i);
    CoveredNext(cfg, ch, events, cfg.start + i);
    if i >= |s.stream| + gap {
      var k: nat := i - |s.stream| - gap;
      assert Taken(cfg, ch, s, ev)[k] == device(ev.ts + k);
    }
  }

  lemma {:induction false} ExpectedGrowth(cfg: Config, ch: nat, events: seq<Recv>, device: nat -> Sample, gap: nat)
    requires Honest(cfg, ch, events, device) && events != []
    requires var s, ev := Run(cfg, ch, events[..|events| - 1]), events[|events| - 1];
             Placed(cfg, s, ev) && ev.ts == s.next + gap
    ensures var before, ev := events[..|events| - 1], events[|events| - 1];
            var s := Run(cfg, ch, before);
            ExpectedStream(cfg, events, device, |s.stream| + gap + Received(cfg, s, ev))
            == ExpectedStream(cfg, before, device, |s.stream|) + Zeros(gap) + Taken(cfg, ch, s, ev)
  {
    var before, ev := events[..|events| - 1], events[|events| - 1];
    var s := Run(cfg, ch, before);
    var first, own := ExpectedStream(cfg, before, device, |s.stream|), Taken(cfg, ch, s, ev);
    var l := ExpectedStream(cfg, events, device, |s.stream| + gap + Received(cfg, s, ev));
    var r := first + Zeros(gap) + own;
    forall i | 0 <= i < |l|
      ensures l[i] == r[i]
    {
      ExpectedAt(cfg, ch, events, device, gap, i);
      JoinedAt(first, Zeros(gap), own, i);
    }
  }

  lemma {:induction false} JoinedAt<T>(a: seq<T>, z: seq<T>, b: seq<T>, i: nat)
    requires i < |a| + |z| + |b|
    ensures (a + z + b)[i] == if i < |a| then a[i] else if i < |a| + |z| then z[i - |a|] else b[i - |a| - |z|]
  {
  }

  lemma {:induction false} SameParts<T>(a: seq<T>, b: seq<T>, z: seq<T>, x: seq<T>, y: seq<T>)
    requires |a| == |b| && |x| == |y|
    ensures a + z + x == b + z + y <==> a == b && x == y
  {
    if a + z + x == b + z + y {
      assert a == (a + z + x)[..|a|] && b == (b + z + y)[..|b|];
      assert x == (a + z + x)[|a| + |z|..] && y == (b + z + y)[|b| + |z|..];
    }
  }

  /** Channel 0 carries the promise unconditionally. */
  lemma {:induction false} FirstChannelGaps(cfg: Config, events: seq<Recv>)
    requires PowerOfTwo(cfg.size) && cfg.channels > 0
    requires forall k :: 0 <= k < |events| ==> WellFormed(cfg, events[k])
    ensures GapsAgree(cfg, 0, events)
  {
    if events != [] {
      FirstChannelGaps(cfg, events[..|events| - 1]);
    }
  }

  /** The full second at which reception is scheduled to start, given the device time. */
  function StartSecond(fullSecs: nat, fracSecs: real): nat {
    if fracSecs < 0.5 then fullSecs + 1 else fullSecs + 2
  }

  /** It lies at least half a second and at most one and a half seconds ahead. */
  lemma {:induction false} StartLead(fullSecs: nat, fracSecs: real)
    requires 0.0 <= fracSecs < 1.0
    ensures var lead := StartSecond(fullSecs, fracSecs) as real - (fullSecs as real + fracSecs);
            0.5 < lead <= 1.5
  {
  }

  /**
     Distributed coherence: nodes that began receiving at any full second and are told to record
     from the same second on all put that second's first sample at index 0 of their files.
   */
  lemma {:induction false} RecordingsAligned(startSec: nat, sec: nat, rate: nat)
    requires startSec <= sec
    ensures startSec * rate + RecordingTail(sec * 1000000000 - startSec * 1000000000, rate as real) == sec * rate
  {
    var d: nat := sec - startSec;
    var nsec := sec * 1000000000 - startSec * 1000000000;
    assert nsec == d * 1000000000;
    assert nsec as real / 1000000000.0 == d as real;
    assert nsec as real / 1000000000.0 * rate as real == (d * rate) as real;
    assert startSec * rate + d * rate == sec * rate;
  }
}
