/**
 What the transmit worker (src/tx.cpp) asks of the radio, for any script of clock readings, send
 results, asynchronous events and flag readings: samples in step with the hardware clock, calls
 that form well-framed bursts, and the gain restored before any sample goes out.
 */
module TxSpec {
  import opened Words
  import opened TxTime
  import Ring

  type Sample = Ring.Sample

  const FRAMES_PER_SEND: nat := 128
  const BURST_DELAY: real := 0.01

  /** Event codes of uhd::async_metadata_t. */
  datatype Event =
    | BurstAck | UserPayload
    | Underflow | SeqError | TimeError | UnderflowInPacket | SeqErrorInBurst
    | OtherEvent

  predicate IsError(e: Event) {
    !e.BurstAck? && !e.UserPayload?
  }

  /** One period of the signal, samples per frame, the device's rate, its channels and its quirk. */
  datatype Config = Config(signal: seq<Sample>, frame: nat, rate: real, channels: nat, noErrorAck: bool)

  predicate ValidConfig(c: Config) {
    c.signal != [] && c.rate >= 1.0
  }

  /** Readings of the two flags. */
  datatype Flags = Flags(run: bool, mute: bool)

  /**
     What one pass of the loop sees: the device time, how much send() took, the events behind it,
     the flags then, the messages while waiting for acknowledgements, and whether mute is (still)
     set behind the burst, and the flags polled from then on.
   */
  datatype Turn = Turn(
    now: TimeSpec, sent: nat, events: seq<Event>, flags: Flags,
    acks: seq<Event>, muted: bool, polls: seq<Flags>)

  function Request(c: Config): nat {
    FRAMES_PER_SEND * c.frame
  }

  /** What UHD guarantees: a normalised time, and no more samples taken than offered. */
  predicate Proper(c: Config, script: seq<Turn>) {
    forall i :: 0 <= i < |script| ==> Normal(script[i].now) && script[i].sent <= Request(c)
  }

  datatype Option<+T> = None | Some(value: T)

  datatype Metadata = Metadata(time: Option<TimeSpec>, start: bool, end: bool)

  /** Calls that reach the device. */
  datatype Call =
    | Send(md: Metadata, data: seq<Sample>, taken: nat)
    | SetGain(gain: real)

  // ---- Behaviour of the loop ----

  /** The rate the worker computes with: the device's, truncated. */
  function RateHz(c: Config): (r: nat)
    requires ValidConfig(c)
    ensures r > 0 && r as real <= c.rate < r as real + 1.0
  {
    c.rate.Floor
  }

  function StartTime(c: Config, now: TimeSpec): TimeSpec
    requires ValidConfig(c) && Normal(now)
  {
    AlignTime(now, BURST_DELAY, RateHz(c) as real, |c.signal|).value
  }

  /** The periodic signal from a given offset. */
  function Window(c: Config, offset: nat): (w: seq<Sample>)
    requires ValidConfig(c)
    ensures |w| == Request(c)
  {
    seq(Request(c), k requires 0 <= k => c.signal[(offset + k) % |c.signal|])
  }

  /** tx_md for a send of samples: start of burst and time if none has been taken yet. */
  function PayloadMetadata(c: Config, samples: nat, now: TimeSpec): Metadata
    requires ValidConfig(c) && Normal(now)
  {
    if samples == 0 then Metadata(Some(StartTime(c, now)), true, false) else Metadata(None, false, false)
  }

  function Payload(c: Config, samples: nat, turn: Turn): Call
    requires ValidConfig(c) && Normal(turn.now)
  {
    Send(PayloadMetadata(c, samples, turn.now), Window(c, samples % |c.signal|), turn.sent)
  }

  const END_OF_BURST := Send(Metadata(None, false, true), [], 0)

  /** samples_burst behind the event loop. */
  function After(samples: nat, turn: Turn): nat {
    if exists i :: 0 <= i < |turn.events| && IsError(turn.events[i]) then 0 else samples + turn.sent
  }

  /** Whether the pass ends the burst. */
  predicate Stops(samples: nat, turn: Turn) {
    After(samples, turn) == 0 || turn.flags.mute || !turn.flags.run
  }

  function Next(samples: nat, turn: Turn): nat {
    if Stops(samples, turn) then 0 else After(samples, turn)
  }

  function MuteCalls(turn: Turn, gain: real): seq<Call> {
    if turn.muted then [SetGain(0.0), SetGain(gain)] else []
  }

  function TurnCalls(c: Config, samples: nat, gain: real, turn: Turn): seq<Call>
    requires ValidConfig(c) && Normal(turn.now)
  {
    [Payload(c, samples, turn)]
    + if Stops(samples, turn) then [END_OF_BURST] + MuteCalls(turn, gain) else []
  }

  function Calls(c: Config, samples: nat, gain: real, script: seq<Turn>): seq<Call>
    requires ValidConfig(c) && Proper(c, script)
    decreases |script|
  {
    if script == [] then []
    else TurnCalls(c, samples, gain, script[0]) + Calls(c, Next(samples, script[0]), gain, script[1..])
  }

  /** samples_burst behind a run. */
  function BurstSamples(samples: nat, script: seq<Turn>): nat
    decreases |script|
  {
    if script == [] then samples else BurstSamples(Next(samples, script[0]), script[1..])
  }

  // ---- Coherence ----

  /** A call the device can make sense of: no more taken than offered, and a normalised time. */
  predicate Sound(call: Call) {
    call.Send? ==> call.taken <= |call.data| && (call.md.time.Some? ==> Normal(call.md.time.value))
  }

  /** The tick the first sample of a call is for: the start time, or where the last call left off. */
  function First(call: Call, rate: nat, tick: nat): nat {
    if call.Send? && call.md.time.Some? && Normal(call.md.time.value) then Tick(call.md.time.value, rate) else tick
  }

  function Behind(call: Call, rate: nat, tick: nat): nat {
    First(call, rate, tick) + if call.Send? then call.taken else 0
  }

  /** Samples a call puts on the air with the ticks they are for, one tick a sample. */
  function Stamped(call: Call, rate: nat, tick: nat): seq<(nat, Sample)> {
    if call.Send? && Sound(call) then
      seq(call.taken, k requires 0 <= k < call.taken => Stamp(First(call, rate, tick) + k, call.data[k]))
    else []
  }

  function Stamp(tick: nat, sample: Sample): (nat, Sample) {
    (tick, sample)
  }

  function OnAir(calls: seq<Call>, rate: nat, tick: nat): seq<(nat, Sample)>
    decreases |calls|
  {
    if calls == [] then []
    else Stamped(calls[0], rate, tick) + OnAir(calls[1..], rate, Behind(calls[0], rate, tick))
  }

  predicate AllSound(calls: seq<Call>) {
    forall i :: 0 <= i < |calls| ==> Sound(calls[i])
  }

  /** Every sample is the one the periodic signal has at its tick. */
  predicate InStep(air: seq<(nat, Sample)>, signal: seq<Sample>)
    requires signal != []
  {
    forall k :: 0 <= k < |air| ==> air[k].1 == signal[air[k].0 % |signal|]
  }

  /** Device times of fewer than 2^63 samples. */
  predicate Timely(c: Config, script: seq<Turn>)
    requires ValidConfig(c) && Proper(c, script)
  {
    forall i :: 0 <= i < |script| ==> InRange(script[i].now, BURST_DELAY, RateHz(c), |c.signal|)
  }

  lemma {:induction false} ModShift(a: nat, b: nat, k: nat, n: nat)
    requires n > 0 && a % n == b % n
    ensures (a + k) % n == (b + k) % n
  {
    Shifted(a, k, n);
    Shifted(b, k, n);
  }

  lemma {:induction false} Shifted(a: nat, k: nat, n: nat)
    requires n > 0
    ensures (a + k) % n == (a % n + k) % n
  {
    DivModUnique(a / n * n, n, a / n, 0);
    ModAdd(a % n + k, a / n * n, n);
    assert a % n + k + a / n * n == a + k;
  }

  /** The truncated rate is an integer, so the worker never sees align_time throw; bursts start on a period. */
  lemma {:induction false} StartOnPeriod(c: Config, now: TimeSpec)
    requires ValidConfig(c) && Normal(now) && InRange(now, BURST_DELAY, RateHz(c), |c.signal|)
    ensures Normal(StartTime(c, now)) && Tick(StartTime(c, now), RateHz(c)) % |c.signal| == 0
    ensures Tick(StartTime(c, now), RateHz(c)) >= Earliest(now, BURST_DELAY, RateHz(c))
  {
    AlignExact(now, BURST_DELAY, RateHz(c), |c.signal|);
  }

  /** Ten milliseconds ahead of the reading of the clock, give or take two samples, and at most a period later. */
  lemma {:induction false} StartLead(c: Config, now: TimeSpec)
    requires ValidConfig(c) && Normal(now) && InRange(now, BURST_DELAY, RateHz(c), |c.signal|)
    ensures Normal(StartTime(c, now))
    ensures -2.0 < Tick(StartTime(c, now), RateHz(c)) as real - Moment(now, 0.01, RateHz(c)) < |c.signal| as real
  {
    AlignExact(now, BURST_DELAY, RateHz(c), |c.signal|);
    DelayKept(now, BURST_DELAY, RateHz(c));
  }

  lemma {:induction false} WindowInStep(c: Config, samples: nat, first: nat, k: nat)
    requires ValidConfig(c) && k < Request(c) && first % |c.signal| == samples % |c.signal|
    ensures Window(c, samples % |c.signal|)[k] == c.signal[(first + k) % |c.signal|]
  {
    Shifted(samples, k, |c.signal|);
    ModShift(first, samples, k, |c.signal|);
  }

  lemma {:induction false} PayloadFirst(c: Config, samples: nat, turn: Turn, tick: nat)
    requires ValidConfig(c) && Normal(turn.now) && turn.sent <= Request(c)
    requires InRange(turn.now, BURST_DELAY, RateHz(c), |c.signal|)
    requires samples > 0 ==> tick % |c.signal| == samples % |c.signal|
    ensures Sound(Payload(c, samples, turn))
    ensures First(Payload(c, samples, turn), RateHz(c), tick) % |c.signal| == samples % |c.signal|
  {
    StartOnPeriod(c, turn.now);
    if samples == 0 {
      DivModUnique(0, |c.signal|, 0, 0);
    }
  }

  lemma {:induction false} PayloadInStep(c: Config, samples: nat, turn: Turn, tick: nat)
    requires ValidConfig(c) && Normal(turn.now) && turn.sent <= Request(c)
    requires InRange(turn.now, BURST_DELAY, RateHz(c), |c.signal|)
    requires samples > 0 ==> tick % |c.signal| == samples % |c.signal|
    ensures Sound(Payload(c, samples, turn))
    ensures InStep(Stamped(Payload(c, samples, turn), RateHz(c), tick), c.signal)
    ensures Behind(Payload(c, samples, turn), RateHz(c), tick) % |c.signal| == (samples + turn.sent) % |c.signal|
  {
    PayloadFirst(c, samples, turn, tick);
    var call, n := Payload(c, samples, turn), |c.signal|;
    var first := First(call, RateHz(c), tick);
    ModShift(first, samples, turn.sent, n);
    forall k | 0 <= k < turn.sent
      ensures Stamped(call, RateHz(c), tick)[k] == (first + k, c.signal[(first + k) % n])
    {
      WindowInStep(c, samples, first, k);
    }
  }

  lemma {:induction false} OnAirFront(call: Call, calls: seq<Call>, rate: nat, tick: nat)
    ensures Sound(call) && AllSound(calls) ==> AllSound([call] + calls)
    ensures OnAir([call] + calls, rate, tick)
         == Stamped(call, rate, tick) + OnAir(calls, rate, Behind(call, rate, tick))
  {
    assert ([call] + calls)[1..] == calls;
  }

  /** What follows the payload in a pass puts no sample on the air. */
  predicate Silent(call: Call) {
    call.SetGain? || call == END_OF_BURST
  }

  lemma {:induction false} SilentFront(call: Call, calls: seq<Call>, rate: nat, tick: nat)
    requires Silent(call)
    ensures AllSound(calls) ==> AllSound([call] + calls)
    ensures OnAir([call] + calls, rate, tick) == OnAir(calls, rate, tick)
  {
    OnAirFront(call, calls, rate, tick);
    assert Stamped(call, rate, tick) == [] && Behind(call, rate, tick) == tick;
  }

  lemma {:induction false} SilentCalls(silent: seq<Call>, calls: seq<Call>, rate: nat, tick: nat)
    requires forall i :: 0 <= i < |silent| ==> Silent(silent[i])
    ensures AllSound(calls) ==> AllSound(silent + calls)
    ensures OnAir(silent + calls, rate, tick) == OnAir(calls, rate, tick)
    decreases |silent|
  {
    if silent == [] {
      assert silent + calls == calls;
    } else {
      var rest := silent[1..] + calls;
      SilentCalls(silent[1..], calls, rate, tick);
      SilentFront(silent[0], rest, rate, tick);
      FirstApart(silent, calls);
    }
  }

  lemma {:induction false} FirstApart(a: seq<Call>, b: seq<Call>)
    requires a != []
    ensures a + b == [a[0]] + (a[1..] + b)
  {
  }

  /** Calls of a pass behind its payload. */
  function Tail(samples: nat, gain: real, turn: Turn): seq<Call> {
    if Stops(samples, turn) then [END_OF_BURST] + MuteCalls(turn, gain) else []
  }

  lemma {:induction false} CallsUnfold(c: Config, samples: nat, gain: real, script: seq<Turn>)
    requires ValidConfig(c) && Proper(c, script) && script != []
    ensures Proper(c, script[1..])
    ensures Calls(c, samples, gain, script)
         == [Payload(c, samples, script[0])]
            + (Tail(samples, gain, script[0]) + Calls(c, Next(samples, script[0]), gain, script[1..]))
  {
  }

  lemma {:induction false} InStepJoin(a: seq<(nat, Sample)>, b: seq<(nat, Sample)>, signal: seq<Sample>)
    requires signal != [] && InStep(a, signal) && InStep(b, signal)
    ensures InStep(a + b, signal)
  {
  }

  lemma {:induction false} RunInStep(c: Config, samples: nat, gain: real, script: seq<Turn>, tick: nat)
    requires ValidConfig(c) && Proper(c, script) && Timely(c, script)
    requires samples > 0 ==> tick % |c.signal| == samples % |c.signal|
    ensures AllSound(Calls(c, samples, gain, script))
    ensures InStep(OnAir(Calls(c, samples, gain, script), RateHz(c), tick), c.signal)
    decreases |script|
  {
    if script == [] {
    } else {
      var turn, rate := script[0], RateHz(c);
      var call := Payload(c, samples, turn);
      PayloadInStep(c, samples, turn, tick);
      var tick' := Behind(call, rate, tick);
      CallsUnfold(c, samples, gain, script);
      var rest := Calls(c, Next(samples, turn), gain, script[1..]);
      RunInStep(c, Next(samples, turn), gain, script[1..], tick');
      var tail := Tail(samples, gain, turn);
      SilentCalls(tail, rest, rate, tick');
      OnAirFront(call, tail + rest, rate, tick);
      InStepJoin(Stamped(call, rate, tick), OnAir(rest, rate, tick'), c.signal);
    }
  }

  /** Samples on the air in a run of the worker. */
  function Transmitted(c: Config, gain: real, script: seq<Turn>): seq<(nat, Sample)>
    requires ValidConfig(c) && Proper(c, script)
  {
    OnAir(Calls(c, 0, gain, script), RateHz(c), 0)
  }

  /**
     Coherence over all bursts: whatever send() takes, whichever errors strike, however often the
     signal is muted, the sample on the air at tick t is signal[t % period].
   */
  lemma {:induction false} Coherence(c: Config, gain: real, script: seq<Turn>)
    requires ValidConfig(c) && Proper(c, script) && Timely(c, script)
    ensures AllSound(Calls(c, 0, gain, script))
    ensures InStep(Transmitted(c, gain, script), c.signal)
  {
    RunInStep(c, 0, gain, script, 0);
  }

  /** Two nodes that share the signal agree at every tick both are on the air. */
  lemma {:induction false} NodesAgree(
    c: Config, d: Config, gain: real, script: seq<Turn>, gain': real, script': seq<Turn>, i: nat, j: nat)
    requires ValidConfig(c) && Proper(c, script) && Timely(c, script)
    requires ValidConfig(d) && Proper(d, script') && Timely(d, script')
    requires c.signal == d.signal
    requires i < |Transmitted(c, gain, script)| && j < |Transmitted(d, gain', script')|
    requires Transmitted(c, gain, script)[i].0 == Transmitted(d, gain', script')[j].0
    ensures Transmitted(c, gain, script)[i].1 == Transmitted(d, gain', script')[j].1
  {
    Coherence(c, gain, script);
    Coherence(d, gain', script');
  }

  // ---- Bursts ----

  /**
     The framing UHD expects. A burst opens with one call that carries both the start flag and a
     time, goes on with plain calls, and closes with an empty end-of-burst call. The gain changes
     only between bursts.
   */
  predicate Framed(calls: seq<Call>, open: bool)
    decreases |calls|
  {
    calls == [] ||
    match calls[0]
    case SetGain(_) => !open && Framed(calls[1..], open)
    case Send(md, data, _) =>
      if md.end then open && !md.start && md.time.None? && data == [] && Framed(calls[1..], false)
      else md.start == !open && md.time.Some? == !open && Framed(calls[1..], true)
  }

  /** Whether the device is left inside a burst. */
  function LeftOpen(calls: seq<Call>, open: bool): bool
    decreases |calls|
  {
    if calls == [] then open
    else LeftOpen(calls[1..], if calls[0].SetGain? then open else !calls[0].md.end)
  }

  /** Samples the device took since the start of the burst it is in. */
  function Streamed(calls: seq<Call>, taken: nat): nat
    decreases |calls|
  {
    if calls == [] then taken
    else
      match calls[0]
      case SetGain(_) => Streamed(calls[1..], taken)
      case Send(md, _, n) => Streamed(calls[1..], if md.end then 0 else if md.start then n else taken + n)
  }

  lemma {:induction false} MuteFramed(gain: real, turn: Turn, rest: seq<Call>)
    ensures Framed(MuteCalls(turn, gain) + rest, false) <==> Framed(rest, false)
    ensures LeftOpen(MuteCalls(turn, gain) + rest, false) == LeftOpen(rest, false)
    ensures Streamed(MuteCalls(turn, gain) + rest, 0) == Streamed(rest, 0)
  {
    var calls := MuteCalls(turn, gain) + rest;
    if turn.muted {
      assert calls[1..] == [SetGain(gain)] + rest;
      assert calls[1..][1..] == rest;
    } else {
      assert calls == rest;
    }
  }

  lemma {:induction false} TailFramed(samples: nat, gain: real, turn: Turn, rest: seq<Call>)
    ensures Framed(Tail(samples, gain, turn) + rest, true) <==> Framed(rest, Next(samples, turn) > 0)
    ensures LeftOpen(Tail(samples, gain, turn) + rest, true) == LeftOpen(rest, Next(samples, turn) > 0)
    ensures Streamed(Tail(samples, gain, turn) + rest, samples + turn.sent) == Streamed(rest, Next(samples, turn))
  {
    var calls := Tail(samples, gain, turn) + rest;
    if Stops(samples, turn) {
      MuteFramed(gain, turn, rest);
      assert calls[1..] == MuteCalls(turn, gain) + rest;
    } else {
      assert calls == rest;
    }
  }

  /** The burst protocol, and what samples_burst counts, over every run. */
  lemma {:induction false} RunFramed(c: Config, samples: nat, gain: real, script: seq<Turn>)
    requires ValidConfig(c) && Proper(c, script)
    ensures Framed(Calls(c, samples, gain, script), samples > 0)
    ensures LeftOpen(Calls(c, samples, gain, script), samples > 0) <==> BurstSamples(samples, script) > 0
    ensures Streamed(Calls(c, samples, gain, script), samples) == BurstSamples(samples, script)
    decreases |script|
  {
    if script == [] {
    } else {
      var turn := script[0];
      CallsUnfold(c, samples, gain, script);
      var rest := Calls(c, Next(samples, turn), gain, script[1..]);
      RunFramed(c, Next(samples, turn), gain, script[1..]);
      TailFramed(samples, gain, turn, rest);
      var call, tail := Payload(c, samples, turn), Tail(samples, gain, turn);
      assert ([call] + (tail + rest))[1..] == tail + rest;
    }
  }

  lemma {:induction false} BurstProtocol(c: Config, gain: real, script: seq<Turn>)
    requires ValidConfig(c) && Proper(c, script)
    ensures Framed(Calls(c, 0, gain, script), false)
    ensures Streamed(Calls(c, 0, gain, script), 0) == BurstSamples(0, script)
  {
    RunFramed(c, 0, gain, script);
  }

  lemma {:induction false} BurstSamplesLast(samples: nat, script: seq<Turn>)
    requires script != []
    ensures BurstSamples(samples, script)
         == Next(BurstSamples(samples, script[..|script| - 1]), script[|script| - 1])
    decreases |script|
  {
    if |script| == 1 {
      assert script[1..] == [] && script[..0] == [];
    } else {
      BurstSamplesLast(Next(samples, script[0]), script[1..]);
      assert script[1..][..|script| - 2] == script[..|script| - 1][1..];
    }
  }

  /**
     An end of burst is not sent on every exit: the worker leaves the burst open exactly when run
     falls behind the check of a last pass that saw no error, no mute and some sample taken.
   */
  lemma {:induction false} LeftOpenExactly(c: Config, gain: real, script: seq<Turn>)
    requires ValidConfig(c) && Proper(c, script)
    ensures LeftOpen(Calls(c, 0, gain, script), false) <==>
              && script != []
              && var last := script[|script| - 1];
              && last.flags == Flags(true, false)
              && (forall i :: 0 <= i < |last.events| ==> !IsError(last.events[i]))
              && BurstSamples(0, script[..|script| - 1]) + last.sent > 0
  {
    RunFramed(c, 0, gain, script);
    if script != [] {
      BurstSamplesLast(0, script);
    }
  }

  /** One pass with a sample taken, nothing wrong, and run cleared just behind its check. */
  lemma {:induction false} BurstLeftOpen(x: Sample, now: TimeSpec, gain: real)
    requires Normal(now)
    ensures var c := Config([x], 1, 1.0, 1, false);
            var script := [Turn(now, 1, [], Flags(true, false), [], false, [])];
            ValidConfig(c) && Proper(c, script) && LeftOpen(Calls(c, 0, gain, script), false)
  {
    var c, turn := Config([x], 1, 1.0, 1, false), Turn(now, 1, [], Flags(true, false), [], false, []);
    var script := [turn];
    assert script[..0] == [];
    LeftOpenExactly(c, gain, script);
  }

  // ---- Pass by pass ----

  lemma {:induction false} CallsSplit(c: Config, samples: nat, gain: real, script: seq<Turn>, k: nat)
    requires ValidConfig(c) && Proper(c, script) && k <= |script|
    ensures Calls(c, samples, gain, script)
         == Calls(c, samples, gain, script[..k])
            + Calls(c, BurstSamples(samples, script[..k]), gain, script[k..])
    decreases |script|
  {
    if k == 0 {
      assert script[..0] == [] && script[0..] == script;
    } else {
      var next := Next(samples, script[0]);
      CallsSplit(c, next, gain, script[1..], k - 1);
      assert script[..k][1..] == script[1..][..k - 1] && script[1..][k - 1..] == script[k..];
      Joined(TurnCalls(c, samples, gain, script[0]), Calls(c, next, gain, script[1..][..k - 1]),
             Calls(c, BurstSamples(next, script[1..][..k - 1]), gain, script[k..]));
    }
  }

  lemma {:induction false} Joined(a: seq<Call>, b: seq<Call>, c: seq<Call>)
    ensures a + b + c == a + (b + c)
  {
  }

  /** Only acknowledgements of a burst's end and user payload arrived. */
  predicate Harmless(events: seq<Event>) {
    forall i :: 0 <= i < |events| ==> events[i] == BurstAck || events[i] == UserPayload
  }

  /** A call that offers a full send: timed and flagged as a start, or plain. */
  predicate Offers(c: Config, call: Call, start: bool) {
    && call.Send? && !call.md.end && |call.data| == 128 * c.frame
    && call.md.start == start && call.md.time.Some? == start
  }

  /** Whether a pass ends the burst that has streamed so many samples, this pass's included. */
  predicate EndsBurst(turn: Turn, streamed: nat) {
    !Harmless(turn.events) || streamed == 0 || turn.flags.mute || !turn.flags.run
  }

  /**
     The calls of one pass, behind those of the passes before it. It offers one full send, which
     starts a burst exactly if none is open. It ends the burst exactly if a message other than an
     acknowledgement or user payload arrived, nothing has been streamed since the burst began, mute
     is set, or run is cleared; then, if mute is still set, the gain goes to zero and back.
   */
  ghost predicate LawfulPass(c: Config, gain: real, turn: Turn, before: seq<Call>, pass: seq<Call>) {
    && pass != [] && Offers(c, pass[0], !LeftOpen(before, false)) && pass[0].taken == turn.sent
    && (if EndsBurst(turn, Streamed(before, 0) + turn.sent) then
          && !LeftOpen(before + pass, false)
          && pass[1..] == [Send(Metadata(None, false, true), [], 0)]
                          + if turn.muted then [SetGain(0.0), SetGain(gain)] else []
        else
          LeftOpen(before + pass, false) && pass[1..] == [])
  }

  lemma {:induction false} PassCalls(c: Config, samples: nat, gain: real, turn: Turn)
    requires ValidConfig(c) && Normal(turn.now)
    ensures var pass := TurnCalls(c, samples, gain, turn);
            && pass != [] && Offers(c, pass[0], samples == 0) && pass[0].taken == turn.sent
            && (if EndsBurst(turn, samples + turn.sent) then
                  && Next(samples, turn) == 0
                  && pass[1..] == [Send(Metadata(None, false, true), [], 0)]
                                  + if turn.muted then [SetGain(0.0), SetGain(gain)] else []
                else
                  Next(samples, turn) == samples + turn.sent > 0 && pass[1..] == [])
  {
    assert Harmless(turn.events) <==> !exists i :: 0 <= i < |turn.events| && IsError(turn.events[i]);
  }

  lemma {:induction false} OnePass(c: Config, samples: nat, gain: real, script: seq<Turn>)
    requires ValidConfig(c) && Proper(c, script) && |script| == 1
    ensures Calls(c, samples, gain, script) == TurnCalls(c, samples, gain, script[0])
  {
    assert script[1..] == [];
  }

  /** Every pass of every run is lawful, and the calls of the run are those of its passes in order. */
  lemma {:induction false} EveryPass(c: Config, gain: real, script: seq<Turn>, k: nat)
    requires ValidConfig(c) && Proper(c, script) && k < |script|
    ensures var before, until := Calls(c, 0, gain, script[..k]), Calls(c, 0, gain, script[..k + 1]);
            && before <= until <= Calls(c, 0, gain, script)
            && LawfulPass(c, gain, script[k], before, until[|before|..])
  {
    var before, samples := Calls(c, 0, gain, script[..k]), BurstSamples(0, script[..k]);
    CallsSplit(c, 0, gain, script, k + 1);
    PassAppended(c, gain, script, k);
    PassCalls(c, samples, gain, script[k]);
    RunFramed(c, 0, gain, script[..k]);
    RunFramed(c, 0, gain, script[..k + 1]);
    assert (before + TurnCalls(c, samples, gain, script[k]))[|before|..] == TurnCalls(c, samples, gain, script[k]);
  }

  lemma {:induction false} PassAppended(c: Config, gain: real, script: seq<Turn>, k: nat)
    requires ValidConfig(c) && Proper(c, script) && k < |script|
    ensures var samples := BurstSamples(0, script[..k]);
            && Calls(c, 0, gain, script[..k + 1])
               == Calls(c, 0, gain, script[..k]) + TurnCalls(c, samples, gain, script[k])
            && BurstSamples(0, script[..k + 1]) == Next(samples, script[k])
  {
    CallsSplit(c, 0, gain, script[..k + 1], k);
    assert script[..k + 1][..k] == script[..k] && script[..k + 1][k..] == [script[k]];
    OnePass(c, BurstSamples(0, script[..k]), gain, [script[k]]);
    BurstSamplesLast(0, script[..k + 1]);
  }

  lemma {:induction false} LawfulMeans(
      c: Config, gain: real, turn: Turn, before: seq<Call>, until: seq<Call>, calls: seq<Call>)
    requires before <= until <= calls && LawfulPass(c, gain, turn, before, until[|before|..])
    ensures |before| < |calls| && Offers(c, calls[|before|], !LeftOpen(before, false))
    ensures LeftOpen(until, false) == !EndsBurst(turn, Streamed(before, 0) + turn.sent)
  {
    assert until[|before|..][0] == until[|before|] == calls[|before|];
    assert before + until[|before|..] == until;
  }

  lemma {:induction false} PassMeans(c: Config, gain: real, script: seq<Turn>, k: nat)
    requires ValidConfig(c) && Proper(c, script) && k < |script|
    ensures var before, until := Calls(c, 0, gain, script[..k]), Calls(c, 0, gain, script[..k + 1]);
            var calls := Calls(c, 0, gain, script);
            && |before| < |calls| && Offers(c, calls[|before|], !LeftOpen(before, false))
            && LeftOpen(until, false) == !EndsBurst(script[k], Streamed(before, 0) + script[k].sent)
  {
    EveryPass(c, gain, script, k);
    LawfulMeans(c, gain, script[k], Calls(c, 0, gain, script[..k]), Calls(c, 0, gain, script[..k + 1]),
                Calls(c, 0, gain, script));
  }

  /** After a pass that ended its burst the next one starts another; after any other it goes on plainly. */
  lemma {:induction false} NextPass(c: Config, gain: real, script: seq<Turn>, k: nat)
    requires ValidConfig(c) && Proper(c, script) && k + 1 < |script|
    ensures var before, until := Calls(c, 0, gain, script[..k]), Calls(c, 0, gain, script[..k + 1]);
            && |until| < |Calls(c, 0, gain, script)|
            && Offers(c, Calls(c, 0, gain, script)[|until|],
                      EndsBurst(script[k], Streamed(before, 0) + script[k].sent))
  {
    PassMeans(c, gain, script, k);
    PassMeans(c, gain, script, k + 1);
  }

  // ---- Gain ----

  /** Samples are offered only while the gain is the original one. */
  predicate GainKept(calls: seq<Call>, gain: real, original: real)
    decreases |calls|
  {
    if calls == [] then gain == original
    else
      match calls[0]
      case SetGain(g) => GainKept(calls[1..], g, original)
      case Send(_, data, _) => (data != [] ==> gain == original) && GainKept(calls[1..], gain, original)
  }

  lemma {:induction false} GainAtSamples(c: Config, samples: nat, gain: real, script: seq<Turn>)
    requires ValidConfig(c) && Proper(c, script)
    ensures GainKept(Calls(c, samples, gain, script), gain, gain)
    decreases |script|
  {
    if script == [] {
    } else {
      var turn := script[0];
      CallsUnfold(c, samples, gain, script);
      var rest := Calls(c, Next(samples, turn), gain, script[1..]);
      GainAtSamples(c, Next(samples, turn), gain, script[1..]);
      var call, tail := Payload(c, samples, turn), Tail(samples, gain, turn);
      assert ([call] + (tail + rest))[1..] == tail + rest;
      TailGain(samples, gain, turn, rest);
    }
  }

  lemma {:induction false} TailGain(samples: nat, gain: real, turn: Turn, rest: seq<Call>)
    requires GainKept(rest, gain, gain)
    ensures GainKept(Tail(samples, gain, turn) + rest, gain, gain)
  {
    var tail := Tail(samples, gain, turn);
    if !Stops(samples, turn) {
      assert tail + rest == rest;
    } else if !turn.muted {
      assert tail == [END_OF_BURST];
      assert (tail + rest)[1..] == rest;
    } else {
      assert tail == [END_OF_BURST, SetGain(0.0), SetGain(gain)];
      assert (tail + rest)[1..] == [SetGain(0.0), SetGain(gain)] + rest;
      assert (tail + rest)[1..][1..] == [SetGain(gain)] + rest;
      assert (tail + rest)[1..][1..][1..] == rest;
    }
  }

  /** The gains set, in order. */
  function GainsSet(calls: seq<Call>): seq<real>
    decreases |calls|
  {
    if calls == [] then []
    else (if calls[0].SetGain? then [calls[0].gain] else []) + GainsSet(calls[1..])
  }

  /** Bursts that end with mute set. */
  function Mutings(samples: nat, script: seq<Turn>): nat
    decreases |script|
  {
    if script == [] then 0
    else
      (if Stops(samples, script[0]) && script[0].muted then 1 else 0)
      + Mutings(Next(samples, script[0]), script[1..])
  }

  function ZeroAndBack(n: nat, gain: real): seq<real> {
    if n == 0 then [] else [0.0, gain] + ZeroAndBack(n - 1, gain)
  }

  /** Each such burst is followed by the gain going to zero and back, and nothing else touches the gain. */
  lemma {:induction false} GainSequence(c: Config, samples: nat, gain: real, script: seq<Turn>)
    requires ValidConfig(c) && Proper(c, script)
    ensures GainsSet(Calls(c, samples, gain, script)) == ZeroAndBack(Mutings(samples, script), gain)
    decreases |script|
  {
    if script == [] {
    } else {
      var turn := script[0];
      CallsUnfold(c, samples, gain, script);
      var rest := Calls(c, Next(samples, turn), gain, script[1..]);
      GainSequence(c, Next(samples, turn), gain, script[1..]);
      var call, tail := Payload(c, samples, turn), Tail(samples, gain, turn);
      assert ([call] + (tail + rest))[1..] == tail + rest;
      TailGains(samples, gain, turn, rest);
    }
  }

  lemma {:induction false} TailGains(samples: nat, gain: real, turn: Turn, rest: seq<Call>)
    ensures GainsSet(Tail(samples, gain, turn) + rest)
         == (if Stops(samples, turn) && turn.muted then [0.0, gain] else []) + GainsSet(rest)
  {
    var calls := Tail(samples, gain, turn) + rest;
    if !Stops(samples, turn) {
      assert calls == rest;
    } else {
      assert calls[1..] == MuteCalls(turn, gain) + rest;
      MuteGains(gain, turn, rest);
    }
  }

  lemma {:induction false} MuteGains(gain: real, turn: Turn, rest: seq<Call>)
    ensures GainsSet(MuteCalls(turn, gain) + rest) == (if turn.muted then [0.0, gain] else []) + GainsSet(rest)
  {
    var calls := MuteCalls(turn, gain) + rest;
    if turn.muted {
      assert calls[1..] == [SetGain(gain)] + rest;
      assert calls[1..][1..] == rest;
    } else {
      assert calls == rest;
    }
  }
}
