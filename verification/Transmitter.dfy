/**
 The transmit worker (src/tx.cpp): a send buffer that repeats the signal, and a loop that streams
 from it in bursts. What TxSpec proves about the calls of a run holds of the calls it makes.
 */
module Transmitter {
  import opened TxTime
  import opened TxSpec

  /** The signal repeated, one period longer than a send. */
  predicate Periodic(c: Config, buffer: seq<Sample>)
    requires ValidConfig(c)
  {
    |buffer| == Request(c) + |c.signal| && forall n :: 0 <= n < |buffer| ==> buffer[n] == c.signal[n % |c.signal|]
  }

  /** No send reads past the buffer, and none needs to wrap around in it. */
  lemma {:induction false} SendFits(c: Config, buffer: seq<Sample>, samples: nat)
    requires ValidConfig(c) && Periodic(c, buffer)
    ensures samples % |c.signal| + Request(c) <= |buffer|
    ensures buffer[samples % |c.signal|..samples % |c.signal| + Request(c)] == Window(c, samples % |c.signal|)
  {
  }

  method FillSendBuffer(c: Config) returns (buffer: array<Sample>)
    requires ValidConfig(c)
    ensures fresh(buffer) && Periodic(c, buffer[..])
  {
    buffer := new Sample[Request(c) + |c.signal|](_ => c.signal[0]);
    for n := 0 to buffer.Length
      invariant forall k :: 0 <= k < n ==> buffer[k] == c.signal[k % |c.signal|]
    {
      buffer[n] := c.signal[n % |c.signal|];
    }
  }

  /** The event loop: the count is lost as soon as a message is anything but an acknowledgement or user payload. */
  method DrainEvents(samples: nat, events: seq<Event>) returns (left: nat)
    ensures left == if Harmless(events) then samples else 0
    ensures Underflow in events || SeqError in events || TimeError in events ==> left == 0
    ensures UnderflowInPacket in events || SeqErrorInBurst in events || OtherEvent in events ==> left == 0
  {
    left := samples;
    for i := 0 to |events|
      invariant left == if Harmless(events[..i]) then samples else 0
    {
      if IsError(events[i]) {
        left := 0;
      }
      assert events[..i + 1] == events[..i] + [events[i]];
    }
    assert events[..|events|] == events;
  }

  function Acks(messages: seq<Event>): (n: nat)
    ensures n <= |messages|
  {
    if messages == [] then 0
    else Acks(messages[..|messages| - 1]) + if messages[|messages| - 1].BurstAck? then 1 else 0
  }

  /** Waits for one acknowledgement per channel, or until no message comes; reads none beyond the last it needs. */
  method AwaitAcks(messages: seq<Event>, already: nat, channels: nat) returns (read: nat)
    requires already <= channels
    ensures read <= |messages|
    ensures already + Acks(messages[..read]) <= channels
    ensures already + Acks(messages[..read]) == channels || read == |messages|
    ensures forall k :: 0 <= k < read ==> already + Acks(messages[..k]) < channels
    ensures already == channels ==> read == 0
  {
    read := 0;
    var acks := already;
    assert messages[..0] == [];
    while acks < channels && read < |messages|
      invariant read <= |messages|
      invariant already == channels ==> read == 0
      invariant acks == already + Acks(messages[..read]) <= channels
      invariant forall k :: 0 <= k < read ==> already + Acks(messages[..k]) < channels
    {
      assert messages[..read + 1][..read] == messages[..read];
      if messages[read].BurstAck? {
        acks := acks + 1;
      }
      read := read + 1;
    }
  }

  /** uhd::tx_streamer and the gain of uhd::usrp::multi_usrp: the device remembers its calls. */
  class Radio {
    var gain: real
    var calls: seq<Call>

    constructor (gain: real)
      ensures this.gain == gain && calls == []
    {
      this.gain := gain;
      calls := [];
    }

    method Send(md: Metadata, data: seq<Sample>, taken: nat)
      modifies `calls
      ensures calls == old(calls) + [Call.Send(md, data, taken)]
    {
      calls := calls + [Call.Send(md, data, taken)];
    }

    method SetGain(g: real)
      modifies this
      ensures gain == g && calls == old(calls) + [Call.SetGain(g)]
    {
      gain := g;
      calls := calls + [Call.SetGain(g)];
    }
  }

  lemma {:induction false} Assoc(a: seq<Call>, b: seq<Call>, c: seq<Call>)
    ensures a + b + c == a + (b + c)
  {
  }

  class Tx {
    const radio: Radio
    var run: bool
    var burstSamples: nat

    constructor (radio: Radio)
      ensures this.radio == radio && run && burstSamples == 0
    {
      this.radio := radio;
      run := true;
      burstSamples := 0;
    }

    /** tx_md for the next send. */
    method Prepare(c: Config, samples: nat, now: TimeSpec) returns (md: Metadata)
      requires ValidConfig(c) && Normal(now)
      ensures md == PayloadMetadata(c, samples, now)
    {
      md := Metadata(None, false, false);
      if samples == 0 {
        var start := AlignTime(now, BURST_DELAY, RateHz(c) as real, |c.signal|);
        md := Metadata(Some(start.value), true, false);
      }
    }

    /** Closes the burst; while mute is set the gain is zero. */
    method EndBurst(c: Config, samples: nat, turn: Turn) returns (read: nat, polled: nat)
      modifies radio, `burstSamples
      ensures radio.calls == old(radio.calls) + ([END_OF_BURST] + MuteCalls(turn, old(radio.gain)))
      ensures radio.gain == old(radio.gain) && burstSamples == 0
      ensures read <= |turn.acks| && (samples == 0 && c.noErrorAck ==> read == 0)
      ensures !(samples == 0 && c.noErrorAck) ==>
                && Acks(turn.acks[..read]) <= c.channels
                && (Acks(turn.acks[..read]) == c.channels || read == |turn.acks|)
                && forall k :: 0 <= k < read ==> Acks(turn.acks[..k]) < c.channels
      ensures polled <= |turn.polls| && (!turn.muted ==> polled == 0)
      ensures forall k :: 0 <= k < polled ==> turn.polls[k] == Flags(true, true)
      ensures turn.muted && polled < |turn.polls| ==> turn.polls[polled] != Flags(true, true)
    {
      radio.Send(Metadata(None, false, true), [], 0);
      var already := if samples == 0 && c.noErrorAck then c.channels else 0;
      read := AwaitAcks(turn.acks, already, c.channels);
      polled := 0;
      burstSamples := 0;
      if turn.muted {
        var gain := radio.gain;
        radio.SetGain(0.0);
        while polled < |turn.polls| && turn.polls[polled].run && turn.polls[polled].mute
          invariant polled <= |turn.polls|
          invariant forall k :: 0 <= k < polled ==> turn.polls[k] == Flags(true, true)
        {
          polled := polled + 1;
        }
        radio.SetGain(gain);
      }
    }

    /** One pass of the main loop. */
    method Pass(c: Config, buffer: array<Sample>, samples: nat, turn: Turn) returns (next: nat)
      requires ValidConfig(c) && Periodic(c, buffer[..]) && Normal(turn.now)
      modifies radio, `burstSamples
      ensures radio.calls == old(radio.calls) + TurnCalls(c, samples, old(radio.gain), turn)
      ensures radio.gain == old(radio.gain)
      ensures next == Next(samples, turn) == burstSamples
    {
      var md := Prepare(c, samples, turn.now);
      SendFits(c, buffer[..], samples);
      var offset := samples % |c.signal|;
      radio.Send(md, buffer[..][offset..offset + Request(c)], turn.sent);
      assert radio.calls == old(radio.calls) + [Payload(c, samples, turn)];
      next := DrainEvents(samples + turn.sent, turn.events);
      assert next == After(samples, turn);
      burstSamples := next;
      if next == 0 || turn.flags.mute || !turn.flags.run {
        var _, _ := EndBurst(c, next, turn);
        next := 0;
      }
    }

    /** Each entry of the script is one pass; run is read as false behind the last. */
    method Worker(c: Config, script: seq<Turn>)
      requires ValidConfig(c) && Proper(c, script) && burstSamples == 0
      modifies this, radio
      ensures radio.calls == old(radio.calls) + Calls(c, 0, old(radio.gain), script)
      ensures radio.gain == old(radio.gain)
      ensures burstSamples == BurstSamples(0, script)
      ensures !run
    {
      var buffer := FillSendBuffer(c);
      var samples := 0;
      assert script[0..] == script;
      for i := 0 to |script|
        invariant Periodic(c, buffer[..]) && radio.gain == old(radio.gain)
        invariant burstSamples == samples
        invariant BurstSamples(samples, script[i..]) == BurstSamples(0, script)
        invariant radio.calls + Calls(c, samples, radio.gain, script[i..])
               == old(radio.calls) + Calls(c, 0, radio.gain, script)
      {
        assert script[i..][1..] == script[i + 1..];
        Assoc(radio.calls, TurnCalls(c, samples, radio.gain, script[i]),
              Calls(c, Next(samples, script[i]), radio.gain, script[i + 1..]));
        samples := Pass(c, buffer, samples, script[i]);
      }
      run := false;
    }
  }
}
