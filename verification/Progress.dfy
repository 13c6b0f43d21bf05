/**
 The interleaved machine of module Capture can always go on: whatever state it is in, the steps of
 the receive worker finish the results it has met, however the writer's steps fall between them,
 and the writer's steps copy what is published. So the machine can record every run.
 */
module Progress {
  import opened Words
  import opened Ring
  import opened RxSpec
  import opened Capture

  /** A schedule carried out from a given state. */
  ghost function Steps(cfg: Config, ch: nat, s: State, acts: seq<Action>): (s': State)
    requires ValidConfig(cfg) && ch < cfg.channels && |s.phys| == cfg.size
    ensures |s'.phys| == cfg.size
    decreases |acts|
  {
    if acts == [] then s else Steps(cfg, ch, Apply(cfg, ch, s, acts[0]), acts[1..])
  }

  lemma {:induction false} StepsJoin(cfg: Config, ch: nat, s: State, first: seq<Action>, second: seq<Action>)
    requires ValidConfig(cfg) && ch < cfg.channels && |s.phys| == cfg.size
    ensures Steps(cfg, ch, s, first + second) == Steps(cfg, ch, Steps(cfg, ch, s, first), second)
    decreases |first|
  {
    if first == [] {
      assert first + second == second;
    } else {
      StepsJoin(cfg, ch, Apply(cfg, ch, s, first[0]), first[1..], second);
      assert (first + second)[1..] == first[1..] + second;
    }
  }

  lemma {:induction false} OneStep(cfg: Config, ch: nat, s: State, a: Action)
    requires ValidConfig(cfg) && ch < cfg.channels && |s.phys| == cfg.size
    ensures Steps(cfg, ch, s, [a]) == Apply(cfg, ch, s, a)
  {
    assert [a][1..] == [];
  }

  lemma {:induction false} ExecNext(cfg: Config, ch: nat, schedule: seq<Action>, a: Action)
    requires ValidConfig(cfg) && ch < cfg.channels
    ensures Exec(cfg, ch, schedule + [a]) == Apply(cfg, ch, Exec(cfg, ch, schedule), a)
  {
    assert (schedule + [a])[..|schedule|] == schedule;
  }

  lemma {:induction false} FirstApart(schedule: seq<Action>, acts: seq<Action>)
    requires acts != []
    ensures schedule + acts == schedule + [acts[0]] + acts[1..]
  {
  }

  lemma {:induction false} ExecJoin(cfg: Config, ch: nat, schedule: seq<Action>, acts: seq<Action>)
    requires ValidConfig(cfg) && ch < cfg.channels
    ensures Exec(cfg, ch, schedule + acts) == Steps(cfg, ch, Exec(cfg, ch, schedule), acts)
    decreases |acts|
  {
    if acts == [] {
      assert schedule + acts == schedule;
    } else {
      ExecNext(cfg, ch, schedule, acts[0]);
      ExecJoin(cfg, ch, schedule + [acts[0]], acts[1..]);
      FirstApart(schedule, acts);
    }
  }

  ghost predicate Sound(cfg: Config, ch: nat, s: State)
    requires ValidConfig(cfg)
  {
    ch < cfg.channels && RingInv(cfg, s) && RxInv(cfg, ch, s)
  }

  lemma {:induction false} StaysSound(cfg: Config, ch: nat, s: State, acts: seq<Action>)
    requires ValidConfig(cfg) && Sound(cfg, ch, s)
    ensures Sound(cfg, ch, Steps(cfg, ch, s, acts))
    decreases |acts|
  {
    if acts != [] {
      RingKept(cfg, ch, s, acts[0]);
      RxKept(cfg, ch, s, acts[0]);
      StaysSound(cfg, ch, Apply(cfg, ch, s, acts[0]), acts[1..]);
    }
  }

  // ---- The receive worker ----

  /** The cells of a chunk, written one after the other. */
  function Writes(n: nat): (acts: seq<Action>)
    ensures |acts| == n
  {
    seq(n, k requires 0 <= k => RxWrite(k))
  }

  predicate ReceiveSteps(acts: seq<Action>) {
    forall i :: 0 <= i < |acts| ==> !WriterStep(acts[i])
  }

  lemma {:induction false} WritesDone(cfg: Config, ch: nat, s: State, n: nat)
    requires ValidConfig(cfg) && ch < cfg.channels && |s.phys| == cfg.size && s.rx.Write? && n <= |s.rx.chunk|
    ensures var s' := Steps(cfg, ch, s, Writes(n));
            && s'.rx.Write? && s' == s.(phys := s'.phys, rx := s.rx.(done := s'.rx.done))
            && forall k: nat :: k < n ==> k in s'.rx.done
  {
    if n > 0 {
      WritesDone(cfg, ch, s, n - 1);
      StepsJoin(cfg, ch, s, Writes(n - 1), [RxWrite(n - 1)]);
      OneStep(cfg, ch, Steps(cfg, ch, s, Writes(n - 1)), RxWrite(n - 1));
      assert Writes(n) == Writes(n - 1) + [RxWrite(n - 1)];
    }
  }

  /** A granted chunk is written and published. */
  lemma {:induction false} ChunkPublished(cfg: Config, ch: nat, s: State) returns (acts: seq<Action>)
    requires ValidConfig(cfg) && ch < cfg.channels && |s.phys| == cfg.size && s.rx.Write?
    ensures ReceiveSteps(acts)
    ensures var s' := Steps(cfg, ch, s, acts);
            && s'.rx == Fill(s.rx.pad, s.rx.data, s.rx.nextAfter, s.rx.contAfter)
            && s'.head == s.head + |s.rx.chunk| && s'.stream == s.stream + s.rx.chunk
            && s'.events == s.events && s'.run == s.run
  {
    var n := |s.rx.chunk|;
    WritesDone(cfg, ch, s, n);
    var w := Steps(cfg, ch, s, Writes(n));
    StepsJoin(cfg, ch, s, Writes(n), [RxProduce]);
    OneStep(cfg, ch, w, RxProduce);
    acts := Writes(n) + [RxProduce];
  }

  /** Everything still to be placed is placed, around the ring's end as often as needed. */
  lemma {:induction false} FillFinished(cfg: Config, ch: nat, s: State) returns (acts: seq<Action>)
    requires ValidConfig(cfg) && ch < cfg.channels && |s.phys| == cfg.size && s.rx.Fill?
    ensures ReceiveSteps(acts)
    ensures var s' := Steps(cfg, ch, s, acts);
            s'.rx.Top? && s'.events == s.events && s'.run == s.run
    decreases s.rx.pad + |s.rx.data|
  {
    OneStep(cfg, ch, s, RxLoop);
    var a := Apply(cfg, ch, s, RxLoop);
    if a.rx.Top? {
      return [RxLoop];
    }
    var chunk := ChunkPublished(cfg, ch, a);
    var b := Steps(cfg, ch, a, chunk);
    var rest := FillFinished(cfg, ch, b);
    StepsJoin(cfg, ch, s, [RxLoop], chunk + rest);
    StepsJoin(cfg, ch, a, chunk, rest);
    acts := [RxLoop] + (chunk + rest);
  }

  /** From any state in the middle of placing samples, the worker gets back to the head of its loop. */
  lemma {:induction false} PlacingFinished(cfg: Config, ch: nat, s: State) returns (acts: seq<Action>)
    requires ValidConfig(cfg) && ch < cfg.channels && |s.phys| == cfg.size
    ensures ReceiveSteps(acts)
    ensures var s' := Steps(cfg, ch, s, acts);
            && (s'.rx.Top? || s'.rx.Halted? || (s'.rx.Granted? && s == s'))
            && s'.events == s.events && s'.run == s.run
  {
    if s.rx.Write? {
      var chunk := ChunkPublished(cfg, ch, s);
      var rest := FillFinished(cfg, ch, Steps(cfg, ch, s, chunk));
      StepsJoin(cfg, ch, s, chunk, rest);
      acts := chunk + rest;
    } else if s.rx.Fill? {
      acts := FillFinished(cfg, ch, s);
    } else {
      acts := [];
    }
  }

  /** At the head of the loop, whatever result recv() returns next is met. */
  lemma {:induction false} ResultMet(cfg: Config, ch: nat, s: State, ev: Recv) returns (acts: seq<Action>)
    requires ValidConfig(cfg) && Sound(cfg, ch, s) && (s.rx.Top? || s.rx.Granted?) && s.run
    requires Proper(cfg, s.events + [ev])
    ensures ReceiveSteps(acts)
    ensures var s' := Steps(cfg, ch, s, acts); s'.events == s.events + [ev] && !s'.rx.Granted?
  {
    var before := s;
    acts := [];
    if s.rx.Top? && s.contiguous > 0 {
      acts := [RxGrant];
      OneStep(cfg, ch, s, RxGrant);
      before := Apply(cfg, ch, s, RxGrant);
      assert before.rx.Granted?;
    }
    assert before == Steps(cfg, ch, s, acts);
    StepsJoin(cfg, ch, s, acts, [RxRecv(ev)]);
    OneStep(cfg, ch, before, RxRecv(ev));
    assert WellFormed(cfg, (s.events + [ev])[|s.events|]);
    acts := acts + [RxRecv(ev)];
  }

  /**
     From any state of any run, the receive worker finishes what it is about, meets the next result,
     and places all that belongs to it: it ends at the head of its loop, or has stopped, with the
     variables and the stream its specification calls for.
   */
  lemma {:induction false} ReceiveFinishes(cfg: Config, ch: nat, s: State, ev: Recv) returns (acts: seq<Action>)
    requires ValidConfig(cfg) && Sound(cfg, ch, s) && s.run && Proper(cfg, s.events + [ev])
    ensures ReceiveSteps(acts)
    ensures var s' := Steps(cfg, ch, s, acts);
            && (s'.rx.Top? || s'.rx.Halted?) && s'.events == s.events + [ev]
            && View(s') == Run(cfg, ch, s.events + [ev])
  {
    var first := PlacingFinished(cfg, ch, s);
    var a := Steps(cfg, ch, s, first);
    StaysSound(cfg, ch, s, first);
    var second := ResultMet(cfg, ch, a, ev);
    var b := Steps(cfg, ch, a, second);
    StaysSound(cfg, ch, a, second);
    var third := PlacingFinished(cfg, ch, b);
    var c := Steps(cfg, ch, b, third);
    StaysSound(cfg, ch, b, third);
    acts := first + (second + third);
    StepsJoin(cfg, ch, s, first, second + third);
    StepsJoin(cfg, ch, a, second, third);
  }

  // ---- Under any interleaving ----

  /** The two threads' shares of a state agree in all that the receive worker can see. */
  predicate SameReceiver(s: State, t: State) {
    && s.phys == t.phys && s.head == t.head && s.clob == t.clob && s.rx == t.rx
    && s.next == t.next && s.contiguous == t.contiguous && s.run == t.run
    && s.events == t.events && s.stream == t.stream
  }

  function OnlyReceive(acts: seq<Action>): (r: seq<Action>)
    ensures ReceiveSteps(r)
  {
    if acts == [] then []
    else (if WriterStep(acts[0]) then [] else [acts[0]]) + OnlyReceive(acts[1..])
  }

  lemma {:induction false} SameStep(cfg: Config, ch: nat, s: State, t: State, a: Action)
    requires ValidConfig(cfg) && ch < cfg.channels && |s.phys| == cfg.size && SameReceiver(s, t)
    ensures !WriterStep(a) ==> SameReceiver(Apply(cfg, ch, s, a), Apply(cfg, ch, t, a))
    ensures WriterStep(a) ==> SameReceiver(Apply(cfg, ch, s, a), t)
  {
    if WriterStep(a) {
      WriterLeavesNoTrace(cfg, ch, s, a);
    } else if a.RxRecv? {
      SameRecv(cfg, ch, s, t, a.ev);
    } else {
      SameReceiveStep(cfg, ch, s, t, a);
    }
  }

  lemma {:induction false} SameRecv(cfg: Config, ch: nat, s: State, t: State, ev: Recv)
    requires ValidConfig(cfg) && ch < cfg.channels && |s.phys| == cfg.size && SameReceiver(s, t)
    ensures SameReceiver(Apply(cfg, ch, s, RxRecv(ev)), Apply(cfg, ch, t, RxRecv(ev)))
  {
    assert View(s) == View(t);
  }

  lemma {:induction false} SameReceiveStep(cfg: Config, ch: nat, s: State, t: State, a: Action)
    requires ValidConfig(cfg) && ch < cfg.channels && |s.phys| == cfg.size && SameReceiver(s, t)
    requires !WriterStep(a) && !a.RxRecv?
    ensures SameReceiver(Apply(cfg, ch, s, a), Apply(cfg, ch, t, a))
  {
  }

  /** Whatever the writer does in between, the receive steps of a schedule have the same effect. */
  lemma {:induction false} WriterDoesNotMatter(cfg: Config, ch: nat, s: State, t: State, acts: seq<Action>)
    requires ValidConfig(cfg) && ch < cfg.channels && |s.phys| == cfg.size && SameReceiver(s, t)
    ensures SameReceiver(Steps(cfg, ch, s, acts), Steps(cfg, ch, t, OnlyReceive(acts)))
    decreases |acts|
  {
    if acts != [] {
      var a := acts[0];
      SameStep(cfg, ch, s, t, a);
      if WriterStep(a) {
        WriterDoesNotMatter(cfg, ch, Apply(cfg, ch, s, a), t, acts[1..]);
        assert OnlyReceive(acts) == OnlyReceive(acts[1..]);
      } else {
        WriterDoesNotMatter(cfg, ch, Apply(cfg, ch, s, a), Apply(cfg, ch, t, a), acts[1..]);
        StepsJoin(cfg, ch, t, [a], OnlyReceive(acts[1..]));
        OneStep(cfg, ch, t, a);
      }
    }
  }

  /**
     No deadlock and no lost work: in every reachable state, for every result the worker can meet
     next, there are receive steps that finish what is under way and place all that belongs to that
     result, and they do so under every interleaving with the writer.
   */
  lemma {:induction false} ReceiverProgress(cfg: Config, ch: nat, schedule: seq<Action>, ev: Recv)
      returns (acts: seq<Action>)
    requires ValidConfig(cfg) && ch < cfg.channels
    requires var s := Exec(cfg, ch, schedule); s.run && Proper(cfg, s.events + [ev])
    ensures ReceiveSteps(acts)
    ensures forall more :: OnlyReceive(more) == acts ==>
              var s, s' := Exec(cfg, ch, schedule), Exec(cfg, ch, schedule + more);
              && (s'.rx.Top? || s'.rx.Halted?) && s'.events == s.events + [ev]
              && View(s') == Run(cfg, ch, s.events + [ev])
  {
    var s := Exec(cfg, ch, schedule);
    Reachable(cfg, ch, schedule);
    acts := ReceiveFinishes(cfg, ch, s, ev);
    forall more | OnlyReceive(more) == acts
      ensures var s' := Exec(cfg, ch, schedule + more);
              && (s'.rx.Top? || s'.rx.Halted?) && s'.events == s.events + [ev]
              && View(s') == Run(cfg, ch, s.events + [ev])
    {
      ExecJoin(cfg, ch, schedule, more);
      WriterDoesNotMatter(cfg, ch, s, s, more);
    }
  }

  /** Once the stop flag has fallen, further results change nothing. */
  lemma {:induction false} RunStays(cfg: Config, ch: nat, events: seq<Recv>, ev: Recv)
    requires Proper(cfg, events + [ev]) && Proper(cfg, events) && ch < cfg.channels && !Run(cfg, ch, events).run
    ensures Run(cfg, ch, events + [ev]) == Run(cfg, ch, events)
  {
    assert (events + [ev])[..|events|] == events;
    assert WellFormed(cfg, (events + [ev])[|events|]);
  }

  /** The worker has met the whole script, and a recording is open at a given index. */
  ghost predicate Happened(cfg: Config, ch: nat, script: seq<Recv>, at: nat, s: State)
    requires Proper(cfg, script) && ch < cfg.channels
  {
    && (s.rx.Top? || s.rx.Halted?) && View(s) == Run(cfg, ch, script)
    && s.wr.Ready? && s.tail == s.tail0 == at && s.file == []
    && (s.run ==> s.events == script)
  }

  /**
     Every run can happen: for each script of results, and each index a recording may start at,
     some schedule opens the recording there and leaves the stream the whole script calls for.
   */
  lemma {:induction false} EveryRunHappens(cfg: Config, ch: nat, script: seq<Recv>, at: nat)
      returns (schedule: seq<Action>)
    requires Proper(cfg, script) && ch < cfg.channels && 0 < at < TWO63
    ensures Happened(cfg, ch, script, at, Exec(cfg, ch, schedule))
  {
    if script == [] {
      schedule := [WrOpen(at)];
      Opens(cfg, ch, at);
    } else {
      var k := |script| - 1;
      ProperPrefix(cfg, script, k);
      assert script == script[..k] + [script[k]];
      var first := EveryRunHappens(cfg, ch, script[..k], at);
      schedule := NextHappens(cfg, ch, script[..k], at, first, script[k]);
    }
  }

  lemma {:induction false} Opens(cfg: Config, ch: nat, at: nat)
    requires Proper(cfg, []) && ch < cfg.channels && 0 < at < TWO63
    ensures Happened(cfg, ch, [], at, Exec(cfg, ch, [WrOpen(at)]))
  {
    assert [WrOpen(at)][..0] == [];
    assert Exec(cfg, ch, [WrOpen(at)]) == Apply(cfg, ch, Start(cfg), WrOpen(at));
  }

  lemma {:induction false} NextHappens(
      cfg: Config, ch: nat, before: seq<Recv>, at: nat, first: seq<Action>, ev: Recv)
      returns (schedule: seq<Action>)
    requires Proper(cfg, before) && Proper(cfg, before + [ev]) && ch < cfg.channels
    requires Happened(cfg, ch, before, at, Exec(cfg, ch, first))
    ensures Happened(cfg, ch, before + [ev], at, Exec(cfg, ch, schedule))
  {
    var s := Exec(cfg, ch, first);
    if s.run {
      var acts := ReceiverProgress(cfg, ch, first, ev);
      OnlyReceiveKeeps(acts);
      schedule := first + acts;
      Undisturbed(cfg, ch, first, acts);
    } else {
      RunStays(cfg, ch, before, ev);
      schedule := first;
    }
  }

  lemma {:induction false} Undisturbed(cfg: Config, ch: nat, first: seq<Action>, acts: seq<Action>)
    requires ValidConfig(cfg) && ch < cfg.channels && ReceiveSteps(acts)
    ensures var s, s' := Exec(cfg, ch, first), Exec(cfg, ch, first + acts);
            s'.wr == s.wr && s'.tail == s.tail && s'.tail0 == s.tail0 && s'.written == s.written && s'.file == s.file
  {
    Reachable(cfg, ch, first);
    ExecJoin(cfg, ch, first, acts);
    WriterUntouched(cfg, ch, Exec(cfg, ch, first), acts);
  }

  lemma {:induction false} OnlyReceiveKeeps(acts: seq<Action>)
    requires ReceiveSteps(acts)
    ensures OnlyReceive(acts) == acts
  {
    if acts != [] {
      OnlyReceiveKeeps(acts[1..]);
    }
  }

  lemma {:induction false} WriterUntouched(cfg: Config, ch: nat, s: State, acts: seq<Action>)
    requires ValidConfig(cfg) && Sound(cfg, ch, s) && ReceiveSteps(acts)
    ensures var s' := Steps(cfg, ch, s, acts);
            s'.wr == s.wr && s'.tail == s.tail && s'.tail0 == s.tail0 && s'.written == s.written && s'.file == s.file
    decreases |acts|
  {
    if acts != [] {
      RxProgress(cfg, ch, s, acts[0]);
      RingKept(cfg, ch, s, acts[0]);
      RxKept(cfg, ch, s, acts[0]);
      WriterUntouched(cfg, ch, Apply(cfg, ch, s, acts[0]), acts[1..]);
    }
  }

  // ---- The writer ----

  function Reads(n: nat): (acts: seq<Action>)
    ensures |acts| == n
  {
    seq(n, k requires 0 <= k => WrRead(k))
  }

  lemma {:induction false} ReadsDone(cfg: Config, ch: nat, s: State, n: nat)
    requires ValidConfig(cfg) && ch < cfg.channels && |s.phys| == cfg.size && s.wr.Copying? && n <= s.wr.n
    ensures var s' := Steps(cfg, ch, s, Reads(n));
            && s'.wr.Copying? && s' == s.(wr := s'.wr) && s'.wr.n == s.wr.n
            && forall k: nat :: k < n ==> k in s'.wr.got
  {
    if n > 0 {
      ReadsDone(cfg, ch, s, n - 1);
      StepsJoin(cfg, ch, s, Reads(n - 1), [WrRead(n - 1)]);
      OneStep(cfg, ch, Steps(cfg, ch, s, Reads(n - 1)), WrRead(n - 1));
      assert Reads(n) == Reads(n - 1) + [WrRead(n - 1)];
    }
  }

  /** A published block is copied up to the block size or the ring's end. */
  lemma {:induction false} BlockCopied(cfg: Config, ch: nat, s: State) returns (acts: seq<Action>, n: nat)
    requires ValidConfig(cfg) && ch < cfg.channels && |s.phys| == cfg.size
    requires s.wr.Ready? && s.tail + BLOCK <= s.head && s.tail + BLOCK < TWO64
    ensures 0 < n <= BLOCK && s.tail % cfg.size + n <= cfg.size
    ensures n == BLOCK || s.tail % cfg.size + n == cfg.size
    ensures var c := Steps(cfg, ch, s, acts);
            && c.wr == Check(n) && c.tail == s.tail && c.written == s.written && s.file <= c.file
            && c.clob == s.clob && c.stream == s.stream
  {
    SlotIsMod(s.tail, cfg.size);
    n := Clip(s.tail, BLOCK, cfg.size);
    WrapFits(s.tail + BLOCK);
    OneStep(cfg, ch, s, WrSpan);
    var a := Apply(cfg, ch, s, WrSpan);
    ReadsDone(cfg, ch, a, n);
    var b := Steps(cfg, ch, a, Reads(n));
    OneStep(cfg, ch, b, WrReturn(n));
    StepsJoin(cfg, ch, s, [WrSpan], Reads(n) + [WrReturn(n)]);
    StepsJoin(cfg, ch, a, Reads(n), [WrReturn(n)]);
    acts := [WrSpan] + (Reads(n) + [WrReturn(n)]);
  }

  /**
     A published block can be recorded: it reaches to the block size or to the ring's end, and if it
     has not been overtaken the file grows by exactly the stream's samples.
   */
  lemma {:induction false} WriterProgress(cfg: Config, ch: nat, schedule: seq<Action>, cut: nat)
      returns (acts: seq<Action>, n: nat)
    requires ValidConfig(cfg) && ch < cfg.channels
    requires var s := Exec(cfg, ch, schedule); s.wr.Ready? && s.tail + BLOCK <= s.head
    ensures var s := Exec(cfg, ch, schedule);
            && 0 < n <= 1048576 && s.tail % cfg.size + n <= cfg.size
            && (n == 1048576 || s.tail % cfg.size + n == cfg.size)
    ensures BlockRecorded(cfg, Exec(cfg, ch, schedule), Exec(cfg, ch, schedule + acts), n, cut)
  {
    var s := Exec(cfg, ch, schedule);
    Reachable(cfg, ch, schedule);
    TailInRange(cfg, ch, s);
    var copy;
    copy, n := BlockCopied(cfg, ch, s);
    ExecJoin(cfg, ch, schedule, copy);
    BlockChecked(cfg, ch, schedule + copy, s, n, cut);
    ExecJoin(cfg, ch, schedule + copy, [WrCheck(cut)]);
    OneStep(cfg, ch, Exec(cfg, ch, schedule + copy), WrCheck(cut));
    acts := copy + [WrCheck(cut)];
    assert schedule + acts == schedule + copy + [WrCheck(cut)];
  }

  /** What the check makes of a block of n samples copied from state s on. */
  ghost predicate BlockRecorded(cfg: Config, s: State, d: State, n: nat, cut: nat) {
    && s.tail + n <= |s.stream|
    && (if s.clob <= s.tail + cfg.size then
          && d.wr.Ready? && d.tail == s.tail + n && d.written == s.written + n
          && d.file == s.file + s.stream[s.tail..s.tail + n]
        else d.wr == TooLate(cut))
  }

  lemma {:induction false} BlockChecked(cfg: Config, ch: nat, schedule: seq<Action>, s: State, n: nat, cut: nat)
    requires ValidConfig(cfg) && ch < cfg.channels
    requires var c := Exec(cfg, ch, schedule);
             && c.wr == Check(n) && c.tail == s.tail && c.written == s.written == |s.file| && s.file <= c.file
             && c.clob == s.clob && c.stream == s.stream
    ensures BlockRecorded(cfg, s, Apply(cfg, ch, Exec(cfg, ch, schedule), WrCheck(cut)), n, cut)
  {
    ClobberCheckSound(cfg, ch, schedule, cut);
    var c := Exec(cfg, ch, schedule);
    assert c.file == s.file + c.file[s.written..];
  }

  // ---- Ends ----

  /** fwrite() reporting an error ends the recording as it stands. */
  lemma {:induction false} ErrorEnds(cfg: Config, ch: nat, s: State)
    requires ValidConfig(cfg) && ch < cfg.channels && |s.phys| == cfg.size && s.wr.Copying?
    ensures Apply(cfg, ch, s, WrError) == s.(wr := Failed)
  {
  }

  /** A recording that has ended stays as it is, whatever either thread does. */
  lemma {:induction false} EndedForGood(cfg: Config, ch: nat, s: State, acts: seq<Action>)
    requires ValidConfig(cfg) && Sound(cfg, ch, s) && (s.wr.Failed? || s.wr.TooLate?)
    ensures var s' := Steps(cfg, ch, s, acts); s'.wr == s.wr && s'.file == s.file && s'.written == s.written
    decreases |acts|
  {
    if acts != [] {
      RingKept(cfg, ch, s, acts[0]);
      RxKept(cfg, ch, s, acts[0]);
      if !WriterStep(acts[0]) {
        RxProgress(cfg, ch, s, acts[0]);
      }
      EndedForGood(cfg, ch, Apply(cfg, ch, s, acts[0]), acts[1..]);
    }
  }

  /** A receive worker that has stopped publishes and overwrites nothing more. */
  lemma {:induction false} StoppedForGood(cfg: Config, ch: nat, s: State, acts: seq<Action>)
    requires ValidConfig(cfg) && Sound(cfg, ch, s) && !s.run
    ensures SameReceiver(s, Steps(cfg, ch, s, acts))
    decreases |acts|
  {
    if acts != [] {
      RingKept(cfg, ch, s, acts[0]);
      RxKept(cfg, ch, s, acts[0]);
      SameStep(cfg, ch, s, s, acts[0]);
      StoppedForGood(cfg, ch, Apply(cfg, ch, s, acts[0]), acts[1..]);
    }
  }
}
