/**
 One channel of receive worker, ring buffer and file writer (src/rx.cpp, src/ringbuf.hpp,
 src/wr.cpp) as two threads without a lock: every access to shared memory, down to the single
 sample, is a step of its own, and a schedule interleaves the steps in any way. Atomics are
 sequentially consistent.
 */
module Capture {
  import opened Words
  import opened Ring
  import opened RxSpec

  /** WR_BLOCK_SAMPLES: 4 MiB of 4-byte samples. */
  const BLOCK: nat := 4 * 1024 * 1024 / 4

  /** Where the receive worker stands. */
  datatype RxPc =
    | Top                 // at the head of the main loop
    | Granted(n: nat)     // span granted for a contiguous receive, recv() not yet returned
    | Fill(pad: nat, data: seq<Sample>, nextAfter: nat, contAfter: nat)
                          // pad zeros and then data still to be placed
    | Write(chunk: seq<Sample>, done: set<nat>, pad: nat, data: seq<Sample>, nextAfter: nat, contAfter: nat)
                          // chunk is being written to the granted span, in any order
    | Halted

  /** Where the file writer stands. */
  datatype WrPc =
    | Closed
    | Ready
    | Copying(n: nat, got: map<nat, Sample>)   // fwrite() has read the cells in got
    | Check(r: nat)                            // fwrite() reported r samples
    | Failed                                   // fwrite() reported an error
    | TooLate(cut: nat)                        // the check failed; the file was resized to cut samples

  datatype State = State(
    phys: seq<Sample>, head: nat, clob: nat,                      // shared memory
    rx: RxPc, next: nat, contiguous: nat, run: bool,              // receive worker
    wr: WrPc, tail: nat, written: nat, file: seq<Sample>,         // file writer
    events: seq<Recv>, stream: seq<Sample>, tail0: nat)           // history

  datatype Action =
    | RxGrant | RxRecv(ev: Recv) | RxLoop | RxWrite(k: nat) | RxProduce
    | WrOpen(at: nat) | WrSpan | WrRead(k: nat) | WrReturn(r: nat) | WrError | WrCheck(cut: nat)

  function Start(cfg: Config): State {
    State(Zeros(cfg.size), 0, 0, Top, cfg.start, 0, true, Closed, 0, 0, [], [], [], 0)
  }

  function View(s: State): RxState {
    RxState(s.next, s.contiguous, s.run, s.stream)
  }

  /** std::filesystem::resize_file */
  function Resize(file: seq<Sample>, n: nat): (f: seq<Sample>)
    ensures |f| == n
  {
    if n <= |file| then file[..n] else file + Zeros(n - |file|)
  }

  /** get_clobber_distance: the 64-bit difference read as signed. */
  function ClobberDistance(tail: nat, size: nat, clob: nat): int {
    Signed64(Wrap64(tail + size - clob))
  }

  ghost function OnRecv(cfg: Config, ch: nat, s: State, ev: Recv): State
    requires PowerOfTwo(cfg.size) && ch < cfg.channels && WellFormed(cfg, ev)
  {
    var s := s.(events := s.events + [ev]);
    match ev
    case Failure(code) =>
      if code == NoError then s.(rx := Top)
      else if code == Overflow then s.(rx := Top, contiguous := 0)
      else s.(rx := Halted, run := false)
    case Packet(ts, _) =>
      var n := Received(cfg, View(s), ev);
      if s.contiguous > 0 then
        s.(rx := Write(Taken(cfg, ch, View(s), ev), {}, 0, [], s.next + n, s.contiguous + n))
      else if Lost(View(s), ts) > cfg.rate then
        s.(rx := Halted, run := false)
      else
        s.(rx := Fill(Lost(View(s), ts), Taken(cfg, 0, View(s), ev), ts + n, s.contiguous + n))
  }

  /** The next round of the padding and copy loops: grant a span for what is left, or finish. */
  ghost function OnLoop(cfg: Config, s: State): State
    requires PowerOfTwo(cfg.size) && s.rx.Fill?
  {
    var Fill(pad, data, nextAfter, contAfter) := s.rx;
    if pad > 0 then
      var n := Clip(s.head, pad, cfg.size);
      s.(clob := s.head + n, rx := Write(Zeros(n), {}, pad - n, data, nextAfter, contAfter))
    else if |data| > 0 then
      var n := Clip(s.head, |data|, cfg.size);
      s.(clob := s.head + n, rx := Write(data[..n], {}, 0, data[n..], nextAfter, contAfter))
    else
      s.(rx := Top, next := nextAfter, contiguous := contAfter)
  }

  /** `cut` is the count the file is resized to: the writer keeps one for all channels. */
  ghost function OnCheck(cfg: Config, s: State, cut: nat): State
    requires s.wr.Check?
  {
    if ClobberDistance(s.tail, cfg.size, s.clob) < 0 then
      s.(wr := TooLate(cut), file := Resize(s.file, cut))
    else
      s.(wr := Ready, tail := s.tail + s.wr.r, written := s.written + s.wr.r)
  }

  /** One step. An action that is not possible where its thread stands changes nothing. */
  ghost function Apply(cfg: Config, ch: nat, s: State, a: Action): State
    requires ValidConfig(cfg) && ch < cfg.channels && |s.phys| == cfg.size
  {
    match a
    case RxGrant =>
      if s.rx.Top? && s.run && s.contiguous > 0 then
        var n := Clip(s.head, cfg.maxSamps, cfg.size);
        s.(clob := s.head + n, rx := Granted(n))
      else s
    case RxRecv(ev) =>
      if s.run && (s.rx.Granted? || (s.rx.Top? && s.contiguous == 0)) && Proper(cfg, s.events + [ev])
      then
        assert WellFormed(cfg, (s.events + [ev])[|s.events|]);
        OnRecv(cfg, ch, s, ev)
      else s
    case RxLoop =>
      if s.rx.Fill? then OnLoop(cfg, s) else s
    case RxWrite(k) =>
      if s.rx.Write? && k < |s.rx.chunk| then
        s.(phys := s.phys[Slot(s.head + k, cfg.size) := s.rx.chunk[k]], rx := s.rx.(done := s.rx.done + {k}))
      else s
    case RxProduce =>
      if s.rx.Write? && (forall k: nat :: k < |s.rx.chunk| ==> k in s.rx.done) then
        s.(head := s.head + |s.rx.chunk|, stream := s.stream + s.rx.chunk,
           rx := Fill(s.rx.pad, s.rx.data, s.rx.nextAfter, s.rx.contAfter))
      else s
    case WrOpen(at) =>
      if s.wr.Closed? && s.clob < at < TWO63 then
        s.(wr := Ready, tail := at, tail0 := at)
      else s
    case WrSpan =>
      if s.wr.Ready? && Wrap64(s.tail + BLOCK) <= s.head then
        s.(wr := Copying(Clip(s.tail, BLOCK, cfg.size), map[]))
      else s
    case WrRead(k) =>
      if s.wr.Copying? && k < s.wr.n then
        s.(wr := s.wr.(got := s.wr.got[k := s.phys[Slot(s.tail + k, cfg.size)]]))
      else s
    case WrReturn(r) =>
      if s.wr.Copying? && 0 < r <= s.wr.n && (forall k: nat :: k < r ==> k in s.wr.got) then
        s.(wr := Check(r), file := s.file + Block(s.wr.got, r))
      else s
    case WrError =>
      if s.wr.Copying? then s.(wr := Failed) else s
    case WrCheck(cut) =>
      if s.wr.Check? then OnCheck(cfg, s, cut) else s
  }

  ghost function Block(got: map<nat, Sample>, r: nat): (b: seq<Sample>)
    requires forall k: nat :: k < r ==> k in got
  {
    seq(r, k requires 0 <= k < r => got[k])
  }

  ghost function Exec(cfg: Config, ch: nat, schedule: seq<Action>): (s: State)
    requires ValidConfig(cfg) && ch < cfg.channels
    ensures |s.phys| == cfg.size
  {
    if schedule == [] then Start(cfg)
    else
      var k := |schedule| - 1;
      Apply(cfg, ch, Exec(cfg, ch, schedule[..k]), schedule[k])
  }

  // ---- Invariant ----

  function Done(rx: RxPc): set<nat> {
    if rx.Write? then rx.done else {}
  }

  /** How far beyond head the producer is committed to write. */
  function Reach(rx: RxPc): nat {
    if rx.Write? then |rx.chunk| else 0
  }

  /**
     The ring refines the stream: a published sample is in its cell until the producer, in the
     span it was granted last, overwrites that very cell. `clob` is never behind what may have
     been overwritten, although a later, smaller grant can lower it.
   */
  ghost predicate RingInv(cfg: Config, s: State)
    requires ValidConfig(cfg)
  {
    && |s.phys| == cfg.size && s.head == |s.stream|
    && s.head + Reach(s.rx) <= s.clob <= s.head + cfg.size
    && (s.rx.Granted? ==> s.rx.n == Clip(s.head, cfg.maxSamps, cfg.size) && s.clob == s.head + s.rx.n)
    && (forall k :: k in Done(s.rx) ==> k < |s.rx.chunk| && s.phys[Slot(s.head + k, cfg.size)] == s.rx.chunk[k])
    && Window(cfg, s)
  }

  ghost predicate Window(cfg: Config, s: State)
    requires ValidConfig(cfg) && |s.phys| == cfg.size && s.head == |s.stream|
  {
    forall i: nat :: i < s.head <= i + cfg.size && i + cfg.size - s.head !in Done(s.rx)
      ==> s.phys[Slot(i, cfg.size)] == s.stream[i]
  }

  /** What the worker has placed and still has to place is what its results so far call for. */
  ghost predicate RxInv(cfg: Config, ch: nat, s: State)
  {
    && ch < cfg.channels && Proper(cfg, s.events) && (s.rx.Halted? <==> !s.run)
    && (match s.rx
        case Fill(pad, data, nextAfter, contAfter) =>
          s.run && Run(cfg, ch, s.events) == RxState(nextAfter, contAfter, true, s.stream + (Zeros(pad) + data))
        case Write(chunk, _, pad, data, nextAfter, contAfter) =>
          && s.run
          && Run(cfg, ch, s.events) == RxState(nextAfter, contAfter, true, s.stream + (chunk + (Zeros(pad) + data)))
        case Granted(_) => s.contiguous > 0 && View(s) == Run(cfg, ch, s.events)
        case _ => View(s) == Run(cfg, ch, s.events))
  }

  /** x is the published sample i, or the producer's commitment has since gone past i by a ring length. */
  ghost predicate GoodOrLate(cfg: Config, s: State, x: Sample, i: nat) {
    i < |s.stream| && (x == s.stream[i] || i + cfg.size < s.head + Reach(s.rx))
  }

  /** The first n samples of a file are the stream from tail0 on. */
  ghost predicate Checked(file: seq<Sample>, n: nat, stream: seq<Sample>, tail0: nat) {
    n <= |file| && (n == 0 || tail0 + n <= |stream|) && forall j: nat :: j < n ==> file[j] == stream[tail0 + j]
  }

  /** Checked samples that are still in the file: all of them, unless it was cut shorter. */
  function Kept(s: State): nat {
    if s.wr.TooLate? && s.wr.cut < s.written then s.wr.cut else s.written
  }

  ghost predicate CopyInv(cfg: Config, s: State, n: nat, got: map<nat, Sample>) {
    forall k :: k in got ==> k < n && GoodOrLate(cfg, s, got[k], s.tail + k)
  }

  ghost predicate BlockInv(cfg: Config, s: State) {
    forall j: nat :: s.written <= j < |s.file| ==> GoodOrLate(cfg, s, s.file[j], s.tail0 + j)
  }

  /** The checked part of the file is the stream from tail0 on. */
  ghost predicate WrInv(cfg: Config, s: State)
  {
    && Checked(s.file, Kept(s), s.stream, s.tail0)
    && (if s.wr.Closed? then s.written == 0
        else s.tail == s.tail0 + s.written && s.tail0 < TWO63 && (s.written == 0 || s.tail <= |s.stream|))
    && (match s.wr
        case Copying(n, got) =>
          |s.file| == s.written && s.tail + n <= |s.stream| && CopyInv(cfg, s, n, got)
        case Check(r) =>
          |s.file| == s.written + r && s.tail + r <= |s.stream| && BlockInv(cfg, s)
        case TooLate(cut) => |s.file| == cut
        case _ => |s.file| == s.written)
  }

  ghost predicate Inv(cfg: Config, ch: nat, s: State)
    requires ValidConfig(cfg)
  {
    RingInv(cfg, s) && RxInv(cfg, ch, s) && WrInv(cfg, s)
  }

  /** Writing the cell of head + k spares every index of the last ring length but head + k - size. */
  lemma {:induction false} WriteSpares(head: nat, k: nat, i: nat, size: nat)
    requires PowerOfTwo(size) && k < size && i < head <= i + size && i + size != head + k
    ensures Slot(i, size) != Slot(head + k, size)
  {
    if head + k < i + size {
      SlotsApart(i, head + k, size);
    } else {
      SlotPeriod(i, size);
      SlotsApart(i + size, head + k, size);
    }
  }

  lemma {:induction false} WindowKeptByWrite(cfg: Config, ch: nat, s: State, k: nat)
    requires ValidConfig(cfg) && ch < cfg.channels && RingInv(cfg, s) && s.rx.Write? && k < |s.rx.chunk|
    ensures Window(cfg, Apply(cfg, ch, s, RxWrite(k)))
  {
    var s' := Apply(cfg, ch, s, RxWrite(k));
    forall i: nat | i < s.head <= i + cfg.size && i + cfg.size - s.head !in Done(s'.rx)
      ensures s'.phys[Slot(i, cfg.size)] == s.stream[i]
    {
      WriteSpares(s.head, k, i, cfg.size);
    }
  }

  lemma {:induction false} ChunkKeptByWrite(cfg: Config, s: State, k: nat, j: nat)
    requires ValidConfig(cfg) && RingInv(cfg, s) && s.rx.Write? && k < |s.rx.chunk|
    requires j == k || j in Done(s.rx)
    ensures j < |s.rx.chunk|
    ensures s.phys[Slot(s.head + k, cfg.size) := s.rx.chunk[k]][Slot(s.head + j, cfg.size)] == s.rx.chunk[j]
  {
    if j != k {
      SlotsApart(s.head + j, s.head + k, cfg.size);
    }
  }

  lemma {:induction false} RingKeptByWrite(cfg: Config, ch: nat, s: State, k: nat)
    requires ValidConfig(cfg) && ch < cfg.channels && RingInv(cfg, s)
    ensures RingInv(cfg, Apply(cfg, ch, s, RxWrite(k)))
  {
    var s' := Apply(cfg, ch, s, RxWrite(k));
    if s.rx.Write? && k < |s.rx.chunk| {
      WindowKeptByWrite(cfg, ch, s, k);
      forall j | j in Done(s'.rx)
        ensures j < |s.rx.chunk| && s'.phys[Slot(s.head + j, cfg.size)] == s.rx.chunk[j]
      {
        ChunkKeptByWrite(cfg, s, k, j);
      }
    }
  }

  lemma {:induction false} RingKeptByProduce(cfg: Config, ch: nat, s: State)
    requires ValidConfig(cfg) && ch < cfg.channels && RingInv(cfg, s)
    ensures RingInv(cfg, Apply(cfg, ch, s, RxProduce))
  {
    var s' := Apply(cfg, ch, s, RxProduce);
    if s' != s {
      forall i: nat | i < s'.head <= i + cfg.size
        ensures s'.phys[Slot(i, cfg.size)] == s'.stream[i]
      {
        if i >= s.head {
          var k: nat := i - s.head;
          assert k in Done(s.rx) && s.head + k == i;
        } else {
          assert i + cfg.size - s.head !in Done(s.rx);
        }
      }
    }
  }

  /** Steps between two writes touch neither ring nor stream. */
  lemma {:induction false} RingKeptBetweenWrites(cfg: Config, s: State, s': State)
    requires ValidConfig(cfg) && RingInv(cfg, s)
    requires s'.phys == s.phys && s'.head == s.head && s'.stream == s.stream
    requires Done(s.rx) == {} == Done(s'.rx)
    requires s'.head + Reach(s'.rx) <= s'.clob <= s'.head + cfg.size
    requires s'.rx.Granted? ==> s'.rx.n == Clip(s'.head, cfg.maxSamps, cfg.size) && s'.clob == s'.head + s'.rx.n
    ensures RingInv(cfg, s')
  {
  }

  lemma {:induction false} RingKeptByRecv(cfg: Config, ch: nat, s: State, ev: Recv)
    requires ValidConfig(cfg) && ch < cfg.channels && RingInv(cfg, s) && RxInv(cfg, ch, s)
    ensures RingInv(cfg, Apply(cfg, ch, s, RxRecv(ev)))
  {
    var s' := Apply(cfg, ch, s, RxRecv(ev));
    if s'.events != s.events {
      assert s.rx.Granted? ==> s.contiguous > 0;
      RingKeptBetweenWrites(cfg, s, s');
    }
  }

  lemma {:induction false} RingKeptByGrant(cfg: Config, ch: nat, s: State, a: Action)
    requires ValidConfig(cfg) && ch < cfg.channels && RingInv(cfg, s)
    requires a.RxGrant? || a.RxLoop?
    ensures RingInv(cfg, Apply(cfg, ch, s, a))
  {
    var s' := Apply(cfg, ch, s, a);
    if s' != s {
      RingKeptBetweenWrites(cfg, s, s');
    }
  }

  predicate WriterStep(a: Action) {
    a.WrOpen? || a.WrSpan? || a.WrRead? || a.WrReturn? || a.WrError? || a.WrCheck?
  }

  /** The writer takes no lock and leaves no trace: its steps change its own variables only. */
  lemma {:induction false} WriterLeavesNoTrace(cfg: Config, ch: nat, s: State, a: Action)
    requires ValidConfig(cfg) && ch < cfg.channels && |s.phys| == cfg.size && WriterStep(a)
    ensures var s' := Apply(cfg, ch, s, a);
            && s'.phys == s.phys && s'.head == s.head && s'.clob == s.clob && s'.rx == s.rx && View(s') == View(s)
            && s'.events == s.events && s'.stream == s.stream
  {
  }

  lemma {:induction false} RingKept(cfg: Config, ch: nat, s: State, a: Action)
    requires ValidConfig(cfg) && ch < cfg.channels && RingInv(cfg, s) && RxInv(cfg, ch, s)
    ensures RingInv(cfg, Apply(cfg, ch, s, a))
  {
    match a
    case RxWrite(k) => RingKeptByWrite(cfg, ch, s, k);
    case RxProduce => RingKeptByProduce(cfg, ch, s);
    case RxRecv(ev) => RingKeptByRecv(cfg, ch, s, ev);
    case RxGrant => RingKeptByGrant(cfg, ch, s, a);
    case RxLoop => RingKeptByGrant(cfg, ch, s, a);
    case _ => WriterLeavesNoTrace(cfg, ch, s, a);
  }

  // ---- The receive worker follows its specification ----

  lemma {:induction false} RunExtended(cfg: Config, ch: nat, events: seq<Recv>, ev: Recv)
    requires ch < cfg.channels && Proper(cfg, events + [ev])
    ensures WellFormed(cfg, ev)
    ensures forall k :: 0 <= k < |events| ==> WellFormed(cfg, events[k])
    ensures Run(cfg, ch, events + [ev]) == Step(cfg, ch, Run(cfg, ch, events), ev)
  {
    var all := events + [ev];
    assert all[..|all| - 1] == events && WellFormed(cfg, all[|events|]);
    assert forall k :: 0 <= k < |events| ==> all[k] == events[k];
  }

  lemma {:induction false} RxKeptByRecv(cfg: Config, ch: nat, s: State, ev: Recv)
    requires ValidConfig(cfg) && ch < cfg.channels && RingInv(cfg, s) && RxInv(cfg, ch, s)
    ensures RxInv(cfg, ch, Apply(cfg, ch, s, RxRecv(ev)))
  {
    if s.run && (s.rx.Granted? || (s.rx.Top? && s.contiguous == 0)) && Proper(cfg, s.events + [ev]) {
      RunExtended(cfg, ch, s.events, ev);
      ResultTaken(cfg, ch, s, ev);
    }
  }

  lemma {:induction false} ResultTaken(cfg: Config, ch: nat, s: State, ev: Recv)
    requires ValidConfig(cfg) && ch < cfg.channels && Proper(cfg, s.events + [ev]) && WellFormed(cfg, ev)
    requires s.run && Run(cfg, ch, s.events + [ev]) == Step(cfg, ch, View(s), ev)
    ensures RxInv(cfg, ch, OnRecv(cfg, ch, s, ev))
  {
    var s' := OnRecv(cfg, ch, s, ev);
    if s'.rx.Write? {
      assert s.stream + (s'.rx.chunk + (Zeros(0) + [])) == s.stream + s'.rx.chunk;
    } else if s'.rx.Fill? {
      assert s.stream + (Zeros(s'.rx.pad) + s'.rx.data) == s.stream + Zeros(s'.rx.pad) + s'.rx.data;
    }
  }

  lemma {:induction false} PadSplit(pad: nat, n: nat, data: seq<Sample>)
    requires n <= pad
    ensures Zeros(n) + (Zeros(pad - n) + data) == Zeros(pad) + data
  {
  }

  lemma {:induction false} DataSplit(data: seq<Sample>, n: nat)
    requires n <= |data|
    ensures data[..n] + (Zeros(0) + data[n..]) == Zeros(0) + data
  {
  }

  lemma {:induction false} RxKeptByLoop(cfg: Config, ch: nat, s: State)
    requires ValidConfig(cfg) && ch < cfg.channels && RingInv(cfg, s) && RxInv(cfg, ch, s)
    ensures RxInv(cfg, ch, Apply(cfg, ch, s, RxLoop))
  {
    if s.rx.Fill? {
      var Fill(pad, data, _, _) := s.rx;
      if pad > 0 {
        PadSplit(pad, Clip(s.head, pad, cfg.size), data);
      } else if |data| > 0 {
        DataSplit(data, Clip(s.head, |data|, cfg.size));
      } else {
        assert s.stream + (Zeros(0) + data) == s.stream;
      }
    }
  }

  lemma {:induction false} RxKept(cfg: Config, ch: nat, s: State, a: Action)
    requires ValidConfig(cfg) && ch < cfg.channels && RingInv(cfg, s) && RxInv(cfg, ch, s)
    ensures RxInv(cfg, ch, Apply(cfg, ch, s, a))
  {
    match a
    case RxRecv(ev) => RxKeptByRecv(cfg, ch, s, ev);
    case RxLoop => RxKeptByLoop(cfg, ch, s);
    case RxProduce =>
      if s.rx.Write? {
        var Write(chunk, _, pad, data, _, _) := s.rx;
        assert s.stream + (chunk + (Zeros(pad) + data)) == s.stream + chunk + (Zeros(pad) + data);
      }
    case _ =>
  }

  // ---- The writer's file ----

  /**
     Receiving leaves the writer's variables alone; the stream only grows, and the producer's
     commitment never recedes.
   */
  lemma {:induction false} RxProgress(cfg: Config, ch: nat, s: State, a: Action)
    requires ValidConfig(cfg) && ch < cfg.channels && RingInv(cfg, s) && !WriterStep(a)
    ensures var s' := Apply(cfg, ch, s, a);
            && s.stream <= s'.stream && s.head + Reach(s.rx) <= s'.head + Reach(s'.rx)
            && s'.wr == s.wr && s'.tail == s.tail && s'.written == s.written && s'.file == s.file && s'.tail0 == s.tail0
  {
  }

  lemma {:induction false} CheckedGrows(
      file: seq<Sample>, n: nat, stream: seq<Sample>, stream': seq<Sample>, tail0: nat)
    requires Checked(file, n, stream, tail0) && stream <= stream'
    ensures Checked(file, n, stream', tail0)
  {
    forall j: nat | j < n
      ensures file[j] == stream'[tail0 + j]
    {
      assert file[j] == stream[tail0 + j];
    }
  }

  lemma {:induction false} StaysGoodOrLate(cfg: Config, s: State, s': State, x: Sample, i: nat)
    requires GoodOrLate(cfg, s, x, i)
    requires s.stream <= s'.stream && s.head + Reach(s.rx) <= s'.head + Reach(s'.rx)
    ensures GoodOrLate(cfg, s', x, i)
  {
  }

  lemma {:induction false} WrKeptByRx(cfg: Config, s: State, s': State)
    requires WrInv(cfg, s)
    requires s'.wr == s.wr && s'.tail == s.tail && s'.written == s.written && s'.file == s.file && s'.tail0 == s.tail0
    requires s.stream <= s'.stream && s.head + Reach(s.rx) <= s'.head + Reach(s'.rx)
    ensures WrInv(cfg, s')
  {
    CheckedGrows(s.file, Kept(s), s.stream, s'.stream, s.tail0);
    match s.wr
    case Copying(n, got) =>
      forall k | k in got
        ensures k < n && GoodOrLate(cfg, s', got[k], s.tail + k)
      {
        StaysGoodOrLate(cfg, s, s', got[k], s.tail + k);
      }
    case Check(r) =>
      forall j: nat | s.written <= j < |s.file|
        ensures GoodOrLate(cfg, s', s.file[j], s.tail0 + j)
      {
        StaysGoodOrLate(cfg, s, s', s.file[j], s.tail0 + j);
      }
    case _ =>
  }

  /** A cell read by fwrite() holds the stream's sample, or the producer was already committed beyond it. */
  lemma {:induction false} ReadGoodOrLate(cfg: Config, s: State, i: nat)
    requires ValidConfig(cfg) && RingInv(cfg, s) && i < |s.stream|
    ensures GoodOrLate(cfg, s, s.phys[Slot(i, cfg.size)], i)
  {
    if s.head <= i + cfg.size && i + cfg.size - s.head in Done(s.rx) {
      assert i + cfg.size < s.head + Reach(s.rx);
    }
  }

  lemma {:induction false} CopyExtended(
      cfg: Config, s: State, s': State, n: nat, got: map<nat, Sample>, k: nat, x: Sample)
    requires CopyInv(cfg, s, n, got) && k < n && GoodOrLate(cfg, s, x, s.tail + k)
    requires s'.stream == s.stream && s'.head == s.head && s'.rx == s.rx && s'.tail == s.tail
    ensures CopyInv(cfg, s', n, got[k := x])
  {
    var got' := got[k := x];
    forall m | m in got'
      ensures m < n && GoodOrLate(cfg, s', got'[m], s.tail + m)
    {
      StaysGoodOrLate(cfg, s, s', got'[m], s.tail + m);
    }
  }

  lemma {:induction false} WrKeptByRead(cfg: Config, ch: nat, s: State, k: nat)
    requires ValidConfig(cfg) && ch < cfg.channels && RingInv(cfg, s) && WrInv(cfg, s)
    ensures WrInv(cfg, Apply(cfg, ch, s, WrRead(k)))
  {
    if s.wr.Copying? && k < s.wr.n {
      var s' := Apply(cfg, ch, s, WrRead(k));
      ReadGoodOrLate(cfg, s, s.tail + k);
      CopyExtended(cfg, s, s', s.wr.n, s.wr.got, k, s.phys[Slot(s.tail + k, cfg.size)]);
    }
  }

  /** The published stream is what the results call for, as far as it has got, and fits int64_t ticks. */
  lemma {:induction false} Published(cfg: Config, ch: nat, s: State)
    requires ValidConfig(cfg) && ch < cfg.channels && RxInv(cfg, ch, s)
    ensures s.stream <= Run(cfg, ch, s.events).stream && |s.stream| <= TWO63
  {
    TickInvariant(cfg, ch, s.events);
    ChannelsAgree(cfg, ch, s.events);
    assert s.events[..|s.events|] == s.events;
  }

  lemma {:induction false} TailInRange(cfg: Config, ch: nat, s: State)
    requires ValidConfig(cfg) && ch < cfg.channels && RxInv(cfg, ch, s) && WrInv(cfg, s) && !s.wr.Closed?
    ensures s.tail <= TWO63
  {
    Published(cfg, ch, s);
  }

  lemma {:induction false} WrKeptBySpan(cfg: Config, ch: nat, s: State)
    requires ValidConfig(cfg) && ch < cfg.channels && Inv(cfg, ch, s)
    ensures WrInv(cfg, Apply(cfg, ch, s, WrSpan))
  {
    if s.wr.Ready? {
      TailInRange(cfg, ch, s);
      WrapFits(s.tail + BLOCK);
    }
  }

  lemma {:induction false} BlockExtended(cfg: Config, s: State, s': State, r: nat)
    requires s.wr.Copying? && CopyInv(cfg, s, s.wr.n, s.wr.got) && forall k: nat :: k < r ==> k in s.wr.got
    requires |s.file| == s.written && s.tail == s.tail0 + s.written
    requires s'.stream == s.stream && s'.head == s.head && s'.rx == s.rx
    requires s'.written == s.written && s'.tail0 == s.tail0 && s'.file == s.file + Block(s.wr.got, r)
    ensures BlockInv(cfg, s')
  {
    forall j: nat | s.written <= j < |s'.file|
      ensures GoodOrLate(cfg, s', s'.file[j], s.tail0 + j)
    {
      var k: nat := j - s.written;
      assert s'.file[j] == s.wr.got[k] && k in s.wr.got;
      StaysGoodOrLate(cfg, s, s', s.wr.got[k], s.tail + k);
    }
  }

  lemma {:induction false} WrKeptByReturn(cfg: Config, ch: nat, s: State, r: nat)
    requires ValidConfig(cfg) && ch < cfg.channels && |s.phys| == cfg.size && WrInv(cfg, s)
    ensures WrInv(cfg, Apply(cfg, ch, s, WrReturn(r)))
  {
    var s' := Apply(cfg, ch, s, WrReturn(r));
    if s.wr.Copying? && s' != s {
      BlockExtended(cfg, s, s', r);
      CheckedExtended(s.file, Block(s.wr.got, r), s.written, s.stream, s.tail0);
    }
  }

  lemma {:induction false} CheckedExtended(
      file: seq<Sample>, block: seq<Sample>, n: nat, stream: seq<Sample>, tail0: nat)
    requires Checked(file, n, stream, tail0)
    ensures Checked(file + block, n, stream, tail0)
  {
    forall j: nat | j < n
      ensures (file + block)[j] == stream[tail0 + j]
    {
      assert (file + block)[j] == file[j];
    }
  }

  /** The check passes exactly if no grant has been announced beyond the tail by more than a ring length. */
  lemma {:induction false} CheckExact(cfg: Config, ch: nat, s: State)
    requires ValidConfig(cfg) && ch < cfg.channels && Inv(cfg, ch, s) && s.wr.Check?
    ensures ClobberDistance(s.tail, cfg.size, s.clob) < 0 <==> s.tail + cfg.size < s.clob
  {
    Published(cfg, ch, s);
    SignedDifference(s.tail + cfg.size - s.clob);
  }

  /** A block none of whose samples the producer's commitment has passed is the stream's. */
  lemma {:induction false} CheckedBlock(cfg: Config, s: State)
    requires ValidConfig(cfg) && RingInv(cfg, s) && WrInv(cfg, s)
    requires s.wr.Check? && s.clob <= s.tail + cfg.size
    ensures Checked(s.file, |s.file|, s.stream, s.tail0)
  {
    forall j: nat | j < |s.file|
      ensures s.file[j] == s.stream[s.tail0 + j]
    {
      if j >= s.written {
        assert GoodOrLate(cfg, s, s.file[j], s.tail0 + j);
      }
    }
  }

  lemma {:induction false} WrKeptByCheck(cfg: Config, ch: nat, s: State, cut: nat)
    requires ValidConfig(cfg) && ch < cfg.channels && Inv(cfg, ch, s)
    ensures WrInv(cfg, Apply(cfg, ch, s, WrCheck(cut)))
  {
    if s.wr.Check? {
      CheckExact(cfg, ch, s);
      if s.clob <= s.tail + cfg.size {
        CheckedBlock(cfg, s);
      } else {
        CheckedResized(s.file, s.written, cut, s.stream, s.tail0);
      }
    }
  }

  /** Resizing keeps what it does not cut off. */
  lemma {:induction false} CheckedResized(file: seq<Sample>, n: nat, cut: nat, stream: seq<Sample>, tail0: nat)
    requires Checked(file, n, stream, tail0)
    ensures Checked(Resize(file, cut), if cut < n then cut else n, stream, tail0)
  {
    var k := if cut < n then cut else n;
    forall j: nat | j < k
      ensures Resize(file, cut)[j] == stream[tail0 + j]
    {
      assert Resize(file, cut)[j] == file[j];
    }
  }

  lemma {:induction false} WrKept(cfg: Config, ch: nat, s: State, a: Action)
    requires ValidConfig(cfg) && ch < cfg.channels && Inv(cfg, ch, s)
    ensures WrInv(cfg, Apply(cfg, ch, s, a))
  {
    match a
    case WrOpen(at) =>
    case WrSpan => WrKeptBySpan(cfg, ch, s);
    case WrRead(k) => WrKeptByRead(cfg, ch, s, k);
    case WrReturn(r) => WrKeptByReturn(cfg, ch, s, r);
    case WrError =>
    case WrCheck(cut) => WrKeptByCheck(cfg, ch, s, cut);
    case _ =>
      RxProgress(cfg, ch, s, a);
      WrKeptByRx(cfg, s, Apply(cfg, ch, s, a));
  }

  /** The invariant holds in every reachable state of every interleaving. */
  lemma {:induction false} Reachable(cfg: Config, ch: nat, schedule: seq<Action>)
    requires ValidConfig(cfg) && ch < cfg.channels
    ensures Inv(cfg, ch, Exec(cfg, ch, schedule))
  {
    if schedule != [] {
      var k := |schedule| - 1;
      Reachable(cfg, ch, schedule[..k]);
      var s := Exec(cfg, ch, schedule[..k]);
      RingKept(cfg, ch, s, schedule[k]);
      RxKept(cfg, ch, s, schedule[k]);
      WrKept(cfg, ch, s, schedule[k]);
    }
  }

  /**
     Every checked sample in a recording is the device sample of the tick its position dictates, or
     zero if that tick was lost. While the writer runs, all checked samples are in the file, and
     nothing else is unless a block awaits its check. A file cut after a failed check holds nothing
     else if the cut is at most the checked count, and exactly the checked samples if it equals it.
   */
  ghost predicate Recorded(cfg: Config, s: State, device: nat -> Sample)
    requires ValidConfig(cfg) && forall k :: 0 <= k < |s.events| ==> WellFormed(cfg, s.events[k])
  {
    && Kept(s) <= |s.file|
    && (forall j: nat :: j < Kept(s) ==> s.file[j] == Expected(cfg, s.events, device, cfg.start + s.tail0 + j))
    && (!s.wr.TooLate? && !s.wr.Check? ==> |s.file| == s.written == Kept(s))
    && (s.wr.Check? ==> |s.file| == s.written + s.wr.r)
    && (s.wr.TooLate? ==>
          && (|s.file| == Kept(s) <==> s.wr.cut <= s.written)
          && (|s.file| == s.written == Kept(s) <==> s.wr.cut == s.written))
  }

  /**
     End to end, for the first channel: whatever the interleaving, and whatever gaps, ring wraps and
     overwrites occurred, the recording is the device's samples at the ticks that are theirs.
   */
  lemma {:induction false} EndToEnd(cfg: Config, schedule: seq<Action>, device: nat -> Sample)
    requires ValidConfig(cfg)
    requires Honest(cfg, 0, Exec(cfg, 0, schedule).events, device)
    ensures Recorded(cfg, Exec(cfg, 0, schedule), device)
  {
    FirstChannelGaps(cfg, Exec(cfg, 0, schedule).events);
    EndToEndOf(cfg, 0, schedule, device);
  }

  /** The same for any channel whose gap packets agreed with the first channel's. */
  lemma {:induction false} EndToEndOf(cfg: Config, ch: nat, schedule: seq<Action>, device: nat -> Sample)
    requires ValidConfig(cfg) && ch < cfg.channels
    requires Honest(cfg, ch, Exec(cfg, ch, schedule).events, device)
    requires GapsAgree(cfg, ch, Exec(cfg, ch, schedule).events)
    ensures Recorded(cfg, Exec(cfg, ch, schedule), device)
  {
    Reachable(cfg, ch, schedule);
    FileIsExpected(cfg, ch, Exec(cfg, ch, schedule), device);
  }

  lemma {:induction false} FileIsExpected(cfg: Config, ch: nat, s: State, device: nat -> Sample)
    requires ValidConfig(cfg) && ch < cfg.channels && Inv(cfg, ch, s)
    requires Honest(cfg, ch, s.events, device) && GapsAgree(cfg, ch, s.events)
    ensures Recorded(cfg, s, device)
  {
    Published(cfg, ch, s);
    CoherentExactly(cfg, ch, s.events, device);
    forall j: nat | j < Kept(s)
      ensures s.file[j] == Expected(cfg, s.events, device, cfg.start + s.tail0 + j)
    {
      assert s.file[j] == s.stream[s.tail0 + j];
      StreamIsExpected(cfg, ch, s, device, s.tail0 + j);
    }
  }

  lemma {:induction false} StreamIsExpected(cfg: Config, ch: nat, s: State, device: nat -> Sample, i: nat)
    requires Honest(cfg, ch, s.events, device) && Coherent(cfg, ch, s.events, device)
    requires s.stream <= Run(cfg, ch, s.events).stream && i < |s.stream|
    ensures s.stream[i] == Expected(cfg, s.events, device, cfg.start + i)
  {
    var all := Run(cfg, ch, s.events).stream;
    assert s.stream[i] == all[i] == ExpectedStream(cfg, s.events, device, |all|)[i];
  }

  /**
     Seqlock soundness: if the check passes, every sample of the block just written equals the
     stream's, so a block with any other sample in it is always caught. The check fails exactly if
     `clob` has passed the tail by more than a ring length; the file is then resized to `cut`, which
     cuts off the whole block exactly if `cut` is at most the checked count, and nothing but the
     block exactly if it is that count.
   */
  lemma {:induction false} ClobberCheckSound(cfg: Config, ch: nat, schedule: seq<Action>, cut: nat)
    requires ValidConfig(cfg) && ch < cfg.channels && Exec(cfg, ch, schedule).wr.Check?
    ensures var s := Exec(cfg, ch, schedule);
            var s' := Apply(cfg, ch, s, WrCheck(cut));
            && s.tail + s.wr.r <= |s.stream| && |s.file| == s.written + s.wr.r
            && (s'.wr.Ready? || s'.wr == TooLate(cut))
            && (s'.wr.TooLate? <==> s.clob > s.tail + cfg.size)
            && (s'.wr.Ready? ==> s'.file == s.file && s.file[s.written..] == s.stream[s.tail..s.tail + s.wr.r])
            && (s'.wr.TooLate? ==>
                  && |s'.file| == cut
                  && (s'.file <= s.file[..s.written] <==> cut <= s.written)
                  && (s'.file == s.file[..s.written] <==> cut == s.written))
  {
    var s := Exec(cfg, ch, schedule);
    Reachable(cfg, ch, schedule);
    CheckExact(cfg, ch, s);
    if s.clob <= s.tail + cfg.size {
      PassedBlock(cfg, ch, s);
    } else if cut <= s.written {
      assert s.file[..cut] <= s.file[..s.written];
    }
  }

  lemma {:induction false} PassedBlock(cfg: Config, ch: nat, s: State)
    requires ValidConfig(cfg) && ch < cfg.channels && RingInv(cfg, s) && WrInv(cfg, s)
    requires s.wr.Check? && s.clob <= s.tail + cfg.size
    ensures s.file[s.written..] == s.stream[s.tail..s.tail + s.wr.r]
  {
    CheckedBlock(cfg, s);
    forall k | 0 <= k < s.wr.r
      ensures s.file[s.written..][k] == s.stream[s.tail..s.tail + s.wr.r][k]
    {
      assert s.file[s.written + k] == s.stream[s.tail0 + (s.written + k)];
    }
  }
}
