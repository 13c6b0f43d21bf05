/**
 The file writer (src/wr.cpp) over all channels. What it meets when serving a channel, the values
 of `head` and `clob` at its loads and the cells fwrite() read and reported, is a script here;
 Capture shows which of these can occur together.
 */
module Writer {
  import opened Words
  import opened Ring
  import opened RxSpec
  import opened Capture

  /** One visit to a channel: head at the span query, samples fwrite() took (none: error), clob at the check. */
  datatype Visit = Visit(head: nat, cells: seq<Sample>, clob: nat)

  datatype Outcome = Running | WriteError | TooSlow(ch: nat)

  datatype WrState = WrState(tails: seq<nat>, files: seq<seq<Sample>>, written: nat, outcome: Outcome)

  /** Serve one channel: copy, check, then advance or cut the file back to the written count. */
  function Serve(size: nat, s: WrState, ch: nat, v: Visit): (s': WrState)
    requires PowerOfTwo(size) && |s.tails| == |s.files| && ch < |s.files|
    ensures |s'.tails| == |s.tails| && |s'.files| == |s.files|
  {
    var n := Clip(s.tails[ch], BLOCK, size);
    var block := if |v.cells| <= n then v.cells else v.cells[..n];
    if !s.outcome.Running? || Wrap64(s.tails[ch] + BLOCK) > v.head then s
    else if |block| == 0 then s.(outcome := WriteError)
    else if ClobberDistance(s.tails[ch], size, v.clob) < 0 then
      s.(files := s.files[ch := Resize(s.files[ch] + block, s.written)], outcome := TooSlow(ch))
    else
      s.(files := s.files[ch := s.files[ch] + block],
         tails := s.tails[ch := s.tails[ch] + |block|],
         written := if ch == |s.files| - 1 then s.written + |block| else s.written)
  }

  /** The first k channels of a round, in order. */
  function Round(size: nat, s: WrState, round: seq<Visit>, k: nat): (s': WrState)
    requires PowerOfTwo(size) && |s.tails| == |s.files| == |round| && k <= |round|
    ensures |s'.tails| == |s.tails| && |s'.files| == |s.files|
  {
    if k == 0 then s else Serve(size, Round(size, s, round, k - 1), k - 1, round[k - 1])
  }

  predicate ForChannels(rounds: seq<seq<Visit>>, channels: nat) {
    forall i :: 0 <= i < |rounds| ==> |rounds[i]| == channels
  }

  function Rounds(size: nat, s: WrState, rounds: seq<seq<Visit>>): (s': WrState)
    requires PowerOfTwo(size) && |s.tails| == |s.files| && ForChannels(rounds, |s.files|)
    ensures |s'.tails| == |s.tails| && |s'.files| == |s.files|
  {
    if rounds == [] then s
    else
      var k := |rounds| - 1;
      Round(size, Rounds(size, s, rounds[..k]), rounds[k], |rounds[k]|)
  }

  class Wr {
    const size: nat
    var tails: seq<nat>
    var files: seq<seq<Sample>>
    var written: nat       // _samples_written
    var outcome: Outcome

    constructor (size: nat, tails: seq<nat>)
      ensures this.size == size && this.tails == tails
      ensures State() == Opened(tails)
    {
      this.size := size;
      this.tails := tails;
      files := seq(|tails|, _ => []);
      written := 0;
      outcome := Running;
    }

    function State(): WrState
      reads this
    {
      WrState(tails, files, written, outcome)
    }

    method Step(ch: nat, v: Visit)
      requires PowerOfTwo(size) && |tails| == |files| && ch < |files| && outcome.Running?
      modifies this
      ensures State() == Serve(size, old(State()), ch, v)
    {
      if Wrap64(tails[ch] + BLOCK) > v.head {
        return;
      }
      var n := Clip(tails[ch], BLOCK, size);
      var block := if |v.cells| <= n then v.cells else v.cells[..n];
      if |block| == 0 {
        outcome := WriteError;
        return;
      }
      files := files[ch := files[ch] + block];
      if ClobberDistance(tails[ch], size, v.clob) < 0 {
        files := files[ch := Resize(files[ch], written)];
        outcome := TooSlow(ch);
        return;
      }
      tails := tails[ch := tails[ch] + |block|];
      if ch == |files| - 1 {
        written := written + |block|;
      }
    }

    /** One pass over all channels; an exception ends it early. */
    method ServeAll(round: seq<Visit>)
      requires PowerOfTwo(size) && |tails| == |files| == |round| && outcome.Running?
      modifies this
      ensures State() == Round(size, old(State()), round, |round|)
    {
      ghost var s0 := State();
      for ch := 0 to |round|
        invariant |tails| == |files| == |round| && outcome.Running?
        invariant State() == Round(size, s0, round, ch)
      {
        Step(ch, round[ch]);
        if !outcome.Running? {
          RoundEnded(size, s0, round, ch + 1);
          return;
        }
      }
    }

    /**
     The worker's loop, from the opened files on: pass after pass until an exception ends it. What
     has been checked of each channel lies between its first and its last tail; all of it and
     nothing else is in its file, except for the one channel found too slow, whose file is resized
     to what has been checked of the last channel.
     */
    method Worker(rounds: seq<seq<Visit>>)
      requires PowerOfTwo(size) && |tails| > 0 && ForChannels(rounds, |tails|) && State() == Opened(tails)
      modifies this
      ensures State() == Rounds(size, old(State()), rounds)
      ensures Accounted(State(), old(tails))
    {
      ghost var s0 := State();
      StaysAccounted(size, tails, rounds);
      for k := 0 to |rounds|
        invariant |tails| == |files| == |s0.files| && outcome.Running?
        invariant State() == Rounds(size, s0, rounds[..k])
      {
        ServeAll(rounds[k]);
        assert rounds[..k + 1][..k] == rounds[..k];
        if !outcome.Running? {
          Ended(size, s0, rounds, k + 1);
          return;
        }
      }
      assert rounds[..|rounds|] == rounds;
    }
  }

  function Opened(tails: seq<nat>): WrState {
    WrState(tails, seq(|tails|, _ => []), 0, Running)
  }

  lemma {:induction false} RoundEnded(size: nat, s: WrState, round: seq<Visit>, k: nat)
    requires PowerOfTwo(size) && |s.tails| == |s.files| == |round| && k <= |round|
    requires !Round(size, s, round, k).outcome.Running?
    ensures Round(size, s, round, |round|) == Round(size, s, round, k)
    decreases |round| - k
  {
    if k < |round| {
      RoundEnded(size, s, round, k + 1);
    }
  }

  lemma {:induction false} Ended(size: nat, s: WrState, rounds: seq<seq<Visit>>, k: nat)
    requires PowerOfTwo(size) && |s.tails| == |s.files| && ForChannels(rounds, |s.files|) && k <= |rounds|
    requires !Rounds(size, s, rounds[..k]).outcome.Running?
    ensures Rounds(size, s, rounds) == Rounds(size, s, rounds[..k])
    decreases |rounds|
  {
    if k < |rounds| {
      var init := rounds[..|rounds| - 1];
      assert init[..k] == rounds[..k];
      Ended(size, s, init, k);
      RoundEnded(size, Rounds(size, s, init), rounds[|rounds| - 1], 0);
    } else {
      assert rounds[..k] == rounds;
    }
  }

  /** Samples of a channel checked so far: those its tail has passed. */
  function Advance(s: WrState, tails0: seq<nat>, ch: nat): int
    requires ch < |s.tails| == |tails0|
  {
    var now: int, first: int := s.tails[ch], tails0[ch];
    now - first
  }

  /** Files hold as many samples as their tails have passed; the count is the last channel's. */
  ghost predicate Accounted(s: WrState, tails0: seq<nat>) {
    && |s.tails| == |s.files| == |tails0| > 0
    && s.written == Advance(s, tails0, |tails0| - 1)
    && forall ch: nat :: ch < |tails0| ==> FileAccounted(s, tails0, ch)
  }

  ghost predicate FileAccounted(s: WrState, tails0: seq<nat>, ch: nat)
    requires ch < |s.tails| == |s.files| == |tails0|
  {
    0 <= Advance(s, tails0, ch)
    && |s.files[ch]| == if s.outcome == TooSlow(ch) then s.written else Advance(s, tails0, ch)
  }

  lemma {:induction false} ServeAccounted(size: nat, tails0: seq<nat>, s: WrState, ch: nat, v: Visit)
    requires PowerOfTwo(size) && |s.tails| == |s.files| && ch < |s.files| && Accounted(s, tails0)
    ensures Accounted(Serve(size, s, ch, v), tails0)
  {
    var s' := Serve(size, s, ch, v);
    if s' != s {
      forall c: nat | c < |tails0|
        ensures FileAccounted(s', tails0, c)
      {
        assert FileAccounted(s, tails0, c);
      }
      assert FileAccounted(s, tails0, ch);
    }
  }

  lemma {:induction false} RoundAccounted(size: nat, tails0: seq<nat>, s: WrState, round: seq<Visit>, k: nat)
    requires PowerOfTwo(size) && |s.tails| == |s.files| == |round| && k <= |round| && Accounted(s, tails0)
    ensures Accounted(Round(size, s, round, k), tails0)
  {
    if k > 0 {
      RoundAccounted(size, tails0, s, round, k - 1);
      ServeAccounted(size, tails0, Round(size, s, round, k - 1), k - 1, round[k - 1]);
    }
  }

  lemma {:induction false} StaysAccounted(size: nat, tails0: seq<nat>, rounds: seq<seq<Visit>>)
    requires PowerOfTwo(size) && |tails0| > 0 && ForChannels(rounds, |tails0|)
    ensures Accounted(Rounds(size, Opened(tails0), rounds), tails0)
  {
    if rounds != [] {
      var k := |rounds| - 1;
      StaysAccounted(size, tails0, rounds[..k]);
      RoundAccounted(size, tails0, Rounds(size, Opened(tails0), rounds[..k]), rounds[k], |rounds[k]|);
    }
  }

  /**
     What truncation does to a channel's file. It resizes to the last channel's count: the whole
     clobbered block goes exactly if the last channel was not ahead of this one, every checked
     sample stays exactly if it was not behind, and so the file is left as it was before the block
     exactly if both had advanced alike, as the last channel always has. No other file changes.
   */
  lemma {:induction false} TruncationExact(
      size: nat, tails0: seq<nat>, rounds: seq<seq<Visit>>, round: seq<Visit>, ch: nat)
    requires PowerOfTwo(size) && |tails0| > 0 && ForChannels(rounds, |tails0|) && ch < |round| == |tails0|
    requires var s := Round(size, Rounds(size, Opened(tails0), rounds), round, ch);
             s.outcome.Running? && Serve(size, s, ch, round[ch]).outcome == TooSlow(ch)
    ensures var s := Round(size, Rounds(size, Opened(tails0), rounds), round, ch);
            var s' := Serve(size, s, ch, round[ch]);
            var ahead := Advance(s, tails0, |tails0| - 1) - Advance(s, tails0, ch);
            && (s'.files[ch] <= s.files[ch] <==> ahead <= 0)
            && (s.files[ch] <= s'.files[ch] <==> ahead >= 0)
            && (s'.files[ch] == s.files[ch] <==> ahead == 0)
            && (forall c :: 0 <= c < |tails0| && c != ch ==> s'.files[c] == s.files[c])
  {
    StaysAccounted(size, tails0, rounds);
    RoundAccounted(size, tails0, Rounds(size, Opened(tails0), rounds), round, ch);
    var s := Round(size, Rounds(size, Opened(tails0), rounds), round, ch);
    assert FileAccounted(s, tails0, ch);
    var n := Clip(s.tails[ch], BLOCK, size);
    var block := if |round[ch].cells| <= n then round[ch].cells else round[ch].cells[..n];
    ResizeExact(s.files[ch], block, s.written);
  }

  lemma {:induction false} ResizeExact(file: seq<Sample>, block: seq<Sample>, cut: nat)
    ensures Resize(file + block, cut) <= file <==> cut <= |file|
    ensures file <= Resize(file + block, cut) <==> |file| <= cut
    ensures Resize(file + block, cut) == file <==> cut == |file|
  {
    var f := Resize(file + block, cut);
    if cut <= |file| {
      assert f == file[..cut];
    } else {
      assert f[..|file|] == file;
    }
  }

  /** One round in which the last of two channels gets a block ahead, or falls a block behind. */
  lemma {:induction false} OneBlock(size: nat, ch: nat, block: seq<Sample>)
    requires PowerOfTwo(size) && BLOCK <= size < TWO63 / 2 && ch < 2 && |block| == BLOCK
    ensures var idle, full := Visit(size + BLOCK - 1, [], 2 * size), Visit(size + BLOCK, block, 2 * size);
            var round := if ch == 0 then [full, idle] else [idle, full];
            Rounds(size, Opened([size, size]), [round])
            == if ch == 0 then WrState([size + BLOCK, size], [block, []], 0, Running)
               else WrState([size, size + BLOCK], [[], block], BLOCK, Running)
  {
    var idle, full := Visit(size + BLOCK - 1, [], 2 * size), Visit(size + BLOCK, block, 2 * size);
    var round := if ch == 0 then [full, idle] else [idle, full];
    var s0 := Opened([size, size]);
    FirstBlock(size, s0, ch, full);
    assert s0.files[0] == s0.files[1] == [] && s0.tails == [size, size];
    IdleVisit(size, s0, 1 - ch, idle);
    var s1 := Round(size, s0, round, 1);
    assert Round(size, s0, round, 0) == s0 && s1 == Serve(size, s0, 0, round[0]);
    if ch == 0 {
      assert s1 == WrState([size + BLOCK, size], [block, []], 0, Running);
      IdleVisit(size, s1, 1, idle);
    }
    var rounds := [round];
    assert Rounds(size, s0, rounds[..0]) == s0;
  }

  lemma {:induction false} IdleVisit(size: nat, s: WrState, ch: nat, v: Visit)
    requires PowerOfTwo(size) && |s.tails| == |s.files| && ch < |s.files|
    requires s.tails[ch] + BLOCK < TWO64 && v.head < s.tails[ch] + BLOCK
    ensures Serve(size, s, ch, v) == s
  {
    WrapFits(s.tails[ch] + BLOCK);
  }

  lemma {:induction false} FirstBlock(size: nat, s: WrState, ch: nat, full: Visit)
    requires PowerOfTwo(size) && BLOCK <= size < TWO63 / 2 && ch < 2 && |full.cells| == BLOCK
    requires s.tails == [size, size] && s.files == [[], []] && s.written == 0 && s.outcome.Running?
    requires full.head == size + BLOCK && full.clob == 2 * size
    ensures Serve(size, s, ch, full)
            == if ch == 0 then WrState([size + BLOCK, size], [full.cells, []], 0, Running)
               else WrState([size, size + BLOCK], [[], full.cells], BLOCK, Running)
  {
    AtRingStart(size);
    WrapFits(size + BLOCK);
    assert ClobberDistance(size, size, 2 * size) == 0 by {
      SignedDifference(0);
    }
    assert [] + full.cells == full.cells;
    var s' := Serve(size, s, ch, full);
    assert s'.files == if ch == 0 then [full.cells, []] else [[], full.cells];
    assert s'.tails == if ch == 0 then [size + BLOCK, size] else [size, size + BLOCK];
  }

  /**
     Two channels, of which the first finds its span not yet published while the second writes a
     block: when the first is then overtaken by the producer, its file keeps the clobbered block.
   */
  lemma {:induction false} TruncationKeepsClobbered(size: nat, block: seq<Sample>, late: seq<Sample>)
    requires PowerOfTwo(size) && BLOCK <= size < TWO63 / 2 && |block| == |late| == BLOCK
    ensures var round := [Visit(size + BLOCK - 1, [], 2 * size), Visit(size + BLOCK, block, 2 * size)];
            var s := Rounds(size, Opened([size, size]), [round]);
            var s' := Serve(size, s, 0, Visit(2 * size + 1, late, 2 * size + 1));
            s.outcome.Running? && s'.outcome == TooSlow(0) && s.files[0] == [] && s'.files[0] == late
  {
    OneBlock(size, 1, block);
    LateBlock(size, WrState([size, size + BLOCK], [[], block], BLOCK, Running), late);
  }

  lemma {:induction false} LateBlock(size: nat, s: WrState, late: seq<Sample>)
    requires PowerOfTwo(size) && BLOCK <= size < TWO63 / 2 && |late| == BLOCK
    requires |s.tails| == |s.files| == 2 && s.tails[0] == size && s.files[0] == []
    requires s.written == BLOCK && s.outcome.Running?
    ensures var s' := Serve(size, s, 0, Visit(2 * size + 1, late, 2 * size + 1));
            s'.outcome == TooSlow(0) && s'.files[0] == late
  {
    AtRingStart(size);
    WrapFits(size + BLOCK);
    assert ClobberDistance(size, size, 2 * size + 1) == -1 by {
      SignedDifference(-1);
    }
    assert Resize([] + late, BLOCK) == late;
  }

  lemma {:induction false} AtRingStart(size: nat)
    requires PowerOfTwo(size) && BLOCK <= size
    ensures Clip(size, BLOCK, size) == BLOCK
  {
    SlotPeriod(0, size);
  }

  /** The other way round, the first file loses the block that had been checked. */
  lemma {:induction false} TruncationDropsChecked(size: nat, block: seq<Sample>, late: Sample)
    requires PowerOfTwo(size) && BLOCK < size < TWO63 / 4 && |block| == BLOCK
    ensures var round := [Visit(size + BLOCK, block, 2 * size), Visit(size + BLOCK - 1, [], 2 * size)];
            var s := Rounds(size, Opened([size, size]), [round]);
            var now := 2 * size + BLOCK + 1;
            var s' := Serve(size, s, 0, Visit(now, [late], now));
            s.outcome.Running? && s'.outcome == TooSlow(0) && s.files[0] == block && s'.files[0] == []
  {
    OneBlock(size, 0, block);
    assert Clip(size + BLOCK, BLOCK, size) >= 1;
    WrapFits(size + BLOCK + BLOCK);
    assert ClobberDistance(size + BLOCK, size, 2 * size + BLOCK + 1) == -1 by {
      SignedDifference(-1);
    }
    assert Resize(block + [late], 0) == [];
  }

  // ---- What a run leaves in a channel's file ----

  /** Loads of a run of fewer than 2^63 samples: `clob`, loaded later, is not behind `head`. */
  predicate Plausible(v: Visit) {
    v.head <= v.clob <= TWO63
  }

  /** What a visit that finds no fault adds: what fwrite() took of the span, if a whole block was published. */
  function BlockOf(size: nat, tail: nat, v: Visit): (b: seq<Sample>)
    requires size > 0
    ensures |b| > 0 ==> tail + |b| <= v.head
  {
    var span := if size - tail % size < BLOCK then size - tail % size else BLOCK;
    if v.head < tail + BLOCK then []
    else if |v.cells| < span then v.cells
    else v.cells[..span]
  }

  /** The block the loop takes, for a visit that finds one published. */
  lemma {:induction false} BlockExact(size: nat, tail: nat, v: Visit)
    requires PowerOfTwo(size) && tail + BLOCK <= v.head
    ensures var n := Clip(tail, BLOCK, size);
            BlockOf(size, tail, v) == (if |v.cells| <= n then v.cells else v.cells[..n])
    ensures BlockOf(size, tail, v) == [] <==> v.cells == []
  {
    SlotIsMod(tail, size);
    if |v.cells| == Clip(tail, BLOCK, size) {
      assert v.cells[..|v.cells|] == v.cells;
    }
  }

  /** The 64-bit comparisons of a visit have their natural meaning. */
  lemma {:induction false} ComparisonsExact(size: nat, tail: nat, v: Visit)
    requires size < TWO63 && tail <= TWO63 && Plausible(v)
    ensures Wrap64(tail + BLOCK) == tail + BLOCK
    ensures tail + BLOCK <= v.head ==> (ClobberDistance(tail, size, v.clob) < 0 <==> v.clob > tail + size)
  {
    WrapFits(tail + BLOCK);
    if tail + BLOCK <= v.head {
      SignedDifference(tail + size - v.clob);
    }
  }

  /**
     What a visit comes to: nothing unless a whole block is published; an error if fwrite() took
     nothing; too slow if `clob` has passed the tail by more than a ring length; and else the samples
     taken, in that channel's file and nowhere else.
   */
  lemma {:induction false} VisitOutcome(size: nat, s: WrState, ch: nat, v: Visit)
    requires PowerOfTwo(size) && size < TWO63 && |s.tails| == |s.files| && ch < |s.files|
    requires s.outcome.Running? && s.tails[ch] <= TWO63 && Plausible(v)
    ensures var s', tail := Serve(size, s, ch, v), s.tails[ch];
            && s'.outcome == (if v.head < tail + BLOCK then Running
                              else if v.cells == [] then WriteError
                              else if v.clob > tail + size then TooSlow(ch)
                              else Running)
            && (s'.outcome.Running? ==>
                  && s'.files == s.files[ch := s.files[ch] + BlockOf(size, tail, v)]
                  && s'.tails == s.tails[ch := tail + |BlockOf(size, tail, v)|]
                  && s'.tails[ch] <= TWO63
                  && s'.written == if ch == |s.files| - 1 then s.written + |BlockOf(size, tail, v)| else s.written)
  {
    var tail := s.tails[ch];
    ComparisonsExact(size, tail, v);
    if v.head < tail + BLOCK {
      assert s.files[ch] + [] == s.files[ch];
    } else {
      BlockExact(size, tail, v);
    }
  }

  /** The visits to one channel. */
  function Column(rounds: seq<seq<Visit>>, ch: nat): (vs: seq<Visit>)
    requires forall i :: 0 <= i < |rounds| ==> ch < |rounds[i]|
    ensures |vs| == |rounds|
  {
    seq(|rounds|, i requires 0 <= i < |rounds| => rounds[i][ch])
  }

  /** The blocks of a channel's own visits, one behind the other. */
  function Written(size: nat, tail0: nat, visits: seq<Visit>): seq<Sample>
    requires size > 0
  {
    if visits == [] then []
    else
      var k := |visits| - 1;
      var before := Written(size, tail0, visits[..k]);
      before + BlockOf(size, tail0 + |before|, visits[k])
  }

  ghost predicate AllPlausible(rounds: seq<seq<Visit>>, channels: nat) {
    ForChannels(rounds, channels)
    && forall i, ch :: 0 <= i < |rounds| && 0 <= ch < channels ==> Plausible(rounds[i][ch])
  }

  ghost predicate TailsInRange(s: WrState) {
    forall ch :: 0 <= ch < |s.tails| ==> s.tails[ch] <= TWO63
  }

  /** Channel c stands a block further. */
  ghost predicate Advanced(s: WrState, s': WrState, c: nat, block: seq<Sample>)
    requires c < |s.tails| == |s.files| == |s'.tails| == |s'.files|
  {
    s'.files[c] == s.files[c] + block && s'.tails[c] == s.tails[c] + |block|
  }

  function Part(blocks: seq<seq<Sample>>, c: nat, k: nat): seq<Sample>
    requires c < |blocks|
  {
    if c < k then blocks[c] else []
  }

  /** The first k channels stand a block further, the others where they stood. */
  ghost predicate FirstAdvanced(s: WrState, s': WrState, blocks: seq<seq<Sample>>, k: nat)
    requires |s.tails| == |s.files| == |s'.tails| == |s'.files| == |blocks|
  {
    forall c: nat :: c < |blocks| ==> Advanced(s, s', c, Part(blocks, c, k))
  }

  lemma {:induction false} OneMoreAdvanced(s: WrState, a: WrState, s': WrState, blocks: seq<seq<Sample>>, k: nat)
    requires |s.tails| == |s.files| == |a.tails| == |a.files| == |s'.tails| == |s'.files| == |blocks| && k < |blocks|
    requires FirstAdvanced(s, a, blocks, k)
    requires s'.files == a.files[k := a.files[k] + blocks[k]] && s'.tails == a.tails[k := a.tails[k] + |blocks[k]|]
    ensures FirstAdvanced(s, s', blocks, k + 1)
  {
    var k' := k + 1;
    forall c: nat | c < |blocks|
      ensures Advanced(s, s', c, Part(blocks, c, k'))
    {
      assert Advanced(s, a, c, Part(blocks, c, k));
      assert s.files[c] + [] == s.files[c];
    }
  }

  /** A round without exception serves every channel once. */
  lemma {:induction false} RoundServesAll(
      size: nat, s: WrState, round: seq<Visit>, blocks: seq<seq<Sample>>, k: nat)
    requires PowerOfTwo(size) && size < TWO63 && |s.tails| == |s.files| == |round| == |blocks| && k <= |round|
    requires s.outcome.Running? && TailsInRange(s) && forall ch :: 0 <= ch < |round| ==> Plausible(round[ch])
    requires forall ch :: 0 <= ch < |round| ==> blocks[ch] == BlockOf(size, s.tails[ch], round[ch])
    ensures var s' := Round(size, s, round, k);
            s'.outcome.Running? ==> TailsInRange(s') && FirstAdvanced(s, s', blocks, k)
  {
    if k == 0 {
      forall c: nat | c < |blocks|
        ensures Advanced(s, s, c, Part(blocks, c, 0))
      {
        assert s.files[c] + [] == s.files[c];
      }
    } else {
      RoundServesAll(size, s, round, blocks, k - 1);
      var before := Round(size, s, round, k - 1);
      if before.outcome.Running? {
        assert Advanced(s, before, k - 1, Part(blocks, k - 1, k - 1));
        NextServed(size, s, before, round[k - 1], blocks, k - 1);
      }
    }
  }

  lemma {:induction false} NextServed(
      size: nat, s: WrState, a: WrState, v: Visit, blocks: seq<seq<Sample>>, k: nat)
    requires PowerOfTwo(size) && size < TWO63 && Plausible(v) && k < |blocks|
    requires |s.tails| == |s.files| == |a.tails| == |a.files| == |blocks|
    requires a.outcome.Running? && TailsInRange(a) && FirstAdvanced(s, a, blocks, k)
    requires a.tails[k] == s.tails[k] && blocks[k] == BlockOf(size, s.tails[k], v)
    ensures var s' := Serve(size, a, k, v);
            s'.outcome.Running? ==> TailsInRange(s') && FirstAdvanced(s, s', blocks, k + 1)
  {
    VisitOutcome(size, a, k, v);
    var s' := Serve(size, a, k, v);
    if s'.outcome.Running? {
      OneMoreAdvanced(s, a, s', blocks, k);
    }
  }

  lemma {:induction false} WrittenLast(size: nat, tail0: nat, rounds: seq<seq<Visit>>, ch: nat)
    requires size > 0 && rounds != [] && forall i :: 0 <= i < |rounds| ==> ch < |rounds[i]|
    ensures var k := |rounds| - 1;
            var before := Written(size, tail0, Column(rounds[..k], ch));
            Written(size, tail0, Column(rounds, ch)) == before + BlockOf(size, tail0 + |before|, rounds[k][ch])
  {
    assert Column(rounds, ch)[..|rounds| - 1] == Column(rounds[..|rounds| - 1], ch);
  }

  /** A channel's file and tail after the visits made to it. */
  ghost predicate AsWritten(size: nat, tail0: nat, s: WrState, rounds: seq<seq<Visit>>, ch: nat)
    requires size > 0 && ch < |s.tails| == |s.files| && forall i :: 0 <= i < |rounds| ==> ch < |rounds[i]|
  {
    s.files[ch] == Written(size, tail0, Column(rounds, ch)) && s.tails[ch] == tail0 + |s.files[ch]|
  }

  lemma {:induction false} RoundAsWritten(
      size: nat, tail0: nat, s: WrState, s': WrState, rounds: seq<seq<Visit>>, ch: nat)
    requires size > 0 && rounds != [] && forall i :: 0 <= i < |rounds| ==> ch < |rounds[i]|
    requires ch < |s.tails| == |s.files| == |s'.tails| == |s'.files|
    requires AsWritten(size, tail0, s, rounds[..|rounds| - 1], ch)
    requires Advanced(s, s', ch, BlockOf(size, s.tails[ch], rounds[|rounds| - 1][ch]))
    ensures AsWritten(size, tail0, s', rounds, ch)
  {
    WrittenLast(size, tail0, rounds, ch);
    assert s.tails[ch] == tail0 + |Written(size, tail0, Column(rounds[..|rounds| - 1], ch))|;
  }

  /**
     While it runs, the writer records each channel as if there were no other: its file is the
     blocks of its own visits, one behind the other, and its tail is where they end.
   */
  lemma {:induction false} FilesExact(size: nat, tails0: seq<nat>, rounds: seq<seq<Visit>>, ch: nat)
    requires PowerOfTwo(size) && size < TWO63 && ch < |tails0| && AllPlausible(rounds, |tails0|)
    requires forall c :: 0 <= c < |tails0| ==> tails0[c] <= TWO63
    ensures var s := Rounds(size, Opened(tails0), rounds);
            s.outcome.Running? ==> TailsInRange(s) && AsWritten(size, tails0[ch], s, rounds, ch)
  {
    if rounds != [] {
      var k := |rounds| - 1;
      var before := Rounds(size, Opened(tails0), rounds[..k]);
      FilesExact(size, tails0, rounds[..k], ch);
      if before.outcome.Running? {
        var blocks := seq(|tails0|, c requires 0 <= c < |tails0| => BlockOf(size, before.tails[c], rounds[k][c]));
        RoundServesAll(size, before, rounds[k], blocks, |rounds[k]|);
        var s := Rounds(size, Opened(tails0), rounds);
        if s.outcome.Running? {
          assert Advanced(before, s, ch, Part(blocks, ch, |blocks|));
          RoundAsWritten(size, tails0[ch], before, s, rounds, ch);
        }
      } else {
        RoundEnded(size, before, rounds[k], 0);
      }
    }
  }

  // ---- The writer's loop and the interleaved machine ----

  /** Channel ch of the writer stands where the machine's writer does, between two blocks. */
  ghost predicate Mirrors(w: WrState, ch: nat, s: Capture.State) {
    ch < |w.tails| == |w.files| && w.outcome.Running? && s.wr.Ready? && w.tails[ch] == s.tail && w.files[ch] == s.file
  }

  /**
     A visit to one of any number of channels is what the writer's steps of module Capture amount to
     for that channel, with the common count for a cut, whatever the receive worker does in between:
     the span query in state s, cells copied by state a, and the check against the clob of state c.
   */
  lemma {:induction false} VisitIsSteps(
      cfg: Config, ch: nat, w: WrState, s: Capture.State, a: Capture.State, c: Capture.State,
      got: map<nat, Sample>, r: nat)
    requires ValidConfig(cfg) && ch < cfg.channels && |s.phys| == |a.phys| == |c.phys| == cfg.size
    requires Mirrors(w, ch, s) && s.tail + BLOCK <= s.head
    requires a.wr == Copying(Clip(s.tail, BLOCK, cfg.size), got)
    requires a.tail == s.tail && a.file == s.file && a.written == s.written
    requires 0 < r <= Clip(s.tail, BLOCK, cfg.size) && forall k: nat :: k < r ==> k in got
    requires var b := Apply(cfg, ch, a, WrReturn(r));
             c.wr == b.wr && c.tail == b.tail && c.file == b.file && c.written == b.written
    ensures Apply(cfg, ch, s, WrSpan) == s.(wr := Copying(Clip(s.tail, BLOCK, cfg.size), map[]))
    ensures var d := Apply(cfg, ch, c, WrCheck(w.written));
            var w' := Serve(cfg.size, w, ch, Visit(s.head, Block(got, r), c.clob));
            && (if d.wr.Ready? then Mirrors(w', ch, d) else d.wr == TooLate(w.written) && w'.outcome == TooSlow(ch))
            && w'.tails[ch] == d.tail && w'.files[ch] == d.file
            && forall k :: 0 <= k < |w.files| && k != ch ==> w'.tails[k] == w.tails[k] && w'.files[k] == w.files[k]
  {
    assert Wrap64(s.tail + BLOCK) <= s.tail + BLOCK;
    assert |Block(got, r)| == r;
  }

  /** With less than a block published, neither takes a step. */
  lemma {:induction false} IdleIsNoStep(
      cfg: Config, ch: nat, w: WrState, s: Capture.State, v: Visit)
    requires ValidConfig(cfg) && ch < cfg.channels && |s.phys| == cfg.size && Mirrors(w, ch, s)
    requires s.head < s.tail + BLOCK < TWO64 && v.head == s.head
    ensures Apply(cfg, ch, s, WrSpan) == s && Serve(cfg.size, w, ch, v) == w
  {
    IdleVisit(cfg.size, w, ch, v);
    assert Wrap64(s.tail + BLOCK) == s.tail + BLOCK;
  }

  /**
     So the machine's cut is right for a channel exactly if the last one has advanced alike: a failed
     check then leaves just the checked samples of the recording. The last channel, and a single
     one, always qualify.
   */
  lemma {:induction false} CutExact(
      cfg: Config, ch: nat, schedule: seq<Action>, w: WrState, tails0: seq<nat>)
    requires ValidConfig(cfg) && ch < cfg.channels == |tails0|
    requires Accounted(w, tails0) && Mirrors(w, ch, Exec(cfg, ch, schedule))
    ensures var s := Exec(cfg, ch, schedule);
            && s.written == |s.file| == Advance(w, tails0, ch)
            && (w.written == s.written <==> Advance(w, tails0, |tails0| - 1) == Advance(w, tails0, ch))
            && (ch == cfg.channels - 1 ==> w.written == s.written)
  {
    Capture.Reachable(cfg, ch, schedule);
    OwnCount(cfg, Exec(cfg, ch, schedule), ch, w, tails0);
  }

  lemma {:induction false} OwnCount(cfg: Config, s: Capture.State, ch: nat, w: WrState, tails0: seq<nat>)
    requires WrInv(cfg, s) && Accounted(w, tails0) && Mirrors(w, ch, s)
    ensures s.written == |s.file| == Advance(w, tails0, ch)
  {
    assert FileAccounted(w, tails0, ch);
  }
}
