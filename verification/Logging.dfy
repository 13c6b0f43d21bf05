/**
 The queue as an object whose operations run uninterrupted, and the logger's drain of it
 (src/mpsc.hpp, src/logging.cpp). Push and Pop perform the atomic steps of module Mpsc in order.
 */
module Logging {
  import opened Words
  import opened Mpsc

  datatype Option<T> = None | Some(value: T)

  /** push() from start to return, no other step in between. */
  function PushWhole<T>(n: nat, s: State<T>, p: nat, obj: T): (s': State<T>)
    requires n > 0 && |s.ring| == n && p < |s.pcs|
    ensures |s'.ring| == n && |s'.pcs| == |s.pcs|
  {
    var admitted := Mpsc.Push(n, s, p, obj);
    var last := Mpsc.Push(n, Mpsc.Push(n, admitted, p, obj), p, obj);
    if admitted.pcs[p].Denied? then last else Mpsc.Push(n, last, p, obj)
  }

  /** pop() from start to return. The object moved from keeps its value. */
  function PopWhole<T>(n: nat, s: State<T>): (s': State<T>)
    requires PowerOfTwo(n) && |s.ring| == n
    ensures |s'.ring| == n && |s'.pcs| == |s.pcs|
  {
    MaskIsMod(s.tail, n);
    var junk := s.ring[BitAnd(s.tail, n - 1)].data;
    var s1 := Mpsc.Pop(n, s, junk);
    if s1.cons.Resting? then s1
    else
      var s2 := Mpsc.Pop(n, s1, junk);
      if s2.cons.Resting? then s2
      else Mpsc.Pop(n, Mpsc.Pop(n, Mpsc.Pop(n, Mpsc.Pop(n, s2, junk), junk), junk), junk)
  }

  /** No operation is under way. */
  ghost predicate Quiescent<T>(s: State<T>) {
    s.cons.Resting? && forall p :: 0 <= p < |s.pcs| ==> s.pcs[p].Idle?
  }

  ghost predicate Settled<T>(n: nat, s: State<T>)
    requires PowerOfTwo(n) && |s.ring| == n
  {
    Inv(n, s) && Quiescent(s)
  }

  /**
     Once every producer has returned from its pushes, a run of any number of them leaves the queue
     in a state the operations below can start from, with a single producer or none.
   */
  lemma {:induction false} SettledAfterRun<T>(n: nat, producers: nat, init: T, schedule: seq<Action<T>>)
    requires ValidSize(n, producers) && n + 1 < TWO64 && Quiescent(Exec(n, producers, init, schedule))
    ensures var s := Exec(n, producers, init, schedule);
            Settled(n, s) && Settled(n, s.(pcs := [Idle])) && Pending(s.(pcs := [Idle])) == Pending(s)
  {
    Mpsc.Reachable(n, producers, init, schedule);
    SettledAlone(n, Exec(n, producers, init, schedule));
  }

  lemma {:induction false} SettledAlone<T>(n: nat, s: State<T>)
    requires PowerOfTwo(n) && |s.ring| == n && n + 1 < TWO64 && Settled(n, s)
    ensures Settled(n, s.(pcs := [Idle]))
  {
    var s' := s.(pcs := [Idle]);
    NoneCounted(s.pcs);
    NoneCounted(s'.pcs);
    forall t: nat | FirstLive(s') <= t < |s'.accepted|
      ensures TicketInv(n, s', t)
    {
      assert TicketInv(n, s, t);
      var p := s.accepted[t].0;
      assert p < |s.pcs| ==> s.pcs[p].Idle?;
    }
  }

  /** Accepted and not yet popped, in ticket order. */
  function Pending<T>(s: State<T>): (q: seq<T>) {
    if |s.popped| >= |s.accepted| then []
    else seq(|s.accepted| - |s.popped|, i requires 0 <= i < |s.accepted| - |s.popped| => s.accepted[|s.popped| + i].1)
  }

  lemma {:induction false} QuiescentUsed<T>(n: nat, s: State<T>)
    requires PowerOfTwo(n) && |s.ring| == n && Settled(n, s)
    ensures s.used == |Pending(s)| <= n
    ensures BitAnd(s.tail, n - 1) == Slot(|s.popped|, n)
    ensures s.used > 0 ==> s.ring[Slot(|s.popped|, n)] == Cell(true, Pending(s)[0])
  {
    NoneCounted(s.pcs);
    WrappedSlot(|s.popped|, n);
    if s.used > 0 {
      assert TicketInv(n, s, |s.popped|);
      assert !(s.accepted[|s.popped|].0 < |s.pcs| && Holds(s.pcs[s.accepted[|s.popped|].0]));
    }
  }

  /** What the steps of a pop that meets no other amount to. */
  function AfterPop<T>(n: nat, s: State<T>): (s': State<T>)
    requires PowerOfTwo(n) && |s.ring| == n
    ensures |s'.ring| == n
  {
    MaskIsMod(s.tail, n);
    var slot := BitAnd(s.tail, n - 1);
    var data := s.ring[slot].data;
    if s.used == 0 || !s.ring[slot].valid then s
    else s.(used := Wrap64(s.used - 1), tail := Wrap64(s.tail + 1),
            ring := s.ring[slot := Cell(false, data)], popped := s.popped + [data])
  }

  lemma {:induction false} PopEffect<T>(n: nat, s: State<T>)
    requires PowerOfTwo(n) && |s.ring| == n && s.cons.Resting?
    ensures PopWhole(n, s) == AfterPop(n, s)
  {
    MaskIsMod(s.tail, n);
    var slot := BitAnd(s.tail, n - 1);
    var data := s.ring[slot].data;
    assert s.ring[slot := s.ring[slot].(data := data)] == s.ring;
  }

  /** What the steps of a push that meets no other amount to. */
  function AfterPush<T>(n: nat, s: State<T>, p: nat, obj: T): (s': State<T>)
    requires PowerOfTwo(n) && |s.ring| == n
    ensures |s'.ring| == n
  {
    MaskIsMod(s.head, n);
    if s.used >= n then
      s.(used := Wrap64(Wrap64(s.used + 1) - 1), lost := Wrap64(s.lost + 1), refused := s.refused + [(p, obj)])
    else
      s.(used := Wrap64(s.used + 1), head := Wrap64(s.head + 1),
         ring := s.ring[BitAnd(s.head, n - 1) := Cell(true, obj)],
         accepted := s.accepted + [(p, obj)], completed := s.completed + [(p, obj)])
  }

  lemma {:induction false} PushEffect<T>(n: nat, s: State<T>, p: nat, obj: T)
    requires PowerOfTwo(n) && |s.ring| == n && p < |s.pcs| && s.pcs[p].Idle?
    ensures PushWhole(n, s, p, obj) == AfterPush(n, s, p, obj)
  {
    MaskIsMod(s.head, n);
    var s1 := Mpsc.Push(n, s, p, obj);
    var s2 := Mpsc.Push(n, s1, p, obj);
    var s3 := Mpsc.Push(n, s2, p, obj);
    if s.used >= n {
      assert s3.pcs == s.pcs;
    } else {
      var s4 := Mpsc.Push(n, s3, p, obj);
      assert s4.pcs == s.pcs;
      assert s4.ring == AfterPush(n, s, p, obj).ring;
    }
  }

  /** With nothing under way, a pop returns the oldest pending object and forgets it, or reports emptiness. */
  lemma {:induction false} PopTakesOldest<T>(n: nat, s: State<T>)
    requires PowerOfTwo(n) && |s.ring| == n && Settled(n, s)
    ensures var s' := AfterPop(n, s);
            && Settled(n, s') && s'.accepted == s.accepted
            && (if Pending(s) == [] then s' == s
                else s'.popped == s.popped + [Pending(s)[0]] && Pending(s') == Pending(s)[1..])
  {
    QuiescentUsed(n, s);
    PopEffect(n, s);
    PopInv(n, s);
    if Pending(s) != [] {
      PendingPopped(s, AfterPop(n, s));
    }
  }

  lemma {:induction false} PendingPopped<T>(s: State<T>, s': State<T>)
    requires Pending(s) != [] && s'.accepted == s.accepted && s'.popped == s.popped + [Pending(s)[0]]
    ensures Pending(s') == Pending(s)[1..]
  {
  }

  lemma {:induction false} PopInv<T>(n: nat, s: State<T>)
    requires PowerOfTwo(n) && |s.ring| == n && Inv(n, s)
    ensures Inv(n, PopWhole(n, s))
  {
    MaskIsMod(s.tail, n);
    var a := Consume(s.ring[BitAnd(s.tail, n - 1)].data);
    StepInv(n, s, a);
    var s1 := Apply(n, s, a);
    StepInv(n, s1, a);
    var s2 := Apply(n, s1, a);
    StepInv(n, s2, a);
    var s3 := Apply(n, s2, a);
    StepInv(n, s3, a);
    var s4 := Apply(n, s3, a);
    StepInv(n, s4, a);
    StepInv(n, Apply(n, s4, a), a);
  }

  /** With nothing under way, a push appends its object, or is refused if the queue is full. */
  lemma {:induction false} PushAppends<T>(n: nat, s: State<T>, p: nat, obj: T)
    requires PowerOfTwo(n) && |s.ring| == n && Settled(n, s) && p < |s.pcs|
    ensures var s' := AfterPush(n, s, p, obj);
            && |s'.ring| == n && Settled(n, s') && s'.popped == s.popped
            && (if |Pending(s)| == n then Pending(s') == Pending(s) && s'.lost == Wrap64(s.lost + 1)
                else Pending(s') == Pending(s) + [obj] && s'.lost == s.lost)
  {
    QuiescentUsed(n, s);
    PushSettled(n, s, p, obj);
    if s.used < n {
      PendingPushed(s, AfterPush(n, s, p, obj), p, obj);
    }
  }

  lemma {:induction false} PushSettled<T>(n: nat, s: State<T>, p: nat, obj: T)
    requires PowerOfTwo(n) && |s.ring| == n && Settled(n, s) && p < |s.pcs|
    ensures Settled(n, AfterPush(n, s, p, obj))
  {
    PushEffect(n, s, p, obj);
    PushInv(n, s, p, obj);
  }

  lemma {:induction false} PendingPushed<T>(s: State<T>, s': State<T>, p: nat, obj: T)
    requires |s.popped| <= |s.accepted| && s'.popped == s.popped && s'.accepted == s.accepted + [(p, obj)]
    ensures Pending(s') == Pending(s) + [obj]
  {
  }

  lemma {:induction false} PushInv<T>(n: nat, s: State<T>, p: nat, obj: T)
    requires PowerOfTwo(n) && |s.ring| == n && Inv(n, s) && p < |s.pcs|
    ensures Inv(n, PushWhole(n, s, p, obj))
  {
    var a := Produce(p, obj);
    StepInv(n, s, a);
    var s1 := Apply(n, s, a);
    StepInv(n, s1, a);
    var s2 := Apply(n, s1, a);
    StepInv(n, s2, a);
    StepInv(n, Apply(n, s2, a), a);
  }

  /** Nothing is left in a drained queue. */
  lemma {:induction false} DrainedClean<T>(n: nat, s: State<T>)
    requires PowerOfTwo(n) && |s.ring| == n && Settled(n, s) && Pending(s) == []
    ensures s.used == 0 && forall cell <- s.ring :: !cell.valid
  {
    QuiescentUsed(n, s);
    var first := |s.popped|;
    forall i | 0 <= i < n
      ensures !s.ring[i].valid
    {
      var t := EveryCell(first, n, i);
      assert !s.ring[Slot(t, n)].valid;
    }
  }

  class Queue<T> {
    const n: nat
    const valid: array<bool>
    const data: array<T>
    var used: nat
    var head: nat
    var lost: nat
    var tail: nat
    ghost var accepted: seq<(nat, T)>
    ghost var completed: seq<(nat, T)>
    ghost var refused: seq<(nat, T)>
    ghost var popped: seq<T>

    constructor (n: nat, init: T)
      requires ValidSize(n, 1)
      ensures Shape() && fresh(valid) && fresh(data) && this.n == n
      ensures Snapshot() == Start(n, 1, init)
    {
      this.n := n;
      valid := new bool[n](_ => false);
      data := new T[n](_ => init);
      used, head, lost, tail := 0, 0, 0, 0;
      accepted, completed, refused, popped := [], [], [], [];
      new;
      assert Snapshot() == Start(n, 1, init);
    }

    ghost predicate Shape() {
      PowerOfTwo(n) && valid.Length == data.Length == n && (valid as object) != (data as object)
    }

    ghost function Cells(): (cells: seq<Cell<T>>)
      requires Shape()
      reads valid, data
      ensures |cells| == n && forall i :: 0 <= i < n ==> cells[i] == Cell(valid[i], data[i])
    {
      seq(n, i requires 0 <= i < n && Shape() reads valid, data => Cell(valid[i], data[i]))
    }

    /** The state between two operations, as the step machine with this one producer sees it. */
    ghost function Snapshot(): (s: State<T>)
      requires Shape()
      reads this, valid, data
      ensures |s.ring| == n && |s.pcs| == 1
    {
      State(used, head, lost, tail, Cells(), [Idle], Resting, accepted, completed, refused, popped)
    }

    method Push(obj: T) returns (r: nat)
      requires Shape()
      modifies this, valid, data
      ensures Snapshot() == AfterPush(n, old(Snapshot()), 0, obj)
      ensures r == if old(used) < n then old(used) else n
    {
      ghost var s := Snapshot();
      MaskIsMod(head, n);
      r := used;
      used := Wrap64(used + 1);
      if r >= n {
        used := Wrap64(used - 1);
        lost := Wrap64(lost + 1);
        refused := refused + [(0, obj)];
        assert Cells() == s.ring;
        return n;
      }
      var slot := BitAnd(head, n - 1);
      head := Wrap64(head + 1);
      accepted := accepted + [(0, obj)];
      data[slot] := obj;
      valid[slot] := true;
      completed := completed + [(0, obj)];
      assert Cells() == s.ring[slot := Cell(true, obj)];
    }

    method Pop() returns (r: Option<T>)
      requires Shape()
      modifies this, valid, data
      ensures Snapshot() == AfterPop(n, old(Snapshot()))
      ensures r == if |popped| > |old(popped)| then Some(popped[|popped| - 1]) else None
    {
      ghost var s := Snapshot();
      MaskIsMod(tail, n);
      if used == 0 {
        return None;
      }
      var slot := BitAnd(tail, n - 1);
      if !valid[slot] {
        return None;
      }
      var obj := data[slot];
      valid[slot] := false;
      used := Wrap64(used - 1);
      tail := Wrap64(tail + 1);
      popped := popped + [obj];
      assert Cells() == s.ring[slot := Cell(false, obj)];
      return Some(obj);
    }
  }

  /** A pop of a settled queue: the oldest pending object, or none and nothing changes. */
  method PopOldest<T>(queue: Queue<T>, ghost s: State<T>) returns (r: Option<T>, ghost s': State<T>)
    requires queue.Shape() && queue.Snapshot() == s && Settled(queue.n, s)
    modifies queue, queue.valid, queue.data
    ensures queue.Snapshot() == s' && |s'.ring| == queue.n && Settled(queue.n, s') && s'.accepted == s.accepted
    ensures if r.Some? then Pending(s) == [r.value] + Pending(s') else s' == s && Pending(s) == []
  {
    PopTakesOldest(queue.n, s);
    s' := AfterPop(queue.n, s);
    r := queue.Pop();
    assert queue.popped == s'.popped;
  }

  lemma {:induction false} Regroup<T>(a: seq<T>, x: T, b: seq<T>)
    ensures a + ([x] + b) == a + [x] + b
  {
  }

  /**
     serialize_messages, as the logger's destructor calls it once no push is under way: it ends,
     emits exactly the pending messages in ticket order, and leaves nothing behind.
   */
  method SerializeMessages<T>(queue: Queue<T>) returns (written: seq<T>)
    requires queue.Shape() && Settled(queue.n, queue.Snapshot())
    modifies queue, queue.valid, queue.data
    ensures Settled(queue.n, queue.Snapshot()) && queue.used == 0
    ensures forall cell <- queue.Snapshot().ring :: !cell.valid
    ensures written == old(Pending(queue.Snapshot()))
    ensures queue.accepted == old(queue.accepted)
  {
    ghost var s := queue.Snapshot();
    ghost var todo, accepted := Pending(s), s.accepted;
    written := [];
    var opt;
    opt, s := PopOldest(queue, s);
    ghost var left := Pending(s);
    while opt.Some?
      invariant queue.Snapshot() == s && |s.ring| == queue.n && Settled(queue.n, s) && s.accepted == accepted
      invariant left == Pending(s)
      invariant if opt.Some? then todo == written + ([opt.value] + left) else todo == written && left == []
      decreases |left|, opt.Some?
    {
      Regroup(written, opt.value, left);
      written := written + [opt.value];
      opt, s := PopOldest(queue, s);
      left := Pending(s);
    }
    DrainedClean(queue.n, s);
  }
}
