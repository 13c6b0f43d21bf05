/**
 The bounded multi-producer single-consumer queue (src/mpsc.hpp). Any number of producers and one
 consumer; every atomic operation and every access to a slot's data is a step of its own, and a
 schedule interleaves them in any way. Atomics are sequentially consistent.
 */
module Mpsc {
  import opened Words

  datatype Cell<T> = Cell(valid: bool, data: T)

  /** Where a producer stands inside push(). */
  datatype Pc<T> =
    | Idle
    | Denied(obj: T)       // its fetch_add found the queue full
    | Undone(obj: T)       // and has been taken back; the loss is not counted yet
    | Admitted(obj: T)     // its fetch_add found room; no ticket drawn yet
    | Ticketed(ticket: nat, slot: nat, obj: T)
    | Stored(ticket: nat, slot: nat, obj: T)

  /** Where the consumer stands inside pop(). */
  datatype ConsPc<T> =
    | Resting
    | NonEmpty             // used was not zero
    | Validated            // the slot at the tail was valid
    | Moved(obj: T)        // data moved out of it
    | Cleared(obj: T)      // slot invalidated
    | Released(obj: T)     // used decremented

  /** used, head, lost, tail hold 64-bit words; the last four fields are history. */
  datatype State<T> = State(
    used: nat, head: nat, lost: nat, tail: nat, ring: seq<Cell<T>>,
    pcs: seq<Pc<T>>, cons: ConsPc<T>,
    accepted: seq<(nat, T)>,    // (producer, object) by ticket
    completed: seq<(nat, T)>,   // pushes that have returned successfully
    refused: seq<(nat, T)>,     // pushes that have returned the queue size
    popped: seq<T>)             // objects pop() has returned

  /** Producer p takes its next step, starting to push obj if idle; the consumer's, leaving junk behind a move. */
  datatype Action<T> = Produce(p: nat, obj: T) | Consume(junk: T)

  /** N satisfies the static_assert; all counters together fit a word. */
  ghost predicate ValidSize(n: nat, producers: nat) {
    PowerOfTwo(n) && n + producers < TWO64
  }

  function Push<T>(n: nat, s: State<T>, p: nat, obj: T): (s': State<T>)
    requires n > 0 && |s.ring| == n && p < |s.pcs|
    ensures |s'.ring| == n && |s'.pcs| == |s.pcs|
  {
    match s.pcs[p]
    case Idle =>
      s.(used := Wrap64(s.used + 1),
         pcs := s.pcs[p := if s.used >= n then Denied(obj) else Admitted(obj)])
    case Denied(o) =>
      s.(used := Wrap64(s.used - 1), pcs := s.pcs[p := Undone(o)])
    case Undone(o) =>
      s.(lost := Wrap64(s.lost + 1), pcs := s.pcs[p := Idle], refused := s.refused + [(p, o)])
    case Admitted(o) =>
      s.(head := Wrap64(s.head + 1), accepted := s.accepted + [(p, o)],
         pcs := s.pcs[p := Ticketed(|s.accepted|, BitAnd(s.head, n - 1), o)])
    case Ticketed(t, slot, o) =>
      if slot < n then
        s.(ring := s.ring[slot := s.ring[slot].(data := o)], pcs := s.pcs[p := Stored(t, slot, o)])
      else s
    case Stored(t, slot, o) =>
      if slot < n then
        s.(ring := s.ring[slot := s.ring[slot].(valid := true)], pcs := s.pcs[p := Idle],
           completed := s.completed + [(p, o)])
      else s
  }

  function Pop<T>(n: nat, s: State<T>, junk: T): (s': State<T>)
    requires PowerOfTwo(n) && |s.ring| == n
    ensures |s'.ring| == n && |s'.pcs| == |s.pcs|
  {
    MaskIsMod(s.tail, n);
    var slot := BitAnd(s.tail, n - 1);
    match s.cons
    case Resting => if s.used == 0 then s else s.(cons := NonEmpty)
    case NonEmpty => if s.ring[slot].valid then s.(cons := Validated) else s.(cons := Resting)
    case Validated =>
      s.(cons := Moved(s.ring[slot].data), ring := s.ring[slot := s.ring[slot].(data := junk)])
    case Moved(o) =>
      s.(cons := Cleared(o), ring := s.ring[slot := s.ring[slot].(valid := false)])
    case Cleared(o) =>
      s.(cons := Released(o), used := Wrap64(s.used - 1))
    case Released(o) =>
      s.(cons := Resting, tail := Wrap64(s.tail + 1), popped := s.popped + [o])
  }

  function Apply<T>(n: nat, s: State<T>, a: Action<T>): (s': State<T>)
    requires PowerOfTwo(n) && |s.ring| == n
    ensures |s'.ring| == n && |s'.pcs| == |s.pcs|
  {
    match a
    case Produce(p, obj) => if p < |s.pcs| then Push(n, s, p, obj) else s
    case Consume(junk) => Pop(n, s, junk)
  }

  function Start<T>(n: nat, producers: nat, init: T): State<T> {
    State(0, 0, 0, 0, seq(n, _ => Cell(false, init)), seq(producers, _ => Idle), Resting, [], [], [], [])
  }

  function Exec<T>(n: nat, producers: nat, init: T, schedule: seq<Action<T>>): (s: State<T>)
    requires PowerOfTwo(n)
    ensures |s.ring| == n && |s.pcs| == producers
  {
    if schedule == [] then Start(n, producers, init)
    else
      var k := |schedule| - 1;
      Apply(n, Exec(n, producers, init, schedule[..k]), schedule[k])
  }

  // ---- Invariant ----

  /** Producers at a given point: admitted without ticket, or denied and not undone. */
  function Admissions<T>(pcs: seq<Pc<T>>): nat {
    if pcs == [] then 0 else (if pcs[0].Admitted? then 1 else 0) + Admissions(pcs[1..])
  }

  function Denials<T>(pcs: seq<Pc<T>>): nat {
    if pcs == [] then 0 else (if pcs[0].Denied? then 1 else 0) + Denials(pcs[1..])
  }

  predicate Holds<T>(pc: Pc<T>) {
    pc.Ticketed? || pc.Stored?
  }

  /** Slots given back by the consumer. */
  function ReleasedCount<T>(s: State<T>): nat {
    |s.popped| + (if s.cons.Released? then 1 else 0)
  }

  /** First ticket whose slot still belongs to it. */
  function FirstLive<T>(s: State<T>): nat {
    |s.popped| + (if s.cons.Cleared? || s.cons.Released? then 1 else 0)
  }

  /** Slots taken and not given back, with or without a ticket. */
  function Occupied<T>(s: State<T>): int {
    |s.accepted| - ReleasedCount(s) + Admissions(s.pcs)
  }

  ghost predicate Accounting<T>(n: nat, s: State<T>)
  {
    && FirstLive(s) <= |s.accepted|
    && s.head == Wrap64(|s.accepted|) && s.tail == Wrap64(|s.popped|) && s.lost == Wrap64(|s.refused|)
    && s.used == Occupied(s) + Denials(s.pcs)
    && Occupied(s) <= n
  }

  /** A producer holding a ticket holds its slot, which is invalid, alone. */
  ghost predicate HolderInv<T>(n: nat, s: State<T>, p: nat)
    requires PowerOfTwo(n) && |s.ring| == n && p < |s.pcs|
  {
    Holds(s.pcs[p]) ==>
      var pc := s.pcs[p];
      && FirstLive(s) <= pc.ticket < |s.accepted|
      && pc.slot == Slot(pc.ticket, n)
      && s.accepted[pc.ticket] == (p, pc.obj)
      && !s.ring[pc.slot].valid
      && (pc.Stored? ==> s.ring[pc.slot].data == pc.obj)
  }

  /** A ticket's slot holds its object, or its producer is still at it. */
  ghost predicate TicketInv<T>(n: nat, s: State<T>, t: nat)
    requires PowerOfTwo(n) && |s.ring| == n && t < |s.accepted|
  {
    var cell := s.ring[Slot(t, n)];
    var (p, obj) := s.accepted[t];
    if cell.valid then cell.data == obj || (s.cons.Moved? && t == |s.popped|)
    else p < |s.pcs| && Holds(s.pcs[p]) && s.pcs[p].ticket == t
  }

  ghost predicate SlotsInv<T>(n: nat, s: State<T>)
    requires PowerOfTwo(n) && |s.ring| == n
  {
    && (forall p: nat :: p < |s.pcs| ==> HolderInv(n, s, p))
    && (forall t: nat :: FirstLive(s) <= t < |s.accepted| ==> TicketInv(n, s, t))
    && (forall t: nat :: |s.accepted| <= t < FirstLive(s) + n ==> !s.ring[Slot(t, n)].valid)
  }

  ghost predicate ConsumerInv<T>(n: nat, s: State<T>)
    requires PowerOfTwo(n) && |s.ring| == n
  {
    && |s.popped| <= |s.accepted|
    && (forall i :: 0 <= i < |s.popped| ==> s.popped[i] == s.accepted[i].1)
    && (match s.cons
        case Resting => true
        case NonEmpty => true
        case Validated => |s.popped| < |s.accepted| && s.ring[Slot(|s.popped|, n)].valid
        case Moved(o) => |s.popped| < |s.accepted| && s.ring[Slot(|s.popped|, n)].valid && o == s.accepted[|s.popped|].1
        case Cleared(o) => |s.popped| < |s.accepted| && o == s.accepted[|s.popped|].1
        case Released(o) => |s.popped| < |s.accepted| && o == s.accepted[|s.popped|].1)
  }

  ghost predicate Inv<T>(n: nat, s: State<T>)
    requires PowerOfTwo(n) && |s.ring| == n
  {
    ValidSize(n, |s.pcs|) && Accounting(n, s) && SlotsInv(n, s) && ConsumerInv(n, s)
  }

  lemma {:induction false} CountsAfter<T>(pcs: seq<Pc<T>>, p: nat, pc: Pc<T>)
    requires p < |pcs|
    ensures Admissions(pcs[p := pc])
            == Admissions(pcs) - (if pcs[p].Admitted? then 1 else 0) + (if pc.Admitted? then 1 else 0)
    ensures Denials(pcs[p := pc])
            == Denials(pcs) - (if pcs[p].Denied? then 1 else 0) + (if pc.Denied? then 1 else 0)
  {
    if p > 0 {
      CountsAfter(pcs[1..], p - 1, pc);
      assert pcs[p := pc][1..] == pcs[1..][p - 1 := pc];
    } else {
      assert pcs[p := pc][1..] == pcs[1..];
    }
  }

  lemma {:induction false} CountsBounded<T>(pcs: seq<Pc<T>>, p: nat)
    requires p < |pcs|
    ensures Admissions(pcs) + Denials(pcs) <= |pcs|
    ensures pcs[p].Idle? ==> Admissions(pcs) + Denials(pcs) < |pcs|
    ensures pcs[p].Admitted? ==> Admissions(pcs) > 0
    ensures pcs[p].Denied? ==> Denials(pcs) > 0
  {
    if |pcs| > 1 {
      CountsBounded(pcs[1..], if p > 0 then p - 1 else 0);
    }
  }

  /** The accounting after a producer has moved on, from what that changes. */
  lemma {:induction false} Accounted<T>(n: nat, s: State<T>, s': State<T>, p: nat)
    requires p < |s.pcs| == |s'.pcs| && Accounting(n, s) && s'.pcs == s.pcs[p := s'.pcs[p]]
    requires s'.popped == s.popped && s'.cons == s.cons && s'.tail == s.tail && s.accepted <= s'.accepted
    requires s'.head == Wrap64(|s'.accepted|) && s'.lost == Wrap64(|s'.refused|)
    requires |s'.accepted| - |s.accepted| == if s.pcs[p].Admitted? && !s'.pcs[p].Admitted? then 1 else 0
    requires s'.pcs[p].Admitted? ==> Occupied(s) < n
    requires s'.used - s.used
          == (if s'.pcs[p].Denied? || s'.pcs[p].Admitted? then 1 else 0) - (if s.pcs[p].Denied? then 1 else 0)
    requires s.pcs[p].Admitted? || s.pcs[p].Denied? ==> !s'.pcs[p].Admitted? && !s'.pcs[p].Denied?
    ensures Accounting(n, s')
  {
    CountsAfter(s.pcs, p, s'.pcs[p]);
  }

  lemma {:induction false} PushAccounting<T>(n: nat, s: State<T>, p: nat, obj: T)
    requires PowerOfTwo(n) && |s.ring| == n && p < |s.pcs|
    requires ValidSize(n, |s.pcs|) && Accounting(n, s)
    ensures Accounting(n, Push(n, s, p, obj))
  {
    var s' := Push(n, s, p, obj);
    CountsBounded(s.pcs, p);
    if s.pcs[p].Idle? {
      WrapFits(s.used + 1);
    } else if s.pcs[p].Denied? {
      WrapFits(s.used - 1);
    } else if s.pcs[p].Undone? {
      WrapNext(|s.refused|);
    } else if s.pcs[p].Admitted? {
      WrapNext(|s.accepted|);
    }
    assert s'.pcs == s.pcs[p := s'.pcs[p]];
    Accounted(n, s, s', p);
  }

  lemma {:induction false} PopAccounting<T>(n: nat, s: State<T>, junk: T)
    requires PowerOfTwo(n) && |s.ring| == n && ValidSize(n, |s.pcs|) && Accounting(n, s)
    requires s.cons.Moved? ==> |s.popped| < |s.accepted|
    ensures Accounting(n, Pop(n, s, junk))
  {
    if |s.pcs| > 0 {
      CountsBounded(s.pcs, 0);
    }
    if s.cons.Cleared? {
      WrapFits(s.used - 1);
    }
    WrapNext(|s.popped|);
  }

  /** Live tickets and the free positions behind them fall into different slots. */
  lemma {:induction false} LiveApart<T>(n: nat, s: State<T>, t: nat, u: nat)
    requires ValidSize(n, |s.pcs|) && Accounting(n, s)
    requires FirstLive(s) <= t < |s.accepted| && FirstLive(s) <= u < FirstLive(s) + n && t != u
    ensures Slot(t, n) != Slot(u, n)
  {
    SlotsApart(t, u, n);
  }

  lemma {:induction false} TicketsApart<T>(n: nat, s: State<T>, p: nat, q: nat)
    requires PowerOfTwo(n) && |s.ring| == n && Inv(n, s)
    requires p < |s.pcs| && q < |s.pcs| && p != q && Holds(s.pcs[p]) && Holds(s.pcs[q])
    ensures s.pcs[p].ticket != s.pcs[q].ticket && s.pcs[p].slot != s.pcs[q].slot
  {
    assert HolderInv(n, s, p) && HolderInv(n, s, q);
    LiveApart(n, s, s.pcs[p].ticket, s.pcs[q].ticket);
  }

  /** Steps of a producer that holds no ticket, before or after. */
  lemma {:induction false} SlotsUntouched<T>(n: nat, s: State<T>, s': State<T>, p: nat)
    requires PowerOfTwo(n) && |s.ring| == n && SlotsInv(n, s) && p < |s.pcs|
    requires s'.ring == s.ring && s'.accepted == s.accepted && s'.popped == s.popped && s'.cons == s.cons
    requires |s'.pcs| == |s.pcs| && s'.pcs == s.pcs[p := s'.pcs[p]] && !Holds(s.pcs[p]) && !Holds(s'.pcs[p])
    ensures SlotsInv(n, s')
  {
    forall q: nat | q < |s'.pcs|
      ensures HolderInv(n, s', q)
    {
      assert HolderInv(n, s, q);
    }
    forall t: nat | FirstLive(s') <= t < |s'.accepted|
      ensures TicketInv(n, s', t)
    {
      assert TicketInv(n, s, t);
      var owner := s.accepted[t].0;
      assert owner < |s.pcs| && owner != p ==> s'.pcs[owner] == s.pcs[owner];
    }
  }

  lemma {:induction false} SlotsAfterTicket<T>(n: nat, s: State<T>, p: nat, obj: T)
    requires PowerOfTwo(n) && |s.ring| == n && p < |s.pcs| && Inv(n, s) && s.pcs[p].Admitted?
    ensures SlotsInv(n, Push(n, s, p, obj))
  {
    var s' := Push(n, s, p, obj);
    CountsBounded(s.pcs, p);
    WrappedSlot(|s.accepted|, n);
    forall q: nat | q < |s'.pcs|
      ensures HolderInv(n, s', q)
    {
      assert HolderInv(n, s, q);
    }
    forall t: nat | FirstLive(s') <= t < |s'.accepted|
      ensures TicketInv(n, s', t)
    {
      if t < |s.accepted| {
        assert TicketInv(n, s, t);
        var owner := s.accepted[t].0;
        assert owner < |s.pcs| && owner != p ==> s'.pcs[owner] == s.pcs[owner];
      }
    }
  }

  lemma {:induction false} SlotsAfterStore<T>(n: nat, s: State<T>, p: nat, obj: T)
    requires PowerOfTwo(n) && |s.ring| == n && p < |s.pcs| && Inv(n, s) && Holds(s.pcs[p])
    ensures SlotsInv(n, Push(n, s, p, obj))
  {
    var s' := Push(n, s, p, obj);
    var ticket := s.pcs[p].ticket;
    assert HolderInv(n, s, p);
    forall q: nat | q < |s'.pcs|
      ensures HolderInv(n, s', q)
    {
      assert HolderInv(n, s, q);
      if q != p && Holds(s.pcs[q]) {
        TicketsApart(n, s, p, q);
      }
    }
    forall t: nat | FirstLive(s') <= t < |s'.accepted|
      ensures TicketInv(n, s', t)
    {
      assert TicketInv(n, s, t);
      var owner := s.accepted[t].0;
      assert owner < |s.pcs| && owner != p ==> s'.pcs[owner] == s.pcs[owner];
      if t != ticket {
        LiveApart(n, s, ticket, t);
      }
    }
    forall t: nat | |s'.accepted| <= t < FirstLive(s') + n
      ensures !s'.ring[Slot(t, n)].valid
    {
      LiveApart(n, s, ticket, t);
    }
  }

  lemma {:induction false} PushSlots<T>(n: nat, s: State<T>, p: nat, obj: T)
    requires PowerOfTwo(n) && |s.ring| == n && p < |s.pcs| && Inv(n, s)
    ensures SlotsInv(n, Push(n, s, p, obj))
  {
    if Holds(s.pcs[p]) {
      SlotsAfterStore(n, s, p, obj);
    } else if s.pcs[p].Admitted? {
      SlotsAfterTicket(n, s, p, obj);
    } else {
      SlotsUntouched(n, s, Push(n, s, p, obj), p);
    }
  }

  lemma {:induction false} SlotsAfterMove<T>(n: nat, s: State<T>, junk: T)
    requires PowerOfTwo(n) && |s.ring| == n && Inv(n, s) && s.cons.Validated?
    ensures SlotsInv(n, Pop(n, s, junk))
  {
    var s' := Pop(n, s, junk);
    WrappedSlot(|s.popped|, n);
    forall q: nat | q < |s'.pcs|
      ensures HolderInv(n, s', q)
    {
      assert HolderInv(n, s, q);
    }
    forall t: nat | FirstLive(s') <= t < |s'.accepted|
      ensures TicketInv(n, s', t)
    {
      assert TicketInv(n, s, t);
      if t != |s.popped| {
        LiveApart(n, s, |s.popped|, t);
      }
    }
  }

  lemma {:induction false} SlotsAfterClear<T>(n: nat, s: State<T>, junk: T)
    requires PowerOfTwo(n) && |s.ring| == n && Inv(n, s) && s.cons.Moved?
    ensures SlotsInv(n, Pop(n, s, junk))
  {
    var s' := Pop(n, s, junk);
    var first := |s.popped|;
    WrappedSlot(first, n);
    SlotPeriod(first, n);
    forall q: nat | q < |s'.pcs|
      ensures HolderInv(n, s', q)
    {
      assert HolderInv(n, s, q);
    }
    forall t: nat | FirstLive(s') <= t < |s'.accepted|
      ensures TicketInv(n, s', t)
    {
      assert TicketInv(n, s, t);
      LiveApart(n, s, first, t);
    }
    forall t: nat | |s'.accepted| <= t < FirstLive(s') + n
      ensures !s'.ring[Slot(t, n)].valid
    {
    }
  }

  lemma {:induction false} PopSlots<T>(n: nat, s: State<T>, junk: T)
    requires PowerOfTwo(n) && |s.ring| == n && Inv(n, s)
    ensures SlotsInv(n, Pop(n, s, junk))
  {
    match s.cons
    case Validated => SlotsAfterMove(n, s, junk);
    case Moved(_) => SlotsAfterClear(n, s, junk);
    case _ =>
      var s' := Pop(n, s, junk);
      forall q: nat | q < |s'.pcs|
        ensures HolderInv(n, s', q)
      {
        assert HolderInv(n, s, q);
      }
      forall t: nat | FirstLive(s') <= t < |s'.accepted|
        ensures TicketInv(n, s', t)
      {
        assert TicketInv(n, s, t);
      }
  }

  lemma {:induction false} PushConsumer<T>(n: nat, s: State<T>, p: nat, obj: T)
    requires PowerOfTwo(n) && |s.ring| == n && p < |s.pcs| && Inv(n, s)
    ensures ConsumerInv(n, Push(n, s, p, obj))
  {
    assert HolderInv(n, s, p);
  }

  lemma {:induction false} PopConsumer<T>(n: nat, s: State<T>, junk: T)
    requires PowerOfTwo(n) && |s.ring| == n && Inv(n, s)
    ensures ConsumerInv(n, Pop(n, s, junk))
  {
    WrappedSlot(|s.popped|, n);
    if s.cons.Validated? {
      assert TicketInv(n, s, |s.popped|);
    }
  }

  /** The invariant holds in every reachable state, for any number of producers and any interleaving. */
  lemma {:induction false} Reachable<T>(n: nat, producers: nat, init: T, schedule: seq<Action<T>>)
    requires ValidSize(n, producers)
    ensures Inv(n, Exec(n, producers, init, schedule))
  {
    if schedule == [] {
      StartInv(n, producers, init);
    } else {
      var k := |schedule| - 1;
      Reachable(n, producers, init, schedule[..k]);
      StepInv(n, Exec(n, producers, init, schedule[..k]), schedule[k]);
    }
  }

  lemma {:induction false} StepInv<T>(n: nat, s: State<T>, a: Action<T>)
    requires PowerOfTwo(n) && |s.ring| == n && Inv(n, s)
    ensures Inv(n, Apply(n, s, a))
  {
    match a
    case Produce(p, obj) =>
      if p < |s.pcs| {
        assert HolderInv(n, s, p);
        PushAccounting(n, s, p, obj);
        PushSlots(n, s, p, obj);
        PushConsumer(n, s, p, obj);
      }
    case Consume(junk) =>
      PopAccounting(n, s, junk);
      PopSlots(n, s, junk);
      PopConsumer(n, s, junk);
  }

  lemma {:induction false} NoneCounted<T>(pcs: seq<Pc<T>>)
    requires forall p :: 0 <= p < |pcs| ==> pcs[p].Idle?
    ensures Admissions(pcs) == Denials(pcs) == 0
  {
    if pcs != [] {
      NoneCounted(pcs[1..]);
    }
  }

  lemma {:induction false} StartInv<T>(n: nat, producers: nat, init: T)
    requires ValidSize(n, producers)
    ensures Inv(n, Start(n, producers, init))
  {
    NoneCounted(Start(n, producers, init).pcs);
  }

  // ---- What it means ----

  /** First in, first out, exactly once: what pop() has returned is the accepted objects in ticket order. */
  lemma {:induction false} Fifo<T>(n: nat, producers: nat, init: T, schedule: seq<Action<T>>)
    requires ValidSize(n, producers)
    ensures var s := Exec(n, producers, init, schedule);
            && |s.popped| <= |s.accepted|
            && forall i :: 0 <= i < |s.popped| ==> s.popped[i] == s.accepted[i].1
  {
    Reachable(n, producers, init, schedule);
  }

  /** The pushes of producer p, in order. */
  function Of<T>(log: seq<(nat, T)>, p: nat): seq<T> {
    if log == [] then []
    else
      var k := |log| - 1;
      if log[k].0 == p then Of(log[..k], p) + [log[k].1] else Of(log[..k], p)
  }

  function InHand<T>(pc: Pc<T>): seq<T> {
    if Holds(pc) then [pc.obj] else []
  }

  ghost predicate InOrder<T>(s: State<T>, p: nat)
    requires p < |s.pcs|
  {
    Of(s.accepted, p) == Of(s.completed, p) + InHand(s.pcs[p])
  }

  lemma {:induction false} OfAppend<T>(log: seq<(nat, T)>, p: nat, q: nat, obj: T)
    ensures Of(log + [(q, obj)], p) == if p == q then Of(log, p) + [obj] else Of(log, p)
  {
    assert (log + [(q, obj)])[..|log|] == log;
  }

  lemma {:induction false} PushOrder<T>(n: nat, s: State<T>, q: nat, obj: T, p: nat)
    requires PowerOfTwo(n) && |s.ring| == n && q < |s.pcs| && p < |s.pcs|
    requires (Holds(s.pcs[q]) ==> s.pcs[q].slot < n) && InOrder(s, p)
    ensures InOrder(Push(n, s, q, obj), p)
  {
    var s' := Push(n, s, q, obj);
    assert s'.pcs[p] == if p == q then s'.pcs[q] else s.pcs[p];
    match s.pcs[q]
    case Admitted(o) => TicketOrder(s, s', p, q, o);
    case Stored(_, _, o) => ReturnOrder(s, s', p, q, o);
    case _ => SameOrder(s, s', p);
  }

  lemma {:induction false} SameOrder<T>(s: State<T>, s': State<T>, p: nat)
    requires p < |s.pcs| == |s'.pcs| && InOrder(s, p)
    requires s'.accepted == s.accepted && s'.completed == s.completed && InHand(s'.pcs[p]) == InHand(s.pcs[p])
    ensures InOrder(s', p)
  {
  }

  lemma {:induction false} TicketOrder<T>(s: State<T>, s': State<T>, p: nat, q: nat, o: T)
    requires p < |s.pcs| == |s'.pcs| && q < |s.pcs| && InOrder(s, p)
    requires s'.accepted == s.accepted + [(q, o)] && s'.completed == s.completed
    requires if p == q then InHand(s.pcs[q]) == [] && InHand(s'.pcs[q]) == [o] else s'.pcs[p] == s.pcs[p]
    ensures InOrder(s', p)
  {
    OfAppend(s.accepted, p, q, o);
    if p == q {
      assert Of(s.completed, p) + [] == Of(s.completed, p);
    }
  }

  lemma {:induction false} ReturnOrder<T>(s: State<T>, s': State<T>, p: nat, q: nat, o: T)
    requires p < |s.pcs| == |s'.pcs| && q < |s.pcs| && InOrder(s, p)
    requires s'.accepted == s.accepted && s'.completed == s.completed + [(q, o)]
    requires if p == q then InHand(s.pcs[q]) == [o] && InHand(s'.pcs[q]) == [] else s'.pcs[p] == s.pcs[p]
    ensures InOrder(s', p)
  {
    OfAppend(s.completed, p, q, o);
    if p == q {
      assert Of(s'.completed, p) + [] == Of(s'.completed, p);
    }
  }

  /** A producer's accepted pushes are those that returned success, in order, and at most one under way. */
  lemma {:induction false} ProducerOrder<T>(n: nat, producers: nat, init: T, schedule: seq<Action<T>>, p: nat)
    requires ValidSize(n, producers) && p < producers
    ensures InOrder(Exec(n, producers, init, schedule), p)
  {
    if schedule != [] {
      var k := |schedule| - 1;
      var s, a := Exec(n, producers, init, schedule[..k]), schedule[k];
      ProducerOrder(n, producers, init, schedule[..k], p);
      Reachable(n, producers, init, schedule[..k]);
      if a.Produce? && a.p < producers {
        assert HolderInv(n, s, a.p);
        PushOrder(n, s, a.p, a.obj, p);
      }
    }
  }

  lemma {:induction false} OfPrefix<T>(log: seq<(nat, T)>, p: nat, k: nat)
    requires k <= |log|
    ensures Of(log[..k], p) <= Of(log, p)
    decreases |log|
  {
    if k < |log| {
      var m := |log| - 1;
      OfPrefix(log[..m], p, k);
      assert log[..m][..k] == log[..k];
    } else {
      assert log[..k] == log;
    }
  }

  /** So the consumer sees each producer's items in the order that producer pushed them. */
  lemma {:induction false} PoppedInPushOrder<T>(n: nat, producers: nat, init: T, schedule: seq<Action<T>>, p: nat)
    requires ValidSize(n, producers) && p < producers
    ensures var s := Exec(n, producers, init, schedule);
            && |s.popped| <= |s.accepted|
            && Of(s.accepted[..|s.popped|], p) <= Of(s.completed, p) + InHand(s.pcs[p])
  {
    Reachable(n, producers, init, schedule);
    ProducerOrder(n, producers, init, schedule, p);
    var s := Exec(n, producers, init, schedule);
    OfPrefix(s.accepted, p, |s.popped|);
  }

  /** Calls of push(), in the order they began: what idle producers were told to push. */
  ghost function Started<T>(n: nat, producers: nat, init: T, schedule: seq<Action<T>>): seq<(nat, T)>
    requires PowerOfTwo(n)
  {
    if schedule == [] then []
    else
      var k := |schedule| - 1;
      var s := Exec(n, producers, init, schedule[..k]);
      Started(n, producers, init, schedule[..k]) +
        match schedule[k]
        case Produce(p, obj) => if p < producers && s.pcs[p].Idle? then [(p, obj)] else []
        case Consume(_) => []
  }

  /** log is a merge of two others: every entry is from exactly one of them, in order. */
  ghost predicate Merged<T>(a: seq<T>, b: seq<T>, log: seq<T>)
    decreases |log|
  {
    if log == [] then a == b == []
    else
      var k := |log| - 1;
      || (a != [] && a[|a| - 1] == log[k] && Merged(a[..|a| - 1], b, log[..k]))
      || (b != [] && b[|b| - 1] == log[k] && Merged(a, b[..|b| - 1], log[..k]))
  }

  lemma {:induction false} MergedLeft<T>(a: seq<T>, b: seq<T>, log: seq<T>, x: T)
    requires Merged(a, b, log)
    ensures Merged(a + [x], b, log + [x])
  {
    assert (a + [x])[..|a|] == a && (log + [x])[..|log|] == log;
  }

  lemma {:induction false} MergedRight<T>(a: seq<T>, b: seq<T>, log: seq<T>, x: T)
    requires Merged(a, b, log)
    ensures Merged(a, b + [x], log + [x])
  {
    assert (b + [x])[..|b|] == b && (log + [x])[..|log|] == log;
  }

  /** The push a producer has begun without having been accepted or having returned. */
  function Undecided<T>(pc: Pc<T>): seq<T> {
    if pc.Admitted? || pc.Denied? || pc.Undone? then [pc.obj] else []
  }

  /** Producer p's calls are its accepted and its refused ones, each in order, and one undecided at most. */
  ghost predicate Decided<T>(s: State<T>, p: nat, started: seq<T>)
    requires p < |s.pcs|
  {
    var open := Undecided(s.pcs[p]);
    && |open| <= |started| && started[|started| - |open|..] == open
    && Merged(Of(s.accepted, p), Of(s.refused, p), started[..|started| - |open|])
  }

  lemma {:induction false} SameDecided<T>(s: State<T>, s': State<T>, p: nat, started: seq<T>)
    requires p < |s.pcs| == |s'.pcs| && Decided(s, p, started) && Undecided(s'.pcs[p]) == Undecided(s.pcs[p])
    requires Of(s'.accepted, p) == Of(s.accepted, p) && Of(s'.refused, p) == Of(s.refused, p)
    ensures Decided(s', p, started)
  {
  }

  lemma {:induction false} BegunDecided<T>(s: State<T>, s': State<T>, p: nat, started: seq<T>, obj: T)
    requires p < |s.pcs| == |s'.pcs| && Decided(s, p, started)
    requires Undecided(s.pcs[p]) == [] && Undecided(s'.pcs[p]) == [obj]
    requires s'.accepted == s.accepted && s'.refused == s.refused
    ensures Decided(s', p, started + [obj])
  {
    assert started[..|started|] == started && (started + [obj])[..|started|] == started;
  }

  lemma {:induction false} AcceptedDecided<T>(s: State<T>, s': State<T>, p: nat, started: seq<T>, o: T)
    requires p < |s.pcs| == |s'.pcs| && Decided(s, p, started)
    requires Undecided(s.pcs[p]) == [o] && Undecided(s'.pcs[p]) == []
    requires s'.accepted == s.accepted + [(p, o)] && s'.refused == s.refused
    ensures Decided(s', p, started)
  {
    var k := |started| - 1;
    OfAppend(s.accepted, p, p, o);
    MergedLeft(Of(s.accepted, p), Of(s.refused, p), started[..k], o);
    assert started[..k] + [o] == started[..|started|] by {
      assert started == started[..k] + started[k..];
    }
  }

  lemma {:induction false} RefusedDecided<T>(s: State<T>, s': State<T>, p: nat, started: seq<T>, o: T)
    requires p < |s.pcs| == |s'.pcs| && Decided(s, p, started)
    requires Undecided(s.pcs[p]) == [o] && Undecided(s'.pcs[p]) == []
    requires s'.accepted == s.accepted && s'.refused == s.refused + [(p, o)]
    ensures Decided(s', p, started)
  {
    var k := |started| - 1;
    OfAppend(s.refused, p, p, o);
    MergedRight(Of(s.accepted, p), Of(s.refused, p), started[..k], o);
    assert started[..k] + [o] == started[..|started|] by {
      assert started == started[..k] + started[k..];
    }
  }

  /** What a producer's step leaves of its own program counter and of the two logs. */
  lemma {:induction false} PushLogs<T>(n: nat, s: State<T>, p: nat, obj: T)
    requires n > 0 && |s.ring| == n && p < |s.pcs|
    requires Holds(s.pcs[p]) ==> s.pcs[p].slot < n
    ensures var s', pc, pc' := Push(n, s, p, obj), s.pcs[p], Push(n, s, p, obj).pcs[p];
            && (pc.Idle? ==> Undecided(pc') == [obj] && s'.accepted == s.accepted && s'.refused == s.refused)
            && (pc.Denied? ==> Undecided(pc') == [pc.obj] && s'.accepted == s.accepted && s'.refused == s.refused)
            && (pc.Undone? ==>
                  Undecided(pc') == [] && s'.accepted == s.accepted && s'.refused == s.refused + [(p, pc.obj)])
            && (pc.Admitted? ==>
                  Undecided(pc') == [] && s'.accepted == s.accepted + [(p, pc.obj)] && s'.refused == s.refused)
            && (Holds(pc) ==> Undecided(pc') == [] && s'.accepted == s.accepted && s'.refused == s.refused)
  {
  }

  /** One step of producer p itself. */
  lemma {:induction false} OwnStepDecided<T>(
      s: State<T>, s': State<T>, p: nat, obj: T, started: seq<T>)
    requires p < |s.pcs| == |s'.pcs| && Decided(s, p, started)
    requires s.pcs[p].Idle? ==> Undecided(s'.pcs[p]) == [obj] && s'.accepted == s.accepted && s'.refused == s.refused
    requires s.pcs[p].Denied? || Holds(s.pcs[p]) ==>
               Undecided(s'.pcs[p]) == Undecided(s.pcs[p]) && s'.accepted == s.accepted && s'.refused == s.refused
    requires s.pcs[p].Undone? ==>
               Undecided(s'.pcs[p]) == [] && s'.accepted == s.accepted && s'.refused == s.refused + [(p, s.pcs[p].obj)]
    requires s.pcs[p].Admitted? ==>
               Undecided(s'.pcs[p]) == [] && s'.accepted == s.accepted + [(p, s.pcs[p].obj)] && s'.refused == s.refused
    ensures Decided(s', p, if s.pcs[p].Idle? then started + [obj] else started)
  {
    match s.pcs[p]
    case Idle => BegunDecided(s, s', p, started, obj);
    case Undone(o) => RefusedDecided(s, s', p, started, o);
    case Admitted(o) => AcceptedDecided(s, s', p, started, o);
    case _ => SameDecided(s, s', p, started);
  }

  lemma {:induction false} PushOthers<T>(n: nat, s: State<T>, q: nat, obj: T, p: nat)
    requires n > 0 && |s.ring| == n && q < |s.pcs| && p < |s.pcs| && p != q
    ensures Push(n, s, q, obj).pcs[p] == s.pcs[p]
  {
  }

  lemma {:induction false} PopLogs<T>(n: nat, s: State<T>, junk: T)
    requires PowerOfTwo(n) && |s.ring| == n
    ensures var s' := Pop(n, s, junk); s'.pcs == s.pcs && s'.accepted == s.accepted && s'.refused == s.refused
  {
  }

  /** A step of another producer. */
  lemma {:induction false} OtherPushDecided<T>(n: nat, s: State<T>, q: nat, obj: T, p: nat, started: seq<T>)
    requires n > 0 && |s.ring| == n && p < |s.pcs| && q < |s.pcs| && q != p && Decided(s, p, started)
    requires Holds(s.pcs[q]) ==> s.pcs[q].slot < n
    ensures Decided(Push(n, s, q, obj), p, started)
  {
    PushLogs(n, s, q, obj);
    PushOthers(n, s, q, obj, p);
    OtherLogs(s, Push(n, s, q, obj), p, q);
    SameDecided(s, Push(n, s, q, obj), p, started);
  }

  lemma {:induction false} OtherLogs<T>(s: State<T>, s': State<T>, p: nat, q: nat)
    requires q < |s.pcs| && p != q
    requires s'.accepted == if s.pcs[q].Admitted? then s.accepted + [(q, s.pcs[q].obj)] else s.accepted
    requires s'.refused == if s.pcs[q].Undone? then s.refused + [(q, s.pcs[q].obj)] else s.refused
    ensures Of(s'.accepted, p) == Of(s.accepted, p) && Of(s'.refused, p) == Of(s.refused, p)
  {
    if s.pcs[q].Admitted? {
      OfAppend(s.accepted, p, q, s.pcs[q].obj);
    } else if s.pcs[q].Undone? {
      OfAppend(s.refused, p, q, s.pcs[q].obj);
    }
  }

  /**
     Nothing is made up and nothing is forgotten: a producer's calls of push() are, in order, those
     that were accepted and those that were refused, and at most one that is still undecided.
   */
  lemma {:induction false} PushesDecided<T>(n: nat, producers: nat, init: T, schedule: seq<Action<T>>, p: nat)
    requires ValidSize(n, producers) && p < producers
    ensures Decided(Exec(n, producers, init, schedule), p, Of(Started(n, producers, init, schedule), p))
  {
    if schedule != [] {
      var k := |schedule| - 1;
      var s, a := Exec(n, producers, init, schedule[..k]), schedule[k];
      var started := Started(n, producers, init, schedule[..k]);
      PushesDecided(n, producers, init, schedule[..k], p);
      Reachable(n, producers, init, schedule[..k]);
      if a.Produce? && a.p < producers {
        assert HolderInv(n, s, a.p);
        OfAppend(started, p, a.p, a.obj);
      }
      assert started + [] == started;
      if a.Consume? {
        PopLogs(n, s, a.junk);
        SameDecided(s, Pop(n, s, a.junk), p, Of(started, p));
      } else if a.p == p {
        PushLogs(n, s, p, a.obj);
        OwnStepDecided(s, Push(n, s, p, a.obj), p, a.obj, Of(started, p));
      } else if a.p < producers {
        OtherPushDecided(n, s, a.p, a.obj, p, Of(started, p));
      }
    }
  }

  ghost predicate FromProducers<T>(log: seq<(nat, T)>, producers: nat) {
    forall i :: 0 <= i < |log| ==> log[i].0 < producers
  }

  /** Only producers are accepted from. */
  lemma {:induction false} AcceptedFrom<T>(n: nat, producers: nat, init: T, schedule: seq<Action<T>>)
    requires ValidSize(n, producers)
    ensures FromProducers(Exec(n, producers, init, schedule).accepted, producers)
  {
    if schedule != [] {
      var k := |schedule| - 1;
      var s, a := Exec(n, producers, init, schedule[..k]), schedule[k];
      AcceptedFrom(n, producers, init, schedule[..k]);
      var s' := Apply(n, s, a);
      if a.Produce? && a.p < producers && s.pcs[a.p].Admitted? {
        assert s'.accepted == s.accepted + [(a.p, s.pcs[a.p].obj)];
      } else {
        assert s'.accepted == s.accepted;
      }
    }
  }

  lemma {:induction false} MergedHas<T>(a: seq<T>, b: seq<T>, log: seq<T>, x: T)
    requires Merged(a, b, log) && x in a
    ensures x in log
    decreases |log|
  {
    var k := |log| - 1;
    if x != log[k] {
      if a != [] && a[|a| - 1] == log[k] && Merged(a[..|a| - 1], b, log[..k]) {
        assert a == a[..|a| - 1] + [a[|a| - 1]];
        MergedHas(a[..|a| - 1], b, log[..k], x);
      } else {
        MergedHas(a, b[..|b| - 1], log[..k], x);
      }
    }
  }

  lemma {:induction false} OfHas<T>(log: seq<(nat, T)>, p: nat, i: nat)
    requires i < |log| && log[i].0 == p
    ensures log[i].1 in Of(log, p)
  {
    var k := |log| - 1;
    if i < k {
      OfHas(log[..k], p, i);
    }
  }

  lemma {:induction false} InOf<T>(log: seq<(nat, T)>, p: nat, x: T)
    requires x in Of(log, p)
    ensures (p, x) in log
  {
    var k := |log| - 1;
    if log[k] != (p, x) {
      InOf(log[..k], p, x);
      assert (p, x) in log[..k];
    }
  }

  /** Whatever the consumer gets was given to a call of push() by the producer its ticket names. */
  lemma {:induction false} PoppedWasPushed<T>(n: nat, producers: nat, init: T, schedule: seq<Action<T>>, i: nat)
    requires ValidSize(n, producers) && i < |Exec(n, producers, init, schedule).popped|
    ensures var s := Exec(n, producers, init, schedule);
            && i < |s.accepted| && s.accepted[i].0 < producers
            && (s.accepted[i].0, s.popped[i]) in Started(n, producers, init, schedule)
  {
    var s := Exec(n, producers, init, schedule);
    var started := Started(n, producers, init, schedule);
    Fifo(n, producers, init, schedule);
    AcceptedFrom(n, producers, init, schedule);
    var p, x := s.accepted[i].0, s.accepted[i].1;
    PushesDecided(n, producers, init, schedule, p);
    OfHas(s.accepted, p, i);
    var own := Of(started, p);
    MergedHas(Of(s.accepted, p), Of(s.refused, p), own[..|own| - |Undecided(s.pcs[p])|], x);
    InOf(started, p, x);
  }

  /**
     Slot exclusivity: a producer that drew a ticket finds its slot invalid (the unit test's
     "producer got valid slot" cannot occur), no two producers hold the same slot, and none holds
     the slot the consumer is moving data out of.
   */
  lemma {:induction false} SlotExclusivity<T>(n: nat, producers: nat, init: T, schedule: seq<Action<T>>, p: nat, q: nat)
    requires ValidSize(n, producers) && p < producers && q < producers
    requires Holds(Exec(n, producers, init, schedule).pcs[p])
    ensures var s := Exec(n, producers, init, schedule);
            && s.pcs[p].slot < n && !s.ring[s.pcs[p].slot].valid
            && (q != p && Holds(s.pcs[q]) ==> s.pcs[q].slot != s.pcs[p].slot)
            && (s.cons.Validated? || s.cons.Moved? ==> BitAnd(s.tail, n - 1) != s.pcs[p].slot)
  {
    var s := Exec(n, producers, init, schedule);
    Reachable(n, producers, init, schedule);
    assert HolderInv(n, s, p);
    if q != p && Holds(s.pcs[q]) {
      TicketsApart(n, s, p, q);
    }
    WrappedSlot(|s.popped|, n);
  }

  /** `used` counts occupied slots and failed pushes not yet undone: it never underflows, and `lost` is exact. */
  lemma {:induction false} UsedExact<T>(n: nat, producers: nat, init: T, schedule: seq<Action<T>>)
    requires ValidSize(n, producers)
    ensures var s := Exec(n, producers, init, schedule);
            && 0 <= Occupied(s) <= n
            && s.used == Occupied(s) + Denials(s.pcs) && Denials(s.pcs) <= producers
            && s.lost == Wrap64(|s.refused|)
  {
    Reachable(n, producers, init, schedule);
    var s := Exec(n, producers, init, schedule);
    if producers > 0 {
      CountsBounded(s.pcs, 0);
    }
  }

  /**
     A push is turned away exactly if occupied slots and failed pushes not yet undone together reach
     the size; with none of the latter, exactly if the queue is full.
   */
  lemma {:induction false} RefusedExactly<T>(
      n: nat, producers: nat, init: T, schedule: seq<Action<T>>, p: nat, obj: T)
    requires ValidSize(n, producers) && p < producers
    requires Exec(n, producers, init, schedule).pcs[p].Idle?
    ensures var s := Exec(n, producers, init, schedule);
            && (Push(n, s, p, obj).pcs[p].Denied? <==> Occupied(s) + Denials(s.pcs) >= n)
            && (Denials(s.pcs) == 0 ==> (Push(n, s, p, obj).pcs[p].Denied? <==> Occupied(s) == n))
  {
    Reachable(n, producers, init, schedule);
  }

  /**
     A pop returns nothing exactly if it finds `used` at zero, that is no slot occupied and no failed
     push to be undone, or finds the oldest ticket not drawn yet or its producer not yet done storing.
   */
  lemma {:induction false} EmptyExactly<T>(n: nat, producers: nat, init: T, schedule: seq<Action<T>>, junk: T)
    requires ValidSize(n, producers)
    ensures var s := Exec(n, producers, init, schedule);
            && |s.popped| <= |s.accepted|
            && (s.cons.Resting? ==>
                  (Pop(n, s, junk).cons.Resting? <==> Occupied(s) == 0 && Denials(s.pcs) == 0))
            && (s.cons.NonEmpty? ==>
                  (Pop(n, s, junk).cons.Resting? <==>
                     |s.popped| == |s.accepted| || Storing(s, s.accepted[|s.popped|].0, |s.popped|)))
  {
    var s := Exec(n, producers, init, schedule);
    Reachable(n, producers, init, schedule);
    WrappedSlot(|s.popped|, n);
    if s.cons.NonEmpty? {
      if |s.popped| < |s.accepted| {
        assert TicketInv(n, s, |s.popped|);
        var p := s.accepted[|s.popped|].0;
        if Storing(s, p, |s.popped|) {
          assert HolderInv(n, s, p);
        }
      } else {
        assert !s.ring[Slot(|s.popped|, n)].valid;
      }
    }
  }

  /** Producer p has drawn ticket t and not yet declared its slot valid. */
  predicate Storing<T>(s: State<T>, p: nat, t: nat) {
    p < |s.pcs| && Holds(s.pcs[p]) && s.pcs[p].ticket == t
  }

  /** Extend a known run by one step. */
  lemma {:induction false} ExecNext<T>(
      n: nat, producers: nat, init: T, schedule: seq<Action<T>>, s: State<T>, a: Action<T>, s': State<T>)
    requires PowerOfTwo(n) && Exec(n, producers, init, schedule) == s && Apply(n, s, a) == s'
    ensures Exec(n, producers, init, schedule + [a]) == s'
  {
    assert (schedule + [a])[..|schedule|] == schedule;
  }

  /** One slot and two producers: producer 0 draws the slot's ticket and stores x. */
  lemma {:induction false} SlotStored<T>(x: T) returns (schedule: seq<Action<T>>)
    ensures PowerOfTwo(1) && BitAnd(0, 0) == 0
    ensures Exec(1, 2, x, schedule)
            == State(1, 1, 0, 0, [Cell(false, x)], [Stored(0, 0, x), Idle], Resting, [(0, x)], [], [], [])
  {
    var p0 := Produce(0, x);
    assert BitAnd(1, 0) == 0 && BitAnd(0, 0) == 0;
    var out := [Cell(false, x)];
    var s0 := State(0, 0, 0, 0, out, [Idle, Idle], Resting, [], [], [], []);
    assert Start(1, 2, x) == s0;
    var s1 := State(1, 0, 0, 0, out, [Admitted(x), Idle], Resting, [], [], [], []);
    assert s0.pcs[0 := Admitted(x)] == s1.pcs;
    ExecNext(1, 2, x, [], s0, p0, s1);
    var s2 := State(1, 1, 0, 0, out, [Ticketed(0, 0, x), Idle], Resting, [(0, x)], [], [], []);
    assert s1.pcs[0 := Ticketed(0, 0, x)] == s2.pcs;
    ExecNext(1, 2, x, [] + [p0], s1, p0, s2);
    var s3 := State(1, 1, 0, 0, out, [Stored(0, 0, x), Idle], Resting, [(0, x)], [], [], []);
    assert s2.pcs[0 := Stored(0, 0, x)] == s3.pcs && out[0 := Cell(false, x)] == out;
    ExecNext(1, 2, x, [] + [p0] + [p0], s2, p0, s3);
    schedule := [] + [p0] + [p0] + [p0];
  }

  /** Its push returns, and producer 1 is turned away. */
  lemma {:induction false} FullAndRefused<T>(x: T) returns (schedule: seq<Action<T>>)
    ensures PowerOfTwo(1) && BitAnd(0, 0) == 0
    ensures Exec(1, 2, x, schedule)
            == State(2, 1, 0, 0, [Cell(true, x)], [Idle, Denied(x)], Resting, [(0, x)], [(0, x)], [], [])
  {
    var before := SlotStored(x);
    var s3 := Exec(1, 2, x, before);
    var s4 := State(1, 1, 0, 0, [Cell(true, x)], [Idle, Idle], Resting, [(0, x)], [(0, x)], [], []);
    assert s3.pcs[0 := Idle] == s4.pcs && s3.ring[0 := Cell(true, x)] == s4.ring;
    assert [] + [(0, x)] == s4.completed;
    ExecNext(1, 2, x, before, s3, Produce(0, x), s4);
    var s5 := s4.(used := 2, pcs := [Idle, Denied(x)]);
    assert s4.pcs[1 := Denied(x)] == s5.pcs;
    ExecNext(1, 2, x, before + [Produce(0, x)], s4, Produce(1, x), s5);
    schedule := before + [Produce(0, x)] + [Produce(1, x)];
  }

  /** The consumer then empties the slot. */
  lemma {:induction false} ThenPopped<T>(x: T, before: seq<Action<T>>) returns (schedule: seq<Action<T>>)
    requires PowerOfTwo(1) && BitAnd(0, 0) == 0
    requires Exec(1, 2, x, before)
             == State(2, 1, 0, 0, [Cell(true, x)], [Idle, Denied(x)], Resting, [(0, x)], [(0, x)], [], [])
    ensures Exec(1, 2, x, schedule)
            == State(1, 1, 0, 1, [Cell(false, x)], [Idle, Denied(x)], Resting, [(0, x)], [(0, x)], [], [x])
  {
    var c := Consume(x);
    var s0 := Exec(1, 2, x, before);
    ExecNext(1, 2, x, before, s0, c, s0.(cons := NonEmpty));
    ExecNext(1, 2, x, before + [c], s0.(cons := NonEmpty), c, s0.(cons := Validated));
    var s3 := s0.(cons := Moved(x));
    assert s0.ring[0 := Cell(true, x)] == s0.ring;
    ExecNext(1, 2, x, before + [c] + [c], s0.(cons := Validated), c, s3);
    var s4 := s0.(cons := Cleared(x), ring := [Cell(false, x)]);
    assert s0.ring[0 := Cell(false, x)] == s4.ring;
    ExecNext(1, 2, x, before + [c] + [c] + [c], s3, c, s4);
    var s5 := s4.(cons := Released(x), used := 1);
    ExecNext(1, 2, x, before + [c] + [c] + [c] + [c], s4, c, s5);
    var s6 := s5.(cons := Resting, tail := 1, popped := [x]);
    assert [] + [x] == s6.popped;
    ExecNext(1, 2, x, before + [c] + [c] + [c] + [c] + [c], s5, c, s6);
    schedule := before + [c] + [c] + [c] + [c] + [c] + [c];
  }

  /**
     A refusal may be spurious: producer 0 is turned away by a queue with no occupied slot, because
     producer 1, turned away while the slot was taken, has not undone its increment yet.
   */
  lemma {:induction false} SpuriousRefusal<T>(x: T)
    ensures ValidSize(1, 2)
    ensures exists schedule :: var s := Exec(1, 2, x, schedule);
              s.pcs[0].Idle? && Occupied(s) == 0 && Push(1, s, 0, x).pcs[0].Denied?
  {
    var before := FullAndRefused(x);
    var schedule := ThenPopped(x, before);
    var s := Exec(1, 2, x, schedule);
    assert Admissions(s.pcs[1..]) == 0;
  }
}
