/**
 Reading the receiver's configuration page by page (utils/rtk/opt/rtk/f9p_rover.py, cfg_get).
 */
module F9pRover {
  import opened UbxConfig
  import opened UbxFrame

  /** Parsed messages as far as cfg_get tells them apart; class and id are those acknowledged. */
  datatype Msg = AckAck(cls: nat, id: nat) | AckNak(cls: nat, id: nat) | Polled(data: map<nat, nat>) | Other

  const VALGET_CLS: nat := 0x06
  const VALGET_ID: nat := 0x8b
  const PAGE: nat := 64

  /** Messages that may arrive at any time: anything unrelated, and acknowledgements of earlier polls. */
  predicate Unrelated(m: Msg) {
    !m.Polled? && m != AckNak(VALGET_CLS, VALGET_ID)
  }

  predicate Noise(ms: seq<Msg>) {
    forall m <- ms :: Unrelated(m)
  }

  function Page(items: seq<Item>, pos: nat): (p: seq<Item>)
    ensures |p| <= PAGE
  {
    if pos >= |items| then []
    else if pos + PAGE <= |items| then items[pos..pos + PAGE]
    else items[pos..]
  }

  /** What the receiver answers a poll at a position with: a page and an ACK, or a NAK if there is none. */
  function Answer(items: seq<Item>, pos: nat): seq<Msg> {
    if Page(items, pos) == [] then [AckNak(VALGET_CLS, VALGET_ID)]
    else [Polled(AsMap(Page(items, pos))), AckAck(VALGET_CLS, VALGET_ID)]
  }

  /** Messages that arrive before and after the answer to one poll. */
  datatype Around = Around(before: seq<Msg>, after: seq<Msg>)

  /** The receiver and the serial line: `queue` holds messages sent and not yet read. */
  class Device {
    const items: seq<Item>
    var queue: seq<Msg>
    var polls: nat

    constructor (items: seq<Item>, queue: seq<Msg>)
      ensures this.items == items && this.queue == queue && polls == 0
    {
      this.items := items;
      this.queue := queue;
      polls := 0;
    }

    /** A poll; other messages arrive before and after the answer. The position is packed in 16 bits. */
    method Poll(pos: nat, before: seq<Msg>, after: seq<Msg>) returns (ok: bool)
      modifies this`queue, this`polls
      ensures ok <==> pos < 65536
      ensures ok ==> queue == old(queue) + before + Answer(items, pos) + after && polls == old(polls) + 1
      ensures !ok ==> queue == old(queue) && polls == old(polls)
    {
      if pos >= 65536 {
        return false;
      }
      queue := queue + before + Answer(items, pos) + after;
      polls := polls + 1;
      ok := true;
    }
  }

  /** Messages are skipped until the answer is read; what follows it stays queued. */
  method ReadAnswer(device: Device, ghost skipped: seq<Msg>, ghost rest: seq<Msg>) returns (m: Msg)
    requires Noise(skipped) && rest != [] && !Unrelated(rest[0]) && device.queue == skipped + rest
    modifies device`queue
    ensures m == rest[0] && device.queue == rest[1..]
  {
    ghost var n := 0;
    while true
      invariant n <= |skipped| && device.queue == skipped[n..] + rest
      decreases |device.queue|
    {
      m := device.queue[0];
      device.queue := device.queue[1..];
      assert n < |skipped| ==> m == skipped[n] && skipped[n] in skipped;
      if m.Polled? || m == AckNak(VALGET_CLS, VALGET_ID) {
        return;
      }
      n := n + 1;
    }
  }

  /** Poll and wait for the answer. */
  method PollPage(device: Device, pos: nat, before: seq<Msg>, after: seq<Msg>) returns (m: Option<Msg>)
    requires Noise(device.queue) && Noise(before) && Noise(after)
    modifies device`queue, device`polls
    ensures Noise(device.queue)
    ensures m.Some? <==> pos < 65536
    ensures m.Some? ==> device.polls == old(device.polls) + 1
    ensures m.Some? ==> var page := Page(device.items, pos);
                        m.value == if page == [] then AckNak(VALGET_CLS, VALGET_ID) else Polled(AsMap(page))
  {
    ghost var skipped := device.queue + before;
    var ok := device.Poll(pos, before, after);
    if !ok {
      return None;
    }
    ghost var rest := Answer(device.items, pos) + after;
    assert device.queue == skipped + rest;
    var answer := ReadAnswer(device, skipped, rest);
    m := Some(answer);
  }

  /**
     cfg_get against such a receiver, with unrelated messages and stale acknowledgements anywhere:
     it returns the whole configuration after one poll per started page, counting the empty page
     behind full ones, exactly if the last position still fits 16 bits.
   */
  method CfgGet(device: Device, keys: nat, noise: seq<Around>) returns (r: Option<map<nat, nat>>)
    requires DistinctKeys(device.items) && Noise(device.queue) && device.polls == 0
    requires forall a <- noise :: Noise(a.before) && Noise(a.after)
    modifies device`queue, device`polls
    ensures r.Some? <==> keys <= 64 && |device.items| < 65536
    ensures r.Some? ==> r.value == AsMap(device.items) && device.polls == |device.items| / 64 + 1
    ensures Noise(device.queue)
  {
    if keys > 64 {
      return None;
    }
    var items := device.items;
    var data: map<nat, nat> := map[];
    var pos := 0;
    assert items[..0] == [];
    while true
      invariant pos <= |items| && pos == PAGE * device.polls
      invariant data == AsMap(items[..pos]) && Noise(device.queue)
      decreases |items| - pos
    {
      var around := if device.polls < |noise| then noise[device.polls] else Around([], []);
      var m := PollPage(device, pos, around.before, around.after);
      if m.None? {
        return None;
      }
      PageAppended(items, pos, data);
      PollCount(|items|, pos, device.polls);
      if m.value.AckNak? {
        return Some(data);
      }
      data := data + m.value.data;
      if |m.value.data| < PAGE {
        return Some(data);
      }
      pos := pos + PAGE;
    }
  }

  lemma {:induction false} PollCount(n: nat, pos: nat, polls: nat)
    requires pos <= n && polls > 0 && pos == PAGE * (polls - 1) && pos < 65536
    ensures n - pos < PAGE ==> polls == n / PAGE + 1 && n < 65536
    ensures n - pos >= PAGE ==> pos + PAGE <= 65536
  {
  }

  lemma {:induction false} AsMapAppend(a: seq<Item>, b: seq<Item>)
    ensures AsMap(a + b) == AsMap(a) + AsMap(b)
  {
    if b == [] {
      assert a + b == a;
    } else {
      var k := |b| - 1;
      AsMapAppend(a, b[..k]);
      assert (a + b)[..|a + b| - 1] == a + b[..k];
    }
  }

  /** A full page continues the map of the items before it; a shorter one completes the map of them all. */
  lemma {:induction false} PageAppended(items: seq<Item>, pos: nat, data: map<nat, nat>)
    requires DistinctKeys(items) && pos <= |items| && data == AsMap(items[..pos])
    ensures var page := Page(items, pos);
            && |AsMap(page)| == |page| == (if |items| - pos < PAGE then |items| - pos else PAGE)
            && (if |page| == PAGE then data + AsMap(page) == AsMap(items[..pos + PAGE])
                else data + AsMap(page) == AsMap(items))
            && (page == [] ==> data == AsMap(items))
  {
    var page := Page(items, pos);
    PageFollows(items, pos);
    AsMapAppend(items[..pos], page);
    DistinctCount(page);
    if page == [] {
      assert AsMap(page) == map[];
    }
  }

  lemma {:induction false} PageFollows(items: seq<Item>, pos: nat)
    requires DistinctKeys(items) && pos <= |items|
    ensures var page := Page(items, pos);
            && |page| == (if |items| - pos < PAGE then |items| - pos else PAGE)
            && items[..pos] + page == (if |page| < PAGE then items else items[..pos + PAGE])
            && DistinctKeys(page)
  {
    var page := Page(items, pos);
    assert forall i :: 0 <= i < |page| ==> page[i] == items[pos + i];
  }

  lemma {:induction false} AsMapKeys(items: seq<Item>, key: nat)
    ensures key in AsMap(items) <==> exists i :: 0 <= i < |items| && items[i].0 == key
  {
    if items != [] {
      var k := |items| - 1;
      AsMapKeys(items[..k], key);
      if i :| 0 <= i < |items| && items[i].0 == key {
        assert i < k ==> items[..k][i].0 == key;
      }
    }
  }

  lemma {:induction false} DistinctCount(items: seq<Item>)
    requires DistinctKeys(items)
    ensures |AsMap(items)| == |items|
  {
    if items != [] {
      var k := |items| - 1;
      DistinctCount(items[..k]);
      AsMapKeys(items[..k], items[k].0);
    }
  }
}
