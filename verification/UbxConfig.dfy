/**
 Key/value configuration messages (utils/rtk/opt/rtk/ubx_parser.py): UBX-CFG-VALSET writes items,
 a polled UBX-CFG-VALGET reads them back.
 */
module UbxConfig {
  import opened Words
  import opened UbxFrame
  import opened UbxStream

  datatype Error = UnknownKeyType(key: nat) | StructError | TooManyItems

  datatype Result<+T> = Ok(value: T) | Err(error: Error)

  /** Size of a key's value by bits 28 and up of the key; zero for the types the driver does not know. */
  function ValueSize(key: nat): (n: nat)
    ensures n <= 8
  {
    var t := key / 0x1000_0000;
    if t == 1 || t == 2 then 1 else if t == 3 then 2 else if t == 4 then 4 else if t == 5 then 8 else 0
  }

  function Limit(size: nat): (m: nat)
    ensures m > 0
  {
    if size == 0 then 1 else 256 * Limit(size - 1)
  }

  /** Little-endian bytes, as struct writes them. */
  function Le(v: nat, size: nat): (b: seq<Byte>)
    ensures |b| == size
  {
    if size == 0 then [] else [v % 256] + Le(v / 256, size - 1)
  }

  function FromLe(b: seq<Byte>): nat {
    if b == [] then 0 else b[0] + 256 * FromLe(b[1..])
  }

  lemma {:induction false} LeRoundTrip(v: nat, size: nat)
    requires v < Limit(size)
    ensures FromLe(Le(v, size)) == v
  {
    if size > 0 {
      LeRoundTrip(v / 256, size - 1);
      assert Le(v, size)[1..] == Le(v / 256, size - 1);
    }
  }

  // ---- VALSET ----

  type Item = (nat, nat)

  predicate Packable(item: Item) {
    ValueSize(item.0) > 0 && item.1 < Limit(ValueSize(item.0))
  }

  function ItemBytes(item: Item): (b: seq<Byte>)
    ensures |b| == 4 + ValueSize(item.0)
  {
    Le(item.0, 4) + Le(item.1, ValueSize(item.0))
  }

  function Encode(items: seq<Item>): seq<Byte> {
    if items == [] then [] else Encode(items[..|items| - 1]) + ItemBytes(items[|items| - 1])
  }

  datatype Layers = Layers(ram: bool, bbr: bool, flash: bool)

  /** Version, layer bits, transaction, padding. */
  function Header(layers: Layers, transaction: Byte): (b: seq<Byte>)
    ensures |b| == 4
  {
    [1, (if layers.ram then 1 else 0) + (if layers.bbr then 2 else 0) + (if layers.flash then 4 else 0), transaction, 0]
  }

  method StoreBytes(buf: array<Byte>, offset: nat, bytes: seq<Byte>)
    requires offset + |bytes| <= buf.Length
    modifies buf
    ensures buf[..offset + |bytes|] == old(buf[..offset]) + bytes
  {
    for i := 0 to |bytes|
      invariant buf[..offset + i] == old(buf[..offset]) + bytes[..i]
    {
      buf[offset + i] := bytes[i];
      assert bytes[..i + 1] == bytes[..i] + [bytes[i]];
    }
    assert bytes[..|bytes|] == bytes;
  }

  /** The first key of a type the driver does not know. */
  predicate FirstUnknown(items: seq<Item>, key: nat) {
    exists i :: 0 <= i < |items| && items[i].0 == key && ValueSize(key) == 0
                && forall j :: 0 <= j < i ==> ValueSize(items[j].0) > 0
  }

  /** The first pass over the items: their total length, or the first key of unknown type. */
  method DataLength(items: seq<Item>) returns (r: Result<nat>)
    ensures r.Ok? <==> forall item <- items :: ValueSize(item.0) > 0
    ensures r.Ok? ==> r.value == |Encode(items)|
    ensures r.Err? ==> r.error.UnknownKeyType? && FirstUnknown(items, r.error.key)
  {
    var dataLength := 0;
    for i := 0 to |items|
      invariant forall item <- items[..i] :: ValueSize(item.0) > 0
      invariant dataLength == |Encode(items[..i])|
    {
      EncodeNext(items, i);
      if ValueSize(items[i].0) == 0 {
        assert items[i] in items;
        assert forall j :: 0 <= j < i ==> items[j] in items[..i];
        return Err(UnknownKeyType(items[i].0));
      }
      dataLength := dataLength + 4 + ValueSize(items[i].0);
    }
    assert items[..|items|] == items;
    r := Ok(dataLength);
  }

  /** The payload of a VALSET message. The items fill the length computed beforehand exactly. */
  method Valset(layers: Layers, transaction: Byte, items: seq<Item>) returns (r: Result<seq<Byte>>)
    ensures r.Ok? <==> |items| <= 64 && forall item <- items :: Packable(item)
    ensures r.Ok? ==> r.value == Header(layers, transaction) + Encode(items)
    ensures r == Err(TooManyItems) <==> |items| > 64
    ensures r.Err? && r.error.UnknownKeyType? <==> |items| <= 64 && exists item <- items :: ValueSize(item.0) == 0
    ensures r.Err? && r.error.UnknownKeyType? ==> FirstUnknown(items, r.error.key)
  {
    if |items| > 64 {
      return Err(TooManyItems);
    }
    var dataLength := DataLength(items);
    if dataLength.Err? {
      return Err(dataLength.error);
    }
    var buf := new Byte[4 + dataLength.value](_ => 0);
    StoreBytes(buf, 0, Header(layers, transaction));
    var ok := PackItems(buf, items);
    if !ok {
      return Err(StructError);
    }
    r := Ok(buf[..]);
  }

  /** The second pass: keys and values behind the header, up to the buffer's end. */
  method PackItems(buf: array<Byte>, items: seq<Item>) returns (ok: bool)
    requires buf.Length == 4 + |Encode(items)|
    requires forall item <- items :: ValueSize(item.0) > 0
    modifies buf
    ensures ok <==> forall item <- items :: Packable(item)
    ensures ok ==> buf[..] == old(buf[..4]) + Encode(items)
  {
    ghost var header := buf[..4];
    var offset := 4;
    for i := 0 to |items|
      invariant forall item <- items[..i] :: Packable(item)
      invariant offset == 4 + |Encode(items[..i])| <= buf.Length
      invariant buf[..offset] == header + Encode(items[..i])
    {
      EncodeNext(items, i);
      EncodeFits(items, i + 1);
      if items[i].1 >= Limit(ValueSize(items[i].0)) {
        assert items[i] in items && !Packable(items[i]);
        return false;
      }
      StoreBytes(buf, offset, ItemBytes(items[i]));
      offset := offset + 4 + ValueSize(items[i].0);
    }
    assert items[..|items|] == items;
    assert buf[..] == buf[..offset];
    ok := true;
  }

  lemma {:induction false} EncodeNext(items: seq<Item>, i: nat)
    requires i < |items|
    ensures items[..i + 1] == items[..i] + [items[i]]
    ensures Encode(items[..i + 1]) == Encode(items[..i]) + ItemBytes(items[i])
  {
    assert items[..i + 1][..i] == items[..i];
  }

  lemma {:induction false} EncodeFits(items: seq<Item>, i: nat)
    requires i <= |items|
    ensures |Encode(items[..i])| <= |Encode(items)|
    decreases |items| - i
  {
    if i < |items| {
      EncodeNext(items, i);
      EncodeFits(items, i + 1);
    } else {
      assert items[..i] == items;
    }
  }

  // ---- VALGET ----

  /** The value a key of type 1 is read as is a bool. */
  function ReadValue(key: nat, raw: nat): nat {
    if key / 0x1000_0000 == 1 then (if raw == 0 then 0 else 1) else raw
  }

  function Decode(b: seq<Byte>, data: map<nat, nat>): Result<map<nat, nat>> {
    if b == [] then Ok(data)
    else if |b| < 4 then Err(StructError)
    else
      var key := FromLe(b[..4]);
      var size := ValueSize(key);
      if size == 0 then Err(UnknownKeyType(key))
      else if |b| < 4 + size then Err(StructError)
      else Decode(b[4 + size..], data[key := ReadValue(key, FromLe(b[4..4 + size]))])
  }

  /** The items behind the four header bytes; any byte string is read or refused. */
  method ValgetPolled(msg: seq<Byte>) returns (r: Result<map<nat, nat>>)
    ensures r == if |msg| < 4 then Err(StructError) else Decode(msg[4..], map[])
  {
    if |msg| < 4 {
      return Err(StructError);
    }
    var data: map<nat, nat> := map[];
    var offset := 4;
    while offset < |msg|
      invariant 4 <= offset <= |msg|
      invariant Decode(msg[offset..], data) == Decode(msg[4..], map[])
    {
      var b := msg[offset..];
      if offset + 4 > |msg| {
        return Err(StructError);
      }
      assert b[..4] == msg[offset..offset + 4];
      var key := FromLe(msg[offset..offset + 4]);
      offset := offset + 4;
      var size := ValueSize(key);
      if size == 0 {
        return Err(UnknownKeyType(key));
      }
      if offset + size > |msg| {
        return Err(StructError);
      }
      assert b[4..4 + size] == msg[offset..offset + size];
      assert b[4 + size..] == msg[offset + size..];
      data := data[key := ReadValue(key, FromLe(msg[offset..offset + size]))];
      offset := offset + size;
    }
    r := Ok(data);
  }

  // ---- Round trip ----

  /** The dictionary a sequence of items makes, a later item replacing an earlier one. */
  function AsMap(items: seq<Item>): map<nat, nat> {
    if items == [] then map[]
    else AsMap(items[..|items| - 1])[items[|items| - 1].0 := items[|items| - 1].1]
  }

  /** Every value as it is read back. */
  function AsRead(items: seq<Item>): (r: seq<Item>)
    ensures |r| == |items|
    ensures forall i :: 0 <= i < |items| ==> r[i] == (items[i].0, ReadValue(items[i].0, items[i].1))
  {
    seq(|items|, i requires 0 <= i < |items| => (items[i].0, ReadValue(items[i].0, items[i].1)))
  }

  predicate DistinctKeys(items: seq<Item>) {
    forall i, j :: 0 <= i < j < |items| ==> items[i].0 != items[j].0
  }

  lemma {:induction false} DecodeItem(item: Item, rest: seq<Byte>, data: map<nat, nat>)
    requires Packable(item)
    ensures Decode(ItemBytes(item) + rest, data) == Decode(rest, data[item.0 := ReadValue(item.0, item.1)])
  {
    var b, size := ItemBytes(item) + rest, ValueSize(item.0);
    assert item.0 < Limit(4) by {
      assert Limit(4) == 256 * Limit(3) && Limit(3) == 256 * Limit(2);
    }
    LeRoundTrip(item.0, 4);
    LeRoundTrip(item.1, size);
    assert b[..4] == Le(item.0, 4);
    assert b[4..4 + size] == Le(item.1, size);
    assert b[4 + size..] == rest;
  }

  lemma {:induction false} DecodeEncode(items: seq<Item>, rest: seq<Byte>)
    requires forall item <- items :: Packable(item)
    ensures Decode(Encode(items) + rest, map[]) == Decode(rest, AsMap(AsRead(items)))
  {
    if items == [] {
      assert Encode(items) + rest == rest;
    } else {
      var k := |items| - 1;
      var last := items[k];
      assert last in items;
      DecodeEncode(items[..k], ItemBytes(last) + rest);
      DecodeItem(last, rest, AsMap(AsRead(items[..k])));
      assert Encode(items) + rest == Encode(items[..k]) + (ItemBytes(last) + rest);
      assert AsRead(items)[..k] == AsRead(items[..k]);
    }
  }

  // ---- What the decoder accepts ----

  lemma {:induction false} FromLeRoundTrip(b: seq<Byte>)
    ensures FromLe(b) < Limit(|b|) && Le(FromLe(b), |b|) == b
  {
    if b != [] {
      FromLeRoundTrip(b[1..]);
      DivModUnique(FromLe(b), 256, FromLe(b[1..]), b[0]);
    }
  }

  lemma {:induction false} EncodeLast(items: seq<Item>, last: Item)
    ensures Encode(items + [last]) == Encode(items) + ItemBytes(last)
  {
    assert (items + [last])[..|items|] == items;
  }

  lemma {:induction false} Regroup(a: seq<Byte>, b: seq<Byte>, c: seq<Byte>)
    ensures a + b + c == a + (b + c)
  {
  }

  lemma {:induction false} EncodeFront(item: Item, items: seq<Item>)
    ensures Encode([item] + items) == ItemBytes(item) + Encode(items)
  {
    if items == [] {
      EncodeLast([], item);
      assert [item] + items == [] + [item];
    } else {
      var init, last := items[..|items| - 1], items[|items| - 1];
      EncodeFront(item, init);
      EncodeLast([item] + init, last);
      assert [item] + items == [item] + init + [last];
      Regroup(ItemBytes(item), Encode(init), ItemBytes(last));
    }
  }

  /** The first item of a byte string the decoder gets past. */
  lemma {:induction false} ItemRead(b: seq<Byte>) returns (item: Item, rest: seq<Byte>)
    requires |b| >= 4 && ValueSize(FromLe(b[..4])) > 0 && |b| >= 4 + ValueSize(FromLe(b[..4]))
    ensures Packable(item) && b == ItemBytes(item) + rest
  {
    var key := FromLe(b[..4]);
    var size := ValueSize(key);
    FromLeRoundTrip(b[..4]);
    FromLeRoundTrip(b[4..4 + size]);
    item, rest := (key, FromLe(b[4..4 + size])), b[4 + size..];
    InThree(b, 4, 4 + size);
  }

  lemma {:induction false} InThree(b: seq<Byte>, i: nat, j: nat)
    requires i <= j <= |b|
    ensures b == b[..i] + b[i..j] + b[j..]
  {
  }

  /** Where the decoder stops, at the end or before something that is no item. */
  ghost predicate StopsAt(rest: seq<Byte>, r: Result<map<nat, nat>>) {
    match r
    case Ok(_) => rest == []
    case Err(e) =>
      if e.UnknownKeyType? then |rest| >= 4 && FromLe(rest[..4]) == e.key && ValueSize(e.key) == 0
      else
        && e == StructError && rest != []
        && (|rest| < 4 || (0 < ValueSize(FromLe(rest[..4])) && |rest| < 4 + ValueSize(FromLe(rest[..4]))))
  }

  predicate HasItem(b: seq<Byte>) {
    |b| >= 4 && ValueSize(FromLe(b[..4])) > 0 && |b| >= 4 + ValueSize(FromLe(b[..4]))
  }

  lemma {:induction false} NoItem(b: seq<Byte>, data: map<nat, nat>)
    requires !HasItem(b)
    ensures StopsAt(b, Decode(b, data))
  {
  }

  /** As far as it gets, the decoder has read whole items. */
  lemma {:induction false} ItemsRead(b: seq<Byte>, data: map<nat, nat>) returns (items: seq<Item>, rest: seq<Byte>)
    ensures (forall item <- items :: Packable(item)) && b == Encode(items) + rest && StopsAt(rest, Decode(b, data))
    decreases |b|
  {
    if HasItem(b) {
      var item, tail := ItemRead(b);
      DecodeItem(item, tail, data);
      var more;
      more, rest := ItemsRead(tail, data[item.0 := ReadValue(item.0, item.1)]);
      EncodeFront(item, more);
      items := [item] + more;
      Regroup(ItemBytes(item), Encode(more), rest);
    } else {
      items, rest := [], b;
      NoItem(b, data);
      assert Encode(items) + rest == rest;
    }
  }

  /** The decoder accepts exactly what the encoder writes: whole items of known types with values in range. */
  lemma {:induction false} DecodesExactly(b: seq<Byte>)
    ensures Decode(b, map[]).Ok? <==> exists items :: (forall item <- items :: Packable(item)) && b == Encode(items)
  {
    if Decode(b, map[]).Ok? {
      var items, rest := ItemsRead(b, map[]);
      assert Encode(items) + rest == Encode(items);
    }
    if items :| (forall item <- items :: Packable(item)) && b == Encode(items) {
      ConfigRoundTrip(items);
    }
  }

  lemma {:induction false} LowByteFirst(v: nat, size: nat, low: Byte, high: nat)
    requires size > 0 && v == low + 256 * high
    ensures Le(v, size) == [low] + Le(high, size - 1)
  {
    DivModUnique(v, 256, high, low);
  }

  lemma {:induction false} Word(a: Byte, b: Byte, c: Byte, d: Byte)
    ensures Le(a + 256 * (b + 256 * (c + 256 * d)), 4) == [a, b, c, d]
  {
    LowByteFirst(a + 256 * (b + 256 * (c + 256 * d)), 4, a, b + 256 * (c + 256 * d));
    LowByteFirst(b + 256 * (c + 256 * d), 3, b, c + 256 * d);
    LowByteFirst(c + 256 * d, 2, c, d);
    LowByteFirst(d, 1, d, 0);
  }

  /** The bytes of items as the receiver expects them, for values of one, two, four and eight bytes. */
  lemma {:induction false} KnownItems()
    ensures ItemBytes((0x1052_0005, 1)) == [0x05, 0x00, 0x52, 0x10, 0x01]
    ensures ItemBytes((0x2091_0007, 5)) == [0x07, 0x00, 0x91, 0x20, 0x05]
  {
    Word(0x05, 0x00, 0x52, 0x10);
    LowByteFirst(1, 1, 1, 0);
    Word(0x07, 0x00, 0x91, 0x20);
    LowByteFirst(5, 1, 5, 0);
  }

  lemma {:induction false} KnownWiderItems()
    ensures ItemBytes((0x3021_0001, 200)) == [0x01, 0x00, 0x21, 0x30, 0xc8, 0x00]
    ensures ItemBytes((0x4052_0001, 115200)) == [0x01, 0x00, 0x52, 0x40, 0x00, 0xc2, 0x01, 0x00]
  {
    Word(0x01, 0x00, 0x21, 0x30);
    LowByteFirst(200, 2, 200, 0);
    LowByteFirst(0, 1, 0, 0);
    Word(0x01, 0x00, 0x52, 0x40);
    Word(0x00, 0xc2, 0x01, 0x00);
  }

  lemma {:induction false} KnownLongItem(v: nat)
    requires v == 0x0102_0304_0506_0708
    ensures ItemBytes((0x5036_0001, v))
         == [0x01, 0x00, 0x36, 0x50, 0x08, 0x07, 0x06, 0x05, 0x04, 0x03, 0x02, 0x01]
  {
    var high := 0x0102_0304;
    Word(0x01, 0x00, 0x36, 0x50);
    LongWord(v, 8, high);
    Word(0x04, 0x03, 0x02, 0x01);
  }

  lemma {:induction false} LongWord(v: nat, size: nat, high: nat)
    requires size > 3 && v == 0x08 + 256 * (0x07 + 256 * (0x06 + 256 * (0x05 + 256 * high)))
    ensures Le(v, size) == [0x08, 0x07, 0x06, 0x05] + Le(high, size - 4)
  {
    var rest := 0x06 + 256 * (0x05 + 256 * high);
    LowBytes(v, size, 0x08, 0x07, rest);
    LowBytes(rest, size - 2, 0x06, 0x05, high);
    assert [0x08, 0x07] + ([0x06, 0x05] + Le(high, size - 4)) == [0x08, 0x07, 0x06, 0x05] + Le(high, size - 4);
  }

  lemma {:induction false} LowBytes(v: nat, size: nat, low: Byte, next: Byte, high: nat)
    requires size > 1 && v == low + 256 * (next + 256 * high)
    ensures Le(v, size) == [low, next] + Le(high, size - 2)
  {
    LowByteFirst(v, size, low, next + 256 * high);
    LowByteFirst(next + 256 * high, size - 1, next, high);
  }

  /** Bits 0, 1 and 2 of the second header byte select the layers; the first is the version. */
  lemma {:induction false} LayerBits(layers: Layers, transaction: Byte)
    ensures var h: seq<Byte> := Header(layers, transaction);
            && h[0] == 1 && h[2] == transaction && h[3] == 0 && h[1] < 8
            && (h[1] % 2 == 1 <==> layers.ram)
            && (h[1] / 2 % 2 == 1 <==> layers.bbr)
            && (h[1] / 4 == 1 <==> layers.flash)
  {
  }

  /** Written items are read back, keys of type 1 as truth values. */
  lemma {:induction false} ConfigRoundTrip(items: seq<Item>)
    requires forall item <- items :: Packable(item)
    ensures Decode(Encode(items), map[]) == Ok(AsMap(AsRead(items)))
  {
    DecodeEncode(items, []);
    assert Encode(items) + [] == Encode(items);
  }

  lemma {:induction false} AsMapGet(items: seq<Item>, i: nat)
    requires DistinctKeys(items) && i < |items|
    ensures items[i].0 in AsMap(items) && AsMap(items)[items[i].0] == items[i].1
  {
    var k := |items| - 1;
    if i < k {
      AsMapGet(items[..k], i);
    }
  }

  /** They come back unchanged exactly if no key of type 1 was given a value above 1. */
  lemma {:induction false} RecoveredExactly(items: seq<Item>)
    requires DistinctKeys(items) && forall item <- items :: Packable(item)
    ensures Decode(Encode(items), map[]) == Ok(AsMap(items))
            <==> forall item <- items :: item.0 / 0x1000_0000 == 1 ==> item.1 <= 1
  {
    ConfigRoundTrip(items);
    var back := AsRead(items);
    if forall item <- items :: item.0 / 0x1000_0000 == 1 ==> item.1 <= 1 {
      forall i | 0 <= i < |items|
        ensures back[i] == items[i]
      {
        assert items[i] in items;
      }
      assert back == items;
    }
    if AsMap(back) == AsMap(items) {
      forall item | item in items && item.0 / 0x1000_0000 == 1
        ensures item.1 <= 1
      {
        var i :| 0 <= i < |items| && items[i] == item;
        AsMapGet(items, i);
        AsMapGet(back, i);
      }
    }
  }

  /** A flag written as 2 is packed as 2 and read back as 1. */
  lemma {:induction false} FlagNotRecovered()
    ensures var items := [(0x1000_0001, 2)];
            && Packable(items[0])
            && Decode(Encode(items), map[]) == Ok(map[0x1000_0001 := 1])
            && AsMap(items) == map[0x1000_0001 := 2]
  {
    var items: seq<Item> := [(0x1000_0001, 2)];
    assert items[..0] == [];
    assert Limit(1) == 256 * Limit(0);
    ConfigRoundTrip(items);
    assert AsRead(items)[..0] == [];
  }

  lemma {:induction false} PayloadFits(items: seq<Item>)
    ensures |Encode(items)| <= 12 * |items|
  {
    if items != [] {
      PayloadFits(items[..|items| - 1]);
    }
  }

  /** A VALSET message survives the serial line: any reader of the stream finds it and its items. */
  lemma {:induction false} ValsetOnTheWire(
      layers: Layers, transaction: Byte, items: seq<Item>, before: seq<Byte>, after: seq<Byte>)
    requires |items| <= 64 && forall item <- items :: Packable(item)
    requires NoPreamble(before) && NoPreamble(after)
    ensures var payload := Header(layers, transaction) + Encode(items);
            && |payload| <= MAX_LEN
            && Frames(before + (Serialized(Frame(0x06, 0x8a, payload)) + after)) == [Frame(0x06, 0x8a, payload)]
            && Decode(payload[4..], map[]) == Ok(AsMap(AsRead(items)))
  {
    PayloadFits(items);
    ConfigRoundTrip(items);
    var payload := Header(layers, transaction) + Encode(items);
    var f := Frame(0x06, 0x8a, payload);
    assert payload[4..] == Encode(items);
    StreamRoundTrip([f], [before, after]);
    assert [f][1..] == [] && [before, after][1..] == [after];
  }
}
