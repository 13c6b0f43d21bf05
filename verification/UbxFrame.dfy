/**
 UBX frames of the receiver driver (utils/rtk/opt/rtk/ubx_parser.py): serializing, parsing, and
 what the 8-bit Fletcher checksum (section 3.4 of the u-blox F9 interface description) protects.
 */
module UbxFrame {
  import opened Words

  type Byte = x: int | 0 <= x < 256

  datatype Frame = Frame(cls: Byte, id: Byte, payload: seq<Byte>)

  const PREAMB0: Byte := 0xb5
  const PREAMBLE: seq<Byte> := [0xb5, 0x62]
  const HEADER_SIZE: nat := 6
  const MAX_LEN: nat := 2048

  // ---- Checksum ----

  function SumA(s: seq<Byte>): nat {
    if s == [] then 0 else SumA(s[..|s| - 1]) + s[|s| - 1]
  }

  function SumB(s: seq<Byte>): nat {
    if s == [] then 0 else SumB(s[..|s| - 1]) + SumA(s)
  }

  /** Byte i of n counted n - i times. */
  function Weighted(s: seq<Byte>): nat {
    if s == [] then 0 else |s| * s[0] + Weighted(s[1..])
  }

  function CkA(s: seq<Byte>): Byte {
    SumA(s) % 256
  }

  function CkB(s: seq<Byte>): Byte {
    SumB(s) % 256
  }

  lemma {:induction false} SumAFront(s: seq<Byte>)
    requires s != []
    ensures SumA(s) == s[0] + SumA(s[1..])
  {
    if |s| > 1 {
      SumAFront(s[..|s| - 1]);
      assert s[..|s| - 1][1..] == s[1..][..|s| - 2];
    } else {
      assert s[..0] == [] && s[1..] == [];
    }
  }

  lemma {:induction false} WeightedAppend(s: seq<Byte>, b: Byte)
    ensures Weighted(s + [b]) == Weighted(s) + SumA(s + [b])
  {
    SumAFront(s + [b]);
    if s != [] {
      WeightedAppend(s[1..], b);
      assert (s + [b])[1..] == s[1..] + [b];
      assert (|s| + 1) * s[0] == |s| * s[0] + s[0];
    } else {
      assert s + [b] == [b];
    }
  }

  /** The sum of running sums is the closed form. */
  lemma {:induction false} SumBClosed(s: seq<Byte>)
    ensures SumB(s) == Weighted(s)
  {
    if s != [] {
      var init := s[..|s| - 1];
      SumBClosed(init);
      WeightedAppend(init, s[|s| - 1]);
      assert s == init + [s[|s| - 1]];
    }
  }

  lemma {:induction false} Is256()
    ensures PowerOfTwo(256)
  {
    Pow2IsPowerOfTwo(8);
    Pow2Square(4, 16);
  }

  lemma {:induction false} SumOfResidues(a: nat, b: nat)
    ensures (a % 256 + b % 256) % 256 == (a + b) % 256
  {
    var q := a / 256 + b / 256;
    DivModUnique(256 * q, 256, q, 0);
    ModAdd(a % 256 + b % 256, 256 * q, 256);
    assert a % 256 + b % 256 + 256 * q == a + b;
  }

  /** `x & 0xFF` keeps the residue. */
  function LowByte(x: nat): (r: Byte)
    ensures r == x % 256
  {
    Is256();
    MaskIsMod(x, 256);
    BitAnd(x, 0xFF)
  }

  lemma {:induction false} ChecksumStep(s: seq<Byte>, b: Byte)
    ensures LowByte(CkA(s) + b) == CkA(s + [b])
    ensures LowByte(CkB(s) + CkA(s + [b])) == CkB(s + [b])
  {
    SumsExtended(s, b);
    ByteAdded(SumA(s), b);
    SumOfResidues(SumB(s), SumA(s + [b]));
  }

  lemma {:induction false} ByteAdded(a: nat, b: Byte)
    ensures (a % 256 + b) % 256 == (a + b) % 256
  {
    SumOfResidues(a, b);
    DivModUnique(b, 256, 0, b);
  }

  lemma {:induction false} SumsExtended(s: seq<Byte>, b: Byte)
    ensures SumA(s + [b]) == SumA(s) + b
    ensures SumB(s + [b]) == SumB(s) + SumA(s + [b])
  {
    assert (s + [b])[..|s|] == s;
  }

  /** The running sums over buf[lo..hi] are those of the whole range. */
  method ComputeChecksum(buf: seq<Byte>, lo: nat, hi: nat) returns (ckA: Byte, ckB: Byte)
    requires lo <= hi <= |buf|
    ensures ckA == CkA(buf[lo..hi]) && ckB == CkB(buf[lo..hi])
  {
    ckA, ckB := 0, 0;
    for n := lo to hi
      invariant ckA == CkA(buf[lo..n]) && ckB == CkB(buf[lo..n])
    {
      ChecksumStep(buf[lo..n], buf[n]);
      assert buf[lo..n + 1] == buf[lo..n] + [buf[n]];
      ckA := LowByte(ckA + buf[n]);
      ckB := LowByte(ckB + ckA);
    }
  }

  // ---- Serializing ----

  /** The bytes the checksum covers: class, id, little-endian length, payload. */
  function Body(f: Frame): (b: seq<Byte>)
    requires |f.payload| < 65536
    ensures |b| == 4 + |f.payload|
  {
    [f.cls, f.id, |f.payload| % 256, |f.payload| / 256] + f.payload
  }

  function Serialized(f: Frame): (b: seq<Byte>)
    requires |f.payload| < 65536
    ensures |b| == |f.payload| + 8
  {
    PREAMBLE + Body(f) + [CkA(Body(f)), CkB(Body(f))]
  }

  datatype Option<+T> = None | Some(value: T)

  /** Header and payload at the front of the buffer. */
  method Pack(buf: array<Byte>, f: Frame)
    requires |f.payload| < 65536 && buf.Length == |f.payload| + 8
    modifies buf
    ensures buf[..|f.payload| + 6] == PREAMBLE + Body(f)
  {
    var n := |f.payload|;
    buf[0], buf[1], buf[2], buf[3], buf[4], buf[5] := PREAMBLE[0], PREAMBLE[1], f.cls, f.id, n % 256, n / 256;
    ghost var header := PREAMBLE + [f.cls, f.id, n % 256, n / 256];
    for i := 0 to n
      invariant buf[..6 + i] == header + f.payload[..i]
    {
      buf[6 + i] := f.payload[i];
      assert f.payload[..i + 1] == f.payload[..i] + [f.payload[i]];
    }
    assert f.payload[..n] == f.payload;
  }

  /** serialize(): packing a length beyond 16 bits fails. */
  method Serialize(f: Frame) returns (r: Option<array<Byte>>)
    ensures r.None? <==> |f.payload| >= 65536
    ensures r.Some? ==> fresh(r.value) && r.value[..] == Serialized(f)
  {
    if |f.payload| >= 65536 {
      return None;
    }
    var n := |f.payload|;
    var buf := new Byte[HEADER_SIZE + n + 2](_ => 0);
    Pack(buf, f);
    ghost var front := PREAMBLE + Body(f);
    assert buf[..][2..6 + n] == front[2..] == Body(f);
    var ckA, ckB := ComputeChecksum(buf[..], 2, 6 + n);
    buf[6 + n] := ckA;
    buf[7 + n] := ckB;
    assert buf[..6 + n] == front;
    assert buf[..] == buf[..6 + n] + [ckA, ckB];
    r := Some(buf);
  }

  // ---- Parsing ----

  datatype Parse = Incomplete | Invalid | Parsed(frame: Frame, length: nat)

  function Length(buf: seq<Byte>): nat
    requires |buf| >= HEADER_SIZE
  {
    var low: int, high: int := buf[4], buf[5];
    low + 256 * high
  }

  function FromBytes(buf: seq<Byte>): (r: Parse)
    ensures r.Parsed? ==> 8 <= r.length <= |buf|
  {
    if |buf| < HEADER_SIZE then Incomplete
    else if buf[..2] != PREAMBLE then Invalid
    else if Length(buf) > MAX_LEN then Invalid
    else
      var n := Length(buf);
      if |buf| < n + 8 then Incomplete
      else if CkA(buf[2..6 + n]) != buf[n + 6] || CkB(buf[2..6 + n]) != buf[n + 7] then Invalid
      else Parsed(Frame(buf[2], buf[3], buf[6..6 + n]), n + 8)
  }

  method FromByteArray(buf: seq<Byte>) returns (r: Parse)
    ensures r == FromBytes(buf)
  {
    if |buf| < HEADER_SIZE {
      return Incomplete;
    }
    var length := Length(buf);
    if buf[..2] != PREAMBLE {
      return Invalid;
    }
    if length > MAX_LEN {
      return Invalid;
    }
    if |buf| < length + 8 {
      return Incomplete;
    }
    var ckA, ckB := ComputeChecksum(buf, 2, HEADER_SIZE + length);
    if ckA != buf[length + 6] || ckB != buf[length + 7] {
      return Invalid;
    }
    return Parsed(Frame(buf[2], buf[3], buf[HEADER_SIZE..HEADER_SIZE + length]), length + 8);
  }

  lemma {:induction false} SerializedParses(buf: seq<Byte>, f: Frame)
    requires |f.payload| <= MAX_LEN && Serialized(f) <= buf
    ensures FromBytes(buf) == Parsed(f, |f.payload| + 8)
  {
    var s, m := Serialized(f), |f.payload|;
    assert buf[..2] == s[..2] == PREAMBLE;
    assert buf[4] == s[4] && buf[5] == s[5];
    assert Length(buf) == m;
    assert buf[2..6 + m] == s[2..6 + m] == Body(f);
    assert buf[6..6 + m] == s[6..6 + m] == f.payload by {
      forall k | 0 <= k < m
        ensures s[6..6 + m][k] == f.payload[k]
      {
        assert s[6 + k] == Body(f)[4 + k];
      }
    }
    assert buf[m + 6] == s[m + 6] && buf[m + 7] == s[m + 7];
  }

  lemma {:induction false} ParsedIsSerialized(buf: seq<Byte>, f: Frame, n: nat)
    requires FromBytes(buf) == Parsed(f, n)
    ensures |f.payload| <= MAX_LEN && n == |f.payload| + 8 && Serialized(f) <= buf
  {
    var m := Length(buf);
    DivModUnique(m, 256, buf[5], buf[4]);
    assert Body(f) == [buf[2], buf[3], buf[4], buf[5]] + buf[6..6 + m];
    assert buf[2..6 + m] == Body(f);
    SplitFrame(buf, m);
  }

  lemma {:induction false} SplitFrame(buf: seq<Byte>, m: nat)
    requires m + 8 <= |buf|
    ensures buf[..m + 8] == buf[..2] + buf[2..6 + m] + [buf[6 + m], buf[7 + m]]
  {
  }

  /** The parser accepts exactly the buffers that begin with a serialized frame of at most MAX_LEN bytes payload. */
  lemma {:induction false} ParsesExactly(buf: seq<Byte>, f: Frame, n: nat)
    ensures FromBytes(buf) == Parsed(f, n) <==>
              |f.payload| <= MAX_LEN && n == |f.payload| + 8 && Serialized(f) <= buf
  {
    if |f.payload| <= MAX_LEN && n == |f.payload| + 8 && Serialized(f) <= buf {
      SerializedParses(buf, f);
    }
    if FromBytes(buf) == Parsed(f, n) {
      ParsedIsSerialized(buf, f, n);
    }
  }

  /** A frame too long for the parser is serialized, but never parsed. */
  lemma {:induction false} TooLongRejected(f: Frame, rest: seq<Byte>)
    requires MAX_LEN < |f.payload| < 65536
    ensures FromBytes(Serialized(f) + rest) == Invalid
  {
    var buf := Serialized(f) + rest;
    assert buf[..2] == PREAMBLE;
    assert buf[4] == |f.payload| % 256 && buf[5] == |f.payload| / 256;
  }

  /** An acknowledgement as the receiver sends it: the bytes of the wire, not just some bytes both sides agree on. */
  lemma {:induction false} AckFrame()
    ensures Serialized(Frame(0x05, 0x01, [0x06, 0x01]))
         == [0xb5, 0x62, 0x05, 0x01, 0x02, 0x00, 0x06, 0x01, 0x0f, 0x38]
  {
    var f := Frame(0x05, 0x01, [0x06, 0x01]);
    assert Body(f) == [0x05, 0x01, 0x02, 0x00, 0x06, 0x01];
    AckSums();
  }

  lemma {:induction false} AckSums()
    ensures SumA([0x05, 0x01, 0x02, 0x00, 0x06, 0x01]) == 0x0f
    ensures SumB([0x05, 0x01, 0x02, 0x00, 0x06, 0x01]) == 0x38
  {
    var s: seq<Byte> := [];
    s := SumsGrown(s, 0x05, 0, 0);
    s := SumsGrown(s, 0x01, 5, 5);
    s := SumsGrown(s, 0x02, 6, 11);
    s := SumsGrown(s, 0x00, 8, 19);
    s := SumsGrown(s, 0x06, 8, 27);
    s := SumsGrown(s, 0x01, 14, 41);
    assert s == [0x05, 0x01, 0x02, 0x00, 0x06, 0x01];
  }

  lemma {:induction false} SumsGrown(s: seq<Byte>, b: Byte, sumA: nat, sumB: nat) returns (t: seq<Byte>)
    requires SumA(s) == sumA && SumB(s) == sumB
    ensures t == s + [b] && SumA(t) == sumA + b && SumB(t) == sumB + sumA + b
  {
    SumsExtended(s, b);
    t := s + [b];
  }

  /** The length is written low byte first. */
  lemma {:induction false} LengthBytes(f: Frame)
    requires |f.payload| < 65536
    ensures var s := Serialized(f);
            && s[..2] == [0xb5, 0x62] && s[4] as int + 256 * s[5] as int == |f.payload|
            && s[6..6 + |f.payload|] == f.payload
  {
    var n := |f.payload|;
    forall k | 0 <= k < n
      ensures Serialized(f)[6..6 + n][k] == f.payload[k]
    {
      assert Serialized(f)[6 + k] == Body(f)[4 + k];
    }
  }

  // ---- When the parser waits ----

  /** The buffer is the beginning of a frame of acceptable length, as far as its header and payload go. */
  ghost predicate Begins(buf: seq<Byte>, f: Frame) {
    && |f.payload| <= 2048 && |buf| < |f.payload| + 8
    && if |buf| <= |f.payload| + 6 then buf <= PREAMBLE + Body(f) else PREAMBLE + Body(f) <= buf
  }

  /** The frame an undecided buffer may become: what is there, filled up with zeros. */
  function Completed(buf: seq<Byte>): (f: Frame)
    requires |buf| >= HEADER_SIZE
    ensures |f.payload| == Length(buf)
  {
    var n := Length(buf);
    Frame(buf[2], buf[3], if |buf| >= 6 + n then buf[6..6 + n] else buf[6..] + seq(6 + n - |buf|, _ => 0))
  }

  lemma {:induction false} CompletedBegins(buf: seq<Byte>)
    requires |buf| >= HEADER_SIZE && FromBytes(buf).Incomplete?
    ensures Begins(buf, Completed(buf))
  {
    var f, n := Completed(buf), Length(buf);
    DivModUnique(n, 256, buf[5], buf[4]);
    var whole := PREAMBLE + Body(f);
    assert buf[..2] == PREAMBLE;
    forall k | 0 <= k < |buf| && k < |whole|
      ensures buf[k] == whole[k]
    {
      if k < 2 {
        assert buf[k] == buf[..2][k];
      } else if k < 6 {
        assert whole[k] == Body(f)[k - 2];
      } else {
        assert whole[k] == f.payload[k - 6];
      }
    }
    assert if |buf| <= n + 6 then buf == whole[..|buf|] else whole == buf[..|whole|];
  }

  lemma {:induction false} BegunUndecided(buf: seq<Byte>, f: Frame)
    requires |buf| >= HEADER_SIZE && Begins(buf, f)
    ensures FromBytes(buf).Incomplete?
  {
    var whole := PREAMBLE + Body(f);
    assert forall k :: 0 <= k < 6 ==> buf[k] == whole[k];
    assert buf[..2] == PREAMBLE;
    assert whole[4] == Body(f)[2] && whole[5] == Body(f)[3];
    assert Length(buf) == |f.payload|;
  }

  /**
     The parser waits for more exactly if it has less than a header, or what it has is the beginning
     of the header and payload of some frame of at most 2048 bytes payload, not yet complete. In
     particular nothing else that starts with 0xB5 holds it up.
   */
  lemma {:induction false} UndecidedExactly(buf: seq<Byte>)
    ensures FromBytes(buf).Incomplete? <==> |buf| < 6 || exists f :: Begins(buf, f)
  {
    if |buf| >= 6 {
      if FromBytes(buf).Incomplete? {
        CompletedBegins(buf);
      }
      if f :| Begins(buf, f) {
        BegunUndecided(buf, f);
      }
    }
  }

  /** Only the last but one byte may already be wrong: the parser does not look at it before the last. */
  predicate LateChecksum(buf: seq<Byte>)
    requires |buf| >= HEADER_SIZE
  {
    |buf| == Length(buf) + 7 && buf[|buf| - 1] != CkA(buf[2..|buf| - 1])
  }

  /** What is undecided can still become a frame, unless the first checksum byte is there and wrong. */
  lemma {:induction false} WaitsInHope(buf: seq<Byte>)
    requires |buf| >= HEADER_SIZE && FromBytes(buf).Incomplete?
    ensures (exists more :: FromBytes(buf + more).Parsed?) <==> !LateChecksum(buf)
  {
    var f := Completed(buf);
    CompletedBegins(buf);
    if !LateChecksum(buf) {
      BegunIsPrefix(buf, f);
      var more := Serialized(f)[|buf|..];
      assert buf + more == Serialized(f);
      SerializedParses(buf + more, f);
    } else {
      forall more
        ensures !FromBytes(buf + more).Parsed?
      {
        LateNeverParses(buf, more);
      }
    }
  }

  /** So a frame damaged in that byte is waited for although nothing that follows can make it one. */
  lemma {:induction false} WaitsInVain(f: Frame, x: Byte, more: seq<Byte>)
    requires |f.payload| <= MAX_LEN && x != CkA(Body(f))
    ensures FromBytes(PREAMBLE + Body(f) + [x]).Incomplete?
    ensures !FromBytes(PREAMBLE + Body(f) + [x] + more).Parsed?
  {
    var buf, n := PREAMBLE + Body(f) + [x], |f.payload|;
    assert PREAMBLE + Body(f) <= buf;
    BegunUndecided(buf, f);
    assert buf[4] == Body(f)[2] && buf[5] == Body(f)[3] && Length(buf) == n;
    assert buf[2..n + 6] == Body(f);
    LateNeverParses(buf, more);
  }

  lemma {:induction false} BegunIsPrefix(buf: seq<Byte>, f: Frame)
    requires |buf| >= HEADER_SIZE && Begins(buf, f) && FromBytes(buf).Incomplete? && !LateChecksum(buf)
    requires |f.payload| == Length(buf)
    ensures buf <= Serialized(f)
  {
    var whole, n := PREAMBLE + Body(f), |f.payload|;
    if |buf| == n + 7 {
      assert buf[2..n + 6] == Body(f) by {
        assert buf[..n + 6] == whole;
        assert buf[2..n + 6] == buf[..n + 6][2..];
      }
      assert buf == whole + [CkA(Body(f))];
      assert Serialized(f)[..n + 7] == whole + [CkA(Body(f))];
    } else {
      assert Serialized(f)[..n + 6] == whole;
      assert Serialized(f)[..|buf|] == whole[..|buf|];
    }
  }

  lemma {:induction false} LateNeverParses(buf: seq<Byte>, more: seq<Byte>)
    requires |buf| >= HEADER_SIZE && FromBytes(buf).Incomplete? && LateChecksum(buf)
    ensures !FromBytes(buf + more).Parsed?
  {
    var all, n := buf + more, Length(buf);
    assert Length(all) == n && all[n + 6] == buf[n + 6];
    assert all[2..6 + n] == buf[2..6 + n];
  }

  /** A verdict on a buffer is not changed by what arrives after it. */
  lemma {:induction false} DecidedStays(buf: seq<Byte>, more: seq<Byte>)
    requires !FromBytes(buf).Incomplete?
    ensures FromBytes(buf + more) == FromBytes(buf)
  {
    var all := buf + more;
    assert all[..2] == buf[..2];
    var n := Length(buf);
    if buf[..2] == PREAMBLE && n <= MAX_LEN {
      assert all[2..6 + n] == buf[2..6 + n];
      assert all[6..6 + n] == buf[6..6 + n];
    }
  }

  // ---- What the checksum catches ----

  lemma {:induction false} SumsAfterChange(s: seq<Byte>, i: nat, x: Byte)
    requires i < |s|
    ensures SumA(s[i := x]) == SumA(s) + x - s[i]
    ensures SumB(s[i := x]) == SumB(s) + (|s| - i) * (x - s[i])
  {
    var t, k := s[i := x], |s| - 1;
    if i == k {
      assert t[..k] == s[..k];
    } else {
      SumsAfterChange(s[..k], i, x);
      assert t[..k] == s[..k][i := x];
      MulDifference(|s| - i, |s| - i - 1, 1, x - s[i]);
    }
  }

  lemma {:induction false} MulDifference(a: int, b: int, c: int, e: int)
    requires c == a - b
    ensures a * e - b * e == c * e
  {
  }

  lemma {:induction false} MulNegated(a: int, d: int, e: int)
    requires d == 0 - e
    ensures a * d == 0 - a * e
  {
  }

  lemma {:induction false} DifferentResidues(a: int, b: int, m: int)
    requires m > 0
    ensures a % m == b % m <==> (a - b) % m == 0
  {
    if a % m == b % m {
      var q := a / m - b / m;
      assert a - b == q * m;
      DivModUnique(a - b, m, q, 0);
    }
    if (a - b) % m == 0 {
      ModAdd(b, a - b, m);
    }
  }

  /** Positions of a serialized frame a changed byte may sit at: all but preamble and length. */
  predicate Protected(f: Frame, i: nat) {
    (2 <= i < 4 || 6 <= i < |f.payload| + 8)
  }

  lemma {:induction false} Tampered(f: Frame, body: seq<Byte>, ckA: Byte, ckB: Byte, rest: seq<Byte>)
    requires |f.payload| <= MAX_LEN && |body| == |Body(f)|
    requires body[2] == Body(f)[2] && body[3] == Body(f)[3]
    ensures var r := FromBytes(PREAMBLE + body + [ckA, ckB] + rest);
            if CkA(body) == ckA && CkB(body) == ckB then r == Parsed(Frame(body[0], body[1], body[4..]), |body| + 4)
            else r == Invalid
  {
    var buf := PREAMBLE + body + [ckA, ckB] + rest;
    var n := |f.payload|;
    assert buf[..2] == PREAMBLE;
    assert buf[2] == body[0] && buf[3] == body[1] && buf[4] == body[2] && buf[5] == body[3];
    assert Length(buf) == n;
    assert buf[2..6 + n] == body;
    assert buf[6..6 + n] == body[4..];
    assert buf[n + 6] == ckA && buf[n + 7] == ckB;
  }

  lemma {:induction false} BodyUpdate(f: Frame, i: nat, x: Byte)
    requires |f.payload| < 65536 && 2 <= i < |f.payload| + 6
    ensures Serialized(f)[i] == Body(f)[i - 2]
    ensures Serialized(f)[i := x] == PREAMBLE + Body(f)[i - 2 := x] + [CkA(Body(f)), CkB(Body(f))]
  {
  }

  /** Any one changed byte of class, id, payload or checksum makes the parser reject the frame. */
  lemma {:induction false} ChangedByteRejected(f: Frame, i: nat, x: Byte, rest: seq<Byte>)
    requires |f.payload| <= MAX_LEN && Protected(f, i) && x != Serialized(f)[i]
    ensures FromBytes(Serialized(f)[i := x] + rest) == Invalid
  {
    var body, n := Body(f), |f.payload|;
    if i < n + 6 {
      BodyUpdate(f, i, x);
      SumsAfterChange(body, i - 2, x);
      NotCongruent(SumA(body), x as int - body[i - 2]);
      Tampered(f, body[i - 2 := x], CkA(body), CkB(body), rest);
    } else {
      var ckA := if i == n + 6 then x else CkA(body);
      var ckB := if i == n + 7 then x else CkB(body);
      assert Serialized(f)[i := x] == PREAMBLE + body + [ckA, ckB];
      Tampered(f, body, ckA, ckB, rest);
    }
  }

  lemma {:induction false} NotCongruent(a: int, d: int)
    requires d != 0 && -256 < d < 256
    ensures (a + d) % 256 != a % 256
  {
  }

  function Swap(s: seq<Byte>, i: nat, j: nat): (t: seq<Byte>)
    requires i < |s| && j < |s|
    ensures |t| == |s|
  {
    s[i := s[j]][j := s[i]]
  }

  lemma {:induction false} SumsAfterSwap(s: seq<Byte>, i: nat, j: nat)
    requires i < j < |s|
    ensures SumA(Swap(s, i, j)) == SumA(s)
    ensures SumB(Swap(s, i, j)) == SumB(s) + SwapShift(s, i, j)
  {
    var x: int, y: int := s[i], s[j];
    var once := s[i := y];
    SumsAfterChange(s, i, y);
    SumsAfterChange(once, j, x);
    MulNegated(|s| - j, x - y, y - x);
    MulDifference(|s| - i, |s| - j, j - i, y - x);
  }

  function Difference(s: seq<Byte>, i: nat, j: nat): int
    requires i < |s| && j < |s|
  {
    var x: int, y: int := s[i], s[j];
    y - x
  }

  /** Distance times difference of two bytes: what exchanging them adds to ck_b. */
  function SwapShift(s: seq<Byte>, i: nat, j: nat): int
    requires i < |s| && j < |s|
  {
    (j - i) * Difference(s, i, j)
  }

  /**
     Two exchanged bytes of class, id and payload are noticed exactly if distance times difference
     is no multiple of 256.
   */
  lemma {:induction false} SwappedBytes(f: Frame, i: nat, j: nat, rest: seq<Byte>)
    requires |f.payload| <= MAX_LEN && i < j < |f.payload| + 6 && Protected(f, i) && Protected(f, j)
    ensures var s := Serialized(f);
            FromBytes(Swap(s, i, j) + rest) == Invalid <==> SwapShift(s, i, j) % 256 != 0
  {
    var body, body' := Body(f), Swap(Body(f), i - 2, j - 2);
    SwappedSerialized(f, i, j);
    SwapUnnoticed(body, i - 2, j - 2);
    Tampered(f, body', CkA(body), CkB(body), rest);
  }

  lemma {:induction false} SwapUnnoticed(s: seq<Byte>, i: nat, j: nat)
    requires i < j < |s|
    ensures CkA(Swap(s, i, j)) == CkA(s)
    ensures CkB(Swap(s, i, j)) == CkB(s) <==> SwapShift(s, i, j) % 256 == 0
  {
    SumsAfterSwap(s, i, j);
    DifferentResidues(SumB(Swap(s, i, j)), SumB(s), 256);
  }

  lemma {:induction false} SwappedSerialized(f: Frame, i: nat, j: nat)
    requires |f.payload| < 65536 && 2 <= i < j < |f.payload| + 6
    ensures SwapShift(Serialized(f), i, j) == SwapShift(Body(f), i - 2, j - 2)
    ensures Swap(Serialized(f), i, j)
            == PREAMBLE + Swap(Body(f), i - 2, j - 2) + [CkA(Body(f)), CkB(Body(f))]
  {
    BodyUpdate(f, i, Body(f)[j - 2]);
    BodyUpdate(f, j, Body(f)[i - 2]);
    assert j - i == (j - 2) - (i - 2);
  }

  lemma {:induction false} OddTimesOdd(d: int, e: int)
    requires d % 2 == 1 && e % 2 == 1
    ensures (d * e) % 2 == 1
  {
    var a, b := d / 2, e / 2;
    assert d * e == (2 * a + 1) * (2 * b + 1) == 2 * (2 * a * b + a + b) + 1;
  }

  lemma {:induction false} OddFactor(d: int, e: int, k: nat)
    requires d % 2 == 1 && (d * e) % Pow2(k) == 0
    ensures e % Pow2(k) == 0
    decreases k
  {
    if k > 0 {
      var m := Pow2(k - 1);
      var q := (d * e) / (2 * m);
      assert d * e == q * (2 * m) == 2 * (q * m);
      if e % 2 == 1 {
        OddTimesOdd(d, e);
        assert false;
      }
      var h := e / 2;
      assert d * (2 * h) == 2 * (d * h);
      assert d * h == q * m;
      DivModUnique(d * h, m, q, 0);
      OddFactor(d, h, k - 1);
      assert h == (h / m) * m;
      assert e == (h / m) * (2 * m);
      DivModUnique(e, 2 * m, h / m, 0);
    }
  }

  /** In particular two differing bytes at odd distance cannot trade places unnoticed. */
  lemma {:induction false} OddSwapRejected(f: Frame, i: nat, j: nat, rest: seq<Byte>)
    requires |f.payload| <= MAX_LEN && i < j < |f.payload| + 6 && Protected(f, i) && Protected(f, j)
    requires (j - i) % 2 == 1 && Serialized(f)[i] != Serialized(f)[j]
    ensures FromBytes(Swap(Serialized(f), i, j) + rest) == Invalid
  {
    SwappedBytes(f, i, j, rest);
    OddMultiple(j - i, Difference(Serialized(f), i, j));
  }

  lemma {:induction false} OddMultiple(d: int, e: int)
    requires d % 2 == 1 && e != 0 && -256 < e < 256
    ensures (d * e) % 256 != 0
  {
    Pow2Square(4, 16);
    if (d * e) % 256 == 0 {
      OddFactor(d, e, 8);
      assert false;
    }
  }
}
