/**
 The resynchronising stream parser (utils/rtk/opt/rtk/ubx_parser.py, UbxParser; AsyncUbxParser
 does the same with awaited reads), at frame level.
 */
module UbxStream {
  import opened UbxFrame

  // ---- One-shot scan ----

  /** What the parser makes of a non-empty buffer's front. */
  function Look(buf: seq<Byte>): (r: Parse)
    requires buf != []
    ensures r.Parsed? ==> 8 <= r.length <= |buf|
  {
    if buf[0] == PREAMB0 then FromBytes(buf) else Invalid
  }

  /** Frames of a byte string: emit and skip a valid one, skip one byte if invalid, stop if undecided. */
  function Frames(b: seq<Byte>): seq<Frame> {
    if b == [] then []
    else match Look(b)
      case Parsed(f, n) => [f] + Frames(b[n..])
      case Invalid => Frames(b[1..])
      case Incomplete => []
  }

  /** The undecided rest of the scan. */
  function Rest(b: seq<Byte>): (r: seq<Byte>)
    ensures |r| <= |b|
  {
    if b == [] then []
    else match Look(b)
      case Parsed(f, n) => Rest(b[n..])
      case Invalid => Rest(b[1..])
      case Incomplete => b
  }

  /** Bytes the scan is done with once it has looked at a buffer. */
  function Consumed(buf: seq<Byte>): (n: nat)
    requires buf != []
    ensures n <= |buf|
    ensures n == 0 <==> Look(buf).Incomplete?
  {
    match Look(buf)
    case Parsed(_, n) => n
    case Invalid => 1
    case Incomplete => 0
  }

  function Found(buf: seq<Byte>): seq<Frame>
    requires buf != []
  {
    match Look(buf)
    case Parsed(f, _) => [f]
    case _ => []
  }

  /** A verdict on the buffer is the verdict on everything still to come. */
  lemma {:induction false} ScanFront(buf: seq<Byte>, more: seq<Byte>)
    requires buf != [] && !Look(buf).Incomplete?
    ensures Look(buf + more) == Look(buf)
  {
    if buf[0] == PREAMB0 {
      DecidedStays(buf, more);
    }
  }

  lemma {:induction false} ScanStep(buf: seq<Byte>, more: seq<Byte>)
    requires buf != [] && !Look(buf).Incomplete?
    ensures Frames(buf + more) == Found(buf) + Frames(buf[Consumed(buf)..] + more)
  {
    ScanFront(buf, more);
    assert (buf + more)[Consumed(buf)..] == buf[Consumed(buf)..] + more;
  }

  /** Scanning piecewise, carrying the undecided rest over, finds the same frames. */
  lemma {:induction false} ScanConcat(b: seq<Byte>, c: seq<Byte>)
    ensures Frames(b + c) == Frames(b) + Frames(Rest(b) + c)
    decreases |b|
  {
    if b == [] {
      assert b + c == c;
    } else if Look(b).Incomplete? {
    } else {
      var r := b[Consumed(b)..];
      ScanStep(b, c);
      ScanStep(b, []);
      assert b + [] == b && r + [] == r;
      ScanConcat(r, c);
      assert Rest(b) == Rest(r);
    }
  }

  // ---- Incremental parser ----

  function Concat(chunks: seq<seq<Byte>>): seq<Byte> {
    if chunks == [] then [] else chunks[0] + Concat(chunks[1..])
  }

  /** A byte source: read() returns some non-empty chunk until the end, then nothing. */
  class Reader {
    var chunks: seq<seq<Byte>>

    constructor (chunks: seq<seq<Byte>>)
      ensures this.chunks == chunks
    {
      this.chunks := chunks;
    }

    ghost predicate Valid()
      reads this
    {
      forall i :: 0 <= i < |chunks| ==> chunks[i] != []
    }

    method Read() returns (tmp: seq<Byte>)
      requires Valid()
      modifies this
      ensures Valid() && Concat(old(chunks)) == tmp + Concat(chunks)
      ensures tmp == [] <==> old(chunks) == []
      ensures old(chunks) != [] ==> |chunks| == |old(chunks)| - 1
    {
      if chunks == [] {
        return [];
      }
      tmp := chunks[0];
      chunks := chunks[1..];
    }
  }

  class UbxParser {
    const file: Reader
    var buf: seq<Byte>

    constructor (file: Reader)
      ensures this.file == file && buf == []
    {
      this.file := file;
      buf := [];
    }

    /** Bytes read and not yet consumed, followed by those still to come. */
    ghost function Pending(): seq<Byte>
      reads this, file
    {
      buf + Concat(file.chunks)
    }

    /** Append the next read to the buffer. */
    method Fill() returns (n: nat)
      requires file.Valid()
      modifies this`buf, file
      ensures file.Valid() && Pending() == old(Pending()) && old(buf) <= buf && n == |buf| - |old(buf)|
      ensures if n == 0 then file.chunks == [] && Pending() == buf else |file.chunks| < |old(file.chunks)|
    {
      var tmp := file.Read();
      buf := buf + tmp;
      n := |tmp|;
      assert n == 0 ==> buf == buf + Concat([]);
    }

    method Examine() returns (look: Parse)
      requires buf != []
      ensures look == Look(buf)
    {
      if buf[0] == PREAMB0 {
        look := FromByteArray(buf);
      } else {
        look := Invalid;
      }
    }

    /**
     __next__: the next frame of what is still to be parsed, or none once the input has ended.
     Every round of the loop consumes buffered bytes or input.
     */
    method Next() returns (r: Option<Frame>)
      requires file.Valid()
      modifies this`buf, file
      ensures file.Valid() && |Pending()| <= |old(Pending())|
      ensures r.Some? ==> Frames(old(Pending())) == [r.value] + Frames(Pending()) && |Pending()| < |old(Pending())|
      ensures r.None? ==> Frames(old(Pending())) == [] && file.chunks == []
    {
      while true
        invariant file.Valid() && Frames(Pending()) == Frames(old(Pending()))
        invariant |Pending()| <= |old(Pending())|
        decreases |Pending()|, |file.chunks|
      {
        if |buf| < 8 {
          var n := Fill();
          if n == 0 {
            NoneLeft(buf);
            return None;
          }
        }
        var look := Examine();
        if look.Incomplete? {
          var n := Fill();
          if n == 0 {
            return None;
          }
        } else {
          ScanStep(buf, Concat(file.chunks));
          buf := buf[if look.Parsed? then look.length else 1..];
          if look.Parsed? {
            return Some(look.frame);
          }
        }
      }
    }
  }

  /** Fewer than eight bytes hold no frame. */
  lemma {:induction false} NoneLeft(b: seq<Byte>)
    requires |b| < 8
    ensures Frames(b) == []
  {
    if b != [] {
      if Look(b).Invalid? {
        NoneLeft(b[1..]);
      }
    }
  }

  lemma {:induction false} Regroup(a: seq<Frame>, x: Frame, b: seq<Frame>)
    ensures a + ([x] + b) == a + [x] + b
  {
  }

  /** Iterating to the end of input yields the frames of the concatenated chunks, however it was split. */
  method ReadAll(file: Reader) returns (out: seq<Frame>)
    requires file.Valid()
    modifies file
    ensures out == Frames(Concat(old(file.chunks)))
  {
    var parser := new UbxParser(file);
    ghost var all := Frames(Concat(file.chunks));
    assert parser.Pending() == Concat(file.chunks);
    out := [];
    var next := parser.Next();
    ghost var left := Frames(parser.Pending());
    while next.Some?
      invariant file.Valid() && parser.file == file && left == Frames(parser.Pending())
      invariant if next.Some? then all == out + ([next.value] + left) else all == out
      decreases |parser.Pending()|, next.Some?
    {
      Regroup(out, next.value, left);
      out := out + [next.value];
      next := parser.Next();
      left := Frames(parser.Pending());
    }
  }

  // ---- Round trip ----

  /** Frames on the wire, with other bytes before, between and after them. */
  function Stream(frames: seq<Frame>, junk: seq<seq<Byte>>): seq<Byte>
    requires |junk| == |frames| + 1
    requires forall f <- frames :: |f.payload| <= MAX_LEN
  {
    if frames == [] then junk[0]
    else junk[0] + (Serialized(frames[0]) + Stream(frames[1..], junk[1..]))
  }

  /** The preamble does not occur; its first byte may. */
  predicate NoPreamble(j: seq<Byte>) {
    forall i :: 0 <= i < |j| - 1 ==> !(j[i] == 0xb5 && j[i + 1] == 0x62)
  }

  lemma {:induction false} JunkByte(x: Byte, b: seq<Byte>)
    requires |b| >= 7 && !(x == 0xb5 && b[0] == 0x62)
    ensures Frames([x] + b) == Frames(b)
  {
    var all := [x] + b;
    assert all[1..] == b;
    if x == PREAMB0 {
      assert all[..2][1] == b[0];
      assert FromBytes(all).Invalid?;
    }
  }

  /** Junk before a frame is skipped, stray first preamble bytes included. */
  lemma {:induction false} JunkSkipped(j: seq<Byte>, b: seq<Byte>)
    requires NoPreamble(j) && |b| >= 8 && b[0] == 0xb5
    ensures Frames(j + b) == Frames(b)
  {
    if j == [] {
      assert j + b == b;
    } else {
      var rest := j[1..] + b;
      assert NoPreamble(j[1..]) by {
        assert forall i :: 0 <= i < |j| - 1 ==> j[1..][i] == j[i + 1];
      }
      JunkSkipped(j[1..], b);
      assert rest[0] == if |j| > 1 then j[1] else b[0];
      JunkByte(j[0], rest);
      assert j + b == [j[0]] + rest;
    }
  }

  /** Junk behind the last frame yields none. */
  lemma {:induction false} JunkOnly(j: seq<Byte>)
    requires NoPreamble(j)
    ensures Frames(j) == []
  {
    if j != [] {
      assert |j| >= 2 ==> j[..2] == [j[0], j[1]];
      assert !Look(j).Parsed?;
      if Look(j).Invalid? {
        assert forall i :: 0 <= i < |j| - 1 ==> j[1..][i] == j[i + 1];
        JunkOnly(j[1..]);
      }
    }
  }

  lemma {:induction false} FrameFound(f: Frame, tail: seq<Byte>)
    requires |f.payload| <= MAX_LEN
    ensures Frames(Serialized(f) + tail) == [f] + Frames(tail)
  {
    ParsesExactly(Serialized(f) + tail, f, |f.payload| + 8);
    assert (Serialized(f) + tail)[|f.payload| + 8..] == tail;
  }

  /** Whatever else without a preamble lies between them, exactly the sent frames are found, in order. */
  lemma {:induction false} StreamRoundTrip(frames: seq<Frame>, junk: seq<seq<Byte>>)
    requires |junk| == |frames| + 1
    requires forall f <- frames :: |f.payload| <= MAX_LEN
    requires forall j <- junk :: NoPreamble(j)
    ensures Frames(Stream(frames, junk)) == frames
  {
    if frames == [] {
      JunkOnly(junk[0]);
    } else {
      var f, tail := frames[0], Stream(frames[1..], junk[1..]);
      assert f in frames && junk[0] in junk;
      JunkSkipped(junk[0], Serialized(f) + tail);
      FrameFound(f, tail);
      StreamRoundTrip(frames[1..], junk[1..]);
    }
  }

  /** The same for any splitting of the stream into reads. */
  method StreamReceived(frames: seq<Frame>, junk: seq<seq<Byte>>, file: Reader) returns (out: seq<Frame>)
    requires |junk| == |frames| + 1
    requires forall f <- frames :: |f.payload| <= MAX_LEN
    requires forall j <- junk :: NoPreamble(j)
    requires file.Valid() && Concat(file.chunks) == Stream(frames, junk)
    modifies file
    ensures out == frames
  {
    StreamRoundTrip(frames, junk);
    out := ReadAll(file);
  }
}
