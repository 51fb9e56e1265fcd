// The video frame reader: fixed headers and tight I420 planes off a byte
// stream, of which only the newest whole frame is kept.

module Frames {
  import opened Bytes

  const MAGIC := 0x31465654
  const VERSION := 1
  const HEADER_BYTES := 40
  const FORMAT_I420 := 0x30323449
  const MAX_PAYLOAD := 64 * 1024 * 1024
  const MAX_SIDE := 16384

  datatype Frame = Frame(ptsNs: int, width: nat, height: nat, keyframe: bool, planes: seq<byte>)

  const NO_FRAME := Frame(0, 0, 0, false, [])

  // Little-endian, the low byte first.
  function Little(s: seq<byte>): (n: nat) {
    if s == [] then 0 else s[0] as int + 256 * Little(s[1..])
  }

  function Field(s: seq<byte>, at: nat, size: nat): nat
    requires at + size <= |s|
  {
    Little(s[at..at + size])
  }

  function I420Bytes(w: nat, h: nat): nat { w * h + 2 * (((w + 1) / 2) * ((h + 1) / 2)) }

  function HeaderLength(s: seq<byte>): nat requires |s| >= HEADER_BYTES { Field(s, 6, 2) }

  function Width(s: seq<byte>): nat requires |s| >= HEADER_BYTES { Field(s, 16, 4) }

  function Height(s: seq<byte>): nat requires |s| >= HEADER_BYTES { Field(s, 20, 4) }

  function PayloadLength(s: seq<byte>): nat requires |s| >= HEADER_BYTES { Field(s, 24, 4) }

  function Signed64(n: nat): int {
    if n >= 0x8000_0000_0000_0000 then n - 0x1_0000_0000_0000_0000 else n
  }

  predicate Acceptable(s: seq<byte>)
    requires |s| >= HEADER_BYTES
  {
    && Field(s, 0, 4) == MAGIC && Field(s, 4, 2) == VERSION
    && HeaderLength(s) >= HEADER_BYTES && Field(s, 8, 4) == FORMAT_I420
    && 0 < Width(s) <= MAX_SIDE && 0 < Height(s) <= MAX_SIDE
    && PayloadLength(s) <= MAX_PAYLOAD && PayloadLength(s) == I420Bytes(Width(s), Height(s))
  }

  function Length(s: seq<byte>): nat requires |s| >= HEADER_BYTES { HeaderLength(s) + PayloadLength(s) }

  function FrameAt(s: seq<byte>): Frame
    requires |s| >= HEADER_BYTES && |s| >= Length(s)
  {
    Frame(Signed64(Field(s, 32, 8)), Width(s), Height(s), Field(s, 12, 4) % 2 == 1,
          s[HeaderLength(s)..Length(s)])
  }

  // ------------------------------------------------------------------- parsing

  datatype Parse = Malformed | Parsed(rest: seq<byte>, latest: Frame, got: bool)

  function ParseAll(buf: seq<byte>, latest: Frame): Parse
    decreases |buf|
  {
    if |buf| < HEADER_BYTES then Parsed(buf, latest, false)
    else if !Acceptable(buf) then Malformed
    else if |buf| < Length(buf) then Parsed(buf, latest, false)
    else
      var p := ParseAll(buf[Length(buf)..], FrameAt(buf));
      if p.Malformed? then Malformed else p.(got := true)
  }

  datatype Stream = Stream(open: bool, buf: seq<byte>, latest: Frame)

  const OPENED := Stream(true, [], NO_FRAME)
  const CLOSED := Stream(false, [], NO_FRAME)

  function Fed(s: Stream, chunk: seq<byte>): Stream {
    if !s.open then s
    else
      var p := ParseAll(s.buf + chunk, s.latest);
      if p.Malformed? then CLOSED else Stream(true, p.rest, p.latest)
  }

  function FedAll(s: Stream, chunks: seq<seq<byte>>): Stream
    decreases |chunks|
  {
    if chunks == [] then s else FedAll(Fed(s, chunks[0]), chunks[1..])
  }

  // --------------------------------------------------------- cutting changes nothing

  lemma SameHeader(s: seq<byte>, more: seq<byte>)
    requires |s| >= HEADER_BYTES
    ensures Acceptable(s + more) == Acceptable(s) && Length(s + more) == Length(s)
    ensures |s| >= Length(s) ==> FrameAt(s + more) == FrameAt(s)
  {
    SameField(s, more, 0, 4);
    SameField(s, more, 4, 2);
    SameField(s, more, 6, 2);
    SameField(s, more, 8, 4);
    SameField(s, more, 12, 4);
    SameField(s, more, 16, 4);
    SameField(s, more, 20, 4);
    SameField(s, more, 24, 4);
    SameField(s, more, 32, 8);
    if |s| >= Length(s) {
      assert (s + more)[HeaderLength(s)..Length(s)] == s[HeaderLength(s)..Length(s)];
    }
  }

  lemma SameField(s: seq<byte>, more: seq<byte>, at: nat, size: nat)
    requires at + size <= |s|
    ensures Field(s + more, at, size) == Field(s, at, size)
  {
    assert (s + more)[at..at + size] == s[at..at + size];
  }

  lemma {:induction false} ParseResumes(buf: seq<byte>, more: seq<byte>, latest: Frame)
    ensures var p, q := ParseAll(buf, latest), ParseAll(buf + more, latest);
            if p.Malformed? then q.Malformed?
            else var r := ParseAll(p.rest + more, p.latest);
                 if r.Malformed? then q.Malformed? else q == r.(got := p.got || r.got)
    decreases |buf|
  {
    if |buf| >= HEADER_BYTES {
      SameHeader(buf, more);
      if Acceptable(buf) && |buf| >= Length(buf) {
        assert (buf + more)[Length(buf)..] == buf[Length(buf)..] + more;
        ParseResumes(buf[Length(buf)..], more, FrameAt(buf));
      }
    }
  }

  lemma {:induction false} ParseSettles(buf: seq<byte>, latest: Frame)
    ensures var p := ParseAll(buf, latest);
            p.Parsed? ==> ParseAll(p.rest, p.latest) == Parsed(p.rest, p.latest, false)
    decreases |buf|
  {
    if |buf| >= HEADER_BYTES && Acceptable(buf) && |buf| >= Length(buf) {
      ParseSettles(buf[Length(buf)..], FrameAt(buf));
    }
  }

  ghost predicate Settled(s: Stream) { ParseAll(s.buf, s.latest) == Parsed(s.buf, s.latest, false) }

  // However the bytes were cut: the same frame is the newest, the same bytes
  // are left over, and the stream is given up on for the same streams.
  lemma {:induction false} CutsDoNotMatter(s: Stream, chunks: seq<seq<byte>>)
    requires Settled(s)
    ensures FedAll(s, chunks) == Fed(s, Concat(chunks))
    decreases |chunks|
  {
    if chunks == [] {
      assert s.buf + [] == s.buf;
    } else {
      var rest := Concat(chunks[1..]);
      ParseSettles(s.buf + chunks[0], s.latest);
      CutsDoNotMatter(Fed(s, chunks[0]), chunks[1..]);
      ParseResumes(s.buf + chunks[0], rest, s.latest);
      assert s.buf + chunks[0] + rest == s.buf + (chunks[0] + rest);
    }
  }

  // ------------------------------------------------------------- whole frames

  predicate Whole(f: seq<byte>) { |f| >= HEADER_BYTES && Acceptable(f) && |f| == Length(f) }

  predicate Partial(t: seq<byte>) { |t| < HEADER_BYTES || (Acceptable(t) && |t| < Length(t)) }

  ghost function Newest(frames: seq<seq<byte>>, latest: Frame): Frame
    requires forall f | f in frames :: Whole(f)
  {
    if frames == [] then latest else
      assert Whole(frames[|frames| - 1]);
      FrameAt(frames[|frames| - 1])
  }

  lemma {:induction false} WholeFramesParse(frames: seq<seq<byte>>, tail: seq<byte>, latest: Frame)
    requires (forall f | f in frames :: Whole(f)) && Partial(tail)
    ensures ParseAll(Concat(frames) + tail, latest)
         == Parsed(tail, Newest(frames, latest), frames != [])
    decreases |frames|
  {
    if frames == [] {
      assert Concat(frames) + tail == tail;
    } else {
      var first, rest := frames[0], Concat(frames[1..]) + tail;
      assert first in frames;
      assert Concat(frames) + tail == first + rest;
      SameHeader(first, rest);
      assert (first + rest)[|first|..] == rest;
      WholeFramesParse(frames[1..], tail, FrameAt(first));
    }
  }

  // Any run of good frames, cut anywhere: nothing is refused, the newest frame
  // is the last whole one, its planes are the size its sides call for, and what
  // is left over is the frame still arriving.
  lemma TheNewestWholeFrame(frames: seq<seq<byte>>, tail: seq<byte>, chunks: seq<seq<byte>>)
    requires (forall f | f in frames :: Whole(f)) && Partial(tail)
    requires Concat(chunks) == Concat(frames) + tail
    ensures var s := FedAll(OPENED, chunks);
            && s.open && s.buf == tail
            && s.latest == Newest(frames, NO_FRAME)
            && |s.latest.planes| == I420Bytes(s.latest.width, s.latest.height)
  {
    CutsDoNotMatter(OPENED, chunks);
    assert [] + Concat(chunks) == Concat(frames) + tail;
    WholeFramesParse(frames, tail, NO_FRAME);
    if frames != [] {
      assert frames[|frames| - 1] in frames;
    }
  }

  // -------------------------------------------------------------- as written

  // The fields in the order they are laid down.
  function Lay(n: nat, size: nat): (s: seq<byte>)
    ensures |s| == size
  {
    if size == 0 then [] else [(n % 256) as byte] + Lay(n / 256, size - 1)
  }

  function Pow256(size: nat): nat { if size == 0 then 1 else 256 * Pow256(size - 1) }

  lemma {:induction false} LaidReadsBack(n: nat, size: nat)
    requires n < Pow256(size)
    ensures Little(Lay(n, size)) == n
    decreases size
  {
    if size > 0 {
      assert n / 256 < Pow256(size - 1);
      LaidReadsBack(n / 256, size - 1);
      assert Lay(n, size)[1..] == Lay(n / 256, size - 1);
    }
  }

  function Unsigned64(n: int): int { if n < 0 then n + 0x1_0000_0000_0000_0000 else n }

  // A header of any allowed length; what stands past the fields is not read.
  function Written(f: Frame, flags: nat, spare: nat, extra: seq<byte>): seq<byte>
    requires -0x8000_0000_0000_0000 <= f.ptsNs < 0x8000_0000_0000_0000
  {
    Lay(MAGIC, 4) + Lay(VERSION, 2) + Lay(HEADER_BYTES + |extra|, 2) + Lay(FORMAT_I420, 4) + Lay(flags, 4)
    + Lay(f.width, 4) + Lay(f.height, 4) + Lay(|f.planes|, 4) + Lay(spare, 4) + Lay(Unsigned64(f.ptsNs), 8)
    + extra + f.planes
  }

  predicate Drawable(f: Frame) {
    && 0 < f.width <= 16384 && 0 < f.height <= 16384
    && |f.planes| == I420Bytes(f.width, f.height) <= 64 * 1024 * 1024
    && -0x8000_0000_0000_0000 <= f.ptsNs < 0x8000_0000_0000_0000
  }

  // A field laid down after p reads back wherever p and it begin the stream.
  lemma LaidField(p: seq<byte>, n: nat, size: nat, s: seq<byte>)
    requires n < Pow256(size) && p + Lay(n, size) <= s
    ensures |p| + size <= |s| && Field(s, |p|, size) == n && p <= s
  {
    assert s[|p|..|p| + size] == Lay(n, size);
    LaidReadsBack(n, size);
  }

  // Any frame that fits, written out with any spare bits and any longer header,
  // is one whole frame and reads back as it was.
  lemma WrittenReadsBack(f: Frame, flags: nat, spare: nat, extra: seq<byte>)
    requires Drawable(f) && |extra| <= 0xffff - HEADER_BYTES
    requires flags < 0x1_0000_0000 && spare < 0x1_0000_0000 && f.keyframe == (flags % 2 == 1)
    ensures var s := Written(f, flags, spare, extra); Whole(s) && FrameAt(s) == f
  {
    HeaderReadsBack(f, flags, spare, extra);
    var s := Written(f, flags, spare, extra);
    var head := HEADER_BYTES + |extra|;
    assert s[head..head + |f.planes|] == f.planes;
  }

  lemma Powers()
    ensures Pow256(2) == 0x1_0000 && Pow256(4) == 0x1_0000_0000 && Pow256(8) == 0x1_0000_0000_0000_0000
  {
    assert Pow256(3) == 0x100_0000;
    assert Pow256(6) == 0x1_0000_0000_0000;
  }

  lemma HeaderReadsBack(f: Frame, flags: nat, spare: nat, extra: seq<byte>)
    requires Drawable(f) && |extra| <= 0xffff - HEADER_BYTES
    requires flags < 0x1_0000_0000 && spare < 0x1_0000_0000
    ensures var s := Written(f, flags, spare, extra);
            && |s| == HEADER_BYTES + |extra| + |f.planes|
            && Field(s, 0, 4) == MAGIC && Field(s, 4, 2) == VERSION && HeaderLength(s) == HEADER_BYTES + |extra|
            && Field(s, 8, 4) == FORMAT_I420 && Field(s, 12, 4) == flags
            && Width(s) == f.width && Height(s) == f.height && PayloadLength(s) == |f.planes|
            && Field(s, 32, 8) == Unsigned64(f.ptsNs)
  {
    Powers();
    var s := Written(f, flags, spare, extra);
    var p1 := [] + Lay(MAGIC, 4);
    var p2 := p1 + Lay(VERSION, 2);
    var p3 := p2 + Lay(HEADER_BYTES + |extra|, 2);
    var p4 := p3 + Lay(FORMAT_I420, 4);
    var p5 := p4 + Lay(flags, 4);
    var p6 := p5 + Lay(f.width, 4);
    var p7 := p6 + Lay(f.height, 4);
    var p8 := p7 + Lay(|f.planes|, 4);
    var p9 := p8 + Lay(spare, 4);
    assert [] + Lay(MAGIC, 4) == Lay(MAGIC, 4);
    assert s == p9 + Lay(Unsigned64(f.ptsNs), 8) + extra + f.planes;
    LaidField(p9, Unsigned64(f.ptsNs), 8, s);
    LaidField(p8, spare, 4, s);
    LaidField(p7, |f.planes|, 4, s);
    LaidField(p6, f.height, 4, s);
    LaidField(p5, f.width, 4, s);
    LaidField(p4, flags, 4, s);
    LaidField(p3, FORMAT_I420, 4, s);
    LaidField(p2, HEADER_BYTES + |extra|, 2, s);
    LaidField(p1, VERSION, 2, s);
    LaidField([], MAGIC, 4, s);
  }

  // --------------------------------------------------- nothing but what is written

  lemma {:induction false} LittleLaysBack(s: seq<byte>)
    ensures Lay(Little(s), |s|) == s
  {
    if s != [] {
      LittleLaysBack(s[1..]);
      assert Little(s) % 256 == s[0] as int && Little(s) / 256 == Little(s[1..]);
    }
  }

  lemma FieldLaysBack(s: seq<byte>, at: nat, size: nat)
    requires at + size <= |s|
    ensures Lay(Field(s, at, size), size) == s[at..at + size]
  {
    LittleLaysBack(s[at..at + size]);
  }

  lemma {:induction false} LittleFits(s: seq<byte>)
    ensures Little(s) < Pow256(|s|)
  {
    if s != [] { LittleFits(s[1..]); }
  }

  lemma SignsBack(n: nat)
    requires n < 0x1_0000_0000_0000_0000
    ensures Unsigned64(Signed64(n)) == n && -0x8000_0000_0000_0000 <= Signed64(n) < 0x8000_0000_0000_0000
  {}

  lemma WholeIsDrawable(s: seq<byte>)
    requires Whole(s)
    ensures Drawable(FrameAt(s)) && |FrameAt(s).planes| == PayloadLength(s)
  {
    TimeReadsBack(s);
  }

  lemma InParts(s: seq<byte>, mid: nat)
    requires 40 <= mid <= |s|
    ensures s == s[..40] + s[40..mid] + s[mid..]
  {}

  // A stream begins with a whole frame only if it begins with one somebody
  // wrote: whatever is taken for a frame is that frame, written out.
  lemma OnlyWhatIsWritten(s: seq<byte>)
    requires Whole(s)
    ensures Drawable(FrameAt(s))
    ensures s == Written(FrameAt(s), Field(s, 12, 4), Field(s, 28, 4), s[HEADER_BYTES..HeaderLength(s)])
  {
    WholeIsDrawable(s);
    TimeReadsBack(s);
    HeaderIsLaid(s);
    InParts(s, HeaderLength(s));
  }

  lemma TimeReadsBack(s: seq<byte>)
    requires |s| >= HEADER_BYTES
    ensures var ns := Signed64(Field(s, 32, 8));
            Unsigned64(ns) == Field(s, 32, 8) && -0x8000_0000_0000_0000 <= ns < 0x8000_0000_0000_0000
  {
    Powers();
    LittleFits(s[32..40]);
    SignsBack(Field(s, 32, 8));
  }

  lemma HeaderIsLaid(s: seq<byte>)
    requires |s| >= HEADER_BYTES
    ensures s[..40] == Lay(Field(s, 0, 4), 4) + Lay(Field(s, 4, 2), 2) + Lay(Field(s, 6, 2), 2)
                       + Lay(Field(s, 8, 4), 4) + Lay(Field(s, 12, 4), 4) + Lay(Field(s, 16, 4), 4)
                       + Lay(Field(s, 20, 4), 4) + Lay(Field(s, 24, 4), 4) + Lay(Field(s, 28, 4), 4)
                       + Lay(Field(s, 32, 8), 8)
  {
    FieldLaysBack(s, 0, 4);
    FieldLaysBack(s, 4, 2);
    FieldLaysBack(s, 6, 2);
    FieldLaysBack(s, 8, 4);
    FieldLaysBack(s, 12, 4);
    FieldLaysBack(s, 16, 4);
    FieldLaysBack(s, 20, 4);
    FieldLaysBack(s, 24, 4);
    FieldLaysBack(s, 28, 4);
    FieldLaysBack(s, 32, 8);
  }

  // The marks a header begins with, as they stand in the stream.
  lemma TheMarks()
    ensures Lay(MAGIC, 4) == ['T' as byte, 'V' as byte, 'F' as byte, '1' as byte]
    ensures Lay(FORMAT_I420, 4) == ['I' as byte, '4' as byte, '2' as byte, '0' as byte]
    ensures Lay(VERSION, 2) == [1, 0] && HEADER_BYTES == 40
  {
    assert MAGIC == 0x54 + 256 * (0x56 + 256 * (0x46 + 256 * 0x31));
    assert FORMAT_I420 == 0x49 + 256 * (0x34 + 256 * (0x32 + 256 * 0x30));
    LaidFour(0x54, 0x56, 0x46, 0x31);
    LaidFour(0x49, 0x34, 0x32, 0x30);
    assert Lay(0, 1) == [0] && Lay(VERSION, 2) == [1] + Lay(0, 1);
  }

  lemma LaidFour(a: byte, b: byte, c: byte, d: byte)
    ensures Lay(a as int + 256 * (b as int + 256 * (c as int + 256 * d as int)), 4) == [a, b, c, d]
  {
    assert [a, b, c, d][1..] == [b, c, d] && [b, c, d][1..] == [c, d] && [c, d][1..] == [d] && [d][1..] == [];
    assert Little([d]) == d as int;
    assert Little([c, d]) == c as int + 256 * Little([d]);
    assert Little([b, c, d]) == b as int + 256 * Little([c, d]);
    assert Little([a, b, c, d]) == a as int + 256 * Little([b, c, d]);
    LittleLaysBack([a, b, c, d]);
  }

  // ------------------------------------------------------------------- the planes

  // One brightness to a pixel, and one of each color to every two by two.
  function Across(w: nat): nat { (w + 1) / 2 }

  function LumaAt(w: nat, x: nat, y: nat): nat { y * w + x }

  function ColorAt(w: nat, h: nat, second: bool, x: nat, y: nat): nat {
    w * h + (if second then Across(w) * Across(h) else 0) + (y / 2) * Across(w) + x / 2
  }

  lemma CellInside(i: nat, j: nat, m: nat, n: nat)
    requires i < m && j < n
    ensures j * m + i < m * n
  {
    assert (j + 1) * m <= n * m;
  }

  // Every pixel's samples lie in the payload, brightness before color and the
  // one color before the other.
  lemma PixelsInside(w: nat, h: nat, x: nat, y: nat)
    requires x < w && y < h
    ensures LumaAt(w, x, y) < w * h <= ColorAt(w, h, false, x, y)
    ensures ColorAt(w, h, false, x, y) < w * h + Across(w) * Across(h) <= ColorAt(w, h, true, x, y)
    ensures ColorAt(w, h, true, x, y) < I420Bytes(w, h)
  {
    CellInside(x, y, w, h);
    CellInside(x / 2, y / 2, Across(w), Across(h));
    assert ((w + 1) / 2) * ((h + 1) / 2) == Across(w) * Across(h);
  }

  // And the payload holds nothing else: its last byte is the last pixel's.
  lemma NothingToSpare(w: nat, h: nat)
    requires w > 0 && h > 0
    ensures ColorAt(w, h, true, w - 1, h - 1) == I420Bytes(w, h) - 1
  {
    var m, n := Across(w), Across(h);
    assert (w - 1) / 2 == m - 1 && (h - 1) / 2 == n - 1;
    assert (n - 1) * m + m == n * m;
    assert ((w + 1) / 2) * ((h + 1) / 2) == m * n;
  }
}

module FrameStream {
  import opened Bytes
  import opened Frames

  class FrameStream {
    var open: bool
    var buf: seq<byte>
    var latest: Frame

    ghost function State(): Stream
      reads this
    {
      Stream(open, buf, latest)
    }

    constructor ()
      ensures State() == CLOSED
    {
      open, buf, latest := false, [], NO_FRAME;
    }

    method Close()
      modifies this
      ensures State() == CLOSED
    {
      open, buf, latest := false, [], NO_FRAME;
    }

    method Open()
      modifies this
      ensures State() == OPENED
    {
      Close();
      open := true;
    }

    // ok is false once a header makes no sense; gotFrame, if latest is new.
    method ParseBuffer() returns (ok: bool, gotFrame: bool)
      modifies `buf, `latest
      ensures var p := ParseAll(old(buf), old(latest));
              && ok == p.Parsed? && (ok ==> p == Parsed(buf, latest, gotFrame))
    {
      var off := 0;
      gotFrame := false;
      while |buf| - off >= HEADER_BYTES
        invariant off <= |buf| && buf == old(buf)
        invariant var p, q := ParseAll(old(buf), old(latest)), ParseAll(buf[off..], latest);
                  if q.Malformed? then p.Malformed? else p == q.(got := gotFrame || q.got)
        decreases |buf| - off
      {
        var h := buf[off..];
        if !Acceptable(h) { return false, gotFrame; }
        if |h| < Length(h) { break; }
        latest := FrameAt(h);
        assert h[Length(h)..] == buf[off + Length(h)..];
        off := off + Length(h);
        gotFrame := true;
      }
      buf := buf[off..];
      ok := true;
    }

    method OnReadyRead(chunk: seq<byte>) returns (frameReady: bool, ended: bool)
      requires open
      modifies this
      ensures State() == Fed(old(State()), chunk) && ended == !open
      ensures var p := ParseAll(old(buf) + chunk, old(latest)); frameReady == (p.Parsed? && p.got)
    {
      buf := buf + chunk;
      var ok, gotFrame := ParseBuffer();
      if !ok {
        Close();
        return false, true;
      }
      return gotFrame, false;
    }
  }
}
