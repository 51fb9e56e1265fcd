// Length-prefixed frames over a byte stream: a decimal length on a line of its
// own, then that many bytes.

module Bytes {
  newtype byte = x: int | 0 <= x < 256

  function Concat(chunks: seq<seq<byte>>): seq<byte> {
    if chunks == [] then [] else chunks[0] + Concat(chunks[1..])
  }
}

module Decimals {
  import opened Wrappers
  import opened Bytes

  predicate IsDigit(b: byte) { 48 <= b <= 57 }

  predicate IsSpace(b: byte) { b == 32 || 9 <= b <= 13 }

  predicate AllDigits(s: seq<byte>) { forall i | 0 <= i < |s| :: IsDigit(s[i]) }

  function Decimal(n: nat): (s: seq<byte>)
    ensures s != [] && AllDigits(s)
  {
    var last := [(48 + n % 10) as byte];
    if n < 10 then last else Decimal(n / 10) + last
  }

  function Value(s: seq<byte>): nat
    requires AllDigits(s)
  {
    if s == [] then 0 else 10 * Value(s[..|s| - 1]) + (s[|s| - 1] as int - 48)
  }

  lemma {:induction false} DecimalReadsBack(n: nat)
    ensures Value(Decimal(n)) == n
  {
    if n >= 10 {
      DecimalReadsBack(n / 10);
      var s := Decimal(n);
      assert s[..|s| - 1] == Decimal(n / 10);
    }
  }

  function TrimLeft(s: seq<byte>): (t: seq<byte>)
    ensures t == [] || !IsSpace(t[0])
  {
    if s == [] || !IsSpace(s[0]) then s else TrimLeft(s[1..])
  }

  function TrimRight(s: seq<byte>): seq<byte> {
    if s == [] || !IsSpace(s[|s| - 1]) then s else TrimRight(s[..|s| - 1])
  }

  const LEAST := -0x8000_0000_0000_0000
  const MOST := 0x7fff_ffff_ffff_ffff

  // A signed 64-bit number with blanks around it, or nothing.
  function Parse(line: seq<byte>): Option<int> {
    var s := TrimRight(TrimLeft(line));
    var signed := s != [] && (s[0] == 43 || s[0] == 45);
    var digits := if signed then s[1..] else s;
    if digits == [] || !AllDigits(digits) then None
    else
      var n := if signed && s[0] == 45 then 0 - Value(digits) else Value(digits);
      if LEAST <= n <= MOST then Some(n) else None
  }

  lemma ParseReadsBack(n: nat)
    requires n <= MOST
    ensures Parse(Decimal(n)) == Some(n)
  {
    var s := Decimal(n);
    DecimalReadsBack(n);
    assert IsDigit(s[0]) && IsDigit(s[|s| - 1]);
    assert TrimLeft(s) == s && TrimRight(s) == s;
  }
}

module Lenpipe {
  import opened Wrappers
  import opened Bytes
  import opened Decimals

  const NEWLINE: byte := 10
  const MAX_FRAME := 64 * 1024 * 1024

  // expected is -1 while a length line is awaited.
  datatype Link = Link(buf: seq<byte>, expected: int, open: bool)

  datatype Drain = Drain(out: seq<seq<byte>>, link: Link)

  const FRESH := Link([], -1, true)
  const DROPPED := Link([], -1, false)

  function NewlineAt(buf: seq<byte>): (i: int)
    ensures -1 <= i < |buf| && (i >= 0 ==> buf[i] == NEWLINE)
    ensures forall j | 0 <= j < (if i >= 0 then i else |buf|) :: buf[j] != NEWLINE
  {
    if buf == [] then -1
    else if buf[0] == NEWLINE then 0
    else var i := NewlineAt(buf[1..]); if i < 0 then -1 else i + 1
  }

  // None if the line is no length, or one too large to be meant.
  function Length(line: seq<byte>): (n: Option<nat>)
    ensures n.Some? ==> n.value <= MAX_FRAME
  {
    var n := Parse(line);
    if n.None? || n.value < 0 || n.value > MAX_FRAME then None else Some(n.value)
  }

  function Drained(l: Link): Drain
    decreases |l.buf|, if l.expected < 0 then 0 else 1
  {
    if !l.open then Drain([], l)
    else if l.expected < 0 then
      var nl := NewlineAt(l.buf);
      if nl < 0 then Drain([], l)
      else
        var n := Length(l.buf[..nl]);
        if n.None? then Drain([], DROPPED) else Drained(Link(l.buf[nl + 1..], n.value, true))
    else if |l.buf| < l.expected then Drain([], l)
    else
      var d := Drained(Link(l.buf[l.expected..], -1, true));
      Drain([l.buf[..l.expected]] + d.out, d.link)
  }

  // Nothing comes off a dropped link.
  function Fed(l: Link, chunk: seq<byte>): Drain {
    if l.open then Drained(l.(buf := l.buf + chunk)) else Drain([], l)
  }

  function FedAll(l: Link, chunks: seq<seq<byte>>): Drain
    decreases |chunks|
  {
    if chunks == [] then Drain([], l)
    else
      var d := Fed(l, chunks[0]);
      var e := FedAll(d.link, chunks[1..]);
      Drain(d.out + e.out, e.link)
  }

  function Frame(payload: seq<byte>): seq<byte> { Decimal(|payload|) + [NEWLINE] + payload }

  function Wire(payloads: seq<seq<byte>>): seq<byte> {
    if payloads == [] then [] else Frame(payloads[0]) + Wire(payloads[1..])
  }

  // ------------------------------------------------------- cutting changes nothing

  lemma NewlineStays(buf: seq<byte>, more: seq<byte>)
    requires NewlineAt(buf) >= 0
    ensures NewlineAt(buf + more) == NewlineAt(buf)
  {
    var i, j := NewlineAt(buf), NewlineAt(buf + more);
    assert (buf + more)[i] == NEWLINE;
    assert forall k | 0 <= k < i :: (buf + more)[k] == buf[k];
  }

  ghost predicate Resumes(l: Link, more: seq<byte>) {
    var d := Drained(l);
    var e := Fed(d.link, more);
    Fed(l, more) == Drain(d.out + e.out, e.link)
  }

  lemma {:induction false} DrainResumes(l: Link, more: seq<byte>)
    requires l.open
    ensures Resumes(l, more)
    decreases |l.buf|, if l.expected < 0 then 0 else 1
  {
    var whole := l.buf + more;
    if l.expected < 0 {
      var nl := NewlineAt(l.buf);
      if nl < 0 {
        NothingYet(l, more);
      } else {
        NewlineStays(l.buf, more);
        assert whole[..nl] == l.buf[..nl] && whole[nl + 1..] == l.buf[nl + 1..] + more;
        var n := Length(l.buf[..nl]);
        if n.Some? {
          DrainResumes(Link(l.buf[nl + 1..], n.value, true), more);
        }
      }
    } else if |l.buf| < l.expected {
      NothingYet(l, more);
    } else {
      assert whole[..l.expected] == l.buf[..l.expected];
      assert whole[l.expected..] == l.buf[l.expected..] + more;
      var rest := Link(l.buf[l.expected..], -1, true);
      DrainResumes(rest, more);
      var d, e := Drained(rest), Fed(Drained(rest).link, more);
      assert [l.buf[..l.expected]] + (d.out + e.out) == [l.buf[..l.expected]] + d.out + e.out;
    }
  }

  lemma NothingYet(l: Link, more: seq<byte>)
    requires l.open && Drained(l) == Drain([], l)
    ensures Resumes(l, more)
  {
    var e := Fed(l, more);
    assert [] + e.out == e.out;
  }

  lemma {:induction false} DrainSettles(l: Link)
    ensures var d := Drained(l); Drained(d.link) == Drain([], d.link)
    decreases |l.buf|, if l.expected < 0 then 0 else 1
  {
    if l.open {
      if l.expected < 0 {
        var nl := NewlineAt(l.buf);
        if nl >= 0 && Length(l.buf[..nl]).Some? {
          DrainSettles(Link(l.buf[nl + 1..], Length(l.buf[..nl]).value, true));
        }
      } else if |l.buf| >= l.expected {
        DrainSettles(Link(l.buf[l.expected..], -1, true));
      }
    }
  }

  // However the bytes were cut, the same payloads come out and the same state is
  // left, whether the stream is good or is dropped part way.
  lemma {:induction false} CutsDoNotMatter(l: Link, chunks: seq<seq<byte>>)
    requires Drained(l) == Drain([], l)
    ensures FedAll(l, chunks) == Fed(l, Concat(chunks))
    decreases |chunks|
  {
    if chunks == [] {
      assert l.buf + [] == l.buf;
    } else if l.open {
      var first, rest := chunks[0], Concat(chunks[1..]);
      var d := Fed(l, first);
      DrainSettles(l.(buf := l.buf + first));
      CutsDoNotMatter(d.link, chunks[1..]);
      DrainResumes(l.(buf := l.buf + first), rest);
      assert l.buf + (first + rest) == l.buf + first + rest;
    } else {
      CutsDoNotMatter(l, chunks[1..]);
    }
  }

  // ------------------------------------------------------------------ round trip

  lemma FrameLine(payload: seq<byte>, rest: seq<byte>)
    requires |payload| <= MAX_FRAME
    ensures var s, line := Frame(payload) + rest, Decimal(|payload|);
            && NewlineAt(s) == |line| && s[..|line|] == line && s[|line| + 1..] == payload + rest
            && Length(s[..|line|]) == Some(|payload|)
  {
    var s, line := Frame(payload) + rest, Decimal(|payload|);
    assert s == line + [NEWLINE] + (payload + rest);
    assert forall j | 0 <= j < |line| :: s[j] == line[j] && IsDigit(line[j]);
    assert s[|line|] == NEWLINE;
    ParseReadsBack(|payload|);
  }

  lemma FrameDrains(payload: seq<byte>, rest: seq<byte>)
    requires |payload| <= MAX_FRAME
    ensures var d := Drained(Link(rest, -1, true));
            Drained(Link(Frame(payload) + rest, -1, true)) == Drain([payload] + d.out, d.link)
  {
    FrameLine(payload, rest);
    var after := payload + rest;
    assert after[..|payload|] == payload && after[|payload|..] == rest;
  }

  lemma {:induction false} WireDrains(payloads: seq<seq<byte>>)
    requires forall p | p in payloads :: |p| <= MAX_FRAME
    ensures Drained(Link(Wire(payloads), -1, true)) == Drain(payloads, FRESH)
    decreases |payloads|
  {
    if payloads != [] {
      assert payloads[0] in payloads;
      WireDrains(payloads[1..]);
      FrameDrains(payloads[0], Wire(payloads[1..]));
    }
  }

  // Whatever was sent is received, in order, however the bytes were cut, and
  // nothing is left over.
  lemma SentIsReceived(payloads: seq<seq<byte>>, chunks: seq<seq<byte>>)
    requires forall p | p in payloads :: |p| <= 64 * 1024 * 1024
    requires Concat(chunks) == Wire(payloads)
    ensures FedAll(FRESH, chunks) == Drain(payloads, FRESH)
  {
    CutsDoNotMatter(FRESH, chunks);
    assert [] + Wire(payloads) == Wire(payloads);
    WireDrains(payloads);
  }

  // What the buffer and the awaited length stand for: with the bytes still to
  // come they are the payloads not yet delivered.
  ghost predicate Owes(l: Link, coming: seq<byte>, payloads: seq<seq<byte>>) {
    l.open
    && if l.expected < 0 then l.buf + coming == Wire(payloads)
       else payloads != [] && |payloads[0]| == l.expected
            && l.buf + coming == payloads[0] + Wire(payloads[1..])
  }

  lemma WireLine(payloads: seq<seq<byte>>)
    requires forall p | p in payloads :: |p| <= MAX_FRAME
    ensures NewlineAt(Wire(payloads)) >= 0 <==> payloads != []
    ensures payloads != [] ==>
              var nl, s := NewlineAt(Wire(payloads)), Wire(payloads);
              Length(s[..nl]) == Some(|payloads[0]|) && s[nl + 1..] == payloads[0] + Wire(payloads[1..])
  {
    if payloads != [] {
      assert payloads[0] in payloads;
      FrameLine(payloads[0], Wire(payloads[1..]));
    }
  }

  lemma LineOwes(l: Link, coming: seq<byte>, payloads: seq<seq<byte>>)
    requires l.expected < 0 && NewlineAt(l.buf) >= 0
    requires Owes(l, coming, payloads) && forall p | p in payloads :: |p| <= MAX_FRAME
    ensures payloads != [] && Length(l.buf[..NewlineAt(l.buf)]) == Some(|payloads[0]|)
    ensures Owes(Link(l.buf[NewlineAt(l.buf) + 1..], |payloads[0]|, true), coming, payloads)
  {
    var nl, whole := NewlineAt(l.buf), l.buf + coming;
    NewlineStays(l.buf, coming);
    WireLine(payloads);
    assert whole[..nl] == l.buf[..nl];
    assert whole[nl + 1..] == l.buf[nl + 1..] + coming;
  }

  lemma PayloadOwes(l: Link, coming: seq<byte>, payloads: seq<seq<byte>>)
    requires 0 <= l.expected <= |l.buf| && Owes(l, coming, payloads)
    ensures payloads != [] && l.buf[..l.expected] == payloads[0]
    ensures Owes(Link(l.buf[l.expected..], -1, true), coming, payloads[1..])
  {
    var first, rest := payloads[0], Wire(payloads[1..]);
    assert (l.buf + coming)[..l.expected] == l.buf[..l.expected];
    assert (first + rest)[..l.expected] == first;
    assert (l.buf + coming)[l.expected..] == l.buf[l.expected..] + coming;
    assert (first + rest)[l.expected..] == rest;
  }

  lemma PrefixJoins<T>(all: seq<T>, m: nat, n: nat)
    requires m + n <= |all|
    ensures all[..m] + all[m..][..n] == all[..m + n] && all[m..][n..] == all[m + n..]
  {}

  lemma {:induction false} DrainOwes(l: Link, coming: seq<byte>, payloads: seq<seq<byte>>)
    requires Owes(l, coming, payloads) && forall p | p in payloads :: |p| <= MAX_FRAME
    ensures var d := Drained(l);
            && |d.out| <= |payloads| && d.out == payloads[..|d.out|]
            && Owes(d.link, coming, payloads[|d.out|..])
    decreases |l.buf|, if l.expected < 0 then 0 else 1
  {
    if l.expected < 0 {
      if NewlineAt(l.buf) >= 0 {
        LineOwes(l, coming, payloads);
        DrainOwes(Link(l.buf[NewlineAt(l.buf) + 1..], |payloads[0]|, true), coming, payloads);
      } else {
        assert payloads[0..] == payloads;
      }
    } else if |l.buf| >= l.expected {
      PayloadOwes(l, coming, payloads);
      var rest := Link(l.buf[l.expected..], -1, true);
      DrainOwes(rest, coming, payloads[1..]);
      PrefixJoins(payloads, 1, |Drained(rest).out|);
      assert payloads[..1] == [payloads[0]];
    } else {
      assert payloads[0..] == payloads;
    }
  }

  // At every moment: delivered so far, then what is owed, is what was sent.
  lemma {:induction false} NothingIsLost(l: Link, chunks: seq<seq<byte>>, coming: seq<byte>,
                                         payloads: seq<seq<byte>>)
    requires forall p | p in payloads :: |p| <= MAX_FRAME
    requires Owes(l, Concat(chunks) + coming, payloads)
    ensures var d := FedAll(l, chunks);
            && |d.out| <= |payloads| && d.out == payloads[..|d.out|]
            && Owes(d.link, coming, payloads[|d.out|..])
    decreases |chunks|
  {
    if chunks == [] {
      assert Concat(chunks) + coming == coming;
      assert payloads[0..] == payloads;
    } else {
      var rest := Concat(chunks[1..]) + coming;
      assert l.buf + (Concat(chunks) + coming) == l.buf + chunks[0] + rest;
      DrainOwes(l.(buf := l.buf + chunks[0]), rest, payloads);
      var d := Fed(l, chunks[0]);
      NothingIsLost(d.link, chunks[1..], coming, payloads[|d.out|..]);
      var e := FedAll(d.link, chunks[1..]);
      PrefixJoins(payloads, |d.out|, |e.out|);
    }
  }
}

// One step of draining at a time, for the loop that drains.
module Draining {
  import opened Bytes
  import opened Lenpipe

  // What is out and what is left still come to the same end.
  ghost predicate Reaches(out: seq<seq<byte>>, l: Link, goal: Drain) {
    goal == Drain(out + Drained(l).out, Drained(l).link)
  }

  lemma Done(out: seq<seq<byte>>, l: Link)
    requires l.open && if l.expected < 0 then NewlineAt(l.buf) < 0 else |l.buf| < l.expected
    ensures forall goal :: Reaches(out, l, goal) ==> goal == Drain(out, l)
  {
    assert out + [] == out;
  }

  lemma Broken(out: seq<seq<byte>>, l: Link)
    requires l.open && l.expected < 0 && NewlineAt(l.buf) >= 0 && Length(l.buf[..NewlineAt(l.buf)]).None?
    ensures forall goal :: Reaches(out, l, goal) ==> goal == Drain(out, DROPPED)
  {
    assert out + [] == out;
  }

  lemma LineTaken(out: seq<seq<byte>>, l: Link)
    requires l.open && l.expected < 0 && NewlineAt(l.buf) >= 0 && Length(l.buf[..NewlineAt(l.buf)]).Some?
    ensures var nl := NewlineAt(l.buf);
            var m := Link(l.buf[nl + 1..], Length(l.buf[..nl]).value, true);
            forall goal :: Reaches(out, l, goal) ==> Reaches(out, m, goal)
  {}

  lemma PayloadTaken(out: seq<seq<byte>>, l: Link)
    requires l.open && 0 <= l.expected <= |l.buf|
    ensures var m := Link(l.buf[l.expected..], -1, true);
            forall goal :: Reaches(out, l, goal) ==> Reaches(out + [l.buf[..l.expected]], m, goal)
  {
    var m := Link(l.buf[l.expected..], -1, true);
    assert out + ([l.buf[..l.expected]] + Drained(m).out) == out + [l.buf[..l.expected]] + Drained(m).out;
  }
}

module SocketTransport {
  import opened Bytes
  import opened Decimals
  import opened Draining
  import opened Lenpipe

  class SocketTransport {
    var buf: seq<byte>
    var expected: int
    var connected: bool

    ghost function State(): Link
      reads this
    {
      Link(buf, expected, connected)
    }

    constructor ()
      ensures State() == DROPPED
    {
      buf, expected, connected := [], -1, false;
    }

    method ResetFraming()
      modifies `buf, `expected
      ensures buf == [] && expected == -1
    {
      buf, expected := [], -1;
    }

    method OnConnected()
      modifies this
      ensures State() == FRESH
    {
      ResetFraming();
      connected := true;
    }

    method OnDisconnected()
      modifies this
      ensures State() == DROPPED
    {
      ResetFraming();
      connected := false;
    }

    // Takes what has arrived and emits every whole payload.
    method OnReadyRead(chunk: seq<byte>) returns (received: seq<seq<byte>>)
      requires connected
      modifies this
      ensures Drain(received, State()) == Fed(old(State()), chunk)
    {
      buf := buf + chunk;
      received := [];
      while true
        invariant connected && Reaches(received, State(), Fed(old(State()), chunk))
        decreases |buf|, if expected < 0 then 0 else 1
      {
        if expected < 0 {
          var nl := NewlineAt(buf);
          if nl < 0 {
            Done(received, State());
            return;
          }
          var length := Parse(buf[..nl]);
          if length.None? || length.value < 0 || length.value > MAX_FRAME {
            Broken(received, State());
            ResetFraming();
            connected := false;
            return;
          }
          LineTaken(received, State());
          expected := length.value;
          buf := buf[nl + 1..];
        }
        if |buf| < expected {
          Done(received, State());
          return;
        }
        PayloadTaken(received, State());
        var payload := buf[..expected];
        buf := buf[expected..];
        expected := -1;
        received := received + [payload];
      }
    }

    method Send(json: seq<byte>) returns (written: seq<byte>)
      ensures written == if connected then Frame(json) else []
    {
      if !connected { return []; }
      written := Decimal(|json|) + [NEWLINE] + json;
    }
  }
}
