// What a length may look like, and what any bytes at all come to: the frames
// before the first bad line, and then a dropped link.

module Numerals {
  import opened Wrappers
  import opened Bytes
  import opened Decimals

  predicate AllSpace(s: seq<byte>) { forall i | 0 <= i < |s| :: IsSpace(s[i]) }

  // sign, if there is one, and digits.
  predicate Numeral(s: seq<byte>, n: int) {
    && s != []
    && (if s[0] == 43 then |s| > 1 && AllDigits(s[1..]) && n == Value(s[1..])
        else if s[0] == 45 then |s| > 1 && AllDigits(s[1..]) && n == 0 - Value(s[1..])
        else AllDigits(s) && n == Value(s))
    && LEAST <= n <= MOST
  }

  // line is s with blanks around it, from i on.
  predicate Around(line: seq<byte>, s: seq<byte>, i: nat) {
    i + |s| <= |line| && AllSpace(line[..i]) && line[i..i + |s|] == s && AllSpace(line[i + |s|..])
  }

  ghost predicate NumberLine(line: seq<byte>, n: int) {
    exists s: seq<byte>, i: nat :: Numeral(s, n) && Around(line, s, i)
  }

  lemma {:induction false} LeftMeans(line: seq<byte>) returns (i: nat)
    ensures i <= |line| && AllSpace(line[..i]) && TrimLeft(line) == line[i..]
  {
    i := 0;
    if line != [] && IsSpace(line[0]) {
      var n := LeftMeans(line[1..]);
      i := n + 1;
      assert line[..i] == [line[0]] + line[1..][..n] && line[i..] == line[1..][n..];
    }
  }

  lemma {:induction false} RightMeans(line: seq<byte>)
    ensures TrimRight(line) <= line && AllSpace(line[|TrimRight(line)|..])
    ensures TrimRight(line) == [] || !IsSpace(TrimRight(line)[|TrimRight(line)| - 1])
    decreases |line|
  {
    if line != [] && IsSpace(line[|line| - 1]) {
      var init := line[..|line| - 1];
      RightMeans(init);
      assert line[|TrimRight(init)|..] == init[|TrimRight(init)|..] + [line[|line| - 1]];
    }
  }

  lemma {:induction false} LeftOfBlanks(lead: seq<byte>, s: seq<byte>)
    requires AllSpace(lead) && s != [] && !IsSpace(s[0])
    ensures TrimLeft(lead + s) == s
  {
    if lead == [] {
      assert lead + s == s;
    } else {
      assert (lead + s)[1..] == lead[1..] + s;
      LeftOfBlanks(lead[1..], s);
    }
  }

  lemma {:induction false} RightOfBlanks(s: seq<byte>, trail: seq<byte>)
    requires AllSpace(trail) && s != [] && !IsSpace(s[|s| - 1])
    ensures TrimRight(s + trail) == s
    decreases |trail|
  {
    if trail == [] {
      assert s + trail == s;
    } else {
      assert (s + trail)[..|s + trail| - 1] == s + trail[..|trail| - 1];
      RightOfBlanks(s, trail[..|trail| - 1]);
    }
  }

  lemma NumeralEnds(s: seq<byte>, n: int)
    requires Numeral(s, n)
    ensures !IsSpace(s[0]) && !IsSpace(s[|s| - 1])
  {
    if s[0] == 43 || s[0] == 45 { assert IsDigit(s[1..][|s| - 2]); }
  }

  lemma TrimmedIsAround(line: seq<byte>) returns (i: nat)
    ensures Around(line, TrimRight(TrimLeft(line)), i)
  {
    i := LeftMeans(line);
    var rest := TrimLeft(line);
    RightMeans(rest);
    var s := TrimRight(rest);
    assert line[i..i + |s|] == rest[..|s|] && line[i + |s|..] == rest[|s|..];
  }

  lemma AroundIsTrimmed(line: seq<byte>, s: seq<byte>, n: int, i: nat)
    requires Numeral(s, n) && Around(line, s, i)
    ensures TrimRight(TrimLeft(line)) == s
  {
    NumeralEnds(s, n);
    var rest := s + line[i + |s|..];
    assert line == line[..i] + rest && rest[0] == s[0];
    LeftOfBlanks(line[..i], rest);
    RightOfBlanks(s, line[i + |s|..]);
  }

  // A line is read as n exactly if it is a numeral for n with blanks around it.
  lemma ParseMeans(line: seq<byte>, n: int)
    ensures Parse(line) == Some(n) <==> NumberLine(line, n)
  {
    if Parse(line) == Some(n) {
      var i := TrimmedIsAround(line);
      assert Numeral(TrimRight(TrimLeft(line)), n);
    }
    if NumberLine(line, n) {
      var s: seq<byte>, i: nat :| Numeral(s, n) && Around(line, s, i);
      AroundIsTrimmed(line, s, n, i);
    }
  }
}

module LenpipeStreams {
  import opened Wrappers
  import opened Bytes
  import opened Decimals
  import opened Numerals
  import opened Lenpipe

  // A line that gives the payload's length, in any form a number may have.
  ghost predicate Heads(line: seq<byte>, payload: seq<byte>) {
    NEWLINE !in line && |payload| <= 64 * 1024 * 1024 && NumberLine(line, |payload|)
  }

  ghost predicate AllHead(lines: seq<seq<byte>>, payloads: seq<seq<byte>>) {
    |lines| == |payloads| && forall k | 0 <= k < |lines| :: Heads(lines[k], payloads[k])
  }

  function Lined(lines: seq<seq<byte>>, payloads: seq<seq<byte>>): seq<byte>
    requires |lines| == |payloads|
  {
    if lines == [] then [] else lines[0] + [NEWLINE] + payloads[0] + Lined(lines[1..], payloads[1..])
  }

  lemma LengthMeans(line: seq<byte>, n: nat)
    ensures Length(line) == Some(n) <==> NumberLine(line, n) && n <= MAX_FRAME
    ensures Length(line) == None <==> forall m: nat | m <= MAX_FRAME :: !NumberLine(line, m)
  {
    forall m: int ensures Parse(line) == Some(m) <==> NumberLine(line, m) { ParseMeans(line, m); }
  }

  lemma LineOf(line: seq<byte>, rest: seq<byte>)
    requires NEWLINE !in line
    ensures var s := line + [NEWLINE] + rest;
            NewlineAt(s) == |line| && s[..|line|] == line && s[|line| + 1..] == rest
  {
    var s := line + [NEWLINE] + rest;
    assert s[|line|] == NEWLINE && forall j | 0 <= j < |line| :: s[j] == line[j];
    assert s[..|line|] == line && s[|line| + 1..] == rest;
  }

  lemma OneHeads(line: seq<byte>, payload: seq<byte>, rest: seq<byte>)
    requires Heads(line, payload)
    ensures var d := Drained(Link(rest, -1, true));
            Drained(Link(line + [NEWLINE] + payload + rest, -1, true)) == Drain([payload] + d.out, d.link)
  {
    var after := payload + rest;
    assert line + [NEWLINE] + payload + rest == line + [NEWLINE] + after;
    LineOf(line, after);
    LengthMeans(line, |payload|);
    assert after[..|payload|] == payload && after[|payload|..] == rest;
  }

  // These payloads come out, and then what d brings.
  function Behind(payloads: seq<seq<byte>>, d: Drain): Drain { Drain(payloads + d.out, d.link) }

  lemma OneBehind(first: seq<byte>, rest: seq<seq<byte>>, d: Drain)
    ensures var e := Behind(rest, d); Drain([first] + e.out, e.link) == Behind([first] + rest, d)
  {
    assert [first] + (rest + d.out) == [first] + rest + d.out;
  }

  lemma LinedMore(line: seq<byte>, payload: seq<byte>, lines: seq<seq<byte>>, payloads: seq<seq<byte>>, tail: seq<byte>)
    requires |lines| == |payloads|
    ensures Lined([line] + lines, [payload] + payloads) + tail
         == line + [NEWLINE] + payload + (Lined(lines, payloads) + tail)
  {
    assert ([line] + lines)[1..] == lines && ([payload] + payloads)[1..] == payloads;
  }

  // What good lines bring comes out, and then it is as it would be with the rest.
  lemma {:induction false} AllHeadDrain(lines: seq<seq<byte>>, payloads: seq<seq<byte>>, tail: seq<byte>)
    requires AllHead(lines, payloads)
    ensures Drained(Link(Lined(lines, payloads) + tail, -1, true)) == Behind(payloads, Drained(Link(tail, -1, true)))
    decreases |lines|
  {
    var d := Drained(Link(tail, -1, true));
    if lines == [] {
      assert Lined(lines, payloads) + tail == tail && payloads + d.out == d.out;
    } else {
      AllHeadDrain(lines[1..], payloads[1..], tail);
      OneHeads(lines[0], payloads[0], Lined(lines[1..], payloads[1..]) + tail);
      OneBehind(payloads[0], payloads[1..], d);
      LinedMore(lines[0], payloads[0], lines[1..], payloads[1..], tail);
      assert lines == [lines[0]] + lines[1..] && payloads == [payloads[0]] + payloads[1..];
    }
  }

  // After any number of good frames there can be a line still on its way, a
  // payload still on its way, or a line that is no length, which drops the link
  // and only that does.
  lemma WhatAnyBytesComeTo(lines: seq<seq<byte>>, payloads: seq<seq<byte>>, line: seq<byte>, part: seq<byte>)
    requires AllHead(lines, payloads) && NEWLINE !in line
    ensures Fed(FRESH, Lined(lines, payloads) + line) == Drain(payloads, Link(line, -1, true))
    ensures forall n: nat | |part| < n <= 64 * 1024 * 1024 && NumberLine(line, n) ::
              Fed(FRESH, Lined(lines, payloads) + (line + [NEWLINE] + part)) == Drain(payloads, Link(part, n, true))
    ensures (forall n: nat | n <= 64 * 1024 * 1024 :: !NumberLine(line, n)) ==>
              Fed(FRESH, Lined(lines, payloads) + (line + [NEWLINE] + part)) == Drain(payloads, DROPPED)
  {
    var more := line + [NEWLINE] + part;
    AllHeadDrain(lines, payloads, line);
    AllHeadDrain(lines, payloads, more);
    LineOf(line, part);
    assert FRESH.buf + (Lined(lines, payloads) + line) == Lined(lines, payloads) + line;
    assert FRESH.buf + (Lined(lines, payloads) + more) == Lined(lines, payloads) + more;
    assert payloads + [] == payloads;
    forall n: nat ensures Length(line) == Some(n) <==> NumberLine(line, n) && n <= MAX_FRAME { LengthMeans(line, n); }
  }
}
