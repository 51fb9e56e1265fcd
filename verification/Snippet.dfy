// The search snippet: whitespace collapsed, matches in bold.

module Snippet {
  import opened Wrappers
  import opened Escape
  import opened Spans
  import opened Markup

  datatype Range = Range(offset: int, length: int)

  predicate Blank(c: char) { c == ' ' || c == '\t' || c == '\n' || c == '\r' }

  function Start(r: Range, n: nat): nat { Clamp(0, r.offset, n) }

  function End(r: Range, n: nat): nat { Clamp(Start(r, n), Start(r, n) + r.length, n) }

  ghost predicate Covered(ranges: seq<Range>, n: nat, i: nat) {
    exists k :: 0 <= k < |ranges| && Start(ranges[k], n) <= i < End(ranges[k], n)
  }

  // A range covers length code points from its offset, as far as there are any.
  lemma CoveredMeans(ranges: seq<Range>, n: nat, i: nat)
    ensures Covered(ranges, n, i) <==>
              (i < n && exists k ::
                 (0 <= k < |ranges|
                  && AtLeastZero(ranges[k].offset) <= i < AtLeastZero(ranges[k].offset) + ranges[k].length))
  {
    if k :| 0 <= k < |ranges| && Start(ranges[k], n) <= i < End(ranges[k], n) {
      assert AtLeastZero(ranges[k].offset) <= i < AtLeastZero(ranges[k].offset) + ranges[k].length;
    }
    if k :| i < n && 0 <= k < |ranges|
            && AtLeastZero(ranges[k].offset) <= i < AtLeastZero(ranges[k].offset) + ranges[k].length {
      assert Start(ranges[k], n) <= i < End(ranges[k], n);
    }
  }

  // One flag to a character: where ranges meet or overlap no seam is left.
  method Paint(n: nat, ranges: seq<Range>) returns (matched: array<bool>)
    ensures fresh(matched) && matched.Length == n
    ensures forall i | 0 <= i < n :: matched[i] <==> Covered(ranges, n, i)
  {
    matched := new bool[n](i => false);
    var k := 0;
    while k < |ranges|
      invariant k <= |ranges|
      invariant forall i | 0 <= i < n :: matched[i] <==> Covered(ranges[..k], n, i)
    {
      var lo, hi := Start(ranges[k], n), End(ranges[k], n);
      ghost var was := matched[..];
      var i := lo;
      while i < hi
        invariant lo <= i <= hi <= n
        invariant forall j | 0 <= j < n :: matched[j] == (lo <= j < i || was[j])
      {
        matched[i] := true;
        i := i + 1;
      }
      forall j | 0 <= j < n ensures matched[j] <==> Covered(ranges[..k + 1], n, j) {
        CoveredOneMore(ranges, k, n, j);
        assert was[j] == Covered(ranges[..k], n, j);
      }
      k := k + 1;
    }
    assert ranges[..k] == ranges;
  }

  lemma CoveredOneMore(ranges: seq<Range>, k: nat, n: nat, i: nat)
    requires k < |ranges|
    ensures Covered(ranges[..k + 1], n, i)
       <==> Covered(ranges[..k], n, i) || Start(ranges[k], n) <= i < End(ranges[k], n)
  {
    var more, some := ranges[..k + 1], ranges[..k];
    if Covered(some, n, i) {
      var j :| 0 <= j < k && Start(some[j], n) <= i < End(some[j], n);
      assert more[j] == some[j];
    }
    if Covered(more, n, i) {
      var j :| 0 <= j < k + 1 && Start(more[j], n) <= i < End(more[j], n);
      assert j < k ==> some[j] == more[j];
    }
    assert more[k] == ranges[k];
  }

  // ------------------------------------------------------------- what it shows

  const BOLD: seq<string> := ["b"]

  function Under(bold: bool): seq<string> { if bold then BOLD else [] }

  // The last character before n that is kept, counting from one; 0 for none.
  function LastKept(cps: string, n: nat): (k: nat)
    requires n <= |cps|
    ensures k <= n && (k > 0 ==> !Blank(cps[k - 1]))
    ensures forall i | k <= i < n :: Blank(cps[i])
  {
    if n == 0 then 0 else if Blank(cps[n - 1]) then LastKept(cps, n - 1) else n
  }

  // Each kept character is bold exactly when it is matched; the one space left
  // of a gap is bold exactly when both its neighbours are.
  function Shown(cps: string, matched: seq<bool>, n: nat): seq<Glyph>
    requires n <= |cps| == |matched|
  {
    if n == 0 then []
    else if Blank(cps[n - 1]) then Shown(cps, matched, n - 1)
    else
      var k := LastKept(cps, n - 1);
      var gap := if 0 < k < n - 1
                 then [Glyph(' ', Under(matched[k - 1] && matched[n - 1]))] else [];
      Shown(cps, matched, n - 1) + gap + [Glyph(cps[n - 1], Under(matched[n - 1]))]
  }

  // The body's words, and the words with one space between: the text with its
  // whitespace simplified.
  function Words(s: string): (w: seq<string>)
    ensures s != "" && !Blank(s[|s| - 1]) ==> w != []
  {
    if s == "" then []
    else
      var init, c := s[..|s| - 1], s[|s| - 1];
      if Blank(c) then Words(init)
      else if init == "" || Blank(init[|init| - 1]) then Words(init) + [[c]]
      else var w := Words(init); w[..|w| - 1] + [w[|w| - 1] + [c]]
  }

  function Joined(w: seq<string>): string {
    if w == [] then ""
    else if |w| == 1 then w[0]
    else Joined(w[..|w| - 1]) + " " + w[|w| - 1]
  }

  lemma JoinedSnoc(init: seq<string>, last: string)
    ensures Joined(init + [last]) == if init == [] then last else Joined(init) + " " + last
  {
    assert (init + [last])[..|init|] == init;
  }

  lemma JoinedExtended(init: seq<string>, last: string, c: char)
    ensures Joined(init + [last + [c]]) == Joined(init + [last]) + [c]
  {
    JoinedSnoc(init, last);
    JoinedSnoc(init, last + [c]);
    if init != [] {
      assert Joined(init) + " " + (last + [c]) == Joined(init) + " " + last + [c];
    }
  }

  lemma {:induction false} NoWordsNoneKept(cps: string, n: nat)
    requires n <= |cps|
    ensures Words(cps[..n]) == [] <==> LastKept(cps, n) == 0
  {
    if n > 0 {
      assert cps[..n][..n - 1] == cps[..n - 1];
      NoWordsNoneKept(cps, n - 1);
    }
  }

  lemma ShownChars(cps: string, matched: seq<bool>, n: nat)
    requires n < |cps| == |matched| && !Blank(cps[n])
    ensures Chars(Shown(cps, matched, n + 1))
         == Chars(Shown(cps, matched, n)) + (if 0 < LastKept(cps, n) < n then " " else "") + [cps[n]]
  {
    var k, g, x := LastKept(cps, n), Shown(cps, matched, n), Glyph(cps[n], Under(matched[n]));
    if 0 < k < n {
      var gap := Glyph(' ', Under(matched[k - 1] && matched[n]));
      CharsJoin(g, gap);
      CharsJoin(g + [gap], x);
    } else {
      assert g + [] + [x] == g + [x];
      CharsJoin(g, x);
    }
  }

  lemma WordsChars(cps: string, n: nat)
    requires n < |cps| && !Blank(cps[n])
    ensures Joined(Words(cps[..n + 1]))
         == Joined(Words(cps[..n])) + (if 0 < LastKept(cps, n) < n then " " else "") + [cps[n]]
  {
    var before, c, k := cps[..n], cps[n], LastKept(cps, n);
    var w := Words(before);
    assert cps[..n + 1][..n] == before;
    NoWordsNoneKept(cps, n);
    if 0 < k < n || k == 0 {
      assert n > 0 ==> Blank(before[n - 1]);
      JoinedSnoc(w, [c]);
    } else {
      assert w == w[..|w| - 1] + [w[|w| - 1]];
      JoinedExtended(w[..|w| - 1], w[|w| - 1], c);
    }
  }

  // Read without the bold, the snippet is the body with whitespace simplified.
  lemma {:induction false} ShownReadsAsWords(cps: string, matched: seq<bool>, n: nat)
    requires n <= |cps| == |matched|
    ensures Chars(Shown(cps, matched, n)) == Joined(Words(cps[..n]))
    decreases n
  {
    if n > 0 {
      ShownReadsAsWords(cps, matched, n - 1);
      OneMoreReadsAsWords(cps, matched, n - 1);
    }
  }

  lemma OneMoreReadsAsWords(cps: string, matched: seq<bool>, n: nat)
    requires n < |cps| == |matched| && Chars(Shown(cps, matched, n)) == Joined(Words(cps[..n]))
    ensures Chars(Shown(cps, matched, n + 1)) == Joined(Words(cps[..n + 1]))
  {
    if Blank(cps[n]) {
      BlankAddsNothing(cps, n);
    } else {
      ShownChars(cps, matched, n);
      WordsChars(cps, n);
    }
  }

  lemma BlankAddsNothing(cps: string, n: nat)
    requires n < |cps| && Blank(cps[n])
    ensures Words(cps[..n + 1]) == Words(cps[..n])
  {
    assert cps[..n + 1][..n] == cps[..n] && cps[..n + 1][n] == cps[n];
  }

  // ------------------------------------------------------------- in other words

  // The letters, each bold as it was matched.
  function KeptGlyphs(cps: string, matched: seq<bool>, n: nat): seq<Glyph>
    requires n <= |cps| == |matched|
  {
    if n == 0 then []
    else KeptGlyphs(cps, matched, n - 1)
         + if cps[n - 1] in {' ', '\t', '\n', '\r'} then [] else [Glyph(cps[n - 1], Under(matched[n - 1]))]
  }

  function Letters(g: seq<Glyph>): seq<Glyph> {
    if g == [] then [] else Letters(g[..|g| - 1]) + if g[|g| - 1].c == ' ' then [] else [g[|g| - 1]]
  }

  lemma LettersMore(g: seq<Glyph>, x: Glyph)
    ensures Letters(g + [x]) == Letters(g) + if x.c == ' ' then [] else [x]
  {
    assert (g + [x])[..|g|] == g;
  }

  lemma {:induction false} LettersAre(cps: string, matched: seq<bool>, n: nat)
    requires n <= |cps| == |matched|
    ensures Letters(Shown(cps, matched, n)) == KeptGlyphs(cps, matched, n)
    decreases n
  {
    if n > 0 {
      LettersAre(cps, matched, n - 1);
      if !Blank(cps[n - 1]) { OneMoreLetter(cps, matched, n - 1); }
    }
  }

  lemma LettersAfterGap(g: seq<Glyph>, gap: Glyph, x: Glyph)
    requires gap.c == ' ' && x.c != ' '
    ensures Letters(g + [gap] + [x]) == Letters(g) + [x]
  {
    LettersMore(g, gap);
    LettersMore(g + [gap], x);
    assert Letters(g) + [] == Letters(g);
  }

  lemma OneMoreLetter(cps: string, matched: seq<bool>, n: nat)
    requires n < |cps| == |matched| && !Blank(cps[n])
    ensures Letters(Shown(cps, matched, n + 1))
         == Letters(Shown(cps, matched, n)) + [Glyph(cps[n], Under(matched[n]))]
  {
    var k, g, x := LastKept(cps, n), Shown(cps, matched, n), Glyph(cps[n], Under(matched[n]));
    ShownKept(cps, matched, n);
    if 0 < k < n {
      LettersAfterGap(g, Glyph(' ', Under(matched[k - 1] && matched[n])), x);
    } else {
      assert g + [] + [x] == g + [x];
      LettersMore(g, x);
    }
  }

  // A gap stands between two letters, and is bold exactly if both are.
  predicate GapRight(g: seq<Glyph>, k: nat)
    requires 0 < k < |g| - 1
  {
    && g[k - 1].c != ' ' && g[k + 1].c != ' '
    && g[k].within == if g[k - 1].within == BOLD && g[k + 1].within == BOLD then BOLD else []
  }

  ghost predicate GapsRight(g: seq<Glyph>) {
    && (g != [] ==> g[0].c != ' ' && g[|g| - 1].c != ' ')
    && forall k: nat | 0 < k < |g| - 1 :: g[k].c == ' ' ==> GapRight(g, k)
  }

  lemma {:induction false} EndsInLastKept(cps: string, matched: seq<bool>, n: nat)
    requires n <= |cps| == |matched|
    ensures var k, g := LastKept(cps, n), Shown(cps, matched, n);
            if k == 0 then g == []
            else g != [] && g[|g| - 1] == Glyph(cps[k - 1], Under(matched[k - 1])) && cps[k - 1] != ' '
    decreases n
  {
    if n > 0 { EndsInLastKept(cps, matched, n - 1); }
  }

  lemma NextLetter(g: seq<Glyph>, x: Glyph)
    requires GapsRight(g) && x.c != ' '
    ensures GapsRight(g + [x])
  {
    var more := g + [x];
    assert more[0] == (if g == [] then x else g[0]) && more[|more| - 1] == x;
    forall k: nat | 0 < k < |more| - 1 && more[k].c == ' ' ensures GapRight(more, k) {
      assert more[k] == g[k] && k != |g| - 1;
      assert GapRight(g, k);
      assert more[k - 1] == g[k - 1] && more[k + 1] == g[k + 1];
    }
  }

  lemma NextAfterGap(g: seq<Glyph>, gap: Glyph, x: Glyph)
    requires GapsRight(g) && g != [] && x.c != ' ' && gap.c == ' '
    requires gap.within == if g[|g| - 1].within == BOLD && x.within == BOLD then BOLD else []
    ensures GapsRight(g + [gap] + [x])
  {
    var more := g + [gap] + [x];
    assert more[0] == g[0] && more[|more| - 1] == x && more[|g|] == gap && more[|g| - 1] == g[|g| - 1];
    forall k: nat | 0 < k < |more| - 1 && more[k].c == ' ' ensures GapRight(more, k) {
      if k < |g| {
        assert more[k] == g[k] && k != |g| - 1;
        assert GapRight(g, k);
        assert more[k - 1] == g[k - 1] && more[k + 1] == g[k + 1];
      }
    }
  }

  lemma UnderBoth(a: bool, b: bool)
    ensures Under(a && b) == if Under(a) == BOLD && Under(b) == BOLD then BOLD else []
  {}

  lemma GapsGrow(cps: string, matched: seq<bool>, n: nat)
    requires n < |cps| == |matched| && !Blank(cps[n]) && GapsRight(Shown(cps, matched, n))
    ensures GapsRight(Shown(cps, matched, n + 1))
  {
    var k, g, x := LastKept(cps, n), Shown(cps, matched, n), Glyph(cps[n], Under(matched[n]));
    EndsInLastKept(cps, matched, n);
    ShownKept(cps, matched, n);
    if 0 < k < n {
      UnderBoth(matched[k - 1], matched[n]);
      NextAfterGap(g, Glyph(' ', Under(matched[k - 1] && matched[n])), x);
    } else {
      assert g + [] + [x] == g + [x];
      NextLetter(g, x);
    }
  }

  lemma {:induction false} GapsAreRight(cps: string, matched: seq<bool>, n: nat)
    requires n <= |cps| == |matched|
    ensures GapsRight(Shown(cps, matched, n))
    decreases n
  {
    if n > 0 {
      GapsAreRight(cps, matched, n - 1);
      if !Blank(cps[n - 1]) { GapsGrow(cps, matched, n - 1); }
    }
  }

  // ------------------------------------------------------------- the renderer

  lemma ReadsPlain(out: string, g: seq<Glyph>, open: seq<string>, space: bool, c: char)
    requires Reads(out, g, open, space) && c != ' ' && c != '\n'
    ensures Reads(out + PlainOf(c), g + [Glyph(c, open)], open, false)
  {
    forall rest: string
      ensures Draw(Written(PlainOf(c), rest), open, space) == After([Glyph(c, open)], Draw(rest, open, false))
    {
      if c == '&' || c == '<' || c == '>' {
        EntityDraws(c, rest, open, space);
      } else {
        OtherDraws(c, rest, open, space);
      }
    }
    ReadsMore(out, g, open, space, PlainOf(c), [Glyph(c, open)], open, false);
  }

  lemma ReadsSpace(out: string, g: seq<Glyph>, open: seq<string>)
    requires Reads(out, g, open, false)
    ensures Reads(out + " ", g + [Glyph(' ', open)], open, true)
  {
    forall rest: string
      ensures Draw(Written(" ", rest), open, false) == After([Glyph(' ', open)], Draw(rest, open, true))
    {
      SpaceDraws(rest, open, false);
    }
    ReadsMore(out, g, open, false, " ", [Glyph(' ', open)], open, true);
  }

  lemma ReadsBold(out: string, g: seq<Glyph>, space: bool)
    requires Reads(out, g, Under(false), space)
    ensures Reads(out + "<b>", g, Under(true), space)
  {
    ReadsOpen(out, g, [], space, "b");
    assert "<" + "b" + ">" == "<b>";
    assert [] + ["b"] == BOLD;
  }

  lemma ReadsPlainAgain(out: string, g: seq<Glyph>, space: bool)
    requires Reads(out, g, Under(true), space)
    ensures Reads(out + "</b>", g, Under(false), space)
  {
    assert Element("b") == "b" by { assert "b"[1..] == ""; }
    ReadsClose(out, g, BOLD, space, "b");
    assert "</" + "b" + ">" == "</b>";
    assert BOLD[..|BOLD| - 1] == [];
  }

  ghost function Matched(ranges: seq<Range>, n: nat): (m: seq<bool>)
    ensures |m| == n && forall i | 0 <= i < n :: m[i] <==> Covered(ranges, n, i)
  {
    seq(n, i requires 0 <= i < n => Covered(ranges, n, i))
  }

  lemma ShownKept(cps: string, matched: seq<bool>, i: nat)
    requires i < |cps| == |matched| && !Blank(cps[i])
    ensures var k := LastKept(cps, i);
            var gap := if 0 < k < i then [Glyph(' ', Under(matched[k - 1] && matched[i]))] else [];
            Shown(cps, matched, i + 1) == Shown(cps, matched, i) + gap + [Glyph(cps[i], Under(matched[i]))]
  {
  }

  method Close(before: string, open: bool, bold: bool, ghost g: seq<Glyph>) returns (out: string)
    requires Reads(before, g, Under(open), false)
    ensures Reads(out, g, Under(open && bold), false)
  {
    out := before;
    if open && !bold {
      ReadsPlainAgain(out, g, false);
      out := out + "</b>";
    }
  }

  method Gap(before: string, gap: bool, open: bool, ghost g: seq<Glyph>) returns (out: string)
    requires Reads(before, g, Under(open), false)
    ensures Reads(out, g + (if gap then [Glyph(' ', Under(open))] else []), Under(open), gap)
  {
    out := before;
    if gap {
      ReadsSpace(out, g, Under(open));
      out := out + " ";
    } else {
      assert g + [] == g;
    }
  }

  method Open(before: string, open: bool, bold: bool, ghost g: seq<Glyph>, ghost space: bool) returns (out: string)
    requires open ==> bold
    requires Reads(before, g, Under(open), space)
    ensures Reads(out, g, Under(bold), space)
  {
    out := before;
    if !open && bold {
      ReadsBold(out, g, space);
      out := out + "<b>";
    }
  }

  // A space is bold only between two bold characters, which is known when the
  // second of them is reached.
  method DrawKept(before: string, body: string, matched: array<bool>, i: nat, open: bool, held: bool, drawn: bool)
    returns (out: string)
    requires i < |body| == matched.Length && !Blank(body[i])
    requires drawn == (LastKept(body, i) > 0) && held == (LastKept(body, i) < i)
    requires open == (drawn && matched[LastKept(body, i) - 1])
    requires Reads(before, Shown(body, matched[..], i), Under(open), false)
    ensures Reads(out, Shown(body, matched[..], i + 1), Under(matched[i]), false)
  {
    ghost var m := matched[..];
    ghost var g := Shown(body, m, i);
    var bold := matched[i];
    out := Close(before, open, bold, g);
    out := Gap(out, held && drawn, open && bold, g);
    ghost var gap := if held && drawn then [Glyph(' ', Under(open && bold))] else [];
    out := Open(out, open && bold, bold, g + gap, held && drawn);
    var c := EscapedPlain([body[i]]);
    assert c == PlainOf(body[i]) by { PlainOne(body[i]); }
    ReadsPlain(out, g + gap, Under(bold), held && drawn, body[i]);
    out := out + c;
    ShownKept(body, m, i);
  }

  lemma PlainOne(c: char)
    ensures Plain([c]) == PlainOf(c)
  {
    assert Plain([c][..0]) == "";
  }

  // What is read: the letters in order, each bold exactly if a range covers it,
  // one space where there was any between two, bold exactly if both are, and none
  // elsewhere.
  ghost predicate Shows(g: seq<Glyph>, body: string, ranges: seq<Range>) {
    && Letters(g) == KeptGlyphs(body, Matched(ranges, |body|), |body|)
    && Chars(g) == Joined(Words(body)) && GapsRight(g)
  }

  lemma ShownShows(body: string, ranges: seq<Range>)
    ensures Shows(Shown(body, Matched(ranges, |body|), |body|), body, ranges)
  {
    LettersAre(body, Matched(ranges, |body|), |body|);
    ShownReadsAsWords(body, Matched(ranges, |body|), |body|);
    GapsAreRight(body, Matched(ranges, |body|), |body|);
    assert body[..|body|] == body;
  }

  method SearchSnippet(body: string, ranges: seq<Range>) returns (out: string)
    ensures Draw(out, [], false) == Some(Shown(body, Matched(ranges, |body|), |body|))
    ensures Shows(Draw(out, [], false).value, body, ranges)
  {
    var n := |body|;
    var matched := Paint(n, ranges);
    ghost var m := Matched(ranges, n);
    assert matched[..] == m;
    out := "";
    var open, held, drawn := false, false, false;
    NothingRead();
    var i := 0;
    while i < n
      invariant i <= n && matched[..] == m
      invariant drawn == (LastKept(body, i) > 0) && held == (LastKept(body, i) < i)
      invariant open == (drawn && m[LastKept(body, i) - 1])
      invariant Reads(out, Shown(body, m, i), Under(open), false)
    {
      if Blank(body[i]) {
        held := true;
      } else {
        out := DrawKept(out, body, matched, i, open, held, drawn);
        open, held, drawn := matched[i], false, true;
      }
      i := i + 1;
    }
    out := Close(out, open, false, Shown(body, m, n));
    AllRead(out, Shown(body, m, n), false);
    ShownShows(body, ranges);
  }
}
