// Text on its way into markup, and how markup is read back: which characters it
// draws, and under which open tags.

module Escape {
  import opened Wrappers

  // What one code point becomes. A space after a space would be collapsed, and
  // a newline ignored, anywhere but inside a literal block.
  function EscapeAt(cps: string, i: nat, literal: bool): string
    requires i < |cps|
  {
    var c := cps[i];
    if c == '&' then "&amp;"
    else if c == '<' then "&lt;"
    else if c == '>' then "&gt;"
    else if c == '\n' then (if literal then "\n" else "<br>")
    else if c == ' ' then (if AfterSpace(cps, i) && !literal then "&nbsp;" else " ")
    else [c]
  }

  predicate AfterSpace(cps: string, i: nat)
    requires i <= |cps|
  {
    i > 0 && cps[i - 1] == ' '
  }

  function Escaped(cps: string, lo: nat, hi: nat, literal: bool): string
    requires lo <= hi <= |cps|
    decreases hi
  {
    if lo == hi then "" else Escaped(cps, lo, hi - 1, literal) + EscapeAt(cps, hi - 1, literal)
  }

  method EscapeRun(cps: string, lo: nat, hi: nat, literal: bool) returns (out: string)
    requires lo <= hi <= |cps|
    ensures out == Escaped(cps, lo, hi, literal)
  {
    out := "";
    var afterSpace := lo > 0 && cps[lo - 1] == ' ';
    var i := lo;
    while i < hi
      invariant lo <= i <= hi
      invariant afterSpace == AfterSpace(cps, i)
      invariant out == Escaped(cps, lo, i, literal)
    {
      var c := cps[i];
      match c {
        case '&' => out := out + "&amp;";
        case '<' => out := out + "&lt;";
        case '>' => out := out + "&gt;";
        case '\n' => out := out + if literal then "\n" else "<br>";
        case ' ' => out := out + if afterSpace && !literal then "&nbsp;" else " ";
        case _ => out := out + [c];
      }
      afterSpace := c == ' ';
      i := i + 1;
    }
  }

  // Cutting a run in two changes nothing: the look back over the cut sees to it.
  lemma {:induction false} EscapedJoins(cps: string, lo: nat, mid: nat, hi: nat, literal: bool)
    requires lo <= mid <= hi <= |cps|
    ensures Escaped(cps, lo, mid, literal) + Escaped(cps, mid, hi, literal) == Escaped(cps, lo, hi, literal)
    decreases hi
  {
    if mid < hi {
      EscapedJoins(cps, lo, mid, hi - 1, literal);
    }
  }

  // ---------------------------------------------------------------- plain text

  function PlainOf(c: char): string {
    if c == '&' then "&amp;" else if c == '<' then "&lt;" else if c == '>' then "&gt;" else [c]
  }

  function Plain(s: string): string {
    if s == "" then "" else Plain(s[..|s| - 1]) + PlainOf(s[|s| - 1])
  }

  method EscapedPlain(s: string) returns (out: string)
    ensures out == Plain(s)
  {
    out := "";
    var i := 0;
    while i < |s|
      invariant i <= |s| && out == Plain(s[..i])
    {
      assert s[..i + 1][..i] == s[..i];
      if s[i] == '&' {
        out := out + "&amp;";
      } else if s[i] == '<' {
        out := out + "&lt;";
      } else if s[i] == '>' {
        out := out + "&gt;";
      } else {
        out := out + [s[i]];
      }
      i := i + 1;
    }
    assert s[..i] == s;
  }

  predicate NoAngles(s: string) { '<' !in s && '>' !in s }

  lemma {:induction false} PlainHasNoAngles(s: string)
    ensures NoAngles(Plain(s))
  {
    if s != "" { PlainHasNoAngles(s[..|s| - 1]); }
  }

  // --------------------------------------------------------- reading it back

  // One character as drawn, and the open tags around it, outermost first.
  datatype Glyph = Glyph(c: char, within: seq<string>)

  function CloserAt(s: string, lo: nat): (k: nat)
    requires lo <= |s|
    ensures lo <= k <= |s| && (k < |s| ==> s[k] == '>')
    ensures forall i | lo <= i < k :: s[i] != '>'
    decreases |s| - lo
  {
    if lo == |s| || s[lo] == '>' then lo else CloserAt(s, lo + 1)
  }

  function Element(tag: string): (name: string) {
    if tag == "" || tag[0] == ' ' then "" else [tag[0]] + Element(tag[1..])
  }

  predicate InPre(open: seq<string>) { exists i :: 0 <= i < |open| && Element(open[i]) == "pre" }

  function Then(g: Glyph, rest: Option<seq<Glyph>>): Option<seq<Glyph>> {
    if rest.Some? then Some([g] + rest.value) else None
  }

  // Reads markup with the given tags already open, right after a space or not.
  // None when the tags do not nest, when a bracket or ampersand is stray, or
  // when the end comes with a tag still open.
  function Draw(s: string, open: seq<string>, space: bool): Option<seq<Glyph>>
    decreases |s|
  {
    if s == "" then (if open == [] then Some([]) else None)
    else if s[0] == '<' then
      var k := CloserAt(s, 1);
      if k == |s| then None
      else
        var tag, rest := s[1..k], s[k + 1..];
        if tag == "br" then Then(Glyph('\n', open), Draw(rest, open, false))
        else if tag != "" && tag[0] == '/' then
          if open != [] && Element(open[|open| - 1]) == tag[1..]
          then Draw(rest, open[..|open| - 1], space) else None
        else Draw(rest, open + [tag], space)
    else if s[0] == '&' then
      if "&amp;" <= s then Then(Glyph('&', open), Draw(s[5..], open, false))
      else if "&lt;" <= s then Then(Glyph('<', open), Draw(s[4..], open, false))
      else if "&gt;" <= s then Then(Glyph('>', open), Draw(s[4..], open, false))
      else if "&nbsp;" <= s then Then(Glyph(' ', open), Draw(s[6..], open, true))
      else None
    else if s[0] == '>' then None
    else if s[0] == ' ' && space && !InPre(open) then Draw(s[1..], open, true)
    else if s[0] == '\n' && !InPre(open) then Draw(s[1..], open, space)
    else Then(Glyph(s[0], open), Draw(s[1..], open, s[0] == ' '))
  }

  function After(g: seq<Glyph>, rest: Option<seq<Glyph>>): Option<seq<Glyph>> {
    if rest.Some? then Some(g + rest.value) else None
  }

  // Everything written so far has been read as g and leaves these tags open,
  // whatever is written next.
  ghost predicate Reads(out: string, g: seq<Glyph>, open: seq<string>, space: bool) {
    forall rest: string {:trigger Written(out, rest)} ::
      Draw(Written(out, rest), [], false) == After(g, Draw(rest, open, space))
  }

  function Written(out: string, rest: string): string { out + rest }

  lemma NothingRead()
    ensures Reads("", [], [], false)
  {
    forall rest: string
      ensures Draw(Written("", rest), [], false) == After([], Draw(rest, [], false))
    {
      assert Written("", rest) == rest;
      var d := Draw(rest, [], false);
      if d.Some? { assert [] + d.value == d.value; }
    }
  }

  lemma AllRead(out: string, g: seq<Glyph>, space: bool)
    requires Reads(out, g, [], space)
    ensures Draw(out, [], false) == Some(g)
  {
    assert Written(out, "") == out;
    assert Draw("", [], space) == Some([]);
    assert g + [] == g;
  }

  lemma ClosesAt(inner: string, rest: string)
    requires '>' !in inner
    ensures CloserAt("<" + inner + ">" + rest, 1) == |inner| + 1
    ensures ("<" + inner + ">" + rest)[1..|inner| + 1] == inner
    ensures ("<" + inner + ">" + rest)[|inner| + 2..] == rest
  {
    var s := "<" + inner + ">" + rest;
    assert forall i | 1 <= i < |inner| + 1 :: s[i] == inner[i - 1];
    assert s[|inner| + 1] == '>';
  }

  // To know what some more markup adds, it is enough to know how it reads.
  lemma ReadsMore(out: string, g: seq<Glyph>, open: seq<string>, space: bool,
                  more: string, h: seq<Glyph>, open': seq<string>, space': bool)
    requires Reads(out, g, open, space)
    requires forall rest: string {:trigger Written(more, rest)} ::
               Draw(Written(more, rest), open, space) == After(h, Draw(rest, open', space'))
    ensures Reads(out + more, g + h, open', space')
  {
    forall rest: string
      ensures Draw(Written(out + more, rest), [], false) == After(g + h, Draw(rest, open', space'))
    {
      assert Written(out + more, rest) == Written(out, Written(more, rest));
      var d := Draw(rest, open', space');
      if d.Some? { assert g + (h + d.value) == g + h + d.value; }
    }
  }

  lemma OpenDraws(inner: string, rest: string, open: seq<string>, space: bool)
    requires '>' !in inner && inner != "br" && inner != "" && inner[0] != '/'
    ensures Draw(Written("<" + inner + ">", rest), open, space) == Draw(rest, open + [inner], space)
  {
    ClosesAt(inner, rest);
  }

  lemma CloseDraws(name: string, rest: string, open: seq<string>, space: bool)
    requires open != [] && Element(open[|open| - 1]) == name && '>' !in name
    ensures Draw(Written("</" + name + ">", rest), open, space) == Draw(rest, open[..|open| - 1], space)
  {
    var inner := "/" + name;
    assert inner[1..] == name && "</" + name + ">" == "<" + inner + ">";
    ClosesAt(inner, rest);
  }

  lemma AfterNothing(d: Option<seq<Glyph>>)
    ensures After([], d) == d
  {
    if d.Some? { assert [] + d.value == d.value; }
  }

  lemma ReadsOpen(out: string, g: seq<Glyph>, open: seq<string>, space: bool, inner: string)
    requires Reads(out, g, open, space)
    requires '>' !in inner && inner != "br" && inner != "" && inner[0] != '/'
    ensures Reads(out + ("<" + inner + ">"), g, open + [inner], space)
  {
    forall rest: string
      ensures Draw(Written("<" + inner + ">", rest), open, space) == After([], Draw(rest, open + [inner], space))
    {
      OpenDraws(inner, rest, open, space);
      AfterNothing(Draw(rest, open + [inner], space));
    }
    ReadsMore(out, g, open, space, "<" + inner + ">", [], open + [inner], space);
    assert g + [] == g;
  }

  lemma ReadsClose(out: string, g: seq<Glyph>, open: seq<string>, space: bool, name: string)
    requires Reads(out, g, open, space)
    requires open != [] && Element(open[|open| - 1]) == name && '>' !in name
    ensures Reads(out + ("</" + name + ">"), g, open[..|open| - 1], space)
  {
    var less := open[..|open| - 1];
    forall rest: string
      ensures Draw(Written("</" + name + ">", rest), open, space) == After([], Draw(rest, less, space))
    {
      CloseDraws(name, rest, open, space);
      AfterNothing(Draw(rest, less, space));
    }
    ReadsMore(out, g, open, space, "</" + name + ">", [], less, space);
    assert g + [] == g;
  }

  lemma EntityDraws(c: char, rest: string, open: seq<string>, space: bool)
    requires c == '&' || c == '<' || c == '>'
    ensures Draw(PlainOf(c) + rest, open, space) == Then(Glyph(c, open), Draw(rest, open, false))
  {
    var s := PlainOf(c) + rest;
    assert s[0] == '&' && s[|PlainOf(c)|..] == rest && PlainOf(c) <= s;
    if c == '<' { assert s[1] == 'l'; }
    if c == '>' { assert s[1] == 'g'; }
  }

  lemma SpaceDraws(rest: string, open: seq<string>, space: bool)
    ensures Draw("&nbsp;" + rest, open, space) == Then(Glyph(' ', open), Draw(rest, open, true))
    ensures !space || InPre(open) ==>
              Draw(" " + rest, open, space) == Then(Glyph(' ', open), Draw(rest, open, true))
  {
    var s := "&nbsp;" + rest;
    assert s[0] == '&' && s[1] == 'n' && s[6..] == rest && "&nbsp;" <= s;
    var t := " " + rest;
    assert t[0] == ' ' && t[1..] == rest;
  }

  lemma NewlineDraws(rest: string, open: seq<string>, space: bool)
    ensures Draw("<br>" + rest, open, space) == Then(Glyph('\n', open), Draw(rest, open, false))
    ensures InPre(open) ==>
              Draw("\n" + rest, open, space) == Then(Glyph('\n', open), Draw(rest, open, false))
  {
    ClosesAt("br", rest);
    assert "<br>" + rest == "<" + "br" + ">" + rest;
    var t := "\n" + rest;
    assert t[0] == '\n' && t[1..] == rest;
  }

  lemma OtherDraws(c: char, rest: string, open: seq<string>, space: bool)
    requires c != '&' && c != '<' && c != '>' && c != ' ' && c != '\n'
    ensures Draw([c] + rest, open, space) == Then(Glyph(c, open), Draw(rest, open, false))
  {
    var t := [c] + rest;
    assert t[0] == c && t[1..] == rest;
  }

  // One escaped code point draws as itself, wherever it stands.
  lemma DrawsItself(cps: string, i: nat, open: seq<string>, rest: string)
    requires i < |cps|
    ensures Draw(EscapeAt(cps, i, InPre(open)) + rest, open, AfterSpace(cps, i))
         == Then(Glyph(cps[i], open), Draw(rest, open, AfterSpace(cps, i + 1)))
  {
    var c, space := cps[i], AfterSpace(cps, i);
    if c == '&' || c == '<' || c == '>' {
      EntityDraws(c, rest, open, space);
    } else if c == '\n' {
      NewlineDraws(rest, open, space);
    } else if c == ' ' {
      SpaceDraws(rest, open, space);
    } else {
      OtherDraws(c, rest, open, space);
    }
  }

  lemma ReadsOne(out: string, g: seq<Glyph>, open: seq<string>, cps: string, i: nat)
    requires i < |cps| && Reads(out, g, open, AfterSpace(cps, i))
    ensures Reads(out + EscapeAt(cps, i, InPre(open)), g + [Glyph(cps[i], open)],
                  open, AfterSpace(cps, i + 1))
  {
    var e, one := EscapeAt(cps, i, InPre(open)), Glyph(cps[i], open);
    forall rest: string
      ensures Draw(Written(e, rest), open, AfterSpace(cps, i))
           == After([one], Draw(rest, open, AfterSpace(cps, i + 1)))
    {
      DrawsItself(cps, i, open, rest);
    }
    ReadsMore(out, g, open, AfterSpace(cps, i), e, [one], open, AfterSpace(cps, i + 1));
  }

  // cps[lo..hi] drawn under one set of tags.
  function Drawn(cps: string, lo: nat, hi: nat, within: seq<string>): (g: seq<Glyph>)
    requires lo <= hi <= |cps|
    ensures |g| == hi - lo && forall k | 0 <= k < |g| :: g[k] == Glyph(cps[lo + k], within)
    decreases hi
  {
    if lo == hi then [] else Drawn(cps, lo, hi - 1, within) + [Glyph(cps[hi - 1], within)]
  }

  lemma ReadsJoined(out: string, before: string, e: string, g: seq<Glyph>, d: seq<Glyph>, x: Glyph,
                    open: seq<string>, space: bool)
    requires Reads(out + before + e, g + d + [x], open, space)
    ensures Reads(out + (before + e), g + (d + [x]), open, space)
  {
    assert out + before + e == out + (before + e);
    assert g + d + [x] == g + (d + [x]);
  }

  lemma ReadsNone(out: string, g: seq<Glyph>, open: seq<string>, cps: string, lo: nat)
    requires lo <= |cps| && Reads(out, g, open, AfterSpace(cps, lo))
    ensures Reads(out + Escaped(cps, lo, lo, InPre(open)), g + Drawn(cps, lo, lo, open),
                  open, AfterSpace(cps, lo))
  {
    assert out + "" == out;
    assert g + [] == g;
  }

  lemma ReadsOneMore(out: string, g: seq<Glyph>, open: seq<string>, cps: string, lo: nat, hi: nat)
    requires lo < hi <= |cps|
    requires Reads(out + Escaped(cps, lo, hi - 1, InPre(open)), g + Drawn(cps, lo, hi - 1, open),
                   open, AfterSpace(cps, hi - 1))
    ensures Reads(out + Escaped(cps, lo, hi, InPre(open)), g + Drawn(cps, lo, hi, open),
                  open, AfterSpace(cps, hi))
  {
    var before := Escaped(cps, lo, hi - 1, InPre(open));
    var d, x := Drawn(cps, lo, hi - 1, open), Glyph(cps[hi - 1], open);
    ReadsOne(out + before, g + d, open, cps, hi - 1);
    ReadsJoined(out, before, EscapeAt(cps, hi - 1, InPre(open)), g, d, x, open, AfterSpace(cps, hi));
  }

  // A whole run draws as itself under the tags open around it.
  lemma {:induction false} ReadsRun(out: string, g: seq<Glyph>, open: seq<string>,
                                    cps: string, lo: nat, hi: nat)
    requires lo <= hi <= |cps| && Reads(out, g, open, AfterSpace(cps, lo))
    ensures Reads(out + Escaped(cps, lo, hi, InPre(open)), g + Drawn(cps, lo, hi, open),
                  open, AfterSpace(cps, hi))
    decreases hi
  {
    if lo == hi {
      ReadsNone(out, g, open, cps, lo);
    } else {
      ReadsRun(out, g, open, cps, lo, hi - 1);
      ReadsOneMore(out, g, open, cps, lo, hi);
    }
  }
}
