// The rich-text renderer: spans that may cross become tags that nest.

module Spans {
  import opened Wrappers
  import opened Escape

  // The kinds of span the backend names; any other word is Unknown.
  datatype Kind =
    | Link | Match | Quote | Preformatted | Monospace | Bold | Italic | Overstrike | Unknown

  // A span as the backend sends it, in code points, not yet clamped.
  datatype Mark = Mark(kind: Kind, offset: int, length: int)

  // A span to draw: half-open, inside the body, never empty. Lower ranks nest
  // further out. Tags are kept without their brackets.
  datatype Span = Span(start: nat, end: nat, rank: nat, element: string, attrs: string)
  {
    function Opens(): string { element + attrs }
    function OpenTag(): string { "<" + Opens() + ">" }
    function CloseTag(): string { "</" + element + ">" }
    // Keeps its own whitespace, so what it covers is written as it stands.
    predicate Literal() { element == "pre" }
  }

  datatype Style = Style(rank: nat, element: string, attrs: string, link: bool)

  datatype Palette = Palette(quote: string, match_: string, link: string)

  function StyleAttr(property: string, value: string): string {
    " style=\"" + property + ":" + value + "\""
  }

  // None for a kind that is not drawn in any way of its own.
  function StyleFor(kind: Kind, colors: Palette): Option<Style> {
    match kind
    case Link => Some(Style(6, "a", "", true))
    case Match => Some(Style(7, "span", StyleAttr("background-color", colors.match_), false))
    case Quote => Some(Style(0, "span", StyleAttr("color", colors.quote), false))
    case Preformatted => Some(Style(1, "pre", StyleAttr("white-space", "pre-wrap"), false))
    case Monospace => Some(Style(2, "span", StyleAttr("font-family", "monospace"), false))
    case Bold => Some(Style(3, "b", "", false))
    case Italic => Some(Style(4, "i", "", false))
    case Overstrike => Some(Style(5, "s", "", false))
    case Unknown => None
  }

  // Case folding as far as the schemes below can tell: the long s and the
  // Kelvin sign fold into ASCII.
  function Fold(c: char): char {
    if 'A' <= c <= 'Z' then (c as int + 32) as char
    else if c == '\U{17F}' then 's'
    else if c == '\U{212A}' then 'k'
    else c
  }

  predicate StartsFolded(s: string, scheme: string) {
    |s| >= |scheme| && forall i | 0 <= i < |scheme| :: Fold(s[i]) == Fold(scheme[i])
  }

  const SCHEMES := ["http://", "https://", "mailto:", "geo:"]

  predicate IsOpenableLink(url: string) {
    exists i :: 0 <= i < |SCHEMES| && |url| > |SCHEMES[i]| && StartsFolded(url, SCHEMES[i])
  }

  function Quoted(s: string): string {
    if s == "" then ""
    else Quoted(s[..|s| - 1]) + (if s[|s| - 1] == '"' then "&quot;" else [s[|s| - 1]])
  }

  function AnchorFor(url: string, linkColor: string): Option<string> {
    if !IsOpenableLink(url) then None
    else
      var href := Quoted(Plain(url));
      var attr := " href=\"" + href + "\"";
      if linkColor == "" then Some(attr) else Some(attr + StyleAttr("color", linkColor))
  }

  function Clamp(low: int, v: int, high: int): int
    requires low <= high
  {
    if v < low then low else if v > high then high else v
  }

  function Resolve(cps: string, m: Mark, colors: Palette): Option<Span> {
    var style := StyleFor(m.kind, colors);
    if style.None? then None
    else
      var start := Clamp(0, m.offset, |cps|);
      var end := Clamp(start, start + m.length, |cps|);
      if end <= start then None
      else if !style.value.link then
        Some(Span(start, end, style.value.rank, style.value.element, style.value.attrs))
      else
        var anchor := AnchorFor(cps[start..end], colors.link);
        if anchor.None? then None
        else Some(Span(start, end, style.value.rank, style.value.element, anchor.value))
  }

  function ResolveAll(cps: string, marks: seq<Mark>, colors: Palette): seq<Span> {
    if marks == [] then []
    else
      var rest := ResolveAll(cps, marks[..|marks| - 1], colors);
      var s := Resolve(cps, marks[|marks| - 1], colors);
      if s.None? then rest else rest + [s.value]
  }

  function AtLeastZero(n: int): nat { if n < 0 then 0 else n }

  // A span covers length code points from its offset, as far as there are any;
  // one that starts before the body is moved to its start and not shortened.
  lemma ResolvedCovers(cps: string, m: Mark, colors: Palette, i: nat)
    requires Resolve(cps, m, colors).Some?
    ensures var s, lo := Resolve(cps, m, colors).value, AtLeastZero(m.offset);
            s.start <= i < s.end <==> (i < |cps| && lo <= i < lo + m.length)
  {}

  // What is not drawn: an unknown kind, a span that covers nothing, and a link
  // that is not one to open.
  lemma UnresolvedMeans(cps: string, m: Mark, colors: Palette)
    ensures var lo := AtLeastZero(m.offset);
            Resolve(cps, m, colors).None? <==>
              (m.kind == Unknown || m.length <= 0 || lo >= |cps|
               || (m.kind == Link
                   && !IsOpenableLink(if lo + m.length < |cps| then cps[lo..lo + m.length] else cps[lo..])))
  {
    var lo := AtLeastZero(m.offset);
    if m.length > 0 && lo < |cps| {
      assert Clamp(0, m.offset, |cps|) == lo;
      assert lo + m.length >= |cps| ==> cps[lo..|cps|] == cps[lo..];
    }
  }

  // --------------------------------------------------------- well-made spans

  // Tags that read back as one opening and one closing tag of the same element.
  predicate Tagged(s: Span) { NameOk(s.element) && AttrsOk(s.attrs) }

  predicate NameOk(name: string) {
    name != "" && name[0] != '/' && name != "br" && ' ' !in name && '>' !in name
  }

  predicate AttrsOk(attrs: string) { (attrs == "" || attrs[0] == ' ') && '>' !in attrs }

  predicate WellMade(cps: string, s: Span) { s.start < s.end <= |cps| && Tagged(s) }

  predicate Clean(colors: Palette) { '>' !in colors.quote && '>' !in colors.match_ && '>' !in colors.link }

  lemma {:induction false} QuotedKeepsOut(s: string)
    requires '>' !in s
    ensures '>' !in Quoted(s)
  {
    if s != "" {
      QuotedKeepsOut(s[..|s| - 1]);
    }
  }

  // The element is whatever stands before the first space.
  lemma {:induction false} ElementStops(name: string, rest: string)
    requires ' ' !in name && (rest == "" || rest[0] == ' ')
    ensures Element(name + rest) == name
  {
    if name == "" {
      assert name + rest == rest;
    } else {
      assert (name + rest)[1..] == name[1..] + rest;
      ElementStops(name[1..], rest);
    }
  }

  lemma TagReadsBack(s: Span)
    requires Tagged(s)
    ensures Element(s.Opens()) == s.element
    ensures '>' !in s.Opens() && s.Opens() != "" && s.Opens() != "br" && s.Opens()[0] != '/'
  {
    ElementStops(s.element, s.attrs);
    assert s.Opens()[0] == s.element[0];
    if s.attrs != "" {
      assert s.Opens()[|s.element|] == ' ';
    }
  }

  lemma StyleAttrOk(property: string, value: string)
    requires '>' !in property && '>' !in value
    ensures AttrsOk(StyleAttr(property, value)) && StyleAttr(property, value) != ""
  {
    assert StyleAttr(property, value)[0] == ' ';
  }

  lemma StyleAttrs(kind: Kind, colors: Palette)
    requires Clean(colors) && StyleFor(kind, colors).Some?
    ensures AttrsOk(StyleFor(kind, colors).value.attrs)
  {
    if kind == Match {
      StyleAttrOk("background-color", colors.match_);
    } else if kind == Quote {
      StyleAttrOk("color", colors.quote);
    } else if kind == Preformatted {
      StyleAttrOk("white-space", "pre-wrap");
    } else if kind == Monospace {
      StyleAttrOk("font-family", "monospace");
    }
  }

  lemma AttrsJoin(a: string, b: string)
    requires AttrsOk(a) && a != "" && '>' !in b
    ensures AttrsOk(a + b)
  {}

  lemma AnchorAttrs(url: string, color: string)
    requires '>' !in color && AnchorFor(url, color).Some?
    ensures AttrsOk(AnchorFor(url, color).value)
  {
    PlainHasNoAngles(url);
    QuotedKeepsOut(Plain(url));
    var attr := " href=\"" + Quoted(Plain(url)) + "\"";
    assert AttrsOk(attr);
    StyleAttrOk("color", color);
    AttrsJoin(attr, StyleAttr("color", color));
  }

  lemma StyleElement(kind: Kind, colors: Palette)
    requires StyleFor(kind, colors).Some?
    ensures NameOk(StyleFor(kind, colors).value.element)
  {}

  lemma ResolvedParts(cps: string, m: Mark, colors: Palette)
    requires Resolve(cps, m, colors).Some?
    ensures StyleFor(m.kind, colors).Some?
    ensures var style, s := StyleFor(m.kind, colors).value, Resolve(cps, m, colors).value;
            && s.start < s.end <= |cps| && s.element == style.element && s.rank == style.rank
            && (!style.link ==> s.attrs == style.attrs)
            && (style.link ==> AnchorFor(cps[s.start..s.end], colors.link) == Some(s.attrs))
  {}

  lemma ResolvedIsWellMade(cps: string, m: Mark, colors: Palette)
    requires Clean(colors) && Resolve(cps, m, colors).Some?
    ensures WellMade(cps, Resolve(cps, m, colors).value)
  {
    var s := Resolve(cps, m, colors).value;
    ResolvedParts(cps, m, colors);
    StyleElement(m.kind, colors);
    StyleAttrs(m.kind, colors);
    if StyleFor(m.kind, colors).value.link {
      AnchorAttrs(cps[s.start..s.end], colors.link);
    }
  }

  lemma {:induction false} AllInside(cps: string, marks: seq<Mark>, colors: Palette)
    ensures forall s | s in ResolveAll(cps, marks, colors) :: s.start < s.end <= |cps|
  {
    if marks != [] { AllInside(cps, marks[..|marks| - 1], colors); }
  }

  lemma {:induction false} AllWellMade(cps: string, marks: seq<Mark>, colors: Palette)
    requires Clean(colors)
    ensures forall s | s in ResolveAll(cps, marks, colors) :: WellMade(cps, s)
  {
    if marks != [] {
      AllWellMade(cps, marks[..|marks| - 1], colors);
      if Resolve(cps, marks[|marks| - 1], colors).Some? {
        ResolvedIsWellMade(cps, marks[|marks| - 1], colors);
      }
    }
  }
}

module Markup {
  import opened Wrappers
  import opened Escape
  import opened Spans

  // ------------------------------------------------------------- the order

  // Of two spans that open together the one that closes later is outside; if
  // they close together too, their ranks decide.
  predicate Before(a: Span, b: Span) {
    if a.start != b.start then a.start < b.start
    else if a.end != b.end then a.end > b.end
    else a.rank < b.rank
  }

  ghost predicate Ordered(s: seq<Span>) {
    forall i, j | 0 <= i < j < |s| :: !Before(s[j], s[i])
  }

  lemma BeforeIsAnOrder(a: Span, b: Span, c: Span)
    ensures Before(a, b) ==> !Before(b, a)
    ensures !Before(a, b) && !Before(b, c) ==> !Before(a, c)
  {}

  function Insert(x: Span, s: seq<Span>): (r: seq<Span>)
    requires Ordered(s)
    ensures Ordered(r) && multiset(r) == multiset(s) + multiset{x}
  {
    if s == [] then [x]
    else
      var init, last := s[..|s| - 1], s[|s| - 1];
      assert s == init + [last];
      if Before(x, last) then
        var r := Insert(x, init);
        InsertedBelow(r, init, x, last);
        r + [last]
      else
        InsertedAbove(s, x);
        s + [x]
  }

  lemma InsertedBelow(r: seq<Span>, init: seq<Span>, x: Span, last: Span)
    requires Ordered(r) && multiset(r) == multiset(init) + multiset{x}
    requires Before(x, last) && forall y | y in init :: !Before(last, y)
    ensures Ordered(r + [last])
  {
    forall i | 0 <= i < |r| ensures !Before(last, r[i]) {
      assert r[i] in multiset(r);
      BeforeIsAnOrder(x, last, x);
    }
  }

  lemma InsertedAbove(s: seq<Span>, x: Span)
    requires Ordered(s) && s != [] && !Before(x, s[|s| - 1])
    ensures Ordered(s + [x])
  {
    forall i | 0 <= i < |s| ensures !Before(x, s[i]) {
      if i < |s| - 1 { BeforeIsAnOrder(x, s[|s| - 1], s[i]); }
    }
  }

  function SortSpans(s: seq<Span>): (r: seq<Span>)
    ensures Ordered(r) && multiset(r) == multiset(s)
  {
    if s == [] then []
    else
      assert s == s[..|s| - 1] + [s[|s| - 1]];
      Insert(s[|s| - 1], SortSpans(s[..|s| - 1]))
  }

  // ----------------------------------------------------- which spans cover what

  // Still open at pos.
  function Live(s: seq<Span>, pos: nat): (r: seq<Span>) {
    if s == [] then []
    else Live(s[..|s| - 1], pos) + (if s[|s| - 1].end > pos then [s[|s| - 1]] else [])
  }

  function Covering(s: seq<Span>, i: nat): seq<Span> {
    if s == [] then []
    else Covering(s[..|s| - 1], i)
         + (if s[|s| - 1].start <= i < s[|s| - 1].end then [s[|s| - 1]] else [])
  }

  // The opening tags of a list of spans, outermost first.
  function Tags(s: seq<Span>): (t: seq<string>)
    ensures |t| == |s| && forall i | 0 <= i < |s| :: t[i] == s[i].Opens()
  {
    seq(|s|, i requires 0 <= i < |s| => s[i].Opens())
  }

  // What a body with these spans ought to look like: each code point within the
  // tags of exactly the spans whose range covers it, in the order the spans are
  // listed in, however they cross.
  function Intended(cps: string, spans: seq<Span>, n: nat): (g: seq<Glyph>)
    requires n <= |cps|
    ensures |g| == n
    ensures forall i | 0 <= i < n :: g[i] == Glyph(cps[i], Tags(Covering(spans, i)))
  {
    if n == 0 then []
    else Intended(cps, spans, n - 1) + [Glyph(cps[n - 1], Tags(Covering(spans, n - 1)))]
  }

  lemma {:induction false} LiveLive(s: seq<Span>, p: nat, q: nat)
    requires p <= q
    ensures Live(Live(s, p), q) == Live(s, q)
  {
    if s != [] {
      LiveLive(s[..|s| - 1], p, q);
      if s[|s| - 1].end > p {
        assert Live(s, p)[..|Live(s, p)| - 1] == Live(s[..|s| - 1], p);
      } else {
        assert Live(s, p) == Live(s[..|s| - 1], p);
      }
    }
  }

  lemma {:induction false} LiveJoins(a: seq<Span>, b: seq<Span>, pos: nat)
    ensures Live(a + b, pos) == Live(a, pos) + Live(b, pos)
  {
    if b == [] {
      assert a + b == a;
    } else {
      LiveJoins(a, b[..|b| - 1], pos);
      assert (a + b)[..|a + b| - 1] == a + b[..|b| - 1];
    }
  }

  lemma {:induction false} AllLive(s: seq<Span>, pos: nat)
    requires forall i | 0 <= i < |s| :: s[i].end > pos
    ensures Live(s, pos) == s
  {
    if s != [] {
      AllLive(s[..|s| - 1], pos);
    }
  }

  lemma {:induction false} LiveMembers(s: seq<Span>, pos: nat)
    ensures forall x | x in Live(s, pos) :: x in s && x.end > pos
  {
    if s != [] { LiveMembers(s[..|s| - 1], pos); }
  }

  // Between two cuts the spans covering a point are the ones already open.
  lemma {:induction false} CoveringIsLive(s: seq<Span>, next: nat, pos: nat, i: nat)
    requires next <= |s| && pos <= i
    requires forall k | 0 <= k < next :: s[k].start <= pos && (s[k].end > pos ==> s[k].end > i)
    requires forall k | next <= k < |s| :: s[k].start > i
    ensures Covering(s, i) == Live(s[..next], pos)
    decreases |s|
  {
    if s != [] {
      var init := s[..|s| - 1];
      if next == |s| {
        CoveringIsLive(init, next - 1, pos, i);
        assert s[..next][..next - 1] == init[..next - 1];
      } else {
        CoveringIsLive(init, next, pos, i);
        assert init[..next] == s[..next];
      }
    }
  }

  lemma TagsJoin(a: seq<Span>, b: seq<Span>)
    ensures Tags(a + b) == Tags(a) + Tags(b)
  {
    forall i | 0 <= i < |a + b| ensures Tags(a + b)[i] == (Tags(a) + Tags(b))[i] {}
  }

  // --------------------------------------------------------------- the renderer

  lemma TagsOfPrefix(s: seq<Span>, k: nat)
    requires k <= |s|
    ensures Tags(s[..k]) == Tags(s)[..k]
  {}

  lemma PushReads(out: string, g: seq<Glyph>, stack: seq<Span>, space: bool, s: Span)
    requires Reads(out, g, Tags(stack), space) && Tagged(s)
    ensures Reads(out + s.OpenTag(), g, Tags(stack + [s]), space)
  {
    TagReadsBack(s);
    ReadsOpen(out, g, Tags(stack), space, s.Opens());
    TagsJoin(stack, [s]);
    assert Tags([s]) == [s.Opens()];
  }

  lemma PopReads(out: string, g: seq<Glyph>, stack: seq<Span>, space: bool)
    requires stack != [] && Reads(out, g, Tags(stack), space) && Tagged(stack[|stack| - 1])
    ensures Reads(out + stack[|stack| - 1].CloseTag(), g, Tags(stack[..|stack| - 1]), space)
  {
    TagReadsBack(stack[|stack| - 1]);
    ReadsClose(out, g, Tags(stack), space, stack[|stack| - 1].element);
    TagsOfPrefix(stack, |stack| - 1);
  }

  predicate AllLong(s: seq<Span>) { forall k | 0 <= k < |s| :: s[k].start < s[k].end }

  predicate AllTagged(s: seq<Span>) { forall k {:trigger Tagged(s[k])} | 0 <= k < |s| :: Tagged(s[k]) }

  lemma {:induction false} LiveTagged(s: seq<Span>, pos: nat)
    requires AllTagged(s)
    ensures AllTagged(Live(s, pos))
  {
    LiveMembers(s, pos);
    var live := Live(s, pos);
    forall k | 0 <= k < |live| ensures Tagged(live[k]) {
      assert live[k] in s;
    }
  }

  lemma LiveOne(s: seq<Span>, i: nat, pos: nat)
    requires i < |s|
    ensures Live(s[i..], pos) == (if s[i].end > pos then [s[i]] else []) + Live(s[i + 1..], pos)
  {
    LiveJoins([s[i]], s[i + 1..], pos);
    assert s[i..] == [s[i]] + s[i + 1..];
    assert Live([s[i]][..0], pos) == [];
  }

  // Shuts everything from the top of the stack down to ending, and lists what
  // was only shut to get at the ended ones.
  method ShutDownTo(before: string, stack: seq<Span>, ending: nat, pos: nat,
                    ghost ok: bool, ghost g: seq<Glyph>, ghost space: bool)
    returns (out: string, reopen: seq<Span>)
    requires ending <= |stack|
    requires ok ==> AllTagged(stack) && Reads(before, g, Tags(stack), space)
    ensures reopen == Live(stack[ending..], pos)
    ensures ok ==> Reads(out, g, Tags(stack[..ending]), space)
  {
    out, reopen := before, [];
    assert stack[..|stack|] == stack;
    var i := |stack|;
    while i > ending
      invariant ending <= i <= |stack|
      invariant ok ==> Reads(out, g, Tags(stack[..i]), space)
      invariant reopen == Live(stack[i..], pos)
    {
      i := i - 1;
      assert stack[..i + 1][..i] == stack[..i];
      assert ok ==> Tagged(stack[i]);
      if ok { PopReads(out, g, stack[..i + 1], space); }
      out := out + stack[i].CloseTag();
      LiveOne(stack, i, pos);
      if stack[i].end > pos { reopen := [stack[i]] + reopen; }
    }
  }

  method OpenAll(before: string, base: seq<Span>, more: seq<Span>,
                 ghost ok: bool, ghost g: seq<Glyph>, ghost space: bool)
    returns (out: string)
    requires ok ==> AllTagged(more) && Reads(before, g, Tags(base), space)
    ensures ok ==> Reads(out, g, Tags(base + more), space)
  {
    out := before;
    assert base + more[..0] == base;
    var k := 0;
    while k < |more|
      invariant k <= |more|
      invariant ok ==> Reads(out, g, Tags(base + more[..k]), space)
    {
      assert ok ==> Tagged(more[k]);
      if ok { PushReads(out, g, base + more[..k], space, more[k]); }
      assert base + more[..k] + [more[k]] == base + more[..k + 1];
      out := out + more[k].OpenTag();
      k := k + 1;
    }
    assert more[..k] == more;
  }

  lemma LiveFrom(s: seq<Span>, ending: nat, pos: nat)
    requires ending <= |s| && forall i | 0 <= i < ending :: s[i].end > pos
    ensures Live(s, pos) == s[..ending] + Live(s[ending..], pos)
    ensures ending == |s| ==> Live(s, pos) == s
  {
    AllLive(s[..ending], pos);
    LiveJoins(s[..ending], s[ending..], pos);
    assert s == s[..ending] + s[ending..];
  }

  // Closes what ends at pos, shutting whatever runs on above it and opening it
  // again once the ended ones are gone.
  method ShutEnded(before: string, open: seq<Span>, pos: nat,
                   ghost ok: bool, ghost g: seq<Glyph>, ghost space: bool)
    returns (out: string, stack: seq<Span>)
    requires ok ==> AllTagged(open) && Reads(before, g, Tags(open), space)
    ensures stack == Live(open, pos)
    ensures ok ==> AllTagged(stack) && Reads(out, g, Tags(stack), space)
  {
    var ending := 0;
    while ending < |open| && open[ending].end > pos
      invariant ending <= |open| && forall i | 0 <= i < ending :: open[i].end > pos
    {
      ending := ending + 1;
    }
    LiveFrom(open, ending, pos);
    if ok { LiveTagged(open[ending..], pos); }
    if ending == |open| {
      out, stack := before, open;
    } else {
      var reopen;
      out, reopen := ShutDownTo(before, open, ending, pos, ok, g, space);
      out := OpenAll(out, open[..ending], reopen, ok, g, space);
      stack := open[..ending] + reopen;
    }
  }

  // ------------------------------------------------------------- the main loop

  lemma LiteralIsPre(stack: seq<Span>)
    requires AllTagged(stack)
    ensures InPre(Tags(stack)) <==> exists s :: s in stack && s.Literal()
  {
    var open := Tags(stack);
    forall i | 0 <= i < |stack| ensures Element(open[i]) == stack[i].element {
      TagReadsBack(stack[i]);
    }
    if s :| s in stack && s.Literal() {
      var i :| 0 <= i < |stack| && stack[i] == s;
      assert Element(open[i]) == "pre";
    }
    if i :| 0 <= i < |open| && Element(open[i]) == "pre" {
      assert stack[i].Literal();
    }
  }

  // What the loop knows at pos, after closing and opening.
  ghost predicate Settled(ordered: seq<Span>, next: nat, stack: seq<Span>, pos: nat)
    requires next <= |ordered|
  {
    && stack == Live(ordered[..next], pos)
    && (forall s | s in stack :: s.end > pos)
    && (forall k | 0 <= k < next :: ordered[k].start <= pos)
    && (forall k | next <= k < |ordered| :: ordered[k].start > pos)
  }

  lemma {:induction false} StillLive(s: seq<Span>, pos: nat, k: nat)
    requires k < |s| && s[k].end > pos
    ensures s[k] in Live(s, pos)
  {
    if k < |s| - 1 { StillLive(s[..|s| - 1], pos, k); }
  }

  // Up to the next edge, the stack is exactly what covers each point.
  lemma StackCovers(ordered: seq<Span>, next: nat, stack: seq<Span>, pos: nat, until: nat, i: nat)
    requires next <= |ordered| && Settled(ordered, next, stack, pos) && pos <= i < until
    requires forall s | s in stack :: until <= s.end
    requires forall k | next <= k < |ordered| :: until <= ordered[k].start
    ensures stack == Covering(ordered, i)
  {
    forall k | 0 <= k < next && ordered[k].end > pos ensures ordered[k].end > i {
      StillLive(ordered[..next], pos, k);
    }
    CoveringIsLive(ordered, next, pos, i);
  }

  lemma {:induction false} RunIsIntended(cps: string, ordered: seq<Span>, pos: nat, until: nat,
                                         within: seq<string>)
    requires pos <= until <= |cps|
    requires forall i | pos <= i < until :: Tags(Covering(ordered, i)) == within
    ensures Intended(cps, ordered, pos) + Drawn(cps, pos, until, within) == Intended(cps, ordered, until)
    decreases until
  {
    if pos < until {
      RunIsIntended(cps, ordered, pos, until - 1, within);
    }
  }

  // How far the open spans stay as they are.
  method NextEdge(ordered: seq<Span>, next: nat, stack: seq<Span>, pos: nat, n: nat)
    returns (until: nat, literal: bool)
    requires next <= |ordered| && pos < n
    requires forall s | s in stack :: s.end > pos
    requires next < |ordered| ==> ordered[next].start > pos
    ensures pos < until <= n
    ensures forall s | s in stack :: until <= s.end
    ensures next < |ordered| ==> until <= ordered[next].start
    ensures literal <==> exists s :: s in stack && s.Literal()
  {
    until, literal := n, false;
    var i := 0;
    while i < |stack|
      invariant i <= |stack| && pos < until <= n
      invariant forall k | 0 <= k < i :: until <= stack[k].end
      invariant literal <==> exists k :: 0 <= k < i && stack[k].Literal()
    {
      if stack[i].end < until { until := stack[i].end; }
      literal := literal || stack[i].Literal();
      i := i + 1;
    }
    if next < |ordered| && ordered[next].start < until { until := ordered[next].start; }
  }

  lemma LiveNext(ordered: seq<Span>, next: nat, pos: nat)
    requires next < |ordered| && ordered[next].end > pos
    ensures Live(ordered[..next + 1], pos) == Live(ordered[..next], pos) + [ordered[next]]
  {
    assert ordered[..next + 1][..next] == ordered[..next];
  }

  ghost predicate StartsRise(s: seq<Span>) { forall i, j | 0 <= i < j < |s| :: s[i].start <= s[j].start }

  lemma NoneStarted(ordered: seq<Span>, next: nat, pos: nat)
    requires StartsRise(ordered) && next <= |ordered|
    requires next < |ordered| ==> ordered[next].start > pos
    ensures forall k | next <= k < |ordered| :: ordered[k].start > pos
  {
  }

  method OpenOne(before: string, base: seq<Span>, s: Span, ghost ok: bool, ghost g: seq<Glyph>, ghost space: bool)
    returns (out: string, stack: seq<Span>)
    requires ok ==> Tagged(s) && Reads(before, g, Tags(base), space)
    ensures stack == base + [s]
    ensures ok ==> Reads(out, g, Tags(stack), space)
  {
    if ok { PushReads(before, g, base, space, s); }
    out := before + s.OpenTag();
    stack := base + [s];
  }

  // Opens everything that starts by pos.
  method OpenStarted(before: string, ordered: seq<Span>, from0: nat, base: seq<Span>, pos: nat,
                     ghost ok: bool, ghost g: seq<Glyph>, ghost space: bool)
    returns (out: string, next: nat, stack: seq<Span>)
    requires StartsRise(ordered) && from0 <= |ordered|
    requires AllLong(ordered) && (ok ==> AllTagged(ordered))
    requires base == Live(ordered[..from0], pos)
    requires forall k | 0 <= k < from0 :: ordered[k].start <= pos
    requires from0 < |ordered| ==> ordered[from0].start >= pos
    requires ok ==> Reads(before, g, Tags(base), space)
    ensures next <= |ordered| && stack == Live(ordered[..next], pos)
    ensures forall k | 0 <= k < next :: ordered[k].start <= pos
    ensures next < |ordered| ==> ordered[next].start > pos
    ensures ok ==> Reads(out, g, Tags(stack), space)
  {
    out, next, stack := before, from0, base;
    while next < |ordered| && ordered[next].start <= pos
      invariant from0 <= next <= |ordered|
      invariant stack == Live(ordered[..next], pos)
      invariant forall k | 0 <= k < next :: ordered[k].start <= pos
      invariant ok ==> Reads(out, g, Tags(stack), space)
    {
      assert ordered[next].end > pos;
      LiveNext(ordered, next, pos);
      assert ok ==> Tagged(ordered[next]);
      out, stack := OpenOne(out, stack, ordered[next], ok, g, space);
      next := next + 1;
    }
  }

  lemma SettledAfter(ordered: seq<Span>, next: nat, stack: seq<Span>, pos: nat)
    requires StartsRise(ordered) && next <= |ordered|
    requires stack == Live(ordered[..next], pos)
    requires forall k | 0 <= k < next :: ordered[k].start <= pos
    requires next < |ordered| ==> ordered[next].start > pos
    ensures Settled(ordered, next, stack, pos)
  {
    NoneStarted(ordered, next, pos);
    LiveMembers(ordered[..next], pos);
  }

  // Draws up to the next edge.
  method DrawRun(before: string, cps: string, ordered: seq<Span>, next: nat, stack: seq<Span>, pos: nat,
                 ghost ok: bool)
    returns (out: string, until: nat)
    requires StartsRise(ordered) && next <= |ordered| && pos < |cps| && Settled(ordered, next, stack, pos)
    requires ok ==> AllTagged(stack)
    requires ok ==> Reads(before, Intended(cps, ordered, pos), Tags(stack), AfterSpace(cps, pos))
    ensures pos < until <= |cps|
    ensures forall s | s in stack :: until <= s.end
    ensures forall k | next <= k < |ordered| :: until <= ordered[k].start
    ensures ok ==> Reads(out, Intended(cps, ordered, until), Tags(stack), AfterSpace(cps, until))
  {
    var literal;
    until, literal := NextEdge(ordered, next, stack, pos, |cps|);
    NoneStarted(ordered, next, until - 1);
    var run := EscapeRun(cps, pos, until, literal);
    out := before + run;
    if ok {
      LiteralIsPre(stack);
      ReadsRun(before, Intended(cps, ordered, pos), Tags(stack), cps, pos, until);
      forall i | pos <= i < until ensures Tags(Covering(ordered, i)) == Tags(stack) {
        StackCovers(ordered, next, stack, pos, until, i);
      }
      RunIsIntended(cps, ordered, pos, until, Tags(stack));
    }
  }

  // No two spans are of one rank and range and yet differ.
  ghost predicate TiesAgree(s: seq<Span>) {
    forall a, b | a in s && b in s :: !Before(a, b) && !Before(b, a) ==> a == b
  }

  // An ordered list ends in a span that none of its spans comes after.
  lemma LastIsLast(a: seq<Span>, y: Span)
    requires Ordered(a) && y in a
    ensures !Before(a[|a| - 1], y)
  {
    BeforeIsAnOrder(y, y, y);
  }

  lemma WithoutLast(a: seq<Span>)
    requires a != []
    ensures multiset(a[..|a| - 1]) == multiset(a) - multiset{a[|a| - 1]} && a[|a| - 1] in multiset(a)
  {
    assert a == a[..|a| - 1] + [a[|a| - 1]];
  }

  // Which spans there are is all that matters: sorted, they stand in one order.
  lemma {:induction false} SortedIsOne(a: seq<Span>, b: seq<Span>)
    requires Ordered(a) && Ordered(b) && multiset(a) == multiset(b) && TiesAgree(a)
    ensures a == b
    decreases |a|
  {
    assert |multiset(a)| == |a| && |multiset(b)| == |b|;
    if a != [] {
      WithoutLast(a);
      WithoutLast(b);
      LastIsLast(a, b[|b| - 1]);
      LastIsLast(b, a[|a| - 1]);
      assert a[|a| - 1] == b[|b| - 1];
      SortedIsOne(a[..|a| - 1], b[..|b| - 1]);
    }
  }

  lemma IntendedOfPermutation(cps: string, a: seq<Span>, b: seq<Span>)
    requires multiset(a) == multiset(b) && TiesAgree(a)
    ensures Intended(cps, SortSpans(a), |cps|) == Intended(cps, SortSpans(b), |cps|)
  {
    forall x, y | x in SortSpans(a) && y in SortSpans(a) && !Before(x, y) && !Before(y, x) ensures x == y {
      assert x in multiset(a) && y in multiset(a);
    }
    SortedIsOne(SortSpans(a), SortSpans(b));
  }

  lemma SortedTagged(spans: seq<Span>, ordered: seq<Span>)
    requires multiset(ordered) == multiset(spans) && Ordered(ordered)
    ensures StartsRise(ordered)
    ensures AllTagged(spans) ==> AllTagged(ordered)
    ensures AllLong(spans) ==> AllLong(ordered)
  {
    forall k | 0 <= k < |ordered| ensures ordered[k] in spans {
      assert ordered[k] in multiset(ordered);
    }
    forall i, j | 0 <= i < j < |ordered| ensures ordered[i].start <= ordered[j].start {
      assert !Before(ordered[j], ordered[i]);
    }
  }

  // Once round the loop: close, open, draw, and on to the next edge.
  method Advance(before: string, body: string, ordered: seq<Span>, from0: nat, open: seq<Span>, pos: nat,
                 ghost ok: bool)
    returns (out: string, next: nat, stack: seq<Span>, until: nat)
    requires StartsRise(ordered) && AllLong(ordered) && (ok ==> AllTagged(ordered))
    requires pos < |body| && from0 <= |ordered|
    requires Live(open, pos) == Live(ordered[..from0], pos)
    requires forall k | 0 <= k < from0 :: ordered[k].start <= pos
    requires from0 < |ordered| ==> ordered[from0].start >= pos
    requires ok ==> AllTagged(open)
    requires ok ==> Reads(before, Intended(body, ordered, pos), Tags(open), AfterSpace(body, pos))
    ensures pos < until <= |body| && next <= |ordered|
    ensures Live(stack, until) == Live(ordered[..next], until)
    ensures forall k | 0 <= k < next :: ordered[k].start <= until
    ensures next < |ordered| ==> ordered[next].start >= until
    ensures ok ==> AllTagged(stack)
    ensures ok ==> Reads(out, Intended(body, ordered, until), Tags(stack), AfterSpace(body, until))
  {
    ghost var g, space := Intended(body, ordered, pos), AfterSpace(body, pos);
    out, stack := ShutEnded(before, open, pos, ok, g, space);
    out, next, stack := OpenStarted(out, ordered, from0, stack, pos, ok, g, space);
    SettledAfter(ordered, next, stack, pos);
    if ok { LiveTagged(ordered[..next], pos); }
    out, until := DrawRun(out, body, ordered, next, stack, pos, ok);
    LiveLive(ordered[..next], pos, until);
  }

  method Render(body: string, spans: seq<Span>) returns (out: string)
    requires body != "" && AllLong(spans)
    ensures AllTagged(spans) ==> Draw(out, [], false) == Some(Intended(body, SortSpans(spans), |body|))
  {
    ghost var ok := AllTagged(spans);
    var ordered := SortSpans(spans);
    SortedTagged(spans, ordered);
    out := "";
    var n: nat, next: nat, pos: nat := |body|, 0, 0;
    var stack: seq<Span> := [];
    NothingRead();
    while pos < n
      invariant pos <= n && next <= |ordered|
      invariant Live(stack, pos) == Live(ordered[..next], pos)
      invariant forall k | 0 <= k < next :: ordered[k].start <= pos
      invariant next < |ordered| ==> ordered[next].start >= pos
      invariant ok ==> AllTagged(stack)
      invariant ok ==> Reads(out, Intended(body, ordered, pos), Tags(stack), AfterSpace(body, pos))
      decreases n - pos
    {
      out, next, stack, pos := Advance(out, body, ordered, next, stack, pos, ok);
    }
    var rest;
    out, rest := ShutDownTo(out, stack, 0, n, ok, Intended(body, ordered, n), AfterSpace(body, n));
    if ok {
      assert stack[..0] == [];
      AllRead(out, Intended(body, ordered, n), AfterSpace(body, n));
    }
  }

  // ---------------------------------------------------------- what it comes to

  function Chars(g: seq<Glyph>): string {
    if g == [] then "" else Chars(g[..|g| - 1]) + [g[|g| - 1].c]
  }

  lemma CharsJoin(g: seq<Glyph>, x: Glyph)
    ensures Chars(g + [x]) == Chars(g) + [x.c]
  {
    assert (g + [x])[..|g|] == g;
  }

  lemma {:induction false} CharsAre(g: seq<Glyph>, cps: string)
    requires |g| <= |cps| && forall i | 0 <= i < |g| :: g[i].c == cps[i]
    ensures Chars(g) == cps[..|g|]
  {
    if g != [] {
      var init := g[..|g| - 1];
      CharsAre(init, cps);
      assert cps[..|g|] == cps[..|init|] + [g[|g| - 1].c];
    }
  }

  // Take away the tags and the escapes, and the body is back, to the character.
  lemma IntendedReadsAsBody(cps: string, spans: seq<Span>)
    ensures Chars(Intended(cps, spans, |cps|)) == cps
  {
    CharsAre(Intended(cps, spans, |cps|), cps);
    assert cps[..|cps|] == cps;
  }
}
