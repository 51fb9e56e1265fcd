// What the tags the renderer writes mean to whoever reads them, and so what a
// message looks like: the marks on each code point, outermost first.

module Looks {
  import opened Wrappers
  import opened Escape
  import opened Spans

  // ------------------------------------------------------------ reading a tag

  datatype Attr = Attr(name: string, value: string)

  function Upto(s: string, c: char): (p: string)
    ensures p <= s && c !in p && (|p| < |s| ==> s[|p|] == c)
  {
    if s == "" || s[0] == c then "" else [s[0]] + Upto(s[1..], c)
  }

  function With(head: char, rest: Option<string>): Option<string> {
    if rest.Some? then Some([head] + rest.value) else None
  }

  // The text an attribute's value stands for, its entities undone.
  function ReadValue(s: string): Option<string> {
    if s == "" then Some("")
    else if s[0] != '&' then With(s[0], ReadValue(s[1..]))
    else if "&amp;" <= s then With('&', ReadValue(s[5..]))
    else if "&lt;" <= s then With('<', ReadValue(s[4..]))
    else if "&gt;" <= s then With('>', ReadValue(s[4..]))
    else if "&quot;" <= s then With('"', ReadValue(s[6..]))
    else None
  }

  // name="value" after name="value", each with a space before it.
  function ReadAttrs(s: string): Option<seq<Attr>>
    decreases |s|
  {
    if s == "" then Some([])
    else if s[0] != ' ' then None
    else
      var name := Upto(s[1..], '=');
      var t := s[1..][|name|..];
      if !("=\"" <= t) then None
      else
        var raw := Upto(t[2..], '"');
        var u := t[2..][|raw|..];
        if u == "" then None
        else
          var value, rest := ReadValue(raw), ReadAttrs(u[1..]);
          if value.None? || rest.None? then None else Some([Attr(name, value.value)] + rest.value)
  }

  // What a tag does to the text inside it.
  datatype Look =
    | Opens(address: string, color: string)   // color "" for the reader's own
    | Backed(color: string)
    | Colored(color: string)
    | Verbatim
    | FixedWidth
    | Strong
    | Slanted
    | Struck

  function StyleLook(style: string): Option<Look> {
    var property := Upto(style, ':');
    var value := style[|property|..];
    if value == "" then None
    else if property == "background-color" then Some(Backed(value[1..]))
    else if property == "color" then Some(Colored(value[1..]))
    else if property == "font-family" && value[1..] == "monospace" then Some(FixedWidth)
    else if property == "white-space" && value[1..] == "pre-wrap" then Some(Verbatim)
    else None
  }

  function LookOf(element: string, attrs: seq<Attr>): Option<Look> {
    if attrs == [] then
      (if element == "b" then Some(Strong) else if element == "i" then Some(Slanted)
       else if element == "s" then Some(Struck) else None)
    else if element == "a" && attrs[0].name == "href" then
      (if |attrs| == 1 then Some(Opens(attrs[0].value, ""))
       else if |attrs| == 2 && attrs[1].name == "style" && StyleLook(attrs[1].value).Some?
               && StyleLook(attrs[1].value).value.Colored?
       then Some(Opens(attrs[0].value, StyleLook(attrs[1].value).value.color))
       else None)
    else if |attrs| == 1 && attrs[0].name == "style" && (element == "span" || element == "pre") then
      var look := StyleLook(attrs[0].value);
      if look.Some? && (look.value.Verbatim? <==> element == "pre") then look else None
    else None
  }

  function Effect(tag: string): Option<Look> {
    var element := Element(tag);
    var attrs := if |element| <= |tag| then ReadAttrs(tag[|element|..]) else None;
    if attrs.None? then None else LookOf(element, attrs.value)
  }

  // ---------------------------------------------------- what a kind should do

  // A link opens the very text it covers; the palette colors the rest.
  function Wanted(kind: Kind, text: string, colors: Palette): Option<Look> {
    match kind
    case Link => Some(Opens(text, colors.link))
    case Match => Some(Backed(colors.match_))
    case Quote => Some(Colored(colors.quote))
    case Preformatted => Some(Verbatim)
    case Monospace => Some(FixedWidth)
    case Bold => Some(Strong)
    case Italic => Some(Slanted)
    case Overstrike => Some(Struck)
    case Unknown => None
  }

  // Colors that mean nothing to markup.
  predicate Bare(color: string) { '"' !in color && '&' !in color && '<' !in color && '>' !in color }

  predicate AllBare(colors: Palette) { Bare(colors.quote) && Bare(colors.match_) && Bare(colors.link) }

  // ----------------------------------------------------- which links are opened

  function Folded(s: string): (f: string)
    ensures |f| == |s| && forall i | 0 <= i < |s| :: f[i] == Fold(s[i])
  {
    seq(|s|, i requires 0 <= i < |s| => Fold(s[i]))
  }

  // Web, mail and map addresses, whatever their case, with something after the
  // scheme.
  predicate Opened(url: string) {
    var scheme := Upto(url, ':');
    var rest := url[|scheme|..];
    if Folded(scheme) == "http" || Folded(scheme) == "https" then "://" <= rest && |rest| > 3
    else (Folded(scheme) == "mailto" || Folded(scheme) == "geo") && |rest| > 1
  }

  predicate Lower(s: string) { forall i | 0 <= i < |s| :: 'a' <= s[i] <= 'z' }

  // A letter is written small or large, and two of them one way more.
  lemma LettersFold(c: char, x: char)
    requires 'a' <= x <= 'z'
    ensures Fold(c) == x <==>
              (c == x || c as int + 32 == x as int || (x == 's' && c == '\U{17F}') || (x == 'k' && c == '\U{212A}'))
  {}

  lemma MarksFold(c: char)
    ensures Fold(c) == ':' <==> c == ':'
    ensures Fold(c) == '/' <==> c == '/'
    ensures 'a' <= c <= 'z' ==> Fold(c) == c
  {}

  lemma SplitAtColon(url: string, scheme: string, tail: string)
    requires Lower(scheme) && (tail == ":" || tail == "://")
    ensures StartsFolded(url, scheme + tail) <==>
              Folded(Upto(url, ':')) == scheme && tail <= url[|Upto(url, ':')|..]
  {
    var upto, all := Upto(url, ':'), scheme + tail;
    forall c: char ensures (Fold(c) == ':' <==> c == ':') && (Fold(c) == '/' <==> c == '/') { MarksFold(c); }
    forall i | 0 <= i < |scheme| ensures Fold(scheme[i]) == scheme[i] && all[i] == scheme[i] { MarksFold(scheme[i]); }
    assert forall i | 0 <= i < |tail| :: all[|scheme| + i] == tail[i] && Fold(tail[i]) == tail[i];
    if StartsFolded(url, all) {
      SchemeIsUpto(url, scheme, tail);
    } else if Folded(upto) == scheme && tail <= url[|upto|..] {
      UptoIsScheme(url, scheme, tail);
    }
  }

  lemma SchemeIsUpto(url: string, scheme: string, tail: string)
    requires Lower(scheme) && (tail == ":" || tail == "://") && StartsFolded(url, scheme + tail)
    ensures Folded(Upto(url, ':')) == scheme && tail <= url[|Upto(url, ':')|..]
  {
    var all, upto, rest := scheme + tail, url[..|scheme|], url[|scheme|..];
    forall i | 0 <= i < |scheme| ensures Fold(url[i]) == scheme[i] && url[i] != ':' {
      assert all[i] == scheme[i] && Fold(url[i]) == Fold(all[i]);
      MarksFold(scheme[i]);
      MarksFold(url[i]);
    }
    forall i | 0 <= i < |tail| ensures rest[i] == tail[i] {
      assert all[|scheme| + i] == tail[i] && Fold(url[|scheme| + i]) == Fold(all[|scheme| + i]);
      MarksFold(tail[i]);
      MarksFold(rest[i]);
    }
    assert url == upto + rest && rest[0] == ':';
    UptoStops(upto, ':', rest);
  }

  lemma UptoIsScheme(url: string, scheme: string, tail: string)
    requires Lower(scheme) && (tail == ":" || tail == "://")
    requires Folded(Upto(url, ':')) == scheme && tail <= url[|Upto(url, ':')|..]
    ensures StartsFolded(url, scheme + tail)
  {
    var all, upto := scheme + tail, Upto(url, ':');
    forall i | 0 <= i < |all| ensures Fold(url[i]) == Fold(all[i]) {
      if i < |scheme| {
        assert all[i] == scheme[i] == Fold(upto[i]) && upto[i] == url[i];
        MarksFold(scheme[i]);
      } else {
        assert all[i] == tail[i - |scheme|] == url[|upto|..][i - |upto|];
      }
    }
  }

  lemma OnlyTheseAreOpened(url: string)
    ensures IsOpenableLink(url) <==> Opened(url)
  {
    assert SCHEMES[0] == "http" + "://" && SCHEMES[1] == "https" + "://"
        && SCHEMES[2] == "mailto" + ":" && SCHEMES[3] == "geo" + ":";
    SplitAtColon(url, "http", "://");
    SplitAtColon(url, "https", "://");
    SplitAtColon(url, "mailto", ":");
    SplitAtColon(url, "geo", ":");
    assert IsOpenableLink(url) <==>
             (StartsFolded(url, SCHEMES[0]) && |url| > 7) || (StartsFolded(url, SCHEMES[1]) && |url| > 8)
             || (StartsFolded(url, SCHEMES[2]) && |url| > 7) || (StartsFolded(url, SCHEMES[3]) && |url| > 4);
    EndsInColon(url);
  }

  lemma EndsInColon(url: string)
    ensures url[|Upto(url, ':')|..] != "" ==> url[|Upto(url, ':')|..][0] == ':' && ":" <= url[|Upto(url, ':')|..]
  {}

  // ------------------------------------------------------- reading it back

  lemma {:induction false} UptoStops(a: string, c: char, rest: string)
    requires c !in a && (rest == "" || rest[0] == c)
    ensures Upto(a + rest, c) == a
  {
    if a == "" {
      assert a + rest == rest;
    } else {
      assert (a + rest)[1..] == a[1..] + rest;
      UptoStops(a[1..], c, rest);
    }
  }

  function Coded(c: char): string { if c == '"' then "&quot;" else PlainOf(c) }

  function Coding(s: string): string { if s == "" then "" else Coded(s[0]) + Coding(s[1..]) }

  lemma {:induction false} CodingJoins(s: string, c: char)
    ensures Coding(s + [c]) == Coding(s) + Coded(c)
  {
    if s == "" {
      assert s + [c] == [c] && [c][1..] == "";
    } else {
      assert (s + [c])[1..] == s[1..] + [c];
      CodingJoins(s[1..], c);
    }
  }

  lemma {:induction false} QuotedJoins(a: string, b: string)
    ensures Quoted(a + b) == Quoted(a) + Quoted(b)
  {
    if b == "" {
      assert a + b == a;
    } else {
      assert (a + b)[..|a + b| - 1] == a + b[..|b| - 1];
      QuotedJoins(a, b[..|b| - 1]);
    }
  }

  lemma {:induction false} QuotedSame(s: string)
    requires '"' !in s
    ensures Quoted(s) == s
  {
    if s != "" { QuotedSame(s[..|s| - 1]); }
  }

  lemma QuotedOne(c: char)
    ensures Quoted(PlainOf(c)) == Coded(c)
  {
    if c == '"' {
      assert Quoted([c][..0]) == "";
    } else {
      QuotedSame(PlainOf(c));
    }
  }

  lemma HrefSnoc(init: string, c: char)
    requires Quoted(Plain(init)) == Coding(init)
    ensures Quoted(Plain(init + [c])) == Coding(init + [c])
  {
    assert (init + [c])[..|init|] == init;
    QuotedJoins(Plain(init), PlainOf(c));
    QuotedOne(c);
    CodingJoins(init, c);
  }

  lemma {:induction false} HrefIsCoding(s: string)
    ensures Quoted(Plain(s)) == Coding(s)
  {
    if s != "" {
      var init, last := s[..|s| - 1], s[|s| - 1];
      assert s == init + [last];
      HrefIsCoding(init);
      HrefSnoc(init, last);
    }
  }

  lemma CodedReads(c: char, rest: string)
    ensures ReadValue(Coded(c) + rest) == With(c, ReadValue(rest))
    ensures '"' !in Coded(c)
  {
    var s := Coded(c) + rest;
    assert Coded(c) <= s && s[|Coded(c)|..] == rest;
    if c == '<' { assert s[1] == 'l'; }
    if c == '>' { assert s[1] == 'g'; }
    if c == '"' { assert s[1] == 'q'; }
  }

  // Whatever an address holds, it is read as it was.
  lemma {:induction false} CodingReads(s: string)
    ensures ReadValue(Coding(s)) == Some(s) && '"' !in Coding(s)
  {
    if s != "" {
      CodedReads(s[0], Coding(s[1..]));
      CodingReads(s[1..]);
      assert s == [s[0]] + s[1..];
    }
  }

  lemma {:induction false} BareReads(s: string)
    requires '&' !in s
    ensures ReadValue(s) == Some(s)
  {
    if s != "" {
      BareReads(s[1..]);
      assert s == [s[0]] + s[1..];
    }
  }

  function Attribute(name: string, raw: string): string { " " + name + "=\"" + raw + "\"" }

  lemma AttrShape(name: string, raw: string, rest: string)
    ensures var s, t, u := Attribute(name, raw) + rest, "=\"" + raw + "\"" + rest, "\"" + rest;
            && s != "" && s[0] == ' ' && s[1..] == name + t && t != "" && t[0] == '=' && "=\"" <= t
            && t[2..] == raw + u && u != "" && u[0] == '"' && u[1..] == rest
  {}

  lemma Stops(a: string, c: char, rest: string)
    requires c !in a && (rest == "" || rest[0] == c)
    ensures Upto(a + rest, c) == a && (a + rest)[|a|..] == rest
  {
    UptoStops(a, c, rest);
  }

  lemma AttrReads(name: string, raw: string, rest: string)
    requires '=' !in name && '"' !in raw
    ensures var value, more := ReadValue(raw), ReadAttrs(rest);
            ReadAttrs(Attribute(name, raw) + rest)
              == if value.None? || more.None? then None else Some([Attr(name, value.value)] + more.value)
  {
    AttrShape(name, raw, rest);
    Stops(name, '=', "=\"" + raw + "\"" + rest);
    Stops(raw, '"', "\"" + rest);
  }

  lemma OneAttrReads(name: string, raw: string)
    requires '=' !in name && '"' !in raw && '&' !in raw
    ensures ReadAttrs(Attribute(name, raw)) == Some([Attr(name, raw)])
  {
    AttrReads(name, raw, "");
    BareReads(raw);
    assert Attribute(name, raw) + "" == Attribute(name, raw);
    assert [Attr(name, raw)] + [] == [Attr(name, raw)];
  }

  function Declared(property: string, value: string): string { property + (":" + value) }

  lemma StyleShape(property: string, value: string)
    ensures StyleAttr(property, value) == Attribute("style", Declared(property, value))
  {
    assert " style=\"" == " " + "style" + "=\"";
    assert property + ":" + value == Declared(property, value);
  }

  lemma StyleReads(property: string, value: string)
    requires Bare(property) && Bare(value)
    ensures ReadAttrs(StyleAttr(property, value)) == Some([Attr("style", Declared(property, value))])
  {
    StyleShape(property, value);
    OneAttrReads("style", Declared(property, value));
  }

  lemma DeclaredReads(property: string, value: string)
    requires ':' !in property
    ensures var style := Declared(property, value);
            && Upto(style, ':') == property && style[|property|..] == ":" + value
            && style[|property|..] != "" && style[|property|..][1..] == value
  {
    UptoStops(property, ':', ":" + value);
    assert Declared(property, value)[|property|..] == ":" + value;
    assert (":" + value)[1..] == value;
  }

  function ColorAttr(color: string): string { if color == "" then "" else StyleAttr("color", color) }

  function ColorAttrs(color: string): seq<Attr> {
    if color == "" then [] else [Attr("style", Declared("color", color))]
  }

  lemma AnchorShape(url: string, color: string)
    requires AnchorFor(url, color).Some?
    ensures AnchorFor(url, color).value == Attribute("href", Quoted(Plain(url))) + ColorAttr(color)
  {
    assert " href=\"" == " " + "href" + "=\"";
  }

  lemma AnchorReads(url: string, color: string)
    requires Bare(color) && AnchorFor(url, color).Some?
    ensures ReadAttrs(AnchorFor(url, color).value) == Some([Attr("href", url)] + ColorAttrs(color))
  {
    HrefIsCoding(url);
    CodingReads(url);
    if color != "" { StyleReads("color", color); }
    AttrReads("href", Quoted(Plain(url)), ColorAttr(color));
    AnchorShape(url, color);
  }

  lemma EffectOf(s: Span, attrs: seq<Attr>)
    requires Tagged(s) && ReadAttrs(s.attrs) == Some(attrs)
    ensures Effect(s.Opens()) == LookOf(s.element, attrs)
  {
    TagReadsBack(s);
    assert s.Opens()[|s.element|..] == s.attrs;
  }

  lemma PropertiesApart()
    ensures |"background-color"| == 16 && |"color"| == 5 && |"font-family"| == 11 && |"white-space"| == 11
    ensures "font-family"[0] == 'f' && "white-space"[0] == 'w'
  {}

  lemma BareJoins(a: string, b: string)
    ensures Bare(a) && Bare(b) ==> Bare(a + b)
  {}

  lemma BackgroundBare()
    ensures Bare("background-color")
  {
    BareJoins("backgrou", "nd-color");
    assert "backgrou" + "nd-color" == "background-color";
  }

  lemma ColorBare()
    ensures Bare("color")
  {}

  lemma FamilyBare()
    ensures Bare("font-family")
  {}

  lemma SpaceBare()
    ensures Bare("white-space")
  {}

  lemma FixedBare()
    ensures Bare("monospace") && Bare("pre-wrap")
  {}

  lemma PaletteReads(color: string)
    ensures StyleLook(Declared("background-color", color)) == Some(Backed(color))
    ensures StyleLook(Declared("color", color)) == Some(Colored(color))
  {
    PropertiesApart();
    DeclaredReads("background-color", color);
    DeclaredReads("color", color);
  }

  lemma FixedReads()
    ensures StyleLook(Declared("font-family", "monospace")) == Some(FixedWidth)
    ensures StyleLook(Declared("white-space", "pre-wrap")) == Some(Verbatim)
  {
    PropertiesApart();
    DeclaredReads("font-family", "monospace");
    DeclaredReads("white-space", "pre-wrap");
  }

  lemma LinkLooks(s: Span, url: string, color: string)
    requires Tagged(s) && s.element == "a" && Bare(color) && AnchorFor(url, color) == Some(s.attrs)
    ensures Effect(s.Opens()) == Some(Opens(url, color))
  {
    var attrs := [Attr("href", url)] + ColorAttrs(color);
    AnchorReads(url, color);
    EffectOf(s, attrs);
    PaletteReads(color);
    assert attrs[0] == Attr("href", url) && attrs != [];
    if color != "" { assert attrs[1] == Attr("style", Declared("color", color)); }
  }

  lemma StyledLooks(s: Span, property: string, value: string, look: Look)
    requires MadeWith(s, property, value, look) && Bare(property) && Bare(value)
    requires StyleLook(Declared(property, value)) == Some(look)
    ensures Effect(s.Opens()) == Some(look)
  {
    var attr := Attr("style", Declared(property, value));
    StyleReads(property, value);
    EffectOf(s, [attr]);
    assert [attr] != [] && [attr][0] == attr;
    assert s.element[0] != 'a' && "pre"[0] != "span"[0];
  }

  lemma PlainLooks(s: Span)
    requires Tagged(s) && s.attrs == ""
    ensures Effect(s.Opens()) == LookOf(s.element, [])
  {
    EffectOf(s, []);
  }

  lemma WordLooks(s: Span)
    requires Tagged(s) && s.attrs == ""
    ensures s.element == "b" ==> Effect(s.Opens()) == Some(Strong)
    ensures s.element == "i" ==> Effect(s.Opens()) == Some(Slanted)
    ensures s.element == "s" ==> Effect(s.Opens()) == Some(Struck)
  {
    PlainLooks(s);
    assert "b"[0] != "i"[0] && "b"[0] != "s"[0] && "i"[0] != "s"[0];
  }

  ghost predicate MadeFor(s: Span, kind: Kind, colors: Palette) {
    && Tagged(s) && AllBare(colors) && StyleFor(kind, colors).Some?
    && s.element == StyleFor(kind, colors).value.element && s.attrs == StyleFor(kind, colors).value.attrs
  }

  // A span tag with one declaration, or a pre tag with the one that is its own.
  predicate MadeWith(s: Span, property: string, value: string, look: Look) {
    Tagged(s) && s.attrs == StyleAttr(property, value) && s.element == if look.Verbatim? then "pre" else "span"
  }

  lemma StylesAre(s: Span, kind: Kind, colors: Palette)
    requires MadeFor(s, kind, colors)
    ensures kind == Match ==> MadeWith(s, "background-color", colors.match_, Backed(colors.match_))
    ensures kind == Quote ==> MadeWith(s, "color", colors.quote, Colored(colors.quote))
    ensures kind == Preformatted ==> MadeWith(s, "white-space", "pre-wrap", Verbatim)
    ensures kind == Monospace ==> MadeWith(s, "font-family", "monospace", FixedWidth)
    ensures kind == Bold || kind == Italic || kind == Overstrike ==> s.attrs == ""
  {}

  // A tag made for a kind that is not a link.
  lemma KindLooks(s: Span, kind: Kind, text: string, colors: Palette)
    requires MadeFor(s, kind, colors) && kind != Link
    ensures Effect(s.Opens()) == Wanted(kind, text, colors)
  {
    StylesAre(s, kind, colors);
    if kind == Match || kind == Quote {
      PaletteLooks(s, kind, text, colors);
    } else if kind == Preformatted || kind == Monospace {
      BlockLooks(s, kind, text, colors);
    } else {
      WordLooks(s);
    }
  }

  lemma PaletteLooks(s: Span, kind: Kind, text: string, colors: Palette)
    requires kind == Match || kind == Quote
    requires kind == Match ==> MadeWith(s, "background-color", colors.match_, Backed(colors.match_))
    requires kind == Quote ==> MadeWith(s, "color", colors.quote, Colored(colors.quote))
    requires AllBare(colors)
    ensures Effect(s.Opens()) == Wanted(kind, text, colors)
  {
    BackgroundBare();
    ColorBare();
    if kind == Match {
      PaletteReads(colors.match_);
      StyledLooks(s, "background-color", colors.match_, Backed(colors.match_));
    } else {
      PaletteReads(colors.quote);
      StyledLooks(s, "color", colors.quote, Colored(colors.quote));
    }
  }

  lemma BlockLooks(s: Span, kind: Kind, text: string, colors: Palette)
    requires kind == Preformatted || kind == Monospace
    requires kind == Preformatted ==> MadeWith(s, "white-space", "pre-wrap", Verbatim)
    requires kind == Monospace ==> MadeWith(s, "font-family", "monospace", FixedWidth)
    ensures Effect(s.Opens()) == Wanted(kind, text, colors)
  {
    FamilyBare();
    SpaceBare();
    FixedBare();
    FixedReads();
    if kind == Preformatted {
      StyledLooks(s, "white-space", "pre-wrap", Verbatim);
    } else {
      StyledLooks(s, "font-family", "monospace", FixedWidth);
    }
  }

  // The tag a mark is given does what its kind should, on the text it covers.
  lemma ResolvedLooks(cps: string, m: Mark, colors: Palette)
    requires AllBare(colors) && Resolve(cps, m, colors).Some?
    ensures var s := Resolve(cps, m, colors).value;
            s.end <= |cps| && Effect(s.Opens()) == Wanted(m.kind, cps[s.start..s.end], colors)
  {
    var s := Resolve(cps, m, colors).value;
    ResolvedIsWellMade(cps, m, colors);
    ResolvedParts(cps, m, colors);
    if m.kind == Link {
      LinkLooks(s, cps[s.start..s.end], colors.link);
    } else {
      KindLooks(s, m.kind, cps[s.start..s.end], colors);
    }
  }
}

module RichText {
  import opened Wrappers
  import opened Escape
  import opened Spans
  import opened Markup
  import opened Looks

  // ------------------------------------------------------- the marks themselves

  function From(m: Mark): nat { AtLeastZero(m.offset) }

  function Until(body: string, m: Mark): nat {
    if m.length <= 0 then From(m) else if From(m) + m.length < |body| then From(m) + m.length else |body|
  }

  function Text(body: string, m: Mark): string {
    if From(m) < Until(body, m) then body[From(m)..Until(body, m)] else ""
  }

  predicate Drawable(body: string, m: Mark) {
    m.kind != Unknown && Text(body, m) != "" && (m.kind == Link ==> Opened(Text(body, m)))
  }

  predicate Covers(body: string, m: Mark, i: nat) { From(m) <= i < Until(body, m) }

  // A block outside a word, a link inside both, and a search's match innermost.
  function Depth(kind: Kind): nat {
    match kind
    case Quote => 0
    case Preformatted => 1
    case Monospace => 2
    case Bold => 3
    case Italic => 4
    case Overstrike => 5
    case Link => 6
    case Match => 7
    case Unknown => 8
  }

  // a goes around b: it starts first, or runs on further, or is of a kind that
  // does.
  predicate Outside(body: string, a: Mark, b: Mark) {
    From(a) < From(b)
    || (From(a) == From(b) && Until(body, b) < Until(body, a))
    || (From(a) == From(b) && Until(body, a) == Until(body, b) && Depth(a.kind) < Depth(b.kind))
  }

  ghost predicate Nested(body: string, ms: seq<Mark>) {
    forall a, b | 0 <= a < b < |ms| :: !Outside(body, ms[b], ms[a])
  }

  // The marks that are drawn on code point i, in the order they are listed in.
  function On(body: string, marks: seq<Mark>, i: nat): seq<Mark> {
    if marks == [] then []
    else
      var m := marks[|marks| - 1];
      On(body, marks[..|marks| - 1], i) + if Drawable(body, m) && Covers(body, m, i) then [m] else []
  }

  // Code point i stands within one tag for each mark drawn on it and no others,
  // properly nested, and each does what its mark asks for.
  ghost predicate MarkedUp(body: string, marks: seq<Mark>, colors: Palette, i: nat, within: seq<string>) {
    exists ms: seq<Mark> ::
      && multiset(ms) == multiset(On(body, marks, i)) && Nested(body, ms) && |ms| == |within|
      && forall k | 0 <= k < |ms| :: Effect(within[k]) == Wanted(ms[k].kind, Text(body, ms[k]), colors)
  }

  lemma ResolvedIs(body: string, m: Mark, colors: Palette)
    ensures Resolve(body, m, colors).Some? <==> Drawable(body, m)
    ensures Resolve(body, m, colors).Some? ==>
              var s := Resolve(body, m, colors).value;
              s.start == From(m) && s.end == Until(body, m) && s.rank == Depth(m.kind) && s.start < s.end <= |body|
  {
    UnresolvedMeans(body, m, colors);
    OnlyTheseAreOpened(Text(body, m));
    if m.length > 0 && From(m) < |body| {
      assert Clamp(0, m.offset, |body|) == From(m);
      assert From(m) + m.length >= |body| ==> body[From(m)..|body|] == body[From(m)..];
    }
  }

  // ---------------------------------------------------- from marks to spans

  ghost predicate MadeOf(body: string, ms: seq<Mark>, colors: Palette, spans: seq<Span>) {
    |ms| == |spans| && forall k | 0 <= k < |ms| :: Resolve(body, ms[k], colors) == Some(spans[k])
  }

  function Kept(body: string, marks: seq<Mark>): seq<Mark> {
    if marks == [] then []
    else
      var m := marks[|marks| - 1];
      Kept(body, marks[..|marks| - 1]) + if Drawable(body, m) then [m] else []
  }

  lemma {:induction false} KeptAreMade(body: string, marks: seq<Mark>, colors: Palette)
    ensures MadeOf(body, Kept(body, marks), colors, ResolveAll(body, marks, colors))
  {
    if marks != [] {
      KeptAreMade(body, marks[..|marks| - 1], colors);
      ResolvedIs(body, marks[|marks| - 1], colors);
    }
  }

  lemma {:induction false} KeptCover(body: string, marks: seq<Mark>, i: nat)
    ensures On(body, Kept(body, marks), i) == On(body, marks, i)
  {
    if marks != [] {
      var init, m := marks[..|marks| - 1], marks[|marks| - 1];
      KeptCover(body, init, i);
      if Drawable(body, m) {
        assert Kept(body, marks)[..|Kept(body, marks)| - 1] == Kept(body, init);
      } else {
        assert Kept(body, marks) == Kept(body, init);
      }
    }
  }

  lemma OnSnoc(body: string, init: seq<Mark>, i: nat, last: Mark)
    ensures On(body, init + [last], i) ==
              On(body, init, i) + if Drawable(body, last) && Covers(body, last, i) then [last] else []
  {
    assert (init + [last])[..|init|] == init;
  }

  // How often the mark m is drawn on i.
  function Times(body: string, m: Mark, i: nat, n: nat): nat {
    if Drawable(body, m) && Covers(body, m, i) then n else 0
  }

  lemma OnCountsMore(body: string, init: seq<Mark>, i: nat, last: Mark, m: Mark)
    requires multiset(On(body, init, i))[m] == Times(body, m, i, multiset(init)[m])
    ensures multiset(On(body, init + [last], i))[m] == Times(body, m, i, multiset(init + [last])[m])
  {
    OnSnoc(body, init, i, last);
    Counted(On(body, init, i), last, m);
    Counted(init, last, m);
  }

  lemma {:induction false} OnCounts(body: string, marks: seq<Mark>, i: nat, m: Mark)
    ensures multiset(On(body, marks, i))[m] == Times(body, m, i, multiset(marks)[m])
  {
    if marks != [] {
      var init, last := marks[..|marks| - 1], marks[|marks| - 1];
      assert marks == init + [last];
      OnCounts(body, init, i, m);
      OnCountsMore(body, init, i, last, m);
    }
  }

  lemma Counted(s: seq<Mark>, last: Mark, m: Mark)
    ensures multiset(s + [last])[m] == multiset(s)[m] + if last == m then 1 else 0
    ensures s + [] == s
  {}

  lemma OnOfPermutation(body: string, a: seq<Mark>, b: seq<Mark>, i: nat)
    requires multiset(a) == multiset(b)
    ensures multiset(On(body, a, i)) == multiset(On(body, b, i))
  {
    forall m ensures multiset(On(body, a, i))[m] == multiset(On(body, b, i))[m] {
      OnCounts(body, a, i, m);
      OnCounts(body, b, i, m);
    }
  }

  lemma Without<T>(s: seq<T>, j: nat)
    requires j < |s|
    ensures multiset(s[..j] + s[j + 1..]) == multiset(s) - multiset{s[j]}
  {
    assert s == s[..j] + [s[j]] + s[j + 1..];
  }

  lemma StillMade(body: string, ms: seq<Mark>, colors: Palette, spans: seq<Span>, j: nat)
    requires MadeOf(body, ms, colors, spans) && j < |ms|
    ensures MadeOf(body, ms[..j] + ms[j + 1..], colors, spans[..j] + spans[j + 1..])
  {}

  lemma OneMore(body: string, ms: seq<Mark>, colors: Palette, less: seq<Mark>, init: seq<Span>, j: nat, last: Span)
    requires j < |ms| && MadeOf(body, less, colors, init) && Resolve(body, ms[j], colors) == Some(last)
    requires multiset(less) == multiset(ms[..j] + ms[j + 1..])
    ensures MadeOf(body, less + [ms[j]], colors, init + [last]) && multiset(less + [ms[j]]) == multiset(ms)
  {
    Without(ms, j);
    assert ms[j] in multiset(ms);
  }

  function IndexOf(spans: seq<Span>, x: Span): (j: nat)
    requires x in spans
    ensures j < |spans| && spans[j] == x
  {
    if spans[0] == x then 0 else 1 + IndexOf(spans[1..], x)
  }

  lemma LastStands(spans: seq<Span>, ordered: seq<Span>) returns (j: nat)
    requires ordered != [] && multiset(ordered) == multiset(spans)
    ensures j < |spans| && spans[j] == ordered[|ordered| - 1]
    ensures multiset(ordered[..|ordered| - 1]) == multiset(spans[..j] + spans[j + 1..])
  {
    WithoutLast(ordered);
    assert ordered[|ordered| - 1] in multiset(spans);
    j := IndexOf(spans, ordered[|ordered| - 1]);
    Without(spans, j);
  }

  // The spans in another order, and the marks along with them.
  lemma {:induction false} Rearranged(body: string, ms: seq<Mark>, colors: Palette, spans: seq<Span>,
                                      ordered: seq<Span>)
    returns (moved: seq<Mark>)
    requires MadeOf(body, ms, colors, spans) && multiset(ordered) == multiset(spans)
    ensures MadeOf(body, moved, colors, ordered) && multiset(moved) == multiset(ms)
    decreases |ordered|
  {
    if ordered == [] {
      assert |multiset(spans)| == |spans|;
      moved := [];
    } else {
      var j := LastStands(spans, ordered);
      StillMade(body, ms, colors, spans, j);
      var init := ordered[..|ordered| - 1];
      var less := Rearranged(body, ms[..j] + ms[j + 1..], colors, spans[..j] + spans[j + 1..], init);
      OneMore(body, ms, colors, less, init, j, ordered[|ordered| - 1]);
      assert ordered == init + [ordered[|ordered| - 1]];
      moved := less + [ms[j]];
    }
  }

  lemma MadeSnoc(body: string, ms: seq<Mark>, colors: Palette, spans: seq<Span>, m: Mark, s: Span)
    requires MadeOf(body, ms, colors, spans) && Resolve(body, m, colors) == Some(s)
    ensures MadeOf(body, ms + [m], colors, spans + [s])
  {}

  lemma {:induction false} CoveringIsOn(body: string, ms: seq<Mark>, colors: Palette, spans: seq<Span>, i: nat)
    requires MadeOf(body, ms, colors, spans)
    ensures MadeOf(body, On(body, ms, i), colors, Covering(spans, i))
    decreases |ms|
  {
    if ms != [] {
      var m, s := ms[|ms| - 1], spans[|ms| - 1];
      var on, over := On(body, ms[..|ms| - 1], i), Covering(spans[..|spans| - 1], i);
      CoveringIsOn(body, ms[..|ms| - 1], colors, spans[..|spans| - 1], i);
      ResolvedIs(body, m, colors);
      MadeSnoc(body, on, colors, over, m, s);
      assert on + [] == on && over + [] == over;
    }
  }

  lemma OrderedIsNested(body: string, ms: seq<Mark>, colors: Palette, spans: seq<Span>)
    requires MadeOf(body, ms, colors, spans) && Ordered(spans)
    ensures Nested(body, ms)
  {
    forall a, b | 0 <= a < b < |ms| ensures !Outside(body, ms[b], ms[a]) {
      ResolvedIs(body, ms[a], colors);
      ResolvedIs(body, ms[b], colors);
      assert !Before(spans[b], spans[a]);
    }
  }

  lemma {:induction false} OnMembers(body: string, ms: seq<Mark>, i: nat)
    ensures forall m | m in On(body, ms, i) :: m in ms
  {
    if ms != [] { OnMembers(body, ms[..|ms| - 1], i); }
  }

  lemma {:induction false} OnNested(body: string, ms: seq<Mark>, i: nat)
    requires Nested(body, ms)
    ensures Nested(body, On(body, ms, i))
    decreases |ms|
  {
    if ms != [] {
      var init := ms[..|ms| - 1];
      OnNested(body, init, i);
      OnMembers(body, init, i);
      var on := On(body, init, i);
      forall a | 0 <= a < |on| ensures !Outside(body, ms[|ms| - 1], on[a]) {
        assert on[a] in init;
      }
    }
  }

  lemma MadeLooks(body: string, ms: seq<Mark>, colors: Palette, spans: seq<Span>)
    requires MadeOf(body, ms, colors, spans) && AllBare(colors)
    ensures forall k | 0 <= k < |ms| :: Effect(Tags(spans)[k]) == Wanted(ms[k].kind, Text(body, ms[k]), colors)
  {
    forall k | 0 <= k < |ms| ensures Effect(Tags(spans)[k]) == Wanted(ms[k].kind, Text(body, ms[k]), colors) {
      ResolvedIs(body, ms[k], colors);
      ResolvedLooks(body, ms[k], colors);
    }
  }

  lemma IntendedIsMarkedUp(body: string, marks: seq<Mark>, colors: Palette, i: nat)
    requires AllBare(colors)
    ensures MarkedUp(body, marks, colors, i, Tags(Covering(SortSpans(ResolveAll(body, marks, colors)), i)))
  {
    var spans := ResolveAll(body, marks, colors);
    var ordered := SortSpans(spans);
    KeptAreMade(body, marks, colors);
    var moved := Rearranged(body, Kept(body, marks), colors, spans, ordered);
    OrderedIsNested(body, moved, colors, ordered);
    var ms := On(body, moved, i);
    OnNested(body, moved, i);
    CoveringIsOn(body, moved, colors, ordered, i);
    MadeLooks(body, ms, colors, Covering(ordered, i));
    OnOfPermutation(body, moved, Kept(body, marks), i);
    KeptCover(body, marks, i);
  }

  lemma DepthTells(a: Kind, b: Kind)
    ensures Depth(a) == Depth(b) ==> a == b
  {}

  lemma TieIsSame(body: string, m: Mark, k: Mark, colors: Palette, a: Span, b: Span)
    requires Resolve(body, m, colors) == Some(a) && Resolve(body, k, colors) == Some(b)
    ensures !Before(a, b) && !Before(b, a) ==> a == b
  {
    ResolvedIs(body, m, colors);
    ResolvedIs(body, k, colors);
    ResolvedParts(body, m, colors);
    ResolvedParts(body, k, colors);
    DepthTells(m.kind, k.kind);
  }

  // Two marks that tie are drawn alike, so that an unstable sort does no harm.
  lemma TiesAreAlike(body: string, marks: seq<Mark>, colors: Palette)
    ensures TiesAgree(ResolveAll(body, marks, colors))
  {
    var spans, kept := ResolveAll(body, marks, colors), Kept(body, marks);
    KeptAreMade(body, marks, colors);
    forall j, k | 0 <= j < |spans| && 0 <= k < |spans| && !Before(spans[j], spans[k]) && !Before(spans[k], spans[j])
      ensures spans[j] == spans[k]
    {
      TieIsSame(body, kept[j], kept[k], colors, spans[j], spans[k]);
    }
  }

  method Spanned(body: string, marks: seq<Mark>, colors: Palette) returns (spans: seq<Span>)
    ensures spans == ResolveAll(body, marks, colors)
  {
    spans := [];
    var m := 0;
    while m < |marks|
      invariant m <= |marks| && spans == ResolveAll(body, marks[..m], colors)
    {
      assert marks[..m + 1][..m] == marks[..m];
      var s := Resolve(body, marks[m], colors);
      if s.Some? { spans := spans + [s.value]; }
      m := m + 1;
    }
    assert marks[..m] == marks;
  }

  // What the reader of g sees is the body, marked up.
  ghost predicate Shows(g: seq<Glyph>, body: string, marks: seq<Mark>, colors: Palette) {
    |g| == |body|
    && forall i: nat | i < |g| :: g[i].c == body[i] && MarkedUp(body, marks, colors, i, g[i].within)
  }

  lemma IntendedShows(body: string, marks: seq<Mark>, colors: Palette)
    requires AllBare(colors)
    ensures Shows(Intended(body, SortSpans(ResolveAll(body, marks, colors)), |body|), body, marks, colors)
  {
    forall i: nat | i < |body|
      ensures MarkedUp(body, marks, colors, i, Tags(Covering(SortSpans(ResolveAll(body, marks, colors)), i)))
    {
      IntendedIsMarkedUp(body, marks, colors, i);
    }
  }

  lemma NoneKept(body: string, marks: seq<Mark>, colors: Palette)
    ensures ResolveAll(body, marks, colors) == [] <==> forall m | m in marks :: !Drawable(body, m)
  {
    KeptAreMade(body, marks, colors);
    KeptHolds(body, marks);
    assert Kept(body, marks) != [] ==> Kept(body, marks)[0] in Kept(body, marks);
  }

  lemma {:induction false} KeptHolds(body: string, marks: seq<Mark>)
    ensures forall m :: m in Kept(body, marks) <==> m in marks && Drawable(body, m)
  {
    if marks != [] {
      KeptHolds(body, marks[..|marks| - 1]);
      assert forall m :: m in marks <==> m in marks[..|marks| - 1] || m == marks[|marks| - 1];
    }
  }

  lemma SpansAreGood(body: string, marks: seq<Mark>, colors: Palette)
    ensures AllLong(ResolveAll(body, marks, colors))
    ensures Clean(colors) ==> AllTagged(ResolveAll(body, marks, colors))
  {
    var spans := ResolveAll(body, marks, colors);
    AllInside(body, marks, colors);
    if Clean(colors) { AllWellMade(body, marks, colors); }
    forall k | 0 <= k < |spans| ensures spans[k].start < spans[k].end { assert spans[k] in spans; }
    forall k | 0 <= k < |spans| && Clean(colors) ensures Tagged(spans[k]) {
      assert spans[k] in spans;
      assert WellMade(body, spans[k]);
    }
  }

  ghost predicate Worth(body: string, marks: seq<Mark>) { exists m :: m in marks && Drawable(body, m) }

  method MessageMarkup(body: string, marks: seq<Mark>, colors: Palette) returns (out: string)
    ensures !Worth(body, marks) ==> out == ""
    ensures Worth(body, marks) && Clean(colors) ==>
              Draw(out, [], false) == Some(Intended(body, SortSpans(ResolveAll(body, marks, colors)), |body|))
    ensures Worth(body, marks) && AllBare(colors) ==>
              Draw(out, [], false).Some? && Shows(Draw(out, [], false).value, body, marks, colors)
  {
    NoneKept(body, marks, colors);
    if body == "" || marks == [] { return ""; }
    var spans := Spanned(body, marks, colors);
    if spans == [] { return ""; }
    SpansAreGood(body, marks, colors);
    if AllBare(colors) { IntendedShows(body, marks, colors); }
    out := Render(body, spans);
  }
}
