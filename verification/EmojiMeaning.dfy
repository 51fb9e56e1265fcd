// The picker in the user's terms: what typing finds and what comes first, and
// what is on show with nothing typed.

module EmojiMeaning {
  import opened Picks
  import opened EmojiSearch

  // ------------------------------------------------------------- what comes first

  // The five things that may be said of an entry, the best first; the last can be
  // said of all that answer.
  predicate Said(e: Entry, query: string, terms: seq<string>, tier: nat)
    requires terms != [] && e.nameWords <= |e.words|
  {
    match tier
    case 0 => e.name == query
    case 1 => forall t | t in terms :: exists i | 0 <= i < e.nameWords :: e.words[i] == t
    case 2 => |query| <= |e.name| && e.name[..|query|] == query
    case 3 => exists i | 0 <= i < e.nameWords ::
                |terms[0]| <= |e.words[i]| && e.words[i][..|terms[0]|] == terms[0]
    case _ => tier == 4
  }

  // Something better can be said of a than anything of b.
  ghost predicate Outranks(a: Entry, b: Entry, query: string, terms: seq<string>)
    requires terms != [] && a.nameWords <= |a.words| && b.nameWords <= |b.words|
  {
    exists t: nat :: Said(a, query, terms, t) && forall u: nat | u <= t :: !Said(b, query, terms, u)
  }

  // a was used, and b was not, or not since.
  ghost predicate UsedSince(c: Catalogue, recent: seq<string>, a: nat, b: nat) {
    exists i :: && 0 <= i < |recent| && OfEntry(c, recent[i], a)
                && forall j | 0 <= j <= i :: !OfEntry(c, recent[j], b)
  }

  lemma RankIsBest(e: Entry, query: string, terms: seq<string>)
    requires terms != [] && e.nameWords <= |e.words|
    ensures var r := Rank(e, query, terms);
            r <= 4 && Said(e, query, terms, r) && forall u: nat | u < r :: !Said(e, query, terms, u)
  {
    var names := e.words[..e.nameWords];
    assert forall t :: t in names <==> exists i :: 0 <= i < e.nameWords && e.words[i] == t;
    assert (forall k | 0 <= k < |terms| :: terms[k] in names) <==> forall t | t in terms :: t in names;
    assert Answers(names, terms[0]) <==> Said(e, query, terms, 3);
  }

  lemma OutranksMeans(a: Entry, b: Entry, query: string, terms: seq<string>)
    requires terms != [] && a.nameWords <= |a.words| && b.nameWords <= |b.words|
    ensures Outranks(a, b, query, terms) <==> Rank(a, query, terms) < Rank(b, query, terms)
  {
    RankIsBest(a, query, terms);
    RankIsBest(b, query, terms);
  }

  lemma SoonerMeans(c: Catalogue, recent: seq<string>, a: nat, b: nat)
    requires a != b
    ensures UsedSince(c, recent, a, b) <==> Sooner(Used(c, recent, a), Used(c, recent, b))
    ensures Used(c, recent, a) == Used(c, recent, b) <==> !UsedSince(c, recent, a, b) && !UsedSince(c, recent, b, a)
  {
    var u, v := Used(c, recent, a), Used(c, recent, b);
    if Sooner(u, v) { assert OfEntry(c, recent[u.value], a); }
    if Sooner(v, u) { assert OfEntry(c, recent[v.value], b); }
  }

  // The order of what is found: by the best that can be said of it, then the one
  // used since, then the one with the shorter name, then as in the catalogue.
  lemma TheOrderMeans(c: Catalogue, recent: seq<string>, query: string, terms: seq<string>, a: nat, b: nat)
    requires CatalogueOk(c) && terms != [] && a < |c.entries| && b < |c.entries| && a != b
    ensures var e, f := c.entries[a], c.entries[b];
            Precedes(KeyOf(c, recent, query, terms, a), KeyOf(c, recent, query, terms, b)) <==>
              (Outranks(e, f, query, terms)
               || (!Outranks(f, e, query, terms)
                   && (UsedSince(c, recent, a, b)
                       || (!UsedSince(c, recent, b, a)
                           && (e.nameWords < f.nameWords || (e.nameWords == f.nameWords && a < b))))))
  {
    OutranksMeans(c.entries[a], c.entries[b], query, terms);
    OutranksMeans(c.entries[b], c.entries[a], query, terms);
    SoonerMeans(c, recent, a, b);
    SoonerMeans(c, recent, b, a);
  }

  // What is found: every word typed begins some word of the entry.
  lemma FoundMeans(c: Catalogue, recent: seq<string>, query: string, terms: seq<string>, found: seq<nat>, e: nat)
    requires CatalogueOk(c) && Found(c, recent, query, terms, found)
    ensures e in found <==>
              (terms != [] && e < |c.entries|
               && forall t | t in terms ::
                    exists i :: 0 <= i < |c.entries[e].words| && |t| <= |c.entries[e].words[i]|
                                && c.entries[e].words[i][..|t|] == t)
  {
    if e < |c.entries| {
      forall k | 0 <= k < |terms|
        ensures Answers(c.entries[e].words, terms[k]) <==>
                  exists i :: 0 <= i < |c.entries[e].words| && |terms[k]| <= |c.entries[e].words[i]|
                              && c.entries[e].words[i][..|terms[k]|] == terms[k]
      {
        AnswersMeans(c.entries[e].words, terms[k]);
      }
    }
  }

  lemma AnswersMeans(words: seq<string>, t: string)
    ensures Answers(words, t) <==> exists i :: 0 <= i < |words| && |t| <= |words[i]| && words[i][..|t|] == t
  {
    if i :| 0 <= i < |words| && Starts(words[i], t) { assert words[i][..|t|] == t; }
    if i :| 0 <= i < |words| && |t| <= |words[i]| && words[i][..|t|] == t { assert Starts(words[i], t); }
  }

  // ------------------------------------------------------------ what was typed

  predicate AllBreaks(s: string) { forall i | 0 <= i < |s| :: IsBreak(s[i]) }

  predicate NoBreaks(s: string) { forall i | 0 <= i < |s| :: !IsBreak(s[i]) }

  // Words with breaks around and between them: gaps[k] stands before word k, and
  // the last gap after the last word.
  function Woven(words: seq<string>, gaps: seq<string>): string
    requires |gaps| == |words| + 1
  {
    if words == [] then gaps[0]
    else Woven(words[..|words| - 1], gaps[..|gaps| - 1]) + words[|words| - 1] + gaps[|gaps| - 1]
  }

  ghost predicate Typing(words: seq<string>, gaps: seq<string>) {
    && |gaps| == |words| + 1
    && (forall k | 0 <= k < |words| :: words[k] != "" && NoBreaks(words[k]))
    && (forall k | 0 <= k < |gaps| :: AllBreaks(gaps[k]))
    && forall k | 0 < k < |gaps| - 1 :: gaps[k] != ""
  }

  lemma {:induction false} BreaksAddNothing(s: string, gap: string)
    requires AllBreaks(gap)
    ensures Split(s + gap) == Split(s)
    decreases |gap|
  {
    if gap == "" {
      assert s + gap == s;
    } else {
      assert (s + gap)[..|s + gap| - 1] == s + gap[..|gap| - 1];
      BreaksAddNothing(s, gap[..|gap| - 1]);
    }
  }

  lemma {:induction false} AWordAddsItself(s: string, word: string)
    requires word != "" && NoBreaks(word) && (s == "" || IsBreak(s[|s| - 1]))
    ensures Split(s + word) == Split(s) + [word]
    decreases |word|
  {
    var init, c := word[..|word| - 1], word[|word| - 1];
    assert (s + word)[..|s + word| - 1] == s + init && (s + word)[|s + word| - 1] == c;
    if init == "" {
      assert s + init == s && word == [c];
    } else {
      AWordAddsItself(s, init);
      assert word == init + [c];
    }
  }

  lemma OneWordMore(before: string, words: seq<string>, word: string, gap: string)
    requires Split(before) == words && (before == "" || IsBreak(before[|before| - 1]))
    requires word != "" && NoBreaks(word) && AllBreaks(gap)
    ensures Split(before + word + gap) == words + [word]
  {
    AWordAddsItself(before, word);
    BreaksAddNothing(before + word, gap);
  }

  // Typed words are found again, whatever stands around and between them.
  lemma {:induction false} SplitFindsTheWords(words: seq<string>, gaps: seq<string>)
    requires Typing(words, gaps)
    ensures Split(Woven(words, gaps)) == words
    decreases |words|
  {
    if words == [] {
      assert "" + gaps[0] == gaps[0];
      BreaksAddNothing("", gaps[0]);
    } else {
      var n := |words|;
      var init, last := words[..n - 1], words[n - 1];
      assert words == init + [last];
      SplitFindsTheWords(init, gaps[..n]);
      EndsInItsGap(init, gaps[..n]);
      OneWordMore(Woven(init, gaps[..n]), init, last, gaps[n]);
    }
  }

  lemma EndsInItsGap(words: seq<string>, gaps: seq<string>)
    requires |gaps| == |words| + 1 && AllBreaks(gaps[|words|]) && (words != [] ==> gaps[|words|] != "")
    ensures var s := Woven(words, gaps); s == "" || IsBreak(s[|s| - 1])
  {}

  // t stands at i in s with nothing but space around it.
  predicate SpacedAt(s: string, t: string, i: nat) {
    && i + |t| <= |s| && (forall k | 0 <= k < |t| :: s[i + k] == t[k])
    && (forall k | 0 <= k < i :: IsSpace(s[k])) && forall k | i + |t| <= k < |s| :: IsSpace(s[k])
  }

  lemma SpacedAfter(s: string, t: string, i: nat, c: char)
    requires SpacedAt(s, t, i) && IsSpace(c)
    ensures SpacedAt([c] + s, t, i + 1) && SpacedAt(s + [c], t, i)
  {
    forall k | 0 <= k < |t| ensures ([c] + s)[i + 1 + k] == t[k] {}
  }

  lemma {:induction false} TrimLeftMeans(s: string) returns (i: nat)
    ensures SpacedAt(s, TrimLeft(s), i) && (TrimLeft(s) == "" || !IsSpace(TrimLeft(s)[0]))
    ensures i + |TrimLeft(s)| == |s|
  {
    i := 0;
    if s != "" && IsSpace(s[0]) {
      var n := TrimLeftMeans(s[1..]);
      SpacedAfter(s[1..], TrimLeft(s[1..]), n, s[0]);
      assert [s[0]] + s[1..] == s;
      i := n + 1;
    }
  }

  // Only space goes, from both ends, and all of it there.
  lemma {:induction false} TrimMeans(s: string) returns (i: nat)
    ensures SpacedAt(s, Trim(s), i)
    ensures Trim(s) == "" || (!IsSpace(Trim(s)[0]) && !IsSpace(Trim(s)[|Trim(s)| - 1]))
    decreases |s|
  {
    if s == "" || !IsSpace(s[|s| - 1]) {
      i := TrimLeftMeans(s);
    } else {
      var init, last := s[..|s| - 1], s[|s| - 1];
      assert init + [last] == s;
      i := TrimMeans(init);
      SpacedAfter(init, Trim(init), i, last);
    }
  }

  // --------------------------------------------------------- with nothing typed

  function Headers(rows: seq<Row>): seq<string> {
    if rows == [] then []
    else (if rows[0].header then [rows[0].section] else []) + Headers(rows[1..])
  }

  lemma {:induction false} HeadersJoin(a: seq<Row>, b: seq<Row>)
    ensures Headers(a + b) == Headers(a) + Headers(b)
    decreases |a|
  {
    if a == [] {
      assert a + b == b;
    } else {
      assert (a + b)[1..] == a[1..] + b;
      HeadersJoin(a[1..], b);
    }
  }

  lemma {:induction false} CellsJoin(a: seq<Row>, b: seq<Row>)
    ensures Cells(a + b) == Cells(a) + Cells(b)
    decreases |a|
  {
    if a == [] {
      assert a + b == b;
    } else {
      assert (a + b)[1..] == a[1..] + b;
      CellsJoin(a[1..], b);
    }
  }

  lemma {:induction false} DrawnJoin(a: seq<Row>, b: seq<Row>)
    ensures Drawn(a + b) == Drawn(a) + Drawn(b)
    decreases |a|
  {
    if a == [] {
      assert a + b == b;
    } else {
      assert (a + b)[1..] == a[1..] + b;
      DrawnJoin(a[1..], b);
    }
  }

  lemma RowsJoin(a: seq<Row>, b: seq<Row>)
    ensures Headers(a + b) == Headers(a) + Headers(b)
    ensures Cells(a + b) == Cells(a) + Cells(b) && Drawn(a + b) == Drawn(a) + Drawn(b)
  {
    HeadersJoin(a, b);
    CellsJoin(a, b);
    DrawnJoin(a, b);
  }

  lemma {:induction false} NoHeaders(rows: seq<Row>)
    requires forall r | 0 <= r < |rows| :: !rows[r].header
    ensures Headers(rows) == []
  {
    if rows != [] { NoHeaders(rows[1..]); }
  }

  // A section is its header, if it has anything, and then all it has.
  lemma SectionShows(section: string, entries: seq<nat>, shown: seq<string>, columns: nat)
    requires columns > 0 && |shown| == |entries|
    ensures var rows := SectionRows(section, entries, shown, columns);
            && Headers(rows) == (if entries == [] then [] else [section])
            && Cells(rows) == entries && Drawn(rows) == shown
  {
    if entries != [] {
      var laid := Laid(section, entries, shown, 0, columns);
      var head := Row(section, true, [], []);
      LaidIsTheList(section, entries, shown, 0, columns);
      NoHeaders(laid);
      RowsJoin([head], laid);
      assert [head][1..] == [];
      assert Headers([head]) == [section] && Cells([head]) == [] && Drawn([head]) == [];
    }
  }

  // The groups that have anything in them.
  function Filled(c: Catalogue, groups: seq<string>): seq<string> {
    if groups == [] then []
    else Filled(c, groups[..|groups| - 1])
         + if exists i | 0 <= i < |c.entries| :: c.entries[i].group == groups[|groups| - 1]
           then [groups[|groups| - 1]] else []
  }

  function AllIn(c: Catalogue, groups: seq<string>): (entries: seq<nat>)
    ensures forall k | 0 <= k < |entries| :: entries[k] < |c.entries|
  {
    if groups == [] then []
    else AllIn(c, groups[..|groups| - 1]) + InGroup(c, groups[|groups| - 1], |c.entries|)
  }

  lemma {:induction false} PreferredJoin(c: Catalogue, tones: seq<string>, a: seq<nat>, b: seq<nat>)
    requires forall k | 0 <= k < |a| :: a[k] < |c.entries|
    requires forall k | 0 <= k < |b| :: b[k] < |c.entries|
    ensures PreferredEach(c, tones, a + b) == PreferredEach(c, tones, a) + PreferredEach(c, tones, b)
    decreases |b|
  {
    if b == [] {
      assert a + b == a;
    } else {
      assert (a + b)[..|a + b| - 1] == a + b[..|b| - 1];
      PreferredJoin(c, tones, a, b[..|b| - 1]);
    }
  }

  lemma GroupIsFilled(c: Catalogue, group: string)
    ensures InGroup(c, group, |c.entries|) != [] <==> exists i | 0 <= i < |c.entries| :: c.entries[i].group == group
  {
    GroupHolds(c, group, |c.entries|);
    var found := InGroup(c, group, |c.entries|);
    if found != [] { assert found[0] in found; }
    if i :| 0 <= i < |c.entries| && c.entries[i].group == group {
      var e: nat := i;
      assert e in found;
    }
  }

  ghost predicate Listed(c: Catalogue, tones: seq<string>, rows: seq<Row>, groups: seq<string>) {
    && Headers(rows) == Filled(c, groups) && Cells(rows) == AllIn(c, groups)
    && Drawn(rows) == PreferredEach(c, tones, AllIn(c, groups))
  }

  lemma AllInMore(c: Catalogue, init: seq<string>, group: string)
    ensures AllIn(c, init + [group]) == AllIn(c, init) + InGroup(c, group, |c.entries|)
    ensures Filled(c, init + [group]) ==
              Filled(c, init) + if InGroup(c, group, |c.entries|) == [] then [] else [group]
  {
    assert (init + [group])[..|init|] == init;
    GroupIsFilled(c, group);
  }

  lemma ListedWith(c: Catalogue, tones: seq<string>, rows: seq<Row>, more: seq<Row>, init: seq<string>,
                   group: string, entries: seq<nat>)
    requires Listed(c, tones, rows, init) && entries == InGroup(c, group, |c.entries|)
    requires Headers(more) == (if entries == [] then [] else [group]) && Cells(more) == entries
    requires Drawn(more) == PreferredEach(c, tones, entries)
    ensures Listed(c, tones, rows + more, init + [group])
  {
    AllInMore(c, init, group);
    RowsJoin(rows, more);
    PreferredJoin(c, tones, AllIn(c, init), entries);
  }

  lemma ListedMore(c: Catalogue, tones: seq<string>, columns: nat, init: seq<string>, group: string, rows: seq<Row>)
    requires columns > 0 && Listed(c, tones, rows, init)
    ensures var entries := InGroup(c, group, |c.entries|);
            Listed(c, tones, rows + SectionRows(group, entries, PreferredEach(c, tones, entries), columns),
                   init + [group])
  {
    var entries := InGroup(c, group, |c.entries|);
    var shown := PreferredEach(c, tones, entries);
    SectionShows(group, entries, shown, columns);
    ListedWith(c, tones, rows, SectionRows(group, entries, shown, columns), init, group, entries);
  }

  // The groups come in their order, each under its name, those with nothing in
  // them left out, and each entry in the form it is drawn in.
  lemma {:induction false} GroupsShow(c: Catalogue, tones: seq<string>, columns: nat, groups: seq<string>)
    requires columns > 0
    ensures Listed(c, tones, GroupRows(c, tones, columns, groups), groups)
  {
    if groups != [] {
      var init, group := groups[..|groups| - 1], groups[|groups| - 1];
      assert groups == init + [group];
      GroupsShow(c, tones, columns, init);
      ListedMore(c, tones, columns, init, group, GroupRows(c, tones, columns, init));
    }
  }

  // Forms the catalogue has, in the order used, as many of the first as fit.
  function Had(c: Catalogue, recent: seq<string>): seq<string> {
    if recent == [] then [] else (if recent[0] in c.owner then [recent[0]] else []) + Had(c, recent[1..])
  }

  lemma {:induction false} KnownMeans(c: Catalogue, recent: seq<string>, room: nat)
    ensures Known(c, recent, room) == (if |Had(c, recent)| <= room then Had(c, recent) else Had(c, recent)[..room])
    decreases |recent|
  {
    if recent != [] && room > 0 {
      if recent[0] in c.owner {
        KnownMeans(c, recent[1..], room - 1);
      } else {
        KnownMeans(c, recent[1..], room);
      }
    }
  }

  // With nothing typed: first two rows at most of what was used last, in the very
  // form it was used in, and then every group.
  lemma BrowsingShows(c: Catalogue, recent: seq<string>, tones: seq<string>, columns: nat, groups: seq<string>)
    requires columns > 0
    ensures var rows := RecentRows(c, recent, columns) + GroupRows(c, tones, columns, groups);
            var used := if |Had(c, recent)| <= 2 * columns then Had(c, recent) else Had(c, recent)[..2 * columns];
            && (forall k | 0 <= k < |used| :: used[k] in c.owner)
            && Headers(rows) == (if used == [] then [] else ["recent"]) + Filled(c, groups)
            && Drawn(rows) == used + PreferredEach(c, tones, AllIn(c, groups))
            && Known(c, recent, 2 * columns) == used && Cells(rows) == Owners(c, used) + AllIn(c, groups)
  {
    var forms := Known(c, recent, 2 * columns);
    KnownMeans(c, recent, 2 * columns);
    SectionShows("recent", Owners(c, forms), forms, columns);
    GroupsShow(c, tones, columns, groups);
    RowsJoin(RecentRows(c, recent, columns), GroupRows(c, tones, columns, groups));
  }

  // -------------------------------------------------------------- what was used

  // After the form just used come the others, less those there is no room for.
  lemma TheRestComesAfter(recent: seq<string>, form: string)
    ensures var now, rest := UsedNow(recent, form), WithoutForm(recent, form);
            now[0] == form && now[1..] == (if |rest| < 40 then rest else rest[..39])
  {
    var rest := WithoutForm(recent, form);
    assert ([form] + rest)[1..] == rest;
    if |rest| >= RECENT_KEPT {
      assert ([form] + rest)[0..RECENT_KEPT][1..] == rest[..RECENT_KEPT - 1];
    }
  }

  function Other(form: string): (kept: string -> bool)
    ensures forall s :: kept(s) <==> s != form
  {
    (s: string) => s != form
  }

  lemma {:induction false} WithoutJoins(a: seq<string>, x: string, form: string)
    ensures WithoutForm(a + [x], form) == WithoutForm(a, form) + if x == form then [] else [x]
  {
    if a == [] {
      assert a + [x] == [x] && [x][1..] == [];
    } else {
      assert (a + [x])[1..] == a[1..] + [x];
      WithoutJoins(a[1..], x, form);
    }
  }

  // The others are all that were there, as they stood.
  lemma {:induction false} TheRestStaysInOrder(recent: seq<string>, form: string)
    ensures Sifted(recent, WithoutForm(recent, form), Other(form))
    decreases |recent|
  {
    if recent == [] {
      SiftedNone(Other(form));
    } else {
      var init, last := recent[..|recent| - 1], recent[|recent| - 1];
      assert recent == init + [last];
      TheRestStaysInOrder(init, form);
      WithoutJoins(init, last, form);
      SiftedOn(init, WithoutForm(init, form), Other(form), last);
      assert WithoutForm(init, form) + [] == WithoutForm(init, form);
    }
  }
}
