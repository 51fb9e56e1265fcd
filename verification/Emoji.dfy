// The emoji picker: which entries answer what was typed, in what order, and how
// they are laid out in rows.

module EmojiSearch {
  import opened Wrappers

  datatype Entry = Entry(emoji: string, group: string, name: string, words: seq<string>, nameWords: nat,
                         variants: seq<string>)

  // owner finds an entry by any of its forms.
  datatype Catalogue = Catalogue(entries: seq<Entry>, owner: map<string, nat>)

  ghost predicate CatalogueOk(c: Catalogue) {
    && (forall i | 0 <= i < |c.entries| :: c.entries[i].nameWords <= |c.entries[i].words|)
    && (forall e | e in c.owner :: c.owner[e] < |c.entries|)
    && (forall i | 0 <= i < |c.entries| :: c.entries[i].emoji in c.owner && c.owner[c.entries[i].emoji] == i)
  }

  predicate Starts(word: string, term: string) { term <= word }

  predicate Answers(words: seq<string>, term: string) {
    exists i | 0 <= i < |words| :: Starts(words[i], term)
  }

  predicate AnswersAll(e: Entry, terms: seq<string>) {
    forall k | 0 <= k < |terms| :: Answers(e.words, terms[k])
  }

  // From 0, the name itself, over three looser ways of hitting it, to 4,
  // where only keywords were hit.
  function Rank(e: Entry, query: string, terms: seq<string>): nat
    requires terms != [] && e.nameWords <= |e.words|
  {
    var nameWords := e.words[..e.nameWords];
    if e.name == query then 0
    else if forall k | 0 <= k < |terms| :: terms[k] in nameWords then 1
    else if query <= e.name then 2
    else if Answers(nameWords, terms[0]) then 3
    else 4
  }

  // How lately the entry was used in any of its forms, sooner first; None for
  // not at all.
  function Used(c: Catalogue, recent: seq<string>, entry: nat): (u: Option<nat>)
    ensures u.Some? ==> u.value < |recent| && recent[u.value] in c.owner && c.owner[recent[u.value]] == entry
    ensures forall i | 0 <= i < (if u.Some? then u.value else |recent|) ::
              !(recent[i] in c.owner && c.owner[recent[i]] == entry)
  {
    if recent == [] then None
    else
      var u := Used(c, recent[..|recent| - 1], entry);
      var last := recent[|recent| - 1];
      if u.Some? then u else if last in c.owner && c.owner[last] == entry then Some(|recent| - 1) else None
  }

  datatype Key = Key(rank: nat, used: Option<nat>, nameWords: nat, entry: nat)

  function KeyOf(c: Catalogue, recent: seq<string>, query: string, terms: seq<string>, entry: nat): Key
    requires entry < |c.entries| && terms != [] && c.entries[entry].nameWords <= |c.entries[entry].words|
  {
    Key(Rank(c.entries[entry], query, terms), Used(c, recent, entry), c.entries[entry].nameWords, entry)
  }

  predicate Sooner(a: Option<nat>, b: Option<nat>) { a.Some? && (b.None? || a.value < b.value) }

  // By rank, then how lately used, then the shorter name.
  predicate Ahead(a: Key, b: Key) {
    if a.rank != b.rank then a.rank < b.rank
    else if a.used != b.used then Sooner(a.used, b.used)
    else a.nameWords < b.nameWords
  }

  // The same with the catalogue's order to settle what is left.
  predicate Precedes(a: Key, b: Key) { Ahead(a, b) || (!Ahead(b, a) && a.entry < b.entry) }

  lemma AheadOrders(a: Key, b: Key, c: Key)
    ensures Ahead(a, b) ==> !Ahead(b, a)
    ensures !Ahead(b, a) && !Ahead(c, b) ==> !Ahead(c, a)
    ensures Ahead(a, b) && !Ahead(c, b) ==> Ahead(a, c)
    ensures !Ahead(b, a) && Ahead(b, c) ==> Ahead(a, c)
  {}

  lemma PrecedesOrders(a: Key, b: Key, c: Key)
    ensures Precedes(a, b) ==> !Precedes(b, a)
    ensures Precedes(a, b) && Precedes(b, c) ==> Precedes(a, c)
    ensures a.entry != b.entry ==> Precedes(a, b) || Precedes(b, a)
  {
    AheadOrders(a, b, c);
    AheadOrders(c, a, b);
    AheadOrders(b, c, a);
    AheadOrders(a, c, b);
    AheadOrders(c, b, a);
    AheadOrders(b, a, c);
  }

  // A stable sort of the hits, found in the catalogue's order.
  function Slot(hits: seq<Key>, x: Key): seq<Key> {
    if hits == [] then [x]
    else if Ahead(x, hits[|hits| - 1]) then Slot(hits[..|hits| - 1], x) + [hits[|hits| - 1]]
    else hits + [x]
  }

  function StableSort(hits: seq<Key>): seq<Key> {
    if hits == [] then [] else Slot(StableSort(hits[..|hits| - 1]), hits[|hits| - 1])
  }

  ghost predicate InOrder(hits: seq<Key>) {
    forall i, j | 0 <= i < j < |hits| :: Precedes(hits[i], hits[j])
  }

  ghost predicate Rising(hits: seq<Key>) {
    forall i, j | 0 <= i < j < |hits| :: hits[i].entry < hits[j].entry
  }

  lemma {:induction false} SlotOrders(hits: seq<Key>, x: Key)
    requires InOrder(hits) && forall h | h in hits :: h.entry < x.entry
    ensures InOrder(Slot(hits, x)) && multiset(Slot(hits, x)) == multiset(hits) + multiset{x}
    decreases |hits|
  {
    if hits != [] {
      var init, last := hits[..|hits| - 1], hits[|hits| - 1];
      assert hits == init + [last];
      if Ahead(x, last) {
        SlotOrders(init, x);
        AllBefore(init, x, last, Slot(init, x));
      } else {
        forall i | 0 <= i < |hits| ensures Precedes(hits[i], x) { PrecedesOrders(hits[i], last, x); }
      }
    }
  }

  lemma AllBefore(init: seq<Key>, x: Key, last: Key, r: seq<Key>)
    requires multiset(r) == multiset(init) + multiset{x} && Ahead(x, last)
    requires forall i | 0 <= i < |init| :: Precedes(init[i], last)
    ensures forall i | 0 <= i < |r| :: Precedes(r[i], last)
  {
    forall i | 0 <= i < |r| ensures Precedes(r[i], last) {
      assert r[i] in multiset(r);
      if r[i] != x {
        assert r[i] in multiset(init);
        assert r[i] in init;
      }
    }
  }

  lemma {:induction false} SortOrders(hits: seq<Key>)
    requires Rising(hits)
    ensures InOrder(StableSort(hits)) && multiset(StableSort(hits)) == multiset(hits)
    decreases |hits|
  {
    if hits != [] {
      var init, last := hits[..|hits| - 1], hits[|hits| - 1];
      assert hits == init + [last];
      SortOrders(init);
      var s := StableSort(init);
      forall h | h in s ensures h.entry < last.entry {
        assert h in multiset(init);
      }
      SlotOrders(s, last);
    }
  }

  // --------------------------------------------------------------------- rows

  datatype Row = Row(section: string, header: bool, entries: seq<nat>, shown: seq<string>)

  // A group's key and the row its header is on.
  datatype Section = Section(group: string, row: nat)

  // The headers among the first n rows, every one of them, from the top down.
  ghost predicate Tabs(sections: seq<Section>, rows: seq<Row>, n: nat)
    requires n <= |rows|
  {
    && (forall s :: s in sections <==> s.row < n && rows[s.row].header && s.group == rows[s.row].section)
    && (forall i, j | 0 <= i < j < |sections| :: sections[i].row < sections[j].row)
  }

  function Cut<T>(s: seq<T>, at: nat, columns: nat): seq<T>
    requires at <= |s|
  {
    if at + columns <= |s| then s[at..at + columns] else s[at..]
  }

  function Laid(section: string, entries: seq<nat>, shown: seq<string>, at: nat, columns: nat): seq<Row>
    requires columns > 0 && |shown| == |entries|
    decreases |entries| - at
  {
    if at >= |entries| then []
    else [Row(section, false, Cut(entries, at, columns), Cut(shown, at, columns))]
         + Laid(section, entries, shown, at + columns, columns)
  }

  function Cells(rows: seq<Row>): seq<nat> {
    if rows == [] then [] else rows[0].entries + Cells(rows[1..])
  }

  function Drawn(rows: seq<Row>): seq<string> {
    if rows == [] then [] else rows[0].shown + Drawn(rows[1..])
  }

  // Laid end to end the rows are the list again, every row but the last is
  // full, none is empty, and what is drawn keeps step with what it stands for.
  lemma {:induction false} LaidIsTheList(section: string, entries: seq<nat>, shown: seq<string>, at: nat,
                                         columns: nat)
    requires columns > 0 && |shown| == |entries| && at <= |entries|
    ensures var rows := Laid(section, entries, shown, at, columns);
            && Cells(rows) == entries[at..] && Drawn(rows) == shown[at..]
            && (forall r | 0 <= r < |rows| ::
                  && rows[r].section == section && !rows[r].header
                  && |rows[r].shown| == |rows[r].entries| && 0 < |rows[r].entries| <= columns
                  && (r < |rows| - 1 ==> |rows[r].entries| == columns))
    decreases |entries| - at
  {
    if at < |entries| {
      if at + columns <= |entries| {
        LaidIsTheList(section, entries, shown, at + columns, columns);
        assert entries[at..] == entries[at..at + columns] + entries[at + columns..];
        assert shown[at..] == shown[at..at + columns] + shown[at + columns..];
      } else {
        assert Laid(section, entries, shown, at + columns, columns) == [];
      }
    }
  }

  // ------------------------------------------------------------------ the query

  predicate IsSpace(c: char) { c == ' ' || '\t' <= c <= '\r' }

  predicate IsBreak(c: char) { IsSpace(c) || c == ':' || c == ',' || c == '-' }

  function TrimLeft(s: string): string {
    if s == "" || !IsSpace(s[0]) then s else TrimLeft(s[1..])
  }

  function Trim(s: string): string {
    if s == "" || !IsSpace(s[|s| - 1]) then TrimLeft(s) else Trim(s[..|s| - 1])
  }

  function Lowered(s: string, lower: char -> char): string {
    seq(|s|, i requires 0 <= i < |s| => lower(s[i]))
  }

  // Split at every run of breaks, with no empty parts.
  function Split(s: string): (terms: seq<string>)
    ensures s != "" && !IsBreak(s[|s| - 1]) ==> terms != []
  {
    if s == "" then []
    else
      var init, c := s[..|s| - 1], s[|s| - 1];
      var terms := Split(init);
      if IsBreak(c) then terms
      else if init == "" || IsBreak(init[|init| - 1]) then terms + [[c]]
      else terms[..|terms| - 1] + [terms[|terms| - 1] + [c]]
  }

  predicate Hit(c: Catalogue, terms: seq<string>, e: nat) {
    terms != [] && e < |c.entries| && AnswersAll(c.entries[e], terms)
  }

  // The entry that answers every term and comes before all others that do.
  ghost predicate Best(c: Catalogue, recent: seq<string>, query: string, terms: seq<string>, e: nat)
    requires CatalogueOk(c)
  {
    && Hit(c, terms, e)
    && forall other: nat | Hit(c, terms, other) && other != e ::
         Precedes(KeyOf(c, recent, query, terms, e), KeyOf(c, recent, query, terms, other))
  }

  // Each entry that answers every term, once, in order.
  ghost predicate Found(c: Catalogue, recent: seq<string>, query: string, terms: seq<string>, found: seq<nat>)
    requires CatalogueOk(c)
  {
    && (forall e: nat :: e in found <==> Hit(c, terms, e))
    && (terms != [] ==> forall a, b | 0 <= a < b < |found| && found[a] < |c.entries| && found[b] < |c.entries| ::
          Precedes(KeyOf(c, recent, query, terms, found[a]), KeyOf(c, recent, query, terms, found[b])))
  }

  // ------------------------------------------------------------------ the tones

  predicate OfEntry(c: Catalogue, form: string, entry: nat) { form in c.owner && c.owner[form] == entry }

  // A tone kept for the entry goes before its plain form.
  function Preferred(c: Catalogue, tones: seq<string>, entry: nat): string
    requires entry < |c.entries|
  {
    if tones == [] then c.entries[entry].emoji
    else if OfEntry(c, tones[0], entry) then tones[0]
    else Preferred(c, tones[1..], entry)
  }

  function PreferredEach(c: Catalogue, tones: seq<string>, entries: seq<nat>): (shown: seq<string>)
    requires forall k | 0 <= k < |entries| :: entries[k] < |c.entries|
    ensures |shown| == |entries|
  {
    if entries == [] then []
    else PreferredEach(c, tones, entries[..|entries| - 1]) + [Preferred(c, tones, entries[|entries| - 1])]
  }

  function WithoutEntry(c: Catalogue, tones: seq<string>, entry: nat): seq<string> {
    if tones == [] then []
    else (if OfEntry(c, tones[0], entry) then [] else [tones[0]]) + WithoutEntry(c, tones[1..], entry)
  }

  function WithoutForm(recent: seq<string>, form: string): seq<string> {
    if recent == [] then []
    else (if recent[0] == form then [] else [recent[0]]) + WithoutForm(recent[1..], form)
  }

  const RECENT_KEPT := 40

  function UsedNow(recent: seq<string>, form: string): seq<string> {
    Cut([form] + WithoutForm(recent, form), 0, RECENT_KEPT)
  }

  function Toned(c: Catalogue, tones: seq<string>, entry: nat, form: string): seq<string>
    requires entry < |c.entries|
  {
    WithoutEntry(c, tones, entry) + if form != c.entries[entry].emoji then [form] else []
  }

  lemma {:induction false} PreferredJoins(c: Catalogue, a: seq<string>, b: seq<string>, entry: nat)
    requires entry < |c.entries|
    ensures Preferred(c, a + b, entry) ==
              if exists k :: 0 <= k < |a| && OfEntry(c, a[k], entry) then Preferred(c, a, entry)
              else Preferred(c, b, entry)
    decreases |a|
  {
    if a == [] {
      assert a + b == b;
    } else {
      assert (a + b)[1..] == a[1..] + b;
      PreferredJoins(c, a[1..], b, entry);
      if k :| 0 <= k < |a| && OfEntry(c, a[k], entry) {
        if k > 0 { assert a[1..][k - 1] == a[k]; }
      }
      assert forall k | 0 <= k < |a[1..]| :: a[1..][k] == a[k + 1];
    }
  }

  lemma {:induction false} NoneLeft(c: Catalogue, tones: seq<string>, entry: nat)
    ensures forall t | t in WithoutEntry(c, tones, entry) :: !OfEntry(c, t, entry)
  {
    if tones != [] { NoneLeft(c, tones[1..], entry); }
  }

  lemma {:induction false} OthersPreferred(c: Catalogue, tones: seq<string>, entry: nat, other: nat)
    requires entry != other && other < |c.entries|
    ensures Preferred(c, WithoutEntry(c, tones, entry), other) == Preferred(c, tones, other)
  {
    if tones != [] {
      OthersPreferred(c, tones[1..], entry, other);
      var rest := WithoutEntry(c, tones[1..], entry);
      if !OfEntry(c, tones[0], entry) {
        assert ([tones[0]] + rest)[1..] == rest;
      } else {
        assert [] + rest == rest;
      }
    }
  }

  // The form picked for an entry is the one it is drawn in from then on, and
  // every other entry keeps the one it had.
  lemma ThePickedToneIsDrawn(c: Catalogue, tones: seq<string>, entry: nat, form: string, other: nat)
    requires CatalogueOk(c) && entry < |c.entries| && OfEntry(c, form, entry) && other < |c.entries|
    ensures Preferred(c, Toned(c, tones, entry, form), other) ==
              if other == entry then form else Preferred(c, tones, other)
  {
    var less := WithoutEntry(c, tones, entry);
    var last := if form != c.entries[entry].emoji then [form] else [];
    PreferredJoins(c, less, last, other);
    NoneLeft(c, tones, entry);
    if other == entry {
      assert forall k | 0 <= k < |less| :: less[k] in less;
    } else {
      OthersPreferred(c, tones, entry, other);
      NoToneOf(c, less, other);
    }
  }

  lemma {:induction false} NoToneOf(c: Catalogue, tones: seq<string>, entry: nat)
    requires entry < |c.entries|
    ensures (forall k | 0 <= k < |tones| :: !OfEntry(c, tones[k], entry)) ==>
              Preferred(c, tones, entry) == c.entries[entry].emoji
  {
    if tones != [] {
      NoToneOf(c, tones[1..], entry);
      assert forall k | 0 <= k < |tones[1..]| :: tones[1..][k] == tones[k + 1];
    }
  }

  lemma {:induction false} WithoutFormIs(recent: seq<string>, form: string)
    ensures forall r :: r in WithoutForm(recent, form) <==> r in recent && r != form
  {
    if recent != [] { WithoutFormIs(recent[1..], form); }
  }

  ghost predicate NoneTwice(forms: seq<string>) { forall i, j | 0 <= i < j < |forms| :: forms[i] != forms[j] }

  lemma {:induction false} WithoutFormOnce(recent: seq<string>, form: string)
    requires NoneTwice(recent)
    ensures NoneTwice(WithoutForm(recent, form))
  {
    if recent != [] {
      var rest := recent[1..];
      WithoutFormOnce(rest, form);
      WithoutFormIs(rest, form);
      var less := WithoutForm(rest, form);
      forall i | 0 <= i < |less| ensures less[i] != recent[0] {
        assert less[i] in less;
        var k :| 0 <= k < |rest| && rest[k] == less[i];
        assert recent[k + 1] == less[i];
      }
    }
  }

  // The form just used comes first, nothing is listed twice, and no more are
  // kept than there is room for.
  lemma UsedComesFirst(recent: seq<string>, form: string)
    requires NoneTwice(recent)
    ensures var now := UsedNow(recent, form);
            && now != [] && now[0] == form && NoneTwice(now) && |now| <= 40
            && forall r | r in now :: r == form || r in recent
  {
    WithoutFormOnce(recent, form);
    WithoutFormIs(recent, form);
    var less := WithoutForm(recent, form);
    forall i | 0 <= i < |less| ensures less[i] != form { assert less[i] in less; }
  }

  // ------------------------------------------------------------ the whole picker

  const GROUPS := ["smileys", "people", "nature", "food", "travel", "activities", "objects", "symbols", "flags"]

  function SectionRows(section: string, entries: seq<nat>, shown: seq<string>, columns: nat): seq<Row>
    requires columns > 0 && |shown| == |entries|
  {
    if entries == [] then [] else [Row(section, true, [], [])] + Laid(section, entries, shown, 0, columns)
  }

  function InGroup(c: Catalogue, group: string, n: nat): (found: seq<nat>)
    requires n <= |c.entries|
    ensures forall k | 0 <= k < |found| :: found[k] < n
  {
    if n == 0 then []
    else InGroup(c, group, n - 1) + (if c.entries[n - 1].group == group then [n - 1] else [])
  }

  // A group holds its entries, each once and in the catalogue's order.
  lemma {:induction false} GroupHolds(c: Catalogue, group: string, n: nat)
    requires n <= |c.entries|
    ensures var found := InGroup(c, group, n);
            && (forall e: nat :: e in found <==> e < n && c.entries[e].group == group)
            && (forall a, b | 0 <= a < b < |found| :: found[a] < found[b])
  {
    if n > 0 { GroupHolds(c, group, n - 1); }
  }

  // The forms used last that the catalogue still has, so many and no more.
  function Known(c: Catalogue, recent: seq<string>, room: nat): (forms: seq<string>)
    ensures |forms| <= room && forall f | f in forms :: f in c.owner
    decreases |recent|
  {
    if recent == [] || room == 0 then []
    else if recent[0] in c.owner then [recent[0]] + Known(c, recent[1..], room - 1)
    else Known(c, recent[1..], room)
  }

  function Owners(c: Catalogue, forms: seq<string>): (entries: seq<nat>)
    requires forall k | 0 <= k < |forms| :: forms[k] in c.owner
    ensures |entries| == |forms| && forall k | 0 <= k < |forms| :: entries[k] == c.owner[forms[k]]
  {
    seq(|forms|, k requires 0 <= k < |forms| => c.owner[forms[k]])
  }

  function RecentRows(c: Catalogue, recent: seq<string>, columns: nat): seq<Row>
    requires columns > 0
  {
    var forms := Known(c, recent, 2 * columns);
    SectionRows("recent", Owners(c, forms), forms, columns)
  }

  function GroupRows(c: Catalogue, tones: seq<string>, columns: nat, groups: seq<string>): seq<Row>
    requires columns > 0
  {
    if groups == [] then []
    else
      var group := groups[|groups| - 1];
      var entries := InGroup(c, group, |c.entries|);
      GroupRows(c, tones, columns, groups[..|groups| - 1])
      + SectionRows(group, entries, PreferredEach(c, tones, entries), columns)
  }
}

module EmojiLayout {
  import opened EmojiSearch

  lemma OneMoreGroup(top: seq<Row>, c: Catalogue, tones: seq<string>, columns: nat, groups: seq<string>, g: nat)
    requires columns > 0 && g < |groups|
    ensures top + GroupRows(c, tones, columns, groups[..g + 1])
         == top + GroupRows(c, tones, columns, groups[..g])
            + SectionRows(groups[g], InGroup(c, groups[g], |c.entries|),
                          PreferredEach(c, tones, InGroup(c, groups[g], |c.entries|)), columns)
  {
    assert groups[..g + 1][..g] == groups[..g];
  }

  lemma {:induction false} EachPreferred(c: Catalogue, tones: seq<string>, entries: seq<nat>, k: nat)
    requires k < |entries| && forall i | 0 <= i < |entries| :: entries[i] < |c.entries|
    ensures PreferredEach(c, tones, entries)[k] == Preferred(c, tones, entries[k])
    decreases |entries|
  {
    if k < |entries| - 1 { EachPreferred(c, tones, entries[..|entries| - 1], k); }
  }

  // The first cell of the first row is the best match in its preferred form.
  lemma TheBestMatchComesFirst(c: Catalogue, tones: seq<string>, found: seq<nat>, columns: nat)
    requires columns > 0 && found != [] && forall k | 0 <= k < |found| :: found[k] < |c.entries|
    ensures var rows := Laid("search", found, PreferredEach(c, tones, found), 0, columns);
            rows != [] && rows[0].shown != [] && rows[0].shown[0] == Preferred(c, tones, found[0])
  {
    EachPreferred(c, tones, found, 0);
  }

  // What is found first is the best there is, and nothing is found only if no
  // entry answers.
  lemma TheFirstFoundIsBest(c: Catalogue, recent: seq<string>, query: string, terms: seq<string>, found: seq<nat>)
    requires CatalogueOk(c) && Found(c, recent, query, terms, found)
    ensures if found == [] then forall e: nat :: !Hit(c, terms, e) else Best(c, recent, query, terms, found[0])
  {
    if found != [] {
      assert found[0] in found;
      forall other: nat | Hit(c, terms, other) && other != found[0]
        ensures Precedes(KeyOf(c, recent, query, terms, found[0]), KeyOf(c, recent, query, terms, other))
      {
        assert other in found;
        var b: nat :| b < |found| && found[b] == other;
      }
    }
  }

  ghost predicate SearchRows(c: Catalogue, tones: seq<string>, columns: nat, found: seq<nat>, rows: seq<Row>) {
    && columns > 0 && (forall k | 0 <= k < |found| :: found[k] < |c.entries|)
    && rows == Laid("search", found, PreferredEach(c, tones, found), 0, columns)
  }

  // Of the entries that answer every word typed the best, in the form it is
  // drawn in; nothing if none does.
  ghost predicate Picked(c: Catalogue, recent: seq<string>, tones: seq<string>, query: string, form: string)
    requires CatalogueOk(c)
  {
    if forall e: nat :: !Hit(c, Split(query), e) then form == ""
    else exists e: nat :: Best(c, recent, query, Split(query), e) && form == Preferred(c, tones, e)
  }

  function FirstCell(rows: seq<Row>): string {
    if rows == [] || rows[0].shown == [] then "" else rows[0].shown[0]
  }

  lemma TheFirstCellIsPicked(c: Catalogue, recent: seq<string>, tones: seq<string>, columns: nat, query: string,
                             rows: seq<Row>)
    requires CatalogueOk(c)
    requires exists found :: Found(c, recent, query, Split(query), found) && SearchRows(c, tones, columns, found, rows)
    ensures Picked(c, recent, tones, query, FirstCell(rows))
  {
    var found :| Found(c, recent, query, Split(query), found) && SearchRows(c, tones, columns, found, rows);
    TheFirstFoundIsBest(c, recent, query, Split(query), found);
    if found != [] { TheBestMatchComesFirst(c, tones, found, columns); }
  }

  lemma OneBest(c: Catalogue, recent: seq<string>, query: string, terms: seq<string>, e: nat, f: nat)
    requires CatalogueOk(c) && Best(c, recent, query, terms, e) && Best(c, recent, query, terms, f)
    ensures e == f
  {
    if e != f {
      var a, b := KeyOf(c, recent, query, terms, e), KeyOf(c, recent, query, terms, f);
      PrecedesOrders(a, b, a);
    }
  }

  lemma FirstIsIn(sections: seq<Section>)
    requires sections != []
    ensures exists s :: s in sections
  {
    assert sections[0] in sections;
  }

  // No row of a search is a header.
  lemma NoTabsInASearch(section: string, entries: seq<nat>, shown: seq<string>, columns: nat, sections: seq<Section>)
    requires columns > 0 && |shown| == |entries|
    requires var rows := Laid(section, entries, shown, 0, columns); Tabs(sections, rows, |rows|)
    ensures sections == []
  {
    LaidIsTheList(section, entries, shown, 0, columns);
    if sections != [] { FirstIsIn(sections); }
  }
}

module EmojiModel {
  import opened EmojiLayout
  import opened EmojiSearch

  // settings false stands for a picker with nowhere to keep recents and tones.
  class EmojiModel {
    const catalogue: Catalogue
    const lower: char -> char
    var columns: nat
    var filter: string
    var settings: bool
    var recent: seq<string>
    var tones: seq<string>
    var rows: seq<Row>
    var sections: seq<Section>

    ghost predicate Valid()
      reads this
    {
      CatalogueOk(catalogue) && columns > 0 && (!settings ==> recent == [] && tones == [])
    }

    constructor (catalogue: Catalogue, lower: char -> char, settings: bool, recent: seq<string>, tones: seq<string>)
      requires CatalogueOk(catalogue)
      ensures Valid() && columns == 8 && filter == "" && rows == [] && sections == []
    {
      this.catalogue, this.lower, this.settings := catalogue, lower, settings;
      this.recent, this.tones := if settings then recent else [], if settings then tones else [];
      columns, filter, rows, sections := 8, "", [], [];
    }

    method PreferredOf(entry: nat) returns (shown: string)
      requires entry < |catalogue.entries|
      ensures shown == Preferred(catalogue, tones, entry)
    {
      var i := 0;
      while i < |tones|
        invariant i <= |tones| && Preferred(catalogue, tones, entry) == Preferred(catalogue, tones[i..], entry)
      {
        if OfEntry(catalogue, tones[i], entry) { return tones[i]; }
        assert tones[i..][1..] == tones[i + 1..];
        i := i + 1;
      }
      shown := catalogue.entries[entry].emoji;
    }

    method Hits(query: string, terms: seq<string>) returns (hits: seq<Key>)
      requires Valid() && terms != []
      ensures Rising(hits)
      ensures forall h | h in hits ::
                h.entry < |catalogue.entries| && h == KeyOf(catalogue, recent, query, terms, h.entry)
      ensures forall e: nat | e < |catalogue.entries| ::
                AnswersAll(catalogue.entries[e], terms) <==> KeyOf(catalogue, recent, query, terms, e) in hits
    {
      hits := [];
      var i := 0;
      while i < |catalogue.entries|
        invariant i <= |catalogue.entries| && Rising(hits)
        invariant forall h | h in hits :: h.entry < i && h == KeyOf(catalogue, recent, query, terms, h.entry)
        invariant forall e: nat | e < i ::
                    AnswersAll(catalogue.entries[e], terms) <==> KeyOf(catalogue, recent, query, terms, e) in hits
      {
        if AnswersAll(catalogue.entries[i], terms) {
          hits := hits + [KeyOf(catalogue, recent, query, terms, i)];
        }
        i := i + 1;
      }
    }

    method Matches(query: string, terms: seq<string>) returns (found: seq<nat>)
      requires Valid()
      ensures Found(catalogue, recent, query, terms, found)
    {
      found := [];
      if terms == [] { return; }
      var hits := Hits(query, terms);
      SortOrders(hits);
      var sorted := StableSort(hits);
      var i := 0;
      while i < |sorted|
        invariant i <= |sorted| == |sorted| && |found| == i
        invariant forall k | 0 <= k < i :: found[k] == sorted[k].entry
      {
        found := found + [sorted[i].entry];
        i := i + 1;
      }
      FoundAll(catalogue, recent, query, terms, hits, sorted, found);
    }

    method PreferredAll(entries: seq<nat>) returns (shown: seq<string>)
      requires forall k | 0 <= k < |entries| :: entries[k] < |catalogue.entries|
      ensures shown == PreferredEach(catalogue, tones, entries)
    {
      shown := [];
      var i := 0;
      while i < |entries|
        invariant i <= |entries| && shown == PreferredEach(catalogue, tones, entries[..i])
      {
        var p := PreferredOf(entries[i]);
        assert entries[..i + 1][..i] == entries[..i];
        shown := shown + [p];
        i := i + 1;
      }
      assert entries[..i] == entries;
    }

    // The list cut into rows.
    method Lay(section: string, entries: seq<nat>, shown: seq<string>) returns (laid: seq<Row>)
      requires columns > 0 && |shown| == |entries|
      ensures laid == Laid(section, entries, shown, 0, columns)
    {
      laid := [];
      var i := 0;
      while i < |entries|
        invariant laid + Laid(section, entries, shown, i, columns) == Laid(section, entries, shown, 0, columns)
        decreases |entries| - i
      {
        laid := laid + [Row(section, false, Cut(entries, i, columns), Cut(shown, i, columns))];
        i := i + columns;
      }
    }

    method Group(section: string, entries: seq<nat>, shown: seq<string>) returns (laid: seq<Row>)
      requires columns > 0 && |shown| == |entries|
      ensures laid == SectionRows(section, entries, shown, columns)
    {
      if entries == [] { return []; }
      laid := Lay(section, entries, shown);
      laid := [Row(section, true, [], [])] + laid;
    }

    method Recents() returns (forms: seq<string>, entries: seq<nat>)
      requires columns > 0
      ensures forms == Known(catalogue, recent, 2 * columns)
      ensures |entries| == |forms|
      ensures forall k | 0 <= k < |forms| ::
                forms[k] in catalogue.owner && entries[k] == catalogue.owner[forms[k]]
    {
      forms, entries := [], [];
      var i := 0;
      while i < |recent|
        invariant i <= |recent| && |entries| == |forms| <= 2 * columns
        invariant forall k | 0 <= k < |forms| :: forms[k] in catalogue.owner && entries[k] == catalogue.owner[forms[k]]
        invariant forms + Known(catalogue, recent[i..], 2 * columns - |forms|) == Known(catalogue, recent, 2 * columns)
      {
        if |forms| >= 2 * columns { break; }
        assert recent[i..][1..] == recent[i + 1..];
        if recent[i] in catalogue.owner {
          entries := entries + [catalogue.owner[recent[i]]];
          forms := forms + [recent[i]];
        }
        i := i + 1;
      }
    }

    method EntriesOf(group: string) returns (entries: seq<nat>)
      ensures entries == InGroup(catalogue, group, |catalogue.entries|)
    {
      entries := [];
      var i := 0;
      while i < |catalogue.entries|
        invariant i <= |catalogue.entries| && entries == InGroup(catalogue, group, i)
      {
        if catalogue.entries[i].group == group { entries := entries + [i]; }
        i := i + 1;
      }
    }

    method RecentLaid() returns (laid: seq<Row>)
      requires columns > 0
      ensures laid == RecentRows(catalogue, recent, columns)
    {
      var forms, owners := Recents();
      assert owners == Owners(catalogue, forms);
      laid := Group("recent", owners, forms);
    }

    method GroupLaid(group: string) returns (laid: seq<Row>)
      requires columns > 0
      ensures laid == SectionRows(group, InGroup(catalogue, group, |catalogue.entries|),
                        PreferredEach(catalogue, tones, InGroup(catalogue, group, |catalogue.entries|)), columns)
    {
      var entries := EntriesOf(group);
      var shown := PreferredAll(entries);
      laid := Group(group, entries, shown);
    }

    method BrowseRows(groups: seq<string>) returns (laid: seq<Row>)
      requires columns > 0
      ensures laid == RecentRows(catalogue, recent, columns) + GroupRows(catalogue, tones, columns, groups)
    {
      laid := RecentLaid();
      ghost var top := laid;
      var g := 0;
      assert groups[..0] == [] && top + [] == top;
      while g < |groups|
        invariant g <= |groups| && laid == top + GroupRows(catalogue, tones, columns, groups[..g])
      {
        var more := GroupLaid(groups[g]);
        OneMoreGroup(top, catalogue, tones, columns, groups, g);
        laid := laid + more;
        g := g + 1;
      }
      assert groups[..g] == groups;
    }

    // The headers of the rows, in order.
    method Headers(laid: seq<Row>) returns (found: seq<Section>)
      ensures Tabs(found, laid, |laid|)
    {
      found := [];
      var i := 0;
      while i < |laid|
        invariant i <= |laid| && Tabs(found, laid, i)
        invariant forall k | 0 <= k < |found| :: found[k].row < i
      {
        if laid[i].header { found := found + [Section(laid[i].section, i)]; }
        i := i + 1;
      }
    }

    method Rebuild()
      requires Valid()
      modifies `rows, `sections
      ensures UpToDate() && Tabs(sections, rows, |rows|)
      ensures Trim(filter) != "" ==> sections == []
      ensures Trim(filter) == "" ==>
                rows == RecentRows(catalogue, recent, columns) + GroupRows(catalogue, tones, columns, GROUPS)
    {
      ghost var entries: seq<nat>, drawn: seq<string> := [], [];
      if Trim(filter) != "" {
        var query := Lowered(Trim(filter), lower);
        var found := Matches(query, Split(query));
        FoundInside(catalogue, recent, query, Split(query), found);
        var shown := PreferredAll(found);
        rows := Lay("search", found, shown);
        entries, drawn := found, shown;
        assert SearchRows(catalogue, tones, columns, found, rows);
      } else {
        rows := BrowseRows(GROUPS);
      }
      sections := Headers(rows);
      if Trim(filter) != "" { NoTabsInASearch("search", entries, drawn, columns, sections); }
    }

    // The rows of a search are those the filter now asks for.
    ghost predicate UpToDate()
      requires CatalogueOk(catalogue)
      reads this
    {
      Trim(filter) != "" ==>
        var query := Lowered(Trim(filter), lower);
        exists found :: Found(catalogue, recent, query, Split(query), found)
                        && SearchRows(catalogue, tones, columns, found, rows)
    }

    // What Enter picks.
    method FirstMatch() returns (form: string)
      ensures Trim(filter) == "" ==> form == ""
      ensures Trim(filter) != "" && Valid() && UpToDate() ==>
                Picked(catalogue, recent, tones, Lowered(Trim(filter), lower), form)
    {
      if Trim(filter) != "" && Valid() && UpToDate() {
        TheFirstCellIsPicked(catalogue, recent, tones, columns, Lowered(Trim(filter), lower), rows);
      }
      if Trim(filter) == "" || rows == [] || rows[0].shown == [] { return ""; }
      form := rows[0].shown[0];
    }

    method Use(form: string)
      modifies `recent
      ensures recent == if !settings || form == "" then old(recent) else UsedNow(old(recent), form)
    {
      if !settings || form == "" { return; }
      recent := UsedNow(recent, form);
    }

    method UseTone(base: string, form: string)
      requires Valid()
      modifies `recent, `tones
      ensures tones == if settings && base in catalogue.owner
                       then Toned(catalogue, old(tones), catalogue.owner[base], form) else old(tones)
      ensures recent == if settings && base in catalogue.owner && form != ""
                        then UsedNow(old(recent), form) else old(recent)
    {
      if !settings || base !in catalogue.owner { return; }
      tones := Toned(catalogue, tones, catalogue.owner[base], form);
      Use(form);
    }
  }

  lemma FoundInside(c: Catalogue, recent: seq<string>, query: string, terms: seq<string>, found: seq<nat>)
    requires CatalogueOk(c) && Found(c, recent, query, terms, found)
    ensures forall k | 0 <= k < |found| :: found[k] < |c.entries|
  {
    forall k | 0 <= k < |found| ensures found[k] < |c.entries| { assert found[k] in found; }
  }

  lemma FoundAll(c: Catalogue, recent: seq<string>, query: string, terms: seq<string>, hits: seq<Key>,
                 sorted: seq<Key>, found: seq<nat>)
    requires CatalogueOk(c) && terms != [] && InOrder(sorted) && multiset(sorted) == multiset(hits)
    requires forall h | h in hits :: h.entry < |c.entries| && h == KeyOf(c, recent, query, terms, h.entry)
    requires forall e: nat | e < |c.entries| ::
               AnswersAll(c.entries[e], terms) <==> KeyOf(c, recent, query, terms, e) in hits
    requires |found| == |sorted| && forall k | 0 <= k < |found| :: found[k] == sorted[k].entry
    ensures Found(c, recent, query, terms, found)
  {
    forall k | 0 <= k < |sorted| ensures sorted[k] in hits { assert sorted[k] in multiset(sorted); }
    forall e: nat ensures e in found <==> e < |c.entries| && AnswersAll(c.entries[e], terms) {
      if e in found {
        var k :| 0 <= k < |found| && found[k] == e;
        assert sorted[k] in hits;
      }
      if e < |c.entries| && AnswersAll(c.entries[e], terms) {
        var key := KeyOf(c, recent, query, terms, e);
        assert key in multiset(hits) && key in multiset(sorted);
        var k :| 0 <= k < |sorted| && sorted[k] == key;
        assert found[k] == e;
      }
    }
  }
}
