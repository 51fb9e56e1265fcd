// The chat list: sorted rows, kept sorted by moving one row at a time.

module ChatOrder {
  // A UTF-16 code unit: JIDs are compared unit by unit.
  newtype Unit = x: int | 0 <= x < 0x1_0000

  type Jid = seq<Unit>

  // One chat's entry; about is everything else the backend says of it.
  datatype Item = Item(jid: Jid, order: int, about: map<string, string>)

  type Chats = map<Jid, Item>

  predicate JidLess(a: Jid, b: Jid) {
    if b == [] then false
    else if a == [] then true
    else if a[0] != b[0] then a[0] < b[0]
    else JidLess(a[1..], b[1..])
  }

  // A higher order stands above a lower one, and equals go by their JIDs.
  predicate LessThan(a: Item, b: Item) {
    if a.order != b.order then a.order > b.order else JidLess(a.jid, b.jid)
  }

  lemma {:induction false} JidsCompare(a: Jid, b: Jid)
    ensures JidLess(a, b) || JidLess(b, a) || a == b
    ensures !(JidLess(a, b) && JidLess(b, a))
    ensures !JidLess(a, a)
    decreases |a|
  {
    if a != [] && b != [] && a[0] == b[0] {
      JidsCompare(a[1..], b[1..]);
      assert a == [a[0]] + a[1..] && b == [b[0]] + b[1..];
    }
    if a != [] {
      JidsCompare(a[1..], a[1..]);
    }
  }

  lemma {:induction false} JidsChain(a: Jid, b: Jid, c: Jid)
    requires JidLess(a, b) && JidLess(b, c)
    ensures JidLess(a, c)
    decreases |a|
  {
    if a != [] && b != [] && c != [] && a[0] == b[0] && b[0] == c[0] {
      JidsChain(a[1..], b[1..], c[1..]);
    }
  }

  lemma LessThanOrders(a: Item, b: Item, c: Item)
    ensures LessThan(a, b) || LessThan(b, a) || (a.order == b.order && a.jid == b.jid)
    ensures !(LessThan(a, b) && LessThan(b, a)) && !LessThan(a, a)
    ensures LessThan(a, b) && LessThan(b, c) ==> LessThan(a, c)
  {
    JidsCompare(a.jid, b.jid);
    JidsCompare(a.jid, a.jid);
    if JidLess(a.jid, b.jid) && JidLess(b.jid, c.jid) { JidsChain(a.jid, b.jid, c.jid); }
  }

  // a comes first where the two first differ, or is where b begins.
  ghost predicate DiffersAt(a: Jid, b: Jid, k: nat) {
    && k <= |a| && k < |b| && a[..k] == b[..k]
    && (k == |a| || a[k] < b[k])
  }

  lemma {:induction false} JidLessIsLexicographic(a: Jid, b: Jid)
    ensures JidLess(a, b) <==> exists k: nat :: DiffersAt(a, b, k)
    decreases |a|
  {
    if a != [] && b != [] && a[0] == b[0] {
      JidLessIsLexicographic(a[1..], b[1..]);
      if k: nat :| DiffersAt(a[1..], b[1..], k) {
        assert a[..k + 1] == [a[0]] + a[1..][..k] && b[..k + 1] == [b[0]] + b[1..][..k];
        assert DiffersAt(a, b, k + 1);
      }
      if k: nat :| DiffersAt(a, b, k) {
        SameStart(a, b, k);
        assert a[1..][..k - 1] == a[..k][1..] && b[1..][..k - 1] == b[..k][1..];
        assert DiffersAt(a[1..], b[1..], k - 1);
      }
    } else {
      if b != [] && (a == [] || a[0] < b[0]) { assert DiffersAt(a, b, 0); }
      if k: nat :| DiffersAt(a, b, k) { SameStart(a, b, k); }
    }
  }

  lemma SameStart(a: Jid, b: Jid, k: nat)
    requires DiffersAt(a, b, k)
    ensures b != [] && if k > 0 then a != [] && a[0] == b[0] else a == [] || a[0] < b[0]
  {
    if k > 0 { assert a[..k][0] == b[..k][0]; }
  }

  // ------------------------------------------------------------------- the rows

  ghost predicate Sorted(rows: seq<Item>) {
    forall i, j | 0 <= i < j < |rows| :: LessThan(rows[i], rows[j])
  }

  ghost predicate Apart(rows: seq<Item>) {
    forall i, j | 0 <= i < j < |rows| :: rows[i].jid != rows[j].jid
  }

  ghost predicate Lists(rows: seq<Item>, m: Chats) {
    && (forall i | 0 <= i < |rows| :: rows[i].jid in m && m[rows[i].jid] == rows[i])
    && (forall j | j in m :: exists i :: 0 <= i < |rows| && rows[i].jid == j)
  }

  // What stands higher has the larger order, or the lesser JID at the same.
  lemma SortedMeans(rows: seq<Item>, i: nat, j: nat)
    requires Sorted(rows) && i < j < |rows|
    ensures rows[i].order > rows[j].order
            || (rows[i].order == rows[j].order && exists k: nat :: DiffersAt(rows[i].jid, rows[j].jid, k))
  {
    JidLessIsLexicographic(rows[i].jid, rows[j].jid);
  }

  // The rows are the sorted listing of the map, each chat once.
  ghost predicate Shows(rows: seq<Item>, m: Chats) { Sorted(rows) && Apart(rows) && Lists(rows, m) }

  function WithoutAt(rows: seq<Item>, at: nat): (less: seq<Item>)
    requires at < |rows|
    ensures |less| == |rows| - 1
    ensures forall i | 0 <= i < |less| :: less[i] == rows[if i < at then i else i + 1]
  {
    rows[..at] + rows[at + 1..]
  }

  function WithAt(rows: seq<Item>, at: nat, item: Item): (more: seq<Item>)
    requires at <= |rows|
    ensures |more| == |rows| + 1 && more[at] == item
    ensures forall i | 0 <= i < |more| && i != at :: more[i] == rows[if i < at then i else i - 1]
  {
    rows[..at] + [item] + rows[at..]
  }

  // The first row the entry belongs ahead of.
  ghost predicate BelongsAt(rows: seq<Item>, item: Item, at: nat) {
    && at <= |rows| && (forall i | 0 <= i < at :: !LessThan(item, rows[i]))
    && (at < |rows| ==> LessThan(item, rows[at]))
  }

  lemma InsertKeepsSorted(rows: seq<Item>, item: Item, at: nat)
    requires Sorted(rows) && BelongsAt(rows, item, at)
    requires forall i | 0 <= i < |rows| :: rows[i].jid != item.jid
    ensures Sorted(WithAt(rows, at, item))
  {
    forall i | 0 <= i < at ensures LessThan(rows[i], item) {
      LessThanOrders(rows[i], item, item);
    }
    forall i | at <= i < |rows| ensures LessThan(item, rows[i]) {
      LessThanOrders(item, rows[at], rows[i]);
    }
  }

  lemma RemoveShows(rows: seq<Item>, m: Chats, at: nat)
    requires Shows(rows, m) && at < |rows|
    ensures Shows(WithoutAt(rows, at), m - {rows[at].jid})
  {
    var less, n := WithoutAt(rows, at), m - {rows[at].jid};
    forall j | j in n ensures exists i :: 0 <= i < |less| && less[i].jid == j {
      var i :| 0 <= i < |rows| && rows[i].jid == j;
      assert less[if i < at then i else i - 1].jid == j;
    }
  }

  lemma InsertShows(rows: seq<Item>, m: Chats, item: Item, at: nat)
    requires Shows(rows, m) && item.jid !in m && BelongsAt(rows, item, at)
    ensures Shows(WithAt(rows, at, item), m[item.jid := item])
  {
    InsertKeepsSorted(rows, item, at);
    InsertLists(rows, m, item, at);
  }

  lemma InsertLists(rows: seq<Item>, m: Chats, item: Item, at: nat)
    requires Apart(rows) && Lists(rows, m) && item.jid !in m && at <= |rows|
    ensures Apart(WithAt(rows, at, item)) && Lists(WithAt(rows, at, item), m[item.jid := item])
  {
    var more, n := WithAt(rows, at, item), m[item.jid := item];
    forall j | j in n ensures exists i :: 0 <= i < |more| && more[i].jid == j {
      if j == item.jid {
        assert more[at].jid == j;
      } else {
        var i :| 0 <= i < |rows| && rows[i].jid == j;
        assert more[if i < at then i else i + 1].jid == j;
      }
    }
  }

  // Taking the entry's old row out and putting the new one where it belongs.
  lemma MoveShows(rows: seq<Item>, m: Chats, item: Item, old_: nat, at: nat)
    requires Shows(rows, m) && old_ < |rows| && rows[old_].jid == item.jid
    requires BelongsAt(WithoutAt(rows, old_), item, at)
    ensures Shows(WithAt(WithoutAt(rows, old_), at, item), m[item.jid := item])
  {
    RemoveShows(rows, m, old_);
    InsertShows(WithoutAt(rows, old_), m - {item.jid}, item, at);
    assert (m - {item.jid})[item.jid := item] == m[item.jid := item];
  }

  function Front(rows: seq<Item>): seq<Item>
    requires rows != []
  {
    WithoutAt(rows, |rows| - 1)
  }

  // There is only one sorted listing of a map.
  lemma {:induction false} OneListing(a: seq<Item>, b: seq<Item>, m: Chats)
    requires Shows(a, m) && Shows(b, m)
    ensures a == b
    decreases |a|
  {
    if a != [] {
      SameEnd(a, b, m);
      FrontsShow(a, b, m);
      OneListing(Front(a), Front(b), m - {a[|a| - 1].jid});
      FrontsAndEnds(a, b);
    } else if b != [] {
      SameEnd(b, a, m);
    }
  }

  lemma FrontsShow(a: seq<Item>, b: seq<Item>, m: Chats)
    requires Shows(a, m) && Shows(b, m) && a != [] && b != [] && a[|a| - 1] == b[|b| - 1]
    ensures Shows(Front(a), m - {a[|a| - 1].jid}) && Shows(Front(b), m - {a[|a| - 1].jid})
  {
    RemoveShows(a, m, |a| - 1);
    RemoveShows(b, m, |b| - 1);
  }

  lemma FrontsAndEnds(a: seq<Item>, b: seq<Item>)
    requires a != [] && b != [] && a[|a| - 1] == b[|b| - 1] && Front(a) == Front(b)
    ensures a == b
  {
    assert |Front(a)| == |Front(b)|;
    forall i | 0 <= i < |a| - 1 ensures a[i] == b[i] {
      assert Front(a)[i] == a[i] && Front(b)[i] == b[i];
    }
  }

  lemma SameEnd(a: seq<Item>, b: seq<Item>, m: Chats)
    requires Shows(a, m) && Shows(b, m) && a != []
    ensures b != [] && a[|a| - 1] == b[|b| - 1]
  {
    var x := a[|a| - 1];
    var i :| 0 <= i < |b| && b[i].jid == x.jid;
    var y := b[|b| - 1];
    var k :| 0 <= k < |a| && a[k].jid == y.jid;
    assert b[i] == x && a[k] == y;
    LessThanOrders(x, y, x);
  }

  // ------------------------------------------------------------- whole listings

  function InsertPos(rows: seq<Item>, item: Item): (at: nat)
    ensures at <= |rows| && (at < |rows| ==> LessThan(item, rows[at]))
    ensures forall i | 0 <= i < at :: !LessThan(item, rows[i])
  {
    if rows == [] then 0
    else
      var at := InsertPos(rows[..|rows| - 1], item);
      if at < |rows| - 1 then at else if LessThan(item, rows[|rows| - 1]) then |rows| - 1 else |rows|
  }

  // The library's sort, as far as the order it leaves.
  function Sort(entries: seq<Item>): seq<Item> {
    if entries == [] then []
    else
      var rows, item := Sort(entries[..|entries| - 1]), entries[|entries| - 1];
      WithAt(rows, InsertPos(rows, item), item)
  }

  function Mapped(entries: seq<Item>): Chats {
    if entries == [] then map[]
    else Mapped(entries[..|entries| - 1])[entries[|entries| - 1].jid := entries[|entries| - 1]]
  }

  lemma {:induction false} MappedKeys(entries: seq<Item>, jid: Jid)
    ensures jid in Mapped(entries) <==> exists i :: 0 <= i < |entries| && entries[i].jid == jid
  {
    if entries != [] { MappedKeys(entries[..|entries| - 1], jid); }
  }

  lemma {:induction false} SortShows(entries: seq<Item>)
    requires Apart(entries)
    ensures Shows(Sort(entries), Mapped(entries))
  {
    if entries != [] {
      var init, item := entries[..|entries| - 1], entries[|entries| - 1];
      SortShows(init);
      MappedKeys(init, item.jid);
      InsertShows(Sort(init), Mapped(init), item, InsertPos(Sort(init), item));
    }
  }

  // -------------------------------------------------------------------- any run

  datatype Change = Put(item: Item) | Drop(jid: Jid)

  function IndexOf(rows: seq<Item>, jid: Jid): (i: int)
    ensures -1 <= i < |rows|
    ensures i >= 0 ==> rows[i].jid == jid
    ensures forall j | 0 <= j < (if i >= 0 then i else |rows|) :: rows[j].jid != jid
  {
    if rows == [] then -1
    else
      var i := IndexOf(rows[..|rows| - 1], jid);
      if i >= 0 then i else if rows[|rows| - 1].jid == jid then |rows| - 1 else -1
  }

  // An entry without a JID is no entry.
  function Stepped(rows: seq<Item>, c: Change): seq<Item> {
    match c
    case Put(item) =>
      if item.jid == [] then rows
      else
        var i := IndexOf(rows, item.jid);
        var others := if i < 0 then rows else WithoutAt(rows, i);
        WithAt(others, InsertPos(others, item), item)
    case Drop(jid) =>
      var i := IndexOf(rows, jid);
      if i < 0 then rows else WithoutAt(rows, i)
  }

  function Told(m: Chats, c: Change): Chats {
    match c
    case Put(item) => if item.jid == [] then m else m[item.jid := item]
    case Drop(jid) => m - {jid}
  }

  function Run(rows: seq<Item>, changes: seq<Change>): seq<Item>
    decreases |changes|
  {
    if changes == [] then rows else Run(Stepped(rows, changes[0]), changes[1..])
  }

  function ToldAll(m: Chats, changes: seq<Change>): Chats
    decreases |changes|
  {
    if changes == [] then m else ToldAll(Told(m, changes[0]), changes[1..])
  }

  lemma Unlisted(rows: seq<Item>, m: Chats, jid: Jid)
    requires Lists(rows, m)
    ensures IndexOf(rows, jid) < 0 <==> jid !in m
  {
    var i := IndexOf(rows, jid);
    assert i >= 0 ==> rows[i].jid in m;
  }

  lemma StepShows(rows: seq<Item>, m: Chats, c: Change)
    requires Shows(rows, m)
    ensures Shows(Stepped(rows, c), Told(m, c))
  {
    match c {
      case Put(item) =>
        var i := IndexOf(rows, item.jid);
        Unlisted(rows, m, item.jid);
        if item.jid != [] {
          if i < 0 {
            InsertShows(rows, m, item, InsertPos(rows, item));
          } else {
            MoveShows(rows, m, item, i, InsertPos(WithoutAt(rows, i), item));
          }
        }
      case Drop(jid) =>
        var i := IndexOf(rows, jid);
        Unlisted(rows, m, jid);
        if i >= 0 { RemoveShows(rows, m, i); } else { assert m - {jid} == m; }
    }
  }

  lemma {:induction false} RunShows(rows: seq<Item>, m: Chats, changes: seq<Change>)
    requires Shows(rows, m)
    ensures Shows(Run(rows, changes), ToldAll(m, changes))
    decreases |changes|
  {
    if changes != [] {
      StepShows(rows, m, changes[0]);
      RunShows(Stepped(rows, changes[0]), Told(m, changes[0]), changes[1..]);
    }
  }

  // From any list of distinct chats, whatever comes and goes: the rows are the
  // one sorted listing of what the map of entries would hold, so how each row
  // got to its place leaves no trace.
  lemma TheListIsTheMap(entries: seq<Item>, changes: seq<Change>, rows: seq<Item>)
    requires Apart(entries)
    ensures Shows(rows, ToldAll(Mapped(entries), changes)) <==> rows == Run(Sort(entries), changes)
  {
    SortShows(entries);
    RunShows(Sort(entries), Mapped(entries), changes);
    if Shows(rows, ToldAll(Mapped(entries), changes)) {
      OneListing(rows, Run(Sort(entries), changes), ToldAll(Mapped(entries), changes));
    }
  }

  // Moving a row and overwriting it is taking it out and putting the new one in.
  lemma MovedThere(rows: seq<Item>, row: nat, target: nat, entry: Item)
    requires row < |rows| && target < |rows|
    ensures var others := WithoutAt(rows, row);
            var moved := if target != row then WithAt(others, target, rows[row]) else rows;
            moved[target := entry] == WithAt(others, target, entry)
  {
    var others := WithoutAt(rows, row);
    var moved := if target != row then WithAt(others, target, rows[row]) else rows;
    var put := WithAt(others, target, entry);
    forall i | 0 <= i < |put| ensures moved[target := entry][i] == put[i] {}
  }
}

module ChatListModel {
  import opened ChatOrder

  class ChatListModel {
    var items: seq<Item>

    constructor ()
      ensures items == []
    {
      items := [];
    }

    method IndexOfJid(jid: Jid) returns (row: int)
      ensures row == IndexOf(items, jid)
    {
      row := 0;
      while row < |items|
        invariant 0 <= row <= |items|
        invariant forall j | 0 <= j < row :: items[j].jid != jid
      {
        if items[row].jid == jid { return; }
        row := row + 1;
      }
      row := -1;
    }

    method FindPos(entry: Item) returns (at: nat)
      ensures at == InsertPos(items, entry)
    {
      at := 0;
      while at < |items|
        invariant at <= |items|
        invariant forall j | 0 <= j < at :: !LessThan(entry, items[j])
      {
        if LessThan(entry, items[at]) { return; }
        at := at + 1;
      }
    }

    method ApplyList(entries: seq<Item>)
      modifies this
      ensures items == Sort(entries)
    {
      items := Sort(entries);
    }

    // The index the entry takes once its own row is out of the way.
    method TargetOf(entry: Item, row: nat) returns (target: nat)
      requires row < |items|
      ensures target == InsertPos(WithoutAt(items, row), entry)
    {
      ghost var others := WithoutAt(items, row);
      target := 0;
      var i := 0;
      while i < |items|
        invariant 0 <= i <= |items| && target == (if i <= row then i else i - 1)
        invariant forall j | 0 <= j < target :: !LessThan(entry, others[j])
      {
        if i == row {
          i := i + 1;
          continue;
        }
        assert others[target] == items[i];
        if LessThan(entry, items[i]) { break; }
        target := target + 1;
        i := i + 1;
      }
    }

    // A row already there is moved and overwritten, never taken out.
    method ApplyItem(entry: Item)
      modifies this
      ensures items == Stepped(old(items), Put(entry))
    {
      if entry.jid == [] { return; }
      var row := IndexOfJid(entry.jid);
      if row < 0 {
        var at := FindPos(entry);
        items := WithAt(items, at, entry);
        return;
      }
      var target := TargetOf(entry, row);
      var others := WithoutAt(items, row);
      if target != row {
        items := WithAt(others, target, items[row]);
      }
      MovedThere(old(items), row, target, entry);
      items := items[target := entry];
    }

    method ApplyRemove(jid: Jid)
      modifies this
      ensures items == Stepped(old(items), Drop(jid))
    {
      var row := IndexOfJid(jid);
      if row < 0 { return; }
      items := WithoutAt(items, row);
    }
  }
}
