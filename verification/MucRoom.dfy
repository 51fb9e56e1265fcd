// The people in a room. A new list is reached from the old by small changes, so
// that a view hears of moves and updates rather than of a reset.

module RoomRows {
  import opened Picks

  datatype Person = Person(key: string, nick: string, realJid: string, about: map<string, string>)

  // What a view is told, in order.
  datatype Change =
    | Remove(at: nat)
    | Move(at: nat, onto: nat)
    | Update(at: nat, person: Person)
    | Insert(at: nat, person: Person)

  predicate Fits(rows: seq<Person>, c: Change) {
    && c.at <= |rows|
    && (!c.Insert? ==> c.at < |rows|)
    && (c.Move? ==> c.onto < c.at)
    && (c.Update? ==> rows[c.at].key == c.person.key)
  }

  function MovedUp(rows: seq<Person>, at: nat, onto: nat): (moved: seq<Person>)
    requires onto <= at < |rows|
    ensures |moved| == |rows| && moved[onto] == rows[at] && moved[..onto] == rows[..onto]
  {
    rows[..onto] + [rows[at]] + rows[onto..at] + rows[at + 1..]
  }

  function InsertedAt(rows: seq<Person>, at: nat, p: Person): (more: seq<Person>)
    requires at <= |rows|
    ensures |more| == |rows| + 1 && more[at] == p && more[..at] == rows[..at] && more[at + 1..] == rows[at..]
  {
    rows[..at] + [p] + rows[at..]
  }

  function Changed(rows: seq<Person>, c: Change): seq<Person>
    requires Fits(rows, c)
  {
    if c.Remove? then rows[..c.at] + rows[c.at + 1..]
    else if c.Move? then MovedUp(rows, c.at, c.onto)
    else if c.Update? then rows[c.at := c.person]
    else InsertedAt(rows, c.at, c.person)
  }

  ghost predicate AllFit(rows: seq<Person>, changes: seq<Change>)
    decreases |changes|, 0
  {
    changes == [] || (AllFit(rows, changes[..|changes| - 1])
                      && Fits(Replayed(rows, changes[..|changes| - 1]), changes[|changes| - 1]))
  }

  // A view that follows the changes ends up with these rows.
  ghost function Replayed(rows: seq<Person>, changes: seq<Change>): seq<Person>
    requires AllFit(rows, changes)
    decreases |changes|, 1
  {
    if changes == [] then rows
    else Changed(Replayed(rows, changes[..|changes| - 1]), changes[|changes| - 1])
  }

  lemma ReplaysOn(rows: seq<Person>, changes: seq<Change>, c: Change)
    requires AllFit(rows, changes) && Fits(Replayed(rows, changes), c)
    ensures AllFit(rows, changes + [c]) && Replayed(rows, changes + [c]) == Changed(Replayed(rows, changes), c)
  {
    assert (changes + [c])[..|changes|] == changes;
  }

  // ------------------------------------------------------------------- the filter

  predicate Contains(s: string, part: string) {
    exists i | 0 <= i <= |s| - |part| :: FoundAt(s, part, i)
  }

  predicate FoundAt(s: string, part: string, i: nat)
    requires i + |part| <= |s|
  {
    s[i..i + |part|] == part
  }

  function FoldAll(s: string, fold: char -> char): (t: string)
    ensures |t| == |s| && forall i | 0 <= i < |s| :: t[i] == fold(s[i])
  {
    seq(|s|, i requires 0 <= i < |s| => fold(s[i]))
  }

  // fold is the case folding the search ignores.
  predicate Matches(p: Person, filter: string, fold: char -> char) {
    filter == "" || Contains(FoldAll(p.nick, fold), FoldAll(filter, fold))
    || Contains(FoldAll(p.realJid, fold), FoldAll(filter, fold))
  }

  function Filtered(people: seq<Person>, filter: string, fold: char -> char): seq<Person> {
    if people == [] then []
    else Filtered(people[..|people| - 1], filter, fold)
         + (if Matches(people[|people| - 1], filter, fold) then [people[|people| - 1]] else [])
  }

  // part stands at i in text, letter for letter but for their case.
  predicate SaysAt(text: string, part: string, fold: char -> char, i: nat) {
    i + |part| <= |text| && forall j | 0 <= j < |part| :: fold(text[i + j]) == fold(part[j])
  }

  // A person matches by nickname or by address.
  predicate Sought(p: Person, filter: string, fold: char -> char) {
    (exists i | 0 <= i <= |p.nick| :: SaysAt(p.nick, filter, fold, i))
    || exists i | 0 <= i <= |p.realJid| :: SaysAt(p.realJid, filter, fold, i)
  }

  lemma ContainsSays(text: string, part: string, fold: char -> char)
    ensures Contains(FoldAll(text, fold), FoldAll(part, fold)) <==>
              exists i :: 0 <= i <= |text| && SaysAt(text, part, fold, i)
  {
    var t, p := FoldAll(text, fold), FoldAll(part, fold);
    if i :| 0 <= i <= |t| - |p| && FoundAt(t, p, i) {
      forall j | 0 <= j < |part| ensures fold(text[i + j]) == fold(part[j]) {
        assert t[i..i + |p|][j] == p[j];
      }
      assert SaysAt(text, part, fold, i);
    }
    if i :| 0 <= i <= |text| && SaysAt(text, part, fold, i) {
      assert t[i..i + |p|] == p;
      assert FoundAt(t, p, i);
    }
  }

  lemma MatchesMeans(p: Person, filter: string, fold: char -> char)
    ensures Matches(p, filter, fold) <==> Sought(p, filter, fold)
  {
    ContainsSays(p.nick, filter, fold);
    ContainsSays(p.realJid, filter, fold);
    if filter == "" { assert SaysAt(p.nick, filter, fold, 0); }
  }

  function Seeker(filter: string, fold: char -> char): (kept: Person -> bool)
    ensures forall p :: kept(p) <==> Sought(p, filter, fold)
  {
    (p: Person) => Sought(p, filter, fold)
  }

  lemma FilteredMore(init: seq<Person>, last: Person, filter: string, fold: char -> char)
    requires Sifted(init, Filtered(init, filter, fold), Seeker(filter, fold))
    ensures Sifted(init + [last], Filtered(init + [last], filter, fold), Seeker(filter, fold))
  {
    assert (init + [last])[..|init|] == init;
    MatchesMeans(last, filter, fold);
    SiftedOn(init, Filtered(init, filter, fold), Seeker(filter, fold), last);
    assert Filtered(init, filter, fold) + [] == Filtered(init, filter, fold);
  }

  // The people sought, each of them, in the order they came in.
  lemma {:induction false} FilteredMeans(people: seq<Person>, filter: string, fold: char -> char)
    ensures Sifted(people, Filtered(people, filter, fold), Seeker(filter, fold))
  {
    if people == [] {
      SiftedNone(Seeker(filter, fold));
    } else {
      var init, last := people[..|people| - 1], people[|people| - 1];
      assert people == init + [last];
      FilteredMeans(init, filter, fold);
      FilteredMore(init, last, filter, fold);
    }
  }

  // --------------------------------------------------------------------- the keys

  function KeyList(rows: seq<Person>): (k: seq<string>)
    ensures |k| == |rows| && forall i | 0 <= i < |rows| :: k[i] == rows[i].key
  {
    seq(|rows|, i requires 0 <= i < |rows| => rows[i].key)
  }

  // How often each key stands in the rows.
  function Keys(rows: seq<Person>): multiset<string> { multiset(KeyList(rows)) }

  lemma KeysJoin(a: seq<Person>, b: seq<Person>)
    ensures Keys(a + b) == Keys(a) + Keys(b)
  {
    assert KeyList(a + b) == KeyList(a) + KeyList(b);
  }

  lemma KeysAround(lo: seq<Person>, x: Person, hi: seq<Person>)
    ensures Keys(lo + [x] + hi) == Keys(lo) + multiset{x.key} + Keys(hi)
  {
    assert KeyList(lo + [x] + hi) == KeyList(lo) + [x.key] + KeyList(hi);
  }

  lemma KeysSplit(rows: seq<Person>, at: nat)
    requires at < |rows|
    ensures Keys(rows[at..]) == multiset{rows[at].key} + Keys(rows[at + 1..])
  {
    assert KeyList(rows[at..]) == [rows[at].key] + KeyList(rows[at + 1..]);
  }

  lemma KeyIn(rows: seq<Person>, key: string)
    ensures key in Keys(rows) <==> exists i :: 0 <= i < |rows| && rows[i].key == key
  {
    var k := KeyList(rows);
    assert key in multiset(k) <==> key in k;
    forall i | 0 <= i < |rows| && rows[i].key == key ensures key in k { assert k[i] == key; }
  }

  lemma KeysAfterRemove(rows: seq<Person>, at: nat)
    requires at < |rows|
    ensures Keys(Changed(rows, Remove(at))) + multiset{rows[at].key} == Keys(rows)
  {
    KeysAround(rows[..at], rows[at], rows[at + 1..]);
    KeysJoin(rows[..at], rows[at + 1..]);
    assert rows == rows[..at] + [rows[at]] + rows[at + 1..];
  }

  lemma KeysAfterUpdate(rows: seq<Person>, at: nat, p: Person)
    requires Fits(rows, Update(at, p))
    ensures KeyList(Changed(rows, Update(at, p))) == KeyList(rows)
  {}

  lemma KeysAfterInsert(rows: seq<Person>, at: nat, p: Person)
    requires at <= |rows|
    ensures Keys(Changed(rows, Insert(at, p))) == Keys(rows) + multiset{p.key}
  {
    KeysAround(rows[..at], p, rows[at..]);
    KeysJoin(rows[..at], rows[at..]);
    assert rows == rows[..at] + rows[at..];
  }

  lemma KeysAfterMove(rows: seq<Person>, at: nat, onto: nat)
    requires onto < at < |rows|
    ensures Keys(Changed(rows, Move(at, onto))) == Keys(rows)
  {
    var k := KeyList(rows);
    assert k == k[..onto] + k[onto..at] + [k[at]] + k[at + 1..];
    assert KeyList(MovedUp(rows, at, onto)) == k[..onto] + [k[at]] + k[onto..at] + k[at + 1..];
  }

  // ------------------------------------------------------------ gentle changes

  // A row goes only when its key is not wanted at all, and comes only when its
  // key stands less often than it is wanted: a row that stays is never taken out
  // and put back.
  ghost predicate Gentle(rows: seq<Person>, c: Change, next: seq<Person>)
    requires Fits(rows, c)
  {
    && (c.Remove? ==> rows[c.at].key !in Keys(next))
    && (c.Insert? ==> Keys(rows)[c.person.key] < Keys(next)[c.person.key])
  }

  ghost predicate AllGentle(rows: seq<Person>, changes: seq<Change>, next: seq<Person>)
    requires AllFit(rows, changes)
    decreases |changes|
  {
    changes == [] || (AllGentle(rows, changes[..|changes| - 1], next)
                      && Gentle(Replayed(rows, changes[..|changes| - 1]), changes[|changes| - 1], next))
  }

  // The rows before and after, and a gentle way from one to the other.
  ghost predicate Leads(was: seq<Person>, told: seq<Change>, now: seq<Person>, next: seq<Person>) {
    && AllFit(was, told) && Replayed(was, told) == now && AllGentle(was, told, next)
    && forall key | key in Keys(next) :: Keys(was)[key] <= Keys(now)[key]
  }

  lemma KeepsCount(rows: seq<Person>, c: Change, next: seq<Person>)
    requires Fits(rows, c) && Gentle(rows, c, next)
    ensures forall key | key in Keys(next) :: Keys(rows)[key] <= Keys(Changed(rows, c))[key]
  {
    if c.Remove? {
      KeysAfterRemove(rows, c.at);
    } else if c.Move? {
      KeysAfterMove(rows, c.at, c.onto);
    } else if c.Update? {
      KeysAfterUpdate(rows, c.at, c.person);
    } else {
      KeysAfterInsert(rows, c.at, c.person);
    }
  }

  lemma LeadsOn(was: seq<Person>, told: seq<Change>, now: seq<Person>, next: seq<Person>, c: Change)
    requires Leads(was, told, now, next) && Fits(now, c) && Gentle(now, c, next)
    ensures Leads(was, told + [c], Changed(now, c), next)
  {
    ReplaysOn(was, told, c);
    assert (told + [c])[..|told|] == told;
    KeepsCount(now, c, next);
  }

  lemma LeadsNowhere(rows: seq<Person>, next: seq<Person>)
    ensures Leads(rows, [], rows, next)
  {}

  // The rows hold nothing more often than it is wanted.
  ghost predicate Reachable(rows: seq<Person>, next: seq<Person>) {
    forall key | key in Keys(next) :: Keys(rows)[key] <= Keys(next)[key]
  }

  ghost predicate Distinct(rows: seq<Person>) { forall key :: Keys(rows)[key] <= 1 }

  lemma DistinctReaches(rows: seq<Person>, next: seq<Person>)
    requires Distinct(rows)
    ensures Reachable(rows, next)
  {}

  lemma {:induction false} StillThere(was: seq<Person>, told: seq<Change>, next: seq<Person>)
    requires AllFit(was, told) && AllGentle(was, told, next)
    ensures forall key | key in Keys(next) :: Keys(was)[key] <= Keys(Replayed(was, told))[key]
    decreases |told|
  {
    if told != [] {
      StillThere(was, told[..|told| - 1], next);
      KeepsCount(Replayed(was, told[..|told| - 1]), told[|told| - 1], next);
    }
  }

  // With every key wanted once, nothing put in was there before.
  lemma {:induction false} NoneComesBack(was: seq<Person>, told: seq<Change>, next: seq<Person>, i: nat)
    requires AllFit(was, told) && AllGentle(was, told, next) && Distinct(next)
    requires i < |told| && told[i].Insert?
    ensures told[i].person.key !in Keys(was)
    decreases |told|
  {
    if i < |told| - 1 {
      NoneComesBack(was, told[..|told| - 1], next, i);
    } else {
      StillThere(was, told[..i], next);
      LastIsNew(was, Replayed(was, told[..i]), next, told[i]);
    }
  }

  lemma LastIsNew(was: seq<Person>, now: seq<Person>, next: seq<Person>, c: Change)
    requires Distinct(next) && Fits(now, c) && Gentle(now, c, next) && c.Insert?
    requires forall key | key in Keys(next) :: Keys(was)[key] <= Keys(now)[key]
    ensures c.person.key !in Keys(was)
  {
    assert Keys(next)[c.person.key] <= 1;
  }

  // ----------------------------------------------------------- one change at a time

  lemma TailKeysAfterMove(rows: seq<Person>, at: nat, onto: nat)
    requires onto < at < |rows|
    ensures Keys(rows[onto..]) == Keys(MovedUp(rows, at, onto)[onto + 1..]) + multiset{rows[at].key}
  {
    var lo, hi := rows[onto..at], rows[at + 1..];
    assert rows[onto..] == lo + [rows[at]] + hi;
    assert MovedUp(rows, at, onto)[onto + 1..] == lo + hi;
    KeysAround(lo, rows[at], hi);
    KeysJoin(lo, hi);
  }

  lemma NotAmong(rows: seq<Person>, j: nat, key: string)
    requires j <= |rows| && forall i | j <= i < |rows| :: rows[i].key != key
    ensures key !in Keys(rows[j..])
  {
    KeyIn(rows[j..], key);
  }

  lemma WithoutIt(a: multiset<string>, b: multiset<string>, x: string)
    requires x !in a
    ensures a <= multiset{x} + b ==> a <= b
  {
    if a <= multiset{x} + b {
      forall k ensures a[k] <= b[k] {
        assert a[k] <= (multiset{x} + b)[k];
      }
    }
  }

  lemma PlacedByInsert(rows: seq<Person>, next: seq<Person>, j: nat)
    requires j <= |rows| && j < |next| && rows[..j] == next[..j]
    requires next[j].key !in Keys(rows[j..])
    ensures Placed(rows, InsertedAt(rows, j, next[j]), next, j)
  {
    var now := InsertedAt(rows, j, next[j]);
    assert now[..j + 1] == now[..j] + [next[j]] == next[..j + 1];
    KeysSplit(next, j);
    WithoutIt(Keys(rows[j..]), Keys(next[j + 1..]), next[j].key);
  }

  lemma Missing(rows: seq<Person>, next: seq<Person>, j: nat)
    requires j <= |rows| && j < |next| && rows[..j] == next[..j]
    requires forall i | j <= i < |rows| :: rows[i].key != next[j].key
    ensures Gentle(rows, Insert(j, next[j]), next)
    ensures Placed(rows, InsertedAt(rows, j, next[j]), next, j)
  {
    NotAmong(rows, j, next[j].key);
    KeysSplit(next, j);
    KeysJoin(rows[..j], rows[j..]);
    KeysJoin(next[..j], next[j..]);
    assert rows == rows[..j] + rows[j..] && next == next[..j] + next[j..];
    PlacedByInsert(rows, next, j);
  }

  // One more row in place, and no more left over than there was.
  ghost predicate Placed(was: seq<Person>, now: seq<Person>, next: seq<Person>, j: nat)
    requires j < |next| && j <= |was|
  {
    && j < |now| && now[..j + 1] == next[..j + 1]
    && (Keys(was[j..]) <= Keys(next[j..]) ==> Keys(now[j + 1..]) <= Keys(next[j + 1..]))
  }

  lemma OneLess(a: multiset<string>, b: multiset<string>, x: string)
    ensures multiset{x} + a <= multiset{x} + b ==> a <= b
  {
    if multiset{x} + a <= multiset{x} + b {
      forall k ensures a[k] <= b[k] {
        assert (multiset{x} + a)[k] <= (multiset{x} + b)[k];
      }
    }
  }

  lemma InPlace(rows: seq<Person>, next: seq<Person>, j: nat)
    requires j < |next| && j < |rows| && rows[..j] == next[..j] && rows[j].key == next[j].key
    ensures Placed(rows, rows[j := next[j]], next, j)
  {
    KeysSplit(next, j);
    KeysSplit(rows, j);
    var now := rows[j := next[j]];
    assert now[..j + 1] == rows[..j] + [next[j]] == next[..j + 1];
    assert now[j + 1..] == rows[j + 1..];
    OneLess(Keys(rows[j + 1..]), Keys(next[j + 1..]), next[j].key);
  }

  lemma PlacedByMove(was: seq<Person>, now: seq<Person>, next: seq<Person>, j: nat)
    requires j < |next| && j < |was| && was[..j] == next[..j]
    requires |now| == |was| && now[..j] == was[..j] && now[j] == next[j]
    requires Keys(was[j..]) == Keys(now[j + 1..]) + multiset{next[j].key}
    ensures Placed(was, now, next, j)
  {
    assert now[..j + 1] == now[..j] + [next[j]] == next[..j + 1];
    KeysSplit(next, j);
    OneLess(Keys(now[j + 1..]), Keys(next[j + 1..]), next[j].key);
  }

  lemma PrunedKeys(was: seq<Person>, rows: seq<Person>, next: seq<Person>)
    requires Keys(rows) <= Keys(was) && forall i | 0 <= i < |rows| :: rows[i].key in Keys(next)
    ensures Reachable(was, next) ==> Keys(rows) <= Keys(next)
  {
    forall key | key in Keys(rows) ensures key in Keys(next) { KeyIn(rows, key); }
  }

  lemma Ends(was: seq<Person>, rows: seq<Person>, next: seq<Person>)
    requires |next| <= |rows| && rows[..|next|] == next
    requires forall key | key in Keys(next) :: Keys(was)[key] <= Keys(rows)[key]
    requires Reachable(was, next) ==> Keys(rows[|next|..]) <= Keys(next[|next|..])
    ensures rows == next <==> Reachable(was, next)
  {
    if Reachable(was, next) {
      var rest := rows[|next|..];
      assert |Keys(rest)| == |rest| && Keys(next[|next|..]) == multiset{};
      assert rows == rows[..|next|] + rest;
    }
  }
}

module MucRoomModel {
  import opened RoomRows

  class MucRoomModel {
    var people: seq<Person>
    var rows: seq<Person>
    var filter: string
    const fold: char -> char

    constructor (fold: char -> char)
      ensures people == rows == [] && filter == ""
    {
      people, rows, filter := [], [], "";
      this.fold := fold;
    }

    method TakeOut(ghost was: seq<Person>, before: seq<Change>, i: nat, ghost next: seq<Person>)
      returns (told: seq<Change>)
      requires i < |rows| && rows[i].key !in Keys(next) && Leads(was, before, rows, next)
      modifies `rows
      ensures Leads(was, told, rows, next)
      ensures rows == old(rows)[..i] + old(rows)[i + 1..] && Keys(rows) <= Keys(old(rows))
    {
      LeadsOn(was, before, rows, next, Remove(i));
      KeysAfterRemove(rows, i);
      told := before + [Remove(i)];
      rows := rows[..i] + rows[i + 1..];
    }

    // Takes out every row that is no longer wanted, last first.
    method Prune(next: seq<Person>) returns (told: seq<Change>)
      modifies `rows
      ensures Leads(old(rows), told, rows, next)
      ensures Keys(rows) <= Keys(old(rows)) && forall i | 0 <= i < |rows| :: rows[i].key in Keys(next)
    {
      told := [];
      LeadsNowhere(rows, next);
      ghost var was := rows;
      var i := |rows|;
      while i > 0
        invariant 0 <= i <= |rows| && Leads(was, told, rows, next) && Keys(rows) <= Keys(was)
        invariant forall j | i <= j < |rows| :: rows[j].key in Keys(next)
      {
        i := i - 1;
        if rows[i].key !in Keys(next) { told := TakeOut(was, told, i, next); }
      }
    }

    method UpdateAt(ghost was: seq<Person>, before: seq<Change>, j: nat, next: seq<Person>) returns (told: seq<Change>)
      requires j < |rows| && j < |next| && rows[j].key == next[j].key && Leads(was, before, rows, next)
      modifies `rows
      ensures Leads(was, told, rows, next) && rows == old(rows)[j := next[j]]
    {
      told := before;
      if rows[j] != next[j] {
        LeadsOn(was, told, rows, next, Update(j, next[j]));
        told := told + [Update(j, next[j])];
        rows := rows[j := next[j]];
      }
    }

    // The row that belongs at j stands at k: it is moved, and brought up to date.
    method MoveUp(ghost was: seq<Person>, before: seq<Change>, k: nat, j: nat, next: seq<Person>)
      returns (told: seq<Change>)
      requires j < |next| && j < k < |rows| && rows[k].key == next[j].key && Leads(was, before, rows, next)
      modifies `rows
      ensures Leads(was, told, rows, next) && |rows| == |old(rows)|
      ensures rows[..j] == old(rows)[..j] && rows[j] == next[j]
      ensures Keys(old(rows)[j..]) == Keys(rows[j + 1..]) + multiset{next[j].key}
    {
      LeadsOn(was, before, rows, next, Move(k, j));
      TailKeysAfterMove(rows, k, j);
      told := before + [Move(k, j)];
      rows := MovedUp(rows, k, j);
      ghost var moved := rows;
      told := UpdateAt(was, told, j, next);
      assert rows[j + 1..] == moved[j + 1..];
    }

    method PutIn(ghost was: seq<Person>, before: seq<Change>, j: nat, next: seq<Person>) returns (told: seq<Change>)
      requires j < |next| && j <= |rows| && Leads(was, before, rows, next) && Gentle(rows, Insert(j, next[j]), next)
      modifies `rows
      ensures Leads(was, told, rows, next) && rows == InsertedAt(old(rows), j, next[j])
    {
      LeadsOn(was, before, rows, next, Insert(j, next[j]));
      told := before + [Insert(j, next[j])];
      rows := InsertedAt(rows, j, next[j]);
    }

    method FindFrom(j: nat, key: string) returns (k: nat)
      requires j < |rows| ==> rows[j].key != key
      ensures j < k && (k < |rows| ==> rows[k].key == key)
      ensures k >= |rows| ==> forall i | j <= i < |rows| :: rows[i].key != key
    {
      k := j + 1;
      while k < |rows| && rows[k].key != key
        invariant j < k && forall i | j <= i < k && i < |rows| :: rows[i].key != key
      {
        k := k + 1;
      }
    }

    // Puts the row that belongs at j there.
    method Place(ghost was: seq<Person>, before: seq<Change>, j: nat, next: seq<Person>) returns (told: seq<Change>)
      requires j < |next| && j <= |rows| && rows[..j] == next[..j] && Leads(was, before, rows, next)
      modifies `rows
      ensures Leads(was, told, rows, next) && Placed(old(rows), rows, next, j)
    {
      if j < |rows| && rows[j].key == next[j].key {
        InPlace(rows, next, j);
        told := UpdateAt(was, before, j, next);
        return;
      }
      var k := FindFrom(j, next[j].key);
      if k < |rows| {
        told := MoveUp(was, before, k, j, next);
        PlacedByMove(old(rows), rows, next, j);
      } else {
        Missing(rows, next, j);
        told := PutIn(was, before, j, next);
      }
    }

    method Walk(ghost was: seq<Person>, before: seq<Change>, next: seq<Person>) returns (told: seq<Change>)
      requires Leads(was, before, rows, next)
      modifies `rows
      ensures Leads(was, told, rows, next) && |next| <= |rows| && rows[..|next|] == next
      ensures Keys(old(rows)) <= Keys(next) ==> Keys(rows[|next|..]) <= Keys(next[|next|..])
    {
      told := before;
      var j := 0;
      assert rows[0..] == rows && next[0..] == next;
      while j < |next|
        invariant j <= |next| && j <= |rows| && rows[..j] == next[..j] && Leads(was, told, rows, next)
        invariant Keys(old(rows)) <= Keys(next) ==> Keys(rows[j..]) <= Keys(next[j..])
      {
        told := Place(was, told, j, next);
        j := j + 1;
      }
    }

    // The rows become the wanted list from whatever they were, unless they held
    // some wanted key more often than it is wanted, and then they cannot.
    method Rebuild() returns (told: seq<Change>)
      modifies `rows
      ensures var next := Filtered(people, filter, fold);
              && Leads(old(rows), told, rows, next)
              && (rows == next <==> Reachable(old(rows), next))
    {
      ghost var was := rows;
      var next := Wanted();
      told := Prune(next);
      PrunedKeys(was, rows, next);
      told := Walk(was, told, next);
      Ends(was, rows, next);
    }

    method Wanted() returns (next: seq<Person>)
      ensures next == Filtered(people, filter, fold)
    {
      next := [];
      var i := 0;
      while i < |people|
        invariant i <= |people| && next == Filtered(people[..i], filter, fold)
      {
        assert people[..i + 1][..i] == people[..i];
        if Matches(people[i], filter, fold) { next := next + [people[i]]; }
        i := i + 1;
      }
      assert people[..i] == people;
    }

    method SetFilter(text: string) returns (told: seq<Change>)
      modifies `rows, `filter
      ensures filter == text
      ensures text == old(filter) ==> told == [] && rows == old(rows)
      ensures text != old(filter) ==>
                var next := Filtered(people, text, fold);
                Leads(old(rows), told, rows, next) && (rows == next <==> Reachable(old(rows), next))
    {
      if filter == text { return []; }
      filter := text;
      told := Rebuild();
    }

    method ApplyPeople(answer: seq<Person>) returns (told: seq<Change>)
      modifies `rows, `people
      ensures people == answer
      ensures var next := Filtered(answer, filter, fold);
              Leads(old(rows), told, rows, next) && (rows == next <==> Reachable(old(rows), next))
    {
      people := answer;
      told := Rebuild();
    }
  }
}