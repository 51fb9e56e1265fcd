// Why the guards in ChatStore.Allowed are there: drop one, and whole families of
// ordinary runs tear the window.

module ChatStoreLimits {
  import opened Wrappers
  import opened Extremes
  import opened ChatRequests
  import opened ChatFeed
  import opened ChatRows
  import opened ChatStore
  import opened ChatStoreExact

  const PAGE := 50 // what every history request and every jump asks for

  function RowsFor(stamps: seq<int>): (rows: seq<Row>)
    ensures |rows| == |stamps| && forall i | 0 <= i < |rows| :: rows[i] == Row(stamps[i], map[])
  {
    seq(|stamps|, i requires 0 <= i < |stamps| => Row(stamps[i], map[]))
  }

  lemma StampsOf(store: seq<int>, lo: nat, hi: nat)
    requires lo <= hi <= |store| && StoreOk(store)
    ensures Stamps(RowsFor(store[lo..hi])) == Shown(store, hi) - Shown(store, lo)
  {
    var rows := RowsFor(store[lo..hi]);
    forall t ensures t in Stamps(rows) <==> t in Shown(store, hi) && t !in Shown(store, lo) {
      if t in Stamps(rows) {
        var r :| r in rows && r.ts == t;
        var i :| 0 <= i < |rows| && rows[i] == r;
        assert store[lo + i] == t;
      }
      if t in Shown(store, hi) && t !in Shown(store, lo) {
        var i :| 0 <= i < hi && store[i] == t;
        assert lo <= i;
        assert rows[i - lo].ts == t;
      }
    }
  }

  lemma ShownBetween(f: Feed, store: seq<int>, lo: nat, hi: nat, x: int, t: nat, y: int)
    requires StoreOk(store) && t < |store| && ShowsSlice(f, store, lo, hi)
    requires x in f.window && y in f.window && x < store[t] < y
    ensures store[t] in f.window
  {
    var i :| lo <= i < hi && store[i] == x;
    var j :| lo <= j < hi && store[j] == y;
    assert lo <= t < hi;
  }

  lemma SliceHasAllBetween(s: System, x: int, t: nat, y: int)
    requires StoreOk(s.store) && t < |s.store| && NoHoles(s)
    requires x in s.feed.window && y in s.feed.window && x < s.store[t] < y
    ensures s.store[t] in s.feed.window
  {
    var lo: nat, hi: nat :| ShowsSlice(s.feed, s.store, lo, hi);
    ShownBetween(s.feed, s.store, lo, hi, x, t, y);
  }

  ghost predicate Quiet(s: System) {
    && Whole(s) && s.channel == [] && s.feed.books.ready
    && s.feed.books.inflight == {} && s.feed.books.failed == {}
  }

  // The view jumps, then pages older before the jump has answered.
  ghost function PagedUnderAJump(s: System): System {
    After(After(s, Call(GotoTimestamp)), Call(LoadOlder))
  }

  // Both answers, in the order they were asked for: the slice around the first
  // message there is, and a full page of what came before row lo.
  function JumpAnswer(s: System): Event
    requires PAGE <= |s.store|
  {
    Result(s.feed.books.next, Slice(s.store[0], RowsFor(s.store[0..PAGE])))
  }

  function OlderAnswer(s: System, lo: nat): Event
    requires PAGE <= lo <= |s.store|
  {
    Result(s.feed.books.next + 1, Page(RowsFor(s.store[lo - PAGE..lo])))
  }

  ghost function BothAnswered(s: System, lo: nat): System
    requires PAGE <= lo <= |s.store|
  {
    var asked := PagedUnderAJump(s);
    asked.(channel := asked.channel + [JumpAnswer(s), OlderAnswer(s, lo)])
  }

  lemma UnderAJump(s: System)
    requires Quiet(s) && s.feed.window != map[]
    ensures var b, f := s.feed.books, PagedUnderAJump(s).feed;
            && f == s.feed.(books := f.books)
            && f.books.pending == map[b.next := Jump, b.next + 1 := Old]
            && f.books.inflight == {Jump, Old} && f.books.failed == {} && f.books.loadError == b.loadError
            && f.books.asked == b.asked[b.next := Goto]
                                       [b.next + 1 := History(Old, Some(Oldest(s.feed.window)))]
  {
    var b := s.feed.books;
    CancelAllClears(b, JUMP_DIRS);
    CancelEachKeepsAsked(b, JUMP_DIRS);
    var c := CancelEach(b, JUMP_DIRS);
    assert b.pending == map[] by {
      if b.pending != map[] {
        var t := Pick(b.pending.Keys);
        assert HasToken(b.pending, b.pending[t]);
      }
    }
    CancelEachKeepsError(b, JUMP_DIRS);
    var d := IssueGoto(b);
    assert d.pending == map[b.next := Jump];
    assert d.inflight == {Jump};
  }

  lemma {:induction false} CancelEachKeepsError(b: Books, dirs: seq<Dir>)
    requires b.failed == {}
    ensures CancelEach(b, dirs).failed == {} && CancelEach(b, dirs).loadError == b.loadError
    decreases |dirs|
  {
    if dirs != [] { CancelEachKeepsError(CancelDir(b, dirs[0]), dirs[1..]); }
  }

  lemma RunsAreFaithful(store: seq<int>, lo: nat, anchor: int, cursor: int)
    requires StoreOk(store) && PAGE <= lo < |store| && store[lo] == cursor
    ensures Faithful(Goto, Slice(anchor, RowsFor(store[0..PAGE])), Shown(store, |store|))
    ensures Faithful(History(Old, Some(cursor)), Page(RowsFor(store[lo - PAGE..lo])), Shown(store, |store|))
  {
    StampsOf(store, 0, PAGE);
    StampsOf(store, lo - PAGE, lo);
  }

  lemma SentBoth(s: System, e: Event, g: Event)
    requires Able(s, Send(e)) && Able(s, Send(g))
    ensures Able(After(s, Send(e)), Send(g))
    ensures After(After(s, Send(e)), Send(g)) == s.(channel := s.channel + [e, g])
  {
    assert s.channel + [e] + [g] == s.channel + [e, g];
  }

  // The backend may give exactly those answers, one after the other.
  lemma TheAnswersAreFaithful(s: System, lo: nat)
    requires Quiet(s) && s.feed.window != map[]
    requires PAGE <= lo < |s.store| && s.store[lo] == Oldest(s.feed.window)
    ensures var asked := PagedUnderAJump(s);
            && Able(asked, Send(JumpAnswer(s)))
            && Able(After(asked, Send(JumpAnswer(s))), Send(OlderAnswer(s, lo)))
            && After(After(asked, Send(JumpAnswer(s))), Send(OlderAnswer(s, lo))) == BothAnswered(s, lo)
  {
    UnderAJump(s);
    RunsAreFaithful(s.store, lo, s.store[0], s.store[lo]);
    SentBoth(PagedUnderAJump(s), JumpAnswer(s), OlderAnswer(s, lo));
  }

  lemma JumpLands(f: Feed, token: nat, anchor: int, slice: seq<Row>)
    requires token in f.books.pending && f.books.pending[token] == Jump
    requires anchor != 0 && anchor !in f.window && Stamps(slice) != {}
    ensures var g := Resulted(f, token, Slice(anchor, slice));
            g.window.Keys == Stamps(slice) && g.books.pending == f.books.pending - {token}
  {
    PageMerges(f, slice);
  }

  lemma OlderLands(f: Feed, token: nat, rows: seq<Row>)
    requires token in f.books.pending && f.books.pending[token] == Old
    ensures Resulted(f, token, Page(rows)).window.Keys == f.window.Keys + Stamps(rows)
  {
    PageMerges(f, rows);
  }

  lemma BothLand(s: System, jump: nat, page: nat, slice: seq<Row>, rows: seq<Row>, anchor: int)
    requires jump != page && s.feed.books.pending == map[jump := Jump, page := Old]
    requires s.channel == [Result(jump, Slice(anchor, slice)), Result(page, Page(rows))]
    requires anchor != 0 && anchor !in s.feed.window && Stamps(slice) != {}
    ensures Able(s, Deliver) && Able(After(s, Deliver), Deliver)
    ensures var end := After(After(s, Deliver), Deliver);
            end.store == s.store && end.feed.window.Keys == Stamps(slice) + Stamps(rows)
  {
    JumpLands(s.feed, jump, anchor, slice);
    var mid := After(s, Deliver);
    assert mid.feed == Resulted(s.feed, jump, Slice(anchor, slice));
    OlderLands(mid.feed, page, rows);
  }

  lemma TornByBoth(s: System, lo: nat, jump: nat, page: nat)
    requires StoreOk(s.store) && 2 * PAGE < lo < |s.store| && s.store[0] !in s.feed.window
    requires jump != page && s.feed.books.pending == map[jump := Jump, page := Old]
    requires s.channel == [Result(jump, Slice(s.store[0], RowsFor(s.store[0..PAGE]))),
                           Result(page, Page(RowsFor(s.store[lo - PAGE..lo])))]
    ensures Able(s, Deliver) && Able(After(s, Deliver), Deliver)
    ensures !NoHoles(After(After(s, Deliver), Deliver))
  {
    var slice, rows := RowsFor(s.store[0..PAGE]), RowsFor(s.store[lo - PAGE..lo]);
    assert s.store[0] in Stamps(slice) && s.store[lo - 1] in Stamps(rows)
        && s.store[PAGE] !in Stamps(slice) + Stamps(rows) by {
      StampsOf(s.store, 0, PAGE);
      StampsOf(s.store, lo - PAGE, lo);
    }
    BothLand(s, jump, page, slice, rows, s.store[0]);
    var end := After(After(s, Deliver), Deliver);
    if NoHoles(end) {
      SliceHasAllBetween(end, s.store[0], PAGE, s.store[lo - 1]);
    }
  }

  // Once both are taken the window is the jump's slice with the old window's
  // page merged in. From any quiet window with more than a hundred older
  // messages behind it that is not a slice of anything.
  lemma PagingUnderAJumpTearsTheWindow(s: System, lo: nat)
    requires Quiet(s) && s.feed.window != map[]
    requires 2 * PAGE < lo < |s.store| && s.store[lo] == Oldest(s.feed.window)
    ensures var sent := BothAnswered(s, lo);
            && Able(sent, Deliver) && Able(After(sent, Deliver), Deliver)
            && !NoHoles(After(After(sent, Deliver), Deliver))
  {
    UnderAJump(s);
    TornByBoth(BothAnswered(s, lo), lo, s.feed.books.next, s.feed.books.next + 1);
  }

  // A cull of all but one row leaves the row at the other end.
  lemma CullLeavesTheEnd(w: Window)
    requires w != map[]
    ensures DropOldest(w, |w| - 1).Keys == {Newest(w)}
    ensures DropNewest(w, |w| - 1).Keys == {Oldest(w)}
  {
    DropOldestKeeps(w, |w| - 1);
    DropNewestKeeps(w, |w| - 1);
    var d, e := DropOldest(w, |w| - 1), DropNewest(w, |w| - 1);
    if Newest(w) !in d {
      var k := Pick(d.Keys);
      DropOldestDrops(w, |w| - 1, k, Newest(w));
    }
    if Oldest(w) !in e {
      var k := Pick(e.Keys);
      DropNewestDrops(w, |w| - 1, k, Oldest(w));
    }
    SingletonOf(d.Keys, Newest(w));
    SingletonOf(e.Keys, Oldest(w));
  }

  lemma SingletonOf(s: set<int>, x: int)
    requires |s| == 1 && x in s
    ensures s == {x}
  {
    assert |s - {x}| == 0;
    assert s == (s - {x}) + {x};
  }

  lemma PageLands(f: Feed, token: nat, rows: seq<Row>)
    requires token in f.books.pending
    requires f.books.pending[token] == Init || f.books.pending[token] == New
    ensures Resulted(f, token, Page(rows)).window.Keys == f.window.Keys + Stamps(rows)
  {
    PageMerges(f, rows);
  }

  ghost function PageTaken(s: System, token: nat, lo: nat, hi: nat): System
    requires lo <= hi <= |s.store| && token in s.feed.books.asked && s.channel == []
    requires Faithful(s.feed.books.asked[token], Page(RowsFor(s.store[lo..hi])), Shown(s.store, |s.store|))
  {
    After(After(s, Send(Result(token, Page(RowsFor(s.store[lo..hi]))))), Deliver)
  }

  // store[lo..hi] is a true answer to the page still out, and taking it in tears
  // the window.
  ghost predicate Tears(s: System, token: nat, lo: nat, hi: nat) {
    && lo <= hi <= |s.store| && token in s.feed.books.asked && s.channel == []
    && Faithful(s.feed.books.asked[token], Page(RowsFor(s.store[lo..hi])), Shown(s.store, |s.store|))
    && !NoHoles(PageTaken(s, token, lo, hi))
  }

  lemma PageTakenLands(s: System, token: nat, lo: nat, hi: nat)
    requires StoreOk(s.store) && lo < hi <= |s.store| && s.channel == []
    requires token in s.feed.books.pending && token in s.feed.books.asked
    requires s.feed.books.pending[token] == Init || s.feed.books.pending[token] == New
    requires Faithful(s.feed.books.asked[token], Page(RowsFor(s.store[lo..hi])), Shown(s.store, |s.store|))
    ensures var end, p := PageTaken(s, token, lo, hi), Stamps(RowsFor(s.store[lo..hi]));
            && end.store == s.store && end.seen == s.seen
            && end.feed.window.Keys == s.feed.window.Keys + p && s.store[lo] in p
            && forall t | 0 <= t < |s.store| :: s.store[t] in p <==> lo <= t < hi
  {
    StampsOf(s.store, lo, hi);
    PageLands(s.feed, token, RowsFor(s.store[lo..hi]));
  }

  // One row left, and a page that does not reach it.
  lemma TornByPage(s: System, token: nat, lo: nat, hi: nat, kept: nat, t: nat)
    requires StoreOk(s.store) && lo < hi <= |s.store| && kept < |s.store| && s.channel == []
    requires token in s.feed.books.pending && token in s.feed.books.asked
    requires s.feed.books.pending[token] == Init || s.feed.books.pending[token] == New
    requires Faithful(s.feed.books.asked[token], Page(RowsFor(s.store[lo..hi])), Shown(s.store, |s.store|))
    requires s.feed.window.Keys == {s.store[kept]}
    requires kept < t < lo || hi <= t < kept
    ensures Tears(s, token, lo, hi)
  {
    PageTakenLands(s, token, lo, hi);
    var end := PageTaken(s, token, lo, hi);
    if NoHoles(end) {
      if kept < t {
        SliceHasAllBetween(end, s.store[kept], t, s.store[lo]);
      } else {
        SliceHasAllBetween(end, s.store[lo], t, s.store[kept]);
      }
    }
  }

  lemma SubsetSize(a: set<int>, b: set<int>)
    requires a <= b
    ensures |a| <= |b|
  {
    assert b == a + (b - a);
  }

  lemma AtTailEndsAtTheNewest(s: System)
    requires StoreOk(s.store) && WindowOk(s.feed, Shown(s.store, |s.store|))
    requires s.feed.atTail && s.feed.window != map[]
    ensures s.store != [] && Newest(s.feed.window) == s.store[|s.store| - 1]
    ensures forall i | 0 <= i < |s.store| :: s.store[i] >= Oldest(s.feed.window) ==> s.store[i] in s.feed.window
  {
    var n := |s.store|;
    var v := Shown(s.store, n);
    assert Newest(s.feed.window) in v && Oldest(s.feed.window) in v;
    assert s.store[n - 1] in v;
    forall i | 0 <= i < n && s.store[i] >= Oldest(s.feed.window) ensures s.store[i] in s.feed.window {
      assert s.store[i] in v;
    }
  }

  lemma TwoRows(w: Window, x: int, y: int)
    requires x in w && y in w && x != y
    ensures |w| >= 2
  {
    SubsetSize({x, y}, w.Keys);
  }

  lemma NewerPageFaithful(store: seq<int>, i: nat)
    requires StoreOk(store) && i + 1 + PAGE <= |store|
    ensures Faithful(History(New, Some(store[i])), Page(RowsFor(store[i + 1..i + 1 + PAGE])),
                     Shown(store, |store|))
  {
    StampsOf(store, i + 1, i + 1 + PAGE);
  }

  lemma OpeningPageFaithful(store: seq<int>)
    requires StoreOk(store) && PAGE <= |store|
    ensures Faithful(History(Init, None), Page(RowsFor(store[|store| - PAGE..|store|])),
                     Shown(store, |store|))
  {
    StampsOf(store, |store| - PAGE, |store|);
  }

  lemma CulledToNewest(f: Feed, token: nat)
    requires |f.window| > 1 && token in f.books.pending && f.books.pending[token] == New
    ensures var g := CulledOld(f, |f.window| - 1);
            && g.window.Keys == {Newest(f.window)} && g.books.asked == f.books.asked
            && token in g.books.pending && g.books.pending[token] == New
  {
    CullLeavesTheEnd(f.window);
  }

  lemma CulledToOldest(f: Feed, token: nat)
    requires |f.window| > 1 && token in f.books.pending && f.books.pending[token] == Init
    ensures var g := CulledNew(f, |f.window| - 1);
            && g.window.Keys == {Oldest(f.window)} && g.books.asked == f.books.asked
            && token in g.books.pending && g.books.pending[token] == Init
  {
    CullLeavesTheEnd(f.window);
    CancelEachKeepsAsked(f.books, [New, Catchup]);
    assert [New, Catchup][1..] == [Catchup];
    assert CancelEach(f.books, [New, Catchup]) == CancelDir(CancelDir(f.books, New), Catchup);
  }

  // A window at the tail with nothing on its way, and the given page still out.
  ghost predicate TailAndOut(s: System, token: nat, dir: Dir, cursor: Option<int>) {
    && StoreOk(s.store) && s.channel == [] && WindowOk(s.feed, Shown(s.store, |s.store|))
    && s.feed.atTail && s.feed.window != map[]
    && token in s.feed.books.pending && s.feed.books.pending[token] == dir
    && token in s.feed.books.asked && s.feed.books.asked[token] == History(dir, cursor)
  }

  ghost function NewestLeft(s: System): System { s.(feed := CulledOld(s.feed, |s.feed.window| - 1)) }

  ghost function OldestLeft(s: System): System { s.(feed := CulledNew(s.feed, |s.feed.window| - 1)) }

  // One row on show, and the page as it was asked for still out.
  ghost predicate OneRowLeft(s: System, t: System, token: nat, dir: Dir, row: int) {
    && t.store == s.store && t.channel == s.channel
    && t.feed.window.Keys == {row} && t.feed.books.asked == s.feed.books.asked
    && token in t.feed.books.pending && t.feed.books.pending[token] == dir
  }

  lemma NewestIsLeft(s: System, token: nat, i: nat)
    requires i + 1 < |s.store| && TailAndOut(s, token, New, Some(s.store[i])) && s.store[i] in s.feed.window
    ensures OneRowLeft(s, NewestLeft(s), token, New, s.store[|s.store| - 1])
  {
    AtTailEndsAtTheNewest(s);
    TwoRows(s.feed.window, s.store[i], s.store[|s.store| - 1]);
    CulledToNewest(s.feed, token);
  }

  lemma OldestIsLeft(s: System, token: nat, j: nat)
    requires j + 1 < |s.store| && TailAndOut(s, token, Init, None) && Oldest(s.feed.window) == s.store[j]
    ensures OneRowLeft(s, OldestLeft(s), token, Init, s.store[j])
  {
    AtTailEndsAtTheNewest(s);
    TwoRows(s.feed.window, s.store[j], s.store[|s.store| - 1]);
    CulledToOldest(s.feed, token);
  }

  // Cull down to the newest row while a newer page is out, and the page lands
  // around a row that is gone: with more than a page of arrivals in between,
  // what it brings no longer reaches the window.
  lemma CullingUnderANewerPageTearsTheWindow(s: System, token: nat, i: nat)
    requires i + PAGE + 2 < |s.store| && TailAndOut(s, token, New, Some(s.store[i]))
    requires s.store[i] in s.feed.window
    ensures Tears(NewestLeft(s), token, i + 1, i + 1 + PAGE)
  {
    NewestIsLeft(s, token, i);
    NewerPageTears(s, NewestLeft(s), token, i);
  }

  lemma NewerPageTears(s: System, t: System, token: nat, i: nat)
    requires i + PAGE + 2 < |s.store| && TailAndOut(s, token, New, Some(s.store[i]))
    requires OneRowLeft(s, t, token, New, s.store[|s.store| - 1])
    ensures Tears(t, token, i + 1, i + 1 + PAGE)
  {
    NewerPageFaithful(s.store, i);
    TornByPage(t, token, i + 1, i + 1 + PAGE, |s.store| - 1, i + 1 + PAGE);
  }

  // Cull down to the oldest row before the opening page lands, and that page
  // need not reach it.
  lemma CullingUnderTheOpeningPageTearsTheWindow(s: System, token: nat, j: nat)
    requires j + PAGE + 1 < |s.store| && TailAndOut(s, token, Init, None)
    requires Oldest(s.feed.window) == s.store[j]
    ensures Tears(OldestLeft(s), token, |s.store| - PAGE, |s.store|)
  {
    OldestIsLeft(s, token, j);
    OpeningPageTears(s, OldestLeft(s), token, j);
  }

  lemma OpeningPageTears(s: System, t: System, token: nat, j: nat)
    requires j + PAGE + 1 < |s.store| && TailAndOut(s, token, Init, None)
    requires OneRowLeft(s, t, token, Init, s.store[j])
    ensures Tears(t, token, |s.store| - PAGE, |s.store|)
  {
    OpeningPageFaithful(s.store);
    TornByPage(t, token, |s.store| - PAGE, |s.store|, j, j + 1);
  }

  // ------------------------------------------ ordinary runs into these states

  // At the tail, with everything announced and a page out.
  ghost predicate AtTailWaiting(s: System, token: nat, dir: Dir, cursor: Option<int>) {
    && Calm(s) && WindowOk(s.feed, All(s)) && s.feed.atTail && !s.feed.catchupBusy
    && Waiting(s.feed, token, dir, History(dir, cursor))
  }

  function NextStamp(store: seq<int>): int { if store == [] then 1 else store[|store| - 1] + 1 }

  lemma NextStampTops(store: seq<int>)
    requires StoreOk(store)
    ensures NextStamp(store) > 0 && forall t | t in Shown(store, |store|) :: t < NextStamp(store)
  {}

  lemma GrownAtTail(s: System, ts: int)
    requires s.feed.atTail && !s.feed.catchupBusy
    ensures var f, row := s.feed, Row(ts, map[]);
            && Grown(s, ts).feed == f.(window := Merge(f.window, row), tailTs := ts)
            && Step(f, Arrived(row)) == f.(window := Merge(f.window, row))
  {}

  lemma GrownWaits(s: System, ts: int, token: nat, dir: Dir, cursor: Option<int>)
    requires AtTailWaiting(s, token, dir, cursor) && ts > 0 && forall t | t in All(s) :: t < ts
    ensures var g := Grown(s, ts);
            AtTailWaiting(g, token, dir, cursor) && g.feed.window.Keys == s.feed.window.Keys + {ts}
  {
    GrownIs(s, ts);
    GrownAtTail(s, ts);
    ArrivedWindow(s.feed, Row(ts, map[]), All(s));
  }

  function NewerThan(store: seq<int>, n: nat): set<int> { set i | n <= i < |store| :: store[i] }

  // The store grew at the top, and all that came is on show.
  ghost predicate Extends(s: System, e: System) {
    && |s.store| <= |e.store| && e.store[..|s.store|] == s.store
    && e.feed.window.Keys == s.feed.window.Keys + NewerThan(e.store, |s.store|)
  }

  lemma ExtendsFurther(s: System, g: System, e: System, ts: int)
    requires g.store == s.store + [ts] && g.feed.window.Keys == s.feed.window.Keys + {ts}
    requires Extends(g, e)
    ensures Extends(s, e)
  {
    var n := |s.store|;
    assert e.store[..n + 1][..n] == e.store[..n];
    assert e.store[..n + 1][n] == e.store[n] == ts;
    assert NewerThan(e.store, n) == {ts} + NewerThan(e.store, n + 1) by {
      forall t ensures t in NewerThan(e.store, n) <==> t in {ts} + NewerThan(e.store, n + 1) {
        if t in NewerThan(e.store, n) {
          var i :| n <= i < |e.store| && e.store[i] == t;
          assert i == n || t in NewerThan(e.store, n + 1);
        }
      }
    }
  }

  // n messages arrive, one after the other, and the page stays out.
  lemma {:induction false} ArrivalsReached(s: System, token: nat, dir: Dir, cursor: Option<int>, n: nat)
    returns (e: System)
    requires AtTailWaiting(s, token, dir, cursor)
    ensures Reaches(s, e) && AtTailWaiting(e, token, dir, cursor)
    ensures Extends(s, e) && |e.store| == |s.store| + n
    decreases n
  {
    if n == 0 {
      e := s;
      ReachesItself(s);
    } else {
      var ts := NextStamp(s.store);
      NextStampTops(s.store);
      GrownWaits(s, ts, token, dir, cursor);
      e := ArrivalsReached(Grown(s, ts), token, dir, cursor, n - 1);
      GrownReaches(s, ts, e);
      ExtendsFurther(s, Grown(s, ts), e, ts);
    }
  }

  // The chat is opened; the opening page is out.
  lemma Reloaded(s: System)
    requires Opened(s)
    ensures var o := After(s, Call(Reload(true)));
            && Possible(s, Call(Reload(true))) && Whole(o) && o.store == s.store
            && AtTailWaiting(o, s.feed.books.next, Init, None) && o.feed.window == map[]
            && o.feed.books.pending == map[s.feed.books.next := Init]
            && o.feed.books.inflight == {Init} && o.feed.books.failed == {} && o.feed.books.ready
  {
    assert Balanced(s.feed.books) by {
      assert forall d: Dir :: !HasToken(s.feed.books.pending, d);
    }
    CallWhole(s, Reload(true));
    CancelAllClears(s.feed.books, ALL_DIRS);
    CancelEachKeepsAsked(s.feed.books, ALL_DIRS);
  }

  function OpeningPage(s: System): Answer
    requires PAGE <= |s.store|
  {
    Page(RowsFor(s.store[|s.store| - PAGE..]))
  }

  ghost function OpeningAnswered(s: System): System
    requires PAGE <= |s.store|
  {
    var o := After(s, Call(Reload(true)));
    o.(feed := Resulted(o.feed, s.feed.books.next, OpeningPage(s)))
  }

  lemma OpeningReached(s: System, e: System)
    requires Opened(s) && PAGE <= |s.store| && Reaches(OpeningAnswered(s), e)
    ensures Reaches(s, e)
  {
    Reloaded(s);
    OpeningFaithful(s);
    AnswerReaches(After(s, Call(Reload(true))), s.feed.books.next, OpeningPage(s), e);
    ReachesAfter(s, Call(Reload(true)), e);
  }

  // The opening page, the only one out, lands in an empty window.
  lemma OnlyPageLands(o: System, token: nat, a: Answer)
    requires Whole(o) && Calm(o) && AtTailWaiting(o, token, Init, None)
    requires o.feed.books.pending == map[token := Init] && o.feed.books.inflight == {Init}
    requires o.feed.books.failed == {} && o.feed.window == map[] && Faithful(History(Init, None), a, All(o))
    ensures var q := o.(feed := Resulted(o.feed, token, a));
            && Whole(q) && q.feed.window.Keys == Stamps(a.Rows()) && q.feed.atTail && !q.feed.catchupBusy
            && q.feed.books.ready == o.feed.books.ready
            && q.feed.books.inflight == {} && q.feed.books.failed == {}
  {
    PageMerges(o.feed, a.Rows());
    ResultKept(o.feed, token, a, All(o));
    KeptWhole(o, Resulted(o.feed, token, a));
  }

  lemma OpeningFaithful(s: System)
    requires StoreOk(s.store) && PAGE <= |s.store|
    ensures Faithful(History(Init, None), OpeningPage(s), All(s))
    ensures Stamps(OpeningPage(s).Rows()) == All(s) - Shown(s.store, |s.store| - PAGE)
  {
    assert s.store[|s.store| - PAGE..] == s.store[|s.store| - PAGE..|s.store|];
    StampsOf(s.store, |s.store| - PAGE, |s.store|);
    OpeningPageFaithful(s.store);
  }

  lemma OpeningShows(s: System)
    requires Opened(s) && PAGE <= |s.store|
    ensures var q := OpeningAnswered(s);
            && q.store == s.store && Calm(q) && Whole(q)
            && q.feed.atTail && !q.feed.catchupBusy
            && q.feed.window.Keys == All(s) - Shown(s.store, |s.store| - PAGE)
            && q.feed.books.ready && q.feed.books.inflight == {} && q.feed.books.failed == {}
  {
    Reloaded(s);
    OpeningFaithful(s);
    OnlyPageLands(After(s, Call(Reload(true))), s.feed.books.next, OpeningPage(s));
  }

  lemma OpeningEnds(s: System)
    requires Opened(s) && PAGE <= |s.store|
    ensures var q := OpeningAnswered(s);
            && q.feed.window != map[] && Oldest(q.feed.window) == s.store[|s.store| - PAGE]
            && Newest(q.feed.window) == s.store[|s.store| - 1]
            && s.store[|s.store| - 1] in q.feed.window
  {
    OpeningShows(s);
    var w, n := OpeningAnswered(s).feed.window, |s.store|;
    assert forall i | n - PAGE <= i < n :: s.store[i] in Shown(s.store, n);
    assert s.store[n - PAGE] in w && s.store[n - 1] in w;
    assert forall t | t in w :: exists i :: n - PAGE <= i < n && s.store[i] == t;
  }

  // Open a chat with more than a hundred messages before its newest page, and
  // the state in which paging under a jump tears the window is reached.
  lemma QuietIsReached(s: System)
    requires Opened(s) && 3 * PAGE < |s.store|
    ensures exists e, lo: nat ::
              && Reaches(s, e) && Quiet(e) && e.feed.window != map[]
              && 2 * PAGE < lo < |e.store| && e.store[lo] == Oldest(e.feed.window)
  {
    var e := OpeningAnswered(s);
    ReachesItself(e);
    OpeningReached(s, e);
    OpeningShows(s);
    OpeningEnds(s);
    assert Quiet(e) && e.store[|s.store| - PAGE] == Oldest(e.feed.window);
  }

  lemma NewerAsked(q: System)
    requires Calm(q) && Whole(q) && q.feed.window != map[] && q.feed.atTail && !q.feed.catchupBusy
    requires q.feed.books.ready && q.feed.books.inflight == {} && q.feed.books.failed == {}
    ensures var a := After(q, Call(LoadNewer));
            && Possible(q, Call(LoadNewer)) && a.store == q.store && a.feed.window == q.feed.window
            && AtTailWaiting(a, q.feed.books.next, New, Some(Newest(q.feed.window)))
  {}

  // Open a chat, page newer, and let messages arrive meanwhile.
  lemma NewerPageOutIsReached(s: System)
    requires Opened(s) && PAGE <= |s.store|
    ensures exists e, token: nat, i: nat ::
              && Reaches(s, e) && i + PAGE + 2 < |e.store|
              && TailAndOut(e, token, New, Some(e.store[i])) && e.store[i] in e.feed.window
  {
    var q, i := OpeningAnswered(s), |s.store| - 1;
    OpeningShows(s);
    OpeningEnds(s);
    NewerAsked(q);
    var asked := After(q, Call(LoadNewer));
    var e := ArrivalsReached(asked, q.feed.books.next, New, Some(s.store[i]), PAGE + 2);
    assert e.store[i] == e.store[..|s.store|][i];
    ReachesAfter(q, Call(LoadNewer), e);
    OpeningReached(s, e);
    assert TailAndOut(e, q.feed.books.next, New, Some(e.store[i]));
  }

  lemma OldestFrom(w: Window, store: seq<int>, j: nat)
    requires StoreOk(store) && j < |store| && store[j] in w
    requires forall t | t in w :: exists i :: j <= i < |store| && store[i] == t
    ensures Oldest(w) == store[j]
  {}

  // Open a chat, and let messages arrive before the opening page does.
  lemma OpeningPageOutIsReached(s: System)
    requires Opened(s)
    ensures exists e, token: nat, j: nat ::
              && Reaches(s, e) && j + PAGE + 1 < |e.store|
              && TailAndOut(e, token, Init, None) && Oldest(e.feed.window) == e.store[j]
  {
    Reloaded(s);
    var o, j := After(s, Call(Reload(true))), |s.store|;
    var e := ArrivalsReached(o, s.feed.books.next, Init, None, PAGE + 2);
    ReachesAfter(s, Call(Reload(true)), e);
    assert e.store[j] in NewerThan(e.store, j);
    OldestFrom(e.feed.window, e.store, j);
    assert TailAndOut(e, s.feed.books.next, Init, None);
  }

  // ------------------------------------------------ the page after a catchup

  lemma {:induction false} PageNewestOf(store: seq<int>, lo: nat, hi: nat)
    requires StoreOk(store) && lo < hi <= |store|
    ensures PageNewest(RowsFor(store[lo..hi])) == store[hi - 1]
    decreases hi - lo
  {
    var rows := RowsFor(store[lo..hi]);
    assert rows[..|rows| - 1] == RowsFor(store[lo..hi - 1]);
    if lo < hi - 1 {
      PageNewestOf(store, lo, hi - 1);
    }
  }

  // The page of what followed row mid - 1, and then a live message.
  ghost function Reconciling(f: Feed, token: nat, store: seq<int>, mid: nat, j: nat, row: Row): Feed
    requires mid <= j <= |store|
  {
    Step(Step(f, Result(token, Page(RowsFor(store[mid..j])))), Arrived(row))
  }

  // The window shows store[lo..mid] and claims the tail; the rest of the store is
  // what a catchup brought, and the page of it is out.
  ghost predicate Behind(f: Feed, token: nat, store: seq<int>, lo: nat, mid: nat) {
    && StoreOk(store) && lo < mid <= |store| && ShowsSlice(f, store, lo, mid)
    && f.atTail && !f.catchupBusy && f.tailTs == store[|store| - 1]
    && token in f.books.pending && f.books.pending[token] == Catchup
  }

  // The page is merged if it reaches the tail, and thrown away otherwise.
  lemma ReconciledPage(f: Feed, token: nat, store: seq<int>, lo: nat, mid: nat, j: nat)
    requires Behind(f, token, store, lo, mid) && mid <= j <= |store|
    ensures var g := Resulted(f, token, Page(RowsFor(store[mid..j])));
            && g.atTail && !g.catchupBusy
            && g.window.Keys == f.window.Keys
                 + if j == |store| then Shown(store, |store|) - Shown(store, mid) else {}
  {
    var page := RowsFor(store[mid..j]);
    StampsOf(store, mid, j);
    PageMerges(f, page);
    if mid < j { PageNewestOf(store, mid, j); }
  }

  lemma ReconciledRows(f: Feed, token: nat, store: seq<int>, lo: nat, mid: nat, j: nat, row: Row)
    requires Behind(f, token, store, lo, mid) && mid <= j <= |store| && row.ts > store[|store| - 1]
    ensures var added := if j == |store| then Shown(store, |store|) - Shown(store, mid) else {};
            Reconciling(f, token, store, mid, j, row).window.Keys == f.window.Keys + added + {row.ts}
  {
    ReconciledPage(f, token, store, lo, mid, j);
    assert row.ts != 0;
  }

  // A catchup's page closes the gap it was asked for if and only if it reaches
  // the tail. One that stops short is thrown away while the window goes on
  // claiming the tail, and the next live message lands beyond what is missing.
  lemma ReconcilingHealsExactly(f: Feed, token: nat, store: seq<int>, lo: nat, mid: nat, j: nat, row: Row)
    requires Behind(f, token, store, lo, mid) && mid <= j <= |store| && row.ts > store[|store| - 1]
    ensures var g := Reconciling(f, token, store, mid, j, row);
            (exists a: nat, b: nat :: ShowsSlice(g, store + [row.ts], a, b)) <==> j == |store|
  {
    var g, more := Reconciling(f, token, store, mid, j, row), store + [row.ts];
    ReconciledRows(f, token, store, lo, mid, j, row);
    if j == |store| {
      HealedIsASlice(f, g, store, lo, mid, row);
    } else {
      forall a: nat, b: nat ensures !ShowsSlice(g, more, a, b) {
        ShortLeavesAHole(f, g, store, lo, mid, row, a, b);
      }
    }
  }

  lemma HealedIsASlice(f: Feed, g: Feed, store: seq<int>, lo: nat, mid: nat, row: Row)
    requires StoreOk(store) && lo < mid <= |store| && ShowsSlice(f, store, lo, mid)
    requires g.window.Keys == f.window.Keys + (Shown(store, |store|) - Shown(store, mid)) + {row.ts}
    ensures ShowsSlice(g, store + [row.ts], lo, |store| + 1)
  {
    var more := store + [row.ts];
    forall t ensures t in g.window <==> exists i :: lo <= i < |more| && more[i] == t {
      if t in Shown(store, |store|) - Shown(store, mid) {
        var i :| 0 <= i < |store| && store[i] == t;
        assert mid <= i && more[i] == t;
      }
      if t in f.window {
        var i :| lo <= i < mid && store[i] == t;
        assert more[i] == t;
      }
      if i :| lo <= i < |more| && more[i] == t {
        assert i < |store| ==> store[i] in Shown(store, |store|);
        assert i == |store| ==> t == row.ts;
      }
      assert more[|store|] == row.ts;
    }
  }

  lemma ShortLeavesAHole(f: Feed, g: Feed, store: seq<int>, lo: nat, mid: nat, row: Row, a: nat, b: nat)
    requires StoreOk(store) && lo < mid < |store| && ShowsSlice(f, store, lo, mid)
    requires row.ts > store[|store| - 1] && g.window.Keys == f.window.Keys + {row.ts}
    ensures !ShowsSlice(g, store + [row.ts], a, b)
  {
    var more := store + [row.ts];
    assert store[lo] in f.window && store[mid] !in f.window && more[mid] == store[mid] && more[lo] == store[lo];
    if ShowsSlice(g, more, a, b) {
      ShownBetween(g, more, a, b, store[lo], mid, row.ts);
    }
  }

  // ---------------------------------------------------- the slice, row by row

  function Listing(w: Window, store: seq<int>, lo: nat, hi: nat): (rows: seq<Row>)
    requires lo <= hi <= |store| && forall i | lo <= i < hi :: store[i] in w
    ensures |rows| == hi - lo
    ensures forall i | 0 <= i < |rows| :: rows[i] == Row(store[hi - 1 - i], w[store[hi - 1 - i]])
  {
    seq(hi - lo, i requires 0 <= i < hi - lo => Row(store[hi - 1 - i], w[store[hi - 1 - i]]))
  }

  lemma ListingHolds(w: Window, store: seq<int>, lo: nat, hi: nat)
    requires StoreOk(store) && lo <= hi <= |store|
    requires forall t :: t in w <==> exists i :: lo <= i < hi && store[i] == t
    ensures forall i | lo <= i < hi :: store[i] in w
    ensures Descending(Listing(w, store, lo, hi)) && Matches(Listing(w, store, lo, hi), w)
  {
    forall i | lo <= i < hi ensures store[i] in w {}
    var rows := Listing(w, store, lo, hi);
    forall t | t in w ensures Holds(rows, t) {
      var i :| lo <= i < hi && store[i] == t;
      assert rows[hi - 1 - i].ts == t;
    }
  }

  // A window that shows store[lo..hi] is, as the model's list of rows, that
  // slice read backwards.
  lemma RowsAreTheSlice(rows: seq<Row>, f: Feed, store: seq<int>, lo: nat, hi: nat)
    requires StoreOk(store) && Descending(rows)
    requires Contents(rows) == f.window && ShowsSlice(f, store, lo, hi)
    ensures |rows| == hi - lo && forall i | 0 <= i < |rows| :: rows[i].ts == store[hi - 1 - i]
  {
    ListingHolds(f.window, store, lo, hi);
    var listing := Listing(f.window, store, lo, hi);
    ContentsAre(listing, f.window);
    ContentsDetermineRows(rows, listing);
  }
}
