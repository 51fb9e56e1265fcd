// No call is refused in vain: ChatStore.Allowed holds back exactly the calls that
// some continuation of the run would turn into a torn window.

module ChatStoreExact {
  import opened Wrappers
  import opened Extremes
  import opened ChatRequests
  import opened ChatFeed
  import opened ChatStore

  // ------------------------------------------------------------- what is safe

  // A state that the feed and the announced rows do not tell apart from this one.
  ghost predicate LooksLike(t: System, f: Feed, v: set<int>) {
    Whole(t) && t.feed == f && Shown(t.store, t.seen) == v
  }

  // Whatever is on its way, and whatever is done after the call, the window
  // stays one slice of the store.
  ghost predicate Safe(f: Feed, v: set<int>, call: Event) {
    forall t: System, moves: seq<Move> | LooksLike(t, f, v) && Runs(After(t, Call(call)), moves) ::
      NoHoles(AfterAll(After(t, Call(call)), moves))
  }

  ghost predicate Reaches(s: System, e: System) {
    exists moves: seq<Move> :: Runs(s, moves) && AfterAll(s, moves) == e
  }

  ghost predicate CanTear(s: System) { exists e :: Reaches(s, e) && !NoHoles(e) }

  // --------------------------------------------------------- runs, step by step

  lemma ReachesItself(s: System)
    ensures Reaches(s, s)
  {
    assert Runs(s, []) && AfterAll(s, []) == s;
  }

  lemma ReachesAfter(s: System, m: Move, e: System)
    requires Possible(s, m) && Reaches(After(s, m), e)
    ensures Reaches(s, e)
  {
    var moves: seq<Move> :| Runs(After(s, m), moves) && AfterAll(After(s, m), moves) == e;
    var more := [m] + moves;
    assert more[0] == m && more[1..] == moves;
    assert Runs(s, more);
  }

  // Everything announced and nothing on its way.
  ghost predicate Calm(s: System) {
    StoreOk(s.store) && s.seen == |s.store| && s.channel == []
  }

  ghost function All(s: System): set<int> { Shown(s.store, |s.store|) }

  lemma TailReaches(s: System, ts: int, e: System)
    requires s.channel == [Tail(ts)] && s.seen <= |s.store|
    requires Reaches(s.(feed := GotTail(s.feed, ts), channel := []), e)
    ensures Reaches(s, e)
  {
    assert After(s, Deliver) == s.(feed := GotTail(s.feed, ts), channel := []);
    ReachesAfter(s, Deliver, e);
  }

  lemma AnswerReaches(s: System, token: nat, a: Answer, e: System)
    requires Calm(s) && token in s.feed.books.asked && Faithful(s.feed.books.asked[token], a, All(s))
    requires Reaches(s.(feed := Resulted(s.feed, token, a)), e)
    ensures Reaches(s, e)
  {
    var sent := After(s, Send(Result(token, a)));
    assert After(sent, Deliver) == s.(feed := Resulted(s.feed, token, a));
    ReachesAfter(sent, Deliver, e);
    ReachesAfter(s, Send(Result(token, a)), e);
  }

  // A message lands, and word of it is taken at once.
  ghost function Grown(s: System, ts: int): System {
    s.(feed := GotTail(GotNew(s.feed, Row(ts, map[])), ts), store := s.store + [ts], seen := s.seen + 1)
  }

  lemma GrownReaches(s: System, ts: int, e: System)
    requires Calm(s) && ts > 0 && (forall t | t in All(s) :: t < ts) && Reaches(Grown(s, ts), e)
    ensures Reaches(s, e)
  {
    var row := Row(ts, map[]);
    assert forall i | 0 <= i < |s.store| :: s.store[i] in All(s);
    var a := After(s, Append(row));
    assert a.channel == [Arrived(row), Tail(ts)];
    var b := After(a, Deliver);
    assert b.channel == [Tail(ts)] && b.(feed := GotTail(b.feed, ts), channel := []) == Grown(s, ts);
    TailReaches(b, ts, e);
    ReachesAfter(a, Deliver, e);
    ReachesAfter(s, Append(row), e);
  }

  lemma GrownIs(s: System, ts: int)
    requires Calm(s) && ts > 0 && forall t | t in All(s) :: t < ts
    ensures var g := Grown(s, ts);
            && Calm(g) && All(g) == All(s) + {ts} && g.feed.books == s.feed.books
            && g.feed.window.Keys <= s.feed.window.Keys + {ts}
  {
    assert forall i | 0 <= i < |s.store| :: s.store[i] in All(s);
    ShownPrefix(s.store, ts, |s.store|);
    ShownNext(s.store + [ts], |s.store|);
  }

  lemma AnswerTears(s: System, token: nat, a: Answer)
    requires Calm(s) && token in s.feed.books.asked && Faithful(s.feed.books.asked[token], a, All(s))
    requires CanTear(s.(feed := Resulted(s.feed, token, a)))
    ensures CanTear(s)
  {
    var e :| Reaches(s.(feed := Resulted(s.feed, token, a)), e) && !NoHoles(e);
    AnswerReaches(s, token, a, e);
  }

  lemma RetryTears(s: System)
    requires Calm(s) && CanTear(s.(feed := Retried(s.feed)))
    ensures CanTear(s)
  {
    assert After(s, Call(Retry)) == s.(feed := Retried(s.feed));
    var e :| Reaches(After(s, Call(Retry)), e) && !NoHoles(e);
    ReachesAfter(s, Call(Retry), e);
  }

  lemma NextAppendTears(s: System, top: int)
    requires Calm(s) && IsMax(top, All(s)) && CanTear(Grown(s, top + 1))
    ensures CanTear(s)
  {
    var e :| Reaches(Grown(s, top + 1), e) && !NoHoles(e);
    assert top > 0;
    GrownReaches(s, top + 1, e);
  }

  // -------------------------------------------------------- holes, seen directly

  lemma AllBetween(s: System, x: int, t: int, y: int)
    requires Calm(s) && NoHoles(s) && x in s.feed.window && y in s.feed.window
    requires t in All(s) && x < t < y
    ensures t in s.feed.window
  {
    var lo: nat, hi: nat :| ShowsSlice(s.feed, s.store, lo, hi);
    var i :| lo <= i < hi && s.store[i] == x;
    var j :| lo <= j < hi && s.store[j] == y;
    var k :| 0 <= k < |s.store| && s.store[k] == t;
    assert lo <= k < hi;
  }

  lemma AllAbove(s: System, x: int, t: int)
    requires Calm(s) && NoHoles(s) && s.feed.atTail && x in s.feed.window && t in All(s) && x < t
    ensures t in s.feed.window
  {
    var lo: nat, hi: nat :| ShowsSlice(s.feed, s.store, lo, hi) && hi == s.seen;
    var i :| lo <= i < hi && s.store[i] == x;
    var k :| 0 <= k < |s.store| && s.store[k] == t;
    assert lo <= k < hi;
  }

  lemma HoleBetween(s: System, x: int, t: int, y: int)
    requires Calm(s) && x in s.feed.window && y in s.feed.window
    requires t in All(s) && t !in s.feed.window && x < t < y
    ensures CanTear(s)
  {
    if NoHoles(s) { AllBetween(s, x, t, y); }
    ReachesItself(s);
  }

  lemma HoleAbove(s: System, x: int, t: int)
    requires Calm(s) && s.feed.atTail && x in s.feed.window
    requires t in All(s) && t !in s.feed.window && x < t
    ensures CanTear(s)
  {
    if NoHoles(s) { AllAbove(s, x, t); }
    ReachesItself(s);
  }

  // ------------------------------------------------------- answers of one row

  function Lone(ts: int): seq<Row> { [Row(ts, map[])] }

  ghost predicate NextBelow(v: set<int>, c: int, x: int) {
    x in v && x < c && forall t | t in v && t < c :: t <= x
  }

  ghost predicate NextAbove(v: set<int>, c: int, x: int) {
    x in v && c < x && forall t | t in v && c < t :: x <= t
  }

  ghost function Below(v: set<int>, c: int, t: int): (x: int)
    requires t in v && t < c
    ensures NextBelow(v, c, x)
  {
    var all := set y | y in v && y < c;
    assert t in all && forall y | y in v && y < c :: y in all;
    Max(all)
  }

  ghost function Above(v: set<int>, c: int, t: int): (x: int)
    requires t in v && c < t
    ensures NextAbove(v, c, x)
  {
    var all := set y | y in v && c < y;
    assert t in all && forall y | y in v && c < y :: y in all;
    Min(all)
  }

  lemma LoneFaithful(v: set<int>, c: int, x: int, anchor: int)
    requires x in v && x != 0
    ensures Faithful(Goto, Slice(anchor, Lone(x)), v)
    ensures NextBelow(v, c, x) ==> Faithful(History(Old, Some(c)), Page(Lone(x)), v)
    ensures NextAbove(v, c, x) ==> Faithful(History(New, Some(c)), Page(Lone(x)), v)
  {
    assert Stamps(Lone(x)) == {x};
  }

  lemma PageLands(f: Feed, token: nat, x: int)
    requires token in f.books.pending && x != 0
    requires f.books.pending[token] == Old || f.books.pending[token] == New
    ensures var g := Resulted(f, token, Page(Lone(x)));
            g.window.Keys == f.window.Keys + {x} && (f.atTail ==> g.atTail)
  {
    PageMerges(f, Lone(x));
    assert Stamps(Lone(x)) == {x};
  }

  lemma SliceLands(f: Feed, token: nat, x: int)
    requires token in f.books.pending && x != 0
    requires f.books.pending[token] == Jump && -1 !in f.window
    ensures var g := Resulted(f, token, Slice(-1, Lone(x)));
            && g.window.Keys == {x}
            && g.books.pending == f.books.pending - {token} && g.books.asked == f.books.asked
  {
    PageMerges(f, Lone(x));
    assert Stamps(Lone(x)) == {x};
  }

  // ------------------------------------------------ requests still unanswered

  ghost predicate Waiting(f: Feed, token: nat, dir: Dir, ask: Ask) {
    && token in f.books.pending && f.books.pending[token] == dir
    && token in f.books.asked && f.books.asked[token] == ask
  }

  // A jump out, and a page beside row c asked for under it.
  ghost predicate UnderAJump(s: System, jump: nat, page: nat, dir: Dir, c: int) {
    && Calm(s) && -1 !in s.feed.window && c in All(s) && c > 0
    && Waiting(s.feed, jump, Jump, Goto) && Waiting(s.feed, page, dir, History(dir, Some(c)))
  }

  lemma GrownUnderAJump(s: System, jump: nat, page: nat, dir: Dir, c: int, top: int)
    requires UnderAJump(s, jump, page, dir, c) && IsMax(top, All(s))
    ensures var g := Grown(s, top + 1);
            && UnderAJump(g, jump, page, dir, c)
            && All(g) == All(s) + {top + 1} && IsMax(top + 1, All(g))
  {
    GrownIs(s, top + 1);
  }

  // The jump lands on a message newer than any so far, and then the page lands
  // below the row it was asked from, which is gone.
  lemma OlderUnderAJumpTears(s: System, jump: nat, page: nat, c: int)
    requires UnderAJump(s, jump, page, Old, c) && !Lowest(All(s), c)
    ensures CanTear(s)
  {
    OlderAfterAnArrivalTears(s, jump, page, c, Below(All(s), c, Min(All(s))), Max(All(s)));
  }

  lemma OlderAfterAnArrivalTears(s: System, jump: nat, page: nat, c: int, x: int, top: int)
    requires UnderAJump(s, jump, page, Old, c) && NextBelow(All(s), c, x) && IsMax(top, All(s))
    ensures CanTear(s)
  {
    GrownUnderAJump(s, jump, page, Old, c, top);
    JumpThenOlderTears(Grown(s, top + 1), jump, page, c, x, top + 1);
    NextAppendTears(s, top);
  }

  lemma JumpThenOlderTears(a: System, jump: nat, page: nat, c: int, x: int, y: int)
    requires UnderAJump(a, jump, page, Old, c)
    requires NextBelow(All(a), c, x) && 0 < x < c < y && y in All(a)
    ensures CanTear(a)
  {
    SliceLands(a.feed, jump, y);
    var b := a.(feed := Resulted(a.feed, jump, Slice(-1, Lone(y))));
    PageLands(b.feed, page, x);
    HoleBetween(b.(feed := Resulted(b.feed, page, Page(Lone(x)))), x, c, y);
    LoneFaithful(All(a), c, x, -1);
    LoneFaithful(All(a), c, y, -1);
    AnswerTears(b, page, Page(Lone(x)));
    AnswerTears(a, jump, Slice(-1, Lone(y)));
  }

  // Three messages arrive and the jump lands on the last; the page brings what
  // followed the window, and the middle one of the three is missing.
  lemma NewerUnderAJumpTears(s: System, jump: nat, page: nat, c: int)
    requires UnderAJump(s, jump, page, New, c)
    ensures CanTear(s)
  {
    var top := Max(All(s));
    GrownUnderAJump(s, jump, page, New, c, top);
    TwoMoreTear(Grown(s, top + 1), jump, page, c, top + 1);
    NextAppendTears(s, top);
  }

  lemma TwoMoreTear(s: System, jump: nat, page: nat, c: int, top: int)
    requires UnderAJump(s, jump, page, New, c) && IsMax(top, All(s)) && c < top
    ensures CanTear(s)
  {
    GrownUnderAJump(s, jump, page, New, c, top);
    OneMoreTears(Grown(s, top + 1), jump, page, c, top, top + 1);
    NextAppendTears(s, top);
  }

  lemma OneMoreTears(s: System, jump: nat, page: nat, c: int, t: int, top: int)
    requires UnderAJump(s, jump, page, New, c) && IsMax(top, All(s)) && c < t < top && t in All(s)
    ensures CanTear(s)
  {
    GrownUnderAJump(s, jump, page, New, c, top);
    var a := Grown(s, top + 1);
    JumpThenNewerTears(a, jump, page, c, Above(All(a), c, t), top, top + 1);
    NextAppendTears(s, top);
  }

  lemma JumpThenNewerTears(a: System, jump: nat, page: nat, c: int, x: int, t: int, y: int)
    requires UnderAJump(a, jump, page, New, c)
    requires NextAbove(All(a), c, x) && 0 < x < t < y && t in All(a) && y in All(a)
    ensures CanTear(a)
  {
    SliceLands(a.feed, jump, y);
    var b := a.(feed := Resulted(a.feed, jump, Slice(-1, Lone(y))));
    PageLands(b.feed, page, x);
    HoleBetween(b.(feed := Resulted(b.feed, page, Page(Lone(x)))), x, t, y);
    LoneFaithful(All(a), c, x, -1);
    LoneFaithful(All(a), c, y, -1);
    AnswerTears(b, page, Page(Lone(x)));
    AnswerTears(a, jump, Slice(-1, Lone(y)));
  }

  // The page brings the first of two rows that lie between its cursor and the
  // window, or the first of two above it when the empty window claims the tail.
  lemma NewerBesideTears(s: System, page: nat, c: int)
    requires Calm(s) && Waiting(s.feed, page, New, History(New, Some(c)))
    requires c in All(s)
    requires if s.feed.window == map[] then s.feed.atTail && !AtMostOneAbove(All(s), c)
             else !AtMostOneBetween(All(s), c, Oldest(s.feed.window))
    ensures CanTear(s)
  {
    var v, w := All(s), s.feed.window;
    var t, y :| t in v && y in v && c < t && c < y && t != y
                && (w != map[] ==> t < Oldest(w) && y < Oldest(w));
    var x, z := Above(v, c, t), if t < y then y else t;
    LoneFaithful(v, c, x, -1);
    PageLands(s.feed, page, x);
    var e := s.(feed := Resulted(s.feed, page, Page(Lone(x))));
    if w == map[] {
      HoleAbove(e, x, z);
    } else {
      HoleBetween(e, x, z, Oldest(w));
    }
    AnswerTears(s, page, Page(Lone(x)));
  }

  lemma OlderBesideTears(s: System, page: nat, c: int)
    requires Calm(s) && Waiting(s.feed, page, Old, History(Old, Some(c)))
    requires s.feed.window != map[] && !AtMostOneBetween(All(s), Newest(s.feed.window), c)
    ensures CanTear(s)
  {
    var v, w := All(s), s.feed.window;
    var t, y :| t in v && y in v && t < c && y < c && t != y && Newest(w) < t && Newest(w) < y;
    var x, z := Below(v, c, t), if t < y then t else y;
    LoneFaithful(v, c, x, -1);
    PageLands(s.feed, page, x);
    HoleBetween(s.(feed := Resulted(s.feed, page, Page(Lone(x)))), Newest(w), z, x);
    AnswerTears(s, page, Page(Lone(x)));
  }

  // An opening page, empty or not, makes the window claim the tail.
  lemma OpeningPageTears(s: System, x: int, t: int)
    requires Calm(s) && Balanced(s.feed.books) && s.feed.books.ready && Out(s.feed.books, Init)
    requires x in s.feed.window && t in All(s) && t !in s.feed.window && x < t
    ensures CanTear(s)
  {
    if Init in s.feed.books.inflight {
      OpeningAnswerTears(s, x, t);
    } else {
      var g := Retried(s.feed);
      RetryAsksAgain(s.feed);
      OpeningAnswerTears(s.(feed := g), x, t);
      RetryTears(s);
    }
  }

  lemma OpeningAnswerTears(s: System, x: int, t: int)
    requires Calm(s) && Balanced(s.feed.books) && Init in s.feed.books.inflight
    requires x in s.feed.window && t in All(s) && t !in s.feed.window && x < t
    ensures CanTear(s)
  {
    assert HasToken(s.feed.books.pending, Init);
    var token :| token in s.feed.books.pending && s.feed.books.pending[token] == Init;
    assert Stamps(Page([]).Rows()) == {};
    HoleAbove(s.(feed := Resulted(s.feed, token, Page([]))), x, t);
    AnswerTears(s, token, Page([]));
  }

  ghost predicate OpeningAsked(f: Feed, w: Window) {
    Balanced(f.books) && Init in f.books.inflight && f.window == w
  }

  lemma OtherPagesAsked(f: Feed)
    requires OpeningAsked(f, f.window)
    ensures OpeningAsked(OlderFrom(f), f.window) && OpeningAsked(NewerFrom(f), f.window)
  {
    IssueHistoryKeeps(f.books, Old, Some(Oldest(f.window)));
    IssueHistoryKeeps(f.books, New, Some(Newest(f.window)));
  }

  lemma RestAsked(f: Feed, a: Feed)
    requires OpeningAsked(a, f.window)
    ensures var b := if Old in f.books.failed && f.window != map[] then OlderFrom(a) else a;
            OpeningAsked(if New in f.books.failed && f.window != map[] then NewerFrom(b) else b, f.window)
  {
    OtherPagesAsked(a);
    OtherPagesAsked(if Old in f.books.failed && f.window != map[] then OlderFrom(a) else a);
  }

  lemma RetryAsksAgain(f: Feed)
    requires Balanced(f.books) && f.books.ready && Init in f.books.failed
    ensures OpeningAsked(Retried(f), f.window)
  {
    IssueHistoryKeeps(f.books, Init, None);
    RestAsked(f, LoadInitial(f));
  }

  // The older page lands in the emptied window, which the opening page then
  // declares to be at the tail.
  lemma OlderThenOpeningTears(s: System, page: nat, c: int)
    requires Calm(s) && Balanced(s.feed.books) && s.feed.books.ready && Out(s.feed.books, Init)
    requires s.feed.window == map[] && Waiting(s.feed, page, Old, History(Old, Some(c)))
    requires c in All(s) && !Lowest(All(s), c)
    ensures CanTear(s)
  {
    var x := Below(All(s), c, Min(All(s)));
    assert x > 0;
    LoneFaithful(All(s), c, x, -1);
    PageLands(s.feed, page, x);
    PageSettled(s.feed, page);
    OpeningPageTears(s.(feed := Resulted(s.feed, page, Page(Lone(x)))), x, c);
    AnswerTears(s, page, Page(Lone(x)));
  }

  // ------------------------------------------------------ what a refusal saves

  // The call made of a state that looks like this one, with nothing to come but
  // word of the newest message; and that word taken.
  ghost function Rested(s: System): System
    requires 0 < s.seen <= |s.store|
  {
    System(s.feed, s.store[..s.seen], s.seen, [Tail(s.store[s.seen - 1])])
  }

  ghost function Poised(s: System, call: Event): System
    requires 0 < s.seen <= |s.store|
  {
    System(GotTail(Step(s.feed, call), s.store[s.seen - 1]), s.store[..s.seen], s.seen, [])
  }

  lemma RestedLooksLike(s: System)
    requires Whole(s) && s.seen > 0
    ensures LooksLike(Rested(s), s.feed, Shown(s.store, s.seen))
  {
    var t := Rested(s);
    assert Shown(t.store, t.seen) == Shown(s.store, s.seen) by {
      assert forall i | 0 <= i < s.seen :: t.store[i] == s.store[i];
    }
    assert Truthful([], t.seen, t.store, t.feed.books.asked);
    assert t.channel[1..] == [];
  }

  lemma Refuted(s: System, call: Event)
    requires Whole(s) && s.seen > 0 && CanTear(Poised(s, call))
    ensures !Safe(s.feed, Shown(s.store, s.seen), call)
  {
    var t := Rested(s);
    RestedLooksLike(s);
    var e :| Reaches(Poised(s, call), e) && !NoHoles(e);
    TailReaches(After(t, Call(call)), s.store[s.seen - 1], e);
    var moves: seq<Move> :| Runs(After(t, Call(call)), moves) && AfterAll(After(t, Call(call)), moves) == e;
  }

  // p is a state in which s has made the call and nothing is on its way.
  ghost predicate HasCalled(p: System, s: System, call: Event) {
    var f := Step(s.feed, call);
    && s.seen <= |s.store| && Calm(p) && All(p) == Shown(s.store, s.seen)
    && p.feed.window == f.window && p.feed.books == f.books
    && (p.feed.atTail == f.atTail || (!f.atTail && f.window != map[]))
  }

  lemma PoisedHasCalled(s: System, call: Event)
    requires Whole(s) && s.seen > 0
    ensures HasCalled(Poised(s, call), s, call)
  {
    RestedLooksLike(s);
  }

  lemma RowsSeen(s: System)
    requires Whole(s) && s.feed.window != map[]
    ensures s.seen > 0 && -1 !in s.feed.window
    ensures Oldest(s.feed.window) in Shown(s.store, s.seen) && Newest(s.feed.window) in Shown(s.store, s.seen)
  {
    assert Oldest(s.feed.window) in Shown(s.store, s.seen);
  }

  // A page asked for now is waited for under the next token.
  lemma AskedNow(f: Feed, dir: Dir, cursor: int)
    requires Balanced(f.books) && dir != Jump && Jump in f.books.inflight
    requires f.(books := IssueHistory(f.books, dir, Some(cursor))) != f
    ensures var g := f.(books := IssueHistory(f.books, dir, Some(cursor)));
            && Waiting(g, f.books.next, dir, History(dir, Some(cursor)))
            && exists jump :: Waiting(g, jump, Jump, Goto)
  {
    var g := f.(books := IssueHistory(f.books, dir, Some(cursor)));
    assert HasToken(f.books.pending, Jump);
    var jump :| jump in f.books.pending && f.books.pending[jump] == Jump;
    assert Waiting(g, jump, Jump, Goto);
  }

  lemma OlderRefused(s: System, p: System)
    requires Whole(s) && !Allowed(s.feed, Shown(s.store, s.seen), LoadOlder) && HasCalled(p, s, LoadOlder)
    ensures CanTear(p)
  {
    RowsSeen(s);
    var c := Oldest(s.feed.window);
    AskedNow(s.feed, Old, c);
    var jump :| Waiting(OlderFrom(s.feed), jump, Jump, Goto);
    OlderUnderAJumpTears(p, jump, s.feed.books.next, c);
  }

  lemma NewerRefused(s: System, p: System)
    requires Whole(s) && !Allowed(s.feed, Shown(s.store, s.seen), LoadNewer) && HasCalled(p, s, LoadNewer)
    ensures CanTear(p)
  {
    RowsSeen(s);
    var c := Newest(s.feed.window);
    AskedNow(s.feed, New, c);
    var jump :| Waiting(NewerFrom(s.feed), jump, Jump, Goto);
    NewerUnderAJumpTears(p, jump, s.feed.books.next, c);
  }

  // The page that no longer fits was asked from c, and what is left of the
  // window stands two rows or more above it, or claims a tail two rows or more
  // above it.
  lemma UnfitNewer(f: Feed, n: int, v: set<int>) returns (page: nat, c: int)
    requires RequestsOk(f, v) && WindowOk(f, v) && !Allowed(f, v, CullOld(n))
    ensures var g := CulledOld(f, n);
            && Waiting(g, page, New, History(New, Some(c))) && c in v
            && if g.window == map[] then g.atTail && !AtMostOneAbove(v, c)
               else !AtMostOneBetween(v, c, Oldest(g.window))
  {
    var g := CulledOld(f, n);
    CulledOldIs(f, n);
    page :| page in g.books.pending && g.books.pending[page] == New && !AskedNewFits(g, v, page);
    assert AskedNewFits(f, v, page);
    c := f.books.asked[page].cursor.value;
  }

  lemma CullOldRefused(s: System, n: int, p: System)
    requires Whole(s) && !Allowed(s.feed, Shown(s.store, s.seen), CullOld(n)) && HasCalled(p, s, CullOld(n))
    ensures CanTear(p)
  {
    CulledOldIs(s.feed, n);
    var page, c := UnfitNewer(s.feed, n, Shown(s.store, s.seen));
    NewerBesideTears(p, page, c);
  }

  // What a cull of the newest rows leaves: rows below those that went, and the
  // opening page as it was.
  ghost predicate CulledFrom(g: Feed, f: Feed) {
    && Balanced(g.books) && g.books.ready == f.books.ready
    && Out(g.books, Init) == Out(f.books, Init)
    && g.window.Keys < f.window.Keys
    && forall k, x | k in g.window && x in f.window && x !in g.window :: k < x
  }

  lemma SomeMore(a: set<int>, b: set<int>)
    requires a < b
    ensures b - a != {}
  {
    assert b == (b - a) + a;
  }

  lemma CulledUnderTheOpeningPage(p: System, f: Feed)
    requires CulledFrom(p.feed, f) && Calm(p) && f.window.Keys <= All(p)
    requires p.feed.window != map[] && Out(f.books, Init) && f.books.ready
    ensures CanTear(p)
  {
    SomeMore(p.feed.window.Keys, f.window.Keys);
    var gone := Pick(f.window.Keys - p.feed.window.Keys);
    OpeningPageTears(p, Oldest(p.feed.window), gone);
  }

  lemma CulledUnderAnOlderPage(p: System, f: Feed, page: nat, c: int)
    requires CulledFrom(p.feed, f) && Calm(p) && (Out(f.books, Init) ==> f.books.ready)
    requires Waiting(p.feed, page, Old, History(Old, Some(c)))
    requires c in All(p) && !Lowest(All(p), c)
    requires if p.feed.window == map[] then Out(p.feed.books, Init)
             else !AtMostOneBetween(All(p), Newest(p.feed.window), c)
    ensures CanTear(p)
  {
    if p.feed.window == map[] {
      OlderThenOpeningTears(p, page, c);
    } else {
      OlderBesideTears(p, page, c);
    }
  }

  lemma CullNewTears(s: System, p: System, g: Feed)
    requires Whole(s) && Calm(p) && All(p) == Shown(s.store, s.seen) && CulledFrom(g, s.feed)
    requires p.feed.window == g.window && p.feed.books == g.books
    requires OlderPagesFit(g, All(p)) ==> Out(s.feed.books, Init) && g.window != map[]
    requires !OlderPagesFit(g, All(p)) ==> exists page, c :: UnfitFor(g, All(p), page, c)
    ensures CanTear(p)
  {
    if OlderPagesFit(g, All(p)) {
      CulledUnderTheOpeningPage(p, s.feed);
    } else {
      var page, c :| UnfitFor(g, All(p), page, c);
      CulledUnderAnOlderPage(p, s.feed, page, c);
    }
  }

  ghost predicate UnfitFor(g: Feed, v: set<int>, page: nat, c: int) {
    && Waiting(g, page, Old, History(Old, Some(c))) && c in v && !Lowest(v, c)
    && if g.window == map[] then Out(g.books, Init)
       else !AtMostOneBetween(v, Newest(g.window), c)
  }

  lemma UnfitOlder(f: Feed, g: Feed, v: set<int>)
    requires Balanced(f.books) && OlderPagesFit(f, v) && NoNewPages(f, g) && New !in g.books.inflight
    requires !OlderPagesFit(g, v) && !g.atTail && f.window != map[]
    requires g.window != map[] ==> Oldest(g.window) == Oldest(f.window)
    ensures exists page, c :: UnfitFor(g, v, page, c)
  {
    var page :| page in g.books.pending && g.books.pending[page] == Old && !AskedOldFits(g, v, page);
    assert AskedOldFits(f, v, page);
    assert UnfitFor(g, v, page, f.books.asked[page].cursor.value);
  }

  lemma CullNewRefused(s: System, n: int, p: System)
    requires Whole(s) && !Allowed(s.feed, Shown(s.store, s.seen), CullNew(n)) && HasCalled(p, s, CullNew(n))
    ensures CanTear(p)
  {
    var g, v := CulledNew(s.feed, n), Shown(s.store, s.seen);
    CulledNewIs(s.feed, n);
    if !OlderPagesFit(g, v) { UnfitOlder(s.feed, g, v); }
    CullNewTears(s, p, g);
  }

  lemma RefusedTears(s: System, call: Event, p: System)
    requires Whole(s) && IsCall(call) && !Allowed(s.feed, Shown(s.store, s.seen), call) && HasCalled(p, s, call)
    ensures CanTear(p)
  {
    match call {
      case LoadOlder => OlderRefused(s, p);
      case LoadNewer => NewerRefused(s, p);
      case CullOld(n) => CullOldRefused(s, n, p);
      case CullNew(n) => CullNewRefused(s, n, p);
    }
  }

  // A call that can be refused is one that finds rows on show.
  lemma RefusedSeesRows(s: System, call: Event)
    requires Whole(s) && IsCall(call) && !Allowed(s.feed, Shown(s.store, s.seen), call)
    ensures s.seen > 0
  {
    if call.CullOld? { CulledOldIs(s.feed, call.count); }
    if call.CullNew? { CulledNewIs(s.feed, call.count); }
    RowsSeen(s);
  }

  // ------------------------------------------------------------- the theorem

  lemma AllowedIsSafe(t: System, call: Event, moves: seq<Move>)
    requires Whole(t) && Allowed(t.feed, Shown(t.store, t.seen), call)
    requires Runs(After(t, Call(call)), moves)
    ensures NoHoles(AfterAll(After(t, Call(call)), moves))
  {
    CallWhole(t, call);
    RunWhole(After(t, Call(call)), moves);
    ConvexIsSlice(AfterAll(After(t, Call(call)), moves));
  }

  // In every state that meets the invariant, and so in every state a run can
  // reach, a call is allowed if and only if nothing that can follow it leaves a
  // hole in the window, as far as the feed and the announced rows tell.
  lemma AllowedIsExact(s: System, call: Event)
    requires Whole(s) && IsCall(call)
    ensures var v := Shown(s.store, s.seen);
            Allowed(s.feed, v, call) <==> Safe(s.feed, v, call)
  {
    var v := Shown(s.store, s.seen);
    if Allowed(s.feed, v, call) {
      forall t: System, moves: seq<Move> | LooksLike(t, s.feed, v) && Runs(After(t, Call(call)), moves)
        ensures NoHoles(AfterAll(After(t, Call(call)), moves))
      {
        AllowedIsSafe(t, call, moves);
      }
    } else {
      RefusedSeesRows(s, call);
      PoisedHasCalled(s, call);
      RefusedTears(s, call, Poised(s, call));
      Refuted(s, call);
    }
  }

  // With nothing on its way the run that tears the window starts right here.
  lemma AllowedIsExactWhenCalm(s: System, call: Event)
    requires Whole(s) && Calm(s) && IsCall(call)
    ensures Allowed(s.feed, All(s), call) <==> !CanTear(After(s, Call(call)))
  {
    var p := After(s, Call(call));
    if Allowed(s.feed, All(s), call) {
      forall e | Reaches(p, e) ensures NoHoles(e) {
        var moves: seq<Move> :| Runs(p, moves) && AfterAll(p, moves) == e;
        AllowedIsSafe(s, call, moves);
      }
    } else {
      RefusedTears(s, call, p);
    }
  }
}
