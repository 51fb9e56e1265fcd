// What each event comes to for the rows on show, field by field, and for the
// claim to be at the tail. Nothing here says how the step is made.

module ChatMeaning {
  import opened Wrappers
  import opened ChatRequests
  import opened ChatFeed

  // ----------------------------------------------------------------- one field

  function Field(w: Window, ts: int, name: string): Option<string> {
    if ts in w && name in w[ts] then Some(w[ts][name]) else None
  }

  // Every row but those at the given times is as it was.
  ghost predicate RestAsWas(w: Window, u: Window, but: set<int>) {
    forall t | t !in but :: (t in u <==> t in w) && (t in w ==> u[t] == w[t])
  }

  // Only the rows changed.
  ghost predicate OnlyRows(f: Feed, g: Feed) { g == f.(window := g.window) }

  function Or(a: Option<string>, b: Option<string>): Option<string> { if a.Some? then a else b }

  // An edit writes over the fields it brings and leaves the row's others; a row
  // not on show stays off it.
  lemma AnEditWritesOver(f: Feed, row: Row)
    requires Sound(f)
    ensures var g := Step(f, Edited(row));
            && OnlyRows(f, g) && g.window.Keys == f.window.Keys && RestAsWas(f.window, g.window, {row.ts})
            && (row.ts in f.window ==> forall k ::
                  Field(g.window, row.ts, k)
                    == if k in row.fields then Some(row.fields[k]) else Field(f.window, row.ts, k))
  {}

  // So does a change of status.
  lemma AStatusWritesOver(f: Feed, ts: int, fields: Fields)
    ensures var g := Step(f, Status(ts, fields));
            && OnlyRows(f, g) && g.window.Keys == f.window.Keys && RestAsWas(f.window, g.window, {ts})
            && (ts in f.window ==> forall k ::
                  Field(g.window, ts, k) == if k in fields then Some(fields[k]) else Field(f.window, ts, k))
  {}

  // A retracted row stays where it is, without what it said and marked for it.
  lemma ARetractionLeavesAStone(f: Feed, ts: int)
    ensures var g := Step(f, Retracted(ts));
            && OnlyRows(f, g) && g.window.Keys == f.window.Keys && RestAsWas(f.window, g.window, {ts})
            && (ts in f.window ==>
                  && Field(g.window, ts, "content") == None && Field(g.window, ts, "retracted") == Some("true")
                  && forall k | k != "content" && k != "retracted" ::
                       Field(g.window, ts, k) == Field(f.window, ts, k))
  {
    assert "content" != "retracted" by { assert |"content"| != |"retracted"|; }
  }

  // A send the server put at another time leaves its own time, arrives at the
  // new one with the status given, and writes over a row already there; with no
  // new time it only takes the status.
  lemma AConfirmationMovesTheRow(f: Feed, ts: int, newTs: int, status: string)
    ensures var g := Step(f, Confirmed(ts, newTs, status));
            && OnlyRows(f, g)
            && (ts !in f.window ==> g == f)
            && (ts in f.window && (newTs == 0 || newTs == ts) ==>
                  && g.window.Keys == f.window.Keys && RestAsWas(f.window, g.window, {ts})
                  && forall k :: Field(g.window, ts, k)
                       == if k == "server_status" then Some(status) else Field(f.window, ts, k))
            && (ts in f.window && newTs != 0 && newTs != ts ==>
                  && g.window.Keys == f.window.Keys - {ts} + {newTs} && RestAsWas(f.window, g.window, {ts, newTs})
                  && forall k :: Field(g.window, newTs, k)
                       == if k == "server_status" then Some(status)
                          else Or(Field(f.window, ts, k), Field(f.window, newTs, k)))
  {}

  // A live message is shown as it came, at the tail and outside a catchup, and
  // nowhere else.
  lemma AnArrivalIsShownAtTheTail(f: Feed, row: Row)
    requires row.ts != 0
    ensures var g := Step(f, Arrived(row));
            if f.atTail && !f.catchupBusy then
              && OnlyRows(f, g) && g.window.Keys == f.window.Keys + {row.ts}
              && RestAsWas(f.window, g.window, {row.ts})
              && forall k :: Field(g.window, row.ts, k)
                   == if k in row.fields then Some(row.fields[k]) else Field(f.window, row.ts, k)
            else g == f
  {}

  // ------------------------------------------------------------------- the culls

  ghost predicate KeepsOnly(w: Window, u: Window, n: nat) {
    && u.Keys <= w.Keys && |u| == n && forall t | t in u :: u[t] == w[t]
  }

  lemma OldestGo(w: Window, n: nat)
    requires n <= |w|
    ensures var u := DropOldest(w, n);
            KeepsOnly(w, u, |w| - n) && forall k, x | k in u && x in w && x !in u :: x < k
  {
    DropOldestKeeps(w, n);
    forall k, x | k in DropOldest(w, n) && x in w && x !in DropOldest(w, n) ensures x < k {
      DropOldestDrops(w, n, k, x);
    }
  }

  lemma NewestGo(w: Window, n: nat)
    requires n <= |w|
    ensures var u := DropNewest(w, n);
            KeepsOnly(w, u, |w| - n) && forall k, x | k in u && x in w && x !in u :: k < x
  {
    DropNewestKeeps(w, n);
    forall k, x | k in DropNewest(w, n) && x in w && x !in DropNewest(w, n) ensures k < x {
      DropNewestDrops(w, n, k, x);
    }
  }

  // So many of the oldest rows go, all of them if there are no more, and nothing
  // else.
  lemma ACullTakesTheOldest(f: Feed, n: nat)
    ensures var g := Step(f, CullOld(n));
            && KeepsOnly(f.window, g.window, if n < |f.window| then |f.window| - n else 0)
            && (forall k, x | k in g.window && x in f.window && x !in g.window :: x < k)
            && g.atTail == f.atTail && g.tailTs == f.tailTs
  {
    OldestGo(f.window, Least(n, |f.window|));
  }

  // The page before them is given up, and no other request.
  lemma ACullGivesUpTheOlderPage(f: Feed, n: nat, d: Dir)
    ensures d in Step(f, CullOld(n)).books.inflight <==>
              d in f.books.inflight && (d != Old || n == 0 || f.window == map[])
  {}

  // And of the newest, with the tail.
  lemma ACullTakesTheNewest(f: Feed, n: nat)
    ensures var g := Step(f, CullNew(n));
            && KeepsOnly(f.window, g.window, if n < |f.window| then |f.window| - n else 0)
            && (forall k, x | k in g.window && x in f.window && x !in g.window :: k < x)
            && g.atTail == (f.atTail && (n == 0 || f.window == map[])) && g.tailTs == f.tailTs
  {
    NewestGo(f.window, Least(n, |f.window|));
  }

  // The pages after them are given up, and no other request.
  lemma ACullGivesUpTheNewerPages(f: Feed, n: nat, d: Dir)
    requires Sound(f)
    ensures d in Step(f, CullNew(n)).books.inflight <==>
              d in f.books.inflight && ((d != New && d != Catchup) || n == 0 || f.window == map[])
  {
    CancelEachKeeps(f.books, [New, Catchup]);
    CancelOthers(f.books, [New, Catchup], d);
  }

  lemma {:induction false} CancelOthers(b: Books, dirs: seq<Dir>, d: Dir)
    ensures d !in dirs ==> (d in CancelEach(b, dirs).inflight <==> d in b.inflight)
    ensures CancelEach(b, dirs).inflight <= b.inflight
    decreases |dirs|
  {
    if dirs != [] { CancelOthers(CancelDir(b, dirs[0]), dirs[1..], d); }
  }

  // --------------------------------------------------------------- a whole page

  ghost predicate Mentions(rows: seq<Row>, ts: int, name: string) {
    exists i :: 0 <= i < |rows| && rows[i].ts == ts && name in rows[i].fields
  }

  ghost predicate LastSaid(rows: seq<Row>, ts: int, name: string, said: string) {
    exists i ::
      && 0 <= i < |rows| && rows[i].ts == ts && name in rows[i].fields && rows[i].fields[name] == said
      && forall j | i < j < |rows| && rows[j].ts == ts :: name !in rows[j].fields
  }

  // What a page says last of a field stands; what it does not speak of stands as
  // it was; and no row is left out or made up.
  ghost predicate Merged(w: Window, rows: seq<Row>, u: Window) {
    && (forall t :: t in u <==> t in w || (t != 0 && exists i :: 0 <= i < |rows| && rows[i].ts == t))
    && (forall t, k | t != 0 && Mentions(rows, t, k) ::
          t in u && k in u[t] && LastSaid(rows, t, k, u[t][k]))
    && (forall t, k | t == 0 || !Mentions(rows, t, k) :: Field(u, t, k) == Field(w, t, k))
  }

  lemma MentionsMore(rows: seq<Row>, r: Row, ts: int, name: string)
    ensures Mentions(rows + [r], ts, name) <==> Mentions(rows, ts, name) || (r.ts == ts && name in r.fields)
  {
    var more := rows + [r];
    assert more[|rows|] == r && forall i | 0 <= i < |rows| :: more[i] == rows[i];
    if Mentions(rows, ts, name) {
      var i :| 0 <= i < |rows| && rows[i].ts == ts && name in rows[i].fields;
      assert more[i] == rows[i];
    }
  }

  lemma LastSaidMore(rows: seq<Row>, r: Row, ts: int, name: string, said: string)
    ensures r.ts == ts && name in r.fields && r.fields[name] == said ==> LastSaid(rows + [r], ts, name, said)
    ensures !(r.ts == ts && name in r.fields) && LastSaid(rows, ts, name, said) ==>
              LastSaid(rows + [r], ts, name, said)
  {
    var more := rows + [r];
    assert more[|rows|] == r && forall i | 0 <= i < |rows| :: more[i] == rows[i];
    if !(r.ts == ts && name in r.fields) && LastSaid(rows, ts, name, said) {
      var i :| && 0 <= i < |rows| && rows[i].ts == ts && name in rows[i].fields && rows[i].fields[name] == said
               && forall j | i < j < |rows| && rows[j].ts == ts :: name !in rows[j].fields;
      assert more[i] == rows[i];
    }
  }

  lemma KeysMore(w: Window, rows: seq<Row>, u: Window, r: Row, t: int)
    requires Merged(w, rows, u)
    ensures t in Merge(u, r) <==> t in w || (t != 0 && exists i :: 0 <= i < |rows + [r]| && (rows + [r])[i].ts == t)
  {
    var more := rows + [r];
    assert more[|rows|] == r && forall i | 0 <= i < |rows| :: more[i] == rows[i];
    if t != 0 && t in u && t !in w {
      var i :| 0 <= i < |rows| && rows[i].ts == t;
      assert more[i].ts == t;
    }
  }

  lemma FieldMore(w: Window, rows: seq<Row>, u: Window, r: Row, t: int, k: string)
    requires Merged(w, rows, u) && (t == 0 || !Mentions(rows + [r], t, k))
    ensures Field(Merge(u, r), t, k) == Field(w, t, k)
  {
    MentionsMore(rows, r, t, k);
  }

  lemma MergedMore(w: Window, rows: seq<Row>, u: Window, r: Row)
    requires Merged(w, rows, u)
    ensures Merged(w, rows + [r], Merge(u, r))
  {
    var more, v := rows + [r], Merge(u, r);
    forall t ensures t in v <==> t in w || (t != 0 && exists i :: 0 <= i < |more| && more[i].ts == t) {
      KeysMore(w, rows, u, r, t);
    }
    forall t, k | t != 0 && Mentions(more, t, k) ensures t in v && k in v[t] && LastSaid(more, t, k, v[t][k]) {
      MentionsMore(rows, r, t, k);
      SaidMore(w, rows, u, r, t, k);
    }
    forall t, k | t == 0 || !Mentions(more, t, k) ensures Field(v, t, k) == Field(w, t, k) {
      FieldMore(w, rows, u, r, t, k);
    }
  }

  lemma SaidMore(w: Window, rows: seq<Row>, u: Window, r: Row, t: int, k: string)
    requires Merged(w, rows, u) && t != 0 && (Mentions(rows, t, k) || (r.ts == t && k in r.fields))
    ensures var v := Merge(u, r); t in v && k in v[t] && LastSaid(rows + [r], t, k, v[t][k])
  {
    var v := Merge(u, r);
    LastSaidMore(rows, r, t, k, v[t][k]);
  }

  lemma {:induction false} APageIsMerged(w: Window, rows: seq<Row>)
    ensures Merged(w, rows, MergeAll(w, rows))
  {
    if rows != [] {
      var init, r := rows[..|rows| - 1], rows[|rows| - 1];
      assert rows == init + [r];
      APageIsMerged(w, init);
      MergedMore(w, init, MergeAll(w, init), r);
    }
  }

  // -------------------------------------------------------------- replies landing

  ghost predicate Waits(f: Feed, token: nat, dir: Dir) { token in f.books.pending && f.books.pending[token] == dir }

  // The newest row on show is the newest there is, as far as has been announced.
  ghost predicate AtAnnounced(f: Feed) { f.tailTs in f.window && forall t | t in f.window :: t <= f.tailTs }

  // The opening page is merged, and puts the window at the tail.
  lemma AnOpeningPageIsTheTail(f: Feed, token: nat, a: Answer)
    requires Waits(f, token, Init)
    ensures var g := Step(f, Result(token, a)); Merged(f.window, a.Rows(), g.window) && g.atTail
  {
    APageIsMerged(f.window, a.Rows());
  }

  lemma PageMergesAs(f: Feed, token: nat, a: Answer)
    requires Waits(f, token, Old)
    ensures var g := Step(f, Result(token, a));
            g.window == MergeAll(f.window, a.Rows()) && g.atTail == f.atTail
  {}

  lemma AnOlderPageIsMerged(f: Feed, token: nat, a: Answer)
    requires Waits(f, token, Old)
    ensures var g := Step(f, Result(token, a)); Merged(f.window, a.Rows(), g.window) && g.atTail == f.atTail
  {
    PageMergesAs(f, token, a);
    APageIsMerged(f.window, a.Rows());
  }

  // A newer page is merged, and the window is at the tail if it was, or if its
  // newest row is now the newest announced.
  lemma ANewerPageRegainsTheTail(f: Feed, token: nat, a: Answer)
    requires Waits(f, token, New)
    ensures var g := Step(f, Result(token, a));
            && Merged(f.window, a.Rows(), g.window) && g.tailTs == f.tailTs
            && (g.atTail <==> f.atTail || (f.tailTs != 0 && AtAnnounced(g)))
  {
    APageIsMerged(f.window, a.Rows());
  }

  // Word of the newest message does the same for a window that has it already.
  lemma WordOfTheTailRegainsIt(f: Feed, ts: int)
    ensures var g := Step(f, Tail(ts));
            && g == f.(tailTs := ts, atTail := g.atTail)
            && (g.atTail <==> f.atTail || AtAnnounced(g))
  {}

  // From then on live messages are shown.
  lemma AfterwardsArrivalsAreShown(f: Feed, token: nat, a: Answer, row: Row)
    requires Waits(f, token, New) && f.tailTs != 0 && !f.catchupBusy && row.ts != 0
    requires AtAnnounced(Step(f, Result(token, a)))
    ensures row.ts in Step(Step(f, Result(token, a)), Arrived(row)).window
  {
    ANewerPageRegainsTheTail(f, token, a);
    AnArrivalIsShownAtTheTail(Step(f, Result(token, a)), row);
  }

  // A jump to a row on show, or to nothing, leaves the rows alone; any other
  // shows its slice and nothing else, and gives up the tail.
  lemma AJumpShowsItsSlice(f: Feed, token: nat, a: Answer)
    requires Waits(f, token, Jump)
    ensures var g := Step(f, Result(token, a));
            if a.Anchor() == 0 || a.Anchor() in f.window then g.window == f.window && g.atTail == f.atTail
            else Merged(map[], a.SliceRows(), g.window) && !g.atTail
  {
    APageIsMerged(map[], a.SliceRows());
  }

  // A catchup's page is merged if it is empty or ends at the newest announced,
  // and changes no row otherwise.
  lemma ACatchupPageIsMergedOrNot(f: Feed, token: nat, a: Answer)
    requires Waits(f, token, Catchup)
    requires forall r | r in a.Rows() :: r.ts > 0
    ensures var g := Step(f, Result(token, a));
            && g.atTail == f.atTail
            && if a.Rows() == [] || ((exists r :: r in a.Rows() && r.ts == f.tailTs)
                                     && forall r | r in a.Rows() :: r.ts <= f.tailTs)
               then Merged(f.window, a.Rows(), g.window) else g.window == f.window
  {
    APageIsMerged(f.window, a.Rows());
    PageNewestIs(a.Rows());
  }

  lemma {:induction false} PageNewestIs(rows: seq<Row>)
    requires forall r | r in rows :: r.ts > 0
    ensures rows != [] ==> Topped(rows, PageNewest(rows))
  {
    if rows != [] {
      var init, last := rows[..|rows| - 1], rows[|rows| - 1];
      assert rows == init + [last];
      PageNewestIs(init);
      ToppedMore(init, last);
    }
  }

  ghost predicate Topped(rows: seq<Row>, ts: int) {
    (exists r :: r in rows && r.ts == ts) && forall r | r in rows :: r.ts <= ts
  }

  lemma ToppedMore(init: seq<Row>, last: Row)
    requires last.ts > 0 && (init != [] ==> Topped(init, PageNewest(init)))
    ensures Topped(init + [last], PageNewest(init + [last]))
  {
    var rows := init + [last];
    assert rows[..|init|] == init && rows[|init|] == last;
    assert last in rows && forall r :: r in rows <==> r in init || r == last;
    if init != [] {
      var r :| r in init && r.ts == PageNewest(init);
      assert r in rows;
    }
    assert PageNewest(rows) == if PageNewest(init) < last.ts then last.ts else PageNewest(init);
  }

  // ------------------------------------------------------------------ fresh starts

  // Only the opening page is out, if the chat can be asked for at all.
  ghost predicate OnlyOpening(b: Books) {
    && b.failed == {}
    && (if b.ready then b.inflight == {Init} && exists t :: b.pending == map[t := Init]
        else b.inflight == {} && b.pending == map[])
  }

  lemma Asked(b: Books)
    requires b.inflight == {} && b.pending == map[] && b.failed == {}
    ensures OnlyOpening(IssueHistory(b, Init, None))
    ensures IssueHistory(b, Init, None).loadError == b.loadError
  {
    if b.ready { assert IssueHistory(b, Init, None).pending == map[b.next := Init]; }
  }

  // A chat opened anew remembers nothing of what was there before.
  lemma AReloadStartsAfresh(f: Feed, ready: bool)
    requires Sound(f)
    ensures var g := Step(f, Reload(ready));
            && g.window == map[] && g.atTail && !g.catchupBusy && g.tailTs == 0 && g.online == f.online
            && g.books.ready == ready && OnlyOpening(g.books) && g.books.loadError == ""
  {
    CancelAllClears(f.books, ALL_DIRS);
    Asked(CancelEach(f.books, ALL_DIRS).(ready := ready, failed := {}, loadError := ""));
  }

  lemma {:induction false} CancelKeepsReady(b: Books, dirs: seq<Dir>)
    ensures CancelEach(b, dirs).ready == b.ready
    decreases |dirs|
  {
    if dirs != [] { CancelKeepsReady(CancelDir(b, dirs[0]), dirs[1..]); }
  }

  // Going back to the bottom empties the window and gives up the tail until the
  // opening page is in.
  lemma AResetEmptiesTheWindow(f: Feed)
    requires Sound(f)
    ensures var g := Step(f, ResetToBottom);
            && g.window == map[] && !g.atTail && g.tailTs == f.tailTs && g.catchupBusy == f.catchupBusy
            && g.books.ready == f.books.ready && OnlyOpening(g.books)
  {
    CancelAllClears(f.books, ALL_DIRS);
    CancelKeepsReady(f.books, ALL_DIRS);
    Asked(CancelEach(f.books, ALL_DIRS));
  }

  // A jump that leaves nothing on show, or goes nowhere with nothing on show,
  // asks for the opening page it cancelled.
  lemma AnEmptyWindowIsRefilled(f: Feed, token: nat, a: Answer)
    requires Sound(f) && f.books.ready && Waits(f, token, Jump)
    ensures var g := Step(f, Result(token, a));
            Jump !in g.books.inflight && (g.window == map[] ==> Init in g.books.inflight)
  {
    SettledKeeps(f.books, token);
  }

  lemma ARefusedJumpRefillsIt(f: Feed, token: nat, message: string)
    requires Sound(f) && f.books.ready && Waits(f, token, Jump)
    ensures var g := Step(f, Error(token, message));
            && Jump !in g.books.inflight && g.window == f.window && g.books.failed <= f.books.failed
            && (g.window == map[] ==> Init in g.books.inflight)
  {
    SettledKeeps(f.books, token);
  }

  // A refused catchup is dropped: nothing is said to have failed.
  lemma ARefusedCatchupIsDropped(f: Feed, token: nat, message: string)
    requires Sound(f) && Waits(f, token, Catchup)
    ensures var g := Step(f, Error(token, message));
            && g == f.(books := g.books) && Catchup !in g.books.inflight
            && g.books.failed == f.books.failed && g.books.loadError == f.books.loadError
  {
    SettledKeeps(f.books, token);
  }

  // A quoted message is jumped to if there is one to jump to.
  lemma AQuoteIsJumpedTo(f: Feed, ts: int)
    ensures Step(f, GotoReplyTarget(ts)) ==
              if Field(f.window, ts, "reply_id").Some? && Field(f.window, ts, "reply_id").value != ""
              then Step(f, GotoTimestamp) else f
  {}

  // What lands during a catchup is not shown; it is asked for when that is done,
  // at the tail, and not while a newer page is out.
  lemma DuringACatchupNothingIsShown(f: Feed, row: Row)
    ensures Step(Step(f, CatchupStarted), Arrived(row)) == Step(f, CatchupStarted)
    ensures Step(f, CatchupStarted) == f.(catchupBusy := true)
    ensures !f.atTail || New in f.books.inflight || Catchup in f.books.inflight ==>
              Step(Step(f, CatchupStarted), CatchupDone) == f.(catchupBusy := false)
  {}

  lemma TheLinkIsNoted(f: Feed, up: bool)
    ensures Step(f, ConnState(up)).online == up && Step(f, ConnState(up)).window == f.window
    ensures !up ==> Step(f, ConnState(up)) == f.(online := false)
  {}

  // ------------------------------------------------------------- what went wrong

  // What b says went wrong stands in c, as long as anything has.
  ghost predicate ErrorStays(b: Books, c: Books) { c.failed != {} ==> c.loadError == b.loadError }

  lemma ClearedStays(b: Books, dir: Dir)
    ensures ErrorStays(b, ClearFailure(b, dir)) && ClearFailure(b, dir).failed <= b.failed
  {}

  lemma IssuedStays(b: Books, dir: Dir, cursor: Option<int>)
    ensures ErrorStays(b, IssueHistory(b, dir, cursor)) && IssueHistory(b, dir, cursor).failed <= b.failed
  {}

  lemma {:induction false} CancelledStays(b: Books, dirs: seq<Dir>)
    ensures ErrorStays(b, CancelEach(b, dirs)) && CancelEach(b, dirs).failed <= b.failed
    decreases |dirs|
  {
    if dirs != [] { CancelledStays(CancelDir(b, dirs[0]), dirs[1..]); }
  }

  lemma RetriedStays(f: Feed)
    ensures ErrorStays(f.books, Retried(f).books)
  {
    var a := if Init in f.books.failed then LoadInitial(f) else f;
    IssuedStays(f.books, Init, None);
    var b := if Old in f.books.failed && f.window != map[] then OlderFrom(a) else a;
    IssuedStays(a.books, Old, Some(Oldest(f.window)));
    IssuedStays(b.books, New, Some(Newest(f.window)));
  }

  lemma ResultStays(f: Feed, token: nat, a: Answer)
    ensures ErrorStays(f.books, Resulted(f, token, a).books)
  {
    if token in f.books.pending {
      var b := ClearFailure(Settled(f.books, token), f.books.pending[token]);
      IssuedStays(b, Init, None);
    }
  }

  lemma CallStays(f: Feed, e: Event)
    requires !e.Error? && !e.Reload? && !e.Result? && !e.Retry? && !e.ConnState?
    ensures ErrorStays(f.books, Step(f, e).books)
  {
    match e {
      case LoadOlder => IssuedStays(f.books, Old, Some(Oldest(f.window)));
      case LoadNewer => IssuedStays(f.books, New, Some(Newest(f.window)));
      case GotoTimestamp => CancelledStays(f.books, JUMP_DIRS);
      case GotoReplyTarget(_) => CancelledStays(f.books, JUMP_DIRS);
      case ResetToBottom =>
        CancelledStays(f.books, ALL_DIRS);
        IssuedStays(CancelEach(f.books, ALL_DIRS), Init, None);
      case CullOld(_) =>
        ClearedStays(f.books.(inflight := f.books.inflight - {Old}, pending := Without(f.books.pending, Old)), Old);
      case CullNew(_) => CancelledStays(f.books, [New, Catchup]);
      case CatchupDone =>
        IssuedStays(f.books, Init, None);
        IssuedStays(f.books, Catchup, Some(Newest(f.window)));
      case _ =>
    }
  }

  // What is said to have gone wrong is said until nothing has, whatever else
  // comes in; a later refusal or another chat apart.
  lemma TheErrorStaysUp(f: Feed, e: Event)
    requires !e.Error? && !e.Reload?
    ensures Step(f, e).books.failed != {} ==> Step(f, e).books.loadError == f.books.loadError
  {
    match e {
      case Result(token, a) => ResultStays(f, token, a);
      case Retry => RetriedStays(f);
      case ConnState(_) => RetriedStays(f.(online := true));
      case _ => CallStays(f, e);
    }
  }
}
