// That the window gets where its user is going: from any state a run may be in,
// with nothing on its way, the calls lead to the rows they are for, however few
// rows an answer brings.

module ChatProgress {
  import opened Wrappers
  import opened Extremes
  import opened ChatRequests
  import opened ChatFeed
  import opened ChatStore
  import opened ChatStoreExact
  import opened ChatStoreLimits

  // ---------------------------------------------------------------- modest runs

  // One of these calls, an answer of at most k rows, or word of the newest
  // message; nothing is added to the store.
  predicate Modest(m: Move, calls: set<Event>, k: nat) {
    match m
    case Call(call) => call in calls
    case Send(Result(_, a)) => |a.Rows()| <= k && |a.SliceRows()| <= k
    case Send(Tail(_)) => true
    case Deliver => true
    case _ => false
  }

  ghost predicate Gets(s: System, e: System, calls: set<Event>, k: nat) {
    exists moves: seq<Move> ::
      Runs(s, moves) && AfterAll(s, moves) == e && forall m | m in moves :: Modest(m, calls, k)
  }

  lemma GetsNowhere(s: System, calls: set<Event>, k: nat)
    ensures Gets(s, s, calls, k)
  {
    assert Runs(s, []) && AfterAll(s, []) == s;
  }

  lemma GetsAfter(s: System, m: Move, e: System, calls: set<Event>, k: nat)
    requires Possible(s, m) && Modest(m, calls, k) && Gets(After(s, m), e, calls, k)
    ensures Gets(s, e, calls, k)
  {
    var moves: seq<Move> :| Runs(After(s, m), moves) && AfterAll(After(s, m), moves) == e
                            && forall n | n in moves :: Modest(n, calls, k);
    var more := [m] + moves;
    assert more[0] == m && more[1..] == moves;
    assert Runs(s, more);
  }

  // Everything announced, nothing on its way, and the requests in order.
  ghost predicate AtRest(s: System) { Whole(s) && Calm(s) && s.store != [] }

  ghost function Last(s: System): int
    requires s.store != []
  {
    s.store[|s.store| - 1]
  }

  lemma RestAnnounced(s: System)
    requires AtRest(s)
    ensures Announced(s.feed, All(s)) && Last(s) in All(s)
    ensures s.feed.tailTs == 0 || s.feed.tailTs == Last(s)
  {
    assert s.store[|s.store| - 1] in All(s);
  }

  ghost function Answered(s: System, token: nat, a: Answer): System {
    s.(feed := Resulted(s.feed, token, a))
  }

  lemma AnsweredRests(s: System, token: nat, a: Answer)
    requires AtRest(s) && token in s.feed.books.asked && Faithful(s.feed.books.asked[token], a, All(s))
    ensures AtRest(Answered(s, token, a))
  {
    RestAnnounced(s);
    ResultKept(s.feed, token, a, All(s));
    KeptWhole(s, Resulted(s.feed, token, a));
  }

  lemma AnswerGets(s: System, token: nat, a: Answer, e: System, calls: set<Event>, k: nat)
    requires AtRest(s) && token in s.feed.books.asked && Faithful(s.feed.books.asked[token], a, All(s))
    requires |a.Rows()| <= k && |a.SliceRows()| <= k && Gets(Answered(s, token, a), e, calls, k)
    ensures Gets(s, e, calls, k)
  {
    var sent := After(s, Send(Result(token, a)));
    assert After(sent, Deliver) == Answered(s, token, a);
    GetsAfter(sent, Deliver, e, calls, k);
    GetsAfter(s, Send(Result(token, a)), e, calls, k);
  }

  ghost function Called(s: System, call: Event): System { s.(feed := Step(s.feed, call)) }

  lemma CallGets(s: System, call: Event, e: System, calls: set<Event>, k: nat)
    requires AtRest(s) && Allowed(s.feed, All(s), call) && call in calls && Gets(Called(s, call), e, calls, k)
    ensures Gets(s, e, calls, k) && AtRest(Called(s, call))
  {
    CallWhole(s, call);
    GetsAfter(s, Call(call), e, calls, k);
  }

  lemma CalledRests(s: System, call: Event)
    requires AtRest(s) && Allowed(s.feed, All(s), call)
    ensures AtRest(Called(s, call))
  {
    CallWhole(s, call);
  }

  // A call, and a true answer to a request then out.
  ghost predicate Round(s: System, n: System, calls: set<Event>, k: nat) {
    exists call: Event, token: nat, a: Answer ::
      && call in calls && Allowed(s.feed, All(s), call) && |a.Rows()| <= k && |a.SliceRows()| <= k
      && token in Called(s, call).feed.books.asked
      && Faithful(Called(s, call).feed.books.asked[token], a, All(s))
      && n == Answered(Called(s, call), token, a)
  }

  lemma RoundGets(s: System, n: System, w: System, calls: set<Event>, k: nat)
    requires AtRest(s) && Round(s, n, calls, k) && Gets(n, w, calls, k)
    ensures Gets(s, w, calls, k)
  {
    var call: Event, token: nat, a: Answer :|
      && call in calls && Allowed(s.feed, All(s), call) && |a.Rows()| <= k && |a.SliceRows()| <= k
      && token in Called(s, call).feed.books.asked
      && Faithful(Called(s, call).feed.books.asked[token], a, All(s))
      && n == Answered(Called(s, call), token, a);
    CalledRests(s, call);
    AnswerGets(Called(s, call), token, a, w, calls, k);
    CallGets(s, call, w, calls, k);
  }

  // ----------------------------------------------------- clearing a direction

  lemma TokenOf(f: Feed, dir: Dir) returns (token: nat)
    requires Balanced(f.books) && dir in f.books.inflight
    ensures token in f.books.pending && f.books.pending[token] == dir
    ensures token in f.books.asked && AskedFor(f.books.asked[token], dir)
  {
    assert HasToken(f.books.pending, dir);
    token :| token in f.books.pending && f.books.pending[token] == dir;
  }

  // An answer with nothing in it, which the backend may always give.
  function Nothing(dir: Dir): Answer { if dir == Jump then Slice(0, []) else Page([]) }

  lemma NothingIsFaithful(f: Feed, token: nat, dir: Dir, v: set<int>)
    requires RequestsOk(f, v) && token in f.books.pending && f.books.pending[token] == dir
    requires dir == Jump || dir == Old || dir == New
    ensures token in f.books.asked && Faithful(f.books.asked[token], Nothing(dir), v)
  {
    assert dir == Old ==> AskedOldFits(f, v, token);
    assert dir == New ==> AskedNewFits(f, v, token);
    assert Stamps([]) == {};
  }

  lemma NothingLands(f: Feed, token: nat, dir: Dir)
    requires Balanced(f.books) && token in f.books.pending && f.books.pending[token] == dir && f.window != map[]
    requires dir == Jump || dir == Old || dir == New
    ensures var g := Resulted(f, token, Nothing(dir));
            && g.window == f.window && g.tailTs == f.tailTs && g.books.ready == f.books.ready
            && g.books.inflight == f.books.inflight - {dir} && (dir != New ==> g.atTail == f.atTail)
            && (f.atTail ==> g.atTail)
  {
    PageSettled(f, token);
  }

  // Whatever is out in that direction is answered with nothing.
  lemma Cleared(s: System, dir: Dir, k: nat) returns (e: System)
    requires AtRest(s) && s.feed.window != map[] && (dir == Jump || dir == Old || dir == New)
    ensures AtRest(e) && e.store == s.store && e.feed.window == s.feed.window && e.feed.tailTs == s.feed.tailTs
    ensures e.feed.books.ready == s.feed.books.ready && (s.feed.atTail ==> e.feed.atTail)
    ensures e.feed.books.inflight == s.feed.books.inflight - {dir}
    ensures forall w, calls: set<Event> :: Gets(e, w, calls, k) ==> Gets(s, w, calls, k)
  {
    e := s;
    if dir in s.feed.books.inflight {
      var token := TokenOf(s.feed, dir);
      NothingIsFaithful(s.feed, token, dir, All(s));
      NothingLands(s.feed, token, dir);
      AnsweredRests(s, token, Nothing(dir));
      e := Answered(s, token, Nothing(dir));
      forall w, calls: set<Event> | Gets(e, w, calls, k) ensures Gets(s, w, calls, k) {
        AnswerGets(s, token, Nothing(dir), w, calls, k);
      }
    }
  }

  // ----------------------------------------------------------- down to the tail

  const DOWN: set<Event> := {LoadNewer, Retry}

  // On the way down: the tail is known and nothing is out that could cross.
  ghost predicate Descending(s: System) {
    && AtRest(s) && s.feed.window != map[] && s.feed.books.ready && s.feed.tailTs == Last(s)
    && Jump !in s.feed.books.inflight && New !in s.feed.books.inflight
  }

  ghost predicate AtTheTail(e: System) { AtRest(e) && e.feed.atTail && Last(e) in e.feed.window }

  lemma TailHolds(s: System)
    requires AtRest(s) && s.feed.atTail && s.feed.window != map[]
    ensures AtTheTail(s)
  {
    RestAnnounced(s);
    assert Newest(s.feed.window) in All(s);
    assert forall t | t in All(s) :: t <= Last(s);
    assert Newest(s.feed.window) == Last(s);
  }

  lemma NewestStands(s: System) returns (i: nat)
    requires AtRest(s) && s.feed.window != map[]
    ensures i < |s.store| && s.store[i] == Newest(s.feed.window)
  {
    assert Newest(s.feed.window) in All(s);
    i :| 0 <= i < |s.store| && s.store[i] == Newest(s.feed.window);
  }

  // The page below is asked for, again if it was refused.
  function NewerCall(f: Feed): Event { if New in f.books.failed then Retry else LoadNewer }

  // Nothing stands in the way of a newer page.
  predicate NewerDue(b: Books) { b.ready && New !in b.inflight }

  lemma StillDue(b: Books, dir: Dir, cursor: Option<int>)
    requires NewerDue(b) && dir != New
    ensures NewerDue(IssueHistory(b, dir, cursor))
  {}

  lemma DueIsAsked(f: Feed)
    requires NewerDue(f.books)
    ensures Waiting(NewerFrom(f), f.books.next, New, History(New, Some(Newest(f.window))))
  {}

  lemma RetryAsksNewer(f: Feed) returns (token: nat)
    requires NewerDue(f.books) && New in f.books.failed && f.window != map[]
    ensures Waiting(Retried(f), token, New, History(New, Some(Newest(f.window))))
  {
    var a := if Init in f.books.failed then LoadInitial(f) else f;
    StillDue(f.books, Init, None);
    var b := if Old in f.books.failed && f.window != map[] then OlderFrom(a) else a;
    StillDue(a.books, Old, Some(Oldest(a.window)));
    assert b.window == f.window;
    DueIsAsked(b);
    token := b.books.next;
  }

  lemma NewerIsAsked(s: System)
    requires Descending(s)
    ensures var call := NewerCall(s.feed);
            && Allowed(s.feed, All(s), call) && call in DOWN
            && Step(s.feed, call).window == s.feed.window && Step(s.feed, call).atTail == s.feed.atTail
            && Step(s.feed, call).tailTs == s.feed.tailTs && Step(s.feed, call).books.ready
            && Jump !in Step(s.feed, call).books.inflight
            && exists token :: Waiting(Step(s.feed, call), token, New, History(New, Some(Newest(s.feed.window))))
  {
    if New in s.feed.books.failed {
      var token := RetryAsksNewer(s.feed);
      RetryKeepsOut(s.feed);
    } else {
      DueIsAsked(s.feed);
    }
  }

  lemma IssueKeepsOut(b: Books, dir: Dir, cursor: Option<int>)
    requires Jump !in b.inflight && dir != Jump
    ensures Jump !in IssueHistory(b, dir, cursor).inflight && IssueHistory(b, dir, cursor).ready == b.ready
  {}

  lemma RetryKeepsOut(f: Feed)
    requires Jump !in f.books.inflight
    ensures var g := Retried(f);
            && Jump !in g.books.inflight && g.books.ready == f.books.ready
            && g == f.(books := g.books)
  {
    var a := if Init in f.books.failed then LoadInitial(f) else f;
    IssueKeepsOut(f.books, Init, None);
    var b := if Old in f.books.failed && f.window != map[] then OlderFrom(a) else a;
    IssueKeepsOut(a.books, Old, Some(Oldest(f.window)));
    IssueKeepsOut(b.books, New, Some(Newest(f.window)));
  }

  function Fewer(a: nat, b: nat): nat { if a < b then a else b }

  lemma RowsAfter(store: seq<int>, i: nat, j: nat)
    requires StoreOk(store) && i < j < |store|
    ensures Faithful(History(New, Some(store[i])), Page(RowsFor(store[i + 1..j + 1])), Shown(store, |store|))
  {
    StampsOf(store, i + 1, j + 1);
  }

  lemma RowsEnd(store: seq<int>, i: nat, j: nat)
    requires StoreOk(store) && i < j < |store|
    ensures IsMax(store[j], Stamps(RowsFor(store[i + 1..j + 1])))
  {
    StampsOf(store, i + 1, j + 1);
    assert store[j] in Shown(store, j + 1) && store[j] !in Shown(store, i + 1);
  }

  // The next rows after row i, k of them at most, end in row j.
  lemma NextRows(store: seq<int>, i: nat, k: nat) returns (a: Answer, j: nat)
    requires StoreOk(store) && k > 0 && i + 1 < |store|
    ensures i < j < |store| && |a.Rows()| <= k && |a.SliceRows()| <= k
    ensures Faithful(History(New, Some(store[i])), a, Shown(store, |store|))
    ensures IsMax(store[j], Stamps(a.Rows()))
  {
    j := i + Fewer(k, |store| - 1 - i);
    a := Page(RowsFor(store[i + 1..j + 1]));
    RowsAfter(store, i, j);
    RowsEnd(store, i, j);
  }

  // Where a page lands, the newest row is the last of it.
  lemma PageEndsIn(f: Feed, token: nat, a: Answer, x: int)
    requires Balanced(f.books) && token in f.books.pending && f.books.pending[token] == New && f.window != map[]
    requires IsMax(x, Stamps(a.Rows())) && Newest(f.window) < x
    ensures var g := Resulted(f, token, a);
            && g.window != map[] && Newest(g.window) == x && g.tailTs == f.tailTs
            && g.books.ready == f.books.ready && g.books.inflight == f.books.inflight - {New}
            && (g.atTail <==> f.atTail || (f.tailTs != 0 && f.tailTs == x))
  {
    PageSettled(f, token);
    PageMerges(f, a.Rows());
    var u := MergeAll(f.window, a.Rows());
    assert x in u;
    assert IsMax(x, u.Keys);
  }

  lemma PageRests(s: System, token: nat, c: int, a: Answer, x: int)
    requires AtRest(s) && s.feed.window != map[] && Newest(s.feed.window) < x
    requires Waiting(s.feed, token, New, History(New, Some(c)))
    requires Faithful(History(New, Some(c)), a, All(s)) && IsMax(x, Stamps(a.Rows()))
    ensures var e := Answered(s, token, a);
            && AtRest(e) && e.feed.window != map[] && Newest(e.feed.window) == x
            && e.feed.tailTs == s.feed.tailTs && e.feed.books.ready == s.feed.books.ready
            && e.feed.books.inflight == s.feed.books.inflight - {New}
            && (s.feed.tailTs != 0 && s.feed.tailTs == x ==> e.feed.atTail)
  {
    AnsweredRests(s, token, a);
    PageEndsIn(s.feed, token, a, x);
  }

  lemma AskedDown(s: System) returns (c: System, token: nat, call: Event)
    requires Descending(s)
    ensures c == Called(s, call) && AtRest(c) && call in DOWN && Allowed(s.feed, All(s), call)
    ensures c.feed.window == s.feed.window && c.feed.tailTs == s.feed.tailTs && c.feed.books.ready
    ensures Jump !in c.feed.books.inflight
    ensures Waiting(c.feed, token, New, History(New, Some(Newest(s.feed.window))))
  {
    call := NewerCall(s.feed);
    NewerIsAsked(s);
    CalledRests(s, call);
    c := Called(s, call);
    token :| Waiting(c.feed, token, New, History(New, Some(Newest(s.feed.window))));
  }

  // Row i is the newest on show, and there are more below it or none to come.
  ghost predicate DownAt(s: System, i: nat) {
    && Descending(s) && i < |s.store| && s.store[i] == Newest(s.feed.window)
    && (i + 1 < |s.store| || s.feed.atTail)
  }

  lemma RoundDown(s: System, i: nat, k: nat) returns (n: System, j: nat)
    requires Descending(s) && k > 0 && i + 1 < |s.store| && s.store[i] == Newest(s.feed.window)
    ensures Round(s, n, DOWN, k) && n.store == s.store && AtRest(n) && n.feed.window != map[]
    ensures i < j < |s.store| && Newest(n.feed.window) == s.store[j]
    ensures n.feed.tailTs == Last(s) && n.feed.books.ready
    ensures Jump !in n.feed.books.inflight && New !in n.feed.books.inflight
    ensures s.store[j] == Last(s) ==> n.feed.atTail
  {
    var c, token, call := AskedDown(s);
    var a;
    a, j := NextRows(s.store, i, k);
    PageRests(c, token, s.store[i], a, s.store[j]);
    n := Answered(c, token, a);
    assert n == Answered(Called(s, call), token, a);
  }

  // Whatever n leads to, s leads to.
  ghost predicate LeadsOn(s: System, n: System, calls: set<Event>, k: nat) {
    forall e :: Gets(n, e, calls, k) ==> Gets(s, e, calls, k)
  }

  lemma RoundLeadsOn(s: System, n: System, calls: set<Event>, k: nat)
    requires AtRest(s) && Round(s, n, calls, k)
    ensures LeadsOn(s, n, calls, k)
  {
    forall e | Gets(n, e, calls, k) ensures Gets(s, e, calls, k) { RoundGets(s, n, e, calls, k); }
  }

  lemma PageDown(s: System, i: nat, k: nat) returns (n: System, j: nat)
    requires Descending(s) && k > 0 && i + 1 < |s.store| && s.store[i] == Newest(s.feed.window)
    ensures LeadsOn(s, n, DOWN, k) && n.store == s.store && AtRest(n) && n.feed.window != map[]
    ensures i < j < |s.store| && Newest(n.feed.window) == s.store[j]
    ensures n.feed.tailTs == Last(s) && n.feed.books.ready
    ensures Jump !in n.feed.books.inflight && New !in n.feed.books.inflight
    ensures s.store[j] == Last(s) ==> n.feed.atTail
  {
    n, j := RoundDown(s, i, k);
    RoundLeadsOn(s, n, DOWN, k);
  }

  // One page further down.
  lemma OneDown(s: System, i: nat, k: nat) returns (n: System, j: nat)
    requires DownAt(s, i) && !s.feed.atTail && k > 0
    ensures LeadsOn(s, n, DOWN, k) && n.store == s.store && i < j && DownAt(n, j)
  {
    n, j := PageDown(s, i, k);
  }

  lemma Arrived(s: System, i: nat, k: nat)
    requires DownAt(s, i) && s.feed.atTail
    ensures Gets(s, s, DOWN, k) && AtTheTail(s)
  {
    TailHolds(s);
    GetsNowhere(s, DOWN, k);
  }

  lemma {:induction false} DownToTheTail(s: System, i: nat, k: nat) returns (e: System)
    requires DownAt(s, i) && k > 0
    ensures Gets(s, e, DOWN, k) && AtTheTail(e) && e.store == s.store
    decreases |s.store| - i
  {
    if s.feed.atTail {
      e := s;
      Arrived(s, i, k);
    } else {
      var n, j := OneDown(s, i, k);
      e := DownToTheTail(n, j, k);
    }
  }

  // Word of the newest message, which the backend may always give.
  ghost function Told(s: System): System
    requires s.store != []
  {
    s.(feed := GotTail(s.feed, Last(s)))
  }

  lemma ToldRests(s: System, w: System, calls: set<Event>, k: nat)
    requires AtRest(s)
    ensures AtRest(Told(s)) && Told(s).feed.tailTs == Last(s) && Told(s).feed.window == s.feed.window
    ensures Told(s).feed.books == s.feed.books
    ensures Newest(s.feed.window) == Last(s) && s.feed.window != map[] ==> Told(s).feed.atTail
    ensures Gets(Told(s), w, calls, k) ==> Gets(s, w, calls, k)
  {
    var sent := After(s, Send(Tail(Last(s))));
    SendWhole(s, Tail(Last(s)));
    DeliverWhole(sent);
    assert After(sent, Deliver) == Told(s);
    if Gets(Told(s), w, calls, k) {
      GetsAfter(sent, Deliver, w, calls, k);
      GetsAfter(s, Send(Tail(Last(s))), w, calls, k);
    }
  }

  // From any state a run may be in with rows on show, paging newer and trying
  // again what was refused leads to the tail with the newest message shown,
  // whatever was out and however few rows a page brings.
  lemma TheTailIsReached(s: System, k: nat) returns (e: System)
    requires AtRest(s) && s.feed.books.ready && s.feed.window != map[] && k > 0
    ensures Gets(s, e, DOWN, k) && AtTheTail(e) && e.store == s.store
  {
    var a := Cleared(s, Jump, k);
    var b := Cleared(a, New, k);
    ToldRests(b, b, DOWN, k);
    var t := Told(b);
    var i := NewestStands(t);
    RestAnnounced(t);
    assert DownAt(t, i);
    e := DownToTheTail(t, i, k);
    ToldRests(b, e, DOWN, k);
  }

  // And from then on what arrives is shown.
  lemma ThenArrivalsAreShown(e: System, ts: int)
    requires AtTheTail(e) && ts > Last(e)
    ensures ts in Grown(e, ts).feed.window
  {}

  // ------------------------------------------------------------- up to the top

  const UP: set<Event> := {LoadOlder, Retry}

  predicate OlderDue(b: Books) { b.ready && Old !in b.inflight }

  lemma OlderIsAskedNow(f: Feed)
    requires OlderDue(f.books)
    ensures Waiting(OlderFrom(f), f.books.next, Old, History(Old, Some(Oldest(f.window))))
    ensures f.books.next < OlderFrom(f).books.next
  {}

  lemma StillWaits(f: Feed, token: nat, dir: Dir, ask: Ask, other: Dir, cursor: Option<int>)
    requires Waiting(f, token, dir, ask) && token < f.books.next
    ensures Waiting(f.(books := IssueHistory(f.books, other, cursor)), token, dir, ask)
  {}

  lemma RetryAsksOlder(f: Feed) returns (token: nat)
    requires OlderDue(f.books) && Old in f.books.failed && f.window != map[]
    ensures Waiting(Retried(f), token, Old, History(Old, Some(Oldest(f.window))))
  {
    var a := if Init in f.books.failed then LoadInitial(f) else f;
    assert OlderDue(a.books) && a.window == f.window;
    OlderIsAskedNow(a);
    token := a.books.next;
    StillWaits(OlderFrom(a), token, Old, History(Old, Some(Oldest(f.window))), New, Some(Newest(f.window)));
  }

  // Row j is the oldest on show.
  ghost predicate UpAt(s: System, j: nat) {
    && AtRest(s) && s.feed.window != map[] && s.feed.books.ready && j < |s.store| && s.store[j] == Oldest(s.feed.window)
    && Jump !in s.feed.books.inflight && Old !in s.feed.books.inflight
  }

  lemma AskedUp(s: System, j: nat) returns (c: System, token: nat, call: Event)
    requires UpAt(s, j)
    ensures c == Called(s, call) && AtRest(c) && call in UP && Allowed(s.feed, All(s), call)
    ensures c.feed.window == s.feed.window && c.feed.books.ready && Jump !in c.feed.books.inflight
    ensures Waiting(c.feed, token, Old, History(Old, Some(Oldest(s.feed.window))))
  {
    if Old in s.feed.books.failed {
      call := Retry;
      token := RetryAsksOlder(s.feed);
      RetryKeepsOut(s.feed);
    } else {
      call := LoadOlder;
      token := s.feed.books.next;
      OlderIsAskedNow(s.feed);
    }
    CalledRests(s, call);
    c := Called(s, call);
  }

  // The rows before row j, k of them at most, begin with row i.
  lemma RowsBefore(store: seq<int>, j: nat, k: nat) returns (a: Answer, i: nat)
    requires StoreOk(store) && k > 0 && 0 < j < |store|
    ensures i < j && |a.Rows()| <= k && |a.SliceRows()| <= k
    ensures Faithful(History(Old, Some(store[j])), a, Shown(store, |store|))
    ensures IsMin(store[i], Stamps(a.Rows()))
  {
    i := j - Fewer(k, j);
    a := Page(RowsFor(store[i..j]));
    RowsBegin(store, i, j);
  }

  lemma RowsBegin(store: seq<int>, i: nat, j: nat)
    requires StoreOk(store) && i < j < |store|
    ensures Faithful(History(Old, Some(store[j])), Page(RowsFor(store[i..j])), Shown(store, |store|))
    ensures IsMin(store[i], Stamps(RowsFor(store[i..j])))
  {
    StampsOf(store, i, j);
    assert store[i] in Shown(store, j) && store[i] !in Shown(store, i);
  }

  lemma PageBeginsAt(f: Feed, token: nat, a: Answer, x: int)
    requires Balanced(f.books) && token in f.books.pending && f.books.pending[token] == Old && f.window != map[]
    requires IsMin(x, Stamps(a.Rows())) && x < Oldest(f.window)
    ensures var g := Resulted(f, token, a);
            && g.window != map[] && Oldest(g.window) == x
            && g.books.ready == f.books.ready && g.books.inflight == f.books.inflight - {Old}
  {
    PageSettled(f, token);
    PageMerges(f, a.Rows());
    var u := MergeAll(f.window, a.Rows());
    assert x in u;
    assert IsMin(x, u.Keys);
  }

  lemma RoundUp(s: System, j: nat, k: nat) returns (n: System, i: nat)
    requires UpAt(s, j) && k > 0 && j > 0
    ensures Round(s, n, UP, k) && n.store == s.store && AtRest(n) && n.feed.window != map[]
    ensures i < j && Oldest(n.feed.window) == s.store[i] && n.feed.books.ready
    ensures Jump !in n.feed.books.inflight && Old !in n.feed.books.inflight
  {
    var c, token, call := AskedUp(s, j);
    var a;
    a, i := RowsBefore(s.store, j, k);
    AnsweredRests(c, token, a);
    PageBeginsAt(c.feed, token, a, s.store[i]);
    n := Answered(c, token, a);
    assert n == Answered(Called(s, call), token, a);
  }

  lemma OneUp(s: System, j: nat, k: nat) returns (n: System, i: nat)
    requires UpAt(s, j) && k > 0 && j > 0
    ensures LeadsOn(s, n, UP, k) && n.store == s.store && AtRest(n) && n.feed.window != map[]
    ensures i < j && Oldest(n.feed.window) == s.store[i] && n.feed.books.ready
    ensures Jump !in n.feed.books.inflight && Old !in n.feed.books.inflight
  {
    n, i := RoundUp(s, j, k);
    RoundLeadsOn(s, n, UP, k);
  }

  lemma {:induction false} UpToTheTop(s: System, j: nat, k: nat) returns (e: System)
    requires UpAt(s, j) && k > 0
    ensures Gets(s, e, UP, k) && AtRest(e) && e.store == s.store && s.store[0] in e.feed.window
    decreases j
  {
    if j == 0 {
      e := s;
      GetsNowhere(s, UP, k);
    } else {
      var n, i := OneUp(s, j, k);
      e := UpToTheTop(n, i, k);
    }
  }

  // Paging older leads to the oldest message there is.
  lemma TheTopIsReached(s: System, k: nat) returns (e: System)
    requires AtRest(s) && s.feed.books.ready && s.feed.window != map[] && k > 0
    ensures Gets(s, e, UP, k) && AtRest(e) && e.store == s.store && s.store[0] in e.feed.window
  {
    var a := Cleared(s, Jump, k);
    var b := Cleared(a, Old, k);
    assert Oldest(b.feed.window) in All(b);
    var j: nat :| j < |b.store| && b.store[j] == Oldest(b.feed.window);
    e := UpToTheTop(b, j, k);
  }

  // ------------------------------------------------------------ jumps and resets

  lemma Alone(store: seq<int>, i: nat)
    requires StoreOk(store) && i < |store|
    ensures Faithful(Goto, Slice(store[i], Lone(store[i])), Shown(store, |store|))
    ensures i == |store| - 1 ==> Faithful(History(Init, None), Page(Lone(store[i])), Shown(store, |store|))
    ensures Stamps(Lone(store[i])) == {store[i]}
  {
    assert store[i] in Shown(store, |store|);
    assert Stamps(Lone(store[i])) == {store[i]};
  }

  lemma JumpGoesOut(f: Feed, v: set<int>) returns (token: nat)
    requires RequestsOk(f, v) && f.books.ready
    ensures Waiting(Jumped(f), token, Jump, Goto) && Jumped(f).window == f.window
  {
    CancelAllClears(f.books, JUMP_DIRS);
    CancelEachKeepsAsked(f.books, JUMP_DIRS);
    token := f.books.next;
  }

  lemma SliceShows(f: Feed, token: nat, x: int)
    requires token in f.books.pending && f.books.pending[token] == Jump && x != 0
    ensures x in Resulted(f, token, Slice(x, Lone(x))).window
  {
    PageMerges(f, Lone(x));
    assert Stamps(Lone(x)) == {x};
  }

  lemma OneRound(s: System, call: Event, token: nat, a: Answer, k: nat) returns (e: System)
    requires AtRest(s) && Allowed(s.feed, All(s), call) && |a.Rows()| <= k && |a.SliceRows()| <= k
    requires token in Called(s, call).feed.books.asked
    requires Faithful(Called(s, call).feed.books.asked[token], a, All(s))
    ensures Gets(s, e, {call}, k) && AtRest(e) && e.store == s.store
    ensures e.feed == Resulted(Step(s.feed, call), token, a)
  {
    CalledRests(s, call);
    AnsweredRests(Called(s, call), token, a);
    e := Answered(Called(s, call), token, a);
    assert Round(s, e, {call}, k);
    GetsNowhere(e, {call}, k);
    RoundGets(s, e, e, {call}, k);
  }

  // A jump to any message there is shows it, whatever was out before.
  lemma AJumpArrives(s: System, i: nat) returns (e: System)
    requires AtRest(s) && s.feed.books.ready && i < |s.store|
    ensures Gets(s, e, {GotoTimestamp}, 1) && AtRest(e) && e.store == s.store && s.store[i] in e.feed.window
  {
    var token := JumpGoesOut(s.feed, All(s));
    Alone(s.store, i);
    e := OneRound(s, GotoTimestamp, token, Slice(s.store[i], Lone(s.store[i])), 1);
    SliceShows(Jumped(s.feed), token, s.store[i]);
  }

  lemma OpeningGoesOut(f: Feed, call: Event, v: set<int>) returns (token: nat)
    requires RequestsOk(f, v) && (call == ResetToBottom || call == Reload(true)) && f.books.ready
    ensures var g := Step(f, call); Waiting(g, token, Init, History(Init, None)) && g.window == map[]
  {
    CancelAllClears(f.books, ALL_DIRS);
    CancelEachKeepsAsked(f.books, ALL_DIRS);
    token := f.books.next;
  }

  lemma OpeningShowsIt(f: Feed, token: nat, x: int)
    requires token in f.books.pending && f.books.pending[token] == Init && x != 0
    ensures var g := Resulted(f, token, Page(Lone(x))); x in g.window && g.atTail
  {
    PageMerges(f, Lone(x));
    assert Stamps(Lone(x)) == {x};
  }

  // Going back to the bottom, or opening the chat anew, gets to the tail with
  // the newest message shown, whatever was out before.
  lemma TheBottomIsReached(s: System, call: Event) returns (e: System)
    requires AtRest(s) && s.feed.books.ready && (call == ResetToBottom || call == Reload(true))
    ensures Gets(s, e, {call}, 1) && AtTheTail(e) && e.store == s.store
  {
    var token := OpeningGoesOut(s.feed, call, All(s));
    Alone(s.store, |s.store| - 1);
    e := OneRound(s, call, token, Page(Lone(Last(s))), 1);
    OpeningShowsIt(Step(s.feed, call), token, Last(s));
  }

  // ------------------------------------------------------------------- refusals

  // A refused page is marked so, with the reason given but for a newer one, and
  // the rows stay.
  lemma ARefusalIsNoted(f: Feed, token: nat, message: string, dir: Dir)
    requires Sound(f) && (dir == Init || dir == Old || dir == New)
    requires token in f.books.pending && f.books.pending[token] == dir
    ensures var g := Step(f, Error(token, message));
            && dir !in g.books.inflight && dir in g.books.failed && g == f.(books := g.books)
            && g.books.ready == f.books.ready && (dir != New ==> g.books.loadError == message)
  {
    SettledKeeps(f.books, token);
  }

  // A page that failed is not asked for by paging on, but is when told to try
  // again, and when the account is back.
  lemma AFailedPageWaitsToBeRetried(g: Feed, dir: Dir)
    requires g.books.ready && g.window != map[] && dir in g.books.failed && (dir == Init || dir == Old || dir == New)
    ensures (dir == Old ==> Step(g, LoadOlder) == g) && (dir == New ==> Step(g, LoadNewer) == g)
    ensures dir in Step(g, Retry).books.inflight
  {
    RetryAsks(g, dir);
  }

  lemma TheAccountComesBack(g: Feed, dir: Dir)
    requires g.books.ready && g.window != map[] && dir in g.books.failed && (dir == Init || dir == Old || dir == New)
    ensures dir in Step(g, ConnState(true)).books.inflight && Step(g, ConnState(false)) == g.(online := false)
  {
    RetryAsks(g.(online := true), dir);
  }

  lemma IssueGrows(b: Books, dir: Dir, cursor: Option<int>, d: Dir)
    requires b.ready
    ensures var c := IssueHistory(b, dir, cursor);
            c.ready && (d in b.inflight || d == dir ==> d in c.inflight) && b.inflight <= c.inflight
  {}

  lemma RetryAsks(g: Feed, dir: Dir)
    requires g.books.ready && g.window != map[] && dir in g.books.failed && (dir == Init || dir == Old || dir == New)
    ensures dir in Retried(g).books.inflight
  {
    var a := if Init in g.books.failed then LoadInitial(g) else g;
    IssueGrows(g.books, Init, None, dir);
    var b := if Old in g.books.failed && g.window != map[] then OlderFrom(a) else a;
    IssueGrows(a.books, Old, Some(Oldest(a.window)), dir);
    IssueGrows(b.books, New, Some(Newest(b.window)), dir);
  }

  // After a catchup at the tail the rows past the newest are asked for, unless
  // it is the newest announced; with no rows, the opening page is.
  lemma ACatchupAsksForTheRest(f: Feed)
    requires Sound(f) && f.books.ready && f.atTail && f.books.inflight == {}
    ensures var g := Step(Step(f, CatchupStarted), CatchupDone);
            && g.window == f.window && !g.catchupBusy
            && if f.window == map[] then Waiting(g, f.books.next, Init, History(Init, None))
               else if f.tailTs == Newest(f.window) && f.tailTs != 0 then g.books == f.books
               else Waiting(g, f.books.next, Catchup, History(Catchup, Some(Newest(f.window))))
  {}
}
