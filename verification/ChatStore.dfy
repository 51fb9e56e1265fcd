// The chat window against the store it pages through. The store is the ascending
// list of a chat's timestamps and only grows at the top; replies and events come
// back over one channel, in the order they were put on it. The feed never sees
// the store, only the channel.

module ChatStore {
  import opened Wrappers
  import opened ChatRequests
  import opened ChatFeed

  datatype System = System(
    feed: Feed,
    store: seq<int>,
    seen: nat,             // how much of the store has been announced to the feed
    channel: seq<Event>)

  datatype Move =
    | Call(call: Event)    // the view calls the model
    | Append(row: Row)     // a message lands in the store
    | Send(event: Event)   // the backend answers, refuses or announces
    | Deliver              // the model takes the oldest thing off the channel

  // ------------------------------------------------------------- the backend

  function Stamps(rows: seq<Row>): set<int> { set r | r in rows && r.ts != 0 :: r.ts }

  function Shown(store: seq<int>, n: nat): set<int>
    requires n <= |store|
  {
    set i | 0 <= i < n :: store[i]
  }

  ghost predicate Convex(k: set<int>, v: set<int>) {
    forall x, t, y | x in k && t in v && y in k :: x <= t <= y ==> t in k
  }

  // An answer is some run of the store beside the cursor, of whatever length:
  // nothing between the cursor and the page is skipped.
  ghost predicate Faithful(ask: Ask, a: Answer, v: set<int>) {
    var p := Stamps(a.Rows());
    match ask
    case History(Init, _) => p <= v && forall x, t | x in p && t in v :: x <= t ==> t in p
    case History(Old, Some(c)) =>
      p <= v && (forall x | x in p :: x < c) && forall x, t | x in p && t in v :: x <= t < c ==> t in p
    case History(New, Some(c)) =>
      p <= v && (forall x | x in p :: c < x) && forall x, t | x in p && t in v :: c < t <= x ==> t in p
    case Goto => var q := Stamps(a.SliceRows()); q <= v && Convex(q, v)
    case _ => false
  }

  // Events that leave the set of rows alone: edits, statuses, retractions,
  // confirmations that do not move the row, refusals and the link going up or
  // down.
  predicate Harmless(e: Event) {
    match e
    case Edited(_) => true
    case Status(_, _) => true
    case Retracted(_) => true
    case Confirmed(ts, newTs, _) => newTs == 0 || newTs == ts
    case ConnState(_) => true
    case Error(_, _) => true
    case _ => false
  }

  // ------------------------------------------------- where a page may still land

  ghost predicate AtMostOneBetween(v: set<int>, lo: int, hi: int) {
    forall t, y | t in v && y in v :: lo < t < hi && lo < y < hi ==> t == y
  }

  ghost predicate AtMostOneAbove(v: set<int>, c: int) {
    forall t, y | t in v && y in v :: c < t && c < y ==> t == y
  }

  ghost predicate Lowest(v: set<int>, c: int) { forall t | t in v :: c <= t }

  // A page of what came before c, whatever its length, joins the window without
  // a gap: there is nothing before c to bring, or the window reaches up to c or
  // all but one row of the way, or the window is empty and nothing else is on
  // its way to it.
  ghost predicate OldFits(f: Feed, v: set<int>, c: int) {
    c in v
    && (Lowest(v, c)
        || if f.window == map[]
           then !f.atTail && !Out(f.books, Init) && New !in f.books.inflight
           else Oldest(f.window) <= c && AtMostOneBetween(v, Newest(f.window), c))
  }

  // The same for a page of what came after c. An empty window that claims the
  // tail may only be given the last row there is.
  ghost predicate NewFits(f: Feed, v: set<int>, c: int) {
    c in v
    && if f.window == map[]
       then if f.atTail then AtMostOneAbove(v, c) else !Out(f.books, Init)
       else c <= Newest(f.window) && AtMostOneBetween(v, c, Oldest(f.window))
  }

  ghost predicate AskedOldFits(f: Feed, v: set<int>, token: nat) {
    && token in f.books.asked && f.books.asked[token].History?
    && f.books.asked[token].cursor.Some? && OldFits(f, v, f.books.asked[token].cursor.value)
  }

  ghost predicate AskedNewFits(f: Feed, v: set<int>, token: nat) {
    && token in f.books.asked && f.books.asked[token].History?
    && f.books.asked[token].cursor.Some? && NewFits(f, v, f.books.asked[token].cursor.value)
  }

  ghost predicate OlderPagesFit(f: Feed, v: set<int>) {
    forall t | t in f.books.pending && f.books.pending[t] == Old :: AskedOldFits(f, v, t)
  }

  ghost predicate NewerPagesFit(f: Feed, v: set<int>) {
    forall t | t in f.books.pending && f.books.pending[t] == New :: AskedNewFits(f, v, t)
  }

  predicate IsCall(e: Event) {
    e.Reload? || e.LoadOlder? || e.LoadNewer? || e.Retry? || e.GotoTimestamp? || e.GotoReplyTarget?
    || e.ResetToBottom? || e.CullOld? || e.CullNew?
  }

  // What the view may call, and when; v is what the store has announced. A page
  // must not be asked for while a jump is out, unless it can bring nothing; and
  // a cull must leave every page still out a window to land beside, and nothing
  // above the window if the opening page is out. Calls that change nothing are
  // always allowed. ChatStoreExact.dfy proves that no call is refused in vain.
  ghost predicate Allowed(f: Feed, v: set<int>, call: Event) {
    match call
    case LoadOlder => AskedOlder(f) == f || Jump !in f.books.inflight || Lowest(v, Oldest(f.window))
    case LoadNewer => AskedNewer(f) == f || Jump !in f.books.inflight
    case CullOld(n) => CulledOld(f, n) == f || NewerPagesFit(CulledOld(f, n), v)
    case CullNew(n) =>
      var g := CulledNew(f, n);
      g == f || (OlderPagesFit(g, v) && (Out(f.books, Init) ==> g.window == map[]))
    case _ => IsCall(call)
  }

  // In flight, or failed and waiting for a retry.
  predicate Out(b: Books, dir: Dir) { dir in b.inflight || dir in b.failed }

  ghost predicate Able(s: System, m: Move) {
    match m
    case Call(_) => true
    case Append(row) => row.ts > 0 && forall i | 0 <= i < |s.store| :: s.store[i] < row.ts
    case Send(e) =>
      (match e
       case Result(token, a) =>
         token in s.feed.books.asked
         && Faithful(s.feed.books.asked[token], a, Shown(s.store, |s.store|))
       case Tail(ts) => s.store != [] && ts == s.store[|s.store| - 1]
       case _ => Harmless(e))
    case Deliver => s.channel != []
  }

  ghost predicate Possible(s: System, m: Move) {
    && s.seen <= |s.store| && Able(s, m)
    && (m.Call? ==> Allowed(s.feed, Shown(s.store, s.seen), m.call))
  }

  ghost function After(s: System, m: Move): System
    requires Able(s, m)
  {
    match m
    case Call(e) => s.(feed := Step(s.feed, e))
    case Append(row) =>
      s.(store := s.store + [row.ts], channel := s.channel + [Arrived(row), Tail(row.ts)])
    case Send(e) => s.(channel := s.channel + [e])
    case Deliver =>
      s.(feed := Step(s.feed, s.channel[0]), channel := s.channel[1..],
         seen := if s.channel[0].Arrived? then s.seen + 1 else s.seen)
  }

  ghost predicate Runs(s: System, moves: seq<Move>)
    decreases |moves|
  {
    moves != [] ==> Possible(s, moves[0]) && Runs(After(s, moves[0]), moves[1..])
  }

  ghost function AfterAll(s: System, moves: seq<Move>): System
    requires Runs(s, moves)
    decreases |moves|
  {
    if moves == [] then s else AfterAll(After(s, moves[0]), moves[1..])
  }

  // ----------------------------------------------------------- the invariant

  ghost predicate StoreOk(store: seq<int>) {
    (forall i | 0 <= i < |store| :: store[i] > 0)
    && forall i, j | 0 <= i < j < |store| :: store[i] < store[j]
  }

  // Each thing on the channel tells the truth about the store as it was when
  // everything ahead of it had been taken.
  ghost predicate Truthful(channel: seq<Event>, seen: nat, store: seq<int>, asked: map<nat, Ask>)
    decreases |channel|
  {
    if channel == [] then seen == |store|
    else
      var head, rest := channel[0], channel[1..];
      if head.Arrived? then
        && seen < |store| && head.row.ts == store[seen]
        && rest != [] && rest[0] == Tail(head.row.ts)
        && Truthful(rest, seen + 1, store, asked)
      else if head.Tail? then
        0 < seen <= |store| && head.ts == store[seen - 1] && Truthful(rest, seen, store, asked)
      else if head.Result? then
        && head.token in asked && seen <= |store|
        && Faithful(asked[head.token], head.answer, Shown(store, seen))
        && Truthful(rest, seen, store, asked)
      else
        Harmless(head) && Truthful(rest, seen, store, asked)
  }

  // While a jump is out nothing but the jump can move the window: a page older
  // than it, out or to be retried, finds nothing older to bring.
  ghost predicate JumpAlone(f: Feed, v: set<int>) {
    && !Out(f.books, Init) && !Out(f.books, New)
    && (Out(f.books, Old) ==> if f.window == map[] then !f.atTail else Lowest(v, Oldest(f.window)))
    && forall t | t in f.books.pending && f.books.pending[t] == Old ::
         && t in f.books.asked && f.books.asked[t].History?
         && f.books.asked[t].cursor.Some? && Lowest(v, f.books.asked[t].cursor.value)
  }

  ghost predicate RequestsOk(f: Feed, v: set<int>) {
    && Sound(f)
    && Catchup !in f.books.inflight && Catchup !in f.books.failed
    && Jump !in f.books.failed && !f.catchupBusy
    && (!f.books.ready ==> f.books.inflight == {} && f.books.failed == {})
    && (Out(f.books, Init) ==> f.window == map[] || f.atTail)
    && (Jump in f.books.inflight ==> JumpAlone(f, v))
    && OlderPagesFit(f, v) && NewerPagesFit(f, v)
  }

  ghost predicate WindowOk(f: Feed, v: set<int>) {
    && f.window.Keys <= v && Convex(f.window.Keys, v)
    && (f.atTail && f.window != map[] ==> forall t | t in v :: t <= Newest(f.window))
  }

  ghost predicate TailOk(s: System) {
    s.feed.tailTs != 0 ==>
      && 0 < s.seen <= |s.store|
      && (s.feed.tailTs == s.store[s.seen - 1]
          || (s.channel != [] && s.channel[0] == Tail(s.store[s.seen - 1])))
  }

  ghost predicate Whole(s: System) {
    && StoreOk(s.store) && s.seen <= |s.store|
    && Truthful(s.channel, s.seen, s.store, s.feed.books.asked)
    && RequestsOk(s.feed, Shown(s.store, s.seen))
    && WindowOk(s.feed, Shown(s.store, s.seen))
    && TailOk(s)
  }

  // ------------------------------------------------------- calls from the view

  ghost predicate Kept(f: Feed, g: Feed, v: set<int>) {
    && RequestsOk(g, v) && WindowOk(g, v)
    && f.books.asked.Keys <= g.books.asked.Keys
    && (forall t | t in f.books.asked :: g.books.asked[t] == f.books.asked[t])
    && (g.tailTs == f.tailTs || g.tailTs == 0)
  }

  // The pages out in g were out in f, asked for from the same rows.
  ghost predicate NoNewPages(f: Feed, g: Feed) {
    forall t | t in g.books.pending && (g.books.pending[t] == Old || g.books.pending[t] == New) ::
      && t in f.books.pending && f.books.pending[t] == g.books.pending[t]
      && t in f.books.asked && t in g.books.asked && g.books.asked[t] == f.books.asked[t]
  }

  ghost predicate OldFitsCarry(f: Feed, v: set<int>, g: Feed, u: set<int>) {
    forall c :: OldFits(f, v, c) ==> OldFits(g, u, c)
  }

  ghost predicate NewFitsCarry(f: Feed, v: set<int>, g: Feed, u: set<int>) {
    forall c :: NewFits(f, v, c) ==> NewFits(g, u, c)
  }

  lemma OlderCarried(f: Feed, v: set<int>, g: Feed, u: set<int>)
    requires NoNewPages(f, g) && OlderPagesFit(f, v) && OldFitsCarry(f, v, g, u)
    ensures OlderPagesFit(g, u)
  {
    forall t | t in g.books.pending && g.books.pending[t] == Old ensures AskedOldFits(g, u, t) {
      assert AskedOldFits(f, v, t);
    }
  }

  lemma NewerCarried(f: Feed, v: set<int>, g: Feed, u: set<int>)
    requires NoNewPages(f, g) && NewerPagesFit(f, v) && NewFitsCarry(f, v, g, u)
    ensures NewerPagesFit(g, u)
  {
    forall t | t in g.books.pending && g.books.pending[t] == New ensures AskedNewFits(g, u, t) {
      assert AskedNewFits(f, v, t);
    }
  }

  lemma IssueKeepsAsked(b: Books, dir: Dir, cursor: Option<int>)
    requires Balanced(b)
    ensures var c := IssueHistory(b, dir, cursor);
            && b.asked.Keys <= c.asked.Keys && (forall t | t in b.asked :: c.asked[t] == b.asked[t])
            && c.inflight <= b.inflight + {dir} && c.failed <= b.failed && b.inflight <= c.inflight
            && c.ready == b.ready && (!b.ready ==> c == b)
  {}

  lemma IssueAddsOne(b: Books, dir: Dir, cursor: Option<int>)
    requires Balanced(b)
    ensures var c := IssueHistory(b, dir, cursor);
            forall t | t in c.pending ::
              if t in b.pending then c.pending[t] == b.pending[t]
              else b.ready && c.pending[t] == dir && t in c.asked && c.asked[t] == History(dir, cursor)
  {}

  // While a jump is out, and after it, nothing else is due that could move the
  // window.
  ghost predicate OnlyLowest(f: Feed, v: set<int>) {
    && New !in f.books.inflight
    && forall t | t in f.books.pending && f.books.pending[t] == Old ::
         && t in f.books.asked && f.books.asked[t].History?
         && f.books.asked[t].cursor.Some? && Lowest(v, f.books.asked[t].cursor.value)
  }

  // A request going out leaves the other pages a place to land, and finds one
  // for its own.
  lemma IssueFits(f: Feed, dir: Dir, cursor: Option<int>, v: set<int>)
    requires Balanced(f.books) && OlderPagesFit(f, v) && NewerPagesFit(f, v)
    requires dir == Init ==> f.window != map[] || Out(f.books, Init) || OnlyLowest(f, v)
    requires dir != Init ==> f.window != map[] && cursor.Some?
    requires dir == Old ==> OldFits(f, v, cursor.value)
    requires dir == New ==> NewFits(f, v, cursor.value)
    ensures var g := f.(books := IssueHistory(f.books, dir, cursor));
            OlderPagesFit(g, v) && NewerPagesFit(g, v)
  {
    var g := f.(books := IssueHistory(f.books, dir, cursor));
    IssueKeepsAsked(f.books, dir, cursor);
    IssueAddsOne(f.books, dir, cursor);
    forall t | t in g.books.pending && g.books.pending[t] == Old ensures AskedOldFits(g, v, t) {
      assert t in f.books.pending ==> AskedOldFits(f, v, t);
    }
    forall t | t in g.books.pending && g.books.pending[t] == New ensures AskedNewFits(g, v, t) {
      assert t in f.books.pending ==> AskedNewFits(f, v, t) && HasToken(f.books.pending, New);
    }
  }

  lemma InitialKept(f: Feed, v: set<int>)
    requires RequestsOk(f, v) && WindowOk(f, v)
    requires Jump !in f.books.inflight && (f.window == map[] || f.atTail)
    requires Out(f.books, Init) || OnlyLowest(f, v)
    ensures Kept(f, LoadInitial(f), v)
  {
    IssueHistoryKeeps(f.books, Init, None);
    IssueKeepsAsked(f.books, Init, None);
    IssueFits(f, Init, None, v);
  }

  lemma OlderUnderAJump(f: Feed, v: set<int>)
    requires Balanced(f.books) && f.window != map[] && JumpAlone(f, v) && Lowest(v, Oldest(f.window))
    ensures JumpAlone(OlderFrom(f), v)
  {
    IssueKeepsAsked(f.books, Old, Some(Oldest(f.window)));
    IssueAddsOne(f.books, Old, Some(Oldest(f.window)));
  }

  lemma OlderKept(f: Feed, v: set<int>)
    requires RequestsOk(f, v) && WindowOk(f, v) && f.window != map[]
    requires Jump !in f.books.inflight || Lowest(v, Oldest(f.window))
    ensures Kept(f, OlderFrom(f), v)
  {
    if Jump in f.books.inflight { OlderUnderAJump(f, v); }
    IssueHistoryKeeps(f.books, Old, Some(Oldest(f.window)));
    IssueKeepsAsked(f.books, Old, Some(Oldest(f.window)));
    IssueFits(f, Old, Some(Oldest(f.window)), v);
  }

  lemma NewerKept(f: Feed, v: set<int>)
    requires RequestsOk(f, v) && WindowOk(f, v) && f.window != map[]
    requires Jump !in f.books.inflight
    ensures Kept(f, NewerFrom(f), v)
  {
    IssueHistoryKeeps(f.books, New, Some(Newest(f.window)));
    IssueKeepsAsked(f.books, New, Some(Newest(f.window)));
    IssueFits(f, New, Some(Newest(f.window)), v);
  }

  lemma RetryKept(f: Feed, v: set<int>)
    requires RequestsOk(f, v) && WindowOk(f, v)
    ensures Kept(f, Retried(f), v)
  {
    var a := if Init in f.books.failed then LoadInitial(f) else f;
    if Init in f.books.failed { InitialKept(f, v); }
    var b := if Old in f.books.failed && f.window != map[] then OlderFrom(a) else a;
    if Old in f.books.failed && f.window != map[] { OlderKept(a, v); }
    if New in f.books.failed && f.window != map[] { NewerKept(b, v); }
  }

  lemma {:induction false} CancelEachKeepsAsked(b: Books, dirs: seq<Dir>)
    ensures var c := CancelEach(b, dirs);
            && c.asked == b.asked && c.ready == b.ready && c.next == b.next
            && c.inflight <= b.inflight && c.failed <= b.failed
            && c.pending.Keys <= b.pending.Keys
            && forall t | t in c.pending :: c.pending[t] == b.pending[t]
    decreases |dirs|
  {
    if dirs != [] { CancelEachKeepsAsked(CancelDir(b, dirs[0]), dirs[1..]); }
  }

  lemma {:induction false} CancelEachSpares(b: Books, dirs: seq<Dir>, d: Dir)
    requires d !in dirs
    ensures Out(CancelEach(b, dirs), d) == Out(b, d)
    decreases |dirs|
  {
    if dirs != [] { CancelEachSpares(CancelDir(b, dirs[0]), dirs[1..], d); }
  }

  lemma GotoKept(f: Feed, v: set<int>)
    requires RequestsOk(f, v) && WindowOk(f, v)
    ensures Kept(f, f.(books := IssueGoto(f.books)), v)
  {
    GotoKeeps(f.books);
    CancelAllClears(f.books, JUMP_DIRS);
    CancelEachKeepsAsked(f.books, JUMP_DIRS);
  }

  lemma EmptiedKept(f: Feed, e: Event, v: set<int>)
    requires RequestsOk(f, v) && WindowOk(f, v) && (e.Reload? || e.ResetToBottom?)
    ensures Kept(f, Step(f, e), v)
  {
    CancelAllClears(f.books, ALL_DIRS);
    CancelEachKeepsAsked(f.books, ALL_DIRS);
    var g := Emptied(f, e.Reload?);
    if e.Reload? {
      var h := g.(books := g.books.(ready := e.ready, failed := {}, loadError := ""),
                  catchupBusy := false, tailTs := 0);
      InitialKept(h, v);
    } else {
      InitialKept(g, v);
    }
  }

  lemma CulledOldIs(f: Feed, n: int)
    requires Balanced(f.books) && CulledOld(f, n) != f
    ensures var g := CulledOld(f, n);
            && g == f.(window := g.window, books := g.books) && f.window != map[]
            && g.window.Keys < f.window.Keys && g.books == CancelDir(f.books, Old)
            && (forall k, x | k in g.window && x in f.window && x !in g.window :: x < k)
            && (g.window != map[] ==> Newest(g.window) == Newest(f.window))
            && Balanced(g.books) && NoNewPages(f, g) && !Out(g.books, Old)
            && (forall t | t in f.books.pending && f.books.pending[t] != Old ::
                  t in g.books.pending && g.books.pending[t] == f.books.pending[t])
            && (forall d | d != Old :: d in g.books.inflight <==> d in f.books.inflight)
            && (forall d | d != Old :: d in g.books.failed <==> d in f.books.failed)
  {
    var m, g := Least(n, |f.window|), CulledOld(f, n);
    DropOldestKeeps(f.window, m);
    assert |g.window.Keys| < |f.window.Keys| && g.window.Keys != f.window.Keys;
    CancelKeeps(f.books, Old);
    forall k, x | k in g.window && x in f.window && x !in g.window ensures x < k {
      DropOldestDrops(f.window, m, k, x);
    }
  }

  lemma CulledNewIs(f: Feed, n: int)
    requires Balanced(f.books) && CulledNew(f, n) != f
    ensures var g := CulledNew(f, n);
            && g == f.(window := g.window, books := g.books, atTail := false) && f.window != map[]
            && g.window.Keys < f.window.Keys && g.books == CancelEach(f.books, [New, Catchup])
            && (forall k, x | k in g.window && x in f.window && x !in g.window :: k < x)
            && (g.window != map[] ==> Oldest(g.window) == Oldest(f.window))
            && Balanced(g.books) && NoNewPages(f, g) && !Out(g.books, New)
            && g.books.asked == f.books.asked && g.books.ready == f.books.ready
            && Out(g.books, Init) == Out(f.books, Init)
  {
    CancelEachSpares(f.books, [New, Catchup], Init);
    var m, g := Least(n, |f.window|), CulledNew(f, n);
    DropNewestKeeps(f.window, m);
    assert |g.window.Keys| < |f.window.Keys| && g.window.Keys != f.window.Keys;
    CancelEachKeeps(f.books, [New, Catchup]);
    CancelEachKeepsAsked(f.books, [New, Catchup]);
    forall k, x | k in g.window && x in f.window && x !in g.window ensures k < x {
      DropNewestDrops(f.window, m, k, x);
    }
    forall t | t in g.books.pending ensures g.books.asked[t] == f.books.asked[t] {}
  }

  lemma CullOldKept(f: Feed, n: int, v: set<int>)
    requires RequestsOk(f, v) && WindowOk(f, v) && Allowed(f, v, CullOld(n))
    ensures Kept(f, CulledOld(f, n), v)
  {
    if CulledOld(f, n) != f {
      CulledOldIs(f, n);
      var g := CulledOld(f, n);
      forall t | t in g.books.pending ensures g.books.pending[t] != Old {
        assert HasToken(g.books.pending, g.books.pending[t]);
      }
    }
  }

  lemma CullNewKept(f: Feed, n: int, v: set<int>)
    requires RequestsOk(f, v) && WindowOk(f, v) && Allowed(f, v, CullNew(n))
    ensures Kept(f, CulledNew(f, n), v)
  {
    if CulledNew(f, n) != f {
      CulledNewIs(f, n);
      var g := CulledNew(f, n);
      forall t | t in g.books.pending ensures g.books.pending[t] != New {
        assert HasToken(g.books.pending, g.books.pending[t]);
      }
    }
  }

  lemma CallKept(f: Feed, e: Event, v: set<int>)
    requires RequestsOk(f, v) && WindowOk(f, v) && Allowed(f, v, e)
    ensures Kept(f, Step(f, e), v)
  {
    match e {
      case Reload(_) => EmptiedKept(f, e, v);
      case ResetToBottom => EmptiedKept(f, e, v);
      case LoadOlder => if AskedOlder(f) != f { OlderKept(f, v); }
      case LoadNewer => if AskedNewer(f) != f { NewerKept(f, v); }
      case Retry => RetryKept(f, v);
      case GotoTimestamp => GotoKept(f, v);
      case GotoReplyTarget(_) => GotoKept(f, v);
      case CullOld(n) => CullOldKept(f, n, v);
      case CullNew(n) => CullNewKept(f, n, v);
    }
  }

  // -------------------------------------------------- what comes off the channel

  lemma PageMerges(f: Feed, rows: seq<Row>)
    ensures MergeAll(f.window, rows).Keys == f.window.Keys + Stamps(rows)
    ensures MergeAll(map[], rows).Keys == Stamps(rows)
  {
    MergeAllKeys(f.window, rows);
    MergeAllKeys(map[], rows);
  }

  // A page joins the window if the row it was asked from is at its end or beyond
  // it by no more than one row.
  lemma OlderJoins(k: set<int>, p: set<int>, v: set<int>, c: int, x: int, y: int)
    requires Convex(k, v) && k <= v && c in v && x in k && y in k && x <= c
    requires forall t | t in k :: t <= y
    requires AtMostOneBetween(v, y, c)
    requires p <= v && (forall x | x in p :: x < c)
    requires forall x, t | x in p && t in v :: x <= t < c ==> t in p
    ensures Convex(k + p, v)
  {}

  lemma NewerJoins(k: set<int>, p: set<int>, v: set<int>, c: int, x: int, y: int)
    requires Convex(k, v) && k <= v && c in v && x in k && y in k && c <= x
    requires forall t | t in k :: y <= t
    requires AtMostOneBetween(v, c, y)
    requires p <= v && (forall x | x in p :: c < x)
    requires forall x, t | x in p && t in v :: c < t <= x ==> t in p
    ensures Convex(k + p, v)
  {}

  lemma EndsSpread(w: Window, u: Window)
    requires w != map[] && w.Keys <= u.Keys
    ensures u != map[] && Newest(w) <= Newest(u) && Oldest(u) <= Oldest(w)
  {
    assert Newest(w) in u && Oldest(w) in u;
  }

  ghost predicate Announced(f: Feed, v: set<int>) {
    f.tailTs != 0 ==> f.tailTs in v && forall t | t in v :: t <= f.tailTs
  }

  // What taking a page's reply off the books leaves of the requests.
  lemma PageSettled(f: Feed, token: nat)
    requires Balanced(f.books) && token in f.books.pending
    ensures var dir := f.books.pending[token];
            var b := ClearFailure(Settled(f.books, token), dir);
            && Balanced(b) && b.asked == f.books.asked && b.ready == f.books.ready
            && b.inflight == f.books.inflight - {dir} && b.failed <= f.books.failed
            && (forall d | d != dir :: d in b.failed <==> d in f.books.failed)
            && b.pending == f.books.pending - {token}
            && dir in f.books.inflight && dir !in b.failed
            && forall t | t in b.pending :: b.pending[t] != dir && b.pending[t] in f.books.inflight
  {
    SettledKeeps(f.books, token);
    ClearFailureKeeps(Settled(f.books, token), f.books.pending[token]);
    assert HasToken(f.books.pending, f.books.pending[token]);
    forall t | t in f.books.pending ensures f.books.pending[t] in f.books.inflight {
      assert HasToken(f.books.pending, f.books.pending[t]);
    }
  }

  lemma OpeningPageFits(f: Feed, g: Feed, v: set<int>)
    requires WindowOk(f, v) && WindowOk(g, v) && f.window.Keys <= g.window.Keys && g.atTail
    requires Out(f.books, Init) && (f.window == map[] || f.atTail)
    ensures OldFitsCarry(f, v, g, v) && NewFitsCarry(f, v, g, v)
  {
    if f.window != map[] {
      EndsSpread(f.window, g.window);
    }
  }

  lemma OpeningPageWindow(f: Feed, token: nat, a: Answer, v: set<int>)
    requires WindowOk(f, v) && token in f.books.pending && token in f.books.asked
    requires f.window == map[] || f.atTail
    requires f.books.pending[token] == Init && f.books.asked[token].History? && f.books.asked[token].dir == Init
    requires Faithful(f.books.asked[token], a, v)
    ensures var g := Resulted(f, token, a);
            WindowOk(g, v) && f.window.Keys <= g.window.Keys && g.atTail
  {
    PageMerges(f, a.Rows());
    if f.window != map[] {
      EndsSpread(f.window, Resulted(f, token, a).window);
    }
  }

  lemma OpeningPageKept(f: Feed, token: nat, a: Answer, v: set<int>)
    requires RequestsOk(f, v) && WindowOk(f, v) && token in f.books.pending
    requires f.books.pending[token] == Init && Faithful(f.books.asked[token], a, v)
    ensures Kept(f, Resulted(f, token, a), v)
  {
    var g := Resulted(f, token, a);
    ResultKeeps(f, token, a);
    PageSettled(f, token);
    OpeningPageWindow(f, token, a, v);
    OpeningPageFits(f, g, v);
    OlderCarried(f, v, g, v);
    NewerCarried(f, v, g, v);
  }

  lemma OlderPageWindow(f: Feed, token: nat, a: Answer, v: set<int>)
    requires RequestsOk(f, v) && WindowOk(f, v) && token in f.books.pending
    requires f.books.pending[token] == Old && Faithful(f.books.asked[token], a, v)
    ensures var g := Resulted(f, token, a);
            && WindowOk(g, v) && f.window.Keys <= g.window.Keys
            && (Lowest(v, f.books.asked[token].cursor.value) ==> g.window.Keys == f.window.Keys)
  {
    assert AskedOldFits(f, v, token);
    var g, p, c := Resulted(f, token, a), Stamps(a.Rows()), f.books.asked[token].cursor.value;
    PageMerges(f, a.Rows());
    if Lowest(v, c) {
      assert p == {};
      assert g.window.Keys == f.window.Keys;
    } else if f.window != map[] {
      EndsSpread(f.window, g.window);
      OlderJoins(f.window.Keys, p, v, c, Oldest(f.window), Newest(f.window));
    }
  }

  lemma OlderPageKept(f: Feed, token: nat, a: Answer, v: set<int>)
    requires RequestsOk(f, v) && WindowOk(f, v) && token in f.books.pending
    requires f.books.pending[token] == Old && Faithful(f.books.asked[token], a, v)
    ensures Kept(f, Resulted(f, token, a), v)
  {
    ResultKeeps(f, token, a);
    PageSettled(f, token);
    assert AskedOldFits(f, v, token);
    OlderPageWindow(f, token, a, v);
    var g := Resulted(f, token, a);
    if f.window != map[] {
      EndsSpread(f.window, g.window);
    }
    forall t | t in g.books.pending && g.books.pending[t] == New ensures AskedNewFits(g, v, t) {
      assert AskedNewFits(f, v, t);
    }
  }

  lemma NewerPageWindow(f: Feed, token: nat, a: Answer, v: set<int>)
    requires RequestsOk(f, v) && WindowOk(f, v) && token in f.books.pending && Announced(f, v)
    requires f.books.pending[token] == New && Faithful(f.books.asked[token], a, v)
    ensures WindowOk(Resulted(f, token, a), v)
    ensures f.window.Keys <= Resulted(f, token, a).window.Keys
  {
    assert AskedNewFits(f, v, token);
    var g, p, c := Resulted(f, token, a), Stamps(a.Rows()), f.books.asked[token].cursor.value;
    PageMerges(f, a.Rows());
    if f.window != map[] {
      EndsSpread(f.window, g.window);
      NewerJoins(f.window.Keys, p, v, c, Newest(f.window), Oldest(f.window));
    }
  }

  lemma NewerPageKept(f: Feed, token: nat, a: Answer, v: set<int>)
    requires RequestsOk(f, v) && WindowOk(f, v) && token in f.books.pending && Announced(f, v)
    requires f.books.pending[token] == New && Faithful(f.books.asked[token], a, v)
    ensures Kept(f, Resulted(f, token, a), v)
  {
    ResultKeeps(f, token, a);
    PageSettled(f, token);
    NewerPageWindow(f, token, a, v);
    assert AskedNewFits(f, v, token);
    var g := Resulted(f, token, a);
    if f.window != map[] {
      EndsSpread(f.window, g.window);
    }
    OlderCarried(f, v, g, v);
  }

  lemma JumpKept(f: Feed, token: nat, a: Answer, v: set<int>)
    requires RequestsOk(f, v) && WindowOk(f, v) && token in f.books.pending
    requires f.books.pending[token] == Jump && Faithful(f.books.asked[token], a, v)
    ensures Kept(f, Resulted(f, token, a), v)
  {
    PageSettled(f, token);
    PageMerges(f, a.SliceRows());
    var g := f.(books := ClearFailure(Settled(f.books, token), Jump));
    var h := if a.Anchor() != 0 && a.Anchor() !in g.window
             then g.(window := MergeAll(map[], a.SliceRows()), atTail := false) else g;
    forall t | t in h.books.pending && h.books.pending[t] == Old ensures AskedOldFits(h, v, t) {
      assert AskedOldFits(f, v, t);
    }
    if h.window == map[] { InitialKept(h, v); }
  }

  lemma ResultKept(f: Feed, token: nat, a: Answer, v: set<int>)
    requires RequestsOk(f, v) && WindowOk(f, v) && Announced(f, v)
    requires token in f.books.asked && Faithful(f.books.asked[token], a, v)
    ensures Kept(f, Resulted(f, token, a), v)
  {
    if token in f.books.pending {
      assert HasToken(f.books.pending, f.books.pending[token]);
      match f.books.pending[token] {
        case Init => OpeningPageKept(f, token, a, v);
        case Old => OlderPageKept(f, token, a, v);
        case New => NewerPageKept(f, token, a, v);
        case Jump => JumpKept(f, token, a, v);
        case Catchup => assert false;
      }
    }
  }

  lemma RefusedKept(f: Feed, token: nat, message: string, v: set<int>)
    requires RequestsOk(f, v) && WindowOk(f, v) && token in f.books.pending
    ensures Kept(f, f.(books := Refused(f.books, token, message)), v)
  {
    RefusedKeeps(f.books, token, message);
    PageSettled(f, token);
    var g := f.(books := Refused(f.books, token, message));
    OlderCarried(f, v, g, v);
    NewerCarried(f, v, g, v);
  }

  lemma ErrorKept(f: Feed, token: nat, message: string, v: set<int>)
    requires RequestsOk(f, v) && WindowOk(f, v)
    ensures Kept(f, Errored(f, token, message), v)
  {
    if token in f.books.pending {
      RefusedKept(f, token, message, v);
      PageSettled(f, token);
      var g := f.(books := Refused(f.books, token, message));
      if f.books.pending[token] == Jump && g.window == map[] {
        InitialKept(g, v);
      }
    }
  }

  lemma ArrivedWindow(f: Feed, row: Row, v: set<int>)
    requires WindowOk(f, v) && !f.catchupBusy && row.ts > 0 && forall t | t in v :: t < row.ts
    ensures var g := Step(f, Arrived(row));
            && WindowOk(g, v + {row.ts}) && g == f.(window := g.window)
            && (!f.atTail ==> g == f)
            && (f.atTail ==> g.window.Keys == f.window.Keys + {row.ts} && Newest(g.window) == row.ts
                             && Oldest(g.window) == if f.window == map[] then row.ts else Oldest(f.window))
  {
    var g := Step(f, Arrived(row));
    if f.atTail {
      assert g.window.Keys == f.window.Keys + {row.ts};
      assert Newest(g.window) == row.ts;
      if f.window != map[] { EndsSpread(f.window, g.window); }
    }
  }

  lemma ArrivedFits(f: Feed, row: Row, v: set<int>)
    requires WindowOk(f, v) && !f.catchupBusy && row.ts > 0 && forall t | t in v :: t < row.ts
    ensures OldFitsCarry(f, v, Step(f, Arrived(row)), v + {row.ts})
    ensures NewFitsCarry(f, v, Step(f, Arrived(row)), v + {row.ts})
  {
    ArrivedWindow(f, row, v);
  }

  lemma ArrivedKept(f: Feed, row: Row, v: set<int>)
    requires RequestsOk(f, v) && WindowOk(f, v) && row.ts > 0 && forall t | t in v :: t < row.ts
    ensures Kept(f, Step(f, Arrived(row)), v + {row.ts})
  {
    var g, u := Step(f, Arrived(row)), v + {row.ts};
    ArrivedWindow(f, row, v);
    ArrivedFits(f, row, v);
    OlderCarried(f, v, g, u);
    NewerCarried(f, v, g, u);
  }

  lemma TailKept(f: Feed, ts: int, v: set<int>)
    requires RequestsOk(f, v) && WindowOk(f, v) && ts in v && forall t | t in v :: t <= ts
    ensures Kept(f.(tailTs := ts), Step(f, Tail(ts)), v)
  {
    var g := Step(f, Tail(ts));
    OlderCarried(f, v, g, v);
    NewerCarried(f, v, g, v);
  }

  lemma SameRowsKept(f: Feed, g: Feed, v: set<int>)
    requires RequestsOk(f, v) && WindowOk(f, v)
    requires g == f.(window := g.window, online := g.online) && g.window.Keys == f.window.Keys
    ensures Kept(f, g, v)
  {
    OlderCarried(f, v, g, v);
    NewerCarried(f, v, g, v);
  }

  lemma HarmlessKept(f: Feed, e: Event, v: set<int>)
    requires RequestsOk(f, v) && WindowOk(f, v) && Harmless(e)
    ensures Kept(f, Step(f, e), v)
  {
    if e.ConnState? {
      SameRowsKept(f, f.(online := e.up), v);
      if e.up { RetryKept(f.(online := true), v); }
    } else if e.Error? {
      ErrorKept(f, e.token, e.message, v);
    } else {
      SameRowsKept(f, Step(f, e), v);
    }
  }

  // ------------------------------------------------------------- every move

  lemma {:induction false} TruthfulGrows(channel: seq<Event>, seen: nat, store: seq<int>,
                                         asked: map<nat, Ask>, more: map<nat, Ask>)
    requires Truthful(channel, seen, store, asked)
    requires asked.Keys <= more.Keys && forall t | t in asked :: more[t] == asked[t]
    ensures Truthful(channel, seen, store, more)
    decreases |channel|
  {
    if channel != [] {
      TruthfulGrows(channel[1..], if channel[0].Arrived? then seen + 1 else seen, store, asked, more);
    }
  }

  lemma {:induction false} TruthfulThenSent(channel: seq<Event>, seen: nat, store: seq<int>,
                                            asked: map<nat, Ask>, e: Event)
    requires Truthful(channel, seen, store, asked)
    requires Truthful([e], |store|, store, asked)
    ensures Truthful(channel + [e], seen, store, asked)
    decreases |channel|
  {
    if channel == [] {
      assert channel + [e] == [e];
    } else {
      TruthfulThenSent(channel[1..], if channel[0].Arrived? then seen + 1 else seen, store, asked, e);
      assert (channel + [e])[1..] == channel[1..] + [e];
    }
  }

  lemma ShownPrefix(store: seq<int>, ts: int, n: nat)
    requires n <= |store|
    ensures Shown(store + [ts], n) == Shown(store, n)
  {
    var more := store + [ts];
    forall t ensures t in Shown(more, n) <==> t in Shown(store, n) {
      if t in Shown(more, n) {
        var i :| 0 <= i < n && more[i] == t;
        assert store[i] == t;
      }
      if t in Shown(store, n) {
        var i :| 0 <= i < n && store[i] == t;
        assert more[i] == t;
      }
    }
  }

  lemma {:induction false} TruthfulThenAppended(channel: seq<Event>, seen: nat, store: seq<int>,
                                                asked: map<nat, Ask>, row: Row)
    requires Truthful(channel, seen, store, asked)
    ensures Truthful(channel + [Arrived(row), Tail(row.ts)], seen, store + [row.ts], asked)
    decreases |channel|
  {
    var more := [Arrived(row), Tail(row.ts)];
    if channel == [] {
      assert channel + more == more;
      assert more[1..] == [Tail(row.ts)];
      assert more[1..][1..] == [];
    } else {
      TruthfulThenAppended(channel[1..], if channel[0].Arrived? then seen + 1 else seen, store, asked, row);
      assert (channel + more)[1..] == channel[1..] + more;
      if seen <= |store| {
        ShownPrefix(store, row.ts, seen);
      }
    }
  }

  lemma ShownNext(store: seq<int>, n: nat)
    requires n < |store|
    ensures Shown(store, n + 1) == Shown(store, n) + {store[n]}
  {}

  lemma KeptWhole(s: System, g: Feed)
    requires Whole(s) && Kept(s.feed, g, Shown(s.store, s.seen))
    ensures Whole(s.(feed := g))
  {
    TruthfulGrows(s.channel, s.seen, s.store, s.feed.books.asked, g.books.asked);
  }

  lemma CallWhole(s: System, e: Event)
    requires Whole(s) && Possible(s, Call(e))
    ensures Whole(After(s, Call(e)))
  {
    CallKept(s.feed, e, Shown(s.store, s.seen));
    KeptWhole(s, Step(s.feed, e));
  }

  lemma AppendWhole(s: System, row: Row)
    requires Whole(s) && Possible(s, Append(row))
    ensures Whole(After(s, Append(row)))
  {
    TruthfulThenAppended(s.channel, s.seen, s.store, s.feed.books.asked, row);
    ShownPrefix(s.store, row.ts, s.seen);
  }

  lemma SendWhole(s: System, e: Event)
    requires Whole(s) && Possible(s, Send(e))
    ensures Whole(After(s, Send(e)))
  {
    TruthfulThenSent(s.channel, s.seen, s.store, s.feed.books.asked, e);
  }

  lemma DeliverArrived(s: System)
    requires Whole(s) && Possible(s, Deliver) && s.channel[0].Arrived?
    ensures Whole(After(s, Deliver))
  {
    ShownNext(s.store, s.seen);
    ArrivedKept(s.feed, s.channel[0].row, Shown(s.store, s.seen));
  }

  lemma DeliverTail(s: System)
    requires Whole(s) && Possible(s, Deliver) && s.channel[0].Tail?
    ensures Whole(After(s, Deliver))
  {
    TailKept(s.feed, s.channel[0].ts, Shown(s.store, s.seen));
  }

  lemma DeliverReply(s: System)
    requires Whole(s) && Possible(s, Deliver) && !s.channel[0].Arrived? && !s.channel[0].Tail?
    ensures Whole(After(s, Deliver))
  {
    var e, v := s.channel[0], Shown(s.store, s.seen);
    if e.Result? {
      ResultKept(s.feed, e.token, e.answer, v);
    } else {
      HarmlessKept(s.feed, e, v);
    }
    TruthfulGrows(s.channel[1..], s.seen, s.store, s.feed.books.asked, Step(s.feed, e).books.asked);
  }

  lemma DeliverWhole(s: System)
    requires Whole(s) && Possible(s, Deliver)
    ensures Whole(After(s, Deliver))
  {
    if s.channel[0].Arrived? {
      DeliverArrived(s);
    } else if s.channel[0].Tail? {
      DeliverTail(s);
    } else {
      DeliverReply(s);
    }
  }

  lemma MoveWhole(s: System, m: Move)
    requires Whole(s) && Possible(s, m)
    ensures Whole(After(s, m))
  {
    match m {
      case Call(e) => CallWhole(s, e);
      case Append(row) => AppendWhole(s, row);
      case Send(e) => SendWhole(s, e);
      case Deliver => DeliverWhole(s);
    }
  }

  lemma {:induction false} RunWhole(s: System, moves: seq<Move>)
    requires Whole(s) && Runs(s, moves)
    ensures Whole(AfterAll(s, moves))
    decreases |moves|
  {
    if moves != [] {
      MoveWhole(s, moves[0]);
      RunWhole(After(s, moves[0]), moves[1..]);
    }
  }

  // ------------------------------------------------------------- the theorem

  // A chat just opened on a store all of which has been announced.
  ghost predicate Opened(s: System) {
    && Opening(s.feed) && !s.feed.catchupBusy && s.feed.tailTs == 0
    && StoreOk(s.store) && s.seen == |s.store| && s.channel == []
  }

  // The rows are store[lo..hi], every one of them and nothing else.
  ghost predicate ShowsSlice(f: Feed, store: seq<int>, lo: nat, hi: nat) {
    && lo <= hi <= |store|
    && forall t :: t in f.window <==> exists i :: lo <= i < hi && store[i] == t
  }

  ghost predicate NoHoles(s: System) {
    exists lo: nat, hi: nat ::
      && ShowsSlice(s.feed, s.store, lo, hi) && hi <= s.seen
      && (s.feed.atTail && s.feed.window != map[] ==> hi == s.seen)
  }

  // Rows convex in what has been announced run from the oldest to the newest.
  lemma RunsThrough(f: Feed, store: seq<int>, seen: nat, lo: nat, last: nat)
    requires StoreOk(store) && lo < seen <= |store| && last < seen && f.window != map[]
    requires f.window.Keys <= Shown(store, seen) && Convex(f.window.Keys, Shown(store, seen))
    requires store[lo] == Oldest(f.window) && store[last] == Newest(f.window)
    ensures ShowsSlice(f, store, lo, last + 1)
  {
    forall t ensures t in f.window <==> exists i :: lo <= i < last + 1 && store[i] == t {
      if t in f.window {
        var i: nat :| i < seen && store[i] == t;
        assert lo <= i < last + 1;
      }
      if i :| lo <= i < last + 1 && store[i] == t {
        assert t in Shown(store, seen);
      }
    }
  }

  lemma ConvexIsSlice(s: System)
    requires Whole(s)
    ensures NoHoles(s)
  {
    var f, v := s.feed, Shown(s.store, s.seen);
    if f.window == map[] {
      assert ShowsSlice(f, s.store, s.seen, s.seen);
    } else {
      assert Oldest(f.window) in v && Newest(f.window) in v;
      var lo: nat :| lo < s.seen && s.store[lo] == Oldest(f.window);
      var last: nat :| last < s.seen && s.store[last] == Newest(f.window);
      RunsThrough(f, s.store, s.seen, lo, last);
      if f.atTail {
        assert s.store[s.seen - 1] in v;
      }
    }
  }

  // However the view pages, jumps, culls and resets, and however replies,
  // arrivals and failures interleave, the window is one unbroken slice of the
  // store; and while it claims to be at the tail it ends at the newest message
  // announced, which is the newest there is once the channel is empty.
  lemma WindowHasNoHoles(s: System, moves: seq<Move>)
    requires Opened(s) && Runs(s, moves)
    ensures var e := AfterAll(s, moves);
            NoHoles(e) && (e.channel == [] ==> e.seen == |e.store|)
  {
    assert Balanced(s.feed.books) by {
      assert forall d: Dir :: !HasToken(s.feed.books.pending, d);
    }
    RunWhole(s, moves);
    ConvexIsSlice(AfterAll(s, moves));
  }
}
