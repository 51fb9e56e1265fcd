// What the chat window means, apart from how it is stored: the window is a map
// from timestamp to fields, and every call, reply and event is a function on a
// plain value. ChatModel.dfy proves the in-place code against these functions.

// The request books: which directions have a page out, under which token, and
// which failed last time.
module ChatRequests {
  import opened Wrappers

  datatype Dir = Init | Old | New | Jump | Catchup

  // What a request asked for: a page beside a cursor (none for the opening
  // page), or the slice around a jump's target.
  datatype Ask = History(dir: Dir, cursor: Option<int>) | Goto

  datatype Books = Books(
    ready: bool,               // backend, account and chat are all set
    pending: map<nat, Dir>,
    inflight: set<Dir>,
    failed: set<Dir>,
    loadError: string,
    next: nat,                 // the token the backend hands out next
    asked: map<nat, Ask>)      // every request sent, by its token

  function ClearFailure(b: Books, dir: Dir): Books {
    if dir !in b.failed then b
    else b.(failed := b.failed - {dir},
            loadError := if b.failed - {dir} == {} then "" else b.loadError)
  }

  function Issue(b: Books, dir: Dir, ask: Ask): Books {
    b.(pending := b.pending[b.next := dir],
       inflight := b.inflight + {dir},
       asked := b.asked[b.next := ask],
       next := b.next + 1)
  }

  function IssueHistory(b: Books, dir: Dir, cursor: Option<int>): Books {
    if !b.ready || dir in b.inflight then b
    else Issue(ClearFailure(b, dir), dir, History(dir, cursor))
  }

  function Without(pending: map<nat, Dir>, dir: Dir): map<nat, Dir> {
    map t | t in pending && pending[t] != dir :: pending[t]
  }

  function CancelDir(b: Books, dir: Dir): Books {
    ClearFailure(b.(inflight := b.inflight - {dir}, pending := Without(b.pending, dir)), dir)
  }

  function CancelEach(b: Books, dirs: seq<Dir>): Books
    decreases |dirs|
  {
    if dirs == [] then b else CancelEach(CancelDir(b, dirs[0]), dirs[1..])
  }

  const ALL_DIRS: seq<Dir> := [Init, Old, New, Jump, Catchup]
  // A jump drops every other request as well as an older jump.
  const JUMP_DIRS: seq<Dir> := [Jump, Old, New, Catchup, Init]

  function IssueGoto(b: Books): Books {
    if !b.ready then b else Issue(CancelEach(b, JUMP_DIRS), Jump, Goto)
  }

  function Settled(b: Books, token: nat): Books
    requires token in b.pending
  {
    b.(pending := b.pending - {token}, inflight := b.inflight - {b.pending[token]})
  }

  // A refused page marks its direction failed; a jump and a reconcile do not.
  function Refused(b: Books, token: nat, message: string): Books
    requires token in b.pending
  {
    var dir := b.pending[token];
    var s := Settled(b, token);
    match dir
    case Jump => s
    case Catchup => s
    case New => s.(failed := s.failed + {dir})
    case _ => s.(failed := s.failed + {dir}, loadError := message)
  }

  // ------------------------------------------------------------------ balance

  ghost predicate HasToken(pending: map<nat, Dir>, dir: Dir) {
    exists t :: t in pending && pending[t] == dir
  }

  predicate AskedFor(ask: Ask, dir: Dir) {
    if dir == Jump then ask == Goto else ask.History? && ask.dir == dir
  }

  ghost predicate Balanced(b: Books) {
    && (forall d :: d in b.inflight <==> HasToken(b.pending, d))
    && (forall t, u | t in b.pending && u in b.pending :: b.pending[t] == b.pending[u] ==> t == u)
    && (forall t | t in b.asked :: t < b.next)
    && (forall t | t in b.pending :: t in b.asked && AskedFor(b.asked[t], b.pending[t]))
    && b.failed !! b.inflight
    && (b.loadError != "" ==> b.failed != {})
  }

  lemma ClearFailureKeeps(b: Books, dir: Dir)
    requires Balanced(b)
    ensures Balanced(ClearFailure(b, dir))
    ensures dir !in ClearFailure(b, dir).failed
  {}

  lemma IssueKeeps(b: Books, dir: Dir, ask: Ask)
    requires Balanced(b) && dir !in b.inflight && dir !in b.failed && AskedFor(ask, dir)
    ensures Balanced(Issue(b, dir, ask))
  {
    var c := Issue(b, dir, ask);
    assert b.next !in b.pending;
    forall d ensures d in c.inflight <==> HasToken(c.pending, d) {
      if d == dir {
        assert c.pending[b.next] == d;
      } else if HasToken(b.pending, d) {
        var t :| t in b.pending && b.pending[t] == d;
        assert c.pending[t] == d;
      }
    }
  }

  lemma IssueHistoryKeeps(b: Books, dir: Dir, cursor: Option<int>)
    requires Balanced(b) && dir != Jump
    ensures Balanced(IssueHistory(b, dir, cursor))
  {
    if b.ready && dir !in b.inflight {
      ClearFailureKeeps(b, dir);
      IssueKeeps(ClearFailure(b, dir), dir, History(dir, cursor));
    }
  }

  lemma ForgetKeeps(b: Books, dir: Dir)
    requires Balanced(b)
    ensures Balanced(b.(inflight := b.inflight - {dir}, pending := Without(b.pending, dir)))
  {
    var kept := Without(b.pending, dir);
    forall d ensures d in b.inflight - {dir} <==> HasToken(kept, d) {
      if d != dir && HasToken(b.pending, d) {
        var t :| t in b.pending && b.pending[t] == d;
        assert kept[t] == d;
      }
    }
  }

  lemma CancelKeeps(b: Books, dir: Dir)
    requires Balanced(b)
    ensures Balanced(CancelDir(b, dir))
    ensures dir !in CancelDir(b, dir).inflight && dir !in CancelDir(b, dir).failed
    ensures CancelDir(b, dir).inflight <= b.inflight && CancelDir(b, dir).failed <= b.failed
  {
    ForgetKeeps(b, dir);
    ClearFailureKeeps(b.(inflight := b.inflight - {dir}, pending := Without(b.pending, dir)), dir);
  }

  lemma {:induction false} CancelEachKeeps(b: Books, dirs: seq<Dir>)
    requires Balanced(b)
    ensures var c := CancelEach(b, dirs);
            && Balanced(c)
            && (forall d | d in dirs :: d !in c.inflight && d !in c.failed)
            && c.inflight <= b.inflight && c.failed <= b.failed
    decreases |dirs|
  {
    if dirs != [] {
      CancelKeeps(b, dirs[0]);
      CancelEachKeeps(CancelDir(b, dirs[0]), dirs[1..]);
      assert forall d | d in dirs :: d == dirs[0] || d in dirs[1..];
    }
  }

  lemma EveryDirListed(d: Dir)
    ensures d in ALL_DIRS && d in JUMP_DIRS
  {
    assert ALL_DIRS[0] == Init && ALL_DIRS[1] == Old && ALL_DIRS[2] == New
        && ALL_DIRS[3] == Jump && ALL_DIRS[4] == Catchup;
    assert JUMP_DIRS[0] == Jump && JUMP_DIRS[1] == Old && JUMP_DIRS[2] == New
        && JUMP_DIRS[3] == Catchup && JUMP_DIRS[4] == Init;
  }

  // Cancelling every direction, in either order, leaves nothing out or failed.
  lemma CancelAllClears(b: Books, dirs: seq<Dir>)
    requires Balanced(b) && (dirs == ALL_DIRS || dirs == JUMP_DIRS)
    ensures var c := CancelEach(b, dirs);
            Balanced(c) && c.inflight == {} && c.failed == {} && c.pending == map[]
  {
    CancelEachKeeps(b, dirs);
    var c := CancelEach(b, dirs);
    forall d: Dir ensures d !in c.inflight && d !in c.failed { EveryDirListed(d); }
    forall t | t in c.pending ensures false {
      assert HasToken(c.pending, c.pending[t]);
    }
  }

  lemma GotoKeeps(b: Books)
    requires Balanced(b)
    ensures Balanced(IssueGoto(b))
    ensures b.ready ==> IssueGoto(b).inflight == {Jump} && IssueGoto(b).failed == {}
  {
    if b.ready {
      CancelAllClears(b, JUMP_DIRS);
      IssueKeeps(CancelEach(b, JUMP_DIRS), Jump, Goto);
    }
  }

  lemma SettledKeeps(b: Books, token: nat)
    requires Balanced(b) && token in b.pending
    ensures Balanced(Settled(b, token))
    ensures b.pending[token] !in Settled(b, token).inflight
  {
    var c := Settled(b, token);
    forall d ensures d in c.inflight <==> HasToken(c.pending, d) {
      if d != b.pending[token] && HasToken(b.pending, d) {
        var t :| t in b.pending && b.pending[t] == d;
        assert c.pending[t] == d;
      }
    }
  }

  lemma RefusedKeeps(b: Books, token: nat, message: string)
    requires Balanced(b) && token in b.pending
    ensures Balanced(Refused(b, token, message))
  {
    SettledKeeps(b, token);
  }

  // ----------------------------------------------------------- stale tokens

  ghost predicate Stale(b: Books, token: nat) { token < b.next && token !in b.pending }

  lemma {:induction false} CancelEachForgets(b: Books, dirs: seq<Dir>, token: nat)
    requires Stale(b, token)
    ensures Stale(CancelEach(b, dirs), token)
    decreases |dirs|
  {
    if dirs != [] { CancelEachForgets(CancelDir(b, dirs[0]), dirs[1..], token); }
  }
}

module ChatFeed {
  import opened Wrappers
  import opened Extremes
  import opened ChatRequests

  type Fields = map<string, string>
  type Window = map<int, Fields>

  datatype Row = Row(ts: int, fields: Fields)

  // A reply's payload. A page role reads it as a list, a jump as a map, and
  // each finds nothing in the other's shape.
  datatype Answer = Page(page: seq<Row>) | Slice(target: int, slice: seq<Row>)
  {
    function Rows(): seq<Row> { if Page? then page else [] }
    function Anchor(): int { if Slice? then target else 0 }
    function SliceRows(): seq<Row> { if Slice? then slice else [] }
  }

  datatype Feed = Feed(
    books: Books,
    window: Window,
    atTail: bool,
    catchupBusy: bool,
    tailTs: int,
    online: bool)

  datatype Event =
    | Reload(ready: bool)
    | LoadOlder | LoadNewer | Retry
    | GotoTimestamp | GotoReplyTarget(ts: int)
    | ResetToBottom
    | CullOld(count: int) | CullNew(count: int)
    | Result(token: nat, answer: Answer)
    | Error(token: nat, message: string)
    | Arrived(row: Row)
    | Edited(row: Row)
    | Status(ts: int, fields: Fields)
    | Confirmed(ts: int, newTs: int, status: string)
    | Retracted(ts: int)
    | Tail(ts: int)
    | CatchupStarted | CatchupDone
    | ConnState(up: bool)

  // ------------------------------------------------------------ the window

  ghost function Oldest(w: Window): int { if w == map[] then 0 else Min(w.Keys) }

  ghost function Newest(w: Window): int { if w == map[] then 0 else Max(w.Keys) }

  function Merge(w: Window, row: Row): Window {
    if row.ts == 0 then w
    else if row.ts in w then w[row.ts := w[row.ts] + row.fields]
    else w[row.ts := row.fields]
  }

  // In order: the last row for a timestamp has the last word on each field.
  function MergeAll(w: Window, rows: seq<Row>): Window {
    if rows == [] then w
    else Merge(MergeAll(w, rows[..|rows| - 1]), rows[|rows| - 1])
  }

  function Patch(w: Window, ts: int, fields: Fields): Window {
    if ts in w then w[ts := w[ts] + fields] else w
  }

  function Confirm(w: Window, ts: int, newTs: int, status: string): Window {
    if ts !in w then w
    else if newTs == 0 || newTs == ts then Patch(w, ts, map["server_status" := status])
    else Merge(w - {ts}, Row(newTs, w[ts]["server_status" := status]))
  }

  function Entomb(w: Window, ts: int): Window {
    if ts in w then w[ts := w[ts]["retracted" := "true"] - {"content"}] else w
  }

  ghost function DropOldest(w: Window, n: nat): Window
    decreases n
  {
    if n == 0 || w == map[] then w else DropOldest(w - {Min(w.Keys)}, n - 1)
  }

  ghost function DropNewest(w: Window, n: nat): Window
    decreases n
  {
    if n == 0 || w == map[] then w else DropNewest(w - {Max(w.Keys)}, n - 1)
  }

  function Least(a: int, b: int): int { if a <= b then a else b }

  function PageNewest(rows: seq<Row>): int {
    if rows == [] then 0
    else var before := PageNewest(rows[..|rows| - 1]);
         var ts := rows[|rows| - 1].ts;
         if before < ts then ts else before
  }

  // ---------------------------------------------------------------- the steps

  function LoadInitial(f: Feed): Feed { f.(books := IssueHistory(f.books, Init, None)) }

  ghost function OlderFrom(f: Feed): Feed {
    f.(books := IssueHistory(f.books, Old, Some(Oldest(f.window))))
  }

  ghost function NewerFrom(f: Feed): Feed {
    f.(books := IssueHistory(f.books, New, Some(Newest(f.window))))
  }

  ghost function Retried(f: Feed): Feed {
    var a := if Init in f.books.failed then LoadInitial(f) else f;
    var b := if Old in f.books.failed && f.window != map[] then OlderFrom(a) else a;
    if New in f.books.failed && f.window != map[] then NewerFrom(b) else b
  }

  ghost function Reconciled(f: Feed): Feed {
    if !f.atTail || New in f.books.inflight || Catchup in f.books.inflight then f
    else if f.window == map[] then LoadInitial(f)
    else if f.tailTs != 0 && Newest(f.window) == f.tailTs then f
    else f.(books := IssueHistory(f.books, Catchup, Some(Newest(f.window))))
  }

  ghost function Landed(f: Feed, dir: Dir, a: Answer): Feed {
    match dir
    case Init => f.(window := MergeAll(f.window, a.Rows()), atTail := true)
    case Old => f.(window := MergeAll(f.window, a.Rows()))
    case New =>
      var g := f.(window := MergeAll(f.window, a.Rows()));
      if g.tailTs != 0 && g.window != map[] && Newest(g.window) == g.tailTs
      then g.(atTail := true) else g
    case Catchup =>
      if a.Rows() == [] || PageNewest(a.Rows()) == f.tailTs
      then f.(window := MergeAll(f.window, a.Rows())) else f
    case Jump =>
      var g := if a.Anchor() != 0 && a.Anchor() !in f.window
               then f.(window := MergeAll(map[], a.SliceRows()), atTail := false) else f;
      if g.window == map[] then LoadInitial(g) else g
  }

  ghost function Resulted(f: Feed, token: nat, a: Answer): Feed {
    if token !in f.books.pending then f
    else
      var dir := f.books.pending[token];
      Landed(f.(books := ClearFailure(Settled(f.books, token), dir)), dir, a)
  }

  function Errored(f: Feed, token: nat, message: string): Feed {
    if token !in f.books.pending then f
    else
      var g := f.(books := Refused(f.books, token, message));
      if f.books.pending[token] == Jump && g.window == map[] then LoadInitial(g) else g
  }

  function Emptied(f: Feed, atTail: bool): Feed {
    f.(books := CancelEach(f.books, ALL_DIRS), window := map[], atTail := atTail)
  }

  function Reloaded(f: Feed, ready: bool): Feed {
    var g := Emptied(f, true);
    LoadInitial(g.(books := g.books.(ready := ready, failed := {}, loadError := ""),
                   catchupBusy := false, tailTs := 0))
  }

  ghost function CulledOld(f: Feed, count: int): Feed {
    var n := Least(count, |f.window|);
    if n <= 0 then f
    else f.(window := DropOldest(f.window, n), books := CancelDir(f.books, Old))
  }

  ghost function CulledNew(f: Feed, count: int): Feed {
    var n := Least(count, |f.window|);
    if n <= 0 then f
    else f.(window := DropNewest(f.window, n), atTail := false,
            books := CancelEach(f.books, [New, Catchup]))
  }

  predicate QuotesMessage(w: Window, ts: int) {
    ts in w && "reply_id" in w[ts] && w[ts]["reply_id"] != ""
  }

  ghost function AskedOlder(f: Feed): Feed {
    if f.window == map[] || Old in f.books.failed then f else OlderFrom(f)
  }

  ghost function AskedNewer(f: Feed): Feed {
    if f.window == map[] || New in f.books.failed then f else NewerFrom(f)
  }

  function Jumped(f: Feed): Feed { f.(books := IssueGoto(f.books)) }

  function JumpedToReply(f: Feed, ts: int): Feed {
    if QuotesMessage(f.window, ts) then Jumped(f) else f
  }

  // A live message enters the window only at the tail, outside a catchup.
  function GotNew(f: Feed, row: Row): Feed {
    if !f.atTail || f.catchupBusy then f else f.(window := Merge(f.window, row))
  }

  function GotEdit(f: Feed, row: Row): Feed {
    if row.ts in f.window then f.(window := Merge(f.window, row)) else f
  }

  ghost function GotTail(f: Feed, ts: int): Feed {
    if !f.atTail && f.window != map[] && Newest(f.window) == ts
    then f.(tailTs := ts, atTail := true) else f.(tailTs := ts)
  }

  ghost function Step(f: Feed, e: Event): Feed {
    match e
    case Reload(ready) => Reloaded(f, ready)
    case LoadOlder => AskedOlder(f)
    case LoadNewer => AskedNewer(f)
    case Retry => Retried(f)
    case GotoTimestamp => Jumped(f)
    case GotoReplyTarget(ts) => JumpedToReply(f, ts)
    case ResetToBottom => LoadInitial(Emptied(f, false))
    case CullOld(count) => CulledOld(f, count)
    case CullNew(count) => CulledNew(f, count)
    case Result(token, answer) => Resulted(f, token, answer)
    case Error(token, message) => Errored(f, token, message)
    case Arrived(row) => GotNew(f, row)
    case Edited(row) => GotEdit(f, row)
    case Status(ts, fields) => f.(window := Patch(f.window, ts, fields))
    case Confirmed(ts, newTs, status) => f.(window := Confirm(f.window, ts, newTs, status))
    case Retracted(ts) => f.(window := Entomb(f.window, ts))
    case Tail(ts) => GotTail(f, ts)
    case CatchupStarted => f.(catchupBusy := true)
    case CatchupDone => Reconciled(f.(catchupBusy := false))
    case ConnState(up) => if up then Retried(f.(online := true)) else f.(online := false)
  }

  ghost function Run(f: Feed, events: seq<Event>): Feed
    decreases |events|
  {
    if events == [] then f else Run(Step(f, events[0]), events[1..])
  }

  // ------------------------------------------------- laws of the window's map

  lemma {:induction false} MergeAllKeys(w: Window, rows: seq<Row>)
    ensures MergeAll(w, rows).Keys == w.Keys + (set r | r in rows && r.ts != 0 :: r.ts)
  {
    if rows != [] {
      var init, last := rows[..|rows| - 1], rows[|rows| - 1];
      MergeAllKeys(w, init);
      assert forall r :: r in rows <==> r in init || r == last;
    }
  }

  // What a row ends up saying: the last mention of a field wins, and a field
  // the batch never mentions keeps its old value.
  lemma {:induction false} MergeAllLastWord(w: Window, rows: seq<Row>, k: nat, field: string)
    requires k < |rows| && rows[k].ts != 0 && field in rows[k].fields
    requires forall i | k < i < |rows| :: rows[i].ts == rows[k].ts ==> field !in rows[i].fields
    ensures var m := MergeAll(w, rows);
            var ts := rows[k].ts;
            ts in m && field in m[ts] && m[ts][field] == rows[k].fields[field]
  {
    if k < |rows| - 1 {
      var init := rows[..|rows| - 1];
      assert init[k] == rows[k];
      forall i | k < i < |init| && init[i].ts == init[k].ts ensures field !in init[i].fields {
        assert init[i] == rows[i];
      }
      MergeAllLastWord(w, init, k, field);
    }
  }

  lemma {:induction false} MergeAllKeepsRest(w: Window, rows: seq<Row>, ts: int, field: string)
    requires ts in w && field in w[ts]
    requires forall i | 0 <= i < |rows| :: rows[i].ts == ts ==> field !in rows[i].fields
    ensures var m := MergeAll(w, rows);
            ts in m && field in m[ts] && m[ts][field] == w[ts][field]
  {
    if rows != [] {
      var init := rows[..|rows| - 1];
      forall i | 0 <= i < |init| && init[i].ts == ts ensures field !in init[i].fields {
        assert init[i] == rows[i];
      }
      MergeAllKeepsRest(w, init, ts, field);
    }
  }

  lemma {:induction false} DropOldestKeeps(w: Window, n: nat)
    requires n <= |w.Keys|
    ensures var d := DropOldest(w, n);
            d.Keys <= w.Keys && |d.Keys| == |w.Keys| - n && forall k | k in d :: d[k] == w[k]
    decreases n
  {
    if n > 0 {
      var m := Min(w.Keys);
      assert (w - {m}).Keys == w.Keys - {m};
      DropOldestKeeps(w - {m}, n - 1);
    }
  }

  // Exactly the n oldest rows go, and the rest are untouched.
  lemma {:induction false} DropOldestDrops(w: Window, n: nat, kept: int, gone: int)
    requires n <= |w.Keys| && gone in w
    requires kept in DropOldest(w, n) && gone !in DropOldest(w, n)
    ensures gone < kept
    decreases n
  {
    if n > 0 {
      var m := Min(w.Keys);
      assert (w - {m}).Keys == w.Keys - {m};
      DropOldestKeeps(w - {m}, n - 1);
      if gone != m { DropOldestDrops(w - {m}, n - 1, kept, gone); }
    }
  }

  lemma {:induction false} DropNewestKeeps(w: Window, n: nat)
    requires n <= |w.Keys|
    ensures var d := DropNewest(w, n);
            d.Keys <= w.Keys && |d.Keys| == |w.Keys| - n && forall k | k in d :: d[k] == w[k]
    decreases n
  {
    if n > 0 {
      var m := Max(w.Keys);
      assert (w - {m}).Keys == w.Keys - {m};
      DropNewestKeeps(w - {m}, n - 1);
    }
  }

  // Exactly the n newest rows go, and the rest are untouched.
  lemma {:induction false} DropNewestDrops(w: Window, n: nat, kept: int, gone: int)
    requires n <= |w.Keys| && gone in w
    requires kept in DropNewest(w, n) && gone !in DropNewest(w, n)
    ensures kept < gone
    decreases n
  {
    if n > 0 {
      var m := Max(w.Keys);
      assert (w - {m}).Keys == w.Keys - {m};
      DropNewestKeeps(w - {m}, n - 1);
      if gone != m { DropNewestDrops(w - {m}, n - 1, kept, gone); }
    }
  }

  // ------------------------------------------- what every reachable state keeps

  ghost predicate Sound(f: Feed) { Balanced(f.books) && 0 !in f.window }

  // A chat just opened, nothing asked of the backend that could still answer.
  ghost predicate Opening(f: Feed) {
    && f.books.pending == map[] && f.books.inflight == {} && f.books.failed == {}
    && f.books.loadError == "" && (forall t | t in f.books.asked :: t < f.books.next)
    && f.window == map[]
  }

  lemma AskedKeeps(f: Feed)
    requires Sound(f)
    ensures Sound(LoadInitial(f)) && Sound(OlderFrom(f)) && Sound(NewerFrom(f))
  {
    IssueHistoryKeeps(f.books, Init, None);
    IssueHistoryKeeps(f.books, Old, Some(Oldest(f.window)));
    IssueHistoryKeeps(f.books, New, Some(Newest(f.window)));
  }

  lemma RetriedKeeps(f: Feed)
    requires Sound(f)
    ensures Sound(Retried(f))
  {
    AskedKeeps(f);
    var a := if Init in f.books.failed then LoadInitial(f) else f;
    AskedKeeps(a);
    var b := if Old in f.books.failed && f.window != map[] then OlderFrom(a) else a;
    AskedKeeps(b);
  }

  lemma ReconciledKeeps(f: Feed)
    requires Sound(f)
    ensures Sound(Reconciled(f))
  {
    IssueHistoryKeeps(f.books, Init, None);
    IssueHistoryKeeps(f.books, Catchup, Some(Newest(f.window)));
  }

  lemma LandedKeeps(f: Feed, dir: Dir, a: Answer)
    requires Sound(f)
    ensures Sound(Landed(f, dir, a))
  {
    IssueHistoryKeeps(f.books, Init, None);
    MergeAllKeys(f.window, a.Rows());
    MergeAllKeys(map[], a.SliceRows());
  }

  lemma ResultKeeps(f: Feed, token: nat, a: Answer)
    requires Sound(f)
    ensures Sound(Resulted(f, token, a))
  {
    if token in f.books.pending {
      var dir, b := f.books.pending[token], Settled(f.books, token);
      SettledKeeps(f.books, token);
      ClearFailureKeeps(b, dir);
      LandedKeeps(f.(books := ClearFailure(b, dir)), dir, a);
    }
  }

  lemma ErrorKeeps(f: Feed, token: nat, message: string)
    requires Sound(f)
    ensures Sound(Errored(f, token, message))
  {
    if token in f.books.pending {
      RefusedKeeps(f.books, token, message);
      IssueHistoryKeeps(Refused(f.books, token, message), Init, None);
    }
  }

  lemma EmptiedKeeps(f: Feed, ready: bool)
    requires Sound(f)
    ensures Sound(Reloaded(f, ready)) && Sound(Step(f, ResetToBottom))
  {
    CancelAllClears(f.books, ALL_DIRS);
    var b := CancelEach(f.books, ALL_DIRS);
    IssueHistoryKeeps(b, Init, None);
    IssueHistoryKeeps(b.(ready := ready, failed := {}, loadError := ""), Init, None);
  }

  lemma CullKeeps(f: Feed, count: int)
    requires Sound(f)
    ensures Sound(CulledOld(f, count)) && Sound(CulledNew(f, count))
  {
    var n := Least(count, |f.window|);
    if n > 0 {
      DropOldestKeeps(f.window, n);
      DropNewestKeeps(f.window, n);
      CancelKeeps(f.books, Old);
      CancelEachKeeps(f.books, [New, Catchup]);
    }
  }

  // Every call, reply and event keeps the request books straight.
  lemma StepKeeps(f: Feed, e: Event)
    requires Sound(f)
    ensures Sound(Step(f, e))
  {
    match e {
      case Reload(ready) => EmptiedKeeps(f, ready);
      case LoadOlder => IssueHistoryKeeps(f.books, Old, Some(Oldest(f.window)));
      case LoadNewer => IssueHistoryKeeps(f.books, New, Some(Newest(f.window)));
      case Retry => RetriedKeeps(f);
      case GotoTimestamp => GotoKeeps(f.books);
      case GotoReplyTarget(_) => GotoKeeps(f.books);
      case ResetToBottom => EmptiedKeeps(f, true);
      case CullOld(count) => CullKeeps(f, count);
      case CullNew(count) => CullKeeps(f, count);
      case Result(token, answer) => ResultKeeps(f, token, answer);
      case Error(token, message) => ErrorKeeps(f, token, message);
      case CatchupDone => ReconciledKeeps(f.(catchupBusy := false));
      case ConnState(up) => RetriedKeeps(f.(online := true));
      case _ =>
    }
  }

  lemma {:induction false} RunKeeps(f: Feed, events: seq<Event>)
    requires Sound(f)
    ensures Sound(Run(f, events))
    decreases |events|
  {
    if events != [] {
      StepKeeps(f, events[0]);
      RunKeeps(Step(f, events[0]), events[1..]);
    }
  }

  // From the moment a chat opens, whatever happens next: the directions marked
  // busy are exactly those with a token out, one token each; a failed direction
  // is not busy; an error on display has a failed direction behind it.
  lemma BooksAlwaysBalance(f: Feed, events: seq<Event>)
    requires Opening(f)
    ensures var b := Run(f, events).books;
            && b.inflight == b.pending.Values
            && (forall t, u | t in b.pending && u in b.pending && t != u :: b.pending[t] != b.pending[u])
            && b.failed !! b.inflight
            && (b.loadError != "" ==> b.failed != {})
    ensures 0 !in Run(f, events).window
  {
    RunKeeps(f, events);
    var b := Run(f, events).books;
    forall d ensures d in b.inflight <==> d in b.pending.Values {
      if d in b.inflight {
        var t :| t in b.pending && b.pending[t] == d;
      }
      if d in b.pending.Values {
        var t :| t in b.pending && b.pending[t] == d;
        assert HasToken(b.pending, d);
      }
    }
  }

  // ------------------------------------------------------------ stale replies

  lemma IssueForgets(b: Books, dir: Dir, cursor: Option<int>, token: nat)
    requires Stale(b, token)
    ensures Stale(IssueHistory(b, dir, cursor), token)
  {}

  lemma RetriedForgets(f: Feed, token: nat)
    requires Stale(f.books, token)
    ensures Stale(Retried(f).books, token)
  {
    var a := if Init in f.books.failed then LoadInitial(f) else f;
    IssueForgets(f.books, Init, None, token);
    var b := if Old in f.books.failed && f.window != map[] then OlderFrom(a) else a;
    IssueForgets(a.books, Old, Some(Oldest(f.window)), token);
    IssueForgets(b.books, New, Some(Newest(f.window)), token);
  }

  lemma LandedForgets(f: Feed, dir: Dir, a: Answer, token: nat)
    requires Stale(f.books, token)
    ensures Stale(Landed(f, dir, a).books, token)
  {
    IssueForgets(f.books, Init, None, token);
  }

  lemma RepliedForgets(f: Feed, token: nat, answered: nat, a: Answer, message: string)
    requires Stale(f.books, token)
    ensures Stale(Resulted(f, answered, a).books, token)
    ensures Stale(Errored(f, answered, message).books, token)
  {
    if answered in f.books.pending {
      var b := Settled(f.books, answered);
      LandedForgets(f.(books := ClearFailure(b, f.books.pending[answered])), f.books.pending[answered], a, token);
      IssueForgets(Refused(f.books, answered, message), Init, None, token);
    }
  }

  lemma CullForgets(f: Feed, count: int, token: nat)
    requires Stale(f.books, token)
    ensures Stale(CulledOld(f, count).books, token) && Stale(CulledNew(f, count).books, token)
  {
    CancelEachForgets(f.books, [New, Catchup], token);
  }

  lemma JumpForgets(f: Feed, ts: int, token: nat)
    requires Stale(f.books, token)
    ensures Stale(Jumped(f).books, token) && Stale(JumpedToReply(f, ts).books, token)
  {
    CancelEachForgets(f.books, JUMP_DIRS, token);
  }

  lemma ReissueForgets(b: Books, ready: bool, token: nat)
    requires Stale(b, token)
    ensures Stale(IssueHistory(b, Init, None), token)
    ensures Stale(IssueHistory(b.(ready := ready, failed := {}, loadError := ""), Init, None), token)
  {}

  lemma EmptiedForgets(f: Feed, ready: bool, token: nat)
    requires Stale(f.books, token)
    ensures Stale(Reloaded(f, ready).books, token)
    ensures Stale(LoadInitial(Emptied(f, false)).books, token)
  {
    CancelEachForgets(f.books, ALL_DIRS, token);
    ReissueForgets(CancelEach(f.books, ALL_DIRS), ready, token);
  }

  lemma PagedForgets(f: Feed, token: nat)
    requires Stale(f.books, token)
    ensures Stale(AskedOlder(f).books, token) && Stale(AskedNewer(f).books, token)
    ensures Stale(Reconciled(f).books, token)
  {}

  lemma StepForgets(f: Feed, e: Event, token: nat)
    requires Stale(f.books, token)
    ensures Stale(Step(f, e).books, token)
  {
    match e {
      case Reload(ready) => EmptiedForgets(f, ready, token);
      case ResetToBottom => EmptiedForgets(f, true, token);
      case LoadOlder => PagedForgets(f, token);
      case LoadNewer => PagedForgets(f, token);
      case CatchupDone => PagedForgets(f.(catchupBusy := false), token);
      case GotoTimestamp => JumpForgets(f, 0, token);
      case GotoReplyTarget(ts) => JumpForgets(f, ts, token);
      case CullOld(count) => CullForgets(f, count, token);
      case CullNew(count) => CullForgets(f, count, token);
      case Result(t, a) => RepliedForgets(f, token, t, a, "");
      case Error(t, m) => RepliedForgets(f, token, t, Page([]), m);
      case Retry => RetriedForgets(f, token);
      case ConnState(_) => RetriedForgets(f.(online := true), token);
      case _ =>
    }
  }

  lemma {:induction false} RunForgets(f: Feed, events: seq<Event>, token: nat)
    requires Stale(f.books, token)
    ensures Stale(Run(f, events).books, token)
    decreases |events|
  {
    if events != [] {
      StepForgets(f, events[0], token);
      RunForgets(Step(f, events[0]), events[1..], token);
    }
  }

  lemma CancelForgets(b: Books, token: nat)
    requires Balanced(b) && token in b.pending
    ensures Stale(CancelDir(b, b.pending[token]), token)
  {}

  lemma StaleReplyIsIgnored(f: Feed, token: nat, a: Answer, message: string)
    requires Stale(f.books, token)
    ensures Step(f, Result(token, a)) == f && Step(f, Error(token, message)) == f
  {}

  // A token dropped by a cancel is dead for good: however much later its reply
  // comes, success or failure, it changes nothing at all.
  lemma CancelledReplyIsIgnored(f: Feed, token: nat, events: seq<Event>,
                                a: Answer, message: string)
    requires Sound(f) && token in f.books.pending
    ensures var cancelled := f.(books := CancelDir(f.books, f.books.pending[token]));
            var g := Run(cancelled, events);
            Step(g, Result(token, a)) == g && Step(g, Error(token, message)) == g
  {
    var cancelled := f.(books := CancelDir(f.books, f.books.pending[token]));
    CancelForgets(f.books, token);
    RunForgets(cancelled, events, token);
    StaleReplyIsIgnored(Run(cancelled, events), token, a, message);
  }
}
