// The window as the model holds it: rows newest first, patched, inserted and
// erased in place. Every method is proved against the map-level steps of
// ChatFeed.dfy, so what is proved there of every run holds of this code.

module ChatRows {
  import opened ChatFeed

  ghost predicate Descending(rows: seq<Row>) {
    (forall i, j | 0 <= i < j < |rows| :: rows[i].ts > rows[j].ts)
    && forall i | 0 <= i < |rows| :: rows[i].ts != 0
  }

  ghost predicate Holds(rows: seq<Row>, ts: int) { exists i :: 0 <= i < |rows| && rows[i].ts == ts }

  ghost function FieldsAt(rows: seq<Row>, ts: int): Fields
    requires Holds(rows, ts)
  {
    var i :| 0 <= i < |rows| && rows[i].ts == ts; rows[i].fields
  }

  // The rows as a map from timestamp to fields.
  ghost function Contents(rows: seq<Row>): Window {
    map t | t in (set i | 0 <= i < |rows| :: rows[i].ts) :: FieldsAt(rows, t)
  }

  ghost predicate Matches(rows: seq<Row>, w: Window) {
    && (forall i | 0 <= i < |rows| :: rows[i].ts in w && w[rows[i].ts] == rows[i].fields)
    && forall t | t in w :: Holds(rows, t)
  }

  lemma ContentsHolds(rows: seq<Row>)
    requires Descending(rows)
    ensures Matches(rows, Contents(rows))
    ensures forall t :: t in Contents(rows) <==> Holds(rows, t)
  {
    forall i | 0 <= i < |rows| ensures Holds(rows, rows[i].ts) && FieldsAt(rows, rows[i].ts) == rows[i].fields {
      assert Holds(rows, rows[i].ts);
    }
  }

  lemma ContentsAre(rows: seq<Row>, w: Window)
    requires Descending(rows) && Matches(rows, w)
    ensures Contents(rows) == w
  {
    ContentsHolds(rows);
    var c := Contents(rows);
    forall t ensures t in c <==> t in w {}
    forall t | t in c ensures c[t] == w[t] {
      var i :| 0 <= i < |rows| && rows[i].ts == t;
    }
  }

  function InsertAt(rows: seq<Row>, pos: nat, row: Row): (more: seq<Row>)
    requires pos <= |rows|
    ensures |more| == |rows| + 1 && more[pos] == row
    ensures forall i | 0 <= i < pos :: more[i] == rows[i]
    ensures forall i | pos < i < |more| :: more[i] == rows[i - 1]
  {
    rows[..pos] + [row] + rows[pos..]
  }

  function RemoveAt(rows: seq<Row>, pos: nat): (less: seq<Row>)
    requires pos < |rows|
    ensures |less| == |rows| - 1
    ensures forall i | 0 <= i < pos :: less[i] == rows[i]
    ensures forall i | pos <= i < |less| :: less[i] == rows[i + 1]
  {
    rows[..pos] + rows[pos + 1..]
  }

  lemma InsertMatches(rows: seq<Row>, pos: nat, row: Row, w: Window)
    requires pos <= |rows| && Matches(rows, w)
    requires forall i | 0 <= i < |rows| :: rows[i].ts != row.ts
    ensures Matches(InsertAt(rows, pos, row), w[row.ts := row.fields])
  {
    var more := InsertAt(rows, pos, row);
    forall t | t in w[row.ts := row.fields] ensures Holds(more, t) {
      if t == row.ts {
        assert more[pos].ts == t;
      } else {
        var i :| 0 <= i < |rows| && rows[i].ts == t;
        assert more[if i < pos then i else i + 1].ts == t;
      }
    }
  }

  lemma InsertDescends(rows: seq<Row>, pos: nat, row: Row, more: seq<Row>)
    requires Descending(rows) && pos <= |rows| && row.ts != 0
    requires forall i | 0 <= i < pos :: rows[i].ts > row.ts
    requires forall i | pos <= i < |rows| :: rows[i].ts < row.ts
    requires |more| == |rows| + 1 && more[pos] == row
    requires forall i | 0 <= i < |more| && i != pos :: more[i] == rows[if i < pos then i else i - 1]
    ensures Descending(more)
  {}

  lemma Inserted(rows: seq<Row>, pos: nat, row: Row)
    requires Descending(rows) && pos <= |rows| && row.ts != 0
    requires forall i | 0 <= i < pos :: rows[i].ts > row.ts
    requires forall i | pos <= i < |rows| :: rows[i].ts < row.ts
    ensures Descending(InsertAt(rows, pos, row))
    ensures Contents(InsertAt(rows, pos, row)) == Contents(rows)[row.ts := row.fields]
  {
    ContentsHolds(rows);
    InsertMatches(rows, pos, row, Contents(rows));
    InsertDescends(rows, pos, row, InsertAt(rows, pos, row));
    ContentsAre(InsertAt(rows, pos, row), Contents(rows)[row.ts := row.fields]);
  }

  lemma OverwriteMatches(rows: seq<Row>, pos: nat, row: Row, w: Window)
    requires pos < |rows| && rows[pos].ts == row.ts && Matches(rows, w)
    requires forall i | 0 <= i < |rows| && i != pos :: rows[i].ts != row.ts
    ensures Matches(rows[pos := row], w[row.ts := row.fields])
  {
    var more := rows[pos := row];
    forall t | t in w[row.ts := row.fields] ensures Holds(more, t) {
      assert Holds(rows, t);
      var i :| 0 <= i < |rows| && rows[i].ts == t;
      assert more[i].ts == t;
    }
  }

  lemma Overwritten(rows: seq<Row>, pos: nat, row: Row)
    requires Descending(rows) && pos < |rows| && rows[pos].ts == row.ts
    ensures Descending(rows[pos := row])
    ensures Contents(rows[pos := row]) == Contents(rows)[row.ts := row.fields]
  {
    ContentsHolds(rows);
    OverwriteMatches(rows, pos, row, Contents(rows));
    ContentsAre(rows[pos := row], Contents(rows)[row.ts := row.fields]);
  }

  lemma RemoveMatches(rows: seq<Row>, pos: nat, w: Window)
    requires pos < |rows| && Matches(rows, w)
    requires forall i | 0 <= i < |rows| && i != pos :: rows[i].ts != rows[pos].ts
    ensures Matches(RemoveAt(rows, pos), w - {rows[pos].ts})
  {
    var less := RemoveAt(rows, pos);
    forall t | t in w - {rows[pos].ts} ensures Holds(less, t) {
      var i :| 0 <= i < |rows| && rows[i].ts == t;
      assert less[if i < pos then i else i - 1].ts == t;
    }
  }

  lemma Removed(rows: seq<Row>, pos: nat)
    requires Descending(rows) && pos < |rows|
    ensures Descending(RemoveAt(rows, pos))
    ensures Contents(RemoveAt(rows, pos)) == Contents(rows) - {rows[pos].ts}
  {
    ContentsHolds(rows);
    RemoveMatches(rows, pos, Contents(rows));
    ContentsAre(RemoveAt(rows, pos), Contents(rows) - {rows[pos].ts});
  }

  lemma Ends(rows: seq<Row>)
    requires Descending(rows) && rows != []
    ensures Contents(rows) != map[]
    ensures Newest(Contents(rows)) == rows[0].ts && Oldest(Contents(rows)) == rows[|rows| - 1].ts
  {
    ContentsHolds(rows);
    assert Holds(rows, rows[0].ts);
    var w := Contents(rows);
    assert rows[0].ts in w && rows[|rows| - 1].ts in w;
    assert Holds(rows, Newest(w)) && Holds(rows, Oldest(w));
  }

  lemma DroppedLast(rows: seq<Row>)
    requires Descending(rows) && rows != []
    ensures Descending(rows[..|rows| - 1])
    ensures Contents(rows[..|rows| - 1]) == Contents(rows) - {rows[|rows| - 1].ts}
    ensures Contents(rows) != map[] && Oldest(Contents(rows)) == rows[|rows| - 1].ts
  {
    Ends(rows);
    Removed(rows, |rows| - 1);
    assert RemoveAt(rows, |rows| - 1) == rows[..|rows| - 1];
  }

  lemma DroppedFirst(rows: seq<Row>)
    requires Descending(rows) && rows != []
    ensures Descending(rows[1..])
    ensures Contents(rows[1..]) == Contents(rows) - {rows[0].ts}
    ensures Contents(rows) != map[] && Newest(Contents(rows)) == rows[0].ts
  {
    Ends(rows);
    Removed(rows, 0);
    assert RemoveAt(rows, 0) == rows[1..];
  }

  lemma {:induction false} ContentsCount(rows: seq<Row>)
    requires Descending(rows)
    ensures |Contents(rows).Keys| == |rows|
    decreases |rows|
  {
    if rows == [] {
      assert Contents(rows).Keys == {};
    } else {
      var last := rows[|rows| - 1].ts;
      DroppedLast(rows);
      ContentsCount(rows[..|rows| - 1]);
      ContentsHolds(rows);
      assert Contents(rows).Keys == Contents(rows[..|rows| - 1]).Keys + {last};
    }
  }

  lemma SameLast(a: seq<Row>, b: seq<Row>)
    requires Descending(a) && Descending(b) && Contents(a) == Contents(b) && a != [] && b != []
    ensures a[|a| - 1] == b[|b| - 1]
    ensures Descending(a[..|a| - 1]) && Descending(b[..|b| - 1])
    ensures Contents(a[..|a| - 1]) == Contents(b[..|b| - 1])
  {
    DroppedLast(a);
    DroppedLast(b);
    ContentsHolds(a);
    ContentsHolds(b);
  }

  // A descending list is the only one with its contents.
  lemma {:induction false} ContentsDetermineRows(a: seq<Row>, b: seq<Row>)
    requires Descending(a) && Descending(b) && Contents(a) == Contents(b)
    ensures a == b
    decreases |a|
  {
    assert |a| == |b| by {
      ContentsCount(a);
      ContentsCount(b);
    }
    if a != [] {
      var x, y := a[..|a| - 1], b[..|b| - 1];
      SameLast(a, b);
      ContentsDetermineRows(x, y);
      assert a == x + [a[|a| - 1]];
      assert b == y + [b[|b| - 1]];
    }
  }

  lemma {:induction false} TailDropped(rows: seq<Row>, n: nat)
    requires Descending(rows) && n <= |rows|
    ensures Descending(rows[..|rows| - n])
    ensures Contents(rows[..|rows| - n]) == DropOldest(Contents(rows), n)
    decreases n
  {
    if n == 0 {
      assert rows[..|rows|] == rows;
    } else {
      DroppedLast(rows);
      var less := rows[..|rows| - 1];
      TailDropped(less, n - 1);
      assert less[..|less| - (n - 1)] == rows[..|rows| - n];
    }
  }

  lemma {:induction false} HeadDropped(rows: seq<Row>, n: nat)
    requires Descending(rows) && n <= |rows|
    ensures Descending(rows[n..])
    ensures Contents(rows[n..]) == DropNewest(Contents(rows), n)
    decreases n
  {
    if n == 0 {
      assert rows[0..] == rows;
    } else {
      DroppedFirst(rows);
      HeadDropped(rows[1..], n - 1);
      assert rows[1..][n - 1..] == rows[n..];
    }
  }
}

module ChatModel {
  import opened Wrappers
  import opened ChatRequests
  import opened ChatFeed
  import opened ChatRows

  class ChatModel {
    var ready: bool
    var msgs: seq<Row>          // row 0 is the newest
    var pending: map<nat, Dir>
    var inflight: set<Dir>
    var failed: set<Dir>
    var loadError: string
    var next: nat
    var asked: map<nat, Ask>
    var atTail: bool
    var catchupBusy: bool
    var tailTs: int
    var online: bool

    ghost predicate Valid()
      reads this
    {
      Descending(msgs)
    }

    ghost function Requests(): Books
      reads this
    {
      Books(ready, pending, inflight, failed, loadError, next, asked)
    }

    ghost function State(): Feed
      reads this
    {
      Feed(Requests(), Contents(msgs), atTail, catchupBusy, tailTs, online)
    }

    constructor (ready: bool)
      ensures Valid() && Opening(State()) && this.ready == ready
      ensures atTail && !catchupBusy && tailTs == 0 && !online
    {
      this.ready, msgs, pending, inflight, failed := ready, [], map[], {}, {};
      loadError, next, asked := "", 1, map[];
      atTail, catchupBusy, tailTs, online := true, false, 0, false;
    }

    // ------------------------------------------------------------- the rows

    method IndexOfTs(ts: int) returns (row: int)
      requires Valid()
      ensures -1 <= row < |msgs|
      ensures row >= 0 ==> msgs[row].ts == ts
      ensures row >= 0 <==> ts in Contents(msgs)
    {
      row := 0;
      while row < |msgs|
        invariant 0 <= row <= |msgs|
        invariant forall i | 0 <= i < row :: msgs[i].ts != ts
      {
        if msgs[row].ts == ts {
          ContentsHolds(msgs);
          return;
        }
        row := row + 1;
      }
      row := -1;
      ContentsHolds(msgs);
    }

    method InsertPos(ts: int) returns (pos: nat)
      requires Valid() && ts !in Contents(msgs)
      ensures pos <= |msgs|
      ensures forall i | 0 <= i < pos :: msgs[i].ts > ts
      ensures forall i | pos <= i < |msgs| :: msgs[i].ts < ts
    {
      ContentsHolds(msgs);
      pos := 0;
      while pos < |msgs|
        invariant pos <= |msgs|
        invariant forall i | 0 <= i < pos :: msgs[i].ts > ts
      {
        if msgs[pos].ts < ts { return; }
        assert msgs[pos].ts in Contents(msgs);
        pos := pos + 1;
      }
    }

    method OldestTs() returns (ts: int)
      requires Valid()
      ensures ts == Oldest(Contents(msgs))
    {
      if msgs == [] { return 0; }
      Ends(msgs);
      ts := msgs[|msgs| - 1].ts;
    }

    method NewestTs() returns (ts: int)
      requires Valid()
      ensures ts == Newest(Contents(msgs))
    {
      if msgs == [] { return 0; }
      Ends(msgs);
      ts := msgs[0].ts;
    }

    // A row already shown takes the message's fields; a new one is slotted in.
    method ApplyOne(msg: Row)
      requires Valid()
      modifies `msgs
      ensures Valid() && Contents(msgs) == Merge(old(Contents(msgs)), msg)
    {
      if msg.ts == 0 { return; }
      var existing := IndexOfTs(msg.ts);
      ContentsHolds(msgs);
      if existing >= 0 {
        var merged := Row(msg.ts, msgs[existing].fields + msg.fields);
        Overwritten(msgs, existing, merged);
        msgs := msgs[existing := merged];
      } else {
        var pos := InsertPos(msg.ts);
        Inserted(msgs, pos, msg);
        msgs := InsertAt(msgs, pos, msg);
      }
    }

    method ApplyBatch(messages: seq<Row>)
      requires Valid()
      modifies `msgs
      ensures Valid() && Contents(msgs) == MergeAll(old(Contents(msgs)), messages)
    {
      var k := 0;
      while k < |messages|
        invariant k <= |messages| && Valid()
        invariant Contents(msgs) == MergeAll(old(Contents(msgs)), messages[..k])
      {
        assert messages[..k + 1][..k] == messages[..k];
        ApplyOne(messages[k]);
        k := k + 1;
      }
      assert messages[..k] == messages;
    }

    method ApplyFields(ts: int, fields: Fields)
      requires Valid()
      modifies `msgs
      ensures Valid() && Contents(msgs) == Patch(old(Contents(msgs)), ts, fields)
    {
      var idx := IndexOfTs(ts);
      if idx < 0 { return; }
      ContentsHolds(msgs);
      var merged := Row(ts, msgs[idx].fields + fields);
      Overwritten(msgs, idx, merged);
      msgs := msgs[idx := merged];
    }

    // The one event that moves a row: gone from where it was, merged in where
    // the server put it, onto whatever row is already there.
    method ApplyConfirmed(ts: int, newTs: int, serverStatus: string)
      requires Valid()
      modifies `msgs
      ensures Valid() && Contents(msgs) == Confirm(old(Contents(msgs)), ts, newTs, serverStatus)
    {
      var idx := IndexOfTs(ts);
      if idx < 0 { return; }
      if newTs == 0 || newTs == ts {
        ApplyFields(ts, map["server_status" := serverStatus]);
        return;
      }
      ContentsHolds(msgs);
      var moved := msgs[idx].(ts := newTs, fields := msgs[idx].fields["server_status" := serverStatus]);
      Removed(msgs, idx);
      msgs := RemoveAt(msgs, idx);
      ghost var without := Contents(msgs);
      ApplyBatch([moved]);
      MergeOne(without, moved);
    }

    method ApplyRetracted(ts: int)
      requires Valid()
      modifies `msgs
      ensures Valid() && Contents(msgs) == Entomb(old(Contents(msgs)), ts)
    {
      var idx := IndexOfTs(ts);
      if idx < 0 { return; }
      ContentsHolds(msgs);
      var m := Row(ts, msgs[idx].fields["retracted" := "true"] - {"content"});
      Overwritten(msgs, idx, m);
      msgs := msgs[idx := m];
    }

    method ApplyGotoSlice(messages: seq<Row>)
      requires Valid()
      modifies `msgs, `atTail
      ensures Valid() && !atTail && Contents(msgs) == MergeAll(map[], messages)
    {
      msgs := [];
      atTail := false;
      ApplyBatch(messages);
    }

    // --------------------------------------------------------- the requests

    method ClearDirFailure(dir: Dir)
      modifies `failed, `loadError
      ensures Requests() == ClearFailure(old(Requests()), dir)
    {
      if dir in failed {
        failed := failed - {dir};
        if failed == {} { loadError := ""; }
      }
    }

    // The backend's request(): a fresh token, and the ask on its way.
    method Request(ask: Ask) returns (token: nat)
      modifies `next, `asked
      ensures token == old(next) && next == old(next) + 1 && asked == old(asked)[token := ask]
    {
      token := next;
      next := next + 1;
      asked := asked[token := ask];
    }

    method IssuePage(dir: Dir, cursor: Option<int>)
      modifies `pending, `inflight, `failed, `loadError, `next, `asked
      ensures Requests() == IssueHistory(old(Requests()), dir, cursor)
    {
      if !ready || dir in inflight { return; }
      ClearDirFailure(dir);
      var tok := Request(History(dir, cursor));
      pending := pending[tok := dir];
      inflight := inflight + {dir};
    }

    // An answer that still comes finds its token gone.
    method ForgetTokens(dir: Dir)
      modifies `pending
      ensures pending == Without(old(pending), dir)
    {
      var kept: map<nat, Dir> := map[];
      var left := pending.Keys;
      while left != {}
        invariant left <= pending.Keys && pending == old(pending)
        invariant kept.Keys <= pending.Keys
        invariant forall t | t in pending :: t in kept <==> t !in left && pending[t] != dir
        invariant forall t | t in kept :: kept[t] == pending[t]
        decreases |left|
      {
        var t :| t in left;
        if pending[t] != dir { kept := kept[t := pending[t]]; }
        left := left - {t};
      }
      pending := kept;
    }

    method Cancel(dir: Dir)
      modifies `pending, `inflight, `failed, `loadError
      ensures Requests() == CancelDir(old(Requests()), dir)
    {
      inflight := inflight - {dir};
      ClearDirFailure(dir);
      ForgetTokens(dir);
    }

    method CancelDirs(dirs: seq<Dir>)
      modifies `pending, `inflight, `failed, `loadError
      ensures Requests() == CancelEach(old(Requests()), dirs)
    {
      var i := 0;
      while i < |dirs|
        invariant i <= |dirs|
        invariant CancelEach(Requests(), dirs[i..]) == CancelEach(old(Requests()), dirs)
        invariant ready == old(ready) && next == old(next) && asked == old(asked)
      {
        Cancel(dirs[i]);
        i := i + 1;
      }
    }

    method IssueJump()
      modifies `pending, `inflight, `failed, `loadError, `next, `asked
      ensures Requests() == IssueGoto(old(Requests()))
    {
      if !ready { return; }
      CancelDirs(JUMP_DIRS);
      var tok := Request(Goto);
      pending := pending[tok := Jump];
      inflight := inflight + {Jump};
    }

    // -------------------------------------------------------------- the calls

    method Older()
      requires Valid()
      modifies `pending, `inflight, `failed, `loadError, `next, `asked
      ensures State() == OlderFrom(old(State()))
    {
      var oldest := OldestTs();
      IssuePage(Old, Some(oldest));
    }

    method Newer()
      requires Valid()
      modifies `pending, `inflight, `failed, `loadError, `next, `asked
      ensures State() == NewerFrom(old(State()))
    {
      var newest := NewestTs();
      IssuePage(New, Some(newest));
    }

    method LoadOlder()
      requires Valid()
      modifies `pending, `inflight, `failed, `loadError, `next, `asked
      ensures State() == AskedOlder(old(State()))
    {
      NoRowsNoWindow(msgs);
      if msgs == [] || Old in failed { return; }
      Older();
    }

    method LoadNewer()
      requires Valid()
      modifies `pending, `inflight, `failed, `loadError, `next, `asked
      ensures State() == AskedNewer(old(State()))
    {
      NoRowsNoWindow(msgs);
      if msgs == [] || New in failed { return; }
      Newer();
    }

    method Retry()
      requires Valid()
      modifies `pending, `inflight, `failed, `loadError, `next, `asked
      ensures State() == Retried(old(State()))
    {
      NoRowsNoWindow(msgs);
      var was := failed;
      if Init in was { IssuePage(Init, None); }
      if Old in was && msgs != [] { Older(); }
      if New in was && msgs != [] { Newer(); }
    }

    method GotoTimestamp()
      modifies `pending, `inflight, `failed, `loadError, `next, `asked
      ensures State() == Jumped(old(State()))
    {
      IssueJump();
    }

    method GotoReplyTarget(ts: int)
      requires Valid()
      modifies `pending, `inflight, `failed, `loadError, `next, `asked
      ensures State() == JumpedToReply(old(State()), ts)
    {
      var row := IndexOfTs(ts);
      ContentsHolds(msgs);
      if row < 0 { return; }
      var m := msgs[row].fields;
      if "reply_id" !in m || m["reply_id"] == "" { return; }
      IssueJump();
    }

    method Empty(tail: bool)
      requires Valid()
      modifies `msgs, `atTail, `pending, `inflight, `failed, `loadError
      ensures Valid() && State() == Emptied(old(State()), tail)
    {
      CancelDirs(ALL_DIRS);
      msgs := [];
      NoRowsNoWindow(msgs);
      atTail := tail;
    }

    method LoadOpening()
      requires Valid()
      modifies `pending, `inflight, `failed, `loadError, `next, `asked
      ensures Valid() && State() == LoadInitial(old(State()))
    {
      IssuePage(Init, None);
    }

    method ResetToBottom()
      requires Valid()
      modifies this
      ensures Valid() && State() == LoadInitial(Emptied(old(State()), false))
    {
      Empty(false);
      LoadOpening();
    }

    // The chat, account or backend behind the window changed.
    method Reload(nowReady: bool)
      requires Valid()
      modifies this
      ensures Valid() && State() == Reloaded(old(State()), nowReady)
    {
      Empty(true);
      ready, catchupBusy, tailTs, failed, loadError := nowReady, false, 0, {}, "";
      LoadOpening();
    }

    method DropRows(from: nat, to: nat)
      requires Valid() && from <= to <= |msgs|
      modifies `msgs
      ensures msgs == old(msgs)[from..to]
      ensures from == 0 ==> Valid() && Contents(msgs) == DropOldest(old(Contents(msgs)), |old(msgs)| - to)
      ensures to == |old(msgs)| ==> Valid() && Contents(msgs) == DropNewest(old(Contents(msgs)), from)
    {
      TailDropped(msgs, |msgs| - to);
      HeadDropped(msgs, from);
      assert from == 0 ==> msgs[from..to] == msgs[..|msgs| - (|msgs| - to)];
      assert to == |msgs| ==> msgs[from..to] == msgs[from..];
      msgs := msgs[from..to];
    }

    method CullOld(count: int)
      requires Valid()
      modifies `msgs, `pending, `inflight, `failed, `loadError
      ensures Valid() && State() == CulledOld(old(State()), count)
    {
      ContentsCount(msgs);
      var n := Least(count, |msgs|);
      if n <= 0 { return; }
      DropRows(0, |msgs| - n);
      Cancel(Old);
    }

    method LeaveTail()
      modifies `pending, `inflight, `failed, `loadError, `atTail
      ensures !atTail && Requests() == CancelEach(old(Requests()), [New, Catchup])
    {
      CancelDirs([New, Catchup]);
      atTail := false;
    }

    method CullNew(count: int)
      requires Valid()
      modifies `msgs, `pending, `inflight, `failed, `loadError, `atTail
      ensures Valid() && State() == CulledNew(old(State()), count)
    {
      ContentsCount(msgs);
      var n := Least(count, |msgs|);
      if n <= 0 { return; }
      DropRows(n, |msgs|);
      LeaveTail();
    }

    // ------------------------------------------------------------ the replies

    method Settle(token: nat) returns (dir: Dir)
      requires token in pending
      modifies `pending, `inflight
      ensures dir == old(pending)[token] && Requests() == Settled(old(Requests()), token)
    {
      dir := pending[token];
      pending := pending - {token};
      inflight := inflight - {dir};
    }

    method LandNewer(page: seq<Row>)
      requires Valid()
      modifies `msgs, `atTail
      ensures Valid() && State() == Landed(old(State()), New, Page(page))
    {
      ApplyBatch(page);
      NoRowsNoWindow(msgs);
      var newest := NewestTs();
      if tailTs != 0 && msgs != [] && newest == tailTs { atTail := true; }
    }

    // Merged only if nothing is missing between the page and the tail.
    method LandCatchup(page: seq<Row>)
      requires Valid()
      modifies `msgs
      ensures Valid() && State() == Landed(old(State()), Catchup, Page(page))
    {
      var pageNewest, i := 0, 0;
      while i < |page|
        invariant i <= |page| && pageNewest == PageNewest(page[..i])
      {
        assert page[..i + 1][..i] == page[..i];
        if pageNewest < page[i].ts { pageNewest := page[i].ts; }
        i := i + 1;
      }
      assert page[..i] == page;
      if page == [] || pageNewest == tailTs { ApplyBatch(page); }
    }

    method LandJump(answer: Answer)
      requires Valid()
      modifies `msgs, `atTail, `pending, `inflight, `failed, `loadError, `next, `asked
      ensures Valid() && State() == Landed(old(State()), Jump, answer)
    {
      var at := IndexOfTs(answer.Anchor());
      if answer.Anchor() != 0 && at < 0 { ApplyGotoSlice(answer.SliceRows()); }
      NoRowsNoWindow(msgs);
      if msgs == [] { IssuePage(Init, None); }
    }

    method Land(dir: Dir, answer: Answer)
      requires Valid()
      modifies `msgs, `atTail, `pending, `inflight, `failed, `loadError, `next, `asked
      ensures Valid() && State() == Landed(old(State()), dir, answer)
    {
      match dir {
        case Init =>
          ApplyBatch(answer.Rows());
          atTail := true;
        case Old => ApplyBatch(answer.Rows());
        case New => LandNewer(answer.Rows());
        case Catchup => LandCatchup(answer.Rows());
        case Jump => LandJump(answer);
      }
    }

    method HandleResult(token: nat, answer: Answer)
      requires Valid()
      modifies `msgs, `atTail, `pending, `inflight, `failed, `loadError, `next, `asked
      ensures Valid() && State() == Resulted(old(State()), token, answer)
    {
      if token !in pending { return; }
      var dir := Settle(token);
      ClearDirFailure(dir);
      Land(dir, answer);
    }

    method Refuse(token: nat, message: string) returns (dir: Dir)
      requires token in pending
      modifies `pending, `inflight, `failed, `loadError
      ensures dir == old(pending)[token] && Requests() == Refused(old(Requests()), token, message)
    {
      dir := Settle(token);
      if dir == Jump || dir == Catchup { return; }
      failed := failed + {dir};
      if dir == Init || dir == Old { loadError := message; }
    }

    method HandleError(token: nat, message: string)
      requires Valid()
      modifies `pending, `inflight, `failed, `loadError, `next, `asked
      ensures Valid() && State() == Errored(old(State()), token, message)
    {
      if token !in pending { return; }
      var dir := Refuse(token, message);
      NoRowsNoWindow(msgs);
      if dir == Jump && msgs == [] { LoadOpening(); }
    }

    // ------------------------------------------------------------- the events

    method ReconcileCatchup()
      requires Valid()
      modifies `pending, `inflight, `failed, `loadError, `next, `asked
      ensures State() == Reconciled(old(State()))
    {
      NoRowsNoWindow(msgs);
      if !atTail || New in inflight || Catchup in inflight { return; }
      if msgs == [] {
        IssuePage(Init, None);
        return;
      }
      var newest := NewestTs();
      if tailTs != 0 && newest == tailTs { return; }
      IssuePage(Catchup, Some(newest));
    }

    method Arrive(row: Row)
      requires Valid()
      modifies `msgs
      ensures Valid() && State() == GotNew(old(State()), row)
    {
      if !atTail || catchupBusy { return; }
      ApplyBatch([row]);
      MergeOne(old(Contents(msgs)), row);
    }

    method Edit(row: Row)
      requires Valid()
      modifies `msgs
      ensures Valid() && State() == GotEdit(old(State()), row)
    {
      var at := IndexOfTs(row.ts);
      if at < 0 { return; }
      ApplyBatch([row]);
      MergeOne(old(Contents(msgs)), row);
    }

    method TailMoved(ts: int)
      requires Valid()
      modifies `tailTs, `atTail
      ensures Valid() && State() == GotTail(old(State()), ts)
    {
      NoRowsNoWindow(msgs);
      tailTs := ts;
      var newest := NewestTs();
      if !atTail && msgs != [] && newest == tailTs { atTail := true; }
    }

    method CatchupOver()
      requires Valid()
      modifies `catchupBusy, `pending, `inflight, `failed, `loadError, `next, `asked
      ensures Valid() && State() == Reconciled(old(State()).(catchupBusy := false))
    {
      catchupBusy := false;
      ReconcileCatchup();
    }

    method ConnChanged(up: bool)
      requires Valid()
      modifies `online, `pending, `inflight, `failed, `loadError, `next, `asked
      ensures Valid()
      ensures State() == if up then Retried(old(State()).(online := true)) else old(State()).(online := false)
    {
      online := up;
      if up { Retry(); }
    }

    method HandleRowEvent(e: Event)
      requires Valid()
      requires e.Arrived? || e.Edited? || e.Status? || e.Confirmed? || e.Retracted?
      modifies `msgs
      ensures Valid() && State() == Step(old(State()), e)
    {
      match e {
        case Arrived(row) => Arrive(row);
        case Edited(row) => Edit(row);
        case Status(ts, fields) => ApplyFields(ts, fields);
        case Confirmed(ts, newTs, status) => ApplyConfirmed(ts, newTs, status);
        case Retracted(ts) => ApplyRetracted(ts);
      }
    }

    // Events already matched to this account and chat.
    method HandleEvent(e: Event)
      requires Valid()
      requires e.Arrived? || e.Edited? || e.Status? || e.Confirmed? || e.Retracted? || e.Tail?
            || e.CatchupStarted? || e.CatchupDone? || e.ConnState?
      modifies this
      ensures Valid() && State() == Step(old(State()), e)
    {
      if e.Tail? {
        TailMoved(e.ts);
      } else if e.CatchupStarted? {
        catchupBusy := true;
      } else if e.CatchupDone? {
        CatchupOver();
      } else if e.ConnState? {
        ConnChanged(e.up);
      } else {
        HandleRowEvent(e);
      }
    }
  }

  lemma NoRowsNoWindow(rows: seq<Row>)
    requires Descending(rows)
    ensures Contents(rows) == map[] <==> rows == []
  {
    if rows != [] {
      Ends(rows);
    } else {
      assert Contents(rows) == map[];
    }
  }

  lemma MergeOne(w: Window, row: Row)
    ensures MergeAll(w, [row]) == Merge(w, row)
  {
    assert [row][..0] == [];
    assert MergeAll(w, []) == w;
  }
}
