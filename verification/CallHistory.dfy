// What a row comes to, told from what happened to its call rather than from how
// each move is taken in.

module CallHistory {
  import opened CallTable

  // --------------------------------------------------------- what names a call

  predicate Breaks(m: Move, account: string, sid: string) { m == Hear(Broke(account, sid)) }

  predicate Finishes(m: Move, account: string, sid: string) {
    m == Hear(Over(account, sid)) || m == Hangup(account, sid) || Breaks(m, account, sid)
  }

  predicate Answers(m: Move, account: string, sid: string) { m == Hear(Event.Answered(account, sid)) }

  predicate Takes(m: Move, account: string, sid: string) { m == Accept(account, sid) }

  predicate Rings(m: Move, account: string, sid: string) { m == Hear(PeerRings(account, sid)) }

  ghost predicate Finished(moves: seq<Move>, account: string, sid: string) {
    exists k :: 0 <= k < |moves| && Finishes(moves[k], account, sid)
  }

  ghost predicate WasAnswered(moves: seq<Move>, account: string, sid: string) {
    exists k :: 0 <= k < |moves| && Answers(moves[k], account, sid)
  }

  ghost predicate WasTaken(moves: seq<Move>, account: string, sid: string) {
    exists k :: 0 <= k < |moves| && Takes(moves[k], account, sid)
  }

  ghost predicate Rang(moves: seq<Move>, account: string, sid: string) {
    exists k :: 0 <= k < |moves| && Rings(moves[k], account, sid)
  }

  // The last of the ends it came to.
  ghost predicate EndedLast(moves: seq<Move>, account: string, sid: string, s: State) {
    exists k ::
      && 0 <= k < |moves| && Finishes(moves[k], account, sid)
      && (forall i | k < i < |moves| :: !Finishes(moves[i], account, sid))
      && s == if Breaks(moves[k], account, sid) then Failed else Ended
  }

  // A call that was waiting to be picked up, and what has become of it: the last
  // end it came to if it came to one; or else it is up if it was answered, being
  // set up if we took it, and ringing over there if somebody's device said so.
  ghost predicate Became(c: Call, moves: seq<Move>, d: Call) {
    && d == c.(state := d.state)
    && if Finished(moves, c.account, c.sid) then EndedLast(moves, c.account, c.sid, d.state)
       else if WasAnswered(moves, c.account, c.sid) then d.state == Active
       else if c.state == Incoming && WasTaken(moves, c.account, c.sid) then d.state == Connecting
       else if c.state == Calling && Rang(moves, c.account, c.sid) then d.state == Ringing
       else d.state == c.state
  }

  lemma {:induction false} RunSnoc(t: Table, moves: seq<Move>, m: Move)
    ensures Run(t, moves + [m]) == Step(Run(t, moves), m)
    decreases |moves|
  {
    if moves == [] {
      assert (moves + [m])[1..] == [];
    } else {
      assert (moves + [m])[1..] == moves[1..] + [m];
      RunSnoc(Step(t, moves[0]), moves[1..], m);
    }
  }

  // Neither a list's rows nor a dismissal.
  predicate Plain(m: Move) { !m.Result? && !m.Dismiss? }

  // What one such move does to one row's state.
  function Moves(c: Call, m: Move): State {
    if Finishes(m, c.account, c.sid) then (if Breaks(m, c.account, c.sid) then Failed else Ended)
    else if Terminal(c.state) then c.state
    else if Answers(m, c.account, c.sid) then Active
    else if Takes(m, c.account, c.sid) && c.state == Incoming then Connecting
    else if Rings(m, c.account, c.sid) && c.state == Calling then Ringing
    else c.state
  }

  lemma StateSetRow(t: Table, account: string, sid: string, s: State, i: nat)
    requires Sound(t) && i < |t.calls|
    ensures |StateSet(t, account, sid, s).calls| == |t.calls|
    ensures StateSet(t, account, sid, s).calls[i] ==
              if Names(t.calls[i], account, sid) then Moved(t.calls[i], s) else t.calls[i]
  {
    UniqueIndex(t.calls, i);
  }

  lemma HearMovesRow(t: Table, e: Event, i: nat)
    requires Sound(t) && i < |t.calls|
    ensures i < |Heard(t, e).calls|
    ensures Heard(t, e).calls[i] == t.calls[i].(state := Moves(t.calls[i], Hear(e)))
  {
    match e {
      case PeerRings(account, sid) =>
        StateSetRow(t, account, sid, Ringing, i);
        UniqueIndex(t.calls, i);
      case Answered(account, sid) => StateSetRow(t, account, sid, Active, i);
      case Over(account, sid) => StateSetRow(t, account, sid, Ended, i);
      case Broke(account, sid) => StateSetRow(t, account, sid, Failed, i);
      case _ =>
    }
  }

  lemma MovesRow(t: Table, m: Move, i: nat)
    requires Sound(t) && i < |t.calls| && Plain(m)
    ensures i < |Step(t, m).calls| && Step(t, m).calls[i] == t.calls[i].(state := Moves(t.calls[i], m))
  {
    UniqueIndex(t.calls, i);
    if m.Hear? { HearMovesRow(t, m.event, i); }
  }

  lemma HappenedMore(moves: seq<Move>, m: Move, account: string, sid: string)
    ensures Finished(moves + [m], account, sid) <==> Finished(moves, account, sid) || Finishes(m, account, sid)
    ensures WasAnswered(moves + [m], account, sid) <==> WasAnswered(moves, account, sid) || Answers(m, account, sid)
    ensures WasTaken(moves + [m], account, sid) <==> WasTaken(moves, account, sid) || Takes(m, account, sid)
    ensures Rang(moves + [m], account, sid) <==> Rang(moves, account, sid) || Rings(m, account, sid)
  {
    var more := moves + [m];
    assert more[|moves|] == m && forall k | 0 <= k < |moves| :: more[k] == moves[k];
  }

  lemma EndedMore(moves: seq<Move>, m: Move, account: string, sid: string, s: State)
    ensures Finishes(m, account, sid) && s == (if Breaks(m, account, sid) then Failed else Ended) ==>
              EndedLast(moves + [m], account, sid, s)
    ensures !Finishes(m, account, sid) && EndedLast(moves, account, sid, s) ==>
              EndedLast(moves + [m], account, sid, s)
  {
    var more := moves + [m];
    assert more[|moves|] == m && forall k | 0 <= k < |moves| :: more[k] == moves[k];
    if !Finishes(m, account, sid) && EndedLast(moves, account, sid, s) {
      var k :| && 0 <= k < |moves| && Finishes(moves[k], account, sid)
               && (forall i | k < i < |moves| :: !Finishes(moves[i], account, sid))
               && s == if Breaks(moves[k], account, sid) then Failed else Ended;
      assert Finishes(more[k], account, sid);
    }
  }

  lemma BecameMore(c: Call, moves: seq<Move>, m: Move, d: Call, e: Call)
    requires Became(c, moves, d) && (c.state == Incoming || c.state == Calling)
    requires e == d.(state := Moves(d, m))
    ensures Became(c, moves + [m], e)
  {
    HappenedMore(moves, m, c.account, c.sid);
    EndedMore(moves, m, c.account, c.sid, e.state);
  }

  // However events and clicks about this call and any others are mixed, its row
  // says what has become of it, and stands where it stood.
  lemma {:induction false} WhatBecameOfIt(t: Table, moves: seq<Move>, i: nat)
    requires Sound(t) && i < |t.calls| && (t.calls[i].state == Incoming || t.calls[i].state == Calling)
    requires forall m | m in moves :: Plain(m)
    ensures i < |Run(t, moves).calls| && Became(t.calls[i], moves, Run(t, moves).calls[i])
    decreases |moves|
  {
    if moves != [] {
      var init, m := moves[..|moves| - 1], moves[|moves| - 1];
      assert moves == init + [m];
      WhatBecameOfIt(t, init, i);
      RunSnoc(t, init, m);
      RunSound(t, init);
      MovesRow(Run(t, init), m, i);
      BecameMore(t.calls[i], init, m, Run(t, init).calls[i], Run(t, moves).calls[i]);
    }
  }

  // A call not seen before gets a row below the others, on its side, waiting to
  // be picked up; one with no name, or tracked already, gets none.
  lemma ACallComesUp(t: Table, account: string, sid: string, peer: string, ours: bool)
    requires Sound(t)
    ensures var m := Hear(if ours then CallOut(account, sid, peer) else CallIn(account, sid, peer));
            var u := Step(t, m);
            if sid == "" || (exists c :: c in t.calls && c.account == account && c.sid == sid) then u == t
            else
              && u.calls[..|u.calls| - 1] == t.calls && u.calls != []
              && var c := u.calls[|u.calls| - 1];
                 && c.account == account && c.sid == sid && c.peer == peer && c.order > t.order
                 && c.direction == (if ours then Outbound else Inbound)
                 && c.state == (if ours then Calling else Incoming)
  {
    var i := IndexOf(t.calls, account, sid);
    if i >= 0 { assert t.calls[i] in t.calls; }
  }

  // ------------------------------------------------ a list, from asking to answer

  lemma StepKeepsList(t: Table, m: Move, token: nat)
    requires Sound(t) && token < t.next && token in Step(t, m).lists
    ensures token in t.lists && Step(t, m).lists[token] == t.lists[token]
  {
    if m.Result? && m.token in t.lists {
      TakenAllSound(t.(lists := t.lists - {m.token}), t.lists[m.token].account, m.rows);
    }
  }

  lemma {:induction false} RunKeepsList(t: Table, moves: seq<Move>, token: nat)
    requires Sound(t) && token < t.next && token in Run(t, moves).lists
    ensures token in t.lists && Run(t, moves).lists[token] == t.lists[token]
    decreases |moves|
  {
    if moves != [] {
      StepSound(t, moves[0]);
      NextGrows(t, moves[0]);
      RunKeepsList(Step(t, moves[0]), moves[1..], token);
      StepKeepsList(t, moves[0], token);
    }
  }

  // A list is asked for, any amount happens, and its answer comes. A call of the
  // account that was there when it was asked for, and that it does not name, is
  // over; one that came since is as it was.
  lemma AnAnswerSpeaksOfItsTime(t: Table, account: string, moves: seq<Move>, rows: seq<Listing>, i: nat)
    requires Sound(t) && t.backend && account != ""
    requires var w := Run(Step(t, Refresh(account)), moves);
             t.next in w.lists && i < |w.calls| && w.calls[i].account == account
             && w.calls[i].sid !in Named(rows)
    ensures var w := Run(Step(t, Refresh(account)), moves);
            var u := Step(w, Result(t.next, rows));
            && i < |u.calls| && (w.calls[i].order <= t.order ==> Terminal(u.calls[i].state))
            && (w.calls[i].order > t.order ==> u.calls[i] == w.calls[i])
  {
    var s := Step(t, Refresh(account));
    StepSound(t, Refresh(account));
    RunSound(s, moves);
    RunKeepsList(s, moves, t.next);
    var w := Run(s, moves);
    assert w.lists[t.next] == Pending(account, t.order);
    SnapshotMeansThis(w.(lists := w.lists - {t.next}), account, rows, t.order);
  }

  // The answer once in, nothing of it is waited for, and what was crossed off in
  // this account is forgotten, there and nowhere else.
  lemma AnAnswerIsTakenOnce(t: Table, token: nat, rows: seq<Listing>, other: string, sid: string)
    requires Sound(t) && token in t.lists && OneLine(other) && OneLine(t.lists[token].account)
    ensures var u := Step(t, Result(token, rows));
            && token !in u.lists && (forall k | k in t.lists && k != token :: k in u.lists && u.lists[k] == t.lists[k])
            && (Key(other, sid) in u.dismissed <==> Key(other, sid) in t.dismissed && other != t.lists[token].account)
  {
    var account := t.lists[token].account;
    TakenAllSound(t.(lists := t.lists - {token}), account, rows);
    KeysApart(other, account, sid);
    assert account + "\n" <= Key(account, sid);
  }

  // A refresh leaves one list out for the account, the one it asks for.
  lemma ARefreshAsksAnew(t: Table, account: string)
    requires Sound(t) && t.backend && account != ""
    ensures var u := Step(t, Refresh(account));
            && u.calls == t.calls && t.next in u.lists && u.lists[t.next].account == account
            && (forall k | k in u.lists && u.lists[k].account == account :: k == t.next)
            && (forall k | k in t.lists && t.lists[k].account != account :: k in u.lists && u.lists[k] == t.lists[k])
            && Step(t, Hear(Connected(account))) == u
  {}

  // A dismissal takes the call's row and no other.
  lemma ADismissalTakesOneRow(t: Table, account: string, sid: string, c: Call)
    requires Sound(t)
    ensures var u := Step(t, Dismiss(account, sid));
            && (c in u.calls <==> c in t.calls && !(c.account == account && c.sid == sid))
            && ((exists d :: d in t.calls && d.account == account && d.sid == sid) ==>
                  Key(account, sid) in u.dismissed)
  {
    var i := IndexOf(t.calls, account, sid);
    var u := Step(t, Dismiss(account, sid));
    if i >= 0 {
      forall j | 0 <= j < |u.calls| ensures u.calls[j] == t.calls[if j < i then j else j + 1] {}
      if c in t.calls && !Names(c, account, sid) {
        var k :| 0 <= k < |t.calls| && t.calls[k] == c;
        assert u.calls[if k < i then k else k - 1] == c;
      }
    }
  }

  // A list that was refused is no longer waited for, and changes no row.
  lemma ARefusedListIsForgotten(t: Table, token: nat, rows: seq<Listing>)
    ensures var u := Step(t, Error(token));
            && token !in u.lists && u.calls == t.calls && u.dismissed == t.dismissed
            && (forall k | k in t.lists && k != token :: k in u.lists && u.lists[k] == t.lists[k])
            && Step(u, Result(token, rows)) == u
  {}

  // ------------------------------------------------------------ group calls

  lemma {:induction false} TakenJoins(t: Table, account: string, a: seq<Listing>, b: seq<Listing>)
    ensures TakenAll(t, account, a + b) == TakenAll(TakenAll(t, account, a), account, b)
    decreases |b|
  {
    if b == [] {
      assert a + b == a;
    } else {
      assert (a + b)[..|a + b| - 1] == a + b[..|b| - 1];
      TakenJoins(t, account, a, b[..|b| - 1]);
    }
  }

  lemma NamedWithout(a: seq<Listing>, r: Listing, b: seq<Listing>)
    requires r.group != "" || r.sid == ""
    ensures Named(a + [r] + b) == Named(a + b)
  {
    assert forall x :: x in a + [r] + b <==> x in a + b || x == r;
  }

  // What belongs to a group call, or names nothing, might as well not be in the
  // list, wherever it stands.
  lemma OnlyOurOwnCallsCount(t: Table, account: string, a: seq<Listing>, r: Listing, b: seq<Listing>, asOf: nat)
    requires r.group != "" || r.sid == ""
    ensures Snapshot(t, account, a + [r] + b, asOf) == Snapshot(t, account, a + b, asOf)
  {
    TakenJoins(t, account, a + [r], b);
    TakenJoins(t, account, a, b);
    assert (a + [r])[..|a|] == a;
    NamedWithout(a, r, b);
  }
}
