// The call table as the program holds it, each method against its step in
// Calls.dfy.

module CallsModel {
  import opened CallTable

  class CallsModel {
    var backend: bool
    var calls: seq<Call>
    var listTokens: map<nat, Pending>
    var dismissed: set<string>
    var order: nat
    var next: nat

    ghost function Rows(): Table
      reads this
    {
      Table(backend, calls, listTokens, dismissed, order, next)
    }

    ghost predicate Valid()
      reads this
    {
      Sound(Rows())
    }

    constructor (backend: bool)
      ensures Valid() && Rows() == Table(backend, [], map[], {}, 0, 1)
    {
      this.backend, calls, listTokens, dismissed, order, next := backend, [], map[], {}, 0, 1;
    }

    method Find(account: string, sid: string) returns (i: int)
      ensures i == IndexOf(calls, account, sid)
    {
      i := 0;
      while i < |calls|
        invariant 0 <= i <= |calls|
        invariant forall j | 0 <= j < i :: !Names(calls[j], account, sid)
      {
        if calls[i].sid == sid && calls[i].account == account {
          FirstIs(calls, account, sid, i);
          return;
        }
        i := i + 1;
      }
      i := -1;
    }

    method InsertCall(call: Call)
      modifies `calls, `order
      ensures Rows() == Inserted(old(Rows()), call)
    {
      var i := Find(call.account, call.sid);
      if call.sid == "" || i >= 0 { return; }
      order := order + 1;
      calls := calls + [call.(order := order)];
    }

    method SetState(account: string, sid: string, state: State)
      modifies `calls
      ensures Rows() == StateSet(old(Rows()), account, sid, state)
    {
      var i := Find(account, sid);
      if i < 0 { return; }
      if calls[i].state == state {
        SameRow(calls, i, state);
        return;
      }
      if Terminal(calls[i].state) && !Terminal(state) {
        SameRow(calls, i, calls[i].state);
        return;
      }
      calls := calls[i := calls[i].(state := state)];
    }

    // Whatever list the account had coming is given up for this one.
    method RefreshFor(account: string)
      modifies `listTokens, `next
      ensures Rows() == Refreshed(old(Rows()), account)
    {
      if !backend || account == "" { return; }
      listTokens := map k | k in listTokens && listTokens[k].account != account :: listTokens[k];
      var token := next;
      next := next + 1;
      listTokens := listTokens[token := Pending(account, order)];
    }

    method HandleEvent(event: Event)
      modifies this
      ensures Rows() == Heard(old(Rows()), event)
    {
      match event {
        case Connected(account) => RefreshFor(account);
        case CallOut(account, sid, peer) =>
          InsertCall(Call(sid, account, peer, Outbound, Calling, 0));
        case CallIn(account, sid, peer) =>
          InsertCall(Call(sid, account, peer, Inbound, Incoming, 0));
        case PeerRings(account, sid) =>
          var i := Find(account, sid);
          if sid != "" && i >= 0 && calls[i].state == Calling { SetState(account, sid, Ringing); }
        case Answered(account, sid) => if sid != "" { SetState(account, sid, Active); }
        case Over(account, sid) => if sid != "" { SetState(account, sid, Ended); }
        case Broke(account, sid) => if sid != "" { SetState(account, sid, Failed); }
      }
    }

    method TakeListing(account: string, r: Listing)
      modifies `calls, `order
      ensures Rows() == Taken(old(Rows()), account, r)
    {
      if r.sid == "" || r.group != "" { return; }
      if Key(account, r.sid) in dismissed { return; }
      var state := Reading(r.word, r.direction, r.peerRinging);
      var i := Find(account, r.sid);
      if i < 0 {
        InsertCall(Call(r.sid, account, r.peer, r.direction, state, 0));
        return;
      }
      var c := calls[i];
      if c.direction != r.direction || Terminal(c.state) || Progress(state) <= Progress(c.state) {
        SameRow(calls, i, c.state);
        return;
      }
      SetState(account, r.sid, state);
    }

    method TakeListings(account: string, rows: seq<Listing>) returns (seen: set<string>)
      modifies `calls, `order
      ensures Rows() == TakenAll(old(Rows()), account, rows) && seen == Named(rows)
    {
      seen := {};
      var k := 0;
      assert rows[..0] == [];
      while k < |rows|
        invariant k <= |rows| && seen == Named(rows[..k])
        invariant Rows() == TakenAll(old(Rows()), account, rows[..k])
      {
        assert rows[..k + 1][..k] == rows[..k] && rows[..k] + [rows[k]] == rows[..k + 1];
        NamedMore(rows[..k], rows[k]);
        if rows[k].sid != "" && rows[k].group == "" { seen := seen + {rows[k].sid}; }
        TakeListing(account, rows[k]);
        k := k + 1;
      }
      assert rows[..k] == rows;
    }

    // Collected before any is ended: ending one can reach code that removes rows.
    method EndLost(account: string, seen: set<string>, asOf: nat)
      requires Keyed(calls)
      modifies `calls
      ensures calls == Swept(old(calls), account, seen, asOf)
    {
      ghost var was := calls;
      var gone: seq<string> := [];
      var k := 0;
      while k < |calls|
        invariant calls == was && k <= |calls|
        invariant forall sid :: sid in gone <==> LostSid(was[..k], account, sid, seen, asOf)
      {
        var c := calls[k];
        LostSidMore(was[..k], c, account, seen, asOf);
        assert was[..k + 1] == was[..k] + [c];
        if c.account == account && c.order <= asOf && c.sid !in seen && !Terminal(c.state) { gone := gone + [c.sid]; }
        k := k + 1;
      }
      assert was[..k] == was;
      var g := 0;
      while g < |gone|
        invariant g <= |gone| && |calls| == |was|
        invariant forall i | 0 <= i < |calls| ::
                    calls[i] == if Lost(was[i], account, seen, asOf) && was[i].sid in gone[..g]
                                then was[i].(state := Ended) else was[i]
      {
        assert gone[g] in gone;
        ghost var i :| 0 <= i < |was| && was[i].sid == gone[g] && Lost(was[i], account, seen, asOf);
        EndsOne(was, calls, i);
        SetState(account, gone[g], Ended);
        assert forall sid :: sid in gone[..g + 1] <==> sid in gone[..g] || sid == gone[g];
        g := g + 1;
      }
      assert gone[..g] == gone;
      assert calls == Swept(was, account, seen, asOf);
    }

    method ApplySnapshot(account: string, rows: seq<Listing>, asOf: nat)
      requires Valid()
      modifies this
      ensures Rows() == Snapshot(old(Rows()), account, rows, asOf)
    {
      TakenAllSound(Rows(), account, rows);
      var seen := TakeListings(account, rows);
      EndLost(account, seen, asOf);
      dismissed := set d | d in dismissed && !(account + "\n" <= d);
    }

    method HandleResult(token: nat, rows: seq<Listing>)
      requires Valid()
      modifies this
      ensures Valid() && Rows() == Resulted(old(Rows()), token, rows)
    {
      StepSound(Rows(), Result(token, rows));
      if token !in listTokens { return; }
      var p := listTokens[token];
      listTokens := listTokens - {token};
      ApplySnapshot(p.account, rows, p.order);
    }

    method HandleError(token: nat)
      modifies `listTokens
      ensures Rows() == Step(old(Rows()), Error(token))
    {
      listTokens := listTokens - {token};
    }

    // By the time the user has answered, the call may have ended.
    method Accept(account: string, sid: string)
      modifies `calls
      ensures Rows() == Accepted(old(Rows()), account, sid)
    {
      var i := Find(account, sid);
      if i < 0 || calls[i].state != Incoming { return; }
      SetState(account, sid, Connecting);
    }

    // Also rejecting: the row is over even if the backend has forgotten it.
    method Hangup(account: string, sid: string)
      modifies `calls
      ensures Rows() == StateSet(old(Rows()), account, sid, Ended)
    {
      SetState(account, sid, Ended);
    }

    method Dismiss(account: string, sid: string)
      modifies `calls, `dismissed
      ensures Rows() == Dismissed(old(Rows()), account, sid)
    {
      var i := Find(account, sid);
      if i < 0 { return; }
      dismissed := dismissed + {Key(account, sid)};
      calls := calls[..i] + calls[i + 1..];
    }
  }

  lemma FirstIs(calls: seq<Call>, account: string, sid: string, i: int)
    requires 0 <= i < |calls| && Names(calls[i], account, sid)
    requires forall j | 0 <= j < i :: !Names(calls[j], account, sid)
    ensures IndexOf(calls, account, sid) == i
  {}

  lemma SameRow(calls: seq<Call>, i: int, state: State)
    requires 0 <= i < |calls| && calls[i].state == state
    ensures calls[i := calls[i].(state := state)] == calls
  {}

  ghost predicate LostSid(calls: seq<Call>, account: string, sid: string, seen: set<string>, asOf: nat) {
    exists j :: 0 <= j < |calls| && calls[j].sid == sid && Lost(calls[j], account, seen, asOf)
  }

  lemma LostSidMore(calls: seq<Call>, c: Call, account: string, seen: set<string>, asOf: nat)
    ensures forall sid :: LostSid(calls + [c], account, sid, seen, asOf)
              <==> LostSid(calls, account, sid, seen, asOf) || (c.sid == sid && Lost(c, account, seen, asOf))
  {
    var more := calls + [c];
    forall sid | LostSid(calls, account, sid, seen, asOf) ensures LostSid(more, account, sid, seen, asOf) {
      var j :| 0 <= j < |calls| && calls[j].sid == sid && Lost(calls[j], account, seen, asOf);
      assert more[j] == calls[j];
    }
    assert more[|calls|] == c;
  }

  lemma EndsOne(was: seq<Call>, calls: seq<Call>, i: int)
    requires Keyed(was) && |calls| == |was| && 0 <= i < |was|
    requires forall j | 0 <= j < |was| :: calls[j] == was[j].(state := calls[j].state)
    ensures IndexOf(calls, was[i].account, was[i].sid) == i
  {}
}
