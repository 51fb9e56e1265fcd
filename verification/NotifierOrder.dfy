// As long as no popup goes away of itself, answers and signals may cross in any
// way the bus lets them: every order is one NotifierDaemon.InOrder allows.

module NotifierOrder {
  import opened Alerts
  import opened NotifierDaemon

  // ------------------------------------------------- what a command can bring in

  // The ids in the tables, and in the calls put out since, were there before.
  ghost predicate Tame(n: Notifier, m: Notifier) {
    && n.sent <= m.sent
    && (forall k | k in m.entries && m.entries[k].id != 0 :: LiveId(n, m.entries[k].id))
    && (forall c: nat | |n.sent| <= c < |m.sent| && m.sent[c].Notify? && m.sent[c].over != 0 ::
          LiveId(n, m.sent[c].over))
  }

  ghost predicate LiveId(n: Notifier, id: nat) { exists k :: k in n.entries && n.entries[k].id == id }

  lemma TameTwice(n: Notifier, m: Notifier, o: Notifier)
    requires Tame(n, m) && Tame(m, o)
    ensures Tame(n, o)
  {
    forall id: nat | id != 0 && LiveId(m, id) ensures LiveId(n, id) {}
    forall c: nat | |n.sent| <= c < |o.sent| && o.sent[c].Notify? && o.sent[c].over != 0
      ensures LiveId(n, o.sent[c].over)
    {
      if c < |m.sent| { assert o.sent[c] == m.sent[c]; }
    }
  }

  lemma ShowingTame(n: Notifier, key: string, alert: Alert)
    ensures Tame(n, Showing(n, key, alert))
  {
    assert key in n.entries ==> LiveId(n, n.entries[key].id);
    assert forall k | k in n.entries :: LiveId(n, n.entries[k].id);
  }

  lemma RetractingTame(n: Notifier, key: string)
    ensures Tame(n, Retracting(n, key))
  {
    assert forall k | k in n.entries :: LiveId(n, n.entries[k].id);
  }

  lemma {:induction false} RetractingEachTame(n: Notifier, keys: seq<string>)
    ensures Tame(n, RetractingEach(n, keys))
    decreases |keys|
  {
    if keys == [] {
      assert forall k | k in n.entries :: LiveId(n, n.entries[k].id);
    } else {
      RetractingTame(n, keys[0]);
      RetractingEachTame(Retracting(n, keys[0]), keys[1..]);
      TameTwice(n, Retracting(n, keys[0]), RetractingEach(n, keys));
    }
  }

  lemma {:induction false} ShowingEachTame(n: Notifier, keys: seq<string>, alerts: map<string, Alert>)
    requires forall k | k in keys :: k in alerts
    ensures Tame(n, ShowingEach(n, keys, alerts))
    decreases |keys|
  {
    if keys == [] {
      assert forall k | k in n.entries :: LiveId(n, n.entries[k].id);
    } else {
      var m := Showing(n, keys[0], alerts[keys[0]]);
      ShowingTame(n, keys[0], alerts[keys[0]]);
      ShowingEachTame(m, keys[1..], alerts);
      TameTwice(n, m, ShowingEach(n, keys, alerts));
    }
  }

  lemma SettlingTame(n: Notifier, key: string)
    requires key in n.entries
    ensures Tame(n, Settling(n, key))
  {
    assert forall k | k in n.entries :: LiveId(n, n.entries[k].id);
    var e := n.entries[key];
    if e.retractQueued {
      var m := n.(entries := n.entries[key := e.(retractQueued := false)]);
      assert forall id: nat :: LiveId(m, id) ==> LiveId(n, id);
      RetractingTame(m, key);
      TameTwice(n, m, Retracting(m, key));
    }
  }

  lemma ClosedTame(n: Notifier, id: nat)
    ensures Tame(n, Closed(n, id))
  {
    assert forall k | k in n.entries :: LiveId(n, n.entries[k].id);
  }

  lemma CommandTame(s: System, m: Move)
    requires Able(s, m) && (m.Show? || m.Retract? || m.RetractAll? || m.Resolve? || m.Hear?)
    ensures Tame(s.n, After(s, m).n)
  {
    match m {
      case Show(key, alert) => ShowingTame(s.n, key, alert);
      case Retract(key) => RetractingTame(s.n, key);
      case RetractAll(order) =>
        RetractingEachTame(s.n.(held := map[]), order);
        assert forall id: nat :: LiveId(s.n.(held := map[]), id) ==> LiveId(s.n, id);
      case Resolve(ok, order) =>
        var n := s.n.(resolved := true, available := ok || s.n.available, held := map[]);
        assert forall id: nat :: LiveId(n, id) ==> LiveId(s.n, id);
        if ok { ShowingEachTame(n, order, s.n.held); }
        assert forall k | k in s.n.entries :: LiveId(s.n, s.n.entries[k].id);
      case Hear => ClosedTame(s.n, s.signals[s.heard]);
    }
  }

  // -------------------------------------------------------------- the invariant

  // One of our ids with word of its closing still out.
  ghost predicate Spent(s: System, id: nat) { id in s.owner && exists p: nat :: Unheard(s, p, id) }

  // Such an id is done with: nothing is up under it, and nothing names it that
  // could bring it back.
  ghost predicate DoneWith(s: System, id: nat) {
    && id !in s.popups && !LiveId(s.n, id)
    && (forall c: nat | c < |s.n.sent| && s.n.sent[c].Notify? && (s.taken <= c || c in s.answers) ::
          s.n.sent[c].over != id)
    && (forall c: nat | c in s.answers :: s.answers[c].id != id)
  }

  ghost predicate NothingLingers(s: System) { forall id: nat | Spent(s, id) :: DoneWith(s, id) }

  lemma TameLingers(s: System, t: System)
    requires Shape(s) && NothingLingers(s) && Tame(s.n, t.n)
    requires t == s.(n := t.n, wanted := t.wanted, heard := t.heard) && s.heard <= t.heard
    ensures NothingLingers(t)
  {
    forall id: nat | Spent(t, id) ensures DoneWith(t, id) {
      var p: nat :| Unheard(t, p, id);
      assert Unheard(s, p, id) && Spent(s, id) && DoneWith(s, id);
      forall c: nat | c < |t.n.sent| && t.n.sent[c].Notify? && (t.taken <= c || c in t.answers)
        ensures t.n.sent[c].over != id
      {
        if c < |s.n.sent| { assert t.n.sent[c] == s.n.sent[c]; }
      }
    }
  }

  // The answer's id is in nobody's way, and so may enter the tables.
  lemma LandedLingers(s: System, call: nat)
    requires Whole(s) && NothingLingers(s) && Able(s, Return(call)) && s.n.sent[call].key in s.n.entries
    ensures NothingLingers(Answered(s, call)) && Shape(Answered(s, call))
  {
    var t := Answered(s, call);
    assert forall d: nat, x: nat :: ClosingAt(t, d, x) <==> ClosingAt(s, d, x);
    assert forall p: nat, x: nat :: Unheard(t, p, x) <==> Unheard(s, p, x);
    forall id: nat | Spent(t, id) ensures DoneWith(t, id) {
      assert Spent(s, id) && DoneWith(s, id);
      assert forall k | k in s.n.entries :: LiveId(s.n, s.n.entries[k].id);
    }
  }

  lemma ReturnLingers(s: System, call: nat)
    requires Whole(s) && NothingLingers(s) && Able(s, Return(call))
    ensures NothingLingers(Returned(s, call))
  {
    var key, t := s.n.sent[call].key, Returned(s, call);
    if key in s.n.entries {
      LandedLingers(s, call);
      SettlingTame(Answered(s, call).n, key);
      TameLingers(Answered(s, call), t);
    } else {
      assert forall p: nat, x: nat :: Unheard(t, p, x) <==> Unheard(s, p, x);
      forall id: nat | Spent(t, id) ensures DoneWith(t, id) { assert Spent(s, id) && DoneWith(s, id); }
    }
  }

  lemma TakeNotifyLingers(s: System, accept: bool, given: nat)
    requires Live(s) && NothingLingers(s) && Able(s, Take(accept, given)) && s.n.sent[s.taken].Notify?
    ensures NothingLingers(Taken(s, accept, given))
  {
    var key := s.n.sent[s.taken].key;
    assert KeyOk(s, key) && Out(s, s.taken, key) && CallOk(s, s.taken, key);
    var t, over := Taken(s, accept, given), s.n.sent[s.taken].over;
    forall id: nat | Spent(t, id) ensures DoneWith(t, id) {
      var p: nat :| Unheard(t, p, id);
      assert Unheard(s, p, id);
      assert id in s.owner && Spent(s, id) && DoneWith(s, id);
    }
  }

  // A popup goes because we said so: by then nothing of ours names it.
  lemma ClosingIsLast(s: System, id: nat)
    requires Live(s) && ClosingAt(s, s.taken, id)
    ensures id in s.owner && DoneWith(s.(popups := s.popups - {id}), id)
  {
    var key := s.owner[id];
    assert KeyOk(s, key) && Owns(s, key, id);
    forall k | k in s.n.entries ensures s.n.entries[k].id != id {
      assert KeyOk(s, k);
    }
    forall c: nat | c < |s.n.sent| && s.n.sent[c].Notify? && (s.taken <= c || c in s.answers)
      ensures s.n.sent[c].over != id && (c in s.answers ==> s.answers[c].id != id)
    {
      var k := s.n.sent[c].key;
      assert KeyOk(s, k) && Out(s, c, k) && CallOk(s, c, k);
    }
  }

  lemma TakeCloseLingers(s: System, accept: bool, given: nat)
    requires Live(s) && NothingLingers(s) && Able(s, Take(accept, given)) && s.n.sent[s.taken].Close?
    ensures NothingLingers(Taken(s, accept, given))
  {
    var t, gone := Taken(s, accept, given), s.n.sent[s.taken].id;
    assert ClosingAt(s, s.taken, gone);
    ClosingIsLast(s, gone);
    forall id: nat | Spent(t, id) ensures DoneWith(t, id) {
      if id != gone || gone !in s.popups {
        var p: nat :| Unheard(t, p, id);
        assert Unheard(s, p, id) && Spent(s, id) && DoneWith(s, id);
      }
    }
  }

  lemma ElsewhereLingers(s: System, id: nat)
    requires NothingLingers(s) && id !in s.owner
    ensures NothingLingers(After(s, Elsewhere(id)))
  {
    var t := After(s, Elsewhere(id));
    forall x: nat | Spent(t, x) ensures DoneWith(t, x) {
      var p: nat :| Unheard(t, p, x);
      assert Unheard(s, p, x) && Spent(s, x) && DoneWith(s, x);
    }
  }

  lemma MoveLingers(s: System, m: Move)
    requires Whole(s) && NothingLingers(s) && Able(s, m) && !m.Dismiss?
    ensures NothingLingers(After(s, m))
  {
    if m.Take? {
      if s.n.sent[s.taken].Notify? {
        TakeNotifyLingers(s, m.accept, m.given);
      } else {
        TakeCloseLingers(s, m.accept, m.given);
      }
    } else if m.Elsewhere? {
      ElsewhereLingers(s, m.id);
    } else if m.Return? {
      ReturnLingers(s, m.call);
    } else {
      CommandTame(s, m);
      TameLingers(s, After(s, m));
    }
  }

  // No answer overtakes word of a closing it matters to.
  lemma AbleIsPossible(s: System, m: Move)
    requires Whole(s) && NothingLingers(s) && Able(s, m)
    ensures Possible(s, m)
  {
    if m.Return? {
      var a := s.answers[m.call];
      forall p: nat | s.heard <= p < a.behind && p < |s.signals| && a.ok && a.id in s.popups
        ensures s.signals[p] != a.id
      {
        assert Unheard(s, p, s.signals[p]) && Owns(s, s.popups[a.id].key, a.id);
        assert s.signals[p] in s.owner ==> Spent(s, s.signals[p]);
      }
    }
  }

  // ----------------------------------------------------------------- every run

  // The bus is free to deliver what is on it in any order.
  ghost predicate Plays(s: System, moves: seq<Move>)
    decreases |moves|
  {
    moves != [] ==> Able(s, moves[0]) && Plays(After(s, moves[0]), moves[1..])
  }

  lemma {:induction false} UndismissedRuns(s: System, moves: seq<Move>)
    requires Whole(s) && NothingLingers(s) && Plays(s, moves) && forall m | m in moves :: !m.Dismiss?
    ensures Runs(s, moves)
    decreases |moves|
  {
    if moves != [] {
      assert moves[0] in moves;
      AbleIsPossible(s, moves[0]);
      MoveWhole(s, moves[0]);
      MoveLingers(s, moves[0]);
      UndismissedRuns(After(s, moves[0]), moves[1..]);
    }
  }

  // Without a dismissal the screen comes right in whatever order answers and
  // signals arrive; and if nothing was refused either, it shows every chat's
  // last alert.
  lemma AnyOrderComesRight(s: System, moves: seq<Move>)
    requires Started(s) && Plays(s, moves) && forall m | m in moves :: !m.Dismiss?
    ensures Runs(s, moves)
    ensures var t := AfterAll(s, moves);
            && (t.n.available && Quiet(t) ==> ScreenIsRight(t))
            && ((forall m | m in moves :: m.Take? ==> m.accept) ==> t.lapsed == {})
  {
    assert NothingLingers(s);
    UndismissedRuns(s, moves);
    TheScreenComesRight(s, moves);
    if forall m | m in moves :: m.Take? ==> m.accept {
      NothingLapses(s, moves);
    }
  }
}
