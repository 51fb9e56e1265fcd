// Why an answer may not overtake word of its own popup's closing.

module NotifierLimits {
  import opened Wrappers
  import opened Extremes
  import opened Alerts
  import opened NotifierDaemon

  // A chat's popup was dismissed and rewritten, and both words of it are on
  // their way back; nothing else is.
  ghost predicate Crossed(s: System, call: nat) {
    && Whole(s) && s.n.available
    && s.taken == |s.n.sent| && call in s.answers && s.answers.Keys == {call}
    && Able(s, Return(call)) && s.answers[call].id in s.popups
    && EntryOf(s.n, s.n.sent[call].key).queued.None?
    && s.heard < s.answers[call].behind && s.signals[s.heard] == s.answers[call].id
  }

  // The answer first, then the older word, and the chat is read.
  ghost function Overtaken(s: System, call: nat): System
    requires Crossed(s, call)
  {
    var key := s.n.sent[call].key;
    After(After(After(s, Return(call)), Hear), Retract(key))
  }

  lemma AnswerOvertakes(s: System, call: nat)
    requires Crossed(s, call) && !EntryOf(s.n, s.n.sent[call].key).retractQueued
    ensures var key, id, t := s.n.sent[call].key, s.answers[call].id, After(s, Return(call));
            && t.n.entries == s.n.entries[key := Entry(id, false, None, false)] && t.n.sent == s.n.sent
            && id in t.n.byId && t.n.byId[id] == key && key != "" && id != 0 && Up(s, id, key) && s.answers[call].ok
  {
    var key, id := s.n.sent[call].key, s.answers[call].id;
    assert Out(s, call, key) && KeyOk(s, key) && CallOk(s, call, key);
    assert Owns(s, s.popups[id].key, id);
  }

  // The popup is left on screen for good: the notifier has forgotten it, so
  // reading the chat takes nothing down.
  lemma AnOvertakenDismissalStrandsThePopup(s: System, call: nat)
    requires Crossed(s, call) && !EntryOf(s.n, s.n.sent[call].key).retractQueued
    ensures !Possible(s, Return(call))
    ensures var t := Overtaken(s, call);
            && Quiet(t) && !ScreenIsRight(t)
            && s.n.sent[call].key !in t.wanted && Up(t, s.answers[call].id, s.n.sent[call].key)
  {
    var key, id := s.n.sent[call].key, s.answers[call].id;
    AnswerOvertakes(s, call);
    var t := After(After(s, Return(call)), Hear);
    assert key !in t.n.entries;
    assert s.heard < |s.signals| && s.signals[s.heard] == id;
    assert Up(Overtaken(s, call), id, key);
  }

  // It takes no more than a dismissal and one more message in the chat.
  function Crossing(key: string, alert: Alert): seq<Move> {
    [Resolve(true, []), Show(key, alert), Take(true, 1), Return(0), Dismiss(1), Show(key, alert), Take(true, 2)]
  }

  function Talking(sent: seq<Call>, key: string, e: Entry): Notifier {
    Notifier(true, true, map[], map[key := e], if e.id != 0 then map[e.id := key] else map[], sent)
  }

  lemma FirstShown(s: System, key: string, alert: Alert)
    requires Started(s) && !s.n.resolved && key != ""
    ensures var m := Crossing(key, alert);
            && Possible(s, m[0]) && Possible(After(s, m[0]), m[1])
            && var t := After(After(s, m[0]), m[1]);
               t == s.(n := Talking([Notify(key, alert, 0)], key, Entry(0, true, None, false)),
                       wanted := map[key := alert])
  {
    assert s.n.held == map[];
    assert [] + [Notify(key, alert, 0)] == [Notify(key, alert, 0)];
  }

  ghost function Up1(s: System, key: string, alert: Alert): System {
    s.(n := Talking([Notify(key, alert, 0)], key, Entry(1, false, None, false)), wanted := map[key := alert],
       taken := 1, popups := map[1 := Popup(key, alert)], owner := map[1 := key])
  }

  lemma FirstUp(s: System, key: string, alert: Alert, t: System)
    requires Started(s) && key != ""
    requires t == s.(n := Talking([Notify(key, alert, 0)], key, Entry(0, true, None, false)),
                     wanted := map[key := alert])
    ensures var m := Crossing(key, alert);
            Possible(t, m[2]) && Possible(After(t, m[2]), m[3]) && After(After(t, m[2]), m[3]) == Up1(s, key, alert)
  {
    var u := After(t, Take(true, 1));
    assert u.answers == map[0 := Answer(1, true, 0)];
    assert u.answers - {0} == map[];
    assert {} + {key} - {key} == {} && s.lapsed - {key} == {};
  }

  lemma SecondUp(s: System, key: string, alert: Alert)
    requires Started(s) && key != ""
    ensures var m, t := Crossing(key, alert), Up1(s, key, alert);
            && Possible(t, m[4]) && Possible(After(t, m[4]), m[5])
            && Possible(After(After(t, m[4]), m[5]), m[6])
            && var u := After(After(After(t, m[4]), m[5]), m[6]);
               && u.n == Talking([Notify(key, alert, 0), Notify(key, alert, 1)], key, Entry(1, true, None, false))
               && u.taken == 2 && u.answers == map[1 := Answer(1, true, 1)] && u.signals == [1] && u.heard == 0
               && 1 in u.popups
  {
    var v := After(Up1(s, key, alert), Dismiss(1));
    assert v.signals == [1];
    var w := After(v, Show(key, alert));
    assert w.n.sent == [Notify(key, alert, 0), Notify(key, alert, 1)];
  }

  lemma SecondCrosses(s: System, t: System, key: string, alert: Alert)
    requires Started(s) && key != "" && Whole(t)
    requires t.n == Talking([Notify(key, alert, 0), Notify(key, alert, 1)], key, Entry(1, true, None, false))
    requires t.taken == 2 && t.answers == map[1 := Answer(1, true, 1)] && t.signals == [1] && t.heard == 0
    requires 1 in t.popups
    ensures Crossed(t, 1) && !EntryOf(t.n, t.n.sent[1].key).retractQueued
  {}

  lemma TheCrossingHappens(s: System, key: string, alert: Alert)
    requires Started(s) && !s.n.resolved && key != ""
    ensures Runs(s, Crossing(key, alert))
    ensures var t := AfterAll(s, Crossing(key, alert));
            Crossed(t, 1) && !EntryOf(t.n, t.n.sent[1].key).retractQueued
  {
    var m := Crossing(key, alert);
    FirstShown(s, key, alert);
    FirstUp(s, key, alert, After(After(s, m[0]), m[1]));
    SecondUp(s, key, alert);
    SevenRuns(s, m);
    StartedRunWhole(s, m);
    SecondCrosses(s, AfterAll(s, m), key, alert);
  }

  ghost predicate Goes(s: System, a: Move, b: Move) { Possible(s, a) && Possible(After(s, a), b) }

  lemma SevenRuns(s: System, m: seq<Move>)
    requires |m| == 7 && Goes(s, m[0], m[1])
    requires var t := After(After(s, m[0]), m[1]);
             && Goes(t, m[2], m[3])
             && var u := After(After(t, m[2]), m[3]);
                Goes(u, m[4], m[5]) && Possible(After(After(u, m[4]), m[5]), m[6])
    ensures Runs(s, m)
    ensures var t := After(After(After(After(s, m[0]), m[1]), m[2]), m[3]);
            AfterAll(s, m) == After(After(After(t, m[4]), m[5]), m[6])
  {
    var s2 := After(After(s, m[0]), m[1]);
    var s4 := After(After(s2, m[2]), m[3]);
    var s6 := After(After(s4, m[4]), m[5]);
    UnfoldsRuns(s, m, [s, After(s, m[0]), s2, After(s2, m[2]), s4, After(s4, m[4]), s6, After(s6, m[6])]);
  }

  ghost predicate Unfolds(s: System, moves: seq<Move>, states: seq<System>) {
    && |states| == |moves| + 1 && states[0] == s
    && forall i: nat | i < |moves| :: Possible(states[i], moves[i]) && states[i + 1] == After(states[i], moves[i])
  }

  lemma {:induction false} UnfoldsRuns(s: System, moves: seq<Move>, states: seq<System>)
    requires Unfolds(s, moves, states)
    ensures Runs(s, moves) && AfterAll(s, moves) == states[|moves|]
    decreases |moves|
  {
    if moves != [] {
      UnfoldsRuns(states[1], moves[1..], states[1..]);
    }
  }

  // -------------------------------------------------- every answer out of order

  // Whatever possible run follows, once it is quiet the screen is right.
  ghost predicate RightLater(t: System) {
    forall moves: seq<Move> | Runs(t, moves) && Quiet(AfterAll(t, moves)) :: ScreenIsRight(AfterAll(t, moves))
  }

  ghost predicate CanGoWrong(t: System) {
    exists moves: seq<Move> :: Runs(t, moves) && Quiet(AfterAll(t, moves)) && !ScreenIsRight(AfterAll(t, moves))
  }

  lemma WrongNow(t: System)
    requires Quiet(t) && !ScreenIsRight(t)
    ensures CanGoWrong(t)
  {
    assert Runs(t, []) && AfterAll(t, []) == t;
  }

  lemma WrongLater(t: System, m: Move)
    requires Possible(t, m) && CanGoWrong(After(t, m))
    ensures CanGoWrong(t)
  {
    var u := After(t, m);
    var moves: seq<Move> :| Runs(u, moves) && Quiet(AfterAll(u, moves)) && !ScreenIsRight(AfterAll(u, moves));
    var more := [m] + moves;
    assert more[0] == m && more[1..] == moves;
    assert Runs(t, more);
  }

  // A popup is up that no answer and no closing still to come will name. The
  // tables may yet, but then both do.
  ghost predicate Adrift(s: System, id: nat, key: string) {
    && s.taken <= |s.n.sent| && s.heard <= |s.signals| && id != 0 && Up(s, id, key)
    && (forall c: nat | c in s.answers ::
          c < s.taken && c < |s.n.sent| && s.n.sent[c].Notify? && s.answers[c].id != id)
    && (forall d: nat :: !ClosingAt(s, d, id))
    && (forall k | k in s.n.entries && s.n.entries[k].id == id :: k != "" && id in s.n.byId && s.n.byId[id] == k)
  }

  ghost predicate Unknown(n: Notifier, id: nat) { forall k | k in n.entries :: n.entries[k].id != id }

  // Nothing knows of it and nobody wants it.
  ghost predicate Stranded(s: System, id: nat, key: string) {
    Adrift(s, id, key) && Unknown(s.n, id) && key !in s.wanted
  }

  lemma StrandedIsWrong(s: System, id: nat, key: string)
    requires Stranded(s, id, key)
    ensures !ScreenIsRight(s)
  {}

  // ------------------------------------------------------- waiting it all out

  // What the bus, the daemon and the queues still have to work off.
  ghost function Piled(n: Notifier): set<string> {
    set k | k in n.entries && (n.entries[k].queued.Some? || n.entries[k].retractQueued)
  }

  ghost function Work(s: System): nat
    requires s.taken <= |s.n.sent| && s.heard <= |s.signals|
  {
    2 * (|s.n.sent| - s.taken) + |s.answers| + (|s.signals| - s.heard) + 2 * |Piled(s.n)|
  }

  lemma Fewer(a: set<string>, b: set<string>)
    requires a <= b
    ensures |a| <= |b|
  {
    assert b == a + (b - a);
  }

  lemma OneFewer(a: set<string>, b: set<string>, k: string)
    requires a <= b && k in b && k !in a
    ensures |a| + 1 <= |b|
  {
    Fewer(a + {k}, b);
  }

  lemma ClosedKnows(n: Notifier, x: nat, id: nat)
    requires forall k | k in n.entries && n.entries[k].id == id :: k != "" && id in n.byId && n.byId[id] == k
    requires id != 0
    ensures var m := Closed(n, x);
            && (forall k | k in m.entries && m.entries[k].id == id :: k != "" && id in m.byId && m.byId[id] == k)
            && (Unknown(n, id) || x == id ==> Unknown(m, id))
            && m.sent == n.sent && Piled(m) <= Piled(n)
  {}

  lemma HearAdrift(s: System, id: nat, key: string)
    requires Adrift(s, id, key) && s.heard < |s.signals|
    ensures var t := After(s, Hear);
            && Adrift(t, id, key) && Work(t) < Work(s) && t.heard == s.heard + 1 && t.signals == s.signals
            && (Unknown(s.n, id) || s.signals[s.heard] == id ==> Unknown(t.n, id)) && t.wanted == s.wanted
  {
    var t := After(s, Hear);
    ClosedKnows(s.n, s.signals[s.heard], id);
    Fewer(Piled(t.n), Piled(s.n));
    assert forall d: nat :: ClosingAt(t, d, id) <==> ClosingAt(s, d, id);
  }

  ghost function Unused(s: System): (id: nat)
    ensures id != 0 && id !in s.owner && id !in s.others
  {
    var all := (set x | x in s.owner.Keys :: x as int) + (set x | x in s.others :: x as int) + {0};
    var top := Max(all);
    assert 0 in all && forall x | x in s.owner || x in s.others :: (x as int) in all;
    top + 1
  }

  // The daemon refuses it if it is an alert, and closes it if it is a popup.
  lemma TakeStranded(s: System, id: nat, key: string)
    requires Stranded(s, id, key) && s.taken < |s.n.sent|
    ensures var m := Take(false, Unused(s));
            Possible(s, m) && Stranded(After(s, m), id, key) && Work(After(s, m)) < Work(s)
  {
    if s.n.sent[s.taken].Notify? {
      RefusedStranded(s, id, key);
    } else {
      ClosedStranded(s, id, key);
    }
  }

  lemma RefusedStranded(s: System, id: nat, key: string)
    requires Stranded(s, id, key) && s.taken < |s.n.sent| && s.n.sent[s.taken].Notify?
    ensures var t := Refused(s, s.n.sent[s.taken].key); Stranded(t, id, key) && Work(t) < Work(s)
  {
    var t := Refused(s, s.n.sent[s.taken].key);
    assert forall d: nat :: ClosingAt(t, d, id) ==> ClosingAt(s, d, id);
  }

  lemma ClosedStranded(s: System, id: nat, key: string)
    requires Stranded(s, id, key) && s.taken < |s.n.sent| && s.n.sent[s.taken].Close?
    ensures var t := Taken(s, false, 0); Stranded(t, id, key) && Work(t) < Work(s)
  {
    var t := Taken(s, false, 0);
    assert !ClosingAt(s, s.taken, id);
    assert forall d: nat :: ClosingAt(t, d, id) ==> ClosingAt(s, d, id);
  }

  // Settling an entry sends one call at most, and none about a popup that no
  // entry knows.
  lemma SettledUnknown(n: Notifier, k: string, id: nat)
    requires k in n.entries && Unknown(n, id) && id != 0
    ensures var m := Settling(n, k);
            && Unknown(m, id) && n.sent <= m.sent && |m.sent| <= |n.sent| + 1
            && (|m.sent| > |n.sent| ==> m.sent[|n.sent|] != Close(id) && k in Piled(n) - Piled(m))
            && Piled(m) <= Piled(n)
  {}

  lemma LandedUnknown(n: Notifier, k: string, x: nat, ok: bool, id: nat)
    requires k in n.entries && Unknown(n, id) && id != 0 && x != id
    ensures var m := Landing(n, k, x, ok);
            Unknown(m, id) && m.sent == n.sent && Piled(m) == Piled(n) && k in m.entries
  {}

  lemma RepliedUnknown(n: Notifier, k: string, x: nat, ok: bool, id: nat)
    requires Unknown(n, id) && id != 0 && x != id
    ensures var m := Replied(n, k, x, ok);
            && Unknown(m, id) && n.sent <= m.sent
            && (|m.sent| > |n.sent| ==> |m.sent| == |n.sent| + 1 && m.sent[|n.sent|] != Close(id))
            && 2 * |m.sent| + 2 * |Piled(m)| <= 2 * |n.sent| + 2 * |Piled(n)|
  {
    if k in n.entries {
      var l := Landing(n, k, x, ok);
      LandedUnknown(n, k, x, ok, id);
      SettledUnknown(l, k, id);
      var m := Settling(l, k);
      Fewer(Piled(m), Piled(l));
      if |m.sent| > |l.sent| { OneFewer(Piled(m), Piled(l), k); }
    }
  }

  lemma RepliedStranded(s: System, c: nat, m: Notifier, id: nat, key: string)
    requires Stranded(s, id, key) && c in s.answers && Unknown(m, id) && s.n.sent <= m.sent
    requires |m.sent| > |s.n.sent| ==> |m.sent| == |s.n.sent| + 1 && m.sent[|s.n.sent|] != Close(id)
    requires 2 * |m.sent| + 2 * |Piled(m)| <= 2 * |s.n.sent| + 2 * |Piled(s.n)|
    ensures var t := s.(n := m, answers := s.answers - {c});
            Stranded(t, id, key) && Work(t) < Work(s)
  {
    var t := s.(n := m, answers := s.answers - {c});
    assert |t.answers| == |s.answers| - 1;
    forall d: nat ensures !ClosingAt(t, d, id) {
      assert !ClosingAt(s, d, id);
    }
  }

  lemma ReturnStranded(s: System, c: nat, id: nat, key: string)
    requires Stranded(s, id, key) && c in s.answers && s.heard == |s.signals|
    ensures var m := Return(c);
            Possible(s, m) && Stranded(After(s, m), id, key) && Work(After(s, m)) < Work(s)
  {
    var k, a := s.n.sent[c].key, s.answers[c];
    RepliedUnknown(s.n, k, a.id, a.ok, id);
    RepliedStranded(s, c, Replied(s.n, k, a.id, a.ok), id, key);
  }

  // Everything still out comes in, the daemon refusing what it is asked to show,
  // and the popup is there yet.
  lemma {:induction false} StrandedForGood(s: System, id: nat, key: string)
    requires Stranded(s, id, key)
    ensures CanGoWrong(s)
    decreases Work(s)
  {
    if s.heard < |s.signals| {
      HearAdrift(s, id, key);
      StrandedForGood(After(s, Hear), id, key);
      WrongLater(s, Hear);
    } else if s.taken < |s.n.sent| {
      var m := Take(false, Unused(s));
      TakeStranded(s, id, key);
      StrandedForGood(After(s, m), id, key);
      WrongLater(s, m);
    } else if s.answers != map[] {
      var m := Return(Pick(s.answers.Keys));
      ReturnStranded(s, m.call, id, key);
      StrandedForGood(After(s, m), id, key);
      WrongLater(s, m);
    } else {
      StrandedIsWrong(s, id, key);
      WrongNow(s);
    }
  }

  // Word of the older closing arrives, and the chat is read.
  lemma ReadWhileAdrift(s: System, id: nat, key: string)
    requires Adrift(s, id, key) && Unknown(s.n, id)
    ensures CanGoWrong(s)
  {
    var t := After(s, Retract(key));
    assert s.n.sent <= t.n.sent;
    forall d: nat ensures !ClosingAt(t, d, id) {
      assert !ClosingAt(s, d, id);
    }
    assert Unknown(t.n, id);
    StrandedForGood(t, id, key);
    WrongLater(s, Retract(key));
  }

  lemma {:induction false} WordArrives(s: System, id: nat, key: string, p: nat)
    requires Adrift(s, id, key) && Unheard(s, p, id)
    ensures CanGoWrong(s)
    decreases |s.signals| - s.heard
  {
    HearAdrift(s, id, key);
    var t := After(s, Hear);
    if p == s.heard {
      ReadWhileAdrift(t, id, key);
    } else {
      assert Unheard(t, p, id);
      WordArrives(t, id, key, p);
    }
    WrongLater(s, Hear);
  }

  // The answer has been taken in too soon.
  lemma ReturnsAdrift(s: System, call: nat)
    requires Live(s) && Able(s, Return(call)) && s.answers[call].ok && Up(s, s.answers[call].id, s.n.sent[call].key)
    requires !EntryOf(s.n, s.n.sent[call].key).retractQueued
    ensures Adrift(Returned(s, call), s.answers[call].id, s.n.sent[call].key)
  {
    var key, id, t := s.n.sent[call].key, s.answers[call].id, Returned(s, call);
    AnsweredRests(s, call);
    assert KeyOk(s, key) && Out(s, call, key) && CallOk(s, call, key);
    forall d: nat ensures !ClosingAt(t, d, id) {
      assert ClosingAt(s, d, id) ==> d < call;
    }
    forall c: nat | c in t.answers ensures t.answers[c].id != id {
      var k := s.n.sent[c].key;
      assert KeyOk(s, k) && Out(s, c, k) && CallOk(s, c, k);
    }
    assert Inverse(t.n);
  }

  lemma StaysAvailable(s: System, m: Move)
    requires Live(s) && Possible(s, m)
    ensures Live(After(s, m))
  {
    MoveWhole(s, m);
    if m.RetractAll? { RetractingEachStays(s.n.(held := map[]), m.order); }
  }

  lemma {:induction false} RetractingEachStays(n: Notifier, keys: seq<string>)
    ensures RetractingEach(n, keys).available == n.available
    decreases |keys|
  {
    if keys != [] { RetractingEachStays(Retracting(n, keys[0]), keys[1..]); }
  }

  lemma {:induction false} LiveRuns(s: System, moves: seq<Move>)
    requires Live(s) && Runs(s, moves)
    ensures Live(AfterAll(s, moves))
    decreases |moves|
  {
    if moves != [] {
      StaysAvailable(s, moves[0]);
      LiveRuns(After(s, moves[0]), moves[1..]);
    }
  }

  lemma InOrderComesRight(s: System, call: nat, moves: seq<Move>)
    requires Live(s) && Possible(s, Return(call)) && Runs(Returned(s, call), moves)
    requires Quiet(AfterAll(Returned(s, call), moves))
    ensures ScreenIsRight(AfterAll(Returned(s, call), moves))
  {
    ReturnWhole(s, call);
    LiveRuns(Returned(s, call), moves);
    LiveAndQuietIsRight(AfterAll(Returned(s, call), moves));
  }

  // Of the answers that may arrive next, those in order are exactly those after
  // which every possible run that comes to rest leaves the screen right.
  lemma InOrderIsExact(s: System, call: nat)
    requires Live(s) && Able(s, Return(call))
    ensures InOrder(s, call) <==> RightLater(After(s, Return(call)))
  {
    var t := After(s, Return(call));
    if InOrder(s, call) {
      forall moves: seq<Move> | Runs(t, moves) && Quiet(AfterAll(t, moves)) ensures ScreenIsRight(AfterAll(t, moves)) {
        InOrderComesRight(s, call, moves);
      }
    } else {
      OutOfOrderGoesWrong(s, call);
    }
  }

  lemma OutOfOrderGoesWrong(s: System, call: nat)
    requires Live(s) && Able(s, Return(call)) && !InOrder(s, call)
    ensures CanGoWrong(After(s, Return(call)))
  {
    var a, key := s.answers[call], s.n.sent[call].key;
    var p: nat :| s.heard <= p < a.behind && p < |s.signals| && s.signals[p] == a.id;
    assert KeyOk(s, key) && Out(s, call, key) && CallOk(s, call, key);
    assert Owns(s, s.popups[a.id].key, a.id);
    ReturnsAdrift(s, call);
    assert Unheard(Returned(s, call), p, a.id);
    WordArrives(Returned(s, call), a.id, key, p);
  }
}
