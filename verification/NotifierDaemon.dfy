// The notifier against a daemon that follows the Notify command of the D-BUS
// Protocol section of the Desktop Notifications Specification: a Notify that
// replaces an id answers with that id, any other is given an id of its own.
// Calls reach the daemon in order and signals come back in order, but answers
// travel on their own and may be overtaken by signals, or overtake them.

module NotifierDaemon {
  import opened Wrappers
  import opened Alerts

  datatype Popup = Popup(key: string, alert: Alert)

  // The daemon's answer to a Notify; behind counts the signals sent before it.
  datatype Answer = Answer(id: nat, ok: bool, behind: nat)

  datatype System = System(
    n: Notifier,
    taken: nat,                    // of n.sent, how many calls the daemon has taken
    answers: map<nat, Answer>,     // on their way back, by the call they answer
    signals: seq<nat>,             // every NotificationClosed, in order
    heard: nat,                    // of those, how many the notifier has had
    popups: map<nat, Popup>,       // what is on screen
    owner: map<nat, string>,       // every id ever given to one of our calls
    others: set<nat>,              // ids seen to belong to other applications
    wanted: map<string, Alert>,    // shown and not retracted since
    lapsed: set<string>)           // refused, dismissed or expired since

  datatype Move =
    | Show(key: string, alert: Alert)
    | Retract(key: string)
    | RetractAll(order: seq<string>)
    | Resolve(ok: bool, order: seq<string>)
    | Take(accept: bool, given: nat)   // the daemon takes the next call
    | Dismiss(id: nat)                 // a popup goes away of itself
    | Elsewhere(id: nat)               // another application's popup closes
    | Return(call: nat)                // an answer arrives
    | Hear                             // a signal arrives

  // order is a hash's order of its keys: each of them once.
  ghost predicate Lists(order: seq<string>, keys: set<string>) {
    && (forall k :: k in order <==> k in keys)
    && forall i: nat, j: nat | 0 <= i < j < |order| :: order[i] != order[j]
  }

  ghost predicate Able(s: System, m: Move) {
    match m
    case Show(key, _) => key != ""
    case Retract(_) => true
    case RetractAll(order) => Lists(order, s.n.entries.Keys)
    case Resolve(_, order) => !s.n.resolved && Lists(order, s.n.held.Keys)
    case Take(_, given) => s.taken < |s.n.sent| && given != 0 && given !in s.owner && given !in s.others
    case Dismiss(id) => id in s.popups
    case Elsewhere(id) => id !in s.owner
    case Return(call) => call in s.answers && call < |s.n.sent| && s.n.sent[call].Notify?
    case Hear => s.heard < |s.signals|
  }

  // An answer that names a popup on screen has not overtaken word of an earlier
  // closing of it, or finds a retract waiting. NotifierLimits.dfy proves that an
  // answer out of this order is exactly one that can leave the screen wrong.
  predicate InOrder(s: System, call: nat)
    requires call in s.answers && call < |s.n.sent| && s.n.sent[call].Notify?
  {
    var a := s.answers[call];
    a.ok && a.id in s.popups && !EntryOf(s.n, s.n.sent[call].key).retractQueued ==>
      forall p: nat | s.heard <= p < a.behind && p < |s.signals| :: s.signals[p] != a.id
  }

  ghost predicate Possible(s: System, m: Move) { Able(s, m) && (m.Return? ==> InOrder(s, m.call)) }

  // ---------------------------------------------------------------- the moves

  ghost function Commanded(s: System, n: Notifier, wanted: map<string, Alert>): System {
    s.(n := n, wanted := wanted)
  }

  ghost function Accepted(s: System, key: string, alert: Alert, id: nat): System {
    s.(taken := s.taken + 1, popups := s.popups[id := Popup(key, alert)], owner := s.owner[id := key],
       answers := s.answers[s.taken := Answer(id, true, |s.signals|)], lapsed := s.lapsed - {key})
  }

  ghost function Refused(s: System, key: string): System {
    s.(taken := s.taken + 1, answers := s.answers[s.taken := Answer(0, false, |s.signals|)],
       lapsed := s.lapsed + {key})
  }

  ghost function Gone(s: System, id: nat): System {
    s.(popups := s.popups - {id}, signals := s.signals + [id])
  }

  ghost function Taken(s: System, accept: bool, given: nat): System
    requires s.taken < |s.n.sent|
  {
    match s.n.sent[s.taken]
    case Notify(key, alert, over) =>
      if !accept then Refused(s, key)
      else Accepted(s, key, alert, if over != 0 then over else given)
    case Close(id) =>
      if id in s.popups then Gone(s, id).(taken := s.taken + 1) else s.(taken := s.taken + 1)
  }

  ghost function Returned(s: System, call: nat): System
    requires call in s.answers && call < |s.n.sent| && s.n.sent[call].Notify?
  {
    var a := s.answers[call];
    s.(n := Replied(s.n, s.n.sent[call].key, a.id, a.ok), answers := s.answers - {call})
  }

  ghost function After(s: System, m: Move): System
    requires Able(s, m)
  {
    match m
    case Show(key, alert) => Commanded(s, Showing(s.n, key, alert), s.wanted[key := alert])
    case Retract(key) => Commanded(s, Retracting(s.n, key), s.wanted - {key})
    case RetractAll(order) => Commanded(s, RetractingAll(s.n, order), map[])
    case Resolve(ok, order) => Commanded(s, Resolving(s.n, ok, order), s.wanted)
    case Take(accept, given) => Taken(s, accept, given)
    case Dismiss(id) => Gone(s, id).(lapsed := s.lapsed + {s.popups[id].key})
    case Elsewhere(id) => s.(signals := s.signals + [id], others := s.others + {id})
    case Return(call) => Returned(s, call)
    case Hear => s.(n := Closed(s.n, s.signals[s.heard]), heard := s.heard + 1)
  }

  ghost predicate Runs(s: System, moves: seq<Move>)
    decreases |moves|
  {
    moves != [] ==> Possible(s, moves[0]) && Runs(After(s, moves[0]), moves[1..])
  }

  ghost function AfterAll(s: System, moves: seq<Move>): System
    requires Runs(s, moves)
    decreases |moves|
  {
    if moves == [] then s else AfterAll(After(s, moves[0]), moves[1..])
  }

  // -------------------------------------------------------------- the invariant

  // A Notify for this chat that the notifier has had no answer to.
  ghost predicate Out(s: System, c: nat, key: string) {
    && c < |s.n.sent| && s.n.sent[c].Notify? && s.n.sent[c].key == key
    && (s.taken <= c || c in s.answers)
  }

  ghost predicate Owns(s: System, key: string, id: nat) { id in s.owner && s.owner[id] == key }

  ghost predicate ClosingAt(s: System, d: nat, id: nat) {
    s.taken <= d < |s.n.sent| && s.n.sent[d] == Close(id)
  }

  ghost predicate Unheard(s: System, p: nat, id: nat) {
    s.heard <= p < |s.signals| && s.signals[p] == id
  }

  ghost predicate Up(s: System, id: nat, key: string) { id in s.popups && s.popups[id].key == key }

  // One Notify at most is out for a chat, and its entry knows.
  ghost predicate FlightOk(s: System, key: string) {
    && (forall c: nat, d: nat | Out(s, c, key) && Out(s, d, key) :: c == d)
    && (EntryOf(s.n, key).inFlight <==> exists c: nat :: Out(s, c, key))
  }

  ghost predicate EntryOk(s: System, key: string) {
    key in s.n.entries ==>
      var e := s.n.entries[key];
      && (e.id != 0 ==> Owns(s, key, e.id))
      && (!e.inFlight ==> e.id != 0 && e.queued.None? && !e.retractQueued && key in s.wanted)
      && (e.retractQueued ==> e.queued.None? && key !in s.wanted)
      && (e.queued.Some? ==> key in s.wanted && s.wanted[key] == e.queued.value)
  }

  // What is out agrees with the entry, and is newer than any closing.
  ghost predicate CallOk(s: System, c: nat, key: string)
    requires Out(s, c, key)
  {
    var e, call := EntryOf(s.n, key), s.n.sent[c];
    && (call.over != 0 ==> Owns(s, key, call.over))
    && (e.id == 0 || e.id == call.over)
    && (e.queued.None? && !e.retractQueued ==> key in s.wanted && s.wanted[key] == call.alert)
    && (c in s.answers ==>
          var a := s.answers[c];
          && (a.ok <==> a.id != 0)
          && (a.ok ==> Owns(s, key, a.id) && (call.over != 0 ==> a.id == call.over)))
    && (forall d: nat, id: nat | ClosingAt(s, d, id) && Owns(s, key, id) :: d < c && id != call.over)
  }

  // What is up is known to the entry, or about to be, or on its way down.
  ghost predicate PopupKnown(s: System, id: nat, key: string) {
    && Owns(s, key, id)
    && (forall other: nat | Up(s, other, key) :: other == id)
    && ((exists d: nat :: ClosingAt(s, d, id)) || EntryOf(s.n, key).id == id
        || exists c: nat :: Out(s, c, key) && c in s.answers && s.answers[c].id == id)
  }

  // Unless it is on its way down, only an answer can be behind word of an
  // earlier closing.
  ghost predicate PopupOk(s: System, id: nat, key: string) {
    && PopupKnown(s, id, key)
    && ((exists d: nat :: ClosingAt(s, d, id))
        || forall p: nat | Unheard(s, p, id) ::
             exists c: nat :: Out(s, c, key) && c in s.answers && s.answers[c].id == id && p < s.answers[c].behind)
  }

  ghost predicate ShowsWanted(s: System, id: nat, key: string) {
    && id in s.popups && key in s.wanted && s.popups[id] == Popup(key, s.wanted[key])
    && forall d: nat :: !ClosingAt(s, d, id)
  }

  // The chat's last alert is up, once nothing for it waits to be taken.
  ghost predicate WantOk(s: System, key: string) {
    key in s.wanted && key !in s.lapsed && EntryOf(s.n, key).queued.None?
    && (forall c: nat | Out(s, c, key) :: c < s.taken) ==>
      exists id: nat :: ShowsWanted(s, id, key)
  }

  ghost predicate KeyOk(s: System, key: string) {
    && FlightOk(s, key) && EntryOk(s, key)
    && (forall c: nat | Out(s, c, key) :: CallOk(s, c, key))
    && (forall d: nat, id: nat | ClosingAt(s, d, id) && Owns(s, key, id) :: EntryOf(s.n, key).id != id)
    && (forall id: nat | Up(s, id, key) :: PopupOk(s, id, key))
    && WantOk(s, key)
  }

  ghost predicate Shape(s: System) {
    && s.taken <= |s.n.sent| && s.heard <= |s.signals|
    && "" !in s.n.entries && "" !in s.n.held && "" !in s.wanted
    && 0 !in s.owner && s.owner.Keys !! s.others
    && (forall id: nat | id in s.popups :: Owns(s, s.popups[id].key, id))
    && (forall c: nat | c in s.answers :: c < s.taken && s.n.sent[c].Notify? && s.answers[c].behind <= |s.signals|)
    && (forall d: nat, id: nat | ClosingAt(s, d, id) :: id in s.owner)
    && (forall p: nat, id: nat | Unheard(s, p, id) :: id in s.owner || id in s.others)
  }

  ghost predicate Idle(s: System) {
    && s.n.entries == map[] && s.n.byId == map[] && s.n.sent == [] && s.popups == map[] && s.owner == map[]
  }

  ghost predicate Gated(s: System) {
    && (s.n.available ==> s.n.resolved)
    && (s.n.resolved ==> s.n.held == map[])
    && (!s.n.resolved ==> s.wanted == s.n.held)
    && (!s.n.available ==> Idle(s))
  }

  ghost predicate Whole(s: System) {
    && Gated(s) && Shape(s) && Inverse(s.n)
    && (s.n.available ==> forall k :: KeyOk(s, k))
  }

  // ------------------------------------------------ chats a step leaves alone

  ghost predicate SameCalls(s: System, t: System, key: string) {
    && (forall c: nat :: Out(s, c, key) <==> Out(t, c, key))
    && (forall c: nat | Out(s, c, key) ::
          && t.n.sent[c] == s.n.sent[c] && (c < s.taken <==> c < t.taken)
          && (c in s.answers <==> c in t.answers) && (c in s.answers ==> s.answers[c] == t.answers[c]))
    && (forall d: nat, id: nat | Owns(s, key, id) :: ClosingAt(s, d, id) <==> ClosingAt(t, d, id))
  }

  ghost predicate SameScreen(s: System, t: System, key: string) {
    && (forall id: nat :: Owns(s, key, id) <==> Owns(t, key, id))
    && (forall id: nat | Owns(s, key, id) ::
          (id in s.popups <==> id in t.popups) && (id in s.popups ==> s.popups[id] == t.popups[id]))
    && (forall id: nat :: Up(t, id, key) ==> Owns(t, key, id))
    && (forall p: nat, id: nat | Owns(s, key, id) :: Unheard(t, p, id) ==> Unheard(s, p, id))
  }

  ghost predicate SameWish(s: System, t: System, key: string) {
    && EntryOf(s.n, key) == EntryOf(t.n, key) && (key in s.n.entries <==> key in t.n.entries)
    && (key in s.wanted <==> key in t.wanted) && (key in s.wanted ==> s.wanted[key] == t.wanted[key])
    && (key in s.lapsed <==> key in t.lapsed)
  }

  ghost predicate Alike(s: System, t: System, key: string) {
    SameCalls(s, t, key) && SameScreen(s, t, key) && SameWish(s, t, key)
  }

  lemma AlikeFlight(s: System, t: System, key: string)
    requires SameCalls(s, t, key) && SameWish(s, t, key) && FlightOk(s, key)
    ensures FlightOk(t, key)
  {
    if EntryOf(s.n, key).inFlight {
      var c: nat :| Out(s, c, key);
      assert Out(t, c, key);
    }
  }

  lemma AlikeCall(s: System, t: System, c: nat, key: string)
    requires Alike(s, t, key) && Out(s, c, key) && CallOk(s, c, key)
    ensures Out(t, c, key) && CallOk(t, c, key)
  {}

  lemma AlikePopup(s: System, t: System, id: nat, key: string)
    requires Alike(s, t, key) && Up(s, id, key) && PopupOk(s, id, key)
    ensures PopupOk(t, id, key)
  {
    forall other: nat | Up(t, other, key) ensures other == id {
      assert Owns(s, key, other) && Up(s, other, key);
    }
    if c: nat :| Out(s, c, key) && c in s.answers && s.answers[c].id == id { assert Out(t, c, key); }
    if d: nat :| ClosingAt(s, d, id) {
      assert ClosingAt(t, d, id);
    } else {
      forall p: nat | Unheard(t, p, id)
        ensures exists c: nat :: Out(t, c, key) && c in t.answers && t.answers[c].id == id && p < t.answers[c].behind
      {
        assert Unheard(s, p, id);
        var c: nat :| Out(s, c, key) && c in s.answers && s.answers[c].id == id && p < s.answers[c].behind;
        assert Out(t, c, key);
      }
    }
  }

  lemma AlikeWant(s: System, t: System, key: string)
    requires Alike(s, t, key) && WantOk(s, key) && forall id: nat | Up(s, id, key) :: Owns(s, key, id)
    ensures WantOk(t, key)
  {
    if key in t.wanted && key !in t.lapsed && EntryOf(t.n, key).queued.None?
       && (forall c: nat | Out(t, c, key) :: c < t.taken) {
      var id: nat :| ShowsWanted(s, id, key);
      assert Up(s, id, key);
      assert ShowsWanted(t, id, key);
    }
  }

  lemma AlikeKeeps(s: System, t: System, key: string)
    requires KeyOk(s, key) && Alike(s, t, key)
    ensures KeyOk(t, key)
  {
    AlikeFlight(s, t, key);
    forall c: nat | Out(t, c, key) ensures CallOk(t, c, key) { AlikeCall(s, t, c, key); }
    forall id: nat | Up(t, id, key) ensures PopupOk(t, id, key) {
      assert Owns(s, key, id) && Up(s, id, key);
      AlikePopup(s, t, id, key);
    }
    AlikeWant(s, t, key);
  }

  // The notifier did something about one chat: at most one call put out, at
  // most that chat's answer taken in.
  ghost predicate About(key: string, s: System, call: Call) {
    if call.Notify? then call.key == key else Owns(s, key, call.id)
  }

  ghost predicate Local(s: System, t: System, key: string) {
    && t == s.(n := t.n, wanted := t.wanted, answers := t.answers)
    && s.n.sent <= t.n.sent && |t.n.sent| <= |s.n.sent| + 1
    && (s.n.sent < t.n.sent ==> About(key, s, t.n.sent[|s.n.sent|]))
    && (forall j | j != key ::
          && (j in s.n.entries <==> j in t.n.entries) && (j in s.n.entries ==> s.n.entries[j] == t.n.entries[j])
          && (j in s.wanted <==> j in t.wanted) && (j in s.wanted ==> s.wanted[j] == t.wanted[j]))
    && (forall c: nat | c in t.answers :: c in s.answers && s.answers[c] == t.answers[c])
    && (forall c: nat | c in s.answers && c !in t.answers :: Out(s, c, key))
  }

  lemma LocalAlike(s: System, t: System, key: string, j: string)
    requires Shape(s) && Local(s, t, key) && j != key
    ensures Alike(s, t, j)
  {}

  lemma OthersKeep(s: System, t: System, key: string)
    requires Shape(s) && Local(s, t, key) && forall j :: KeyOk(s, j)
    ensures forall j | j != key :: KeyOk(t, j)
  {
    forall j | j != key ensures KeyOk(t, j) {
      LocalAlike(s, t, key, j);
      AlikeKeeps(s, t, j);
    }
  }

  // ------------------------------------------------- what one chat's step does

  // Nothing is out for this chat; what is queued is not looked at.
  ghost predicate Rested(s: System, key: string) {
    && (forall c: nat :: !Out(s, c, key))
    && (EntryOf(s.n, key).id != 0 ==> Owns(s, key, EntryOf(s.n, key).id))
    && (forall d: nat, id: nat | ClosingAt(s, d, id) && Owns(s, key, id) :: EntryOf(s.n, key).id != id)
    && (forall id: nat | Up(s, id, key) :: PopupKnown(s, id, key))
  }

  // No word of a closing is out that what is up has outlived.
  ghost predicate Caught(s: System, key: string) {
    forall id: nat | Up(s, id, key) :: PopupOk(s, id, key)
  }

  lemma IdleIsRested(s: System, key: string)
    requires KeyOk(s, key) && !EntryOf(s.n, key).inFlight
    ensures Rested(s, key) && Caught(s, key)
  {}

  // A Notify goes out for a chat with none out.
  lemma PostedCall(s: System, t: System, key: string, alert: Alert)
    requires Shape(s) && Rested(s, key) && Local(s, t, key) && t.answers == s.answers
    requires var e := EntryOf(s.n, key);
             && t.n.sent == s.n.sent + [Notify(key, alert, e.id)] && key in t.n.entries
             && t.n.entries[key] == Entry(e.id, true, None, false)
    requires key in t.wanted && t.wanted[key] == alert
    ensures forall c: nat | Out(t, c, key) :: c == |s.n.sent| && CallOk(t, c, key)
    ensures Out(t, |s.n.sent|, key)
  {
    forall c: nat | Out(t, c, key) ensures c == |s.n.sent| && CallOk(t, c, key) {
      assert c < |s.n.sent| ==> Out(s, c, key);
      forall d: nat, id: nat | ClosingAt(t, d, id) && Owns(t, key, id)
        ensures d < c && id != EntryOf(s.n, key).id
      {
        assert ClosingAt(s, d, id);
      }
    }
  }

  lemma PostedPopup(s: System, t: System, key: string, id: nat)
    requires Shape(s) && Rested(s, key) && Caught(s, key) && Local(s, t, key) && t.answers == s.answers
    requires EntryOf(t.n, key).id == EntryOf(s.n, key).id && Up(s, id, key)
    ensures PopupOk(t, id, key)
  {
    assert PopupOk(s, id, key);
    if d: nat :| ClosingAt(s, d, id) { assert ClosingAt(t, d, id); }
    assert forall other: nat :: Up(t, other, key) <==> Up(s, other, key);
    assert forall p: nat :: Unheard(t, p, id) <==> Unheard(s, p, id);
  }

  lemma Posted(s: System, t: System, key: string, alert: Alert)
    requires Shape(s) && Rested(s, key) && Caught(s, key) && Local(s, t, key) && t.answers == s.answers
    requires var e := EntryOf(s.n, key);
             && t.n.sent == s.n.sent + [Notify(key, alert, e.id)] && key in t.n.entries
             && t.n.entries[key] == Entry(e.id, true, None, false)
    requires key in t.wanted && t.wanted[key] == alert
    ensures KeyOk(t, key)
  {
    PostedCall(s, t, key, alert);
    forall id: nat | Up(t, id, key) ensures PopupOk(t, id, key) {
      assert Up(s, id, key);
      PostedPopup(s, t, key, id);
    }
  }

  // A chat with none out is dropped, and closed if it had an id.
  lemma Dropped(s: System, t: System, key: string)
    requires Shape(s) && Rested(s, key) && Local(s, t, key) && t.answers == s.answers
    requires var e := EntryOf(s.n, key);
             t.n.sent == if e.id != 0 then s.n.sent + [Close(e.id)] else s.n.sent
    requires key !in t.n.entries && key !in t.wanted
    ensures KeyOk(t, key)
  {
    var e := EntryOf(s.n, key);
    forall c: nat ensures !Out(t, c, key) { assert !Out(s, c, key); }
    if e.id != 0 { assert ClosingAt(t, |s.n.sent|, e.id); }
    forall id: nat | Up(t, id, key) ensures PopupOk(t, id, key) {
      assert Up(s, id, key) && PopupKnown(s, id, key);
      if d: nat :| ClosingAt(s, d, id) { assert ClosingAt(t, d, id); }
      assert forall other: nat :: Up(t, other, key) <==> Up(s, other, key);
    }
  }

  // --------------------------------------------------------------- the commands

  ghost predicate Live(s: System) { Whole(s) && s.n.available }

  // A step about one chat only has that chat to answer for.
  lemma LocalWhole(s: System, t: System, key: string)
    requires Live(s) && Local(s, t, key) && key != "" && KeyOk(t, key)
    requires t.n.available && t.n.resolved && t.n.held == map[] && Inverse(t.n)
    ensures Live(t)
  {
    OthersKeep(s, t, key);
    forall d: nat, id: nat | ClosingAt(t, d, id) ensures id in t.owner {
      if d < |s.n.sent| { assert ClosingAt(s, d, id); }
    }
    assert Gated(t);
    assert forall p: nat, id: nat :: Unheard(t, p, id) ==> Unheard(s, p, id);
    assert forall c: nat | c in t.answers :: c in s.answers;
    assert forall id: nat | id in t.popups :: Owns(s, t.popups[id].key, id);
    assert Shape(t);
    assert forall j :: KeyOk(t, j);
  }

  ghost function Wanting(s: System, key: string, alert: Alert): System {
    Commanded(s, Showing(s.n, key, alert), s.wanted[key := alert])
  }

  ghost function Unwanting(s: System, key: string): System {
    Commanded(s, Retracting(s.n, key), s.wanted - {key})
  }

  // In flight already: the alert waits, and takes the place of what waited.
  lemma Queued(s: System, t: System, key: string, e: Entry)
    requires Live(s) && Local(s, t, key) && EntryOf(s.n, key).inFlight
    requires t.n == s.n.(entries := s.n.entries[key := e]) && t.answers == s.answers
    requires e.id == EntryOf(s.n, key).id && e.inFlight
    requires e.retractQueued ==> e.queued.None? && key !in t.wanted
    requires e.queued.Some? ==> key in t.wanted && t.wanted[key] == e.queued.value
    requires e.retractQueued || e.queued.Some?
    ensures KeyOk(t, key) && Inverse(t.n)
  {
    assert KeyOk(s, key);
    assert forall c: nat :: Out(t, c, key) <==> Out(s, c, key);
    forall c: nat | Out(t, c, key) ensures CallOk(t, c, key) {
      assert Out(s, c, key) && CallOk(s, c, key);
      assert forall d: nat, id: nat :: ClosingAt(t, d, id) <==> ClosingAt(s, d, id);
    }
    forall id: nat | Up(t, id, key) ensures PopupOk(t, id, key) {
      assert Up(s, id, key) && PopupOk(s, id, key);
      SamePopup(s, t, id, key);
    }
  }

  lemma SamePopup(s: System, t: System, id: nat, key: string)
    requires t == s.(n := t.n, wanted := t.wanted) && t.n.sent == s.n.sent
    requires EntryOf(t.n, key).id == EntryOf(s.n, key).id
    requires PopupOk(s, id, key)
    ensures PopupOk(t, id, key)
  {
    assert forall d: nat :: ClosingAt(t, d, id) <==> ClosingAt(s, d, id);
    assert forall c: nat :: Out(t, c, key) <==> Out(s, c, key);
    assert forall other: nat :: Up(t, other, key) <==> Up(s, other, key);
    assert forall p: nat :: Unheard(t, p, id) <==> Unheard(s, p, id);
  }

  lemma ShowWhole(s: System, key: string, alert: Alert)
    requires Live(s) && key != ""
    ensures Live(Wanting(s, key, alert))
  {
    var t, e := Wanting(s, key, alert), EntryOf(s.n, key);
    assert KeyOk(s, key);
    if e.inFlight {
      Queued(s, t, key, e.(queued := Some(alert), retractQueued := false));
    } else {
      IdleIsRested(s, key);
      Posted(s, t, key, alert);
    }
    LocalWhole(s, t, key);
  }

  lemma RetractWhole(s: System, key: string)
    requires Live(s)
    ensures Live(Unwanting(s, key))
  {
    var t, e := Unwanting(s, key), EntryOf(s.n, key);
    if key == "" {
      assert t == s;
    } else {
      assert KeyOk(s, key);
      if e.inFlight {
        Queued(s, t, key, e.(queued := None, retractQueued := true));
      } else {
        IdleIsRested(s, key);
        Dropped(s, t, key);
      }
      LocalWhole(s, t, key);
    }
  }

  lemma {:induction false} RetractEachWhole(s: System, keys: seq<string>)
    requires Live(s)
    ensures var t := Commanded(s, RetractingEach(s.n, keys), s.wanted - (set k | k in keys));
            Live(t) && t.n.entries.Keys <= s.n.entries.Keys
    decreases |keys|
  {
    if keys == [] {
      assert s.wanted - (set k | k in keys) == s.wanted;
    } else {
      RetractWhole(s, keys[0]);
      var u := Unwanting(s, keys[0]);
      RetractEachWhole(u, keys[1..]);
      assert forall k :: k in keys <==> k == keys[0] || k in keys[1..];
      assert u.wanted - (set k | k in keys[1..]) == s.wanted - (set k | k in keys);
      assert RetractingEach(s.n, keys) == RetractingEach(u.n, keys[1..]);
    }
  }

  // Taking back what has no entry changes nothing but the wish itself.
  lemma ForgetRest(s: System)
    requires Live(s) && forall k | k in s.wanted :: k !in s.n.entries
    ensures Live(s.(wanted := map[]))
  {
    var t := s.(wanted := map[]);
    forall k ensures KeyOk(t, k) {
      if k in s.wanted {
        RetractWhole(s, k);
        AlikeKeeps(Unwanting(s, k), t, k);
      } else {
        AlikeKeeps(s, t, k);
      }
    }
    SameShape(s, t);
  }

  lemma SameShape(s: System, t: System)
    requires Shape(s) && t == s.(wanted := t.wanted) && "" !in t.wanted
    ensures Shape(t)
  {
    assert forall d: nat, id: nat :: ClosingAt(t, d, id) ==> ClosingAt(s, d, id);
    assert forall p: nat, id: nat :: Unheard(t, p, id) ==> Unheard(s, p, id);
    assert forall id: nat | id in t.popups :: Owns(s, t.popups[id].key, id);
  }

  lemma {:induction false} RetractingNothing(n: Notifier, order: seq<string>)
    requires n.entries == map[] && n.held == map[]
    ensures RetractingEach(n, order) == n
    decreases |order|
  {
    if order != [] {
      assert Retracting(n, order[0]) == n;
      RetractingNothing(n, order[1..]);
    }
  }

  lemma RetractAllWhole(s: System, order: seq<string>)
    requires Whole(s) && Able(s, RetractAll(order))
    ensures Whole(After(s, RetractAll(order)))
  {
    if s.n.available {
      assert s.n.(held := map[]) == s.n;
      RetractEachWhole(s, order);
      var t := Commanded(s, RetractingEach(s.n, order), s.wanted - (set k | k in order));
      forall k | k in t.wanted ensures k !in t.n.entries {
        assert k !in order;
      }
      ForgetRest(t);
    } else {
      RetractingNothing(s.n.(held := map[]), order);
      StillIdle(s, After(s, RetractAll(order)));
    }
  }

  // With no daemon to talk to, commands only change what is held and wanted.
  lemma StillIdle(s: System, t: System)
    requires Whole(s) && !s.n.available && t == s.(n := t.n, wanted := t.wanted)
    requires t.n == s.n.(resolved := t.n.resolved, held := t.n.held)
    requires "" !in t.wanted && "" !in t.n.held
    requires (t.n.resolved ==> t.n.held == map[]) && (!t.n.resolved ==> t.wanted == t.n.held)
    ensures Whole(t)
  {
    assert forall p: nat, id: nat :: Unheard(t, p, id) ==> Unheard(s, p, id);
  }

  lemma {:induction false} ShowEachWhole(s: System, keys: seq<string>, alerts: map<string, Alert>)
    requires Live(s) && (forall k | k in keys :: k in alerts) && "" !in keys
    ensures Live(Commanded(s, ShowingEach(s.n, keys, alerts),
                           s.wanted + (map k | k in keys && k in alerts :: alerts[k])))
    decreases |keys|
  {
    if keys == [] {
      NoneWanted(s.wanted, keys, alerts);
    } else {
      ShowWhole(s, keys[0], alerts[keys[0]]);
      var u := Wanting(s, keys[0], alerts[keys[0]]);
      ShowEachWhole(u, keys[1..], alerts);
      OneMoreWanted(s.wanted, keys, alerts);
    }
  }

  lemma NoneWanted(wanted: map<string, Alert>, keys: seq<string>, alerts: map<string, Alert>)
    requires |keys| == 0
    ensures wanted + (map k | k in keys && k in alerts :: alerts[k]) == wanted
  {}

  lemma OneMoreWanted(wanted: map<string, Alert>, keys: seq<string>, alerts: map<string, Alert>)
    requires keys != [] && forall k | k in keys :: k in alerts
    ensures wanted[keys[0] := alerts[keys[0]]] + (map k | k in keys[1..] && k in alerts :: alerts[k])
         == wanted + (map k | k in keys && k in alerts :: alerts[k])
  {
    assert forall k :: k in keys <==> k == keys[0] || k in keys[1..];
  }

  lemma ResolveWhole(s: System, ok: bool, order: seq<string>)
    requires Whole(s) && Able(s, Resolve(ok, order))
    ensures Whole(After(s, Resolve(ok, order)))
  {
    if ok {
      var b := Commanded(s, s.n.(resolved := true, available := true, held := map[]), map[]);
      forall k ensures KeyOk(b, k) {}
      assert forall p: nat, id: nat :: Unheard(b, p, id) ==> Unheard(s, p, id);
      ShowEachWhole(b, order, s.n.held);
      assert b.wanted + (map k | k in order && k in s.n.held :: s.n.held[k]) == s.n.held;
    } else {
      StillIdle(s, After(s, Resolve(ok, order)));
    }
  }

  lemma CommandWhole(s: System, m: Move)
    requires Whole(s) && Able(s, m) && (m.Show? || m.Retract?)
    ensures Whole(After(s, m))
  {
    if m.Show? {
      if s.n.available { ShowWhole(s, m.key, m.alert); } else { StillIdle(s, After(s, m)); }
    } else {
      if s.n.available { RetractWhole(s, m.key); } else { StillIdle(s, After(s, m)); }
    }
  }

  // ------------------------------------------------------- answers and signals

  // Everything a returning answer settles, before the queue is looked at.
  ghost function Answered(s: System, call: nat): System
    requires call in s.answers && call < |s.n.sent| && s.n.sent[call].Notify?
    requires s.n.sent[call].key in s.n.entries
  {
    var a := s.answers[call];
    s.(n := Landing(s.n, s.n.sent[call].key, a.id, a.ok), answers := s.answers - {call})
  }

  // An answer that comes in its turn finds no word of an earlier closing out.
  lemma NoneUnheard(s: System, call: nat, id: nat)
    requires Able(s, Return(call)) && InOrder(s, call) && !EntryOf(s.n, s.n.sent[call].key).retractQueued
    requires FlightOk(s, s.n.sent[call].key) && CallOk(s, call, s.n.sent[call].key)
    requires Up(s, id, s.n.sent[call].key) && PopupOk(s, id, s.n.sent[call].key) && id != 0
    ensures (exists d: nat :: ClosingAt(s, d, id)) || forall p: nat :: !Unheard(s, p, id)
  {
    assert Out(s, call, s.n.sent[call].key);
  }

  lemma AnsweredKnown(s: System, call: nat, id: nat)
    requires Live(s) && Able(s, Return(call))
    requires s.n.sent[call].key in s.n.entries && Up(s, id, s.n.sent[call].key)
    ensures PopupKnown(Answered(s, call), id, s.n.sent[call].key)
  {
    var key, t := s.n.sent[call].key, Answered(s, call);
    assert KeyOk(s, key) && Out(s, call, key) && CallOk(s, call, key) && PopupOk(s, id, key);
    assert forall d: nat :: ClosingAt(t, d, id) <==> ClosingAt(s, d, id);
    assert forall other: nat :: Up(t, other, key) <==> Up(s, other, key);
  }

  lemma AnsweredPopup(s: System, call: nat, id: nat)
    requires Live(s) && Possible(s, Return(call)) && !EntryOf(s.n, s.n.sent[call].key).retractQueued
    requires s.n.sent[call].key in s.n.entries && Up(s, id, s.n.sent[call].key)
    ensures PopupOk(Answered(s, call), id, s.n.sent[call].key)
  {
    var key, t := s.n.sent[call].key, Answered(s, call);
    assert KeyOk(s, key) && Out(s, call, key) && CallOk(s, call, key) && PopupOk(s, id, key);
    assert forall d: nat :: ClosingAt(t, d, id) <==> ClosingAt(s, d, id);
    AnsweredKnown(s, call, id);
    NoneUnheard(s, call, id);
    assert forall p: nat :: Unheard(t, p, id) ==> Unheard(s, p, id);
  }

  lemma AnsweredCaught(s: System, call: nat)
    requires Live(s) && Possible(s, Return(call)) && !EntryOf(s.n, s.n.sent[call].key).retractQueued
    requires s.n.sent[call].key in s.n.entries
    ensures Caught(Answered(s, call), s.n.sent[call].key)
  {
    var key, t := s.n.sent[call].key, Answered(s, call);
    forall id: nat | Up(t, id, key) ensures PopupOk(t, id, key) {
      assert Up(s, id, key);
      AnsweredPopup(s, call, id);
    }
  }

  lemma AnsweredInverse(s: System, call: nat)
    requires Live(s) && Able(s, Return(call)) && s.n.sent[call].key in s.n.entries
    ensures Inverse(Answered(s, call).n)
  {
    var key, a := s.n.sent[call].key, s.answers[call];
    assert KeyOk(s, key) && Out(s, call, key) && CallOk(s, call, key);
    if a.ok {
      forall k | k in s.n.entries && k != key && s.n.entries[k].id != 0 ensures s.n.entries[k].id != a.id {
        assert KeyOk(s, k) && Owns(s, key, a.id);
      }
    }
  }

  lemma AnsweredWant(s: System, call: nat)
    requires Live(s) && Able(s, Return(call)) && s.n.sent[call].key in s.n.entries
    ensures WantOk(Answered(s, call), s.n.sent[call].key)
  {
    var key, t := s.n.sent[call].key, Answered(s, call);
    assert KeyOk(s, key) && Out(s, call, key);
    if key in s.wanted && key !in s.lapsed && EntryOf(s.n, key).queued.None? {
      forall c: nat | Out(s, c, key) ensures c < s.taken { assert c == call; }
      var id: nat :| ShowsWanted(s, id, key);
      assert forall d: nat :: ClosingAt(t, d, id) <==> ClosingAt(s, d, id);
      assert ShowsWanted(t, id, key);
    }
  }

  lemma AnsweredRests(s: System, call: nat)
    requires Live(s) && Able(s, Return(call))
    ensures s.n.sent[call].key in s.n.entries && s.n.entries[s.n.sent[call].key].inFlight
    ensures var key, t := s.n.sent[call].key, Answered(s, call);
            && Rested(t, key) && Shape(t) && Inverse(t.n) && Local(s, t, key) && WantOk(t, key)
            && (var e, f := s.n.entries[key], t.n.entries[key];
                f.queued == e.queued && f.retractQueued == e.retractQueued && !f.inFlight)
  {
    var key := s.n.sent[call].key;
    assert KeyOk(s, key) && Out(s, call, key) && CallOk(s, call, key);
    var t := Answered(s, call);
    forall c: nat ensures !Out(t, c, key) {
      assert Out(t, c, key) ==> Out(s, c, key);
    }
    forall id: nat | Up(t, id, key) ensures PopupKnown(t, id, key) {
      assert Up(s, id, key);
      AnsweredKnown(s, call, id);
    }
    assert forall d: nat, id: nat :: ClosingAt(t, d, id) <==> ClosingAt(s, d, id);
    assert forall p: nat, id: nat :: Unheard(t, p, id) ==> Unheard(s, p, id);
    AnsweredInverse(s, call);
    AnsweredWant(s, call);
  }

  lemma SameView(s: System, t: System, key: string)
    requires Rested(s, key) && Caught(s, key) && WantOk(s, key)
    requires t == s.(n := t.n) && t.n.sent == s.n.sent
    requires EntryOf(t.n, key).id == EntryOf(s.n, key).id && EntryOf(t.n, key).queued == EntryOf(s.n, key).queued
    ensures Rested(t, key) && Caught(t, key) && WantOk(t, key)
  {
    assert forall c: nat :: Out(t, c, key) <==> Out(s, c, key);
    assert forall d: nat, id: nat :: ClosingAt(t, d, id) <==> ClosingAt(s, d, id);
    forall id: nat | Up(t, id, key) ensures PopupOk(t, id, key) {
      assert Up(s, id, key);
      SamePopup(s, t, id, key);
    }
    if id: nat :| ShowsWanted(s, id, key) { assert ShowsWanted(t, id, key); }
  }

  lemma SettlingRetracts(n: Notifier, key: string)
    requires key in n.entries && n.held == map[]
    requires !n.entries[key].inFlight && n.entries[key].retractQueued
    ensures var e := n.entries[key];
            Settling(n, key) == n.(entries := n.entries - {key},
              byId := if e.id != 0 then n.byId - {e.id} else n.byId,
              sent := if e.id != 0 then n.sent + [Close(e.id)] else n.sent)
  {
    var e := n.entries[key];
    assert n.entries[key := e.(retractQueued := false)] - {key} == n.entries - {key};
    assert n.held - {key} == n.held;
  }

  lemma DroppedNext(mid: System, t: System, key: string)
    requires Shape(mid) && Inverse(mid.n) && Rested(mid, key) && key in mid.n.entries && mid.n.held == map[]
    requires var e := mid.n.entries[key];
             e.retractQueued && key !in mid.wanted && !e.inFlight && t == mid.(n := Settling(mid.n, key))
    ensures KeyOk(t, key) && Inverse(t.n) && Local(mid, t, key)
  {
    SettlingRetracts(mid.n, key);
    Dropped(mid, t, key);
  }

  lemma ReturnRetracts(s: System, call: nat)
    requires Live(s) && Able(s, Return(call))
    requires EntryOf(s.n, s.n.sent[call].key).retractQueued
    ensures var key, t := s.n.sent[call].key, Returned(s, call);
            KeyOk(t, key) && Inverse(t.n) && Local(s, t, key) && t.n.available && t.n.resolved && t.n.held == map[]
  {
    AnsweredRests(s, call);
    var key := s.n.sent[call].key;
    assert EntryOk(s, key) by { assert KeyOk(s, key); }
    DroppedNext(Answered(s, call), Returned(s, call), key);
    LocalThrough(s, Answered(s, call), Returned(s, call), key);
  }

  lemma SettlingSends(n: Notifier, key: string)
    requires key in n.entries && !n.entries[key].retractQueued && n.entries[key].queued.Some?
    ensures var e := n.entries[key];
            Settling(n, key) == n.(entries := n.entries[key := e.(queued := None, inFlight := true)],
                                   sent := n.sent + [Notify(key, e.queued.value, e.id)])
  {}

  lemma PostedNext(mid: System, t: System, key: string)
    requires Shape(mid) && Inverse(mid.n) && Rested(mid, key) && Caught(mid, key) && key in mid.n.entries
    requires var e := mid.n.entries[key];
             && e.queued.Some? && !e.retractQueued && key in mid.wanted && mid.wanted[key] == e.queued.value
             && !e.inFlight && t == mid.(n := Settling(mid.n, key))
    ensures KeyOk(t, key) && Inverse(t.n) && Local(mid, t, key)
  {
    SettlingSends(mid.n, key);
    Posted(mid, t, key, mid.n.entries[key].queued.value);
  }

  lemma LocalThrough(s: System, mid: System, t: System, key: string)
    requires Local(s, mid, key) && mid.n.sent == s.n.sent && Local(mid, t, key) && t.answers == mid.answers
    ensures Local(s, t, key)
  {}

  lemma ReturnSendsQueued(s: System, call: nat)
    requires Live(s) && Possible(s, Return(call))
    requires EntryOf(s.n, s.n.sent[call].key).queued.Some?
    ensures var key, t := s.n.sent[call].key, Returned(s, call);
            KeyOk(t, key) && Inverse(t.n) && Local(s, t, key) && t.n.available && t.n.resolved && t.n.held == map[]
  {
    AnsweredRests(s, call);
    var key := s.n.sent[call].key;
    assert EntryOk(s, key) by { assert KeyOk(s, key); }
    AnsweredCaught(s, call);
    PostedNext(Answered(s, call), Returned(s, call), key);
    LocalThrough(s, Answered(s, call), Returned(s, call), key);
  }

  lemma ReturnRests(s: System, call: nat)
    requires Live(s) && Possible(s, Return(call))
    requires var e := EntryOf(s.n, s.n.sent[call].key); e.queued.None? && !e.retractQueued
    ensures var key, t := s.n.sent[call].key, Returned(s, call);
            KeyOk(t, key) && Inverse(t.n) && Local(s, t, key) && t.n.available && t.n.resolved && t.n.held == map[]
  {
    AnsweredRests(s, call);
    var key := s.n.sent[call].key;
    assert KeyOk(s, key) && Out(s, call, key) && CallOk(s, call, key);
    AnsweredCaught(s, call);
    SameView(Answered(s, call), Returned(s, call), key);
  }

  lemma ReturnWhole(s: System, call: nat)
    requires Live(s) && Possible(s, Return(call))
    ensures Live(Returned(s, call))
  {
    var key := s.n.sent[call].key;
    if EntryOf(s.n, key).retractQueued {
      ReturnRetracts(s, call);
    } else if EntryOf(s.n, key).queued.Some? {
      ReturnSendsQueued(s, call);
    } else {
      ReturnRests(s, call);
    }
    assert Out(s, call, key) && KeyOk(s, key);
    LocalWhole(s, Returned(s, call), key);
  }

  // ------------------------------------------------------------------ a signal

  lemma HeardPopup(s: System, id: nat, key: string)
    requires Live(s) && s.heard < |s.signals| && Up(s, id, key)
    ensures PopupOk(After(s, Hear), id, key)
  {
    var t := After(s, Hear);
    assert KeyOk(s, key) && PopupOk(s, id, key);
    assert forall d: nat :: ClosingAt(t, d, id) <==> ClosingAt(s, d, id);
    assert forall c: nat :: Out(t, c, key) <==> Out(s, c, key);
    assert forall other: nat :: Up(t, other, key) <==> Up(s, other, key);
    if s.signals[s.heard] == id {
      assert Unheard(s, s.heard, id);
    }
    if forall d: nat :: !ClosingAt(s, d, id) {
      forall p: nat | Unheard(t, p, id)
        ensures exists c: nat :: Out(t, c, key) && c in t.answers && t.answers[c].id == id && p < t.answers[c].behind
      {
        assert Unheard(s, p, id);
      }
    }
  }

  // A live id is struck out of both tables, and with it an entry left with
  // nothing to do.
  lemma ClosedEffect(n: Notifier, id: nat)
    requires Inverse(n) && "" !in n.entries
    ensures id !in n.byId ==>
              Closed(n, id) == n && forall k | k in n.entries :: n.entries[k].id == 0 || n.entries[k].id != id
    ensures id in n.byId ==>
              var key := n.byId[id];
              && key in n.entries && n.entries[key].id == id && id != 0
              && (var e := n.entries[key].(id := 0);
                  Closed(n, id) == n.(byId := n.byId - {id},
                    entries := if !e.inFlight && e.queued.None? && !e.retractQueued
                               then n.entries - {key} else n.entries[key := e]))
  {}

  lemma HearInverse(n: Notifier, id: nat)
    requires Inverse(n) && "" !in n.entries
    ensures Inverse(Closed(n, id))
  {
    ClosedEffect(n, id);
    if id in n.byId {
      forall k | k in n.entries && k != n.byId[id] && n.entries[k].id != 0 ensures n.entries[k].id != id {
        assert n.byId[n.entries[k].id] == k;
      }
    }
  }

  lemma HearPart(s: System, key: string)
    requires Live(s) && s.heard < |s.signals|
    ensures var t := After(s, Hear);
            EntryOk(t, key) && FlightOk(t, key) && forall c: nat | Out(t, c, key) :: CallOk(t, c, key)
  {
    var t := After(s, Hear);
    ClosedEffect(s.n, s.signals[s.heard]);
    assert KeyOk(s, key);
    assert forall c: nat :: Out(t, c, key) <==> Out(s, c, key);
    assert forall d: nat, x: nat :: ClosingAt(t, d, x) <==> ClosingAt(s, d, x);
    assert EntryOf(t.n, key).inFlight == EntryOf(s.n, key).inFlight;
    forall c: nat | Out(t, c, key) ensures CallOk(t, c, key) { assert CallOk(s, c, key); }
  }

  lemma HearWant(s: System, key: string)
    requires Live(s) && s.heard < |s.signals|
    ensures WantOk(After(s, Hear), key)
  {
    var t := After(s, Hear);
    ClosedEffect(s.n, s.signals[s.heard]);
    assert KeyOk(s, key);
    assert forall c: nat :: Out(t, c, key) <==> Out(s, c, key);
    assert forall d: nat, x: nat :: ClosingAt(t, d, x) <==> ClosingAt(s, d, x);
    if x: nat :| ShowsWanted(s, x, key) { assert ShowsWanted(t, x, key); }
  }

  lemma HearKeeps(s: System, key: string)
    requires Live(s) && s.heard < |s.signals|
    ensures KeyOk(After(s, Hear), key)
  {
    var t := After(s, Hear);
    ClosedEffect(s.n, s.signals[s.heard]);
    assert KeyOk(s, key);
    HearPart(s, key);
    HearWant(s, key);
    assert forall d: nat, x: nat :: ClosingAt(t, d, x) <==> ClosingAt(s, d, x);
    forall d: nat, id: nat | ClosingAt(t, d, id) && Owns(t, key, id) ensures EntryOf(t.n, key).id != id {
      assert ClosingAt(s, d, id) && Owns(s, key, id);
    }
    forall x: nat | Up(t, x, key) ensures PopupOk(t, x, key) {
      assert Up(s, x, key);
      HeardPopup(s, x, key);
    }
  }

  lemma HearWhole(s: System)
    requires Whole(s) && s.heard < |s.signals|
    ensures Whole(After(s, Hear))
  {
    var t := After(s, Hear);
    assert forall d: nat, id: nat :: ClosingAt(t, d, id) <==> ClosingAt(s, d, id);
    assert forall p: nat, id: nat :: Unheard(t, p, id) ==> Unheard(s, p, id);
    if s.n.available {
      forall k ensures KeyOk(t, k) { HearKeeps(s, k); }
      HearInverse(s.n, s.signals[s.heard]);
    }
  }

  // ------------------------------------------------------------ the daemon's part

  // The daemon takes a Notify, or refuses it: only that chat is concerned.
  lemma OthersWait(s: System, t: System, key: string, j: string, id: nat)
    requires Shape(s) && s.taken < |s.n.sent| && s.n.sent[s.taken].Notify? && s.n.sent[s.taken].key == key
    requires j != key && KeyOk(s, j)
    requires t == Refused(s, key)
             || (t == Accepted(s, key, s.n.sent[s.taken].alert, id) && !(id in s.owner && s.owner[id] != key))
    ensures KeyOk(t, j)
  {
    assert forall c: nat :: Out(t, c, j) <==> Out(s, c, j);
    assert forall d: nat, x: nat :: ClosingAt(t, d, x) <==> ClosingAt(s, d, x);
    AlikeKeeps(s, t, j);
  }

  lemma RefusedKeeps(s: System, key: string)
    requires Live(s) && s.taken < |s.n.sent| && s.n.sent[s.taken].Notify? && s.n.sent[s.taken].key == key
    ensures KeyOk(Refused(s, key), key)
  {
    var t := Refused(s, key);
    assert KeyOk(s, key);
    assert forall c: nat :: Out(t, c, key) <==> Out(s, c, key);
    assert forall d: nat, x: nat :: ClosingAt(t, d, x) <==> ClosingAt(s, d, x);
    forall c: nat | Out(t, c, key) ensures CallOk(t, c, key) { assert CallOk(s, c, key); }
    forall x: nat | Up(t, x, key) ensures PopupOk(t, x, key) {
      assert Up(s, x, key) && PopupOk(s, x, key);
      assert forall other: nat :: Up(t, other, key) <==> Up(s, other, key);
      assert forall p: nat :: Unheard(t, p, x) <==> Unheard(s, p, x);
    }
  }

  // Whatever this chat still has up, the daemon is about to rewrite.
  lemma OnlyRewritten(s: System, key: string, id: nat, x: nat)
    requires Live(s) && Out(s, s.taken, key) && Up(s, x, key)
    ensures x == s.n.sent[s.taken].over
  {
    assert KeyOk(s, key) && PopupOk(s, x, key) && CallOk(s, s.taken, key);
    assert s.taken !in s.answers;
  }

  lemma NewlyUp(s: System, key: string, id: nat)
    requires Live(s) && Out(s, s.taken, key)
    requires id == s.n.sent[s.taken].over || (s.n.sent[s.taken].over == 0 && id !in s.owner)
    requires id != 0
    ensures var t := Accepted(s, key, s.n.sent[s.taken].alert, id);
            && Up(t, id, key) && PopupOk(t, id, key) && (forall x: nat | Up(t, x, key) :: x == id)
            && (forall d: nat :: !ClosingAt(t, d, id))
  {
    var t := Accepted(s, key, s.n.sent[s.taken].alert, id);
    assert KeyOk(s, key) && CallOk(s, s.taken, key);
    assert Out(t, s.taken, key);
    forall x: nat | Up(t, x, key) ensures x == id {
      if x != id {
        assert Up(s, x, key);
        OnlyRewritten(s, key, id, x);
      }
    }
    forall d: nat ensures !ClosingAt(t, d, id) {
      assert ClosingAt(t, d, id) ==> ClosingAt(s, d, id);
    }
  }

  lemma AcceptedCalls(s: System, key: string, id: nat)
    requires Live(s) && Out(s, s.taken, key)
    requires id == s.n.sent[s.taken].over || (s.n.sent[s.taken].over == 0 && id !in s.owner)
    requires id != 0
    ensures var t := Accepted(s, key, s.n.sent[s.taken].alert, id);
            && FlightOk(t, key) && EntryOk(t, key) && (forall c: nat | Out(t, c, key) :: CallOk(t, c, key))
            && (forall d: nat, x: nat | ClosingAt(t, d, x) && Owns(t, key, x) :: EntryOf(t.n, key).id != x)
  {
    var t := Accepted(s, key, s.n.sent[s.taken].alert, id);
    assert KeyOk(s, key) && CallOk(s, s.taken, key);
    assert forall c: nat :: Out(t, c, key) <==> Out(s, c, key);
    assert forall d: nat, x: nat :: ClosingAt(t, d, x) ==> ClosingAt(s, d, x) && x in s.owner;
    assert forall x: nat | Owns(t, key, x) && x in s.owner :: Owns(s, key, x);
  }

  lemma AcceptedKeeps(s: System, key: string, id: nat)
    requires Live(s) && Out(s, s.taken, key)
    requires id == s.n.sent[s.taken].over || (s.n.sent[s.taken].over == 0 && id !in s.owner)
    requires id != 0
    ensures KeyOk(Accepted(s, key, s.n.sent[s.taken].alert, id), key)
  {
    var t := Accepted(s, key, s.n.sent[s.taken].alert, id);
    assert KeyOk(s, key) && CallOk(s, s.taken, key);
    AcceptedCalls(s, key, id);
    NewlyUp(s, key, id);
    if key in t.wanted && EntryOf(t.n, key).queued.None? {
      assert key in s.n.entries;
      assert ShowsWanted(t, id, key);
    }
  }

  // A popup goes: dismissed, or closed because the notifier said so.
  ghost predicate Goes(s: System, t: System, id: nat) {
    && id in s.popups && t == Gone(s, id).(taken := t.taken, lapsed := t.lapsed)
    && ((t.taken == s.taken + 1 && ClosingAt(s, s.taken, id) && t.lapsed == s.lapsed)
        || (t.taken == s.taken && t.lapsed == s.lapsed + {s.popups[id].key}))
  }

  lemma GoneElsewhere(s: System, t: System, id: nat, j: string)
    requires Live(s) && Goes(s, t, id) && j != s.popups[id].key
    ensures KeyOk(t, j)
  {
    assert KeyOk(s, j) && Owns(s, s.popups[id].key, id);
    assert forall c: nat :: Out(t, c, j) <==> Out(s, c, j);
    assert forall p: nat, x: nat | Owns(s, j, x) :: Unheard(t, p, x) ==> Unheard(s, p, x);
    AlikeKeeps(s, t, j);
  }

  lemma GoneWant(s: System, t: System, id: nat, key: string)
    requires Goes(s, t, id) && key == s.popups[id].key && WantOk(s, key) && PopupOk(s, id, key)
    ensures WantOk(t, key)
  {
    assert forall c: nat :: Out(t, c, key) <==> Out(s, c, key);
    assert forall x: nat | ShowsWanted(s, x, key) :: Up(s, x, key);
  }

  lemma GoneOwn(s: System, t: System, id: nat, key: string)
    requires Live(s) && Goes(s, t, id) && key == s.popups[id].key
    ensures KeyOk(t, key)
  {
    assert KeyOk(s, key) && Up(s, id, key) && PopupOk(s, id, key);
    assert forall c: nat :: Out(t, c, key) <==> Out(s, c, key);
    assert forall d: nat, x: nat :: ClosingAt(t, d, x) ==> ClosingAt(s, d, x);
    forall c: nat | Out(t, c, key) ensures CallOk(t, c, key) { assert CallOk(s, c, key); }
    assert forall x: nat :: Up(t, x, key) ==> Up(s, x, key) && x != id;
    GoneWant(s, t, id, key);
  }

  lemma GoneKeeps(s: System, t: System, id: nat, j: string)
    requires Live(s) && Goes(s, t, id)
    ensures KeyOk(t, j)
  {
    if j == s.popups[id].key { GoneOwn(s, t, id, j); } else { GoneElsewhere(s, t, id, j); }
  }

  lemma ClosedInVain(s: System, j: string)
    requires Live(s) && s.taken < |s.n.sent| && s.n.sent[s.taken].Close? && s.n.sent[s.taken].id !in s.popups
    ensures KeyOk(s.(taken := s.taken + 1), j)
  {
    var t, id := s.(taken := s.taken + 1), s.n.sent[s.taken].id;
    assert KeyOk(s, j);
    assert forall c: nat :: Out(t, c, j) <==> Out(s, c, j);
    assert forall d: nat, x: nat | x != id :: ClosingAt(t, d, x) <==> ClosingAt(s, d, x);
    assert forall d: nat, x: nat :: ClosingAt(t, d, x) ==> ClosingAt(s, d, x);
    forall c: nat | Out(t, c, j) ensures CallOk(t, c, j) { assert CallOk(s, c, j); }
    forall x: nat | Up(t, x, j) ensures PopupOk(t, x, j) {
      assert Up(s, x, j) && PopupOk(s, x, j);
      assert forall other: nat :: Up(t, other, j) <==> Up(s, other, j);
      assert forall p: nat :: Unheard(t, p, x) <==> Unheard(s, p, x);
    }
    if x: nat :| ShowsWanted(s, x, j) { assert ShowsWanted(t, x, j); }
  }

  // What the daemon's moves can do to the tables, in general.
  lemma DaemonShape(s: System, t: System)
    requires Shape(s) && t == s.(taken := t.taken, answers := t.answers, signals := t.signals,
                                 popups := t.popups, owner := t.owner, others := t.others, lapsed := t.lapsed)
    requires s.taken <= t.taken <= |s.n.sent| && s.signals <= t.signals && s.others <= t.others
    requires s.owner.Keys <= t.owner.Keys && 0 !in t.owner && t.owner.Keys !! t.others
    requires forall p: nat | |s.signals| <= p < |t.signals| :: t.signals[p] in t.owner || t.signals[p] in t.others
    requires forall c: nat | c in t.answers && c !in s.answers ::
               c < t.taken && s.n.sent[c].Notify? && t.answers[c].behind <= |t.signals|
    requires forall c: nat | c in t.answers && c in s.answers :: t.answers[c] == s.answers[c]
    requires forall id: nat | id in t.popups :: Owns(t, t.popups[id].key, id)
    ensures Shape(t)
  {
    assert forall d: nat, id: nat :: ClosingAt(t, d, id) ==> ClosingAt(s, d, id);
    forall p: nat, id: nat | Unheard(t, p, id) ensures id in t.owner || id in t.others {
      if p < |s.signals| { assert Unheard(s, p, id); }
    }
  }

  lemma TakeNotifyWhole(s: System, accept: bool, given: nat)
    requires Live(s) && Able(s, Take(accept, given)) && s.n.sent[s.taken].Notify?
    ensures Live(Taken(s, accept, given))
  {
    var call := s.n.sent[s.taken];
    var key, t, id := call.key, Taken(s, accept, given), if call.over != 0 then call.over else given;
    assert Out(s, s.taken, key) && KeyOk(s, key) && CallOk(s, s.taken, key);
    if accept { AcceptedKeeps(s, key, id); } else { RefusedKeeps(s, key); }
    forall j ensures KeyOk(t, j) {
      if j != key { OthersWait(s, t, key, j, id); }
    }
    DaemonShape(s, t);
  }

  lemma TakeCloseWhole(s: System, accept: bool, given: nat)
    requires Live(s) && Able(s, Take(accept, given)) && s.n.sent[s.taken].Close?
    ensures Live(Taken(s, accept, given))
  {
    var id, t := s.n.sent[s.taken].id, Taken(s, accept, given);
    assert ClosingAt(s, s.taken, id);
    forall j ensures KeyOk(t, j) {
      if id in s.popups { GoneKeeps(s, t, id, j); } else { ClosedInVain(s, j); }
    }
    DaemonShape(s, t);
  }

  lemma DismissWhole(s: System, id: nat)
    requires Live(s) && id in s.popups
    ensures Live(After(s, Dismiss(id)))
  {
    var t := After(s, Dismiss(id));
    forall j ensures KeyOk(t, j) { GoneKeeps(s, t, id, j); }
    DaemonShape(s, t);
  }

  lemma ElsewhereWhole(s: System, id: nat)
    requires Whole(s) && id !in s.owner
    ensures Whole(After(s, Elsewhere(id)))
  {
    var t := After(s, Elsewhere(id));
    if s.n.available {
      forall j ensures KeyOk(t, j) {
        assert forall p: nat, x: nat | Owns(s, j, x) :: Unheard(t, p, x) ==> Unheard(s, p, x);
        AlikeKeeps(s, t, j);
      }
    }
    DaemonShape(s, t);
  }

  // ----------------------------------------------------------------- every run

  lemma MoveWhole(s: System, m: Move)
    requires Whole(s) && Possible(s, m)
    ensures Whole(After(s, m))
  {
    match m {
      case Show(_, _) => CommandWhole(s, m);
      case Retract(_) => CommandWhole(s, m);
      case RetractAll(order) => RetractAllWhole(s, order);
      case Resolve(ok, order) => ResolveWhole(s, ok, order);
      case Take(accept, given) =>
        if s.n.sent[s.taken].Notify? { TakeNotifyWhole(s, accept, given); } else { TakeCloseWhole(s, accept, given); }
      case Dismiss(id) => DismissWhole(s, id);
      case Elsewhere(id) => ElsewhereWhole(s, id);
      case Return(call) => ReturnWhole(s, call);
      case Hear => HearWhole(s);
    }
  }

  lemma {:induction false} RunWhole(s: System, moves: seq<Move>)
    requires Whole(s) && Runs(s, moves)
    ensures Whole(AfterAll(s, moves))
    decreases |moves|
  {
    if moves != [] {
      MoveWhole(s, moves[0]);
      RunWhole(After(s, moves[0]), moves[1..]);
    }
  }

  // A notifier just made, connected or not, and a daemon it has never called.
  ghost predicate Started(s: System) {
    && s.n == Notifier(s.n.resolved, false, map[], map[], map[], [])
    && s.taken == 0 && s.answers == map[] && s.signals == [] && s.heard == 0
    && s.popups == map[] && s.owner == map[] && s.others == {}
    && s.wanted == map[] && s.lapsed == {}
  }

  lemma StartedRunWhole(s: System, moves: seq<Move>)
    requires Started(s) && Runs(s, moves)
    ensures Whole(AfterAll(s, moves))
  {
    RunWhole(s, moves);
  }

  // Every call taken and every answer in.
  predicate Quiet(s: System) { s.taken == |s.n.sent| && s.answers == map[] }

  // The screen is what was asked for: nothing for a chat retracted or never
  // shown, and for any other its last alert, in one popup, unless the daemon
  // refused it or the popup has gone of itself since.
  ghost predicate ScreenIsRight(s: System) {
    forall key ::
      && (key !in s.wanted ==> forall id: nat :: !Up(s, id, key))
      && (key in s.wanted && key !in s.lapsed ==>
            exists id: nat :: Up(s, id, key) && s.popups[id].alert == s.wanted[key]
                           && forall x: nat | Up(s, x, key) :: x == id)
  }

  lemma NothingOut(s: System)
    requires Live(s) && Quiet(s)
    ensures forall c: nat, key :: !Out(s, c, key)
    ensures forall d: nat, id: nat :: !ClosingAt(s, d, id)
    ensures forall key :: !EntryOf(s.n, key).inFlight
  {
    forall key ensures !EntryOf(s.n, key).inFlight {
      assert KeyOk(s, key);
    }
  }

  lemma QuietKey(s: System, key: string)
    requires Live(s) && Quiet(s)
    ensures key !in s.wanted ==> forall id: nat :: !Up(s, id, key)
    ensures key in s.wanted && key !in s.lapsed ==>
              exists id: nat :: Up(s, id, key) && s.popups[id].alert == s.wanted[key]
                             && forall x: nat | Up(s, x, key) :: x == id
  {
    NothingOut(s);
    assert KeyOk(s, key);
    forall id: nat | Up(s, id, key) ensures key in s.wanted {
      assert PopupOk(s, id, key) && id != 0;
    }
    if key in s.wanted && key !in s.lapsed {
      var id: nat :| ShowsWanted(s, id, key);
      assert Up(s, id, key) && PopupOk(s, id, key);
    }
  }

  lemma LiveAndQuietIsRight(s: System)
    requires Live(s) && Quiet(s)
    ensures ScreenIsRight(s)
  {
    forall key
      ensures key !in s.wanted ==> forall id: nat :: !Up(s, id, key)
      ensures key in s.wanted && key !in s.lapsed ==>
                exists id: nat :: Up(s, id, key) && s.popups[id].alert == s.wanted[key]
                               && forall x: nat | Up(s, x, key) :: x == id
    {
      QuietKey(s, key);
    }
  }

  // Whatever was shown, retracted, refused, dismissed and answered, and in
  // whatever order: when nothing is out, the screen is right; and at any time a
  // chat has one popup at most and one Notify out at most, anything queued has
  // a Notify out ahead of it, and live ids and chats name each other.
  lemma TheScreenComesRight(s: System, moves: seq<Move>)
    requires Started(s) && Runs(s, moves)
    ensures var t := AfterAll(s, moves);
            && (t.n.available && Quiet(t) ==> ScreenIsRight(t))
            && (forall key, x: nat, y: nat | Up(t, x, key) && Up(t, y, key) :: x == y)
            && (forall key, c: nat, d: nat | Out(t, c, key) && Out(t, d, key) :: c == d)
            && (forall key | key in t.n.entries && !t.n.entries[key].inFlight ::
                  t.n.entries[key].queued.None? && !t.n.entries[key].retractQueued)
            && Inverse(t.n)
  {
    RunWhole(s, moves);
    var t := AfterAll(s, moves);
    if t.n.available {
      if Quiet(t) { LiveAndQuietIsRight(t); }
      forall key, x: nat, y: nat | Up(t, x, key) && Up(t, y, key) ensures x == y {
        assert KeyOk(t, key) && PopupOk(t, x, key);
      }
      forall key, c: nat, d: nat | Out(t, c, key) && Out(t, d, key) ensures c == d {
        assert KeyOk(t, key);
      }
      forall key | key in t.n.entries && !t.n.entries[key].inFlight
        ensures t.n.entries[key].queued.None? && !t.n.entries[key].retractQueued
      {
        assert KeyOk(t, key);
      }
    }
  }

  // With nothing refused and nothing dismissed, no wish lapses.
  lemma {:induction false} NothingLapses(s: System, moves: seq<Move>)
    requires Runs(s, moves) && s.lapsed == {}
    requires forall m | m in moves :: !m.Dismiss? && (m.Take? ==> m.accept)
    ensures AfterAll(s, moves).lapsed == {}
    decreases |moves|
  {
    if moves != [] {
      assert moves[0] in moves;
      NothingLapses(After(s, moves[0]), moves[1..]);
    }
  }

  // A click that names one of our popups opens the chat it is up for, and the
  // chat that id will still be of when it is next rewritten or closed.
  lemma AClickNamesItsChat(s: System, moves: seq<Move>, id: nat)
    requires Started(s) && Runs(s, moves) && id in AfterAll(s, moves).n.byId
    ensures var t := AfterAll(s, moves);
            && t.n.byId[id] != "" && Owns(t, t.n.byId[id], id)
            && (id in t.popups ==> t.popups[id].key == t.n.byId[id])
  {
    RunWhole(s, moves);
    var t := AfterAll(s, moves);
    assert KeyOk(t, t.n.byId[id]) && EntryOk(t, t.n.byId[id]);
  }
}
