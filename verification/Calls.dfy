// The call table: rows built from events, moved by the user, and rebuilt from
// snapshots that may be older than what has happened since.

module CallTable {
  import opened Wrappers

  datatype State = Calling | Ringing | Incoming | Connecting | Active | Ended | Failed

  datatype Direction = Outbound | Inbound | Unstated

  // The backend's own words for a session's state; Other is any word not below.
  datatype Word = SaysRinging | SaysProposed | SaysActive | SaysEnded | SaysFailed | Other

  // order counts the rows as they came in.
  datatype Call = Call(sid: string, account: string, peer: string, direction: Direction, state: State, order: nat)

  // One session as a snapshot lists it; group is "" unless it belongs to a
  // group call.
  datatype Listing = Listing(sid: string, group: string, peer: string, direction: Direction, word: Word,
                             peerRinging: bool)

  // A snapshot on its way: rows numbered above order are younger than it.
  datatype Pending = Pending(account: string, order: nat)

  datatype Table = Table(
    backend: bool,
    calls: seq<Call>,
    lists: map<nat, Pending>,
    dismissed: set<string>,
    order: nat,
    next: nat)                 // the token the backend hands out next

  datatype Event =
    | Connected(account: string)
    | CallOut(account: string, sid: string, peer: string)
    | CallIn(account: string, sid: string, peer: string)
    | PeerRings(account: string, sid: string)
    | Answered(account: string, sid: string)
    | Over(account: string, sid: string)
    | Broke(account: string, sid: string)

  datatype Move =
    | Hear(event: Event)
    | Result(token: nat, rows: seq<Listing>)
    | Error(token: nat)
    | Refresh(account: string)
    | Accept(account: string, sid: string)
    | Hangup(account: string, sid: string)   // or reject
    | Dismiss(account: string, sid: string)

  predicate Terminal(s: State) { s == Ended || s == Failed }

  function Progress(s: State): nat {
    match s
    case Incoming => 0
    case Calling => 0
    case Ringing => 1
    case Connecting => 2
    case Active => 3
    case _ => 4
  }

  // The backend says ringing of a call that came in, where Ringing here is a
  // call that went out and has reached somebody.
  function Reading(word: Word, direction: Direction, peerRinging: bool): State {
    if word == SaysRinging && direction == Inbound then Incoming
    else if word == SaysProposed && direction == Outbound then (if peerRinging then Ringing else Calling)
    else if word == SaysActive then Active
    else if word == SaysEnded then Ended
    else if word == SaysFailed then Failed
    else Connecting
  }

  function Key(account: string, sid: string): string { account + "\n" + sid }

  predicate Names(c: Call, account: string, sid: string) { c.sid == sid && c.account == account }

  function IndexOf(calls: seq<Call>, account: string, sid: string): (i: int)
    ensures -1 <= i < |calls|
    ensures i >= 0 ==> Names(calls[i], account, sid)
    ensures forall j | 0 <= j < (if i >= 0 then i else |calls|) :: !Names(calls[j], account, sid)
  {
    if calls == [] then -1
    else
      var i := IndexOf(calls[..|calls| - 1], account, sid);
      if i >= 0 then i else if Names(calls[|calls| - 1], account, sid) then |calls| - 1 else -1
  }

  // ---------------------------------------------------------------- the steps

  function Inserted(t: Table, c: Call): Table {
    if c.sid == "" || IndexOf(t.calls, c.account, c.sid) >= 0 then t
    else t.(order := t.order + 1, calls := t.calls + [c.(order := t.order + 1)])
  }

  // Terminal is final: a late event does not revive the call.
  function Moved(c: Call, s: State): Call {
    if Terminal(c.state) && !Terminal(s) then c else c.(state := s)
  }

  function StateSet(t: Table, account: string, sid: string, s: State): Table {
    var i := IndexOf(t.calls, account, sid);
    if i < 0 then t else t.(calls := t.calls[i := Moved(t.calls[i], s)])
  }

  function OthersLists(lists: map<nat, Pending>, account: string): map<nat, Pending> {
    map k | k in lists && lists[k].account != account :: lists[k]
  }

  function Refreshed(t: Table, account: string): Table {
    if !t.backend || account == "" then t
    else t.(lists := OthersLists(t.lists, account)[t.next := Pending(account, t.order)], next := t.next + 1)
  }

  function StateOf(t: Table, account: string, sid: string): Option<State> {
    var i := IndexOf(t.calls, account, sid);
    if i < 0 then None else Some(t.calls[i].state)
  }

  function Heard(t: Table, e: Event): Table {
    match e
    case Connected(account) => Refreshed(t, account)
    case CallOut(account, sid, peer) => Inserted(t, Call(sid, account, peer, Outbound, Calling, 0))
    case CallIn(account, sid, peer) => Inserted(t, Call(sid, account, peer, Inbound, Incoming, 0))
    case PeerRings(account, sid) =>
      if sid != "" && StateOf(t, account, sid) == Some(Calling) then StateSet(t, account, sid, Ringing) else t
    case Answered(account, sid) => if sid == "" then t else StateSet(t, account, sid, Active)
    case Over(account, sid) => if sid == "" then t else StateSet(t, account, sid, Ended)
    case Broke(account, sid) => if sid == "" then t else StateSet(t, account, sid, Failed)
  }

  // What a snapshot has to say of calls of this model's own.
  predicate Counts(r: Listing) { r.sid != "" && r.group == "" }

  function Says(r: Listing): State { Reading(r.word, r.direction, r.peerRinging) }

  // A listing only ever carries a row further, since what happened here may
  // have happened after it was drawn up.
  function Advanced(c: Call, r: Listing): Call {
    if c.direction != r.direction || Terminal(c.state) || Progress(Says(r)) <= Progress(c.state) then c
    else Moved(c, Says(r))
  }

  function Taken(t: Table, account: string, r: Listing): Table {
    if !Counts(r) || Key(account, r.sid) in t.dismissed then t
    else
      var i := IndexOf(t.calls, account, r.sid);
      if i < 0 then Inserted(t, Call(r.sid, account, r.peer, r.direction, Says(r), 0))
      else t.(calls := t.calls[i := Advanced(t.calls[i], r)])
  }

  function TakenAll(t: Table, account: string, rows: seq<Listing>): Table {
    if rows == [] then t else Taken(TakenAll(t, account, rows[..|rows| - 1]), account, rows[|rows| - 1])
  }

  function Named(rows: seq<Listing>): set<string> { set r | r in rows && Counts(r) :: r.sid }

  // Live, old enough for the snapshot to know of, and not in it.
  predicate Lost(c: Call, account: string, named: set<string>, asOf: nat) {
    c.account == account && c.order <= asOf && c.sid !in named && !Terminal(c.state)
  }

  function Swept(calls: seq<Call>, account: string, named: set<string>, asOf: nat): (less: seq<Call>)
    ensures |less| == |calls|
    ensures forall i | 0 <= i < |calls| ::
              less[i] == if Lost(calls[i], account, named, asOf) then calls[i].(state := Ended) else calls[i]
  {
    seq(|calls|, i requires 0 <= i < |calls| =>
      if Lost(calls[i], account, named, asOf) then calls[i].(state := Ended) else calls[i])
  }

  function Forgotten(dismissed: set<string>, account: string): set<string> {
    set d | d in dismissed && !(account + "\n" <= d)
  }

  function Snapshot(t: Table, account: string, rows: seq<Listing>, asOf: nat): Table {
    var u := TakenAll(t, account, rows);
    u.(calls := Swept(u.calls, account, Named(rows), asOf), dismissed := Forgotten(u.dismissed, account))
  }

  function Resulted(t: Table, token: nat, rows: seq<Listing>): Table {
    if token !in t.lists then t
    else Snapshot(t.(lists := t.lists - {token}), t.lists[token].account, rows, t.lists[token].order)
  }

  // Media prompts may have come between: only a call still ringing is taken.
  function Accepted(t: Table, account: string, sid: string): Table {
    if StateOf(t, account, sid) == Some(Incoming) then StateSet(t, account, sid, Connecting) else t
  }

  function Dismissed(t: Table, account: string, sid: string): Table {
    var i := IndexOf(t.calls, account, sid);
    if i < 0 then t
    else t.(calls := t.calls[..i] + t.calls[i + 1..], dismissed := t.dismissed + {Key(account, sid)})
  }

  function Step(t: Table, m: Move): Table {
    match m
    case Hear(e) => Heard(t, e)
    case Result(token, rows) => Resulted(t, token, rows)
    case Error(token) => t.(lists := t.lists - {token})
    case Refresh(account) => Refreshed(t, account)
    case Accept(account, sid) => Accepted(t, account, sid)
    case Hangup(account, sid) => StateSet(t, account, sid, Ended)
    case Dismiss(account, sid) => Dismissed(t, account, sid)
  }

  function Run(t: Table, moves: seq<Move>): Table
    decreases |moves|
  {
    if moves == [] then t else Run(Step(t, moves[0]), moves[1..])
  }

  // An outgoing call climbs from calling over ringing, an incoming one from
  // incoming, both over connecting and active to an end that nothing is above.
  lemma CallsClimb(s: State)
    ensures Progress(Calling) < Progress(Ringing) < Progress(Connecting) < Progress(Active)
    ensures Progress(Incoming) == Progress(Calling)
    ensures Terminal(s) <==> forall r: State :: Progress(r) <= Progress(s)
  {
    assert Progress(Ended) > Progress(Active);
  }

  // A reading never puts a call on the wrong side, is over exactly when the
  // backend says so, and has a peer's device ringing only when one is.
  lemma ReadingKnowsItsSide(word: Word, direction: Direction, peerRinging: bool)
    ensures var s := Reading(word, direction, peerRinging);
            && (s == Incoming ==> direction == Inbound)
            && (s == Calling || s == Ringing ==> direction == Outbound && (s == Ringing <==> peerRinging))
            && (s == Ended <==> word == SaysEnded) && (s == Failed <==> word == SaysFailed)
            && (s == Active <==> word == SaysActive)
            && (s == Incoming ==> word == SaysRinging) && (s == Calling || s == Ringing ==> word == SaysProposed)
            && (word == Other ==> s == Connecting)
            && (word == SaysRinging && direction == Inbound ==> s == Incoming)
            && (word == SaysProposed && direction == Outbound ==> s == Calling || s == Ringing)
  {}

  // ---------------------------------------------------- what every table keeps

  ghost predicate Keyed(calls: seq<Call>) {
    forall i, j | 0 <= i < j < |calls| :: !(calls[i].sid == calls[j].sid && calls[i].account == calls[j].account)
  }

  ghost predicate Risen(calls: seq<Call>, last: nat) {
    && (forall i, j | 0 <= i < j < |calls| :: calls[i].order < calls[j].order)
    && (forall i | 0 <= i < |calls| :: calls[i].order <= last && calls[i].sid != "")
  }

  ghost predicate Sound(t: Table) {
    && Keyed(t.calls) && Risen(t.calls, t.order)
    && (forall k | k in t.lists :: k < t.next && t.lists[k].order <= t.order)
    && (forall k, l | k in t.lists && l in t.lists && t.lists[k].account == t.lists[l].account :: k == l)
  }

  lemma UniqueIndex(calls: seq<Call>, i: nat)
    requires Keyed(calls) && i < |calls|
    ensures IndexOf(calls, calls[i].account, calls[i].sid) == i
  {}

  lemma InsertedSound(t: Table, c: Call)
    requires Sound(t)
    ensures Sound(Inserted(t, c))
  {}

  lemma TakenSound(t: Table, account: string, r: Listing)
    requires Sound(t)
    ensures Sound(Taken(t, account, r))
  {
    InsertedSound(t, Call(r.sid, account, r.peer, r.direction, Says(r), 0));
  }

  lemma {:induction false} TakenAllSound(t: Table, account: string, rows: seq<Listing>)
    requires Sound(t)
    ensures Sound(TakenAll(t, account, rows))
    ensures var u := TakenAll(t, account, rows);
            u.dismissed == t.dismissed && u.lists == t.lists && u.next == t.next && u.backend == t.backend
            && t.order <= u.order
  {
    if rows != [] {
      TakenAllSound(t, account, rows[..|rows| - 1]);
      TakenSound(TakenAll(t, account, rows[..|rows| - 1]), account, rows[|rows| - 1]);
    }
  }

  lemma SnapshotSound(t: Table, account: string, rows: seq<Listing>, asOf: nat)
    requires Sound(t)
    ensures Sound(Snapshot(t, account, rows, asOf))
  {
    TakenAllSound(t, account, rows);
    var u := TakenAll(t, account, rows);
    var less := Swept(u.calls, account, Named(rows), asOf);
    assert forall i | 0 <= i < |less| :: less[i] == u.calls[i].(state := less[i].state);
  }

  lemma DismissedSound(t: Table, account: string, sid: string)
    requires Sound(t)
    ensures Sound(Dismissed(t, account, sid))
  {
    var i := IndexOf(t.calls, account, sid);
    if i >= 0 {
      var less := t.calls[..i] + t.calls[i + 1..];
      assert forall j | 0 <= j < |less| :: less[j] == t.calls[if j < i then j else j + 1];
    }
  }

  lemma StateSetSound(t: Table, account: string, sid: string, st: State)
    requires Sound(t)
    ensures Sound(StateSet(t, account, sid, st))
  {}

  lemma RefreshedSound(t: Table, account: string)
    requires Sound(t)
    ensures Sound(Refreshed(t, account))
  {}

  lemma HeardSound(t: Table, e: Event)
    requires Sound(t)
    ensures Sound(Heard(t, e))
  {
    match e {
      case Connected(account) => RefreshedSound(t, account);
      case CallOut(account, sid, peer) => InsertedSound(t, Call(sid, account, peer, Outbound, Calling, 0));
      case CallIn(account, sid, peer) => InsertedSound(t, Call(sid, account, peer, Inbound, Incoming, 0));
      case PeerRings(account, sid) => StateSetSound(t, account, sid, Ringing);
      case Answered(account, sid) => StateSetSound(t, account, sid, Active);
      case Over(account, sid) => StateSetSound(t, account, sid, Ended);
      case Broke(account, sid) => StateSetSound(t, account, sid, Failed);
    }
  }

  lemma StepSound(t: Table, m: Move)
    requires Sound(t)
    ensures Sound(Step(t, m))
  {
    match m {
      case Hear(e) => HeardSound(t, e);
      case Result(token, rows) =>
        if token in t.lists {
          SnapshotSound(t.(lists := t.lists - {token}), t.lists[token].account, rows, t.lists[token].order);
        }
      case Error(_) =>
      case Refresh(account) => RefreshedSound(t, account);
      case Accept(account, sid) => StateSetSound(t, account, sid, Connecting);
      case Hangup(account, sid) => StateSetSound(t, account, sid, Ended);
      case Dismiss(account, sid) => DismissedSound(t, account, sid);
    }
  }

  // Rows stay one to a call and in the order they came, and one list at most is
  // out for an account, whatever happens.
  lemma {:induction false} RunSound(t: Table, moves: seq<Move>)
    requires Sound(t)
    ensures Sound(Run(t, moves))
    decreases |moves|
  {
    if moves != [] {
      StepSound(t, moves[0]);
      RunSound(Step(t, moves[0]), moves[1..]);
    }
  }

  // ------------------------------------------------------------ each on its side

  // Only a call that came in is there to be answered, and only one we placed
  // waits for the other side to pick up.
  predicate OnItsSide(c: Call) {
    && (c.state == Incoming ==> c.direction == Inbound)
    && (c.state == Calling || c.state == Ringing ==> c.direction == Outbound)
  }

  predicate Sided(calls: seq<Call>) { forall i | 0 <= i < |calls| :: OnItsSide(calls[i]) }

  lemma StateSetSided(t: Table, account: string, sid: string, st: State)
    requires Sided(t.calls) && st != Incoming && st != Calling
    requires st == Ringing ==> StateOf(t, account, sid) == Some(Calling)
    ensures Sided(StateSet(t, account, sid, st).calls)
  {}

  lemma {:induction false} TakenAllSided(t: Table, account: string, rows: seq<Listing>)
    requires Sided(t.calls)
    ensures Sided(TakenAll(t, account, rows).calls)
  {
    if rows != [] {
      TakenAllSided(t, account, rows[..|rows| - 1]);
      ReadingKnowsItsSide(rows[|rows| - 1].word, rows[|rows| - 1].direction, rows[|rows| - 1].peerRinging);
    }
  }

  lemma StepSided(t: Table, m: Move)
    requires Sided(t.calls)
    ensures Sided(Step(t, m).calls)
  {
    match m {
      case Hear(PeerRings(account, sid)) =>
        if StateOf(t, account, sid) == Some(Calling) { StateSetSided(t, account, sid, Ringing); }
      case Hear(Answered(account, sid)) => StateSetSided(t, account, sid, Active);
      case Hear(Over(account, sid)) => StateSetSided(t, account, sid, Ended);
      case Hear(Broke(account, sid)) => StateSetSided(t, account, sid, Failed);
      case Result(token, rows) =>
        if token in t.lists { TakenAllSided(t.(lists := t.lists - {token}), t.lists[token].account, rows); }
      case Accept(account, sid) => StateSetSided(t, account, sid, Connecting);
      case Hangup(account, sid) => StateSetSided(t, account, sid, Ended);
      case _ =>
    }
  }

  // Whatever events, snapshots and clicks say, no row ever stands on the other
  // side of its call.
  lemma {:induction false} RunSided(t: Table, moves: seq<Move>)
    requires Sided(t.calls)
    ensures Sided(Run(t, moves).calls)
    decreases |moves|
  {
    if moves != [] {
      StepSided(t, moves[0]);
      RunSided(Step(t, moves[0]), moves[1..]);
    }
  }

  // ------------------------------------------------------------ never backwards

  // d is c, no less far along.
  predicate Follows(c: Call, d: Call) {
    d == c.(state := d.state) && Progress(c.state) <= Progress(d.state)
  }

  // Every row is a row there was, no less far along, or a new one; and every
  // row there was is still there, but for those excused.
  ghost predicate Later(t: Table, u: Table, excused: set<nat>) {
    && t.order <= u.order
    && (forall j | 0 <= j < |u.calls| ::
          u.calls[j].order > t.order || exists i :: 0 <= i < |t.calls| && Follows(t.calls[i], u.calls[j]))
    && (forall i | 0 <= i < |t.calls| ::
          t.calls[i].order in excused || exists j :: 0 <= j < |u.calls| && Follows(t.calls[i], u.calls[j]))
  }

  // The rows of one, in place and no less far along, with rows added below.
  ghost predicate Extends(t: Table, u: Table) {
    && t.order <= u.order && |t.calls| <= |u.calls|
    && (forall i | 0 <= i < |t.calls| :: Follows(t.calls[i], u.calls[i]))
    && (forall i | |t.calls| <= i < |u.calls| :: u.calls[i].order > t.order)
  }

  lemma ExtendsIsLater(t: Table, u: Table)
    requires Extends(t, u)
    ensures Later(t, u, {})
  {
    forall j | 0 <= j < |u.calls|
      ensures u.calls[j].order > t.order || exists i :: 0 <= i < |t.calls| && Follows(t.calls[i], u.calls[j]) {}
    forall i | 0 <= i < |t.calls| ensures exists j :: 0 <= j < |u.calls| && Follows(t.calls[i], u.calls[j]) {
      assert Follows(t.calls[i], u.calls[i]);
    }
  }

  lemma ExtendsOn(t: Table, u: Table, w: Table)
    requires Extends(t, u) && Extends(u, w)
    ensures Extends(t, w)
  {
    forall i | |t.calls| <= i < |w.calls| ensures w.calls[i].order > t.order {
      if i < |u.calls| { assert Follows(u.calls[i], w.calls[i]); }
    }
  }

  lemma StateSetExtends(t: Table, account: string, sid: string, s: State)
    requires forall i | 0 <= i < |t.calls| && Names(t.calls[i], account, sid) ::
               Terminal(t.calls[i].state) || Progress(t.calls[i].state) <= Progress(s)
    ensures Extends(t, StateSet(t, account, sid, s))
  {}

  lemma TakenExtends(t: Table, account: string, r: Listing)
    ensures Extends(t, Taken(t, account, r))
  {}

  lemma {:induction false} TakenAllExtends(t: Table, account: string, rows: seq<Listing>)
    ensures Extends(t, TakenAll(t, account, rows))
  {
    if rows != [] {
      TakenAllExtends(t, account, rows[..|rows| - 1]);
      var u := TakenAll(t, account, rows[..|rows| - 1]);
      TakenExtends(u, account, rows[|rows| - 1]);
      ExtendsOn(t, u, TakenAll(t, account, rows));
    }
  }

  lemma SnapshotExtends(t: Table, account: string, rows: seq<Listing>, asOf: nat)
    ensures Extends(t, Snapshot(t, account, rows, asOf))
  {
    TakenAllExtends(t, account, rows);
    ExtendsOn(t, TakenAll(t, account, rows), Snapshot(t, account, rows, asOf));
  }

  lemma AcceptedExtends(t: Table, account: string, sid: string)
    requires Sound(t)
    ensures Extends(t, Accepted(t, account, sid))
  {
    var i := IndexOf(t.calls, account, sid);
    if i >= 0 && t.calls[i].state == Incoming {
      forall j | 0 <= j < |t.calls| && Names(t.calls[j], account, sid) ensures j == i {}
      StateSetExtends(t, account, sid, Connecting);
    }
  }

  lemma HeardExtends(t: Table, e: Event)
    requires Sound(t)
    ensures Extends(t, Heard(t, e))
  {
    match e {
      case PeerRings(account, sid) =>
        var i := IndexOf(t.calls, account, sid);
        if i >= 0 && t.calls[i].state == Calling {
          forall j | 0 <= j < |t.calls| && Names(t.calls[j], account, sid) ensures j == i {}
          StateSetExtends(t, account, sid, Ringing);
        }
      case Answered(account, sid) => StateSetExtends(t, account, sid, Active);
      case Over(account, sid) => StateSetExtends(t, account, sid, Ended);
      case Broke(account, sid) => StateSetExtends(t, account, sid, Failed);
      case _ =>
    }
  }

  // The rows a move takes away: the one it dismisses.
  function Excused(t: Table, m: Move): set<nat> {
    if m.Dismiss? && IndexOf(t.calls, m.account, m.sid) >= 0
    then {t.calls[IndexOf(t.calls, m.account, m.sid)].order} else {}
  }

  lemma WithoutOne(t: Table, u: Table, k: nat)
    requires k < |t.calls| && u.calls == t.calls[..k] + t.calls[k + 1..] && u.order == t.order
    ensures Later(t, u, {t.calls[k].order})
  {
    forall j | 0 <= j < |u.calls| ensures exists i :: 0 <= i < |t.calls| && Follows(t.calls[i], u.calls[j]) {
      assert u.calls[j] == t.calls[if j < k then j else j + 1];
      assert Follows(t.calls[if j < k then j else j + 1], u.calls[j]);
    }
    forall i | 0 <= i < |t.calls| && i != k
      ensures exists j :: 0 <= j < |u.calls| && Follows(t.calls[i], u.calls[j])
    {
      assert u.calls[if i < k then i else i - 1] == t.calls[i];
      assert Follows(t.calls[i], u.calls[if i < k then i else i - 1]);
    }
  }

  lemma DismissedLater(t: Table, account: string, sid: string)
    ensures Later(t, Dismissed(t, account, sid), Excused(t, Dismiss(account, sid)))
  {
    var k := IndexOf(t.calls, account, sid);
    if k < 0 {
      ExtendsIsLater(t, t);
    } else {
      assert Excused(t, Dismiss(account, sid)) == {t.calls[k].order};
      WithoutOne(t, Dismissed(t, account, sid), k);
    }
  }

  lemma StepLater(t: Table, m: Move)
    requires Sound(t)
    ensures Later(t, Step(t, m), Excused(t, m))
  {
    match m {
      case Hear(e) => HeardExtends(t, e); ExtendsIsLater(t, Step(t, m));
      case Result(token, rows) =>
        if token in t.lists {
          var u := t.(lists := t.lists - {token});
          SnapshotExtends(u, t.lists[token].account, rows, t.lists[token].order);
        }
        ExtendsIsLater(t, Step(t, m));
      case Accept(account, sid) => AcceptedExtends(t, account, sid); ExtendsIsLater(t, Step(t, m));
      case Hangup(account, sid) => StateSetExtends(t, account, sid, Ended); ExtendsIsLater(t, Step(t, m));
      case Dismiss(account, sid) => DismissedLater(t, account, sid);
      case Error(_) => ExtendsIsLater(t, Step(t, m));
      case Refresh(_) => ExtendsIsLater(t, Step(t, m));
    }
  }

  function ExcusedAll(t: Table, moves: seq<Move>): set<nat>
    decreases |moves|
  {
    if moves == [] then {} else Excused(t, moves[0]) + ExcusedAll(Step(t, moves[0]), moves[1..])
  }

  lemma LaterOn(t: Table, u: Table, w: Table, a: set<nat>, b: set<nat>)
    requires Later(t, u, a) && Later(u, w, b)
    ensures Later(t, w, a + b)
  {
    forall j | 0 <= j < |w.calls|
      ensures w.calls[j].order > t.order || exists i :: 0 <= i < |t.calls| && Follows(t.calls[i], w.calls[j])
    {
      if w.calls[j].order <= t.order {
        var k :| 0 <= k < |u.calls| && Follows(u.calls[k], w.calls[j]);
        var i :| 0 <= i < |t.calls| && Follows(t.calls[i], u.calls[k]);
        assert Follows(t.calls[i], w.calls[j]);
      }
    }
    forall i | 0 <= i < |t.calls| && t.calls[i].order !in a + b
      ensures exists j :: 0 <= j < |w.calls| && Follows(t.calls[i], w.calls[j])
    {
      var k :| 0 <= k < |u.calls| && Follows(t.calls[i], u.calls[k]);
      var j :| 0 <= j < |w.calls| && Follows(u.calls[k], w.calls[j]);
      assert Follows(t.calls[i], w.calls[j]);
    }
  }

  // Over any run no row goes backwards, so a call that is over stays over; and
  // a row only goes when it is dismissed.
  lemma {:induction false} NothingGoesBack(t: Table, moves: seq<Move>)
    requires Sound(t)
    ensures Later(t, Run(t, moves), ExcusedAll(t, moves))
    decreases |moves|
  {
    if moves == [] {
      ExtendsIsLater(t, t);
    } else {
      var u := Step(t, moves[0]);
      StepLater(t, moves[0]);
      StepSound(t, moves[0]);
      NothingGoesBack(u, moves[1..]);
      LaterOn(t, u, Run(t, moves), Excused(t, moves[0]), ExcusedAll(u, moves[1..]));
    }
  }

  // In particular: a row then and a row now with the same number are the same
  // call, no less far along, and over now if it was over then.
  lemma TheSameCallLater(t: Table, moves: seq<Move>, i: nat, j: nat)
    requires Sound(t) && i < |t.calls| && j < |Run(t, moves).calls|
    requires Run(t, moves).calls[j].order == t.calls[i].order
    ensures Follows(t.calls[i], Run(t, moves).calls[j])
    ensures Terminal(t.calls[i].state) ==> Terminal(Run(t, moves).calls[j].state)
  {
    NothingGoesBack(t, moves);
    var k :| 0 <= k < |t.calls| && Follows(t.calls[k], Run(t, moves).calls[j]);
    assert k == i;
  }

  // ------------------------------------------------------- what a snapshot does

  // The listings a row is measured against.
  predicate Speaks(t: Table, c: Call, r: Listing) {
    Counts(r) && r.sid == c.sid && r.direction == c.direction && Key(c.account, c.sid) !in t.dismissed
  }

  predicate Tells(r: Listing, sid: string, direction: Direction) {
    Counts(r) && r.sid == sid && r.direction == direction
  }

  // Of what the listings say of a call on that side, s is the furthest along,
  // and the first of those as far along.
  ghost predicate FirstFurthest(rows: seq<Listing>, sid: string, direction: Direction, s: State) {
    exists j ::
      && 0 <= j < |rows| && Tells(rows[j], sid, direction) && Says(rows[j]) == s
      && (forall i | 0 <= i < j && Tells(rows[i], sid, direction) :: Progress(Says(rows[i])) < Progress(s))
      && (forall i | j < i < |rows| && Tells(rows[i], sid, direction) :: Progress(Says(rows[i])) <= Progress(s))
  }

  lemma TerminalIsLast(s: State, r: State)
    ensures Terminal(s) <==> Progress(s) == 4
    ensures Progress(r) <= 4
  {}

  // One more listing: it is the furthest if it goes beyond all before it.
  lemma FurthestNow(init: seq<Listing>, r: Listing, sid: string, direction: Direction)
    requires Tells(r, sid, direction)
    requires forall x | x in init && Tells(x, sid, direction) :: Progress(Says(x)) < Progress(Says(r))
    ensures FirstFurthest(init + [r], sid, direction, Says(r))
  {
    var rows := init + [r];
    assert forall i | 0 <= i < |init| :: rows[i] == init[i] && rows[i] in init;
    assert rows[|init|] == r;
  }

  lemma FurthestStill(init: seq<Listing>, r: Listing, sid: string, direction: Direction, s: State)
    requires FirstFurthest(init, sid, direction, s)
    requires Tells(r, sid, direction) ==> Progress(Says(r)) <= Progress(s)
    ensures FirstFurthest(init + [r], sid, direction, s)
  {
    var rows := init + [r];
    var j :| && 0 <= j < |init| && Tells(init[j], sid, direction) && Says(init[j]) == s
             && (forall i | 0 <= i < j && Tells(init[i], sid, direction) :: Progress(Says(init[i])) < Progress(s))
             && (forall i | j < i < |init| && Tells(init[i], sid, direction) :: Progress(Says(init[i])) <= Progress(s));
    assert forall i | 0 <= i < |init| :: rows[i] == init[i];
    assert rows[j] == init[j];
  }

  lemma FurthestBounds(rows: seq<Listing>, sid: string, direction: Direction, s: State)
    requires FirstFurthest(rows, sid, direction, s)
    ensures forall x | x in rows && Tells(x, sid, direction) :: Progress(Says(x)) <= Progress(s)
  {}

  // A row of the account that the snapshot names: as far along as it was, or as
  // the furthest reading of it, whichever is further; and over if it was over.
  ghost predicate Caught(t: Table, rows: seq<Listing>, c: Call, d: Call) {
    && Follows(c, d)
    && (Terminal(c.state) ==> d == c)
    && (d.state == c.state
        || (FirstFurthest(rows, c.sid, c.direction, d.state) && Key(c.account, c.sid) !in t.dismissed))
    && (forall r | r in rows && Speaks(t, c, r) && !Terminal(c.state) :: Progress(Says(r)) <= Progress(d.state))
  }

  lemma CaughtUp(t: Table, rows: seq<Listing>, r: Listing, c: Call, d: Call, e: Call)
    requires Caught(t, rows, c, d)
    requires e == if Counts(r) && r.sid == c.sid && Key(c.account, c.sid) !in t.dismissed then Advanced(d, r) else d
    ensures Caught(t, rows + [r], c, e)
  {
    TerminalIsLast(d.state, Says(r));
    if e.state != d.state {
      FurthestNow(rows, r, c.sid, c.direction);
    } else if d.state != c.state {
      FurthestStill(rows, r, c.sid, c.direction, d.state);
    }
    assert r in rows + [r];
  }

  lemma TakenRow(t: Table, account: string, r: Listing, i: nat)
    requires Keyed(t.calls) && i < |t.calls|
    ensures var c := t.calls[i];
            Taken(t, account, r).calls[i] ==
              if c.account == account && Counts(r) && r.sid == c.sid && Key(c.account, c.sid) !in t.dismissed
              then Advanced(c, r) else c
  {
    UniqueIndex(t.calls, i);
  }

  // Row by row, what taking the listings in comes to.
  lemma {:induction false} TakenRows(t: Table, account: string, rows: seq<Listing>, i: nat)
    requires Sound(t) && i < |t.calls|
    ensures i < |TakenAll(t, account, rows).calls|
    ensures var c, d := t.calls[i], TakenAll(t, account, rows).calls[i];
            if c.account == account then Caught(t, rows, c, d) else d == c
    decreases |rows|
  {
    TakenAllExtends(t, account, rows);
    if rows != [] {
      var init, r := rows[..|rows| - 1], rows[|rows| - 1];
      var u := TakenAll(t, account, init);
      TakenRows(t, account, init, i);
      TakenAllSound(t, account, init);
      TakenRow(u, account, r, i);
      if t.calls[i].account == account {
        CaughtUp(t, init, r, t.calls[i], u.calls[i], TakenAll(t, account, rows).calls[i]);
        assert init + [r] == rows;
      }
    }
  }

  // The first listing of a call that counts says who it is with and whose it is.
  ghost predicate FirstTold(rows: seq<Listing>, c: Call) {
    exists k ::
      && 0 <= k < |rows| && Tells(rows[k], c.sid, c.direction) && rows[k].peer == c.peer
      && forall i | 0 <= i < k :: !(Counts(rows[i]) && rows[i].sid == c.sid)
  }

  // A row a snapshot adds is one it names, not dismissed and not here before,
  // with the peer and side of its first listing and as far along as any says.
  ghost predicate Added(t: Table, account: string, rows: seq<Listing>, c: Call) {
    && c.account == account && c.sid in Named(rows) && Key(account, c.sid) !in t.dismissed
    && IndexOf(t.calls, account, c.sid) < 0 && c.order > t.order
    && FirstTold(rows, c) && FirstFurthest(rows, c.sid, c.direction, c.state)
  }

  lemma FirstToldOn(init: seq<Listing>, r: Listing, c: Call, d: Call)
    requires FirstTold(init, c) && d == c.(state := d.state)
    ensures FirstTold(init + [r], d)
  {
    var rows := init + [r];
    var k :| 0 <= k < |init| && Tells(init[k], c.sid, c.direction) && init[k].peer == c.peer
             && forall i | 0 <= i < k :: !(Counts(init[i]) && init[i].sid == c.sid);
    assert rows[k] == init[k];
    assert forall i | 0 <= i < k :: rows[i] == init[i];
  }

  // One more listing, taken into a row that was added before it.
  lemma AddedOn(t: Table, account: string, init: seq<Listing>, r: Listing, c: Call, d: Call)
    requires Added(t, account, init, c)
    requires d == if Counts(r) && r.sid == c.sid then Advanced(c, r) else c
    ensures Added(t, account, init + [r], d)
  {
    NamedMore(init, r);
    TerminalIsLast(c.state, Says(r));
    FirstToldOn(init, r, c, d);
    FurthestBounds(init, c.sid, c.direction, c.state);
    if d.state == c.state {
      FurthestStill(init, r, c.sid, c.direction, c.state);
    } else {
      FurthestNow(init, r, c.sid, c.direction);
    }
  }

  // A listing of a call the ones before it did not name.
  lemma AddedNow(t: Table, account: string, init: seq<Listing>, r: Listing, c: Call)
    requires c.account == account && Counts(r) && r.sid !in Named(init) && Key(account, r.sid) !in t.dismissed
    requires IndexOf(t.calls, account, c.sid) < 0 && c.order > t.order
    requires c.sid == r.sid && c.peer == r.peer && c.direction == r.direction && c.state == Says(r)
    ensures Added(t, account, init + [r], c)
  {
    var rows := init + [r];
    NamedMore(init, r);
    assert forall i | 0 <= i < |init| :: rows[i] == init[i] && rows[i] in init;
    assert rows[|init|] == r;
    FurthestNow(init, r, c.sid, c.direction);
  }

  lemma {:induction false} TakenAdds(t: Table, account: string, rows: seq<Listing>, u: Table)
    requires Sound(t) && u == TakenAll(t, account, rows)
    ensures forall i | |t.calls| <= i < |u.calls| :: Added(t, account, rows, u.calls[i])
    decreases |rows|
  {
    if rows != [] {
      var init, r := rows[..|rows| - 1], rows[|rows| - 1];
      var v := TakenAll(t, account, init);
      TakenAdds(t, account, init, v);
      TakenAllSound(t, account, init);
      TakenAllExtends(t, account, init);
      assert init + [r] == rows;
      forall i | |t.calls| <= i < |u.calls| ensures Added(t, account, rows, u.calls[i]) {
        TakenAddsOne(t, account, init, r, v, i);
      }
    }
  }

  lemma TakenAddsOne(t: Table, account: string, init: seq<Listing>, r: Listing, v: Table, i: nat)
    requires Sound(t) && v == TakenAll(t, account, init) && Sound(v) && Extends(t, v)
    requires v.dismissed == t.dismissed
    requires forall i | |t.calls| <= i < |v.calls| :: Added(t, account, init, v.calls[i])
    requires |t.calls| <= i < |Taken(v, account, r).calls|
    ensures Added(t, account, init + [r], Taken(v, account, r).calls[i])
  {
    if i < |v.calls| {
      TakenRow(v, account, r, i);
      AddedOn(t, account, init, r, v.calls[i], Taken(v, account, r).calls[i]);
    } else {
      StillTracked(t, v, account, r.sid);
      if r.sid in Named(init) { TakenCovers(t, account, init, r.sid); }
      AddedNow(t, account, init, r, Taken(v, account, r).calls[i]);
    }
  }

  lemma NamedMore(rows: seq<Listing>, r: Listing)
    ensures Named(rows + [r]) == Named(rows) + (if Counts(r) then {r.sid} else {})
  {}

  lemma StillTracked(t: Table, u: Table, account: string, sid: string)
    requires Extends(t, u)
    ensures IndexOf(t.calls, account, sid) >= 0 ==> IndexOf(u.calls, account, sid) >= 0
  {
    var i := IndexOf(t.calls, account, sid);
    if i >= 0 { assert Follows(t.calls[i], u.calls[i]); }
  }

  lemma NowTracked(t: Table, account: string, r: Listing)
    requires Counts(r) && Key(account, r.sid) !in t.dismissed
    ensures IndexOf(Taken(t, account, r).calls, account, r.sid) >= 0
  {
    var calls := Taken(t, account, r).calls;
    var i := IndexOf(t.calls, account, r.sid);
    assert Names(calls[if i < 0 then |calls| - 1 else i], account, r.sid);
  }

  lemma {:induction false} TakenCovers(t: Table, account: string, rows: seq<Listing>, sid: string)
    requires sid in Named(rows) && Key(account, sid) !in t.dismissed && Sound(t)
    ensures IndexOf(TakenAll(t, account, rows).calls, account, sid) >= 0
    decreases |rows|
  {
    var init, r := rows[..|rows| - 1], rows[|rows| - 1];
    var u := TakenAll(t, account, init);
    TakenAllSound(t, account, init);
    assert init + [r] == rows;
    NamedMore(init, r);
    if sid in Named(init) {
      TakenCovers(t, account, init, sid);
      TakenExtends(u, account, r);
      StillTracked(u, TakenAll(t, account, rows), account, sid);
    } else {
      NowTracked(u, account, r);
    }
  }

  // A snapshot against its plain meaning. Rows of other accounts are left
  // alone. A row of this account that it does not name is over, if it was there
  // when the snapshot was asked for, and left alone if it came since. A row it
  // names only moves forward. Every call it names that was not dismissed has a
  // row, and no row comes from anywhere else.
  lemma SnapshotMeansThis(t: Table, account: string, rows: seq<Listing>, asOf: nat)
    requires Sound(t) && asOf <= t.order
    ensures var u, named := Snapshot(t, account, rows, asOf), Named(rows);
            && |t.calls| <= |u.calls|
            && (forall i | 0 <= i < |t.calls| ::
                  var c, d := t.calls[i], u.calls[i];
                  if c.account != account then d == c
                  else if c.sid in named then Caught(t, rows, c, d)
                  else if c.order <= asOf && !Terminal(c.state) then d == c.(state := Ended)
                  else d == c)
            && (forall i | |t.calls| <= i < |u.calls| :: Added(t, account, rows, u.calls[i]))
            && (forall sid | sid in named && Key(account, sid) !in t.dismissed ::
                  IndexOf(u.calls, account, sid) >= 0)
  {
    var v, u, named := TakenAll(t, account, rows), Snapshot(t, account, rows, asOf), Named(rows);
    TakenAllExtends(t, account, rows);
    TakenAdds(t, account, rows, v);
    forall i | 0 <= i < |t.calls|
      ensures var c, d := t.calls[i], u.calls[i];
              if c.account != account then d == c
              else if c.sid in named then Caught(t, rows, c, d)
              else if c.order <= asOf && !Terminal(c.state) then d == c.(state := Ended)
              else d == c
    {
      TakenRows(t, account, rows, i);
      UnnamedStays(t, rows, t.calls[i], v.calls[i]);
    }
    forall sid | sid in named && Key(account, sid) !in t.dismissed ensures IndexOf(u.calls, account, sid) >= 0 {
      TakenCovers(t, account, rows, sid);
      var i := IndexOf(v.calls, account, sid);
      assert Names(u.calls[i], account, sid);
    }
  }

  lemma UnnamedStays(t: Table, rows: seq<Listing>, c: Call, d: Call)
    ensures Caught(t, rows, c, d) && c.sid !in Named(rows) ==> d == c
  {}

  // ------------------------------------------------------ a dismissed call's rest

  predicate OneLine(s: string) { '\n' !in s }

  // The account is what stands before the first line break of a key.
  lemma KeysApart(a: string, b: string, sid: string)
    requires OneLine(a) && OneLine(b)
    ensures b + "\n" <= Key(a, sid) ==> a == b
  {
    var key := Key(a, sid);
    if b + "\n" <= key {
      assert key[|b|] == (b + "\n")[|b|] == '\n';
      assert forall i | 0 <= i < |b| :: key[i] == (b + "\n")[i] == b[i];
      assert forall i | 0 <= i < |a| :: key[i] == a[i];
      assert key[|a|] == '\n';
      assert |a| == |b|;
    }
  }

  // While a list asked for before the dismissal is out, the call stays crossed
  // off.
  ghost predicate Shadowed(t: Table, token: nat, account: string, sid: string) {
    token in t.lists && t.lists[token].account == account && Key(account, sid) in t.dismissed
  }

  predicate AccountsOneLine(t: Table) { forall k | k in t.lists :: OneLine(t.lists[k].account) }

  lemma RefreshedOneLine(t: Table, account: string)
    requires AccountsOneLine(t) && OneLine(account)
    ensures AccountsOneLine(Refreshed(t, account))
  {}

  ghost predicate PlainMove(m: Move) {
    && (m.Refresh? ==> OneLine(m.account))
    && (m.Hear? && m.event.Connected? ==> OneLine(m.event.account))
  }

  lemma StepOneLine(t: Table, m: Move)
    requires Sound(t) && AccountsOneLine(t) && PlainMove(m)
    ensures AccountsOneLine(Step(t, m))
  {
    match m {
      case Hear(Connected(account)) => RefreshedOneLine(t, account);
      case Refresh(account) => RefreshedOneLine(t, account);
      case Result(token, rows) =>
        if token in t.lists {
          TakenAllSound(t.(lists := t.lists - {token}), t.lists[token].account, rows);
        }
      case _ =>
    }
  }

  // Nothing but the list itself, or a newer one in its place, lifts the cross.
  lemma StepShadows(t: Table, m: Move, token: nat, account: string, sid: string)
    requires Sound(t) && AccountsOneLine(t) && Shadowed(t, token, account, sid)
    ensures token in Step(t, m).lists ==> Shadowed(Step(t, m), token, account, sid)
  {
    match m {
      case Result(other, rows) =>
        if other in t.lists {
          var b := t.lists[other].account;
          TakenAllSound(t.(lists := t.lists - {other}), b, rows);
          KeysApart(account, b, sid);
        }
      case _ =>
    }
  }

  lemma NextGrows(t: Table, m: Move)
    requires Sound(t)
    ensures t.next <= Step(t, m).next
  {
    if m.Result? && m.token in t.lists {
      TakenAllSound(t.(lists := t.lists - {m.token}), t.lists[m.token].account, m.rows);
    }
  }

  lemma StepTokens(t: Table, m: Move, token: nat)
    requires Sound(t) && token < t.next && token !in t.lists
    ensures token < Step(t, m).next && token !in Step(t, m).lists
  {
    if m.Result? && m.token in t.lists {
      TakenAllSound(t.(lists := t.lists - {m.token}), t.lists[m.token].account, m.rows);
    }
  }

  lemma {:induction false} RunTokens(t: Table, moves: seq<Move>, token: nat)
    requires Sound(t) && token < t.next && token !in t.lists
    ensures token !in Run(t, moves).lists
    decreases |moves|
  {
    if moves != [] {
      StepTokens(t, moves[0], token);
      StepSound(t, moves[0]);
      RunTokens(Step(t, moves[0]), moves[1..], token);
    }
  }

  lemma {:induction false} RunShadows(t: Table, moves: seq<Move>, token: nat, account: string, sid: string)
    requires Sound(t) && AccountsOneLine(t) && Shadowed(t, token, account, sid)
    requires forall m | m in moves :: PlainMove(m)
    ensures token in Run(t, moves).lists ==> Shadowed(Run(t, moves), token, account, sid)
    ensures Sound(Run(t, moves))
    decreases |moves|
  {
    if moves != [] {
      var u := Step(t, moves[0]);
      StepSound(t, moves[0]);
      StepOneLine(t, moves[0]);
      StepShadows(t, moves[0], token, account, sid);
      if token in u.lists {
        RunShadows(u, moves[1..], token, account, sid);
      } else {
        NextGrows(t, moves[0]);
        RunTokens(u, moves[1..], token);
        RunSound(u, moves[1..]);
      }
    }
  }

  lemma CrossedOffNotAdded(t: Table, account: string, rows: seq<Listing>, asOf: nat, sid: string)
    requires Sound(t) && Key(account, sid) in t.dismissed && IndexOf(t.calls, account, sid) < 0
    ensures IndexOf(Snapshot(t, account, rows, asOf).calls, account, sid) < 0
  {
    var u, v := Snapshot(t, account, rows, asOf), TakenAll(t, account, rows);
    TakenAdds(t, account, rows, v);
    TakenAllExtends(t, account, rows);
    forall i | 0 <= i < |v.calls| ensures !Names(v.calls[i], account, sid) {
      if i < |t.calls| {
        assert Follows(t.calls[i], v.calls[i]);
      } else {
        assert Added(t, account, rows, v.calls[i]);
      }
    }
    assert forall i | 0 <= i < |u.calls| :: !Names(u.calls[i], account, sid);
  }

  // A call dismissed while a list is out is not brought back by that list,
  // however late it comes and whatever happens first.
  lemma ADismissedCallStaysGone(t: Table, token: nat, sid: string, moves: seq<Move>, rows: seq<Listing>)
    requires Sound(t) && AccountsOneLine(t) && token in t.lists
    requires IndexOf(t.calls, t.lists[token].account, sid) >= 0
    requires forall m | m in moves :: PlainMove(m)
    ensures var account := t.lists[token].account;
            var w := Run(Dismissed(t, account, sid), moves);
            IndexOf(w.calls, account, sid) < 0 ==> IndexOf(Resulted(w, token, rows).calls, account, sid) < 0
  {
    var account := t.lists[token].account;
    var u := Dismissed(t, account, sid);
    DismissedSound(t, account, sid);
    RunShadows(u, moves, token, account, sid);
    var w := Run(u, moves);
    if token in w.lists && IndexOf(w.calls, account, sid) < 0 {
      CrossedOffNotAdded(w.(lists := w.lists - {token}), account, rows, w.lists[token].order, sid);
    }
  }
}
