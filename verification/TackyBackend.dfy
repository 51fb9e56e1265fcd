// The bridge's token table: who is still waiting for a reply, over connections
// that come and go.

module Tokens {
  // What a frame from the backend turns out to be.
  datatype Incoming = Result(token: nat) | Error(token: nat) | Other

  // How a token's wait ended: the backend's word, or ours that the request never
  // went out, or that its backend went away, naming what was asked.
  datatype Outcome = Succeeded | Failed | NotSent | Stopped(name: string)

  datatype Told = Told(token: nat, outcome: Outcome)

  // queued holds the refusals the event loop has yet to deliver: a request made
  // with nothing connected fails only after its token has been returned.
  datatype Bridge = Bridge(
    running: bool,
    next: nat,
    inflight: map<nat, string>,
    queued: seq<nat>,
    told: seq<Told>)         // every result and error that went out, in order

  function Asked(b: Bridge, name: string): Bridge {
    if b.running then b.(next := b.next + 1, inflight := b.inflight[b.next := name])
    else b.(next := b.next + 1, queued := b.queued + [b.next])
  }

  function Delivered(b: Bridge, f: Incoming): Bridge {
    if f.Other? then b
    else b.(inflight := b.inflight - {f.token},
            told := b.told + [Told(f.token, if f.Result? then Succeeded else Failed)])
  }

  function StoppedEach(inflight: map<nat, string>, order: seq<nat>): (told: seq<Told>)
    requires forall t | t in order :: t in inflight
    ensures |told| == |order| && forall i | 0 <= i < |order| :: told[i] == Told(order[i], Stopped(inflight[order[i]]))
  {
    seq(|order|, i requires 0 <= i < |order| => Told(order[i], Stopped(inflight[order[i]])))
  }

  // order is the hash's own order of the tokens still in flight.
  function Dropped(b: Bridge, order: seq<nat>): Bridge
    requires forall t | t in order :: t in b.inflight
  {
    b.(running := false, inflight := map[], told := b.told + StoppedEach(b.inflight, order))
  }

  function Connected(b: Bridge): Bridge { b.(running := true) }

  function Pumped(b: Bridge): Bridge
    requires b.queued != []
  {
    b.(queued := b.queued[1..], told := b.told + [Told(b.queued[0], NotSent)])
  }

  // A new transport in place of the old: only a change of state is acted on.
  function Swapped(b: Bridge, up: bool, order: seq<nat>): Bridge
    requires forall t | t in order :: t in b.inflight
  {
    if b.running == up then b else if up then Connected(b) else Dropped(b, order)
  }

  // ------------------------------------------------------------------- any run

  // owed are the tokens the backend has been sent over the connection now up
  // and has not answered; asked, what each token sent was for; and replied, what
  // the backend said to each, if it did.
  datatype System = System(b: Bridge, owed: set<nat>, asked: map<nat, string>, replied: map<nat, bool>)

  const START := System(Bridge(false, 1, map[], [], []), {}, map[], map[])

  datatype Move =
    | Ask(name: string)
    | Reply(frame: Incoming)
    | Connect
    | Drop(order: seq<nat>)
    | Pump
    | Swap(up: bool, order: seq<nat>)

  ghost predicate Lists(order: seq<nat>, tokens: set<nat>) {
    && (forall t: nat :: t in order <==> t in tokens)
    && (forall i, j | 0 <= i < j < |order| :: order[i] != order[j])
  }

  ghost predicate Able(s: System, m: Move) {
    match m
    case Ask(_) => true
    case Reply(f) => s.b.running && (f.Other? || f.token in s.owed)
    case Connect => !s.b.running
    case Drop(order) => s.b.running && Lists(order, s.b.inflight.Keys)
    case Pump => s.b.queued != []
    case Swap(_, order) => Lists(order, s.b.inflight.Keys)
  }

  // A connected transport put straight in the place of another takes the replies
  // still owed away with the old one, and nobody is told.
  predicate Clean(s: System, m: Move) {
    m.Swap? && s.b.running && m.up ==> s.b.inflight == map[]
  }

  ghost predicate Possible(s: System, m: Move) { Able(s, m) && Clean(s, m) }

  ghost function After(s: System, m: Move): System
    requires Able(s, m)
  {
    match m
    case Ask(name) =>
      if s.b.running
      then s.(b := Asked(s.b, name), owed := s.owed + {s.b.next}, asked := s.asked[s.b.next := name])
      else s.(b := Asked(s.b, name))
    case Reply(f) =>
      if f.Other? then s.(b := Delivered(s.b, f))
      else s.(b := Delivered(s.b, f), owed := s.owed - {f.token}, replied := s.replied[f.token := f.Result?])
    case Connect => s.(b := Connected(s.b), owed := {})
    case Drop(order) => s.(b := Dropped(s.b, order), owed := {})
    case Pump => s.(b := Pumped(s.b))
    case Swap(up, order) => s.(b := Swapped(s.b, up, order), owed := {})
  }

  ghost predicate Runs(s: System, moves: seq<Move>)
    decreases |moves|
  {
    moves != [] ==> Possible(s, moves[0]) && Runs(After(s, moves[0]), moves[1..])
  }

  ghost function AfterAll(s: System, moves: seq<Move>): System
    requires Runs(s, moves)
    decreases |moves|
  {
    if moves == [] then s else AfterAll(After(s, moves[0]), moves[1..])
  }

  ghost predicate NoneTwice(tokens: seq<nat>) {
    forall i, j | 0 <= i < j < |tokens| :: tokens[i] != tokens[j]
  }

  function TokensOf(told: seq<Told>): (tokens: seq<nat>)
    ensures |tokens| == |told| && forall i | 0 <= i < |told| :: tokens[i] == told[i].token
  {
    seq(|told|, i requires 0 <= i < |told| => told[i].token)
  }

  // A token is told what became of its request.
  ghost predicate Truly(s: System, t: Told) {
    match t.outcome
    case Succeeded => t.token in s.asked && t.token in s.replied && s.replied[t.token]
    case Failed => t.token in s.asked && t.token in s.replied && !s.replied[t.token]
    case NotSent => t.token !in s.asked && t.token !in s.replied
    case Stopped(name) => t.token in s.asked && s.asked[t.token] == name && t.token !in s.replied
  }

  ghost predicate Honest(s: System) {
    && (forall i | 0 <= i < |s.b.told| :: Truly(s, s.b.told[i]))
    && (forall t | t in s.b.inflight :: t in s.asked && s.asked[t] == s.b.inflight[t] && t !in s.replied)
    && (forall t | t in s.b.queued :: t !in s.asked && t !in s.replied)
    && (forall t: nat | t in s.asked || t in s.replied :: t < s.b.next)
  }

  // Every token handed out has been told its outcome, or waits in the queue, or
  // is in flight, and only one of them; and in flight is exactly what is owed.
  ghost predicate Sound(s: System) {
    var told := TokensOf(s.b.told);
    && s.b.inflight.Keys == s.owed && (!s.b.running ==> s.owed == {})
    && NoneTwice(told) && NoneTwice(s.b.queued)
    && (forall t | t in s.b.queued :: t !in told && t !in s.b.inflight)
    && (forall t | t in s.b.inflight :: t !in told)
    && (forall t: nat :: 0 < t < s.b.next <==> t in told || t in s.b.queued || t in s.b.inflight)
    && s.b.next > 0
  }

  lemma NoneTwiceJoins(a: seq<nat>, b: seq<nat>)
    requires NoneTwice(a) && NoneTwice(b) && forall t | t in b :: t !in a
    ensures NoneTwice(a + b)
  {
    forall i, j | 0 <= i < j < |a + b| ensures (a + b)[i] != (a + b)[j] {
      if i < |a| <= j { assert b[j - |a|] in b; }
    }
  }

  lemma TokensJoin(a: seq<Told>, b: seq<Told>)
    ensures TokensOf(a + b) == TokensOf(a) + TokensOf(b)
  {}

  lemma DropSound(s: System, order: seq<nat>)
    requires Sound(s) && Lists(order, s.b.inflight.Keys)
    ensures Sound(s.(b := Dropped(s.b, order), owed := {}))
  {
    TokensJoin(s.b.told, StoppedEach(s.b.inflight, order));
    assert TokensOf(StoppedEach(s.b.inflight, order)) == order;
    NoneTwiceJoins(TokensOf(s.b.told), order);
  }

  lemma AskSound(s: System, name: string)
    requires Sound(s)
    ensures Sound(After(s, Ask(name)))
  {
    if !s.b.running { NoneTwiceJoins(s.b.queued, [s.b.next]); }
  }

  lemma ReplySound(s: System, f: Incoming)
    requires Sound(s) && Able(s, Reply(f))
    ensures Sound(After(s, Reply(f)))
  {
    if !f.Other? {
      var t := Told(f.token, if f.Result? then Succeeded else Failed);
      TokensJoin(s.b.told, [t]);
      assert TokensOf([t]) == [f.token];
      NoneTwiceJoins(TokensOf(s.b.told), [f.token]);
    }
  }

  lemma PumpSound(s: System)
    requires Sound(s) && s.b.queued != []
    ensures Sound(After(s, Pump))
  {
    var t := Told(s.b.queued[0], NotSent);
    TokensJoin(s.b.told, [t]);
    assert TokensOf([t]) == [s.b.queued[0]];
    NoneTwiceJoins(TokensOf(s.b.told), [s.b.queued[0]]);
    assert forall t: nat :: t in s.b.queued <==> t == s.b.queued[0] || t in s.b.queued[1..];
  }

  lemma DropHonest(s: System, order: seq<nat>)
    requires Sound(s) && Honest(s) && Lists(order, s.b.inflight.Keys)
    ensures Honest(s.(b := Dropped(s.b, order), owed := {}))
  {}

  lemma AskHonest(s: System, name: string)
    requires Sound(s) && Honest(s)
    ensures Honest(After(s, Ask(name)))
  {
    var t, told := After(s, Ask(name)), TokensOf(s.b.told);
    forall i | 0 <= i < |s.b.told| ensures Truly(t, s.b.told[i]) {
      assert Truly(s, s.b.told[i]) && told[i] in told;
    }
  }

  lemma ReplyHonest(s: System, f: Incoming)
    requires Sound(s) && Honest(s) && Able(s, Reply(f))
    ensures Honest(After(s, Reply(f)))
  {
    var t, told := After(s, Reply(f)), TokensOf(s.b.told);
    forall i | 0 <= i < |s.b.told| ensures Truly(t, s.b.told[i]) {
      assert Truly(s, s.b.told[i]) && told[i] in told;
    }
  }

  lemma PumpHonest(s: System)
    requires Honest(s) && s.b.queued != []
    ensures Honest(After(s, Pump))
  {
    assert s.b.queued[0] in s.b.queued;
  }

  lemma StepHonest(s: System, m: Move)
    requires Sound(s) && Honest(s) && Possible(s, m)
    ensures Honest(After(s, m))
  {
    match m {
      case Ask(name) => AskHonest(s, name);
      case Reply(f) => ReplyHonest(s, f);
      case Drop(order) => DropHonest(s, order);
      case Pump => PumpHonest(s);
      case Swap(up, order) => if s.b.running && !up { DropHonest(s, order); }
      case Connect =>
    }
  }

  lemma StepSound(s: System, m: Move)
    requires Sound(s) && Possible(s, m)
    ensures Sound(After(s, m))
  {
    match m {
      case Ask(name) => AskSound(s, name);
      case Reply(f) => ReplySound(s, f);
      case Connect =>
      case Drop(order) => DropSound(s, order);
      case Pump => PumpSound(s);
      case Swap(up, order) => if s.b.running && !up { DropSound(s, order); }
    }
  }

  lemma {:induction false} RunSound(s: System, moves: seq<Move>)
    requires Sound(s) && Honest(s) && Runs(s, moves)
    ensures Sound(AfterAll(s, moves)) && Honest(AfterAll(s, moves))
    decreases |moves|
  {
    if moves != [] {
      StepSound(s, moves[0]);
      StepHonest(s, moves[0]);
      RunSound(After(s, moves[0]), moves[1..]);
    }
  }

  // Over any run: what is in flight is what was sent and not answered, no token
  // is told twice, each is told what became of it, and once the link is down
  // everything sent has been told.
  lemma EveryTokenIsTold(moves: seq<Move>)
    requires Runs(START, moves)
    ensures var s := AfterAll(START, moves);
            var told := TokensOf(s.b.told);
            && s.b.inflight.Keys == s.owed && NoneTwice(told)
            && (forall i | 0 <= i < |s.b.told| :: Truly(s, s.b.told[i]))
            && (forall t: nat | 0 < t < s.b.next :: t in told || t in s.b.queued || t in s.owed)
            && (!s.b.running && s.b.queued == [] ==> forall t: nat | 0 < t < s.b.next :: t in told)
  {
    RunSound(START, moves);
  }

  // Putting a connected transport in the place of a connected one leaves the
  // table right if and only if nothing was in flight.
  lemma SwapIsCleanOrStrands(s: System, order: seq<nat>)
    requires Sound(s) && s.b.running && Able(s, Swap(true, order))
    ensures Sound(After(s, Swap(true, order))) <==> s.b.inflight == map[]
    ensures After(s, Swap(true, order)).b.told == s.b.told
  {}
}

module TackyBackend {
  import opened Tokens

  class TackyBackend {
    var running: bool
    var nextToken: nat
    var inflight: map<nat, string>
    var queued: seq<nat>

    ghost function State(told: seq<Told>): Bridge
      reads this
    {
      Bridge(running, nextToken, inflight, queued, told)
    }

    constructor ()
      ensures State([]) == Bridge(false, 1, map[], [], [])
    {
      running, nextToken, inflight, queued := false, 1, map[], [];
    }

    method SendArray(name: string, token: nat)
      modifies `inflight, `queued
      ensures if running then inflight == old(inflight)[token := name] && queued == old(queued)
              else inflight == old(inflight) && queued == old(queued) + [token]
    {
      if !running {
        queued := queued + [token];
        return;
      }
      inflight := inflight[token := name];
    }

    method Request(name: string, ghost told: seq<Told>) returns (token: nat)
      modifies `inflight, `queued, `nextToken
      ensures token == old(nextToken) && State(told) == Asked(old(State(told)), name)
    {
      token := nextToken;
      nextToken := nextToken + 1;
      SendArray(name, token);
    }

    method Deliver(frame: Incoming, ghost told: seq<Told>) returns (emitted: seq<Told>)
      modifies `inflight
      ensures State(told + emitted) == Delivered(old(State(told)), frame)
    {
      if frame.Other? {
        assert told + [] == told;
        return [];
      }
      inflight := inflight - {frame.token};
      emitted := [Told(frame.token, if frame.Result? then Succeeded else Failed)];
    }

    // order is the hash's own order of the tokens still in flight.
    method OnTransportStateChanged(up: bool, order: seq<nat>, ghost told: seq<Told>) returns (emitted: seq<Told>)
      requires forall t | t in order :: t in inflight
      modifies `running, `inflight
      ensures State(told + emitted) == if up then Connected(old(State(told))) else Dropped(old(State(told)), order)
    {
      running := up;
      emitted := [];
      if up {
        assert told + [] == told;
        return;
      }
      var dead := inflight;
      inflight := map[];
      var i := 0;
      while i < |order|
        invariant i <= |order| && emitted == StoppedEach(dead, order)[..i]
      {
        emitted := emitted + [Told(order[i], Stopped(dead[order[i]]))];
        i := i + 1;
      }
      assert StoppedEach(dead, order)[..i] == StoppedEach(dead, order);
    }

    method SetTransport(up: bool, order: seq<nat>, ghost told: seq<Told>) returns (emitted: seq<Told>)
      requires forall t | t in order :: t in inflight
      modifies `running, `inflight
      ensures State(told + emitted) == Swapped(old(State(told)), up, order)
    {
      if running == up {
        assert told + [] == told;
        return [];
      }
      emitted := OnTransportStateChanged(up, order, told);
    }

    // The event loop gets to the oldest refusal.
    method Pump(ghost told: seq<Told>) returns (emitted: seq<Told>)
      requires queued != []
      modifies `queued
      ensures State(told + emitted) == Pumped(old(State(told)))
    {
      emitted := [Told(queued[0], NotSent)];
      queued := queued[1..];
    }
  }
}
