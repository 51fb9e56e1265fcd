// Desktop alerts, one popup to a chat, over a bus whose answers come back late.

module Alerts {
  import opened Wrappers

  datatype Alert = Alert(nick: string, body: string, unread: int, mention: bool)

  // The state of a chat that has been shown and not yet cleared away. While
  // inFlight an answer is owed, and queued or retractQueued says what to do
  // when it comes.
  datatype Entry = Entry(
    id: nat,                 // 0 until the daemon has named the popup
    inFlight: bool,
    queued: Option<Alert>,
    retractQueued: bool)

  datatype Call = Notify(key: string, alert: Alert, over: nat) | Close(id: nat)

  datatype Notifier = Notifier(
    resolved: bool,
    available: bool,
    held: map<string, Alert>,
    entries: map<string, Entry>,
    byId: map<nat, string>,
    sent: seq<Call>)         // every call put on the bus, in order

  const NO_ENTRY := Entry(0, false, None, false)

  function EntryOf(n: Notifier, key: string): Entry {
    if key in n.entries then n.entries[key] else NO_ENTRY
  }

  function Showing(n: Notifier, key: string, alert: Alert): Notifier {
    if !n.resolved then n.(held := n.held[key := alert])
    else if !n.available then n
    else
      var e := EntryOf(n, key);
      if e.inFlight
      then n.(entries := n.entries[key := e.(queued := Some(alert), retractQueued := false)])
      else n.(entries := n.entries[key := e.(inFlight := true)], sent := n.sent + [Notify(key, alert, e.id)])
  }

  function Retracting(n: Notifier, key: string): Notifier {
    var m := n.(held := n.held - {key});
    if key !in m.entries then m
    else
      var e := m.entries[key];
      if e.inFlight then m.(entries := m.entries[key := e.(queued := None, retractQueued := true)])
      else if e.id != 0
      then m.(sent := m.sent + [Close(e.id)], byId := m.byId - {e.id}, entries := m.entries - {key})
      else m.(entries := m.entries - {key})
  }

  function RetractingEach(n: Notifier, keys: seq<string>): Notifier
    decreases |keys|
  {
    if keys == [] then n else RetractingEach(Retracting(n, keys[0]), keys[1..])
  }

  function ShowingEach(n: Notifier, keys: seq<string>, alerts: map<string, Alert>): Notifier
    requires forall k | k in keys :: k in alerts
    decreases |keys|
  {
    if keys == [] then n else ShowingEach(Showing(n, keys[0], alerts[keys[0]]), keys[1..], alerts)
  }

  function RetractingAll(n: Notifier, order: seq<string>): Notifier {
    RetractingEach(n.(held := map[]), order)
  }

  // The daemon's capabilities are back, or there is no daemon.
  function Resolving(n: Notifier, ok: bool, order: seq<string>): Notifier
    requires forall k | k in order :: k in n.held
  {
    if !ok then n.(resolved := true, held := map[])
    else ShowingEach(n.(resolved := true, available := true, held := map[]), order, n.held)
  }

  function Settling(n: Notifier, key: string): Notifier
    requires key in n.entries
  {
    var e := n.entries[key];
    if e.retractQueued then Retracting(n.(entries := n.entries[key := e.(retractQueued := false)]), key)
    else if e.queued.Some? then
      n.(entries := n.entries[key := e.(queued := None, inFlight := true)],
         sent := n.sent + [Notify(key, e.queued.value, e.id)])
    else if e.id == 0 then n.(entries := n.entries - {key})
    else n
  }

  // The reply is taken in before what piled up behind it is looked at.
  function Landing(n: Notifier, key: string, id: nat, ok: bool): Notifier
    requires key in n.entries
  {
    var e := n.entries[key].(inFlight := false);
    if ok && id != 0 then
      var less := if e.id != 0 && e.id != id then n.byId - {e.id} else n.byId;
      n.(entries := n.entries[key := e.(id := id)], byId := less[id := key])
    else n.(entries := n.entries[key := e])
  }

  function Replied(n: Notifier, key: string, id: nat, ok: bool): Notifier {
    if key !in n.entries then n else Settling(Landing(n, key, id, ok), key)
  }

  function Closed(n: Notifier, id: nat): Notifier {
    if id !in n.byId then n
    else
      var key := n.byId[id];
      var m := n.(byId := n.byId - {id});
      if key == "" || key !in m.entries || m.entries[key].id != id then m
      else
        var e := m.entries[key].(id := 0);
        if !e.inFlight && e.queued.None? && !e.retractQueued then m.(entries := m.entries - {key})
        else m.(entries := m.entries[key := e])
  }

  // A live id and its chat name each other.
  ghost predicate Inverse(n: Notifier) {
    && (forall id: nat | id in n.byId :: id != 0 && n.byId[id] in n.entries && n.entries[n.byId[id]].id == id)
    && (forall k | k in n.entries && n.entries[k].id != 0 ::
          n.entries[k].id in n.byId && n.byId[n.entries[k].id] == k)
  }

  lemma LandingKeepsThemSo(n: Notifier, key: string, id: nat, ok: bool)
    requires Inverse(n) && (id in n.byId ==> n.byId[id] == key) && key in n.entries
    ensures Inverse(Landing(n, key, id, ok)) && key in Landing(n, key, id, ok).entries
  {}

  // Any answer leaves them so, also one that names another id than the one it
  // was asked to take over, as long as no other chat has that id.
  lemma AnAnswerKeepsThemSo(n: Notifier, key: string, id: nat, ok: bool)
    requires Inverse(n) && (id in n.byId ==> n.byId[id] == key)
    ensures Inverse(Replied(n, key, id, ok))
  {
    if key in n.entries {
      LandingKeepsThemSo(n, key, id, ok);
      SettlingKeepsThemSo(Landing(n, key, id, ok), key);
    }
  }

  lemma SettlingKeepsThemSo(n: Notifier, key: string)
    requires Inverse(n) && key in n.entries
    ensures Inverse(Settling(n, key))
  {
    var e := n.entries[key];
    if e.retractQueued {
      RetractingKeepsThemSo(n.(entries := n.entries[key := e.(retractQueued := false)]), key);
    }
  }

  lemma RetractingKeepsThemSo(n: Notifier, key: string)
    requires Inverse(n)
    ensures Inverse(Retracting(n, key))
  {}
}

module FdoNotifier {
  import opened Wrappers
  import opened Alerts

  class FdoNotifier {
    var resolved: bool
    var available: bool
    var held: map<string, Alert>
    var entries: map<string, Entry>
    var byId: map<nat, string>
    var sent: seq<Call>

    ghost function State(): Notifier
      reads this
    {
      Notifier(resolved, available, held, entries, byId, sent)
    }

    constructor (connected: bool)
      ensures State() == Notifier(!connected, false, map[], map[], map[], [])
    {
      resolved, available, held, entries, byId, sent := !connected, false, map[], map[], map[], [];
    }

    method SendNotify(key: string, alert: Alert, over: nat)
      modifies `sent
      ensures sent == old(sent) + [Notify(key, alert, over)]
    {
      sent := sent + [Notify(key, alert, over)];
    }

    method SendClose(id: nat)
      modifies `sent
      ensures sent == old(sent) + [Close(id)]
    {
      sent := sent + [Close(id)];
    }

    // A second Notify without the id the first is about to be given would put
    // up another popup, so it is held until that id is known.
    method Show(key: string, alert: Alert)
      modifies this
      ensures State() == Showing(old(State()), key, alert)
    {
      if !resolved {
        held := held[key := alert];
        return;
      }
      if !available { return; }
      var entry := if key in entries then entries[key] else NO_ENTRY;
      if entry.inFlight {
        entries := entries[key := entry.(queued := Some(alert), retractQueued := false)];
        return;
      }
      entries := entries[key := entry.(inFlight := true)];
      SendNotify(key, alert, entry.id);
    }

    method Retract(key: string)
      modifies this
      ensures State() == Retracting(old(State()), key)
    {
      held := held - {key};
      if key !in entries { return; }
      var entry := entries[key];
      if entry.inFlight {
        entries := entries[key := entry.(queued := None, retractQueued := true)];
        return;
      }
      if entry.id != 0 {
        SendClose(entry.id);
        byId := byId - {entry.id};
      }
      entries := entries - {key};
    }

    // order is the hash's own order of its keys.
    method RetractAll(order: seq<string>)
      modifies this
      ensures State() == RetractingAll(old(State()), order)
    {
      held := map[];
      var i := 0;
      while i < |order|
        invariant i <= |order|
        invariant RetractingEach(State(), order[i..]) == RetractingAll(old(State()), order)
      {
        assert order[i..][0] == order[i] && order[i..][1..] == order[i + 1..];
        Retract(order[i]);
        i := i + 1;
      }
    }

    method OnCapabilities(ok: bool, order: seq<string>)
      requires forall k | k in order :: k in held
      modifies this
      ensures State() == Resolving(old(State()), ok, order)
    {
      resolved := true;
      if !ok {
        held := map[];
        return;
      }
      available := true;
      var waiting := held;
      held := map[];
      var i := 0;
      while i < |order|
        invariant i <= |order|
        invariant ShowingEach(State(), order[i..], waiting) == Resolving(old(State()), ok, order)
      {
        assert order[i..][0] == order[i] && order[i..][1..] == order[i + 1..];
        Show(order[i], waiting[order[i]]);
        i := i + 1;
      }
    }

    method Settle(key: string)
      requires key in entries
      modifies this
      ensures State() == Settling(old(State()), key)
    {
      var entry := entries[key];
      if entry.retractQueued {
        entries := entries[key := entry.(retractQueued := false)];
        Retract(key);
        return;
      }
      if entry.queued.Some? {
        entries := entries[key := entry.(queued := None, inFlight := true)];
        SendNotify(key, entry.queued.value, entry.id);
        return;
      }
      if entry.id == 0 { entries := entries - {key}; }
    }

    method OnNotifyReply(key: string, id: nat, ok: bool)
      modifies this
      ensures State() == Replied(old(State()), key, id, ok)
    {
      if key !in entries { return; }
      var entry := entries[key].(inFlight := false);
      if ok && id != 0 {
        if entry.id != 0 && entry.id != id { byId := byId - {entry.id}; }
        entry := entry.(id := id);
        byId := byId[id := key];
      }
      entries := entries[key := entry];
      Settle(key);
    }

    method OnNotificationClosed(id: nat)
      modifies this
      ensures State() == Closed(old(State()), id)
    {
      if id !in byId { return; }
      var key := byId[id];
      byId := byId - {id};
      if key == "" { return; }
      if key !in entries || entries[key].id != id { return; }
      var entry := entries[key].(id := 0);
      if !entry.inFlight && entry.queued.None? && !entry.retractQueued {
        entries := entries - {key};
      } else {
        entries := entries[key := entry];
      }
    }

    // The chat whose live alert was clicked, and none for any other id.
    method OnActionInvoked(id: nat, action: string) returns (activated: Option<string>)
      ensures Inverse(State()) && "" !in entries ==>
                forall key :: activated == Some(key) <==>
                  action == "default" && id != 0 && key in entries && entries[key].id == id
      ensures activated.Some? ==> id in byId && activated.value == byId[id] != ""
    {
      if action != "default" { return None; }
      if id !in byId || byId[id] == "" { return None; }
      return Some(byId[id]);
    }
  }
}
