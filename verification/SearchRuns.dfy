// The search as its user sees it: what was typed, set and started, read from the
// events alone, and the rows that come of it.

module SearchRuns {
  import opened SearchPages

  // ------------------------------------------------------ what the user has done

  // The last of each kind, "" if there was none.
  function AccountSet(events: seq<Event>): string {
    if events == [] then ""
    else if events[|events| - 1].Account? then events[|events| - 1].account
    else AccountSet(events[..|events| - 1])
  }

  function ChatSet(events: seq<Event>): string {
    if events == [] then ""
    else if events[|events| - 1].Chat? then events[|events| - 1].chat
    else ChatSet(events[..|events| - 1])
  }

  function Typed(events: seq<Event>): string {
    if events == [] then ""
    else if events[|events| - 1].Type? then events[|events| - 1].query
    else Typed(events[..|events| - 1])
  }

  // The k-th event starts a search for q.
  predicate AsksFor(events: seq<Event>, k: nat, q: string)
    requires k < |events|
  {
    events[k] == Start && AccountSet(events[..k]) != "" && Typed(events[..k]) == q && q != ""
  }

  // The k-th event ends whatever search there was.
  predicate Drops(events: seq<Event>, k: nat)
    requires k < |events|
  {
    match events[k]
    case Clear => true
    case Account(account) => account != AccountSet(events[..k])
    case Chat(chat) => chat != ChatSet(events[..k])
    case _ => false
  }

  // q is what was last searched for, and the search still stands.
  ghost predicate SearchedFor(events: seq<Event>, q: string) {
    exists k: nat ::
      && k < |events| && AsksFor(events, k, q)
      && forall i: nat | k < i < |events| :: !Drops(events, i) && !AsksFor(events, i, Typed(events[..i]))
  }

  ghost predicate Searching(events: seq<Event>) { exists q :: SearchedFor(events, q) }

  // ------------------------------------------------------------- one event more

  lemma {:induction false} RunSnoc(s: Search, events: seq<Event>, e: Event)
    ensures Run(s, events + [e]) == Step(Run(s, events), e)
    decreases |events|
  {
    if events == [] {
      assert (events + [e])[1..] == [];
    } else {
      assert (events + [e])[1..] == events[1..] + [e];
      RunSnoc(Step(s, events[0]), events[1..], e);
    }
  }

  lemma SetMore(events: seq<Event>, e: Event)
    ensures AccountSet(events + [e]) == if e.Account? then e.account else AccountSet(events)
    ensures ChatSet(events + [e]) == if e.Chat? then e.chat else ChatSet(events)
    ensures Typed(events + [e]) == if e.Type? then e.query else Typed(events)
  {
    assert (events + [e])[..|events|] == events;
  }

  lemma AsksMore(events: seq<Event>, e: Event)
    ensures var more := events + [e];
            && (forall i: nat, q | i < |events| :: AsksFor(more, i, q) <==> AsksFor(events, i, q))
            && (forall i: nat | i < |events| ::
                  (Drops(more, i) <==> Drops(events, i)) && Typed(more[..i]) == Typed(events[..i]))
            && more[..|events|] == events && more[|events|] == e
  {
    assert forall i: nat | i < |events| :: (events + [e])[..i] == events[..i];
  }

  predicate AsksNow(events: seq<Event>, e: Event) {
    e == Start && AccountSet(events) != "" && Typed(events) != ""
  }

  predicate DropsNow(events: seq<Event>, e: Event) {
    e == Clear || (e.Account? && e.account != AccountSet(events)) || (e.Chat? && e.chat != ChatSet(events))
  }

  lemma SearchedMore(events: seq<Event>, e: Event, q: string)
    ensures SearchedFor(events + [e], q) <==>
              (AsksNow(events, e) && q == Typed(events))
              || (!AsksNow(events, e) && !DropsNow(events, e) && SearchedFor(events, q))
  {
    var more, n := events + [e], |events|;
    AsksMore(events, e);
    if AsksNow(events, e) && q == Typed(events) {
      assert AsksFor(more, n, q);
    }
    if !AsksNow(events, e) && !DropsNow(events, e) && SearchedFor(events, q) {
      StillSearched(events, e, q);
    }
    if SearchedFor(more, q) {
      WasSearched(events, e, q);
    }
  }

  lemma StillSearched(events: seq<Event>, e: Event, q: string)
    requires !AsksNow(events, e) && !DropsNow(events, e) && SearchedFor(events, q)
    ensures SearchedFor(events + [e], q)
  {
    var more, n := events + [e], |events|;
    AsksMore(events, e);
    var k: nat :| k < n && AsksFor(events, k, q)
                  && forall i: nat | k < i < n :: !Drops(events, i) && !AsksFor(events, i, Typed(events[..i]));
    assert AsksFor(more, k, q);
    forall i: nat | k < i < |more| ensures !Drops(more, i) && !AsksFor(more, i, Typed(more[..i])) {
      if i == n { assert more[..i] == events; }
    }
  }

  lemma WasSearched(events: seq<Event>, e: Event, q: string)
    requires SearchedFor(events + [e], q)
    ensures (AsksNow(events, e) && q == Typed(events))
            || (!AsksNow(events, e) && !DropsNow(events, e) && SearchedFor(events, q))
  {
    var more, n := events + [e], |events|;
    AsksMore(events, e);
    var k: nat :| k < |more| && AsksFor(more, k, q)
                  && forall i: nat | k < i < |more| :: !Drops(more, i) && !AsksFor(more, i, Typed(more[..i]));
    if k < n {
      assert !Drops(more, n) && !AsksFor(more, n, Typed(more[..n]));
      forall i: nat | k < i < n ensures !Drops(events, i) && !AsksFor(events, i, Typed(events[..i])) {
        assert !Drops(more, i) && !AsksFor(more, i, Typed(more[..i]));
      }
      assert AsksFor(events, k, q);
    }
  }

  // ------------------------------------------------------------ what comes of it

  // The model holds what was set and typed, and is searching for what the
  // standing search asked for, or is as it was before any.
  ghost predicate Tells(events: seq<Event>, s: Search) {
    && s.account == AccountSet(events) && s.chat == ChatSet(events) && s.query == Typed(events)
    && (forall q | SearchedFor(events, q) :: s.matched == q && s.searched)
    && (Searching(events) ==> s.matched != "")
    && (!Searching(events) ==>
          s.matched == "" && !s.searched && s.token == 0 && s.cursorTs == 0 && !s.complete && s.msgs == [])
  }

  lemma TellsMore(events: seq<Event>, s: Search, e: Event)
    requires Tells(events, s)
    ensures Tells(events + [e], Step(s, e))
  {
    var more := events + [e];
    SetMore(events, e);
    forall q ensures SearchedFor(more, q) <==>
                       (AsksNow(events, e) && q == Typed(events))
                       || (!AsksNow(events, e) && !DropsNow(events, e) && SearchedFor(events, q))
    {
      SearchedMore(events, e, q);
    }
    if AsksNow(events, e) { assert SearchedFor(more, Typed(events)); }
    if !AsksNow(events, e) && !DropsNow(events, e) && Searching(events) {
      var q :| SearchedFor(events, q);
      assert SearchedFor(more, q);
    }
  }

  lemma {:induction false} TheModelTells(events: seq<Event>)
    ensures Tells(events, Run(FRESH, events))
    decreases |events|
  {
    if events == [] {
      assert forall q :: !SearchedFor(events, q);
    } else {
      var init, e := events[..|events| - 1], events[|events| - 1];
      assert events == init + [e];
      TheModelTells(init);
      RunSnoc(FRESH, init, e);
      TellsMore(init, Run(FRESH, init), e);
    }
  }

  // Once a page of the standing search is in, the rows are the first of what the
  // store has for the words typed when it was started, in the account and chat
  // set, with none left out or repeated; all of it once the search is complete
  // and has not failed; and with no search standing there are no rows.
  lemma PagesAddUp(archive: Archive, events: seq<Event>, q: string)
    requires ArchiveOk(archive) && AllHonest(FRESH, archive, events)
    ensures var s := Run(FRESH, events);
            var all := archive(AccountSet(events), ChatSet(events), q);
            && (SearchedFor(events, q) && (s.cursorTs != 0 || (s.complete && !s.failed)) ==>
                  s.msgs <= all && NoneTwice(s.msgs))
            && (SearchedFor(events, q) && s.complete && !s.failed ==> s.msgs == all)
            && (!Searching(events) ==> s.msgs == [] && s.token == 0)
            && s.resultChats == FirstSeen(s.msgs)
  {
    SearchPages.PagesAddUp(archive, events);
    TheModelTells(events);
  }

  // A search that is started asks the backend for what is typed, in the account
  // and chat set, from the top, under a token of its own; without an account or
  // words there is nothing to ask.
  lemma StartAsksForWhatIsTyped(events: seq<Event>)
    ensures var s, t := Run(FRESH, events), Run(FRESH, events + [Start]);
            if AccountSet(events) == "" || Typed(events) == "" then t == s
            else
              && t.token == s.next && t.token in t.asks && t.next > t.token
              && t.asks[t.token] == Ask(AccountSet(events), ChatSet(events), Typed(events), 0, "")
              && t.msgs == s.msgs && !t.failed && !t.complete
  {
    TheModelTells(events);
    RunSnoc(FRESH, events, Start);
  }

  // ----------------------------------------------------- and all of it, in the end

  // More asks for the page after the last row, if there may be one.
  lemma MoreAsksForTheRest(archive: Archive, events: seq<Event>, q: string)
    requires ArchiveOk(archive) && AllHonest(FRESH, archive, events) && SearchedFor(events, q)
    ensures var s, t := Run(FRESH, events), Run(FRESH, events + [More]);
            if s.token != 0 || s.complete || s.cursorTs == 0 then t == s
            else
              && s.msgs != [] && t.token == s.next && t.token in t.asks && t.msgs == s.msgs
              && t.asks[t.token] == Ask(AccountSet(events), ChatSet(events), q, s.msgs[|s.msgs| - 1].timestamp,
                                        if ChatSet(events) == "" then s.msgs[|s.msgs| - 1].chat else "")
  {
    RunSound(FRESH, archive, events);
    TheModelTells(events);
    RunSnoc(FRESH, events, More);
  }

  // The next page of a list of matches, of n hits at most.
  function NextOf(all: seq<Hit>, k: nat, n: nat): Page
    requires k <= |all| && n > 0
  {
    var end := if k + n < |all| then k + n else |all|;
    if k == end then Page([], 0, "", true)
    else Page(all[k..end], all[end - 1].timestamp, all[end - 1].chat, end == |all|)
  }

  ghost predicate Waits(s: Search, archive: Archive, k: nat) {
    && Sound(s, archive) && s.token != 0 && k <= |Matches(s, archive)|
    && k == (if s.appending then |s.msgs| else 0)
  }

  lemma NextIsHonest(s: Search, archive: Archive, k: nat, n: nat)
    requires ArchiveOk(archive) && Waits(s, archive, k) && n > 0
    ensures Honest(s, archive, Result(s.token, NextOf(Matches(s, archive), k, n)))
  {
    var all, ask := Matches(s, archive), s.asks[s.token];
    var end := if k + n < |all| then k + n else |all|;
    assert StoreOk(all) && InChat(all, s.chat);
    if s.appending {
      assert all[k - 1] == s.msgs[k - 1];
      forall i: nat | i < |all| ensures Past(all, i, ask.before, ask.beforeChat) <==> k <= i {
        PastTheCursor(all, k, i, s.chat);
      }
    }
    assert Begins(all, k, ask) && NextPage(all, k, end - k, NextOf(all, k, n));
  }

  // What stands past a row's own cursor is what follows it.
  lemma PastTheCursor(all: seq<Hit>, k: nat, i: nat, chat: string)
    requires StoreOk(all) && InChat(all, chat) && 0 < k <= |all| && i < |all|
    requires chat != "" ==> forall a, b | 0 <= a < b < |all| :: all[a].timestamp != all[b].timestamp
    ensures Past(all, i, all[k - 1].timestamp, if chat == "" then all[k - 1].chat else "") <==> k <= i
  {}

  // Answers of at most n hits, and pages asked for.
  ghost predicate Paging(events: seq<Event>, n: nat) {
    forall e | e in events :: e == More || (e.Result? && |e.page.messages| <= n)
  }

  ghost predicate Reached(s: Search, archive: Archive, events: seq<Event>, n: nat, all: seq<Hit>) {
    && AllHonest(s, archive, events) && Paging(events, n)
    && Run(s, events).msgs == all && Run(s, events).complete && !Run(s, events).failed
  }

  lemma ReachedAfter(s: Search, archive: Archive, e: Event, events: seq<Event>, n: nat, all: seq<Hit>)
    requires Honest(s, archive, e) && (e == More || (e.Result? && |e.page.messages| <= n))
    requires Reached(Step(s, e), archive, events, n, all)
    ensures Reached(s, archive, [e] + events, n, all)
  {
    assert ([e] + events)[1..] == events;
  }

  lemma NextLands(s: Search, archive: Archive, k: nat, n: nat)
    requires ArchiveOk(archive) && Waits(s, archive, k) && n > 0
    ensures var all := Matches(s, archive);
            var t := Step(s, Result(s.token, NextOf(all, k, n)));
            && t == s.(token := 0, msgs := t.msgs, resultChats := t.resultChats, cursorTs := t.cursorTs,
                       cursorChat := t.cursorChat, complete := t.complete)
            && t.msgs == all[..if k + n < |all| then k + n else |all|]
            && t.complete == (k + n >= |all|) && (k + n < |all| ==> t.cursorTs != 0)
  {
    var all := Matches(s, archive);
    var end := if k + n < |all| then k + n else |all|;
    assert (if s.appending then s.msgs else []) == all[..k];
    assert all[..k] + all[k..end] == all[..end];
    assert StoreOk(all);
  }

  lemma MoreWaits(t: Search, archive: Archive)
    requires ArchiveOk(archive) && Sound(t, archive)
    requires t.token == 0 && !t.complete && t.cursorTs != 0 && t.matched != ""
    ensures var u := Step(t, More);
            && u.token != 0 && u.appending
            && u == t.(token := u.token, appending := true, next := u.next, asks := u.asks)
            && Sound(u, archive) && Waits(u, archive, |t.msgs|)
  {
    StepSound(t, archive, More);
  }

  // One page of the rest comes in.
  lemma NextComes(s: Search, archive: Archive, k: nat, n: nat)
    requires ArchiveOk(archive) && Waits(s, archive, k) && n > 0 && s.matched != ""
    ensures var all := Matches(s, archive);
            var e := Result(s.token, NextOf(all, k, n));
            var t := Step(s, e);
            && Honest(s, archive, e) && |e.page.messages| <= n
            && if k + n >= |all| then t.msgs == all && t.complete && !t.failed
               else Waits(Step(t, More), archive, k + n) && Step(t, More).matched == s.matched
                    && Matches(Step(t, More), archive) == all
  {
    var all := Matches(s, archive);
    var e := Result(s.token, NextOf(all, k, n));
    NextIsHonest(s, archive, k, n);
    StepSound(s, archive, e);
    NextLands(s, archive, k, n);
    assert all[..|all|] == all;
    if k + n < |all| { MoreWaits(Step(s, e), archive); }
  }

  // However few hits a page brings, paging on ends with every match there is.
  lemma {:induction false} EveryMatchIsReached(s: Search, archive: Archive, k: nat, n: nat) returns (events: seq<Event>)
    requires ArchiveOk(archive) && Waits(s, archive, k) && n > 0 && s.matched != ""
    ensures Reached(s, archive, events, n, Matches(s, archive))
    decreases |Matches(s, archive)| - k
  {
    var all := Matches(s, archive);
    var e := Result(s.token, NextOf(all, k, n));
    NextComes(s, archive, k, n);
    if k + n >= |all| {
      events := [];
    } else {
      var u := Step(Step(s, e), More);
      var rest := EveryMatchIsReached(u, archive, k + n, n);
      ReachedAfter(Step(s, e), archive, More, rest, n, all);
      events := [More] + rest;
    }
    ReachedAfter(s, archive, e, events, n, all);
    events := [e] + events;
  }

  // So from any point of any run, starting a search and paging on shows every
  // match of the words typed.
  lemma StartingFindsThemAll(archive: Archive, events: seq<Event>, n: nat) returns (more: seq<Event>)
    requires ArchiveOk(archive) && AllHonest(FRESH, archive, events) && n > 0
    requires AccountSet(events) != "" && Typed(events) != ""
    ensures Reached(Run(FRESH, events + [Start]), archive, more, n,
                    archive(AccountSet(events), ChatSet(events), Typed(events)))
  {
    RunSound(FRESH, archive, events);
    TheModelTells(events);
    RunSnoc(FRESH, events, Start);
    StepSound(Run(FRESH, events), archive, Start);
    more := EveryMatchIsReached(Run(FRESH, events + [Start]), archive, 0, n);
  }

  // A refused first page leaves nothing to be taken for its answer, a refused
  // later one leaves the rows; either way the search is over and says so, until
  // it is started again.
  lemma ARefusalEndsTheSearch(s: Search, archive: Archive, token: nat)
    requires Sound(s, archive)
    ensures var t := Step(s, Error(token));
            if token == 0 || token != s.token then t == s
            else
              && t.token == 0 && t.failed && t.complete
              && t.msgs == (if s.cursorTs == 0 then [] else s.msgs) && t.resultChats == FirstSeen(t.msgs)
              && Step(t, More) == t
  {}

  // ---------------------------------------------------------------- never stuck

  // A search that stands waits for an answer, has more to ask for, or is over.
  ghost predicate GoesOn(events: seq<Event>, s: Search) {
    s.next > 0 && (Searching(events) ==> s.token != 0 || s.complete || s.cursorTs != 0)
  }

  lemma GoesOnMore(events: seq<Event>, s: Search, e: Event)
    requires Tells(events, s) && GoesOn(events, s)
    ensures GoesOn(events + [e], Step(s, e))
  {
    if Searching(events + [e]) {
      var q :| SearchedFor(events + [e], q);
      SearchedMore(events, e, q);
      assert AsksNow(events, e) || Searching(events);
    }
  }

  lemma {:induction false} AlwaysGoesOn(events: seq<Event>)
    ensures GoesOn(events, Run(FRESH, events))
    decreases |events|
  {
    if events == [] {
      assert forall q :: !SearchedFor(events, q);
    } else {
      var init, e := events[..|events| - 1], events[|events| - 1];
      assert events == init + [e];
      AlwaysGoesOn(init);
      TheModelTells(init);
      RunSnoc(FRESH, init, e);
      GoesOnMore(init, Run(FRESH, init), e);
    }
  }

  // However it is answered, the search goes on: until it is over, with no answer
  // due, there is a next page to ask for, and it is asked for.
  lemma TheSearchGoesOn(events: seq<Event>)
    ensures var s := Run(FRESH, events);
            Searching(events) && s.token == 0 && !s.complete ==> Step(s, More).token != 0
  {
    AlwaysGoesOn(events);
    TheModelTells(events);
  }
}
