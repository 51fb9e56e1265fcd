// Search results paged behind a (timestamp, chat) cursor.

module SearchPages {

  datatype Hit = Hit(timestamp: int, chat: string, body: string)

  // What a request asked for; before is 0 on a first page.
  datatype Ask = Ask(account: string, chat: string, query: string, before: int, beforeChat: string)

  // The answer: its cursor is the last hit's, and 0 when there is none.
  datatype Page = Page(messages: seq<Hit>, last: int, lastChat: string, complete: bool)

  datatype Search = Search(
    account: string,
    chat: string,              // "" searches every chat of the account
    query: string,             // what is typed
    matched: string,           // what the rows were searched for
    cursorTs: int,
    cursorChat: string,
    complete: bool,
    searched: bool,
    failed: bool,
    appending: bool,
    token: nat,                // 0 for none
    msgs: seq<Hit>,
    resultChats: seq<string>,
    next: nat,                 // the token the backend hands out next
    asks: map<nat, Ask>)       // every request sent

  datatype Event =
    | Account(account: string) | Chat(chat: string) | Type(query: string)
    | Start | More | Clear
    | Result(token: nat, page: Page) | Error(token: nat)

  // The distinct chats the hits came from, in the order they are first seen.
  function FirstSeen(msgs: seq<Hit>): seq<string> {
    if msgs == [] then []
    else
      var chats, jid := FirstSeen(msgs[..|msgs| - 1]), msgs[|msgs| - 1].chat;
      if jid != "" && jid !in chats then chats + [jid] else chats
  }

  function Forgotten(s: Search): Search {
    s.(matched := "", cursorTs := 0, cursorChat := "", complete := false, failed := false)
  }

  function Cleared(s: Search): Search { s.(msgs := [], resultChats := []) }

  function Reset(s: Search): Search { Forgotten(Cleared(s)).(searched := false) }

  function Cancelled(s: Search): Search { s.(token := 0) }

  function Issued(s: Search, append: bool): Search {
    var ask := Ask(s.account, s.chat, s.matched,
                   if append then s.cursorTs else 0,
                   if append && s.chat == "" then s.cursorChat else "");
    s.(appending := append, token := s.next, next := s.next + 1, asks := s.asks[s.next := ask])
  }

  function Started(s: Search): Search {
    if s.account == "" || s.query == "" then s
    else Issued(Forgotten(Cancelled(s)).(matched := s.query, searched := true), false)
  }

  function Continued(s: Search): Search {
    if s.token != 0 || s.complete || s.cursorTs == 0 || s.matched == "" then s else Issued(s, true)
  }

  function Applied(s: Search, p: Page, append: bool): Search {
    var msgs := (if append then s.msgs else []) + p.messages;
    s.(failed := false, msgs := msgs, resultChats := FirstSeen(msgs),
       cursorTs := p.last, cursorChat := p.lastChat, complete := p.complete || p.last == 0)
  }

  function Failed(s: Search, append: bool): Search {
    (if append then s else Cleared(s)).(failed := true, complete := true)
  }

  function Step(s: Search, e: Event): Search {
    match e
    case Account(account) => if account == s.account then s else Reset(Cancelled(s).(account := account))
    case Chat(chat) => if chat == s.chat then s else Reset(Cancelled(s).(chat := chat))
    case Type(query) => s.(query := query)
    case Start => Started(s)
    case More => Continued(s)
    case Clear => Reset(Cancelled(s))
    case Result(token, page) =>
      if s.token == 0 || token != s.token then s else Applied(Cancelled(s), page, s.appending)
    case Error(token) =>
      if s.token == 0 || token != s.token then s else Failed(Cancelled(s), s.appending)
  }

  function Run(s: Search, events: seq<Event>): Search
    decreases |events|
  {
    if events == [] then s else Run(Step(s, events[0]), events[1..])
  }

  // ---------------------------------------------------------------- the store

  // Every match there is, newest first; hits of a timestamp are of different
  // chats, and every hit has a time.
  ghost predicate StoreOk(all: seq<Hit>) {
    && (forall i | 0 <= i < |all| :: all[i].timestamp > 0)
    && (forall i, j | 0 <= i < j < |all| :: all[i].timestamp >= all[j].timestamp)
    && (forall i, j | 0 <= i < j < |all| :: all[i].timestamp == all[j].timestamp ==> all[i].chat != all[j].chat)
  }

  // With one chat searched the cursor's time is enough.
  ghost predicate InChat(all: seq<Hit>, chat: string) {
    forall i | 0 <= i < |all| :: if chat == "" then all[i].chat != "" else all[i].chat == chat
  }

  type Archive = (string, string, string) -> seq<Hit>

  ghost predicate ArchiveOk(archive: Archive) {
    forall account, chat, query ::
      StoreOk(archive(account, chat, query)) && InChat(archive(account, chat, query), chat)
  }

  // Strictly past the cursor: older, or after the cursor's own hit among those
  // of its time.
  ghost predicate Past(all: seq<Hit>, i: nat, before: int, beforeChat: string)
    requires i < |all|
  {
    all[i].timestamp < before
    || (all[i].timestamp == before && beforeChat != ""
        && exists j :: 0 <= j < i && all[j].timestamp == before && all[j].chat == beforeChat)
  }

  // Where the hits past the cursor begin.
  ghost predicate Begins(all: seq<Hit>, k: nat, ask: Ask) {
    k <= |all|
    && if ask.before == 0 then k == 0
       else forall i: nat | i < |all| :: Past(all, i, ask.before, ask.beforeChat) <==> k <= i
  }

  // The next matches past the cursor, some of them if there are any, with the
  // cursor of the last, and complete only when none is left.
  ghost predicate Faithful(all: seq<Hit>, ask: Ask, p: Page) {
    exists k: nat, n: nat :: Begins(all, k, ask) && NextPage(all, k, n, p)
  }

  ghost predicate NextPage(all: seq<Hit>, k: nat, n: nat, p: Page) {
    && k + n <= |all| && p.messages == all[k..k + n] && (n == 0 ==> k == |all|)
    && (p.complete ==> k + n == |all|)
    && (if n == 0 then p.last == 0 && p.lastChat == ""
        else p.last == all[k + n - 1].timestamp && p.lastChat == all[k + n - 1].chat)
  }

  ghost predicate Honest(s: Search, archive: Archive, e: Event) {
    e.Result? ==> e.token in s.asks
                  && var ask := s.asks[e.token];
                     Faithful(archive(ask.account, ask.chat, ask.query), ask, e.page)
  }

  ghost predicate AllHonest(s: Search, archive: Archive, events: seq<Event>)
    decreases |events|
  {
    events == [] || (Honest(s, archive, events[0]) && AllHonest(Step(s, events[0]), archive, events[1..]))
  }

  // ------------------------------------------------------------- the invariant

  ghost function Matches(s: Search, archive: Archive): seq<Hit> { archive(s.account, s.chat, s.matched) }

  // The rows are the first of the matches, up to the cursor.
  ghost predicate UpToCursor(s: Search, all: seq<Hit>) {
    && s.msgs != [] && s.msgs <= all
    && s.cursorTs == s.msgs[|s.msgs| - 1].timestamp && s.cursorChat == s.msgs[|s.msgs| - 1].chat
  }

  ghost predicate Sound(s: Search, archive: Archive) {
    && (forall t | t in s.asks :: 0 < t < s.next) && s.next > 0
    && s.resultChats == FirstSeen(s.msgs)
    && (s.failed ==> s.complete)
    && (s.cursorTs != 0 ==> UpToCursor(s, Matches(s, archive)))
    && (s.complete && !s.failed ==> s.msgs == Matches(s, archive))
    && (s.token != 0 ==>
          && s.token in s.asks && !s.complete && !s.failed && s.appending == (s.cursorTs != 0)
          && s.asks[s.token] == Ask(s.account, s.chat, s.matched, s.cursorTs,
                                    if s.appending && s.chat == "" then s.cursorChat else ""))
  }

  lemma CursorBegins(all: seq<Hit>, n: nat, chat: string, k: nat, ask: Ask)
    requires StoreOk(all) && InChat(all, chat) && 0 < n <= |all|
    requires ask.before == all[n - 1].timestamp && ask.beforeChat == (if chat == "" then all[n - 1].chat else "")
    requires Begins(all, k, ask)
    ensures k == n
  {
    assert Past(all, n - 1, ask.before, ask.beforeChat) ==> false;
    if n < |all| { assert Past(all, n, ask.before, ask.beforeChat); }
  }

  lemma AppliedSound(s: Search, archive: Archive, p: Page, append: bool, end: nat)
    requires Sound(s, archive) && s.token == 0 && StoreOk(Matches(s, archive))
    requires end <= |Matches(s, archive)|
    requires (if append then s.msgs else []) + p.messages == Matches(s, archive)[..end]
    requires p.complete || p.last == 0 ==> end == |Matches(s, archive)|
    requires p.last != 0 ==>
               end > 0 && p.last == Matches(s, archive)[end - 1].timestamp
               && p.lastChat == Matches(s, archive)[end - 1].chat
    ensures Sound(Applied(s, p, append), archive)
  {}

  // An honest page goes on from where the rows end.
  lemma PageFollows(all: seq<Hit>, msgs: seq<Hit>, chat: string, ask: Ask, p: Page) returns (end: nat)
    requires StoreOk(all) && InChat(all, chat) && msgs <= all && Faithful(all, ask, p)
    requires if msgs == [] then ask.before == 0
             else ask.before == msgs[|msgs| - 1].timestamp
                  && ask.beforeChat == (if chat == "" then msgs[|msgs| - 1].chat else "")
    ensures end <= |all| && msgs + p.messages == all[..end]
    ensures p.complete || p.last == 0 ==> end == |all|
    ensures p.last != 0 ==> end > 0 && p.last == all[end - 1].timestamp && p.lastChat == all[end - 1].chat
  {
    assert forall i | 0 <= i < |all| :: all[i].timestamp > 0;
    var k: nat, n: nat :| Begins(all, k, ask) && NextPage(all, k, n, p);
    BeginsAtEnd(all, msgs, chat, k, ask);
    PageEnds(all, msgs, n, p);
    end := k + n;
  }

  lemma BeginsAtEnd(all: seq<Hit>, msgs: seq<Hit>, chat: string, k: nat, ask: Ask)
    requires StoreOk(all) && InChat(all, chat) && msgs <= all && Begins(all, k, ask)
    requires if msgs == [] then ask.before == 0
             else ask.before == msgs[|msgs| - 1].timestamp
                  && ask.beforeChat == (if chat == "" then msgs[|msgs| - 1].chat else "")
    ensures k == |msgs|
  {
    if msgs != [] {
      assert msgs[|msgs| - 1] == all[|msgs| - 1];
      CursorBegins(all, |msgs|, chat, k, ask);
    }
  }

  lemma PageEnds(all: seq<Hit>, msgs: seq<Hit>, n: nat, p: Page)
    requires msgs <= all && NextPage(all, |msgs|, n, p)
    ensures var end := |msgs| + n;
            && end <= |all| && msgs + p.messages == all[..end]
            && (p.complete ==> end == |all|) && (n == 0 ==> p.last == 0 && end == |all|)
            && (n > 0 ==> p.last == all[end - 1].timestamp && p.lastChat == all[end - 1].chat)
  {
    PrefixGrows(msgs, all, n);
  }

  lemma ResultSound(s: Search, archive: Archive, token: nat, p: Page)
    requires ArchiveOk(archive) && Sound(s, archive) && Honest(s, archive, Result(token, p))
    ensures Sound(Step(s, Result(token, p)), archive)
  {
    if s.token != 0 && token == s.token {
      var all := Matches(s, archive);
      var end := PageFollows(all, if s.appending then s.msgs else [], s.chat, s.asks[token], p);
      AppliedSound(Cancelled(s), archive, p, s.appending, end);
    }
  }

  lemma PrefixGrows(msgs: seq<Hit>, all: seq<Hit>, n: nat)
    requires msgs <= all && |msgs| + n <= |all|
    ensures msgs + all[|msgs|..|msgs| + n] == all[..|msgs| + n]
  {}

  lemma StepSound(s: Search, archive: Archive, e: Event)
    requires ArchiveOk(archive) && Sound(s, archive) && Honest(s, archive, e)
    ensures Sound(Step(s, e), archive)
  {
    if e.Result? { ResultSound(s, archive, e.token, e.page); }
  }

  lemma {:induction false} RunSound(s: Search, archive: Archive, events: seq<Event>)
    requires ArchiveOk(archive) && Sound(s, archive) && AllHonest(s, archive, events)
    ensures Sound(Run(s, events), archive)
    decreases |events|
  {
    if events != [] {
      StepSound(s, archive, events[0]);
      RunSound(Step(s, events[0]), archive, events[1..]);
    }
  }

  const FRESH := Search("", "", "", "", 0, "", false, false, false, false, 0, [], [], 1, map[])

  // Whatever is typed, searched, paged and answered, late or in turn: once a
  // page of the current search has been answered the rows are the first of all
  // its matches with none left out or repeated, and all of them once the search
  // is complete and has not failed.
  lemma PagesAddUp(archive: Archive, events: seq<Event>)
    requires ArchiveOk(archive) && AllHonest(FRESH, archive, events)
    ensures var s := Run(FRESH, events);
            var all := Matches(s, archive);
            && (s.cursorTs != 0 || (s.complete && !s.failed) ==> s.msgs <= all && NoneTwice(s.msgs))
            && (s.complete && !s.failed ==> s.msgs == all)
            && s.resultChats == FirstSeen(s.msgs)
  {
    RunSound(FRESH, archive, events);
    assert StoreOk(Matches(Run(FRESH, events), archive));
  }

  ghost predicate NoneTwice(msgs: seq<Hit>) { forall i, j | 0 <= i < j < |msgs| :: msgs[i] != msgs[j] }

  // ------------------------------------------------------------ the chats seen

  lemma {:induction false} ChatsSeen(msgs: seq<Hit>, chats: seq<string>)
    requires chats == FirstSeen(msgs)
    ensures forall c :: c in chats <==> c != "" && SeenBy(msgs, |msgs|, c)
    ensures forall a, b | 0 <= a < b < |chats| :: chats[a] != chats[b]
  {
    if msgs != [] {
      var init, last := msgs[..|msgs| - 1], msgs[|msgs| - 1].chat;
      ChatsSeen(init, FirstSeen(init));
      forall c ensures SeenBy(msgs, |msgs|, c) <==> SeenBy(init, |init|, c) || c == last {
        SeenSame(msgs, init, |init|, c);
        assert SeenBy(msgs, |msgs|, c) <==> SeenBy(msgs, |init|, c) || c == last;
      }
    }
  }

  ghost predicate SeenBy(msgs: seq<Hit>, n: nat, chat: string)
    requires n <= |msgs|
  {
    exists i :: 0 <= i < n && msgs[i].chat == chat
  }

  // A chat seen by an earlier hit than another comes before it.
  lemma {:induction false} ChatsInOrder(msgs: seq<Hit>, a: nat, b: nat, n: nat)
    requires a < b < |FirstSeen(msgs)| && n <= |msgs|
    ensures SeenBy(msgs, n, FirstSeen(msgs)[b]) ==> SeenBy(msgs, n, FirstSeen(msgs)[a])
  {
    ChatsSeen(msgs, FirstSeen(msgs));
    if n < |msgs| {
      var init := msgs[..|msgs| - 1];
      ChatsSeen(init, FirstSeen(init));
      forall c ensures SeenBy(msgs, n, c) <==> SeenBy(init, n, c) { SeenSame(msgs, init, n, c); }
      if b < |FirstSeen(init)| { ChatsInOrder(init, a, b, n); }
    } else {
      assert FirstSeen(msgs)[a] in FirstSeen(msgs);
    }
  }

  lemma SeenSame(msgs: seq<Hit>, init: seq<Hit>, n: nat, chat: string)
    requires n <= |init| <= |msgs| && init == msgs[..|init|]
    ensures SeenBy(msgs, n, chat) <==> SeenBy(init, n, chat)
  {
    if SeenBy(msgs, n, chat) {
      var i :| 0 <= i < n && msgs[i].chat == chat;
      assert init[i].chat == chat;
    }
  }
}

module SearchModel {
  import opened SearchPages

  class SearchModel {
    var account: string
    var chat: string
    var query: string
    var matched: string
    var cursorTs: int
    var cursorChat: string
    var complete: bool
    var searched: bool
    var failed: bool
    var appending: bool
    var token: nat
    var msgs: seq<Hit>
    var resultChats: seq<string>
    var next: nat
    ghost var asks: map<nat, Ask>

    ghost function State(): Search
      reads this
    {
      Search(account, chat, query, matched, cursorTs, cursorChat, complete, searched, failed, appending, token,
             msgs, resultChats, next, asks)
    }

    constructor ()
      ensures State() == FRESH
    {
      account, chat, query, matched, cursorTs, cursorChat := "", "", "", "", 0, "";
      complete, searched, failed, appending, token := false, false, false, false, 0;
      msgs, resultChats, next, asks := [], [], 1, map[];
    }

    method Cancel()
      modifies `token
      ensures token == 0
    {
      token := 0;
    }

    method ForgetPage()
      modifies `matched, `cursorTs, `cursorChat, `complete, `failed
      ensures State() == Forgotten(old(State()))
    {
      matched, cursorTs, cursorChat, complete, failed := "", 0, "", false, false;
    }

    method RebuildResultChats()
      modifies `resultChats
      ensures resultChats == FirstSeen(msgs)
    {
      var chats: seq<string> := [];
      var i := 0;
      while i < |msgs|
        invariant i <= |msgs| && chats == FirstSeen(msgs[..i])
      {
        assert msgs[..i + 1][..i] == msgs[..i];
        var jid := msgs[i].chat;
        if jid != "" && jid !in chats { chats := chats + [jid]; }
        i := i + 1;
      }
      assert msgs[..i] == msgs;
      resultChats := chats;
    }

    method ClearRows()
      modifies `msgs, `resultChats
      ensures msgs == [] && resultChats == []
    {
      msgs := [];
      RebuildResultChats();
    }

    method Clear()
      modifies this
      ensures State() == Reset(Cancelled(old(State())))
    {
      Cancel();
      ClearRows();
      ForgetPage();
      searched := false;
    }

    method SetAccount(acc: string)
      modifies this
      ensures State() == Step(old(State()), Account(acc))
    {
      if account == acc { return; }
      Cancel();
      account := acc;
      Clear();
    }

    method SetChat(to: string)
      modifies this
      ensures State() == Step(old(State()), Chat(to))
    {
      if chat == to { return; }
      Cancel();
      chat := to;
      Clear();
    }

    method SetQuery(typed: string)
      modifies `query
      ensures State() == Step(old(State()), Type(typed))
    {
      query := typed;
    }

    method Issue(append: bool)
      modifies `appending, `token, `next, `asks
      ensures State() == Issued(old(State()), append)
    {
      ghost var ask := Ask(account, chat, matched, if append then cursorTs else 0,
                           if append && chat == "" then cursorChat else "");
      asks := asks[next := ask];
      appending := append;
      token := next;
      next := next + 1;
    }

    method Start()
      modifies this
      ensures State() == Started(old(State()))
    {
      if account == "" || query == "" { return; }
      Cancel();
      ForgetPage();
      matched := query;
      searched := true;
      Issue(false);
    }

    method LoadMore()
      modifies `appending, `token, `next, `asks
      ensures State() == Continued(old(State()))
    {
      if token != 0 || complete || cursorTs == 0 || matched == "" { return; }
      Issue(true);
    }

    method AppendRows(messages: seq<Hit>)
      modifies `msgs
      ensures msgs == old(msgs) + messages
    {
      var i := 0;
      while i < |messages|
        invariant i <= |messages| && msgs == old(msgs) + messages[..i]
      {
        msgs := msgs + [messages[i]];
        i := i + 1;
      }
      assert messages[..i] == messages;
    }

    method TakeRows(page: Page, append: bool)
      modifies `failed, `msgs
      ensures !failed && msgs == (if append then old(msgs) else []) + page.messages
    {
      failed := false;
      if !append { msgs := []; }
      AppendRows(page.messages);
    }

    method TakeCursor(page: Page)
      modifies `cursorTs, `cursorChat, `complete
      ensures State() == old(State()).(cursorTs := page.last, cursorChat := page.lastChat,
                                       complete := page.complete || page.last == 0)
    {
      cursorTs := page.last;
      cursorChat := page.lastChat;
      complete := page.complete || cursorTs == 0;
    }

    method ApplyResult(page: Page, append: bool)
      modifies this
      ensures State() == Applied(old(State()), page, append)
    {
      TakeRows(page, append);
      TakeCursor(page);
      RebuildResultChats();
    }

    method ApplyFailure(append: bool)
      modifies this
      ensures State() == Failed(old(State()), append)
    {
      if !append { ClearRows(); }
      failed := true;
      complete := true;
    }

    method HandleResult(answered: nat, page: Page)
      modifies this
      ensures State() == Step(old(State()), Result(answered, page))
    {
      if token == 0 || answered != token { return; }
      var append := appending;
      Cancel();
      ApplyResult(page, append);
    }

    method HandleError(answered: nat)
      modifies this
      ensures State() == Step(old(State()), Error(answered))
    {
      if token == 0 || answered != token { return; }
      var append := appending;
      Cancel();
      ApplyFailure(append);
    }
  }
}
