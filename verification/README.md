# The client's state machines, modelled and proved

The client keeps local copies of things it does not own: a window on a chat's
history, a table of calls, the alerts on the desktop, lists of rooms and chats,
pages of search results. The backend answers late, out of step, or not at all.
This project models the code that keeps those copies, the two stream readers
beneath it and the two text renderers above it, and proves what each promises.

Each component has a specification made of plain values and functions, and,
where the program updates state in place, a class whose methods are proved to
take exactly the specified step. What is proved of every run of the
specification is therefore proved of the methods.

| files | component |
|---|---|
| `ChatFeed.dfy`, `ChatMeaning.dfy`, `ChatModel.dfy` | the sliding chat window: steps on a map from timestamp to fields, what each event comes to field by field, and the in-place rows that carry them out |
| `ChatStore.dfy`, `ChatStoreExact.dfy`, `ChatStoreLimits.dfy`, `ChatProgress.dfy` | the window against the store it pages through; which calls keep it whole, exactly; what ordinary runs do to it without the guards; and that its calls get where they are for |
| `Escape.dfy`, `Markup.dfy`, `RichText.dfy`, `Snippet.dfy` | escaping, a strict reader of the emitted markup and of its tags, the rich-text renderer, the search snippet |
| `Notifier.dfy`, `NotifierDaemon.dfy`, `NotifierOrder.dfy`, `NotifierLimits.dfy` | the desktop notifier, a daemon that follows the Notify command of the D-BUS Protocol section of the Desktop Notifications Specification, the orders that do no harm, and the one that does |
| `Calls.dfy`, `CallHistory.dfy`, `CallsModel.dfy` | the call table, and what its rows say of what happened |
| `Lenpipe.dfy`, `LenpipeStreams.dfy`, `FrameStream.dfy` | the length-prefixed pipe and the video frame stream |
| `MucRoom.dfy`, `ChatList.dfy` | the keyed row diff and the sorted chat list |
| `TackyBackend.dfy` | the token table |
| `Search.dfy`, `SearchRuns.dfy` | search paging, and the search as its user sees it |
| `Emoji.dfy`, `EmojiMeaning.dfy` | the emoji picker, and its order and layout in the user's terms |

`dafny verify dfyconfig.toml` checks everything.

## What turned out differently

* **The chat window can tear.** `loadOlder` and `loadNewer` do not look whether
  a jump is in flight, and the culls do not look what a page still out was
  measured from. Page older while a jump is out, and the jump's slice replaces
  the window before the older page lands beside it: rows in between are missing.
  `ChatStore.Allowed` is the exact condition: a call is allowed if and only if no
  continuation, with any faithful answers and any further allowed calls, leaves a
  hole (`ChatStoreExact.AllowedIsExact`). It asks only for the feed and the rows
  announced. A page must not be asked for under a jump, unless nothing older
  exists; a cull must leave every page still out a window to land beside, with
  one row between at most, and nothing above the opening page. Calls that change
  nothing are always allowed. `ChatStoreLimits.dfy` shows the same with full
  pages of fifty, in states that ordinary runs reach.
* **A catchup can leave a gap for good.** The page asked for after a catchup is
  thrown away when it stops short of the tail, and the window goes on claiming
  the tail, so that the next live message lands beyond the missing rows. The gap
  closes if and only if the page reaches the tail.
* **A dismissed popup can be stranded.** Replies and signals travel separately,
  which the repository's own tests of the notifier point out. If a reply that
  names a popup on screen overtakes word of the same popup's earlier dismissal,
  and no retract waits for the reply, the notifier comes to forget a popup that
  is up. `NotifierLimits.InOrderIsExact` proves that these are exactly the
  replies after which a possible run can come to rest with a wrong screen. As
  long as no popup is dismissed there are none: every order the bus can produce
  is harmless, and nothing about order is assumed.
* **The row diff needs less than distinct keys.** It ends with the wanted list if
  and only if the old rows held no wanted key more often than it is wanted.
* **A connected transport put in the place of a connected one strands tokens.**
  `setTransport` reports a drop only when the running state changes, so the
  token table stays right if and only if nothing was in flight.

## Reading the statements

* `Draw` in `Escape.dfy` reads markup the way the view does: tags must nest,
  stray brackets and ampersands are refused, a `br` is a newline, a run of plain
  spaces collapses and plain newlines vanish outside `pre`. It yields each
  character with the tags open around it, outermost first. `Effect` in
  `RichText.dfy` reads a tag: its element, its attributes with their entities
  undone, and so what it does to the text inside. The renderer's theorem is that
  reading its output gives each code point of the body within one tag for each
  mark that covers it, nested as the marks are, each doing what its mark asks
  for; a link's address is the very text it covers.
* `Gets` in `ChatProgress.dfy` is a run of the calls named, answers of at most so
  many rows and word of the newest message. What it says can be reached is
  reached so from every state that meets the invariant with nothing on its way.
* In `SearchRuns.dfy` what was set, typed and started is read off the events.
* A `Faithful` answer is what a store may say: any run of rows beside the
  cursor, of any length, with nothing skipped. A jump's reply may name any anchor
  beside its slice, since the code reads the two apart. `Truthful` says the
  channel carries only such answers and true announcements, in order.
* `Safe` judges a call by what the feed and the announced rows show: over every
  state with the same ones that meets the invariant, whatever is on its way.
* `wanted` is what was shown and not retracted since; `lapsed` marks chats whose
  alert the daemon refused, or whose popup went away of itself, since.
* Orders that come from a hash (`retractAll`, the flush of held alerts, the
  errors sent on a drop) are parameters that list the keys in any order.
* Case folding and lower-casing of arbitrary text are parameters.

## Model

| member | source | states |
|---|---|---|
| ChatStore.WindowHasNoHoles | backend/ChatModel.cpp:809-844 | from an opened chat, every run of allowed calls, appends, faithful answers and harmless events leaves the rows a contiguous slice of the store; at the tail with rows present the slice ends at the newest message announced |
| ChatStoreExact.AllowedIsExact | backend/ChatModel.cpp:430-455 | in every state that meets the invariant, a call is allowed if and only if no continuation after it leaves a hole, whatever is on its way |
| ChatStoreExact.AllowedIsExactWhenCalm | backend/ChatModel.cpp:671-693 | with nothing on its way, a call is allowed if and only if no run that starts with it leaves a hole |
| ChatStoreExact.OlderUnderAJumpTears | backend/ChatModel.cpp:434-438 | an older page asked for under a jump tears any window that has one older row in the store |
| ChatStoreExact.NewerUnderAJumpTears | backend/ChatModel.cpp:440-444 | a newer page asked for under a jump can always tear the window |
| ChatStoreExact.NewerBesideTears | backend/ChatModel.cpp:671-680 | so can a newer page with two rows between its cursor and what a cull left, or two above the cursor if nothing is left at the tail |
| ChatStoreExact.OlderBesideTears | backend/ChatModel.cpp:682-693 | so can an older page with two rows between what a cull left and its cursor |
| ChatStoreExact.OpeningPageTears | backend/ChatModel.cpp:682-693 | so can the opening page, out or to be retried, when a row above those shown is missing |
| ChatStore.MoveWhole | backend/ChatModel.cpp:760-845 | every allowed call, append, answer and delivery keeps the window convex, every page out a place to land, and the channel truthful |
| ChatStore.ResultKept | backend/ChatModel.cpp:1098-1151 | a faithful answer in any direction keeps the window convex and leaves the other directions' pages a place to land |
| ChatStore.CullOldKept | backend/ChatModel.cpp:671-680 | a cull of the oldest rows that leaves the newer pages a place to land keeps every invariant of the window and its requests |
| ChatStore.CullNewKept | backend/ChatModel.cpp:682-693 | so does a cull of the newest that leaves the older pages one and the opening page nothing to join; it gives up the tail |
| ChatStore.ConvexIsSlice | backend/ChatModel.cpp:809-817 | the invariant implies that the window is store[lo..hi] for some bounds |
| ChatStoreLimits.PagingUnderAJumpTearsTheWindow | backend/ChatModel.cpp:434-444 | in every quiet state with more than a hundred older rows, a jump, an older page asked for while it is out, and two full faithful answers leave a hole |
| ChatStoreLimits.TheAnswersAreFaithful | backend/ChatModel.cpp:501-540 | both answers that tear the window are ones the store may give, in the order they were asked for |
| ChatStoreLimits.QuietIsReached | backend/ChatModel.cpp:381-432 | opening a chat and taking its first page reaches such a state |
| ChatStoreLimits.CullingUnderANewerPageTearsTheWindow | backend/ChatModel.cpp:671-680 | in every state at the tail with a newer page out and more than a page arrived since, culling to the newest row lets a full faithful page tear the window |
| ChatStoreLimits.NewerPageOutIsReached | backend/ChatModel.cpp:440-444 | opening a chat, paging newer and letting messages arrive reaches such a state |
| ChatStoreLimits.CullingUnderTheOpeningPageTearsTheWindow | backend/ChatModel.cpp:682-693 | the same for culling to the oldest row before the opening page lands |
| ChatStoreLimits.OpeningPageOutIsReached | backend/ChatModel.cpp:381-406 | opening a chat and letting messages arrive before the first page reaches such a state |
| ChatStoreLimits.ReconcilingHealsExactly | backend/ChatModel.cpp:1125-1135 | after a catchup and the next live message the window is a slice of the store if and only if the catchup's page reached the tail |
| ChatStoreLimits.RowsAreTheSlice | backend/ChatModel.cpp:263-288 | the rows of a window that shows store[lo..hi] are that slice read backwards |
| ChatProgress.TheTailIsReached | backend/ChatModel.cpp:440-455 | from every state that meets the invariant, with rows on show and nothing on its way, whatever is out or failed, paging newer and retrying, with answers of k rows at most, ends at the tail with the store's newest row shown |
| ChatProgress.ThenArrivalsAreShown | backend/ChatModel.cpp:809-817 | from there on what arrives is shown |
| ChatProgress.TheTopIsReached | backend/ChatModel.cpp:434-455 | from the same states paging older and retrying shows the store's oldest row |
| ChatProgress.AJumpArrives | backend/ChatModel.cpp:501-530 | from every such state, rows on show or not, a jump to any stored message can show it |
| ChatProgress.TheBottomIsReached | backend/ChatModel.cpp:555-564 | and going back to the bottom, or opening the chat anew, can end at the tail with the newest row shown |
| ChatProgress.ARefusalIsNoted | backend/ChatModel.cpp:699-733 | a refused page is no longer out and counts as failed, with its reason but for a newer one, and no row changes |
| ChatProgress.AFailedPageWaitsToBeRetried | backend/ChatModel.cpp:432-455 | a failed page is not asked for by paging on, and is on a retry |
| ChatProgress.TheAccountComesBack | backend/ChatModel.cpp:772-787 | and when the account is back |
| ChatProgress.ACatchupAsksForTheRest | backend/ChatModel.cpp:1083-1096 | after a catchup at the tail the rows past the newest are asked for, the opening page if there are none, nothing if the newest is the newest announced |
| ChatMeaning.ANewerPageRegainsTheTail | backend/ChatModel.cpp:1119-1124 | a newer page is merged, and the window is at the tail if and only if it was, or its newest row is now the newest announced |
| ChatMeaning.WordOfTheTailRegainsIt | backend/ChatModel.cpp:839-844 | word of the newest message does the same for a window that has it, and changes nothing else |
| ChatMeaning.AfterwardsArrivalsAreShown | backend/ChatModel.cpp:809-817 | once a newer page has regained the tail the next live message is shown |
| ChatMeaning.AnArrivalIsShownAtTheTail | backend/ChatModel.cpp:809-817 | a live message is shown as it came, at the tail and outside a catchup, and nowhere else |
| ChatMeaning.AnOpeningPageIsTheTail | backend/ChatModel.cpp:1114-1116 | the opening page is merged and puts the window at the tail |
| ChatMeaning.AnOlderPageIsMerged | backend/ChatModel.cpp:1117-1118 | an older page is merged and leaves the tail as it was |
| ChatMeaning.AJumpShowsItsSlice | backend/ChatModel.cpp:1137-1143 | a jump to a row on show or to nothing moves nothing; any other shows its slice and gives up the tail |
| ChatMeaning.AnEmptyWindowIsRefilled | backend/ChatModel.cpp:1144-1146 | a jump that leaves nothing on show has the opening page asked for |
| ChatMeaning.ARefusedJumpRefillsIt | backend/ChatModel.cpp:719-727 | so does a refused jump, which changes no row and is not to be retried |
| ChatMeaning.ACatchupPageIsMergedOrNot | backend/ChatModel.cpp:1125-1135 | a catchup's page is merged if it is empty or ends at the newest announced, and changes no row otherwise |
| ChatMeaning.APageIsMerged | backend/ChatModel.cpp:1153-1177 | what a page says last of a field stands, what it does not speak of stands as it was, no row is left out or made up |
| ChatMeaning.AConfirmationMovesTheRow | backend/ChatModel.cpp:1194-1213 | a moved row leaves its own time and arrives at the new one with the status, over whatever is there; without a new time one field changes; a row not on show changes nothing |
| ChatMeaning.AnEditWritesOver | backend/ChatModel.cpp:818-825 | an edit writes over the fields it brings, of a row on show only |
| ChatMeaning.AStatusWritesOver | backend/ChatModel.cpp:1180-1190 | so does a change of status |
| ChatMeaning.ARetractionLeavesAStone | backend/ChatModel.cpp:1216-1226 | a retracted row loses its content, is marked, and keeps every other field and its place |
| ChatMeaning.ACullTakesTheOldest | backend/ChatModel.cpp:671-680 | so many of the oldest rows go and no other, and the tail stays |
| ChatMeaning.ACullGivesUpTheOlderPage | backend/ChatModel.cpp:671-680 | with them the older page, and no other request |
| ChatMeaning.ACullTakesTheNewest | backend/ChatModel.cpp:682-693 | so many of the newest rows go and no other, and the tail with them |
| ChatMeaning.ACullGivesUpTheNewerPages | backend/ChatModel.cpp:682-693 | with them the newer page and the catchup's, and no other request |
| ChatMeaning.AReloadStartsAfresh | backend/ChatModel.cpp:381-406 | a chat opened anew remembers nothing, and only the opening page is out |
| ChatMeaning.AResetEmptiesTheWindow | backend/ChatModel.cpp:555-564 | going to the bottom empties the window and gives up the tail, and only the opening page is out |
| ChatMeaning.AQuoteIsJumpedTo | backend/ChatModel.cpp:527-540 | a reply's target is jumped to exactly if the row is on show and quotes one |
| ChatMeaning.DuringACatchupNothingIsShown | backend/ChatModel.cpp:789-817 | live messages are not shown between a catchup's start and end; off the tail, or with a newer page out, its end asks for nothing |
| ChatMeaning.TheLinkIsNoted | backend/ChatModel.cpp:771-786 | the account's link is noted up or down, and no row changes |
| ChatMeaning.ARefusedCatchupIsDropped | backend/ChatModel.cpp:728-729 | a refused catchup changes no row and marks nothing failed |
| ChatMeaning.TheErrorStaysUp | backend/ChatModel.cpp:479-498 | what is said to have gone wrong is said until nothing has, unless a page is refused or the chat opened anew |
| ChatFeed.BooksAlwaysBalance | backend/ChatModel.cpp:740-757 | in every reachable state busy directions are exactly those with a token out, one token each; failed directions are not busy; a load error has a failed direction behind it; no row has timestamp zero |
| ChatFeed.CancelledReplyIsIgnored | backend/ChatModel.cpp:740-757 | a token dropped by a cancel changes nothing when its result or error comes, however much happens first |
| ChatFeed.StepKeeps | backend/ChatModel.cpp:408-564 | every call, reply and event keeps the request books balanced |
| ChatFeed.MergeAllKeys | backend/ChatModel.cpp:1153-1177 | a batch adds exactly its own non-zero timestamps |
| ChatFeed.MergeAllLastWord | backend/ChatModel.cpp:1153-1177 | the last row of a batch that mentions a field decides it |
| ChatFeed.MergeAllKeepsRest | backend/ChatModel.cpp:1153-1177 | a field no row of the batch mentions keeps its value |
| ChatFeed.DropOldestDrops | backend/ChatModel.cpp:671-680 | a cull of the oldest drops only rows older than every row kept |
| ChatFeed.DropNewestDrops | backend/ChatModel.cpp:682-693 | a cull of the newest drops only rows newer than every row kept |
| ChatRows.ContentsDetermineRows | backend/ChatModel.cpp:275-288 | two descending lists with the same map are the same rows |
| ChatModel.ChatModel.ApplyBatch | backend/ChatModel.cpp:1153-1177 | the rows stay strictly descending without a zero key, and their map is the in-order merge of the batch |
| ChatModel.ChatModel.ApplyFields | backend/ChatModel.cpp:1180-1190 | a row present takes the fields; otherwise nothing changes |
| ChatModel.ChatModel.ApplyConfirmed | backend/ChatModel.cpp:1194-1213 | the row leaves its key and merges in at the new one, onto whatever is there |
| ChatModel.ChatModel.ApplyRetracted | backend/ChatModel.cpp:1216-1226 | a row present loses its content and is marked; otherwise nothing changes |
| ChatModel.ChatModel.ApplyGotoSlice | backend/ChatModel.cpp:1228-1234 | the slice replaces the window and the tail is given up |
| ChatModel.ChatModel.CullOld | backend/ChatModel.cpp:671-680 | the n oldest rows go and the older page is cancelled |
| ChatModel.ChatModel.CullNew | backend/ChatModel.cpp:682-693 | the n newest rows go, the tail is given up, newer and catchup requests are cancelled |
| ChatModel.ChatModel.IssuePage | backend/ChatModel.cpp:408-428 | one request a direction; a new one clears that direction's failure |
| ChatModel.ChatModel.IssueJump | backend/ChatModel.cpp:501-520 | a jump cancels every direction and is then the only request out |
| ChatModel.ChatModel.Retry | backend/ChatModel.cpp:447-455 | every failed direction is asked again from the window as it stands |
| ChatModel.ChatModel.ResetToBottom | backend/ChatModel.cpp:555-564 | the window empties, all requests are cancelled, the opening page is asked for |
| ChatModel.ChatModel.Reload | backend/ChatModel.cpp:381-406 | the state of a chat just opened, whatever was before |
| ChatModel.ChatModel.HandleResult | backend/ChatModel.cpp:1098-1151 | a reply under a live token lands by its direction; any other changes nothing |
| ChatModel.ChatModel.HandleError | backend/ChatModel.cpp:699-733 | a refused page marks its direction failed; a refused jump over an empty window asks for the opening page |
| ChatModel.ChatModel.ReconcileCatchup | backend/ChatModel.cpp:1083-1096 | after a catchup at the tail the rows past the newest are asked for, unless nothing is missing |
| ChatModel.ChatModel.HandleEvent | backend/ChatModel.cpp:760-845 | each event takes its step on the window; live messages only at the tail and outside a catchup |
| RichText.MessageMarkup | backend/MessageMarkup.cpp:148-239 | empty when no mark is drawn; otherwise, read strictly, the body, each code point within one tag for each mark drawn on it and no others, nested by where they start and end and by kind, each tag doing what its mark asks for |
| RichText.IntendedIsMarkedUp | backend/MessageMarkup.cpp:181-238 | the tags around a code point are those of the marks on it, in nesting order |
| RichText.ResolvedIs | backend/MessageMarkup.cpp:160-180 | a mark is drawn exactly if its kind is known, it covers something, and a link is one to open; where it covers, and how deep it nests |
| RichText.TiesAreAlike | backend/MessageMarkup.cpp:181-188 | marks the order does not tell apart are drawn alike, so an unstable sort does no harm |
| Looks.ResolvedLooks | backend/MessageMarkup.cpp:30-134 | the tag made for a mark, read back, does what its kind should on the text it covers: a link opens that very text, a match and a quote take the palette's colors, the rest their own element or style |
| Looks.AnchorReads | backend/MessageMarkup.cpp:126-134 | the href read from an anchor, entities undone, is the address, whatever it holds |
| Looks.OnlyTheseAreOpened | backend/MessageMarkup.cpp:138-146 | a link is opened exactly if what stands before its first colon is http, https, mailto or geo in any case, and something follows |
| Looks.LettersFold | backend/MessageMarkup.cpp:138-146 | what folds to a small letter: it, its capital, and for s and k one more |
| Markup.IntendedReadsAsBody | backend/MessageMarkup.cpp:148-239 | without its tags and escapes the output is the body, character for character |
| Markup.Render | backend/MessageMarkup.cpp:193-238 | the close-and-reopen loop ends and draws what is intended, for spans that cross in any way |
| Markup.ShutEnded | backend/MessageMarkup.cpp:196-211 | what ended is closed and what ran on above it is reopened in the same order |
| Markup.DrawRun | backend/MessageMarkup.cpp:220-233 | the run goes to the nearest edge, strictly forward, drawn under the open spans |
| Markup.IntendedOfPermutation | backend/MessageMarkup.cpp:181-188 | the order spans come in does not matter to what is drawn, nesting included |
| Escape.EscapedJoins | backend/MessageMarkup.cpp:83-104 | two adjacent runs escaped apart are the joined run escaped, at the same literal flag |
| Escape.DrawsItself | backend/MessageMarkup.cpp:83-104 | one escaped code point draws as itself, wherever it stands |
| Escape.ReadsRun | backend/MessageMarkup.cpp:83-104 | a whole escaped run draws as itself under the tags open around it |
| Escape.EscapeRun | backend/MessageMarkup.cpp:83-104 | the loop computes the escaping that the laws above are about |
| Escape.EscapedPlain | backend/MessageMarkup.cpp:108-122 | the loop computes the plain escaping |
| Spans.AnchorAttrs | backend/MessageMarkup.cpp:126-134 | an anchor's attributes never close its tag early |
| Spans.AllWellMade | backend/MessageMarkup.cpp:30-78 | every resolved span lies inside the body and its tags read back as one element |
| Spans.ResolvedCovers | backend/MessageMarkup.cpp:160-180 | a span covers its length of code points from its offset, as far as there are any; one from before the start is moved there, not shortened |
| Spans.UnresolvedMeans | backend/MessageMarkup.cpp:160-180 | a span is dropped exactly when its kind is unknown, it covers nothing, or it is a link not to open |
| Snippet.SearchSnippet | backend/MessageMarkup.cpp:244-291 | read strictly, the snippet is the letters in order, each bold exactly where a range covers it, one space where there was any between two, bold exactly if both are; bold never nests |
| Snippet.GapsAreRight | backend/MessageMarkup.cpp:268-279 | every space drawn stands between two letters and is bold exactly if both are |
| Snippet.LettersAre | backend/MessageMarkup.cpp:262-286 | the letters drawn are those of the body that are not white space, each bold exactly as it was matched |
| Snippet.ShownReadsAsWords | backend/MessageMarkup.cpp:244-291 | without the bold it is the body with whitespace runs collapsed to one space and trimmed |
| Snippet.Paint | backend/MessageMarkup.cpp:250-259 | a code point is painted exactly when some clamped range covers it |
| Snippet.CoveredMeans | backend/MessageMarkup.cpp:250-259 | what a list of ranges covers, in offsets and lengths |
| NotifierDaemon.TheScreenComesRight | backend/FdoNotifier.cpp:178-211 | in every run whose replies come in order: when nothing is out, a retracted chat has no popup and a shown one its last alert in exactly one, unless lapsed; always at most one popup and one Notify a chat, nothing queued without one out, live ids and chats inverse |
| NotifierDaemon.NothingLapses | backend/FdoNotifier.cpp:68-89 | with nothing refused and nothing dismissed no chat is excused |
| NotifierDaemon.AClickNamesItsChat | backend/FdoNotifier.cpp:213-220 | an id on record belongs to the chat it names, and the popup up under it is that chat's |
| NotifierDaemon.ReturnWhole | backend/FdoNotifier.cpp:178-211 | a reply in its turn keeps every invariant, whatever is queued behind it |
| NotifierDaemon.HearWhole | backend/FdoNotifier.cpp:222-236 | word of a closing keeps every invariant |
| NotifierDaemon.RetractAllWhole | backend/FdoNotifier.cpp:111-116 | retracting everything, in any order of keys, keeps every invariant |
| NotifierDaemon.ResolveWhole | backend/FdoNotifier.cpp:40-66 | the flush of held alerts, in any order, keeps every invariant; with no daemon they are dropped |
| NotifierOrder.AnyOrderComesRight | backend/FdoNotifier.cpp:178-236 | with no popup dismissed, replies and signals may cross in any way: every run is in order, the screen comes right, and with nothing refused no chat is excused |
| NotifierOrder.MoveLingers | backend/FdoNotifier.cpp:91-109 | with no popup dismissed, an id with word of its closing still out is up nowhere, in no entry, and in no call or reply still out |
| NotifierLimits.InOrderIsExact | backend/FdoNotifier.cpp:178-236 | a reply is in order if and only if every possible run after it that comes to rest leaves the screen right |
| NotifierLimits.OutOfOrderGoesWrong | backend/FdoNotifier.cpp:222-236 | after any reply out of order some possible run comes to rest with a popup up for a retracted chat, whatever else is out or queued |
| NotifierLimits.AnOvertakenDismissalStrandsThePopup | backend/FdoNotifier.cpp:222-236 | when a reply, the last thing out, overtakes word of its popup's dismissal, reading the chat leaves the popup up with nothing out |
| NotifierLimits.TheCrossingHappens | backend/FdoNotifier.cpp:178-191 | a dismissal and one more message reach such a state |
| Alerts.AnAnswerKeepsThemSo | backend/FdoNotifier.cpp:178-211 | any answer keeps live ids and chats inverse, also one with another id than was asked for, unless it is another chat's |
| FdoNotifier.FdoNotifier.Show | backend/FdoNotifier.cpp:68-89 | takes the specified step: held, dropped, queued or sent |
| FdoNotifier.FdoNotifier.Retract | backend/FdoNotifier.cpp:91-109 | takes the specified step: forgotten, queued or closed |
| FdoNotifier.FdoNotifier.RetractAll | backend/FdoNotifier.cpp:111-116 | retracts each key in the order given |
| FdoNotifier.FdoNotifier.OnCapabilities | backend/FdoNotifier.cpp:50-65 | flushes or drops the held alerts |
| FdoNotifier.FdoNotifier.OnNotifyReply | backend/FdoNotifier.cpp:178-191 | takes the id in, then settles what waited |
| FdoNotifier.FdoNotifier.Settle | backend/FdoNotifier.cpp:193-211 | a queued retract, a queued alert or nothing, in that order |
| FdoNotifier.FdoNotifier.OnNotificationClosed | backend/FdoNotifier.cpp:222-236 | a live id is struck out, and an entry left with nothing to do |
| FdoNotifier.FdoNotifier.OnActionInvoked | backend/FdoNotifier.cpp:213-220 | with ids and chats inverse, which every run keeps, a click names a chat exactly when it is the default action on that chat's live id |
| CallTable.NothingGoesBack | backend/CallsModel.cpp:110-125 | over any run no row's progress falls, and a row goes only when dismissed |
| CallTable.TheSameCallLater | backend/CallsModel.cpp:110-125 | a row then and now with one number is one call, and over now if it was over then |
| CallTable.RunSound | backend/CallsModel.cpp:98-108 | keys stay unique, numbers strictly increase down the list, one list at most is out for an account |
| CallTable.SnapshotMeansThis | backend/CallsModel.cpp:330-396 | a snapshot leaves other accounts alone, ends what it should have named, leaves newer rows alone, moves named rows only forward, to the first furthest reading; it adds exactly what it names that was neither dismissed nor known, with the peer and side of its first listing and the first furthest reading of that side |
| CallHistory.WhatBecameOfIt | backend/CallsModel.cpp:156-256 | over any run of events and clicks a call that waited to be picked up is what happened to it: its last end if it came to one, or else up if answered, being set up if taken, ringing if a device rang |
| CallHistory.ACallComesUp | backend/CallsModel.cpp:98-108 | a call not seen before gets a row below the others on its side, waiting; one without a name or tracked already gets none |
| CallHistory.AnAnswerSpeaksOfItsTime | backend/CallsModel.cpp:258-282 | from asking for a list to its answer, whatever comes between: an unnamed call there when it was asked for is over, a later one is as it was |
| CallHistory.AnAnswerIsTakenOnce | backend/CallsModel.cpp:271-282 | a list once answered is waited for no more, and what was crossed off is forgotten in its account only |
| CallHistory.ARefreshAsksAnew | backend/CallsModel.cpp:258-269 | a refresh leaves one list out for the account, the one it asks for, and no row changed |
| CallHistory.ARefusedListIsForgotten | backend/CallsModel.cpp:284-292 | a refused list is waited for no more and changes no row |
| CallHistory.OnlyOurOwnCallsCount | backend/CallsModel.cpp:333-344 | what belongs to a group call, or names nothing, might as well not be in the list |
| CallHistory.ADismissalTakesOneRow | backend/CallsModel.cpp:489-499 | a dismissal takes the call's row and no other, and crosses it off |
| CallTable.TakenRows | backend/CallsModel.cpp:333-374 | a named row ends as far along as it was or as its furthest reading, whichever is further |
| CallTable.ADismissedCallStaysGone | backend/CallsModel.cpp:391-395 | a list asked for before a dismissal never brings the call back, whatever happens before it comes |
| CallTable.KeysApart | backend/CallsModel.cpp:87-89 | for accounts on one line, the dismissals cleared for one account are its own |
| CallTable.CallsClimb | backend/CallsModel.cpp:318-328 | progress follows the order a call goes through, and only an ended or failed call has nothing above it |
| CallTable.RunSided | backend/CallsModel.cpp:300-316 | over any run of events, snapshots and clicks only a call that came in is ever incoming, and only one placed here calling or ringing |
| CallsModel.CallsModel.SetState | backend/CallsModel.cpp:110-125 | terminal is final; otherwise the state is set |
| CallsModel.CallsModel.InsertCall | backend/CallsModel.cpp:98-108 | a call without a sid or already tracked is not added |
| CallsModel.CallsModel.HandleEvent | backend/CallsModel.cpp:156-256 | each event takes its step on the table |
| CallsModel.CallsModel.RefreshFor | backend/CallsModel.cpp:258-269 | a new list replaces the account's older ones |
| CallsModel.CallsModel.TakeListing | backend/CallsModel.cpp:333-374 | one listing adds a row, moves one forward, or does nothing |
| CallsModel.CallsModel.EndLost | backend/CallsModel.cpp:376-389 | exactly the rows a snapshot should have named are ended |
| CallsModel.CallsModel.ApplySnapshot | backend/CallsModel.cpp:330-396 | takes the specified step |
| CallsModel.CallsModel.HandleResult | backend/CallsModel.cpp:271-282 | only a list still expected is applied, as of when it was asked for |
| CallsModel.CallsModel.Accept | backend/CallsModel.cpp:442-459 | only a call still ringing is taken |
| CallsModel.CallsModel.Hangup | backend/CallsModel.cpp:461-480 | the row is over at once |
| CallsModel.CallsModel.Dismiss | backend/CallsModel.cpp:489-499 | the row goes and its key is crossed off |
| Lenpipe.SentIsReceived | backend/SocketTransport.cpp:83-119 | whatever was sent is received, in order, however the bytes were cut, with nothing left over |
| Lenpipe.CutsDoNotMatter | backend/SocketTransport.cpp:83-110 | for any bytes at all, cutting changes neither what comes out nor the state left, dropped links included |
| Lenpipe.NothingIsLost | backend/SocketTransport.cpp:83-110 | at any moment the buffer and the awaited length, with the bytes to come, encode exactly the payloads not yet delivered |
| Decimals.ParseReadsBack | backend/SocketTransport.cpp:91-115 | a printed length parses back to itself |
| SocketTransport.SocketTransport.OnReadyRead | backend/SocketTransport.cpp:83-110 | emits every whole payload of what has arrived, or drops the link |
| SocketTransport.SocketTransport.Send | backend/SocketTransport.cpp:112-119 | writes one frame when connected and nothing otherwise |
| SocketTransport.SocketTransport.OnConnected | backend/SocketTransport.cpp:54-57 | a new link starts with nothing buffered and a length awaited |
| SocketTransport.SocketTransport.OnDisconnected | backend/SocketTransport.cpp:61-66 | what was buffered goes with the link |
| LenpipeStreams.WhatAnyBytesComeTo | backend/SocketTransport.cpp:83-110 | for any bytes: the frames before the first line that is no length come out; that line drops the link and nothing else does; otherwise the line or payload still on its way is kept |
| Numerals.ParseMeans | backend/SocketTransport.cpp:90-99 | a line is read as a number exactly if it is digits, a sign before them or not, with blanks around, that fit 64 bits |
| Frames.TheNewestWholeFrame | backend/FrameStream.cpp:66-92 | for any run of good frames cut anywhere nothing is refused, the newest is the last whole one, its planes have the size its sides call for, the rest is the frame still arriving |
| Frames.CutsDoNotMatter | backend/FrameStream.cpp:52-92 | for any bytes at all, cutting changes neither the newest frame, nor what is left over, nor whether the stream is given up on |
| Frames.WrittenReadsBack | backend/FrameStream.cpp:70-86 | a frame laid out field by field, with a header of any allowed length, is one whole frame and reads back as it was |
| Frames.OnlyWhatIsWritten | backend/FrameStream.cpp:66-92 | whatever is taken for a whole frame is that frame written out field by field, and drawable |
| Frames.PixelsInside | backend/FrameStream.cpp:16-19 | every pixel's brightness and two colors lie in the payload, in that order |
| Frames.NothingToSpare | backend/FrameStream.cpp:16-19 | the payload ends with the last pixel's last sample |
| Frames.TheMarks | backend/FrameStream.cpp:9-13 | a header of forty bytes begins with TVF1 and a version of one and has the format I420, as they stand in the stream |
| FrameStream.FrameStream.ParseBuffer | backend/FrameStream.cpp:66-92 | takes every whole frame off the buffer, or reports a malformed header |
| FrameStream.FrameStream.OnReadyRead | backend/FrameStream.cpp:52-64 | a malformed header closes the stream and ends it |
| MucRoomModel.MucRoomModel.Rebuild | backend/MucRoomModel.cpp:206-248 | what a view is told leads from the old rows to the new; they are the filtered people if and only if no wanted key stood more often than it is wanted |
| MucRoomModel.MucRoomModel.Place | backend/MucRoomModel.cpp:224-247 | the row that belongs at a place is updated, moved up or put in there |
| MucRoomModel.MucRoomModel.Prune | backend/MucRoomModel.cpp:212-222 | exactly the rows no longer wanted go |
| MucRoomModel.MucRoomModel.ApplyPeople | backend/MucRoomModel.cpp:255-268 | the rows are rebuilt for the new answer |
| MucRoomModel.MucRoomModel.SetFilter | backend/MucRoomModel.cpp:98-104 | a new filter rebuilds the rows for it; the same one changes nothing |
| RoomRows.FilteredMeans | backend/MucRoomModel.cpp:193-211 | the filter keeps exactly the people whose nickname or address holds it, whatever the case, in the order they came in |
| RoomRows.DistinctReaches | backend/MucRoomModel.cpp:206-248 | rows with distinct keys always reach the wanted list |
| RoomRows.NoneComesBack | backend/MucRoomModel.cpp:206-248 | with distinct keys wanted, nothing inserted was there before |
| RoomRows.StillThere | backend/MucRoomModel.cpp:212-222 | a wanted key never stands less often after the changes than before |
| ChatOrder.TheListIsTheMap | backend/ChatListModel.cpp:277-330 | from distinct chats, after any upserts and removals, the rows are the one sorted listing of the map those make |
| ChatOrder.OneListing | backend/ChatListModel.cpp:188-195 | a map has only one sorted listing |
| ChatOrder.LessThanOrders | backend/ChatListModel.cpp:188-195 | the order is strict and total but for entries with one order and one JID |
| ChatOrder.JidLessIsLexicographic | backend/ChatListModel.cpp:193-194 | one JID is less than another exactly when it is where they first differ, or begins it |
| ChatOrder.SortedMeans | backend/ChatListModel.cpp:187-195 | a higher row has the larger order, or at the same order the lesser JID |
| ChatOrder.StepShows | backend/ChatListModel.cpp:287-330 | one upsert or removal keeps the rows the listing of the map |
| ChatOrder.MovedThere | backend/ChatListModel.cpp:302-318 | moving a row and overwriting it is removing it and inserting the new one |
| ChatListModel.ChatListModel.ApplyItem | backend/ChatListModel.cpp:287-321 | the in-place move gives the result of remove then insert |
| ChatListModel.ChatListModel.ApplyRemove | backend/ChatListModel.cpp:323-330 | the chat's row goes, if it has one |
| ChatListModel.ChatListModel.TargetOf | backend/ChatListModel.cpp:302-310 | the place found is the first, among the other rows, that the entry sorts ahead of |
| Tokens.EveryTokenIsTold | backend/TackyBackend.cpp:51-166 | in every run what is in flight is what was sent and not answered, no token is told twice, each is told what became of it, by name if its backend stopped, and once the link is down everything sent has been told |
| Tokens.SwapIsCleanOrStrands | backend/TackyBackend.cpp:28-49 | putting a connected transport in the place of a connected one is clean if and only if nothing was in flight |
| TackyBackend.TackyBackend.Request | backend/TackyBackend.cpp:85-127 | a fresh token, in flight when connected and refused later when not |
| TackyBackend.TackyBackend.Deliver | backend/TackyBackend.cpp:134-166 | a result or an error settles its token and is passed on |
| TackyBackend.TackyBackend.OnTransportStateChanged | backend/TackyBackend.cpp:51-64 | a drop empties the table and tells every token in it |
| TackyBackend.TackyBackend.SetTransport | backend/TackyBackend.cpp:28-49 | only a change of the running state is acted on |
| SearchRuns.PagesAddUp | backend/SearchModel.cpp:124-320 | in every run, once a page of the standing search is in, the rows are the first of what the store has for the words typed when it was started, in the account and chat set, none repeated, and all of them when it is complete and has not failed; with no search standing there are none |
| SearchRuns.StartAsksForWhatIsTyped | backend/SearchModel.cpp:124-133 | a start asks for what is typed, in the account and chat set, from the top, under a fresh token; without an account or words it does nothing |
| SearchRuns.MoreAsksForTheRest | backend/SearchModel.cpp:135-182 | paging on asks for what follows the last row of the same search, unless an answer is due or there is no more |
| SearchRuns.StartingFindsThemAll | backend/SearchModel.cpp:124-139 | from any point of any run, starting and paging on, with pages of n hits at most, ends with every match of the words typed |
| SearchRuns.TheSearchGoesOn | backend/SearchModel.cpp:135-139 | a standing search that is not complete waits for an answer or has a next page to ask for |
| SearchRuns.ARefusalEndsTheSearch | backend/SearchModel.cpp:244-282 | a refused first page clears the rows, a later one leaves them; either way the search is over and says so |
| SearchPages.PagesAddUp | backend/SearchModel.cpp:284-320 | the same, against the query the model holds |
| SearchPages.PageFollows | backend/SearchModel.cpp:162-182 | a page past the cursor goes on exactly where the rows end |
| SearchPages.ChatsSeen | backend/SearchModel.cpp:336-347 | the result chats are the distinct non-empty chats of the rows |
| SearchPages.ChatsInOrder | backend/SearchModel.cpp:336-347 | they stand in the order their first hits do |
| SearchModel.SearchModel.Start | backend/SearchModel.cpp:124-133 | drops the old request, keeps the old rows, asks for the first page of what is typed |
| SearchModel.SearchModel.LoadMore | backend/SearchModel.cpp:135-139 | asks for the next page of what was searched, not of what is typed |
| SearchModel.SearchModel.SetAccount | backend/SearchModel.cpp:90-98 | another account drops the request, the rows and everything said of them |
| SearchModel.SearchModel.SetChat | backend/SearchModel.cpp:100-108 | so does another chat |
| SearchModel.SearchModel.SetQuery | backend/SearchModel.cpp:110-115 | typing changes nothing but what is typed |
| SearchModel.SearchModel.Clear | backend/SearchModel.cpp:141-144 | a search never made |
| SearchModel.SearchModel.HandleResult | backend/SearchModel.cpp:254-265 | only the page asked for last is taken |
| SearchModel.SearchModel.HandleError | backend/SearchModel.cpp:269-282 | a failed first page clears the rows, a failed later one keeps them |
| SearchModel.SearchModel.RebuildResultChats | backend/SearchModel.cpp:336-347 | the loop collects the chats in first-seen order |
| EmojiModel.EmojiModel.Matches | backend/EmojiModel.cpp:211-268 | exactly the entries in which every term starts some word, each once, by rank, recency, name length and catalogue order |
| EmojiModel.EmojiModel.Rebuild | backend/EmojiModel.cpp:270-331 | a filter lays out its matches, no filter the recents and then each group; the sections are the header rows, every one, from the top, and none while filtering |
| EmojiModel.EmojiModel.FirstMatch | backend/EmojiModel.cpp:354-358 | over rows as they were last built for the filter: the entry that answers every term and precedes all others that do, in its preferred form; nothing if none answers or nothing is typed |
| EmojiMeaning.FoundMeans | backend/EmojiModel.cpp:211-233 | an entry is found exactly if every word typed begins some word of it |
| EmojiMeaning.TheOrderMeans | backend/EmojiModel.cpp:234-268 | it precedes another if something better can be said of it, or it was used since, or has the shorter name, or stands earlier in the catalogue, in that order |
| EmojiMeaning.SplitFindsTheWords | backend/EmojiModel.cpp:212-216 | typed words are found again, whatever breaks stand around and between them |
| EmojiMeaning.TrimMeans | backend/EmojiModel.cpp:212 | only space goes, from both ends, and all of it there |
| EmojiMeaning.BrowsingShows | backend/EmojiModel.cpp:296-331 | with nothing typed: two rows at most of the forms used last that the catalogue has, and then each group that has anything under its name, in order and in full |
| EmojiMeaning.TheRestComesAfter | backend/EmojiModel.cpp:360-367 | after the form just used come the others, less those past the fortieth |
| EmojiMeaning.TheRestStaysInOrder | backend/EmojiModel.cpp:360-367 | the others are all that were there, as they stood |
| EmojiModel.EmojiModel.UseTone | backend/EmojiModel.cpp:369-384 | the entry keeps one picked form at most, none for its own, and the form counts as used |
| EmojiSearch.SortOrders | backend/EmojiModel.cpp:255-262 | a stable sort of hits found in catalogue order leaves a strict order |
| EmojiSearch.LaidIsTheList | backend/EmojiModel.cpp:275-284 | the rows laid end to end are the list, all but the last full, what is drawn in step |
| EmojiSearch.GroupHolds | backend/EmojiModel.cpp:317-325 | a group holds exactly its entries, once each, in catalogue order |
| EmojiSearch.ThePickedToneIsDrawn | backend/EmojiModel.cpp:369-384 | the form picked for an entry is the one drawn from then on, and every other entry keeps its own |
| EmojiSearch.UsedComesFirst | backend/EmojiModel.cpp:360-367 | the form just used is first, nothing is listed twice, no more are kept than there is room for |
| EmojiLayout.TheFirstFoundIsBest | backend/EmojiModel.cpp:211-268 | what is found first precedes every other entry that answers, and nothing is found only if none does |
| EmojiLayout.OneBest | backend/EmojiModel.cpp:255-262 | no two entries each precede all others that answer |
| EmojiLayout.TheBestMatchComesFirst | backend/EmojiModel.cpp:354-358 | the first cell is the best match in its preferred form |

## Left out

- ChatStore.WindowHasNoHoles: leaves out catchup brackets, whose page can leave a gap (ChatStoreLimits.ReconcilingHealsExactly), and confirmations that re-key a row; both are in the ordering and request invariants.
- ChatStoreExact.AllowedIsExact: with replies on their way, the state in which a refused call tears the window has the feed and the announced rows of the one given and meets the invariant, but not the same replies on their way; with none, ChatStoreExact.AllowedIsExactWhenCalm starts the run in the state given.
- ChatModel.ChatModel.Reload: transfers, the read marker and the events pulled for a new chat are left out.
- ChatModel.ChatModel.HandleResult: tokens of actions and raw XML, which are looked at first, are left out.
- ChatModel.ChatModel.HandleError: tokens of actions and raw XML, which are looked at first, are left out.
- ChatModel.ChatModel.HandleEvent: file transfers and the checks of account and chat are left out.
- In ChatModel: the cancel notifications sent to the backend, read markers, attachments, transfers, thumbnails, raw XML, invites, and the send, edit and react pass-throughs.
- RichText.MessageMarkup: the conversion between UTF-16 and code points is left out, a string is a sequence of code points; a span's offset plus length does not wrap at 32 bits; `std::sort` is an insertion sort, so spans that compare equal may stand in another order, which RichText.TiesAreAlike and Markup.IntendedOfPermutation show not to matter; color strings hold no quote, bracket or ampersand.
- The kinds of span and the backend's words for a call's state are datatypes rather than strings.
- NotifierDaemon.TheScreenComesRight: replies out of order are excluded, which NotifierLimits.InOrderIsExact shows to be no more than must be; chat keys are not empty, which their builder sees to; a daemon that answers a replacing Notify with another id is not modelled, though the method handles it.
- In FdoNotifier: the text of an alert, escaping for daemons that parse markup, actions and hints.
- In CallsModel: video, warnings, reasons, fingerprints and start tokens; code run by a state change that reaches back into the table while a snapshot is being applied.
- CallsModel.CallsModel.HandleEvent: video, warnings, reasons and verification are left out.
- CallsModel.CallsModel.TakeListing: the verification of a row and its fields for video and groups are left out.
- CallTable.ADismissedCallStaysGone: accounts hold no line break, as JIDs cannot.
- SocketTransport.SocketTransport.OnReadyRead: UTF-8 decoding of a payload, retry timers and a buffer past the range of `int` are left out.
- In FrameStream: the socket, and how many times a frame is announced.
- MucRoomModel.MucRoomModel.Rebuild: subjects, joining and moderation are left out, and case folding works one character at a time.
- MucRoomModel.MucRoomModel.ApplyPeople: group counts, the list of members and the user's own row are left out.
- ChatListModel.ChatListModel.ApplyList: `std::sort` is an insertion sort; entries with one JID twice are outside TheListIsTheMap.
- In ChatListModel: preview text and the roster and bookmark commands.
- Tokens.EveryTokenIsTold: a connected transport put in the place of a connected one with tokens in flight is excluded; JSON decoding is left out, and tokens do not wrap.
- SearchModel.SearchModel.Start: the server-side leg of a search is left out.
- SearchModel.SearchModel.SetAccount: the question whether the server can search is left out.
- SearchModel.SearchModel.SetChat: the question whether the server can search is left out.
- SearchModel.SearchModel.HandleResult: the reply that says whether the server can search is left out.
- SearchModel.SearchModel.HandleError: a refusal of the question whether the server can search is left out.
- SearchPages.PagesAddUp: the server-side first leg and a change of backend are left out; hits of an account-wide search name their chat.
- EmojiModel.EmojiModel.Matches: loading the catalogue and sifting it by font are left out; every entry's own form maps to it, and its name's words come first among its words.
- In EmojiModel: white space outside ASCII in a filter, and rebuilding when another model changes the settings.
- Everything drawn by QML, the `dataChanged` signals, settings, devices, avatars, clipboard, permissions, the group call and session models.
