# Verified model of the client connection protocol and its satellites

A Dafny 4.11 model of the connection client and of the checks and classifiers
around it, with the properties each is meant to have. Verify it with
`dafny verify dfyconfig.toml`.

The target is `createConnection` in `src/client.js`, a state machine driven by
socket events, timers, preflight results, browser events, microtasks and calls
that store subscribers make back into it. Around it sit the address classifier
of `src/safe-url.js`, the option-key suggester of `src/config-guards.js`, and
three checks from `scripts/`.

## How it is modelled

Code that updates fields is a class whose methods are proved against functions
from state to state; loops stay loops; expression code stays functions. What
the code promises is then proved about those functions over every run, or
against a definition that does not mention the code.

- **Reconnect, preflight, pause** (`ReconnectSpec`, `ReconnectProofs`,
  `ReconnectOutcomes`, `ReconnectLaws`, `ConnectionObject`). Sockets are numbers with a ready state
  and never leave the state, so late events of replaced sockets can always
  arrive. Preflight runs stay until their continuation runs. Stores notify
  synchronously: a `Hook` is any finite tree of `close`, `simulateOffline` and
  `resumeOnline` calls a subscriber may make, and every method takes the hooks
  its two notifications provoke. The permanent-close store turns true once in
  the life of a connection, when nothing but `close` can still matter, so its
  subscribers are one flag. Retry delays are not numbers here: a timer may fire
  whenever it is armed. `Connection.Valid` is the invariant of every run; the
  constructor establishes it and every call and event keeps it.
- **Gap recovery** (`RecoverySpec`, `RecoveryProofs`, `RecoveryLoss`,
  `RecoveryDanger`, `RecoveryOffset`, `RecoveryProgress`, `RecoveryTracker`). One topic that stays subscribed once it
  is mounted, one client, one server, two ordered channels. An event is settled
  when it was dispatched, declared lost by a marker, or published before the
  topic was enrolled for the first time; no later enrolment writes anything off.
  The server answers a topic's
  requests in order and acknowledges a recovery only once the gap is replayed,
  on the replay topic or as numbered events of the topic itself; markers,
  denials, repeated answers, retries, disconnects and the draining of a plain
  subscribe that waited for a permit may come at any point.
- **Permit window** (`FlowSpec`, `FlowProofs`, `FlowAsks`, `FlowWindow`). The clock is an
  input that never runs backwards.
- **Subscriptions** (`SubscriptionSpec`, `SubscriptionProofs`,
  `SubscriptionDrops`, `SubscriptionCounts`, `Subscriptions`). Whether a batch finds a permit is
  arbitrary. `member` is what the frames of the current connection made of the
  server's membership.
- **Chunkers** (`Partition`, `Chunker`). A topic's quoted text is an arbitrary
  function of the topic; the frame text is written out byte by byte.
- **Addresses** (`Text`, `Ipv4`, `Ipv4Grammar`, `Ipv6`, `Ipv6Proofs`,
  `Ipv6Grammar`, `Ipv6Printing`, `Nat64`, `Nat64Proofs`, `Addresses`, `AddressTable`, `Hosts`,
  `Declarations`). The grammars of the literals, the CIDR blocks of both families
  and the octet layout of RFC 6052 are defined apart from the
  code that is proved to agree with them.
- **Edit distance** (`EditDistance`, over UTF-16 code units), **byte scan** (`Utf8`, `SourceBytes`),
  **size guard** (`SizeGuard`), **code span** (`CodeSpan`), **reachability**
  (`Reachability`).

## Where the code and its own account differ

- PROTOCOL.md (lines 953-962) wants live traffic never to skip an unreceived
  gap-fill. On a topic that stays subscribed it can, in two ways. (1) A client
  without an offset asks for no history when it reconnects (`src/client.js`
  lines 1459-1463 and 1966-1973), so what was published while it was away is
  streamed past: after a drop before the first event
  (`RecoveryLoss.LostBeforeTheFirstEvent`), after a drop when a marker has taken
  the offset (`RecoveryLoss.LostAfterAMarker`), and from every such state
  (`RecoveryLoss.ReturningWithoutOffsetLoses`). (2) A plain subscribe that waits
  for a permit is not dropped with its connection (lines 1531 and 1538, unlike
  the retry at 1598); a later window can send it while an offset is held, and
  the server can take it before the topic is enrolled again
  (`RecoveryLoss.StaleSubscribeLosesAnEvent`). `RecoveryProofs.SilentLossExactly`
  says which runs leave a hole in the stream, and
  `RecoveryLoss.PromptRunsLoseNothing` that it takes a request without history
  for a topic that was enrolled before and is not now. The safety results are
  about the other runs. A recovery request sent after the hole opens may still
  fill it, but `RecoveryDanger.AcceptIsSafeExactly` shows the guard to be
  exact for the saved offset: some careful future takes it past the hole.
- The comment at `src/client.js` lines 1523-1526 says a queued subscribe is
  never lost. One that finds 256 batches queued is dropped
  (`SubscriptionDrops.DroppedExactly`, with a run in
  `SubscriptionDrops.FullQueueForgetsATopic`). No further microtask asks for it:
  only an older batch that still holds the topic, a new socket, or letting go of
  the topic and subscribing again (`SubscriptionDrops.AskedAgainExactly`,
  `SubscriptionDrops.ChurnAsksAgain`).
- The comment at `src/client.js` lines 1359-1361 says the backlog mark needs no
  reset when a window is applied. That holds while sends are made on an open
  socket. Both callers check that first, but a degradation listener that closes
  or pauses the connection runs inside `_flowSend` before the report, and then
  the mark can stay above the backlog: `FlowProofs.ClosedSocketLeavesStaleMark`
  is a run, `FlowProofs.BacklogMarkExactly` says when.
- `src/client.js` (lines 2787-2802) clears the failure cause of a connection the
  caller closes. A permanent-close subscriber that closes while the connection
  gives up runs just before the cause is set, and it stays:
  `ReconnectProofs.ClosedHasNoCauseExactly`.
- `src/safe-url.js` says that declaring the exact NAT64 prefix brings the
  refusal of public destinations to zero (lines 393-395 and 692-695). It does
  not: under every /56 prefix a public address ending in .0.94.254 also reads
  as an ISATAP identifier and is refused. `Addresses.DeclaredIsExact` gives the
  exact condition and `Addresses.DeclaredStillRefusesAPublicAddress` the case.
- The same public IPv4 literal with a trailing root dot passes as a host and is
  no IP at all as an address; a dot after a bracketed IPv6 literal is let
  through only when a zone id comes before the bracket. `Hosts.RootDotDivides`
  and `Hosts.SafeIsPublicLiteral` state both.
- `codeSpan` does not render "exactly" a text of nothing but spaces, an empty
  text, or one with a line ending; `CodeSpan.RoundTrip` is the exact condition.

## Model

| member | source | states |
|---|---|---|
| ReconnectProofs.ExactlyOneDriver | src/client.js:1769-1913 | In every reachable state a wanted connection has exactly one thing that will produce its next event (a socket whose close event is due, a retry armed for the current generation, or a preflight of it); an unwanted one has none and no armed timer; a connecting socket has its handshake deadline armed |
| ReconnectProofs.RetryBudget | src/client.js:2397-2451 | Over every run the attempt count stays within the limit and at most the backoff count, a reserved retry was counted and never outlives an accepted socket, `failed` means closed by the caller or given up, and a close keeps a failure cause only when a permanent-close subscriber made it while giving up |
| ReconnectProofs.ClosedHasNoCauseExactly | src/client.js:2787-2802 | For each configuration: in no run does a closed connection show a failure cause, if and only if it can never connect or no permanent-close subscriber closes it |
| ReconnectProofs.EndedIsFinal | src/client.js:2751-2802 | Once closed or terminal, no later run of events opens a socket or arms anything, and the status stays failed |
| ReconnectProofs.LateSocketEventsAreInert | src/client.js:1930-1943 | Open, close, handshake and advisory events of a replaced socket change nothing but the record that they happened |
| ReconnectProofs.LateRunsAreInert | src/client.js:1832-1834 | A preflight of an earlier generation and a forgotten retry timer change nothing when they come in |
| ReconnectProofs.OnePauseCycle | src/client.js:1791-1799 | Pausing and resuming gives back exactly the reserved retry and leaves the connection driven |
| ReconnectProofs.PauseCyclesSpendNothing | src/client.js:2751-2772 | Any number of pause and resume cycles before an outcome spends nothing: the one reserved retry is refunded once |
| ReconnectProofs.StepKeeps | src/client.js:1769-2930 | Every event, with any re-entrant calls, keeps the invariant that handles match what they name, drivers are exclusive, the budget holds and nothing is stuck; generations and sockets only grow and an ending is final |
| ReconnectProofs.NotifyKeeps | src/client.js:1828-1831 | Whatever a store subscriber calls back keeps the invariant, and unless nothing happened a new generation began and the socket was let go of |
| ReconnectProofs.CreatedIsInv | src/client.js:2804-2805 | A new connection starts in a state that meets the invariant |
| ReconnectProofs.Unplugging | src/client.js:1779-1799 | Cancelling the attempt and the retry leaves no handle, no armed timer and nothing driving |
| ReconnectProofs.Refunding | src/client.js:1791-1799 | A refund never gives back more than the last reservation took |
| ReconnectProofs.CloseSocketKeeps | src/client.js:2758-2763 | Closing a socket that has been let go of harms no invariant and leaves whatever drives the connection |
| ReconnectProofs.DisconnectKeeps | src/client.js:1803-1810 | Closing the current socket keeps it as the driver until its close event |
| ReconnectProofs.DropKeeps | src/client.js:1816-1828 | Before an attempt is announced the replaced socket is forgotten and reported under a new generation; if a subscriber intervened the connection is driven by what it did |
| ReconnectProofs.AttemptKeeps | src/client.js:1812-1886 | An attempt ends driven under a newer generation, whatever the two notifications provoke |
| ReconnectProofs.AnnounceKeeps | src/client.js:1829-1886 | From an idle connection, announcing and dialling leaves it driven |
| ReconnectProofs.OpenSocketKeeps | src/client.js:1888-1912 | A new socket, or the retry scheduled when construction throws, drives the connection |
| ReconnectProofs.ScheduleKeeps | src/client.js:2419-2451 | With no socket and no preflight, scheduling leaves exactly one armed retry within the budget, or a connection given up |
| ReconnectProofs.GiveUpKeeps | src/client.js:2365-2374 | Giving up ends the connection for the given cause, closed as well exactly when a permanent-close subscriber closes it |
| ReconnectProofs.LosingSocketIdles | src/client.js:2341-2352 | Losing the current socket leaves nothing driving, so the outcome must arm the next driver |
| ReconnectProofs.OnLostKeeps | src/client.js:2355-2408 | Every close code, fresh or stale drain advice included, leaves the connection driven or ended |
| ReconnectProofs.RetireKeeps | src/client.js:2389-2408 | The common tail of the retrying outcomes leaves the connection driven, however its two notifications are answered |
| ReconnectProofs.SettleStale | src/client.js:1931-1943 | Settling a socket that is no longer current keeps the invariant |
| ReconnectProofs.SettledAuth | src/client.js:1832-1835 | A preflight that comes in leaves nothing driving if it is current, and the invariant if it is not |
| ReconnectLaws.StepIsLawful | src/client.js:1769-2930 | Every event keeps the invariant, only adds sockets and generations, and opens nothing on an ended connection |
| ReconnectLaws.OpenAccepts | src/client.js:1930-1945 | An accepted socket that is still current afterwards has a fresh budget, no failure and the right status; a replaced one changed only its ready state |
| ReconnectOutcomes.ClosedByCode | src/client.js:2363-2408 | The close of the current socket, no subscriber intervening: the cause is terminal if and only if the code is 1008, 4401 or 4403; else fresh drain advice starts the budget over and arms one uncounted retry; else 4429 leaves one more attempt and one more than the greater of backoff and 5; any other code adds one to both; at the limit the budget is exhausted |
| ReconnectOutcomes.PreflightedBy | src/client.js:1833-1884 | The current preflight, no subscriber intervening: accepted opens the socket, refused ends the connection, throttled jumps ahead in the backoff, any other failure takes one step of it |
| ReconnectOutcomes.Dialling | src/client.js:1812-1912 | A quiet dial announces a new generation and starts its preflight, or its socket with the deadline armed, or the next retry when construction throws |
| ReconnectOutcomes.DialIsHeard | src/client.js:1812-1831 | A subscriber that closes at the announcement of an attempt, or at the report that a socket was replaced, which is made exactly when one was, closes the connection |
| ReconnectOutcomes.OpenIsHeard | src/client.js:1930-1990 | So does one at either report of an accepted socket |
| ReconnectOutcomes.CloseIsHeard | src/client.js:2389-2408 | So does one at either report of a close that is retried |
| ReconnectOutcomes.PreflightIsHeard | src/client.js:1851-1882 | So does one at either report of a preflight that is retried |
| ReconnectOutcomes.PauseIsHeard | src/client.js:2751-2764 | So does one at either report of a pause |
| ReconnectOutcomes.HookIsObeyed | src/client.js:2751-2802 | A pause or resume made by a subscriber takes effect, and so does the call it makes next |
| ReconnectOutcomes.ReturnDials | src/client.js:2837-2896 | A page or browser that comes back dials so with a fresh budget, replacing a closing socket |
| ReconnectLaws.CloseLoses | src/client.js:2341-2408 | The current socket is let go of, for good on 1008, 4401 and 4403, and with quiet subscribers as the code and the advice decide; a replaced one changed only its ready state |
| ReconnectLaws.AuthPreflights | src/client.js:1832-1884 | A refused current preflight ends the connection and with quiet subscribers the outcome decides what follows; an earlier one is only forgotten |
| ReconnectLaws.TimerRetries | src/client.js:2446-2450 | The armed retry dials; a forgotten one does nothing |
| ReconnectLaws.DialBegins | src/client.js:1812-1831 | With nothing under way an attempt always begins a new generation |
| ReconnectLaws.HandshakeGivesUp | src/client.js:1907-1911 | Only the current socket, still connecting, starts closing, at no cost to the budget |
| ReconnectLaws.AdvisoryAdvises | src/client.js:2316-2334 | Only the current socket's advice is kept, until five seconds past the announced delay and window |
| ReconnectLaws.HiddenPage | src/client.js:2812-2836 | Hiding the page suspends a live socket, or after a sleep drops it with a fresh budget, and never dials |
| ReconnectLaws.OfflineBrowser | src/client.js:2874-2885 | Going offline reports the drop at once, leaves no live socket and never dials |
| ReconnectLaws.SilentSocket | src/client.js:2907-2930 | A silent socket starts closing; nothing else changes |
| ReconnectLaws.VisibleRevives | src/client.js:2837-2863 | Without a live socket or a preflight, becoming visible dials at once with a fresh budget; an open socket is live again, or after a sleep dropped; an unwanted connection is left alone |
| ReconnectLaws.OnlineRevives | src/client.js:2886-2896 | Without a live socket or a preflight, coming online dials at once with a fresh budget; an open socket and an unwanted connection are left alone |
| ReconnectLaws.PausePauses | src/client.js:2751-2764 | Unless a subscriber intervenes a pause leaves no driver, no timer, no advice and no live socket and refunds exactly the reserved retry |
| ReconnectLaws.ResumeDials | src/client.js:2766-2772 | Resuming a paused connection begins a new generation, whatever subscribers do; otherwise it does nothing |
| ReconnectLaws.CloseCloses | src/client.js:2774-2802 | Even in the middle of another step a close is final, with nothing driving or armed, no live socket and no failure cause |
| ConnectionObject.Connection.constructor | src/client.js:2804-2805 | A new connection is valid, has exactly one driver if it is wanted, and dials |
| ConnectionObject.Connection.Handle | src/client.js:1769-2930 | Any event leaves the object valid and in the state the machine steps to, so every result about runs is about the object |
| ConnectionObject.Connection.Play | src/client.js:1769-2930 | The same of any sequence of events |
| ConnectionObject.Connection.OnOpen | src/client.js:1930-1945 | Keeps the object valid; a replaced socket changes nothing else, the current one starts a fresh budget |
| ConnectionObject.Connection.OnClose | src/client.js:2341-2408 | Keeps the object valid; a replaced socket changes nothing else, the current one is let go of, for good on 1008, 4401 and 4403, and with quiet subscribers the retry, the budget and the cause are those of the code and the advice |
| ConnectionObject.Connection.OnAuth | src/client.js:1833-1884 | Keeps the object valid; an earlier preflight is only forgotten, a refusal ends the connection, and with quiet subscribers every outcome has its exact effect |
| ConnectionObject.Connection.OnRetryTimer | src/client.js:2446-2450 | Keeps the object valid; only the armed retry begins an attempt |
| ConnectionObject.Connection.OnHandshakeTimer | src/client.js:1907-1911 | Keeps the object valid; only the current connecting socket is given up on |
| ConnectionObject.Connection.OnPeerClosing | src/client.js:1801-1802 | Keeps the object valid; an open socket is closing, and no handle, flag, budget or report changes |
| ConnectionObject.Connection.OnDrainAdvisory | src/client.js:2316-2334 | Keeps the object valid; only the current socket's advice is kept, past the window it announces |
| ConnectionObject.Connection.SimulateOffline | src/client.js:2751-2764 | Keeps a valid object valid; nothing is left driving and at most the reserved retry comes back, unless a subscriber intervenes |
| ConnectionObject.Connection.ResumeOnline | src/client.js:2766-2772 | Keeps a valid object valid; a paused connection begins a new attempt |
| ConnectionObject.Connection.Close | src/client.js:2774-2802 | Ends the connection with nothing driving or armed, from any safe state |
| ConnectionObject.Connection.OnHidden | src/client.js:2812-2836 | Keeps the object valid; suspends or drops a live socket and dials nothing |
| ConnectionObject.Connection.OnVisible | src/client.js:2837-2863 | Keeps the object valid; dials at once when nothing is under way |
| ConnectionObject.Connection.OnOffline | src/client.js:2874-2885 | Keeps the object valid; a wanted connection reports the drop and has no live socket |
| ConnectionObject.Connection.OnOnline | src/client.js:2886-2896 | Keeps the object valid; dials at once when nothing is under way |
| ConnectionObject.Connection.OnActivityTick | src/client.js:2907-2930 | Keeps the object valid; a silent socket starts closing |
| RecoveryProofs.SavedOffsetIsSafe | src/client.js:1484-1505 | Over every interleaving in which no accept overlooks an event, the saved offset never passes a number that was neither dispatched, nor declared lost by a marker, nor published before the first enrolment; while a recovery is unanswered it is the offset presented or was cleared by a marker |
| RecoveryProofs.DrainedMeansSettled | src/client.js:1966-1973 | In such a run, once all frames are read and nothing is outstanding, every event published since the first enrolment was dispatched or declared lost |
| RecoveryProofs.HoleExactly | src/client.js:1528-1543 | An accept leaves an event neither settled nor on its way if and only if it takes a plain request for a topic that was enrolled before, is not now, and has an event that was never settled |
| RecoveryProofs.SilentLossExactly | PROTOCOL.md:953-962 | A run at some point streams to the client past a hole if and only if one of its accepts overlooks an event |
| RecoveryProofs.StepKeeps | src/client.js:2006-2029 | Every step of client, channel or server that overlooks nothing keeps the recovery invariant |
| RecoveryLoss.StaleSubscribeLosesAnEvent | src/client.js:1528-1543 | A concrete run on a topic that stays subscribed: the offset ends past an event that was neither dispatched nor given up, with nothing outstanding |
| RecoveryLoss.PromptRunsLoseNothing | src/client.js:1528-1543 | A run in which no request without history leaves for a topic enrolled before and not now overlooks nothing and never leaves a hole |
| RecoveryLoss.ReturningWithoutOffsetLoses | src/client.js:1459-1463 | From every state of a subscribed topic between connections that was enrolled before and holds no offset: an event published meanwhile is never settled, and the next one takes the offset past it |
| RecoveryLoss.LostBeforeTheFirstEvent | src/client.js:1966-1973 | A run whose connection drops before the first event ends with the offset at 2 and event 1 neither dispatched nor declared lost |
| RecoveryLoss.LostAfterAMarker | src/client.js:1966-1973 | A run whose connection drops after a marker took the offset ends with the offset at 3 and event 2, which the marker did not cover, lost |
| RecoveryDanger.OverlookingEndangers | PROTOCOL.md:953-962 | From every invariant state where an accept overlooks an event, that accept has a continuation, with nothing more accepted, that takes the saved offset past a number that was never settled |
| RecoveryDanger.AcceptIsSafeExactly | PROTOCOL.md:953-962 | After any careful run the next accept has a careful future in which the saved offset passes an unsettled number if and only if it overlooks an event |
| RecoveryOffset.OffsetIsGreatest | src/client.js:1484-1505 | After any requests, events, markers, answers and lost connections the saved offset is exactly the greatest number asked from or counted since it was last set anew, and none if there is none; an event counts at once, or, if it came during a recovery, exactly when that is accepted; a recovery is outstanding exactly while its request is unanswered |
| RecoveryOffset.RunOffsetIsGreatest | src/client.js:2006-2029 | The same of the client's offset over every run of the whole system |
| RecoveryOffset.WholeRecovery | src/client.js:1497-1505 | Accepted, a recovery leaves the greatest of the offset asked and the events read meanwhile; refused, the offset asked |
| RecoveryOffset.ConnectAsksExactly | src/client.js:1966-1973 | In every run a topic once mounted is asked for on each new connection, from the offset held, and nothing else is |
| RecoveryProgress.GapFillIsSent | PROTOCOL.md:953-962 | A gap-fill that is let run sends every event from the one after the offset to the head it started from, in order, and then its answer |
| RecoveryProgress.RecoveryCompletes | PROTOCOL.md:953-962 | A recovery that is accepted, filled and read leaves every event after the offset settled, nothing outstanding, and the offset at the head when the gap came as events of the topic |
| RecoveryProgress.RetryAsks | src/client.js:1583-1605 | A rate-limited topic is asked for again with the offset held when the retry was prepared |
| RecoveryTracker.RecoveredOffset | src/client.js:1484-1505 | A recovery frame, any messages that do not invalidate the topic, and the answer: accepted, the greatest of the offset asked and the topic's numbers is saved; refused, the offset asked |
| RecoveryTracker.MarkerIsHeard | src/client.js:2014-2021 | A message invalidates a topic if and only if it is unnumbered, on the topic's replay topic, and a truncated, rehydrate, gap or denied event, or an end that says truncated |
| RecoveryTracker.Trackers.SavedOffset | src/client.js:1484-1505 | Whatever calls were made, a topic's saved offset is the greatest number that counts and its recovery is outstanding while unanswered |
| RecoveryTracker.Trackers.SendRecoveryFrame | src/client.js:1484-1494 | On an open socket every recovered topic becomes pending under the frame's ref at the offset it presents; otherwise nothing changes |
| RecoveryTracker.Trackers.FinishRecovery | src/client.js:1497-1505 | Keeps every topic where the calls so far put it; only the matching ref ends a recovery, and only acceptance commits the highest number held back |
| RecoveryTracker.Trackers.OnSubscribed | src/client.js:2170-2175 | An acknowledgement ends the recovery and records the topic's epoch |
| RecoveryTracker.Trackers.Dispatch | src/client.js:2006-2029 | Keeps every topic where the calls so far put it; a numbered event raises the held-back mark or the offset; a replay marker clears the offset and the mark; only a rehydrate changes the epoch |
| RecoveryTracker.Trackers.Reset | src/client.js:1818 | A new attempt forgets outstanding recoveries and keeps every offset |
| RecoveryTracker.Trackers.Unsubscribe | src/client.js:2525 | Unsubscribing forgets one topic's recovery |
| RecoveryTracker.Trackers.ResumeOf | src/client.js:1459-1463 | A topic is resumed exactly when an offset is held, with that offset and the recorded epoch |
| FlowProofs.SendsAreConserved | src/client.js:1372-1400 | Sends that ran, then those queued, are the submissions minus the dropped in order; a window lets out no more than it granted; a backlog means no fresh permit and is what degraded says |
| FlowProofs.DroppedOnlyWhenFull | src/client.js:1373-1385 | A submission is dropped exactly when 256 are queued, and sent only with an empty queue |
| FlowProofs.KeptIsOrdered | src/client.js:1372-1400 | Kept submissions are exactly the undropped ones in strictly increasing order |
| FlowProofs.FewReportsPerWindow | src/client.js:1340-1371 | Per window at most one zero-depth and at most nine positive-depth reports, whether or not the socket is open |
| FlowProofs.ReportedDepthTracksBacklog | src/client.js:1362-1386 | In every run, after a send that queues, the depth is below 2r for the mark r, and r <= depth if and only if this send re-based the mark or the old one was not above the new depth; so it is whenever every send was made on an open socket |
| FlowProofs.BacklogMarkExactly | src/client.js:1362-1371 | For any window, the mark is within the backlog after a queueing send if and only if that send re-based it or the old mark was not above the new depth |
| FlowProofs.ClosedSocketLeavesStaleMark | src/client.js:1335-1371 | A run that ends with the mark at 2 over a backlog of 1, its last send queued on a socket no longer open |
| FlowProofs.DrainIsFifo | src/client.js:1394-1398 | The drain sends a prefix of the queue, one permit each, until one of them runs out |
| FlowProofs.WindowConserves | src/client.js:1387-1401 | A fresh window loses and reorders nothing, and what still waits after it has no permit left |
| FlowAsks.AsksExactly | src/client.js:1340-1354 | Over every run on an open socket a window has asked for more if and only if some send since it came had to wait, left 64 permits or fewer, or was made when its deadline had come |
| FlowAsks.SendsExactly | src/client.js:1332-1374 | Over every run a send goes out at once if and only if no window governs yet, or the current one has a permit left and the time of its arrival plus its ttl has not come |
| FlowAsks.GovernedExactly | src/client.js:1373-1389 | A window governs if and only if the lease or a window has come |
| FlowProofs.ToldExactly | src/client.js:1340-1386 | What one submission reports, to the frame: when a sent one asks, when a waiting one reports its depth, and nothing on a closed socket or when dropped |
| FlowProofs.OneReport | src/client.js:1340-1371 | One submission reports at most one depth; past the first of the window it is at least twice the mark, which never drops within a window |
| FlowWindow.Window.MaybeReplenish | src/client.js:1340-1354 | At most one request in a window, naming the backlog, made if and only if there is one, 64 permits or fewer are left, or they have expired; queue, permits and sends stay |
| FlowWindow.Window.ReportDeeperBacklog | src/client.js:1362-1371 | Afterwards the backlog is less than twice the mark; a report means it had at least doubled; queue, permits and sends stay |
| FlowWindow.Window.Send | src/client.js:1373-1386 | If sends waited only for want of a permit at some earlier time, the send at any later time goes behind those before it unless 256 are queued, and the same holds afterwards; at most one report |
| FlowWindow.Window.ApplyWindow | src/client.js:1388-1401 | No send is lost or overtaken, each takes a permit, what still waits has none left at any time, and the deadline is the ttl from now |
| FlowWindow.Window.DrainQueue | src/client.js:1394-1398 | The loop is the first-in, first-out drain |
| SubscriptionProofs.MembershipIsAccountedFor | src/client.js:2464-2556 | While the socket is open the server holds nothing without a holder, and every wanted topic is on the server, in the pending batch, waiting for a permit, or dropped by a full queue |
| SubscriptionProofs.QuiescenceIsConvergence | src/client.js:1518-1543 | With nothing pending, queued or dropped, the server holds every wanted topic |
| SubscriptionCounts.HoldersAreCounted | src/client.js:2464-2514 | Over every run the count of a topic is the most subscribes over releases in any end of the run without a forced unsubscribe |
| SubscriptionCounts.ReleasedIsGone | src/client.js:2497-2514 | Once every such end has released as often as it subscribed, the topic is neither counted, nor wanted, nor on the server |
| SubscriptionProofs.AsksForExactly | src/client.js:2464-2491 | Over every run the topics the client asks for are exactly those with a holder, not managed, and not starting with two underscores |
| SubscriptionProofs.SubscribeAsksExactly | src/client.js:2464-2491 | A subscribe joins the next batch if and only if the socket is open and it is the first holder of a topic the client asks for |
| SubscriptionProofs.BatchesAreOptimal | src/client.js:1527-1543 | The batches of a microtask are its topics in order, within the limits, and as few as possible |
| SubscriptionProofs.OfferPlaces | src/client.js:1372-1385 | A batch that is offered leaves each of its topics placed and no other topic displaced |
| SubscriptionProofs.OfferAllPlaces | src/client.js:1537-1543 | Every topic of a flushed batch ends up placed, however the permits fall |
| SubscriptionProofs.StepKeeps | src/client.js:2464-2556 | Every operation keeps counts, membership and placement |
| SubscriptionDrops.DroppedExactly | src/client.js:1518-1543 | For every state and event, a topic becomes dropped if and only if in a microtask on an open socket none of its batches finds a permit and the last of them finds 256 queued, the topic being subscribed, unmanaged and not yet held |
| SubscriptionDrops.OffersDropExactly | src/client.js:1372-1385 | For every sequence of offers, a topic is sent exactly when one of its batches finds a permit, and dropped exactly when none does and the last meets a full queue |
| SubscriptionDrops.AskedAgainExactly | src/client.js:1394-1398 | A dropped topic is asked for again in a step if and only if an older batch with it is let out or a socket opens; it stops being dropped exactly then or when its last holder lets go |
| SubscriptionDrops.MicrotaskIgnoresDropped | src/client.js:1518-1543 | No microtask asks for a dropped topic |
| SubscriptionDrops.ChurnAsksAgain | src/client.js:2464-2514 | Letting go of a dropped topic and subscribing again puts it in the next batch |
| SubscriptionDrops.FullQueueForgetsATopic | src/client.js:1523-1526 | A run on one open socket after which a wanted topic is neither on the server, nor pending, nor in any of the 256 queued batches |
| Subscriptions.SubscriptionTable.Subscribe | src/client.js:2464-2491 | Keeps the table valid; one more holder, and a topic the client asks for itself is placed |
| Subscriptions.SubscriptionTable.Release | src/client.js:2497-2505 | Keeps the table valid; the count is one less, and after the last nothing of the topic is left |
| Subscriptions.SubscriptionTable.Unsubscribe | src/client.js:2511-2514 | Keeps the table valid; whatever the count, nothing of the topic is left |
| Subscriptions.SubscriptionTable.FlushPendingSubscribes | src/client.js:1518-1543 | Keeps the table valid; nothing is pending any more and every wanted topic is sent, waits or was dropped by a full queue |
| Subscriptions.SubscriptionTable.OfferEach | src/client.js:1537-1543 | The chunks are offered in order, each with its own permit |
| Subscriptions.SubscriptionTable.PermitArrived | src/client.js:1394-1398 | Keeps the table valid; the oldest batch goes and every topic of it still wanted reaches the server |
| Subscriptions.SubscriptionTable.OnOpen | src/client.js:1966-1973 | Keeps the table valid; the server is asked for exactly the wanted topics and none is dropped |
| Subscriptions.SubscriptionTable.OnClose | src/client.js:2341-2349 | Keeps the table valid; the membership is gone and every wish stays |
| Subscriptions.SubscriptionTable.SetTopicManaged | src/client.js:74-76 | Keeps the table valid; the topic is no longer the client's to ask for, and no other topic's standing changes |
| Partition.FitsExactly | src/client.js:1403-1410 | A chunk is legal if and only if it is one topic, or two to 200 with at most 8000 bytes, the envelope of 50 included |
| Partition.PackIsOptimal | src/client.js:1419-1434 | The one-pass filling is a partition in order within both limits, and no such partition has fewer chunks |
| Partition.GreedyIsOptimal | src/client.js:1419-1434 | Any partition whose chunks could not take the next item has the fewest chunks |
| Partition.StaysAhead | src/client.js:1419-1434 | After any number of chunks the greedy ones have covered at least as much |
| Partition.CannotOverrun | src/client.js:1419-1434 | A legal chunk that starts no later than the greedy one ends no later |
| Chunker.ChunkTopicsForBatch | src/client.js:1419-1434 | The chunks are an optimal in-order partition of the topics under 200 topics and 8000 bytes, singletons aside |
| Chunker.ChunkResubscribe | src/client.js:1449-1481 | The same for the unmanaged topics with their recovery entries, and each recover map holds exactly the tracked topics of its chunk |
| Chunker.RecoverOfIsExact | src/client.js:1471-1475 | The map gathered as topics are added is null exactly when none is tracked, and otherwise holds exactly their entries |
| Chunker.EntryReadsBack | src/client.js:1460-1467 | The text of a recovery entry reads back as its offset and its epoch |
| Chunker.EntriesAsSent | src/client.js:1464 | An entry without and one with an epoch, as they go out |
| Chunker.FrameOfTwo | src/client.js:1537-1543 | The frame of two topics with nothing to recover is the JSON text with both names and the ref |
| Chunker.RecoveryFrameOfTwo | src/client.js:1484-1494 | The frame of two topics, one to recover, is the JSON text with both names, the ref and the entry |
| Chunker.BytesAreCounted | src/client.js:1458-1467 | The budget counts every byte of both lists with their separators |
| Chunker.FramesStayBelowCeiling | src/client.js:1403-1410 | The whole serialized frame of a chunk of several topics is shorter than 8192 bytes |
| Ipv4.ParseIpv4 | src/safe-url.js:104-142 | The parser computes the address the specification function gives |
| Ipv4.Combine | src/safe-url.js:130-141 | The parts make an address, or nothing when one is past its range |
| Ipv4.ParsesExactlySpellings | src/safe-url.js:104-142 | A text parses to an address if and only if it is one to four dotted decimal, octal or hex parts that spell it, the last part filling the remaining bytes |
| Ipv4.NeverWraps | src/safe-url.js:130-141 | Every success is below 2^32 without the final remainder changing anything |
| Ipv4.NumeralRoundTrip | src/safe-url.js:111-126 | A number in any base, padding and case reads back |
| Ipv4.PrintRoundTrip | src/safe-url.js:104-142 | Any address in any part count with any style per part parses to itself |
| Ipv4Grammar.PartIsSpelled | src/safe-url.js:111-126 | A part has a value if and only if, up to case, it is that number's decimal digits, or its octal digits behind a zero, or its hexadecimal digits behind 0x, the last two with any further zeros |
| Ipv4Grammar.AddressIsSpelled | src/safe-url.js:104-142 | A text reads as an address if and only if it is one to four such parts, dotted, that spell its fields |
| Ipv4.ClassifiesByBlock | src/safe-url.js:152-183 | The octet tests give the reason of the most specific of twelve CIDR blocks, and none exactly outside all of them |
| Ipv6.ParseDottedQuadTail | src/safe-url.js:254-265 | The loop computes the quad, or nothing when a part is not an octet |
| Ipv6.ExpandRun | src/safe-url.js:213-231 | The loop computes the groups of a run with an optional dotted last token |
| Ipv6.ParseIpv6 | src/safe-url.js:195-244 | The parser computes what the specification function gives |
| Ipv6Proofs.ParsesExactlySpellings | src/safe-url.js:195-244 | A text parses to groups if and only if, up to a zone id, it is eight groups or two runs around one double colon that spell them; they are always eight values below 2^16 |
| Ipv6Proofs.QuadIsSpelled | src/safe-url.js:254-265 | A tail gives two groups exactly when its four octets spell them |
| Ipv6Proofs.ZoneIsCut | src/safe-url.js:199-200 | What is read is the text before the first percent sign |
| Ipv6Grammar.HexTokenIsSpelled | src/safe-url.js:227-228 | A group is read if and only if it is one to four characters that spell it in hexadecimal, in either case, with any zeros |
| Ipv6Grammar.OctetIsSpelled | src/safe-url.js:258-262 | An octet of a dotted tail is read if and only if it is one to three characters that spell a number up to 255 in decimal |
| Ipv6Printing.PrintRoundTrip | src/safe-url.js:195-265 | Any address with any zero run compressed, any leading zeros, either case, dotted tail or not, reads back |
| Ipv6Printing.EveryAddressPrints | src/safe-url.js:195-265 | Every address has a printing in either letter case that reads back as it |
| Nat64.CheckSuffix | src/safe-url.js:584-592 | The loop finds a set bit after the embedded address if and only if there is one |
| Nat64.CheckPrefix | src/safe-url.js:603-614 | The group and mask comparison holds if and only if all prefix bits agree |
| Nat64Proofs.PrefixByOctets | src/safe-url.js:603-614 | At the six lengths that is octet equality over the prefix |
| Nat64Proofs.SuffixFollows | src/safe-url.js:584-592 | The suffix is clean exactly when every octet after the last embedded one, the reserved octet aside, is zero |
| Nat64Proofs.ReadIsLayout | src/safe-url.js:553-560 | At every length the reading is the four octets of the RFC 6052 table |
| Nat64Proofs.EmbeddingIsExact | src/safe-url.js:553-614 | An address is the embedding of an IPv4 address if and only if it is in the prefix, its reserved octet is zero below /96, its suffix is clean, and the reading is that address |
| Nat64Proofs.EmbeddingIsBijective | src/safe-url.js:553-614 | Reading undoes embedding, and embedding undoes reading on conformant addresses, at each length |
| Addresses.ClassifyUndeclared | src/safe-url.js:419-473 | The loop over the six readings gives the first blocked one that counts, then the zero and reserved-octet rules |
| Addresses.UndeclaredIsExact | src/safe-url.js:419-473 | Under 64:ff9b::/32 and outside any declared prefix an address passes if and only if its reserved octet is zero, groups 3 to 7 are not all zero, some reading has a leading octet, and all such readings are public |
| Addresses.NoLengthIsSmuggled | src/safe-url.js:359-371 | Outside any declared prefix, whatever the unused bits, an address that any length reads as blocked outside 0.0.0.0/8 is blocked |
| Addresses.DeclaredIsExact | src/safe-url.js:401-418 | Under a declared prefix with no meaning of its own an address passes if and only if it is the embedding of a public IPv4 address with a zero reserved octet and not the /56 ISATAP mimic |
| Addresses.DeclaredElsewhereIsExact | src/safe-url.js:401-418 | Under any declared prefix outside 64:ff9b::/32 an address passes if and only if it would without the declaration and it is an unwrapped form or the embedding of a public IPv4 address with a zero reserved octet |
| Addresses.LocalPrefixRefusesAll | src/safe-url.js:330-343 | Under a declared local, multicast or Teredo prefix no address passes |
| Addresses.EmbeddedIsClassifiedAsCarried | src/safe-url.js:401-418 | Under a prefix with no meaning of its own an embedding gets the verdict of the address it carries; of the public ones only those with a reserved octet set by the prefix and the /56 mimics are refused |
| Addresses.DeclaredStillRefusesAPublicAddress | src/safe-url.js:401-418 | Under every /56 some public address is refused, as unspecified unless the prefix itself means something |
| Addresses.EmbeddedFormsAgree | src/safe-url.js:295-337 | Whatever is declared, the mapped and translated forms get the verdict of the address inside; so does the compatible form, ::1 aside, except that a declared prefix of fewer than 96 bits that covers it refuses every public address as unspecified |
| AddressTable.PassesExactly | src/safe-url.js:292-500 | Outside every declared prefix an address passes if and only if it is in none of eight native blocks and, under 64:ff9b::/32, meets the translation rules, or elsewhere carries only public IPv4 addresses: mapped, compatible, translated, 6to4 and ISATAP |
| AddressTable.ReasonExactly | src/safe-url.js:292-500 | The reason is that of the most specific native block; else of the address an unwrapped form carries; else of the 6to4 address; else of the ISATAP one |
| AddressTable.WellKnownReason | src/safe-url.js:419-473 | Under 64:ff9b::/32 the reason is that of the shortest length whose reading counts and is blocked; else unspecified when groups 3 to 7 are zero, else reserved when the reserved octet is set |
| AddressTable.UncoveredIsUndeclared | src/safe-url.js:401-419 | A declaration that does not cover an address does not change its verdict |
| Declarations.DeclarationIsExact | src/safe-url.js:532-544 | A declared prefix is read if and only if it is an IPv6 literal, bracketed or not, a slash and one of the six lengths written exactly; what is read is fit for the classifier |
| Declarations.BracketsGo | src/safe-url.js:541 | One bracket goes from either end of the literal, and nothing else does |
| Hosts.SafeIsPublicLiteral | src/safe-url.js:820-841 | An address is safe if and only if it is a public IPv4 literal, a bare or bracketed public IPv6 literal, or such a bracket with a zone id and a trailing dot |
| Hosts.EverySpellingIsClassifiedAlike | src/safe-url.js:820-841 | Every spelling of an IPv4 address gets the verdict of the address |
| Hosts.RootDotDivides | src/safe-url.js:630-658 | A public IPv4 literal with a trailing dot passes as a host and is not an IP as an address |
| Hosts.BracketedVerdict | src/safe-url.js:636-643 | A bracketed IPv6 literal gets the verdict of its address, and is malformed if and only if it does not parse |
| Hosts.BareVerdict | src/safe-url.js:820-841 | So does a bare one |
| Hosts.BlockedNames | src/safe-url.js:646-647 | localhost, metadata and metadata.google.internal are blocked for their reason in any case, with or without the root dot, as a host and as an address |
| Hosts.NamesAreTheRest | src/safe-url.js:649-657 | A host is a name if and only if it is not empty, bracketed, one of the three names or an IPv4 literal |
| Hosts.LowersExactly | src/safe-url.js:632 | Each of the 26 capitals becomes its small letter and no other character changes |
| Hosts.Ipv4Lower | src/safe-url.js:632 | Lowering the case changes no IPv4 literal |
| Hosts.Ipv6Lower | src/safe-url.js:632 | Lowering the case changes no IPv6 literal |
| EditDistance.NoScriptIsShorter | src/config-guards.js:657-687 | No sequence of edits costs less than the recursive distance |
| EditDistance.SomeScriptIsThatShort | src/config-guards.js:657-687 | Some sequence of edits costs exactly the recursive distance |
| EditDistance.LengthsBound | src/config-guards.js:667 | The distance is at least the difference in length, so the first shortcut is sound |
| EditDistance.BetweenIsLev | src/config-guards.js:666-687 | The entry of the table at two positions is the distance of the two beginnings |
| EditDistance.RowsNeverShrink | src/config-guards.js:683 | Once a whole row is past the bound every later row is, so the row exit is sound |
| EditDistance.NextRow | src/config-guards.js:669-682 | One row of exact distances from the one before, and a lower bound of it |
| EditDistance.BoundedEditDistance | src/config-guards.js:666-687 | The exact distance when it is within the bound, otherwise nothing |
| EditDistance.Nearest | src/config-guards.js:643-654 | The first of the nearest keys that qualify, or nothing when none does |
| EditDistance.SuggestOptionKey | src/config-guards.js:638-655 | The first key equal up to case; else the first nearest within two edits among names of four or more; else nothing |
| SourceBytes.InvisibleAt | scripts/check-source-bytes.js:192-197 | The table loop finds the refused three-byte code point at a position, or zero |
| SourceBytes.ControlCharacters | scripts/check-source-bytes.js:163-189 | The loop returns the first eight hits of the scan, or all when there are fewer |
| SourceBytes.InvisibleIsEncoded | scripts/check-source-bytes.js:65-75 | The byte table holds exactly the encodings of the four refused code points |
| SourceBytes.ScanIsRefusals | scripts/check-source-bytes.js:163-197 | On any encoded text the scan is exactly the refused code points, in order, with their lines |
| SourceBytes.RefusalsAreExact | scripts/check-source-bytes.js:38-48 | A hit is listed if and only if some code point is refused there, its line counting the newlines before it |
| SizeGuard.Utf8ByteLength | src/client.js:152-164 | The loop gives the UTF-8 length of the decoded text, lone surrogates replaced |
| SizeGuard.UnitsBoundBytes | src/client.js:2104-2110 | Between one and three bytes to the unit for every string |
| SizeGuard.DropsFrame | src/client.js:2115-2128 | A frame is dropped if and only if its UTF-8 length exceeds 1048576 |
| CodeSpan.RenderCodeSpan | scripts/render-error-docs.js:96-103 | The loop over runs, the fence and the padding give the span |
| CodeSpan.LongestIsLongestRun | scripts/render-error-docs.js:98-99 | The loop finds the longest run of backticks in the text |
| CodeSpan.ClosesAtFence | scripts/render-error-docs.js:100 | With every run shorter than the fence, the closing fence is the first match |
| CodeSpan.SpanOfWordAndTick | scripts/render-error-docs.js:96-103 | A word is put between single backticks, and a backtick, padded, between two |
| CodeSpan.PaddedExactly | scripts/render-error-docs.js:101 | Where the span reads back at all, it is padded if and only if it would not read back without |
| CodeSpan.RoundTrip | scripts/render-error-docs.js:89-103 | CommonMark reads the text back, whatever follows the span, if and only if it is one line with something other than spaces |
| Reachability.Search.Visit | scripts/check-source-reachability.js:51-55 | Adds only what the file leads to, and everything the added modules import; ends because unvisited modules run out |
| Reachability.PathStaysInside | scripts/check-source-reachability.js:51-56 | A set closed under imports cannot be left by an import path |
| Reachability.ReachableFrom | scripts/check-source-reachability.js:50-56 | After all entries exactly the modules with an import path from an entry have been reached |
| Reachability.ExportedExactly | scripts/check-source-reachability.js:36-43 | A file is exported if and only if it is a module that some text of the exports field, at any nesting, names by a path starting with a dot and a slash |
| Reachability.UnitsDecode | scripts/check-source-reachability.js:57 | The UTF-16 units by which the report is ordered decode to the text |
| Reachability.Collector.Collect | scripts/check-source-reachability.js:36-43 | The entries become those relative exports, at any nesting, that name modules |
| Reachability.Unreached | scripts/check-source-reachability.js:57 | The sorted complement, each module once |
| Reachability.SortedIsOrdered | scripts/check-source-reachability.js:57 | The report is in order |
| Reachability.FindOrphans | scripts/check-source-reachability.js:33-57 | Each failure in its order, otherwise the orphans are exactly the modules no entry leads to |

## Left out

- Calls from subscribers at the failure and status reports of a terminal outcome and at the plain status reports: they are the last act of their handler, so they are the same as the call coming as the next event. A `close` made from inside `close` is the same as closing twice.
- Retry delays, jitter and the Retry-After floor: a retry may fire at any time once armed.
- The suspend and silence heuristics of the page handlers: what they decide is an arbitrary input.
- Aborting the preflight request: its outcome is arbitrary and may come at any time.
- RecoveryProofs.SavedOffsetIsSafe: is about one topic that stays subscribed, in one sequence space at a time; a change of epoch shows up only as the marker that announces it, and the server is assumed to answer a topic's requests in order, replaying before it acknowledges. Runs in which an accept overlooks an event are excluded, because there it is false.
- RecoveryProofs.DrainedMeansSettled: excludes the same runs for the same reason.
- The bookkeeping of rate-limited retries: only their effect, a later request carrying the offset held when it was prepared.
- SubscriptionProofs.QuiescenceIsConvergence: server denials are not modelled; membership is what the frames asked for.
- Managed marks set by other connections and the check that the connection is the shared one: a single connection is assumed.
- Batches handed to the permit queue by the rate-limited retry path: the model's queue holds only microtask batches.
- Hosts.SafeIsPublicLiteral: lower-casing is the ASCII one; no other character lowers to one the parsers or the blocked names use.
- URL parsing, resolution and allow lists of `src/safe-url.js`: they delegate to the platform or test membership.
- Precision of numerals past 2^53: numerals are naturals; such a part is out of range either way.
- EditDistance.SuggestOptionKey: lower-casing is an arbitrary function of the text.
- Walking the file system, scanning imports and normalising paths in the reachability check: the files, what each imports and the normaliser are inputs.
- Reading blobs from git (`indexBlobs`) and attribute parsing in the byte scan: I/O around the scan.
- The table-cell escaping (`cell`) that runs before `codeSpan`.
- Binary codecs, ingress bindings, plugins, Svelte stores and the send queue: not part of the five machines.
- Option-shape guards and error texts: each looks at one value and throws, and shares no state with the rest.
