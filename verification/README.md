# Verified models of the PansClaw state machines, caches and text algorithms

Each part of the repository that is more than wiring is modelled here in Dafny and its promises are
proved for all inputs, all runs and all interleavings. Code that updates state in place is a class or
a method with loops, proved to compute a function of its old state. What those functions mean is proved
beside them in terms of the inputs, the events of a run and plain numbers, so that a function with a
wrong branch or a wrong constant breaks a law and not only its method.

- **Chrome relay extension** (`RelayMachine`, `RelaySafety`, `RelayIndex`, `RelayReports`,
  `RelaySteps`, `RelayFrames`, `RelayFlows`, `RelayFindings`, `RelayWorker`). The service worker is a state machine whose events are the stretches of code between
  two awaits. A suspended handler is a value in a multiset, and any of them may resume next, with any
  outcome, so a sequence of events is an arbitrary interleaving of clicks, attaches, re-attach loops,
  re-announcements, detaches, tab replacements, relay outages and worker restarts from any snapshot
  ever stored. `RelaySafety` proves what every run keeps. `RelayIndex` proves when the session index
  can be trusted, `RelayReports` when a detached session is announced or reported again.
  `RelaySteps` says what every event does to each part of the state, `RelayFrames` what the relay is told,
  which tab a child session belongs to and where commands go, `RelayFlows` how whole operations end.
  `RelayFindings` shows with concrete runs where tempting stronger claims fail.
  `RelayWorker` is the imperative worker; its handlers take exactly the machine's steps.
- **Pairing notifier** (`PairNotify`, `PairNotifyFile`, `PairNotifyProofs`, `PairNotifyRuns`,
  `PairNotifyPolls`, `PairNotifier`). Subscribers and the memory of notified requests live in a JSON file that polls and commands read, change and
  write back. Any read may fail, and any write may fail or leave the file torn.
- **Single flight and caches** (`BedrockDiscovery`, `FoundryTokens`, `ChutesCache`). Replies are shown
  to be functions of the bare history of settled requests, whatever the interleaving of callers.
- **Text** (`Chunking`, `Utf16`, over `Texts`). Strings are sequences of UTF-16 code units; surrogate
  pairs are those of sections 2.1 and 2.2 of RFC 2781.
- **Worklists, batches, aggregates** (`ImportGraph`, `FileWalk`, `LabelBatches`, `CronUsage`, `CronEntries`).
- **Release numbering** (`Sparkle`, `Appcast`, over `Decimals`).

`OrderedMaps` models the insertion order of a JavaScript `Map`, `Options` the usual option type.

## What the proofs found

Where a promise does not hold of the code, the code is modelled as it is, a concrete run shows the
failure, and the exact condition is proved.

- The relay's session index is not always complete: a tab replaced while its re-announcement is
  awaiting its validation can lose its entry, and commands for its session then go to the first
  attached tab (`RelayFindings.MisroutedAfterReplace`; exact condition `RelayIndex.CompleteStep`).
- It is not always an exact inverse of the tab table either: a click whose relay connection is lost
  again before the tab is announced leaves a stale entry (`RelayFindings.StaleAfterFailedClick`; exact
  condition `RelayIndex.InverseStep`).
- A session reported detached can be announced as attached afterwards
  (`RelayFindings.AnnouncedAfterDetach`; exact condition over runs `RelayReports.LateAnnouncement`).
- The once-only report of a detach does not survive a restart
  (`RelayFindings.DetachedAgainAfterRestart`; exact condition `RelayReports.ReportedAgain`: the snapshot
  revives the session, or is so old that its number is minted again).
- A session can leave the tab table with the relay up and never be reported: another tab takes its
  holder's place, the holder is attached once more, its click fails, or its validation does (exact
  condition `RelayReports.LeavesUnreported`).
- The notifier trims account and thread names when it reads the file but not when it stores a
  command's target, so enabling notifications twice can leave two subscribers with one key
  (`PairNotifyRuns.UntrimmedTwice`; exact condition `PairNotifyRuns.OnTwice`, when keys stay unique for
  any target `PairNotifyRuns.OnKeepsUnique`, and of any state `PairNotifyProofs.RoundTrip`).
- A subscriber's key joins its parts with bars and escapes nothing, so two chats can share one
  (`PairNotifyFile.BarShares`; what a key tells without bars `PairNotifyFile.KeysTell`).
- A delivery is remembered only by the write that follows it. When that write fails, when a later one
  leaves the file torn, or when a command stores what it took for an empty file after a failed read,
  the request is told again at once (`PairNotifyRuns.FailedWriteTwice`, `PairNotifyRuns.TornWriteTwice`,
  `PairNotifyRuns.FailedReadTwice`; exact condition `PairNotifyRuns.DeliveredAgainExactly`, and without
  these three events `PairNotifyRuns.DeliveriesSpaced`).
- A request with a blank id is forgotten on every read and told again at the next poll, although
  nothing fails (`PairNotifyRuns.BlankTwice`; exact condition `PairNotifyRuns.SpacedExactly`).
- Bedrock callers that wait for one lost request do not get the same: its starter gets an empty list,
  a caller that joined it a rejected promise (`BedrockDiscovery.JoinerReceives`).
- Text that starts with a space or newline can have a word cut although the word fits into a chunk
  (`Chunking.LeadingSpaceCuts`; exact condition `Chunking.WordsStayWhole`), and can yield an empty
  chunk (`Chunking.LeadingSpaceEmpties`; exact condition `Chunking.NoEmptyChunk`). For limits below 1
  the chunking loop need not end (`Chunking.ZeroNeverEnds`; exact condition `Chunking.EndsExactly`).
- Storing a Chutes list again does not protect it: in a full cache the next new key evicts a key just
  refreshed exactly when it is the oldest (`ChutesCache.RefreshedStillEvicted`; whom any insertion
  evicts is `ChutesCache.StoreEvictsOne`, and how long an entry is safe `ChutesCache.FoundForItsTtl`).
- Numbered Sparkle suffixes of one date are told apart only below 89 (`Sparkle.SharedLane`; exact
  condition `Sparkle.PrereleaseOrder`), and lane floors reach the lane range only from the year 1000 on
  (`Sparkle.EarlyYear`; exact condition `Sparkle.LanesSeparate`).
- In the cron report an explicit `null` output makes a run without any count one with usage
  (`CronUsage.NullOutputCounts`; exact condition `CronUsage.UsageWithoutCount`, its effect on the sums
  `CronUsage.MissingExactly`).
- The tables of the cron report are plain objects. A model with an inherited name such as `toString` is
  counted for its job only (`CronUsage.InheritedModelLost`; exact condition `CronUsage.Conserved`), and a
  job with one makes the report throw (`CronUsage.InheritedJobThrows`). A run of the model `__proto__`
  writes its counters into the object all others inherit from: the report goes on, but a later first job
  or model called like such a counter makes it throw (`CronUsage.CounterJobThrows`; exact condition of
  any throw `CronUsage.ReportExactly`), and usage records that lack a count then add no number to the sums
  (`CronUsage.ProtoSpoils`; exact condition `CronUsage.SumsAreNumbers`).

## Model

| member | source | states |
|---|---|---|
| RelaySafety.RunKeeps | assets/chrome-extension/background.js:528-949 | After every run, restarts included: held and indexed sessions are below the counter, no two tabs hold one session, the index never sends a held session to another tab; within one worker lifetime a session is reported detached at most once and no debugger event goes out under it afterwards; every stored snapshot is sound. |
| RelaySafety.NextKeeps | assets/chrome-extension/background.js:528-949 | The same invariant over one event of any kind, from any state that has it. |
| RelaySafety.RunOrdered | assets/chrome-extension/background.js:26-44 | Along every run the insertion-ordered tab and child tables list exactly their keys, each once. |
| RelaySafety.DetachKeeps | assets/chrome-extension/background.js:571-608 | Detaching a tab, whatever children are reported first, keeps routing safety and the silence of detached sessions. |
| RelaySafety.SaveSound | assets/chrome-extension/background.js:114-131 | A stored snapshot has pairwise distinct tabs and sessions, all below its counter, and names a target for each. |
| RelaySafety.RehydrateExact | assets/chrome-extension/background.js:133-164 | From a sound snapshot the restarted worker holds exactly the saved tabs that validate, in their order, with an index that is their exact inverse and a counter above every restored session. |
| RelaySafety.PersistThenRehydrate | assets/chrome-extension/background.js:114-164 | After any run: persist, die, restart brings back exactly the attached tabs that still validate, unchanged and in order, under an exact inverse and the same counter. |
| RelayIndex.RunComplete | assets/chrome-extension/background.js:312-328 | In every run in which no tab is replaced while its validation is awaited, every attached tab is found by the index under its own session. |
| RelayIndex.CompleteStep | assets/chrome-extension/background.js:319-328 | From a complete index, one event loses a tab if and only if a negative verdict comes back for a session that another tab holds by then. |
| RelayIndex.InverseStep | assets/chrome-extension/background.js:540-552 | From an exact inverse, the next index is an exact inverse if and only if the event is none of the listed strays: attaching or replacing onto an attached tab, a failed click on an attached tab, a verdict for another session. |
| RelayIndex.RemovePair | assets/chrome-extension/background.js:607-608 | Removing one tab and at most one session from an exact inverse leaves an exact inverse if and only if the two belong together. |
| RelayIndex.RouteReachesHolder | assets/chrome-extension/background.js:691-707 | In every reachable state a command for a held session reaches its holder when the index has the session, always in undisturbed runs; without a target id it does so if and only if the index has it or the holder comes first. |
| RelayIndex.RunExclusive | assets/chrome-extension/background.js:625-689 | At every moment of every run a tab has exactly one click operation in flight if it is locked and none otherwise. |
| RelayFindings.DetachSettles | assets/chrome-extension/background.js:571-608 | No trace of a detached tab stays in the tables, and every other tab and child session is unchanged. |
| RelayFindings.DetachReports | assets/chrome-extension/background.js:571-605 | With the relay up, detaching reports each child session of the tab once, then its own session last, and nothing else. |
| RelayReports.ReportsExactly | assets/chrome-extension/background.js:571-850 | From any state with the invariant, an event other than a restart newly reports a session detached if and only if the relay is up and the event detaches the tab that holds it. |
| RelayReports.LeavesUnreported | assets/chrome-extension/background.js:318-947 | A held session leaves the table, restarts aside, if and only if its holder is detached, or loses it by being attached once more, replaced onto, failing its click or failing its validation; and it leaves unreported if and only if the relay is down or it is one of these four. |
| RelayReports.LateAnnouncement | assets/chrome-extension/background.js:312-359 | In any run, a step announces an already detached session if and only if it is the last step of a re-announcement, with the relay up, and between the start of that re-announcement and now, in the same worker lifetime, some step detached the session's holder and reported it. |
| RelayReports.AnnouncedBefore | assets/chrome-extension/background.js:312-339 | Every re-announcement on its way was started in the same worker lifetime, when its tab held the session it will announce. |
| RelayReports.ReportedAgain | assets/chrome-extension/background.js:133-164 | After a restart some run reports a session detached if and only if the snapshot holds it for a tab that is still alive, or the snapshot's counter is not above it, so that its number is minted again. |
| RelayReports.HeldAfterRestart | assets/chrome-extension/background.js:133-164 | After a restart a session is held if and only if the snapshot has it for a tab that is still alive. |
| RelaySteps.TabsExactly | assets/chrome-extension/background.js:318-947 | What each tab is after any event but a restart: new with a click or an attach, the replaced one's after a replacement, gone after a detach, a removal, a navigation, a failed click or a negative verdict, and otherwise as before. |
| RelaySteps.OrderExactly | assets/chrome-extension/background.js:26-44 | The tabs that stay keep their order in the table, and a new one, or one replaced by itself, comes last. |
| RelaySteps.HandlersExactly | assets/chrome-extension/background.js:625-904 | Which handler waits after each event and outcome: a toggle ends in its `finally`, by way of its catch exactly if it failed; a re-attach sleeps, probes and attaches, five times at most. |
| RelaySteps.WaitingExactly | assets/chrome-extension/background.js:632-904 | A tab begins to wait for re-attach exactly with a navigation, and stops exactly with a click, its removal, the end of the relay, a failed probe, a stored attach or the fifth failed one. |
| RelaySteps.RunLooped | assets/chrome-extension/background.js:852-904 | In every run a tab waits for re-attach only while a handler of its loop is underway, and no loop is beyond its fifth attempt. |
| RelaySteps.SavedExactly | assets/chrome-extension/background.js:114-131 | A snapshot is stored exactly at the end of a detach, an attach that goes through or a re-announcement, and with the removal or replacement of a tab of the table, and it is the table as the event leaves it. |
| RelaySteps.RestartExactly | assets/chrome-extension/background.js:133-164 | A restarted worker has no child sessions, locks, waiting tabs, handlers or connection, and holds exactly the sessions its snapshot revives. |
| RelayFrames.FramesExactly | assets/chrome-extension/background.js:312-947 | Each event tells the relay, when it is up, exactly these frames, each once: a debugger event of an attached tab under its source or else the tab's own session, an attach that is announced, a re-announcement, the child sessions of a tab that is detached, the session of a tab that is detached, removed or navigated. |
| RelayFrames.DetachOrder | assets/chrome-extension/background.js:575-605 | A detach reports the child sessions in the order of their table and the tab's own session last. |
| RelayFrames.DebuggerEventExactly | assets/chrome-extension/background.js:772-798 | With the tab attached and the relay up exactly one frame is appended, under the child session the event names or else the session the tab holds; nothing but frames and child sessions changes, and for a tab that is not attached nothing at all. |
| RelayFrames.ChildrenExactly | assets/chrome-extension/background.js:571-944 | The tab of each child session after any event: that of its attach, none after its detach or its tab's departure, the new tab after a replacement, otherwise as before. |
| RelayFrames.ChildReached | assets/chrome-extension/background.js:513-519 | In every run a command for a child session reaches the tab that has the place of the one it was attached to, from the attach until the child's detach, that tab's departure or a restart; otherwise it is routed as if it named no session. |
| RelayFrames.RouteExactly | assets/chrome-extension/background.js:691-707 | A command goes where its session leads, else to the first attached tab with its target in the order of the table, else to the first attached tab. |
| RelayFlows.ClickAttaches | assets/chrome-extension/background.js:625-689 | A click on a tab that is not attached, with nothing failing, attaches, announces and stores it under the next session, changes no other tab, and leaves nothing locked or underway. |
| RelayFlows.ClickDetaches | assets/chrome-extension/background.js:643-653 | A click on an attached tab takes it and its session out of the tables, stores the rest, and leaves nothing locked or underway. |
| RelayFlows.GivesUpAfterFive | assets/chrome-extension/background.js:863-904 | When all attempts to attach again fail, exactly the fifth ends the waiting; no handler is left and nothing else has changed. |
| RelayFlows.RetrySucceeds | assets/chrome-extension/background.js:863-893 | An attempt that succeeds attaches the tab under the next session and stores it, announced exactly if the relay was up, and ends the waiting. |
| RelayFindings.AnnouncedAfterDetach | assets/chrome-extension/background.js:318-359 | Whenever an attached tab is re-announced with the relay up, a detach while its target is being described makes the last step announce the detached session. |
| RelayFindings.MisroutedAfterReplace | assets/chrome-extension/background.js:318-328 | A tab replaced while its validation is awaited keeps its session, but commands for that session are routed to the first attached tab. |
| RelayFindings.StaleAfterFailedClick | assets/chrome-extension/background.js:659-666 | A click whose relay connection opens and is lost again before the announcement leaves its session in the index, and commands for it are routed to a tab that is not attached. |
| RelayFindings.DetachedAgainAfterRestart | assets/chrome-extension/background.js:571-623 | A worker killed while it awaits the detach of the debugger, and restarted from the latest snapshot, reports the same session detached again at the next click. |
| RelayFindings.TwoTabsReachable | assets/chrome-extension/background.js:528-569 | The states these findings start from are reachable. |
| RelayWorker.Worker.constructor | assets/chrome-extension/background.js:1013-1033 | A starting worker has the empty tables, or exactly what rehydration from the chosen snapshot yields. |
| RelayWorker.Worker.RehydrateState | assets/chrome-extension/background.js:133-164 | The two loops take the index to the machine's rehydration and touch nothing else. |
| RelayWorker.Worker.PersistState | assets/chrome-extension/background.js:114-131 | Stores exactly the attached tabs with a target, in table order, with the counter. |
| RelayWorker.Worker.CommitAndAnnounce | assets/chrome-extension/background.js:540-566 | Commits the next session before announcing it; when the announcement throws, the commit stays and nothing is stored. |
| RelayWorker.Worker.FinishAttachTab | assets/chrome-extension/background.js:532-569 | The rest of an attach takes the machine's step, for each of its three callers and each outcome. |
| RelayWorker.Worker.DetachChildren | assets/chrome-extension/background.js:575-590 | Deletes exactly the tab's child sessions while iterating, and reports each once, oldest first. |
| RelayWorker.Worker.Detach | assets/chrome-extension/background.js:571-623 | Detaching takes the machine's step: reports, then tables, then the await. |
| RelayWorker.Worker.OnClicked | assets/chrome-extension/background.js:625-655 | The toggle up to its first await, with lock, pending re-attach, detach and connect branches. |
| RelayWorker.Worker.OnDebuggerEvent | assets/chrome-extension/background.js:772-798 | Tracks child sessions and forwards the event under its source or main session, of attached tabs only. |
| RelayWorker.Worker.OnDebuggerDetach | assets/chrome-extension/background.js:800-826 | Detaches at once when the user ended the session, else probes the tab. |
| RelayWorker.Worker.OnNavigation | assets/chrome-extension/background.js:828-864 | A navigated tab is cleaned up, reported and scheduled for re-attach unless it already is. |
| RelayWorker.Worker.OnRemoved | assets/chrome-extension/background.js:907-930 | A closed tab leaves the tables with its child sessions, is reported once, and the rest is stored. |
| RelayWorker.Worker.OnReplaced | assets/chrome-extension/background.js:932-947 | The session and the child sessions move to the new tab, and the result is stored. |
| RelayWorker.Worker.Resumed | assets/chrome-extension/background.js:312-904 | Every suspended handler resumes with the machine's step. |
| RelayWorker.Worker.Handle | assets/chrome-extension/background.js:907-956 | The event loop: every event within a worker lifetime takes the machine's step, so all results about runs hold of the worker. |
| RelayWorker.Worker.GetTabByTargetId | assets/chrome-extension/background.js:521-526 | Returns the first attached tab with the target, if any. |
| RelayWorker.Worker.RouteCommand | assets/chrome-extension/background.js:691-707 | The routing of a command is the machine's: by session, else by target, else the first attached tab. |
| PairNotifyFile.RecordRead | extensions/device-pair/notify.ts:81-118 | A record is read if and only if it names a visible address: trimmed, with its visible account, its visible thread name or the whole part of its thread number, one-shot exactly for mode once, armed at the whole part of its time or now. |
| PairNotifyFile.SubscribersRead | extensions/device-pair/notify.ts:89-121 | The subscribers read are those of the addressed records, each once and in order. |
| PairNotifyFile.StampsRead | extensions/device-pair/notify.ts:123-132 | The stamps read are the whole parts of the positive finite numbers under visible ids. |
| PairNotifyFile.TargetResolved | extensions/device-pair/notify.ts:166-182 | A chat is addressed by the first visible of sender, from and to, trimmed, with its account unless that is empty and its thread as it is; there is none if and only if none is visible. |
| PairNotifyFile.KeysTell | extensions/device-pair/notify.ts:152-158 | Where no address or account has a bar, two chats have one key if and only if they agree in address and account and their threads show alike, a number as its decimal notation. |
| PairNotifyFile.BarShares | extensions/device-pair/notify.ts:152-158 | Two chats that differ and share a key, by a bar in an address. |
| PairNotifyFile.WritesExactly | extensions/device-pair/notify.ts:281-425 | An operation writes if and only if it has something to store: subscribing when the key is not armed in that mode, unsubscribing when it is there, a poll when it forgets a stamp or has told somebody. |
| PairNotifyPolls.PollMails | extensions/device-pair/notify.ts:237-327 | A poll sends exactly the messages due, each once, request by request and in the order of the subscribers: about each request neither remembered from the last 24 hours nor told of before in the poll, to each subscriber whose message gets through and who is persistent, or one-shot with a finite request time of at least 1 that is not before the arming. |
| PairNotifyPolls.OneShotWaits | extensions/device-pair/notify.ts:237-337 | Under any run of polls of earlier or undated requests and commands for other chats, with any failures that wipe nothing, a one-shot subscriber is never told and stays in the file. |
| PairNotifyProofs.RoundTrip | extensions/device-pair/notify.ts:81-150 | Reading back a written state gives it unchanged if and only if its targets are trimmed, its ids visible and its stamps positive. |
| PairNotifyProofs.UpsertSubscribes | extensions/device-pair/notify.ts:184-206 | Subscribing keeps keys unique, gives the key the asked mode, touches no other subscriber and adds at most the new one. |
| PairNotifyProofs.UnsubscribeRemoves | extensions/device-pair/notify.ts:416-425 | Unsubscribing removes exactly the subscriber with the key. |
| PairNotifyProofs.PollDelivers | extensions/device-pair/notify.ts:292-327 | A poll tells someone about a request if and only if it is not remembered from the last 24 hours and some eligible subscriber's message gets through. |
| PairNotifyProofs.PollSettles | extensions/device-pair/notify.ts:292-337 | After a poll the remembered ids are pending, told ones carry its time, the subscribers gone are exactly the one-shot ones delivered to, only eligible subscribers were told, and keys stay unique. |
| PairNotifyRuns.RunStores | extensions/device-pair/notify.ts:137-376 | From a missing file on, after any run of polls and commands with trimmed targets, whatever reads and writes fail, every read gives the state of the same run kept in memory, canonical and with unique keys. |
| PairNotifyRuns.DeliveredAgainExactly | extensions/device-pair/notify.ts:281-342 | From any file on, within 24 hours of a delivery about a visible id, a poll delivers again if and only if the memory of the first was not stored or wiped meanwhile, by a torn write or a write after a failed read, and some eligible subscriber's message gets through. |
| PairNotifyRuns.DeliveriesSpaced | extensions/device-pair/notify.ts:137-342 | From any file on, under any commands and polls: two deliveries about a visible id that is pending throughout, at positive times that do not run backwards, are more than 24 hours apart if the first was stored and in between no write tears the file and no subscription is stored after a failed read. |
| PairNotifyRuns.SpacedExactly | extensions/device-pair/notify.ts:124-132 | All such deliveries about an id, those above with the visibility left out, are more than 24 hours apart if and only if the id is not blank. |
| PairNotifyRuns.FailedWriteTwice | extensions/device-pair/notify.ts:339-341 | Subscribe, poll, poll again at the same time: when the first poll's write fails, both deliver, for every id. |
| PairNotifyRuns.TornWriteTwice | extensions/device-pair/notify.ts:146-150 | Subscribe, poll, subscribe, poll at one time: when the first poll tears the file, both polls deliver, for every id. |
| PairNotifyRuns.FailedReadTwice | extensions/device-pair/notify.ts:137-144 | The same run delivers twice when the second subscription cannot read the file but writes it. |
| PairNotifyRuns.BlankToldAgain | extensions/device-pair/notify.ts:124-132 | Whatever was delivered before, a poll tells of a request with a blank id if and only if some eligible subscriber's message gets through. |
| PairNotifyRuns.BlankTwice | extensions/device-pair/notify.ts:299-327 | One subscriber, one request with a blank id and two polls at the same time: both deliver although nothing fails. |
| PairNotifyRuns.ResolvedTargets | extensions/device-pair/notify.ts:166-182 | A resolved address is trimmed and visible; the whole target is canonical if and only if account and thread name are. |
| PairNotifyRuns.OnTwice | extensions/device-pair/notify.ts:405-408 | Enabling a new chat twice leaves the file as it was after the first time if and only if account and thread name are trimmed. |
| PairNotifyRuns.OnKeepsUnique | extensions/device-pair/notify.ts:184-206 | After subscribing any target with a trimmed address the file reads with unique keys if and only if nothing changed or no other subscriber has the key the target is read back with. |
| PairNotifyRuns.UntrimmedTwice | extensions/device-pair/notify.ts:405-408 | A chat whose account name starts with a space: after enabling it twice the file reads as two subscribers with one key. |
| PairNotifier.Notifier.ReadState | extensions/device-pair/notify.ts:81-144 | The two reading loops keep exactly the well-formed subscribers and stamps; a failed read gives none. |
| PairNotifier.Notifier.WriteState | extensions/device-pair/notify.ts:146-150 | A write stores the state, or throws and leaves the file as it was or torn. |
| PairNotifier.Notifier.UpsertSubscriber | extensions/device-pair/notify.ts:184-206 | Inserts, changes the mode or leaves alone, and reports a change exactly when there is one. |
| PairNotifier.Notifier.On | extensions/device-pair/notify.ts:405-408 | The command takes the file through read, upsert, and write if changed, and throws exactly when a write it needs fails. |
| PairNotifier.Notifier.Once | extensions/device-pair/notify.ts:344-376 | The same for arming a one-shot subscription. |
| PairNotifier.Notifier.Off | extensions/device-pair/notify.ts:416-425 | The same for unsubscribing. |
| PairNotifier.Notifier.Poll | extensions/device-pair/notify.ts:281-342 | A poll takes the file and the delivered messages through exactly the step the run results are about, and writes only when something changed; it throws exactly when that write fails, after its messages went out. |
| PairNotifier.Notifier.ForgetOld | extensions/device-pair/notify.ts:292-297 | Drops exactly the stamps that are no longer pending or older than 24 hours, and reports a change exactly when there is one. |
| PairNotifier.Notifier.Deliver | extensions/device-pair/notify.ts:300-327 | The nested loops deliver, stamp and collect the one-shot keys as specified. |
| BedrockDiscovery.SingleFlight | extensions/amazon-bedrock/discovery.ts:179-214 | For any interleaving of callers, at most one request per key with a positive refresh interval is running. |
| BedrockDiscovery.CallFollowsHistory | extensions/amazon-bedrock/discovery.ts:177-228 | A call is served if and only if no request of the key is running and the last settled one succeeded less than the interval after its start, with that value; it joins if and only if one is running. |
| BedrockDiscovery.RunInv | extensions/amazon-bedrock/discovery.ts:179-228 | Over every run the cache lists exactly the running request of a key, or else what its last settled request brought. |
| BedrockDiscovery.JoinedUntilSettled | extensions/amazon-bedrock/discovery.ts:179-214 | From the call that starts it until it settles a request runs, and every call for its key joins it; calls for keys without an interval always start one. |
| BedrockDiscovery.ServedForInterval | extensions/amazon-bedrock/discovery.ts:177-228 | Once it has settled, and until another is started for its key, calls are served its models exactly until the interval after its start is over; else, or when it was lost, they start a new request. |
| BedrockDiscovery.JoinerReceives | extensions/amazon-bedrock/discovery.ts:179-236 | However the run goes on, a caller that joined a request gets what it brings for the caller's own key, and is rejected if and only if the request is lost, where its starter gets no models; the next call for the key then starts a new request. |
| BedrockDiscovery.Discovery.DiscoverBedrockModels | extensions/amazon-bedrock/discovery.ts:177-214 | The code up to the await gives the modelled reply and state. |
| BedrockDiscovery.Discovery.Resume | extensions/amazon-bedrock/discovery.ts:216-236 | The code after the await stores the value or drops the key, and gives the starter its answer. |
| FoundryTokens.SingleFlight | extensions/microsoft-foundry/runtime.ts:82-91 | At most one refresh per cache key is underway, from the start of its command to its cleanup. |
| FoundryTokens.PrepareFollowsHistory | extensions/microsoft-foundry/runtime.ts:74-91 | A cached token is served if and only if the last one issued for the key has more than five minutes left; otherwise the caller joins the one refresh underway, or starts one. |
| FoundryTokens.JoinerReceives | extensions/microsoft-foundry/runtime.ts:82-96 | However the run goes on, a caller that joined a refresh receives, if it brings a token, the last token issued for the caller's key. |
| FoundryTokens.ServedUntilMargin | extensions/microsoft-foundry/runtime.ts:22-80 | After a refresh for the key has succeeded and until another does, a call is served its token if and only if more than 300000 ms are left to the expiry the command named, or to 3300000 ms after its end. |
| FoundryTokens.NotServedBefore | extensions/microsoft-foundry/runtime.ts:74-80 | Before a refresh for the key has succeeded no call is served. |
| FoundryTokens.JoinedUntilCleanup | extensions/microsoft-foundry/runtime.ts:82-96 | From the call that starts it until its cleanup every caller that is not served joins the refresh, and it brings the token of the first end of its command. |
| FoundryTokens.StartsAfterCleanup | extensions/microsoft-foundry/runtime.ts:82-91 | After its cleanup a call that is not served starts a new refresh. |
| FoundryTokens.TokenIssued | extensions/microsoft-foundry/runtime.ts:22-91 | Every cached token was issued by the successful end of a refresh that an earlier call for the same key started. |
| FoundryTokens.RunInv | extensions/microsoft-foundry/runtime.ts:14-91 | The token map holds the last token issued for each key, and the promise map exactly the refreshes not cleaned up. |
| FoundryTokens.RuntimeAuth.PrepareFoundryRuntimeAuth | extensions/microsoft-foundry/runtime.ts:74-91 | The code up to the await gives the modelled reply and state. |
| FoundryTokens.RuntimeAuth.RefreshEntraToken | extensions/microsoft-foundry/runtime.ts:22-34 | A successful command stores its token, with 55 minutes when its expiry cannot be read. |
| ChutesCache.HitsAreCurrent | extensions/chutes/models.ts:478-511 | Over any operation sequence at most 100 entries are held, and a hit is the last list ever stored under the key, younger than the TTL. |
| ChutesCache.StoreExactly | extensions/chutes/models.ts:486-502 | After an insertion the map holds, in order, the entries younger than 300000 ms, short of the oldest of them exactly when there are 100 and the key is new, and the new entry, at the end unless the key was there. |
| ChutesCache.LookupExactly | extensions/chutes/models.ts:504-511 | A lookup finds exactly what is held and younger than 300000 ms. |
| ChutesCache.StoreEvictsOne | extensions/chutes/models.ts:486-502 | An insertion evicts at most one unexpired entry, never the one just inserted, and leaves every other unexpired entry as it was. |
| ChutesCache.FoundForItsTtl | extensions/chutes/models.ts:486-511 | A stored list, or a newer one, is found under its key for the whole TTL through as many further stores as there are free places behind the key: 99 for a key that was not cached, fewer for a refreshed one, which keeps its place. |
| ChutesCache.RefreshedStillEvicted | extensions/chutes/models.ts:493-500 | In a full cache without expired entries, the next new key evicts a key that was just stored again if and only if it is the oldest. |
| ChutesCache.RunInv | extensions/chutes/models.ts:478-502 | The cache refines the unbounded map of everything ever stored. |
| ChutesCache.ModelCache.PruneExpiredCacheEntries | extensions/chutes/models.ts:478-484 | Deleting while iterating leaves exactly the unexpired entries, in order. |
| ChutesCache.ModelCache.CacheAndReturn | extensions/chutes/models.ts:486-502 | Prune, make room and set take the cache through the modelled insertion. |
| ChutesCache.ModelCache.Cached | extensions/chutes/models.ts:504-511 | The lookup prunes first and returns what is then stored. |
| Chunking.ChunksConserve | extensions/matrix/runtime-api.ts:38-52 | Each chunk has at most limit units and is a piece of the text; the pieces follow each other and leave out whitespace only. |
| Chunking.WordsStayWhole | extensions/matrix/runtime-api.ts:41-47 | When every run without space or newline fits into a chunk, no word is cut if and only if the text does not force a cut behind a leading space or newline. |
| Chunking.NoEmptyChunk | extensions/matrix/runtime-api.ts:45-50 | No chunk is empty if and only if the text is not empty and, if broken, its first piece is not blank. |
| Chunking.LeadingSpaceEmpties | extensions/matrix/runtime-api.ts:43-46 | A text of two units with an empty chunk. |
| Chunking.EndsExactly | extensions/matrix/runtime-api.ts:41-47 | For every real limit, some number of rounds leaves no more than the limit if and only if the limit is at least 1, or at least 0 and the text is blank. |
| Chunking.ZeroNeverEnds | extensions/matrix/runtime-api.ts:41-47 | With limit 0 the loop does not end on a text of one letter. |
| Chunking.LeadingSpaceCuts | extensions/matrix/runtime-api.ts:43-45 | A text whose only word has three units, fits into a chunk of three, and is cut. |
| Chunking.OutboundConserves | extensions/matrix/runtime-api.ts:38-52 | For every real limit of at least 1 each chunk returned has at most that many units, and the chunks are pieces of the text in order that leave out whitespace only. |
| Chunking.OutboundRounds | extensions/matrix/runtime-api.ts:41-47 | A text within the limit comes back whole; of a longer one the first chunk ends at the last newline or space between its first unit and the limit, or at the limit if there is none, and the rest is chunked on its own. |
| Chunking.OutboundWords | extensions/matrix/runtime-api.ts:41-47 | In what is returned for a limit into which every run without space or newline fits, words are whole if and only if no leading break forces a cut. |
| Chunking.OutboundFilled | extensions/matrix/runtime-api.ts:41-51 | No chunk returned is empty if and only if the text is not and its first piece, if it is broken, is not blank. |
| Chunking.ChunkTextForOutbound | extensions/matrix/runtime-api.ts:38-52 | For exactly the limits and texts for which the loop ends, it returns the chunks the results are about, of the whole part of the limit, and below 1 a single empty chunk. |
| Utf16.BoundsMean | src/utils.ts:238-248 | The order of the bounds does not matter, a missing end is the length, what exceeds the length counts as the length, and a negative bound counts from the end, at least from 0. |
| Utf16.SliceExactly | src/utils.ts:249-265 | Between whole bounds in order lies the text between them, short of the half of a pair that a bound would cut. |
| Utf16.FractionsDropped | src/utils.ts:238-265 | A fractional bound counts as the whole one below it. |
| Utf16.PairDecodes | src/utils.ts:230-236 | Two units decode to one code point beyond the first plane if and only if they are its surrogate pair. |
| Utf16.SafeSliceWhole | src/utils.ts:238-265 | For all bounds the decoded code points of the slice are a contiguous run of the input's, and a well-formed input gives a well-formed slice. |
| Utf16.SafeBoundsClosest | src/utils.ts:249-262 | The bounds used cut no surrogate pair, and no such bounds lie closer to the ones asked for. |
| Utf16.DecodeSplits | src/utils.ts:230-236 | Cutting outside the pairs splits the code points and the well-formedness of a string exactly. |
| Utf16.TruncateLongest | src/utils.ts:267-273 | The truncated form is the longest prefix within the limit that opens no pair, and misses the limit by at most one. |
| Utf16.SliceUtf16Safe | src/utils.ts:238-265 | For every real start and end the slice the results above are about. |
| Utf16.TruncateUtf16Safe | src/utils.ts:267-273 | The truncation the result above is about. |
| ImportGraph.CollectRelativeImportGraph | scripts/load-channel-config-surface.ts:117-144 | Terminates on every finite graph, cyclic or not, and returns exactly the files reachable from the entry; it throws if and only if one of them cannot be read. |
| ImportGraph.EdgeExactly | scripts/load-channel-config-surface.ts:130-140 | A file imports another if and only if one of its specifiers starts with a dot and resolves to it. |
| ImportGraph.ClosedHolds | scripts/load-channel-config-surface.ts:117-144 | A set that holds the start of an import chain and is closed under imports holds its end. |
| FileWalk.CollectFilesSync | scripts/check-file-utils.ts:13-51 | The stack walk returns exactly the sequence of the recursive walk: own files in order, then unskipped subdirectories last to first. |
| FileWalk.WalkFinds | scripts/check-file-utils.ts:30-47 | The walk finds exactly the included files of the tree that lie under no skipped or unreadable directory. |
| FileWalk.WalkOnce | scripts/check-file-utils.ts:13-51 | Where the names within each directory differ, the walk finds each file once. |
| FileWalk.PushesWalk | scripts/check-file-utils.ts:35-42 | Pushing the subdirectories schedules them last first, before everything below on the stack. |
| LabelBatches.FetchOpenLabelItemBatches | scripts/label-open-issues.ts:425-485 | The concatenated batches are the first limit items of all pages; batches are numbered from 1, all but the last have 500 items, none is empty, and each carries the running total and the total count known with the page that filled it, a last partial one that of the last page requested. |
| LabelBatches.BatchedNodes | scripts/label-open-issues.ts:416-475 | The items batched are the nodes of the pages in order, as many as the limit allows, each with number, title, body or the empty one, and labels or none. |
| LabelBatches.TotalExactly | scripts/label-open-issues.ts:443 | The total known after some answers is that of the last of them that has one, and 0 if none has. |
| LabelBatches.PageTaken | scripts/label-open-issues.ts:450-475 | After each page the items taken are a prefix of all items, and all items of the pages so far unless the limit is reached. |
| Sparkle.ExecMatches | scripts/sparkle-build.ts:12-20 | The matcher yields groups if and only if the version pattern accepts with those groups, which are unique. |
| Sparkle.ReadExactly | scripts/sparkle-build.ts:17-35 | A version has a date if and only if the pattern accepts it with a month and a day in range. |
| Sparkle.FloorsArithmetic | scripts/sparkle-build.ts:37-52 | Joining the padded digit strings is positional arithmetic on year, month, day and lane. |
| Sparkle.FloorsInNumbers | scripts/sparkle-build.ts:24-52 | The floors of a version in numbers, with lane 90 without a suffix, 1 for one that does not end in digits, and the number of those digits up to 89. |
| Sparkle.FloorOrder | scripts/sparkle-build.ts:37-52 | Lane floors order versions by date first and by lane within a date, and are equal only for the same date and lane. |
| Sparkle.ReleaseBeatsPrerelease | scripts/sparkle-build.ts:40-51 | On one date an unsuffixed version has a larger lane floor than every suffixed one. |
| Sparkle.PrereleaseOrder | scripts/sparkle-build.ts:41-49 | Of two numbered suffixes of one date the larger never gets the smaller floor, and a larger one if and only if the smaller number is below 89. |
| Sparkle.SharedLane | scripts/sparkle-build.ts:41-49 | 2026.3.1-89 and 2026.3.1-90 have the same lane floor. |
| Sparkle.LanesSeparate | scripts/sparkle-build.ts:37-52 | Legacy floors lie below 1000000000, and lane floors reach it if and only if the year is at least 1000. |
| Sparkle.EarlyYear | scripts/sparkle-build.ts:37-52 | The lane floor of 0999.1.1 lies below 1000000000. |
| Appcast.CollectAppcastSparkleVersionErrors | scripts/release-check.ts:158-215 | Reports exactly the malformed versions, in order, then exactly the builds below their floors. |
| Appcast.ErrorsListed | scripts/release-check.ts:158-215 | The report in full: one error for no items, one for each missing or non-numeric build in order, then one for each build below its floor in order, naming build, kind and floor. |
| Appcast.FloorErrorsExactly | scripts/release-check.ts:193-212 | No floor error is reported if and only if every checked item meets its lane floor when it is lane-numbered or dated on or after a lane-numbered item or the adoption day, and its legacy floor otherwise. |
| Appcast.NoFallback | scripts/release-check.ts:193-212 | Without a floor error, whatever is dated on or after a lane-numbered item meets its own lane floor, and from the year 1000 on is lane-numbered itself. |
| Appcast.AdoptionMeansEra | scripts/release-check.ts:193-200 | The date comparison with the sorted minimum says exactly that some lane-numbered item or the adoption day is not later. |
| CronUsage.ReportExactly | scripts/cron_usage_report.ts:175-214 | The report has totals if and only if for every accepted run its job has no inherited name, and neither its job nor its model has its first run under the name of a counter that an earlier run of the model `__proto__` wrote for all objects; they are then the totals the other results are about. |
| CronUsage.Conserved | scripts/cron_usage_report.ts:148-215 | Whenever there are totals, the jobs' counters sum to those of all accepted entries and their runs to the number of accepted entries; a job's counters are the sums over its models if and only if none of its runs has an inherited model name. |
| CronUsage.InheritedModelLost | scripts/cron_usage_report.ts:187-195 | A run of the model `toString` is counted for its job and for no model. |
| CronUsage.InheritedJobThrows | scripts/cron_usage_report.ts:175-187 | A job called `toString` makes the report throw. |
| CronUsage.CounterJobThrows | scripts/cron_usage_report.ts:175-195 | After a run of the model `__proto__`, a first job called `runs` makes the report throw. |
| CronUsage.SumsAreNumbers | scripts/cron_usage_report.ts:171-214 | The token sums are numbers if and only if no accepted usage record lacks a count after the token counters were written for all objects. |
| CronUsage.TaintedExactly | scripts/cron_usage_report.ts:187-214 | The token counters have been written for all objects if and only if an accepted run of the model `__proto__` had usage. |
| CronUsage.ProtoSpoils | scripts/cron_usage_report.ts:187-214 | A run of the model `__proto__` and one more, each naming only its total: input and output sums are no numbers, the total is. |
| CronUsage.MissingExactly | scripts/cron_usage_report.ts:171-202 | The missing-usage runs are the accepted entries without any count, short of exactly those with a null output and those whose usage record inherits a token counter. |
| CronUsage.UsageWithoutCount | scripts/cron_usage_report.ts:171-173 | An entry without any count has usage if and only if it has a usage record whose output is null or which inherits a token counter. |
| CronUsage.NullOutputCounts | scripts/cron_usage_report.ts:171-202 | The same entry with a null and with an absent output: the first counts as having usage, the second as missing it. |
| CronEntries.RunsListed | scripts/cron_usage_report.ts:159-170 | The runs counted are the entries inside the window that pass both filters, each once and in order. |
| CronEntries.ContributionMeans | scripts/cron_usage_report.ts:171-206 | What an entry with usage adds: the whole parts of its input and output, at least 0, and of its total, which is the sum of the two where it names none. |
| CronEntries.ModelNamed | scripts/cron_usage_report.ts:165 | An entry is counted under its model without the whitespace around it, or under `<unknown>` when it names none or a blank one. |
| CronEntries.WrittenExactly | scripts/cron_usage_report.ts:187-202 | Which counters are inherited: the runs after any run of the model `__proto__`, the missing ones after one without usage, the tokens after one with usage. |
| CronEntries.NamesExactly | scripts/cron_usage_report.ts:187-214 | The names of those counters, letter by letter. |
| CronUsage.JobsExact | scripts/cron_usage_report.ts:175-184 | Each job's record is the sum over exactly its runs, and exists if and only if it has one. |
| CronUsage.RecordsExact | scripts/cron_usage_report.ts:187-214 | Each model's record in a job is the sum over exactly its runs there, and exists if and only if it has one and its name is not inherited. |
| CronUsage.Aggregate | scripts/cron_usage_report.ts:148-215 | The loop filters by window, job and model, looks names up in plain objects, and ends with the outcome the results are about. |
| CronUsage.AddEntry | scripts/cron_usage_report.ts:175-214 | One entry adds its run, usage or missing usage to its job and to its model, and touches no other record. |

## Left out

- Relay WebSocket, handshake, reconnect timers, badges, titles and the options page: input and output; sends fail exactly while the relay is not open, and debugger calls may fail at any time.
- Order in which a re-announcement visits tabs: any attached tab may be visited at any time, which includes the source's order. The running of several re-announcements at once is included too.
- Replies to forwarded commands, `Target.closeTarget` and `Target.activateTarget`: they do not change the tables; `Target.createTarget` is an attach.
- `requestFromRelay` and its table: never called.
- Tab ids are positive and main sessions are kept apart from child sessions by construction; the source relies on Chrome for both.
- When the source re-announces its tabs: the model allows it at any time, the source after a start or a reconnect.
- Pairing notifier: message texts, the status reply, and overlapping polls or commands; each is one read, change and write. Which sends, reads and writes succeed is an input; a torn file is one that cannot be parsed.
- Notifier thread numbers that are not whole.
- PairNotifyProofs.PollDelivers: the source keeps the notified ids in a plain object, so a request whose id is an inherited name such as `toString` or `__proto__` counts as known there and is never told; here no id is special.
- Chunking.ChunkTextForOutbound: a limit that is not a number is not modelled; for the limits and texts its `requires` leaves out the source's loop does not end, as `Chunking.EndsExactly` proves.
- Utf16.SliceUtf16Safe: bounds are real numbers; infinite ones, those that are not numbers, and the rounding of a fractional negative bound added to the length are not modelled.
- Utf16.TruncateUtf16Safe: a limit that is infinite or not a number is not modelled.
- Bedrock filters and model records, the final sort and the cache key's encoding: the key is the record of its parameters. `normalizeProviderFilter`, `shouldIncludeSummary` and `toModelDefinition` would add only easy members.
- Foundry endpoint selection and the Azure command line: the command's outcome is an input. The margin and cache key are those of the shared runtime module.
- Chutes requests and the fallback to an unauthenticated key: only the cache and its lookup are modelled.
- ImportGraph: import specifiers and their resolution are given as finite maps; `resolveImportCandidates` and the isolated copy are not modelled.
- FileWalk: the tree is a finite value, so links that would make the walk endless are entries of no kind.
- LabelBatches: page cursors are modelled by the answers they lead to.
- LabelBatches: the labelling itself, which calls a model and the GitHub command line.
- Appcast XML extraction: items arrive with their extracted tags; the wording of errors is not modelled.
- CronUsage: parsing of log lines, arguments and dates, and the sorted output. The inherited names are a parameter. Usage records are objects, and a token field is a number, null or absent.
- Phone number and JID helpers of src/utils.ts: straight-line string edits that would add only easy members.
- Reset functions kept for tests.
