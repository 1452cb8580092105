# Override: a model of the focus-session and hiding logic

Override is a browser extension with three scripts that share one key/value store
(`chrome.storage.local`):

- the **popup** runs timed focus sessions. Starting a session writes a lock (`isLocked`,
  `lockEndTime`) that keeps blocking on until the session ends. A countdown shows the time
  left as `MM:SS`. A session completed while the popup is open adds to `sessionsComplete`
  and `totalTime` and lights the session dots.
- the **page script** hides Instagram Reels and YouTube Shorts elements. A throttled pass
  hides every matched element that is still shown and counts it. Mutation and navigation
  observers schedule the passes, and the protocol is turned on and off from the popup.
- the **background worker** seeds the store on installation and answers `getStatus`. On
  `startTimer` it arms the single `focusTimer` alarm. When that alarm fires it ends the lock,
  and on browser startup it clears a lock that has run out.

The model is written in Dafny, file by file:

- `store.dfy`: the store as a class over a map from keys to values (booleans, integers,
  null). It also holds the JavaScript coercions the scripts apply (truthiness, `|| 0`, `??`).
- `alarms.dfy`: the alarm table as a class over a map from names to fire times.
- `messages.dfy`: the runtime messages. A handler returns the messages it sends. Delivery
  is deliver-or-drop.
- `countdown.dfy`: the countdown text, with a parser that reads it back.
- `dots.dfy`: the session dots.
- `popup.dfy`: each popup handler is a method of `PopupPanel.Panel`. Its contract ties the
  new state to a pure transition of module `Popup` on a snapshot of the panel, the store and
  the alarm table. The session rules are proved as lemmas about those transitions.
- `hiding.dfy` and `content.dfy`: the page script is the class `Content.ContentScript` over
  an array of element states. The selector queries are given as lists of element indices.
  The in-place hiding loops are proved against the pure `Hiding.Sweep` and `Content.Scan`.
- `background.dfy`: the background handlers as methods over the store and the alarm table,
  each tied to a pure function. Module `LockAgreement` proves that the popup and the
  background agree on when a lock has run out.

Time is an explicit `now` parameter everywhere. The popup's `confirm()` dialog is a boolean
parameter. Whether an active tab exists to be told is a boolean parameter too.

Only the popup counts a session; the background's alarm ends the lock and nothing more.
How often a session is counted therefore depends on the order of events:

- the popup is open and its own countdown reaches zero first: the countdown completes the
  session, and the `timerComplete` message that follows completes it again, so it is counted
  twice (`Popup.CompleteTwiceCountsTwice`);
- the popup is open and `timerComplete` arrives first: that completion clears the countdown,
  so the session is counted once (`Popup.MessageFirstCountsOnce`);
- the popup is closed when the alarm fires: the message is dropped and the popup opened later
  finds no lock, so the session is never counted (`LockAgreement.AlarmWhileClosedUncounted`).

The model keeps all three behaviours.

## Model

| member | source | states |
|---|---|---|
| Store.OrZero | popup.js:313-314 | `(v \|\| 0)`: a falsy read (missing, null, false, 0) counts as 0, a stored number as itself and a stored `true` as 1 |
| Store.Coalesce | background.js:29 | `v ?? fallback`: the fallback for undefined and null only, so a stored `false` is kept |
| Store.ClearLock | background.js:57-60 | the lock-ending write sets isLocked false and lockEndTime null and leaves every other key as it was |
| Store.LocalStore.Set | background.js:12-18 | `set(items)` merges: the written keys take the new values and every other key keeps its value |
| Alarms.AlarmTable.Clear | background.js:38 | clearing an alarm removes exactly that name from the table |
| Alarms.AlarmTable.Create | background.js:41-43 | creating an alarm sets that name's fire time and replaces an alarm of the same name |
| Countdown.Decimal | popup.js:293 | `String(n)`: decimal digits only, no leading zero for n > 0, one digit exactly when n < 10, at most two exactly when n < 100 |
| Countdown.Pad2 | popup.js:293 | `padStart(2, '0')`: length at least 2, zeros in front, the original text at the end |
| Countdown.ParseDecimalOfDecimal | popup.js:293 | reading a rendered number back gives the number |
| Countdown.ParseDecimalOfPadded | popup.js:293 | reading a zero-padded number back gives the number |
| Countdown.ParseJoined | popup.js:293 | two digit runs joined by a colon read back as their two values |
| Countdown.ClockReadsBack | popup.js:293 | the `MM:SS` text of a minutes and a seconds field reads back as exactly those two fields |
| Countdown.CountdownTextReadsBack | popup.js:289-293 | for r > 0 ms left the text reads back as minutes m and seconds s with s < 60, m * 60 + s the whole seconds left and m those seconds div 60 |
| Countdown.CountdownTextShape | popup.js:289-293 | under 100 minutes left the text is five characters with the colon in the middle |
| Countdown.CountdownOneSecond | popup.js:289-293 | 1000 ms left shows `00:01` |
| SessionDots.DotStates | popup.js:341-351 | dot i is completed exactly when i < activeIndex and active exactly when i == activeIndex, otherwise plain |
| SessionDots.DotCounts | popup.js:341-351 | for activeIndex >= 0, min(activeIndex, count) dots are completed, and one dot is active exactly when activeIndex names a dot |
| SessionDots.FourDots | popup.js:325 | on the four dots after n sessions, one dot is active and n % 4 are completed |
| Popup.JsRemainder | popup.js:61 | JavaScript `%`: the Euclidean remainder for a >= 0; for a < 0 the value in (-b, 0] that a leaves after b times the quotient truncated towards zero |
| Popup.StartWritesLock | popup.js:171-182 | start at time T with d > 0 minutes stores lockEndTime T + d * 60000, startTime T, isLocked and isBlocking true, and leaves sessionsComplete and totalTime alone |
| Popup.ArmedWrites | popup.js:176-182 | the start's store write, for any duration: the lock until T + d * 60000, startTime T, blocking on, the counters untouched |
| Popup.StartRunsCountdown | popup.js:171-204 | after start: totalDuration d * 60, running and not paused, controls locked, toggle on, the countdown towards T + d minutes showing the full duration, and startTimer(T + d minutes) sent to the background |
| Popup.StartShape | popup.js:200-204 | with d > 0 the first countdown update of a new session only shows the time, so the session does not complete at once |
| Popup.CountdownStartShows | popup.js:277-301 | starting a countdown towards an end still ahead shows the time left and installs the interval for that end |
| Popup.FiveMinuteSessionLastSecond | popup.js:281-293 | a 5-minute session started at T shows `00:01` on the tick at T + 299000 |
| Popup.TickAtEndCompletes | popup.js:281-287 | a tick at or after the countdown's end renders nothing and completes the session instead |
| Popup.UpdateAtEndCompletes | popup.js:281-286 | an update with no time left is exactly a completion; the interval cleared first makes no difference |
| Popup.CompleteCounts | popup.js:309-331 | completion adds one to sessionsComplete (missing counts as 0) and the selected minutes to totalTime, clears the lock and no other key, stops running, unlocks the controls and sets the dots from sessions % 4 |
| Popup.CompleteTwiceCountsTwice | popup.js:309-321 | completion is not idempotent: a second completion adds another session and another d minutes |
| Popup.MessageFirstCountsOnce | popup.js:309-310 | a `timerComplete` that arrives first is a completion and clears the countdown, so no tick follows and the session counts once |
| Popup.NaturalCompletion | popup.js:171-210 | a d > 0 minute session started at T and ticked at or after T + d minutes counts exactly one more session and d more minutes and clears the lock |
| Popup.ArmedThenCompleted | popup.js:309-321 | completing a session counts it on top of the counters from before it started |
| Popup.StopKeepsCounters | popup.js:223-243 | a declined stop changes nothing; a confirmed stop clears the lock, the focusTimer alarm, running, paused and the countdown, and keeps sessionsComplete and totalTime |
| Popup.StartThenStopCountsNothing | popup.js:223-233 | a session stopped early leaves the counters as they were before it started |
| Popup.LockedToggleRejected | popup.js:122-127 | with isLocked stored true the toggle is forced back on, nothing is written and no message is sent |
| Popup.UnlockedToggleWrites | popup.js:129-145 | without a lock the toggle stores the clicked state as isBlocking, shows it and tells the page |
| Popup.SessionCannotBeDisabled | popup.js:122-127 | during a running session, switching the toggle off leaves isBlocking true and the toggle on |
| Popup.PauseIsCosmetic | popup.js:211-221 | pause changes neither the store, the countdown end, the countdown text nor running; resume after pause only clears paused and shows the running buttons |
| Popup.TickIgnoresPause | popup.js:211-216 | a tick of a paused session writes, shows and schedules the same as the tick of an unpaused one |
| Popup.PausedTickAtEnd | popup.js:211-216 | the tick that ends a paused session completes it as it would an unpaused one, the paused flag aside |
| Popup.CompleteIgnoresPause | popup.js:309-339 | completion does the same whether or not the session was paused, and it leaves the paused flag as it was |
| Popup.DurationIgnoredWhileRunning | popup.js:106-119 | a duration click during a running session changes nothing |
| Popup.OpenDefaultsBlocking | popup.js:45-52 | on opening, an isBlocking that was never written is stored as true and the toggle shows on |
| Popup.ReconcileKeepsToggle | popup.js:67-80 | the lock check on opening changes neither isBlocking nor the toggle |
| Popup.ReconcileStore | popup.js:67-80 | the lock check writes only when the lock has run out, and then only the lock |
| Popup.OpenStore | popup.js:45-80 | opening writes a missing isBlocking as true and clears a lock that has run out, and writes nothing else |
| Popup.OpenResumesLock | popup.js:68-75 | on opening, a lock ending after now resumes: running, controls locked, the countdown towards lockEndTime showing the time left |
| Popup.OpenClearsExpiredLock | popup.js:68-79 | on opening, a lock with lockEndTime <= now is cleared to isLocked false and lockEndTime null, and no countdown starts |
| Popup.CompletionDots | popup.js:323-325 | on the four dots after a completion that brings the count to n, one dot is active and n % 4 are completed |
| PopupPanel.Panel.UpdateSessionDots | popup.js:341-351 | the loop over the dots leaves every dot in the state its index gives |
| PopupPanel.Panel.CompleteSession | popup.js:309-339 | the handler's new state is the completion transition of the old one |
| PopupPanel.Panel.ShowCompleted | popup.js:327-331 | after completion: no interval, not running, controls unlocked, the stopped buttons and DONE; the other variables unchanged |
| PopupPanel.Panel.UpdateCountdown | popup.js:280-298 | one countdown update: the text for the time left, or completion when none is left |
| PopupPanel.Panel.StartCountdown | popup.js:277-302 | clear the interval, update once, install the interval |
| PopupPanel.Panel.Tick | popup.js:301 | a tick of the interval is one countdown update towards its end |
| PopupPanel.Panel.StartSession | popup.js:171-210 | the new state and the messages sent are those of the start transition |
| PopupPanel.Panel.Arm | popup.js:171-203 | the start's writes before the countdown |
| PopupPanel.Panel.PauseSession | popup.js:211-215 | the pause transition |
| PopupPanel.Panel.ResumeSession | popup.js:217-220 | the resume transition |
| PopupPanel.Panel.Play | popup.js:152-161 | start when not running, resume when paused, otherwise nothing |
| PopupPanel.Panel.StopSession | popup.js:223-243 | the stop transition, with the dialog's answer |
| PopupPanel.Panel.StopConfirmed | popup.js:226-243 | a confirmed stop is the stop transition |
| PopupPanel.Panel.ShowStopped | popup.js:226-239 | after a stop: no interval, not running, not paused, controls unlocked, the stopped buttons and `--:--`; the other variables unchanged |
| PopupPanel.Panel.SelectDuration | popup.js:106-119 | the duration-click transition |
| PopupPanel.Panel.Toggle | popup.js:121-150 | the toggle transition and the message it sends |
| PopupPanel.Panel.Initialize | popup.js:32-93 | the opening transition, computed from the record read once at the start |
| PopupPanel.Panel.ShowStoredState | popup.js:45-62 | the first steps of opening: the toggle and status from the stored isBlocking, a missing one stored as true, the dots from sessionsComplete |
| PopupPanel.Panel.CheckLock | popup.js:67-80 | resume a lock still running, clear one that has run out |
| PopupPanel.Panel.ResumeLock | popup.js:70-75 | a lock still running is resumed: running, its countdown started, the controls locked |
| PopupPanel.Panel.OnMessage | popup.js:353-363 | updateStats with a value stores vectorsBlocked; timerComplete completes the session; anything else changes nothing |
| PopupPanel.Panel.ClearDoneDisplay | popup.js:334-338 | three seconds after completion the countdown shows `--:--` again |
| Hiding.IncludesIff | content.js:121 | the hostname test `includes` holds exactly when the part occurs at some position |
| Hiding.PassTargets | content.js:118-182 | a pass only hides or removes elements, never shows one |
| Hiding.Sweep | content.js:124-181 | the sweep keeps the page size and counts at most one per target |
| Hiding.SweepLeavesOthers | content.js:124-181 | an element no query of the pass returned is left exactly as it was |
| Hiding.SweepHidesNamed | content.js:124-181 | every matched element ends the pass not shown; one already hidden or removed is not modified; one that was shown carries the mark of the first query that matched it |
| Hiding.SweepCountsNewlyHidden | content.js:116-181 | the pass counts exactly the distinct matched elements that were shown, each once however often it is matched |
| Hiding.NewlyHiddenStep | content.js:124-129 | one more matched element joins the newly hidden set exactly when it is shown |
| Hiding.SweepAppend | content.js:121-182 | running one list of queries and then another is running them joined, and the counts add up |
| Hiding.SweepNothingShown | content.js:124-181 | when every matched element is already hidden or removed, the pass changes and counts nothing |
| Hiding.SweepAgain | content.js:124-181 | a second sweep over the same matches changes and counts nothing |
| Hiding.TaggedIndices | content.js:121-145 | the targets made from one query's results name exactly the elements that query returned |
| Hiding.PassTargetsBySite | content.js:121-145 | a pass touches an element exactly when an Instagram query returned it on a host containing instagram.com, or a YouTube query returned it on a host containing youtube.com |
| Content.Scan | content.js:104-201 | a pass keeps isBlocking and the page size, never lowers the total, and sends one updateStats carrying the new total exactly when the total has grown, otherwise nothing |
| Content.ScanSkipped | content.js:105-112 | with isBlocking off, or less than 500 ms after the last pass that ran, a pass changes nothing and sends nothing |
| Content.ScanCounts | content.js:110-186 | a pass that runs stamps now and raises the total by exactly the number of distinct matched elements that were shown |
| Content.ScanHides | content.js:121-181 | after a pass that runs, every element the host's queries matched is hidden or removed, one already hidden is unmodified, and any other element is unchanged |
| Content.ScanTwiceSameTime | content.js:77-78 | a second pass at the same time is throttled and changes nothing |
| Content.HasRelevantChanges | content.js:217-220 | a batch is relevant exactly when some record added nodes or is a childList record |
| Content.ContentScript.HideMatches | content.js:124-129 | the forEach over one query's results is the sweep of that query, in place on the page |
| Content.ContentScript.HideTargets | content.js:118-182 | both site blocks of the pass, in place, are the sweep of the pass's targets |
| Content.ContentScript.HideInstagram | content.js:121-140 | the Instagram block, in place, is the sweep of the Instagram targets, and does nothing on other hosts |
| Content.ContentScript.HideYouTube | content.js:145-182 | the YouTube block, in place, is the sweep of the YouTube targets, and does nothing on other hosts |
| Content.ContentScript.Step | content.js:124-181 | one query's forEach extends the sweep done so far by that query's targets |
| Content.ContentScript.RemoveDistractionVectors | content.js:104-201 | the script's new state and the messages sent are those of the pure pass on the old state |
| Content.ContentScript.DisableProtocol | content.js:91-97 | the body flag is off and no observer is connected; the page is not touched |
| Content.ContentScript.StartObserver | content.js:204-243 | the previous observer is disconnected, a pass runs and exactly one new observer is connected |
| Content.ContentScript.EnableProtocol | content.js:73-88 | the body flag is on, one pass runs (the observer's own pass at the same time is throttled) and exactly one observer is connected |
| Content.ContentScript.HandleUpdateState | content.js:55-70 | updateState stores the state, enables or disables accordingly and answers success |
| Content.ContentScript.LoadInitialState | content.js:38-51 | a stored isBlocking is used and a missing one reads as true; enabled, the body flag is on, the pass is `Scan`'s and exactly one observer is connected; disabled, the body flag is off, no observer is connected, nothing is sent and the page, the time stamp and the total are unchanged |
| Content.ContentScript.OnMutations | content.js:213-225 | a batch runs a pass exactly when blocking is on and the batch is relevant; otherwise nothing changes |
| Content.ContentScript.OnTitleMutation | content.js:246-256 | lastUrl becomes the current address, and a pass is scheduled exactly when the address changed and blocking is on |
| Content.ContentScript.RunScheduledScan | content.js:253 | a scheduled pass runs as a pass does and is taken off the schedule |
| Background.InstallSeeds | background.js:8-19 | after installation isBlocking and overrideEnabled read true and the three counters read 0, and every key the install does not write keeps its value |
| Background.OnInstalled | background.js:8-19 | installation merges the defaults into the store |
| Background.StatusOf | background.js:27-32 | getStatus answers the stored overrideEnabled, false included, and true when it is missing or null |
| Background.Rearmed | background.js:34-48 | after startTimer the table holds focusTimer at endTime, and every other name is present and timed as before |
| Background.RearmReplaces | background.js:37-43 | a second startTimer replaces the first: only the latest end time is armed |
| Background.OnMessage | background.js:26-49 | getStatus is answered from the store, startTimer re-arms focusTimer and answers success, and any other message goes unanswered and changes nothing |
| Background.AlarmWrite | background.js:52-60 | the focusTimer alarm clears the lock and touches no other key; any other alarm changes nothing |
| Background.OnAlarm | background.js:52-76 | the store becomes the alarm's write, and timerComplete is sent exactly for focusTimer |
| Background.StartupWrite | background.js:79-92 | startup clears the lock exactly when isLocked and lockEndTime are set and lockEndTime <= now; no other key changes, and otherwise the store is unchanged |
| Background.OnStartup | background.js:79-92 | the store becomes the startup write |
| Background.AlarmThenStartupQuiet | background.js:52-92 | after the focus alarm has fired, a later startup finds nothing to clear |
| Background.StartupIdempotent | background.js:79-92 | a second startup at the same time changes nothing |
| LockAgreement.ExpiryAgrees | background.js:82-84 | the popup clears a lock on opening exactly when the background clears it on startup; a lock ending exactly now is expired for both |
| LockAgreement.AlarmWhileClosedUncounted | background.js:51-60 | after the focus alarm fires with the popup closed, opening the popup finds no lock and leaves sessionsComplete and totalTime unchanged, so that session is never counted |
| LockAgreement.OpenAndStartupWriteAlike | popup.js:68-79 | opening the popup and starting the browser leave the same isLocked and lockEndTime on the same store at the same time |

## Left out

- The `chrome.*` plumbing is left out: storage, alarms and messaging are maps and returned message lists. Asynchronous interleavings and races between the scripts' store writes are concurrency and are not modelled; each handler runs to completion on the store it reads.
- CSS selector matching and the DOM tree (`querySelectorAll`, `closest`, `remove`) are left out. Each query's result is an input list of element indices, a null `closest()` is left out of its list, and a removed element is marked `Removed` in place.
- Notifications, `console.log` output and the content script's window error handler are left out: they have no effect on the state.
- The content script's `isExtensionValid` guard is left out: the model assumes the extension context stays valid, so the initial load always runs and the `updateStats` message is always sent.
- Popup.StartRunsCountdown, Popup.StartShape: every `Date.now()` read within one handler is taken to be the same `now`. In the script, `startSession` reads the clock for the start and end times and `updateCountdown` reads it again after awaiting the store write and the tab query, so its first frame can show a second less than the full duration (`04:59` rather than `05:00`). For the same reason `EnableProtocol`'s observer pass is stated as throttled at the same instant.
- The progress ring (`circumference`, `progress`, `updateProgress`) is left out because it is floating point.
- Display strings other than the countdown are left out: `sessionText`, the statistics labels (including the `totalTime` label, which divides minutes by 60 and appends "m"), the `timeAdded` text and the duration buttons' `selected` class.
- Timers are explicit steps: `Tick` is one run of the one-second interval, `ClearDoneDisplay` is the three-second timeout, and `RunScheduledScan` is the 1000 ms delayed pass. When a timer fires is not modelled.
- `startSession`'s read of `sessionsComplete` after the countdown starts only sets `sessionText`, and is left out.
- The navigation observer is attached only when the page has a `<title>` element; the model assumes it has one, so `OnTitleMutation` always runs on a title change.
- The `DOMContentLoaded` deferral in `enableProtocol` and `startObserver` is left out: the model assumes `document.body` exists.
- The background's log of the timer's duration in minutes is left out.
- Store values are booleans, integers and null. Strings and fractional numbers are not modelled, so the popup's `parseInt` of a button's minutes is a natural number.
