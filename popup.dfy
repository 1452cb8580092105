/**
 * The popup control panel: the focus-session state machine, its writes to the
 * store and the alarm table, the countdown and the session dots.
 *
 * Each handler is a method of Panel; what it does is stated as a pure
 * transition on PanelState, a snapshot of the panel's variables, the store
 * and the alarm table, and the session rules are proved about those
 * transitions.
 */
module Popup {
  import opened Wrappers
  import opened Store
  import opened Alarms
  import opened Messages
  import opened Countdown
  import opened SessionDots

  const DefaultDuration := 5
  const NoCountdown := "--:--"
  const Done := "DONE"

  /** updateButtonState's three layouts; Initial is the markup's own layout. */
  datatype ButtonState = Initial | Stopped | Running | Paused

  datatype PanelState = PanelState(
    store: Record,
    alarms: map<string, int>,
    selectedDuration: int,
    isRunning: bool,
    isPaused: bool,
    totalDuration: Option<int>,     // None where JavaScript computes NaN
    countdownEnd: Option<int>,      // the installed countdownInterval, by the end time it counts to
    toggleChecked: bool,
    statusActive: bool,             // the status badge reads Focusing
    controlsLocked: bool,           // lockUI: toggle and duration buttons disabled
    buttons: ButtonState,
    countdownText: string,
    dots: seq<DotState>)

  datatype Outcome = Outcome(after: PanelState, sent: seq<Message>)

  /** JavaScript's `a % b` for b > 0: the remainder takes the sign of a. */
  function JsRemainder(a: int, b: int): (r: int)
    requires b > 0
    ensures a >= 0 ==> r == a % b
    ensures a < 0 ==> -b < r <= 0
    ensures a < 0 ==> a == b * -((-a) / b) + r  // the quotient truncated towards zero
  {
    if a >= 0 then a % b else -((-a) % b)
  }

  // ---- The transitions ----

  /** completeSession. */
  function AfterComplete(p: PanelState): PanelState
  {
    var sessions := OrZero(Lookup(p.store, SessionsComplete)) + 1;
    var total := OrZero(Lookup(p.store, TotalTime)) + p.selectedDuration;
    p.(countdownEnd := None,
       store := p.store + map[IsLocked := Bool(false), LockEndTime := Null,
                              SessionsComplete := Num(sessions), TotalTime := Num(total)],
       dots := DotStates(|p.dots|, JsRemainder(sessions, 4)),
       isRunning := false, controlsLocked := false, buttons := Stopped, countdownText := Done)
  }

  /** One run of the countdown's update for a countdown towards endTime. */
  function AfterCountdownUpdate(p: PanelState, endTime: int, now: int): PanelState
  {
    var remaining := endTime - now;
    if remaining <= 0 then AfterComplete(p.(countdownEnd := None))
    else p.(countdownText := CountdownText(remaining))
  }

  /** startCountdown: clear the interval, update once, then install the interval. */
  function AfterCountdownStart(p: PanelState, endTime: int, now: int): PanelState
  {
    AfterCountdownUpdate(p.(countdownEnd := None), endTime, now).(countdownEnd := Some(endTime))
  }

  /** A tick of the installed interval. */
  function AfterTick(p: PanelState, now: int): PanelState
    requires p.countdownEnd.Some?
  {
    AfterCountdownUpdate(p, p.countdownEnd.value, now)
  }

  /** startSession at time now; tabOpen says whether there is an active tab to tell. */
  function AfterStart(p: PanelState, now: int, tabOpen: bool): Outcome
  {
    var endTime := now + p.selectedDuration * 60000;  // minutes to milliseconds
    Outcome(AfterCountdownStart(Armed(p, now), endTime, now),
            (if tabOpen then [UpdateState(true)] else []) + [StartTimer(endTime)])
  }

  /** startSession up to its call of startCountdown: the lock written, the controls locked. */
  function Armed(p: PanelState, now: int): PanelState
  {
    var d := p.selectedDuration;
    p.(totalDuration := Some(d * 60),
       store := p.store + map[IsLocked := Bool(true), LockEndTime := Num(now + d * 60000),
                              StartTime := Num(now), IsBlocking := Bool(true),
                              SelectedDuration := Num(d)],
       toggleChecked := true, statusActive := true,
       isRunning := true, isPaused := false, controlsLocked := true, buttons := Running)
  }

  function AfterPause(p: PanelState): PanelState
  {
    p.(isPaused := true, buttons := Paused)
  }

  function AfterResume(p: PanelState): PanelState
  {
    p.(isPaused := false, buttons := Running)
  }

  /** The play button: start when not running, resume when paused, otherwise nothing. */
  function AfterPlay(p: PanelState, now: int, tabOpen: bool): Outcome
  {
    if !p.isRunning then AfterStart(p, now, tabOpen)
    else if p.isPaused then Outcome(AfterResume(p), [])
    else Outcome(p, [])
  }

  /** stopSession, with the answer to its confirmation dialog. */
  function AfterStop(p: PanelState, confirmed: bool): PanelState
  {
    if !confirmed then p
    else p.(countdownEnd := None, isRunning := false, isPaused := false,
            store := ClearLock(p.store), alarms := p.alarms - {FocusTimer},
            controlsLocked := false, buttons := Stopped, countdownText := NoCountdown)
  }

  /** A click on a duration button worth `minutes`. */
  function AfterDurationClick(p: PanelState, minutes: nat): PanelState
  {
    if p.isRunning then p
    else p.(selectedDuration := minutes, store := p.store[SelectedDuration := Num(minutes)],
            countdownText := Decimal(minutes) + ":00")
  }

  /** The toggle's change handler; `checked` is the state the user clicked it to. */
  function AfterToggle(p: PanelState, checked: bool, now: int, tabOpen: bool): Outcome
  {
    if Truthy(Lookup(p.store, IsLocked)) then Outcome(p.(toggleChecked := true), [])
    else Outcome(p.(toggleChecked := checked, statusActive := checked,
                    store := p.store + map[IsBlocking := Bool(checked),
                                           SessionStart := if checked then Num(now) else Null]),
                 if tabOpen then [UpdateState(checked)] else [])
  }

  /** The popup finds a lock: lockEndTime and isLocked both truthy. */
  predicate HasLock(s: Record)
  {
    Truthy(Lookup(s, LockEndTime)) && Truthy(Lookup(s, IsLocked))
  }

  /** The popup treats a lock as running out in the future. */
  predicate LockInFuture(s: Record, now: int)
  {
    HasLock(s) && ToNumber(s[LockEndTime]) > now
  }

  /** Math.floor((lockEndTime - startTime) / 1000); None (NaN) when startTime is missing. */
  function SessionSeconds(lockEnd: Value, start: Option<Value>): Option<int>
  {
    if start.None? then None else Some((ToNumber(lockEnd) - ToNumber(start.value)) / 1000)
  }

  /** The toggle state the popup shows on opening: the stored isBlocking, true when never written. */
  predicate ShownBlocking(s: Record)
  {
    if IsBlocking in s then Truthy(Lookup(s, IsBlocking)) else true
  }

  /** initializePopup at time now; the store is read once at the start. */
  function AfterOpen(p: PanelState, now: int): PanelState
  {
    var s := p.store;
    var p3 := ReconcileLock(OpenDisplay(p), s, now);
    if Truthy(Lookup(s, SelectedDuration)) then p3.(selectedDuration := ToNumber(s[SelectedDuration])) else p3
  }

  /** initializePopup's first steps: the toggle, a missing isBlocking stored as on, the dots. */
  function OpenDisplay(p: PanelState): PanelState
  {
    var s := p.store;
    p.(store := if IsBlocking in s then s else s[IsBlocking := Bool(true)],
       toggleChecked := ShownBlocking(s), statusActive := ShownBlocking(s),
       dots := StoredDots(p.dots, s))
  }

  /** The dots on opening: set from a stored sessionsComplete, left alone when it is falsy. */
  function StoredDots(dots: seq<DotState>, s: Record): seq<DotState>
  {
    if Truthy(Lookup(s, SessionsComplete))
    then DotStates(|dots|, JsRemainder(ToNumber(s[SessionsComplete]), 4))
    else dots
  }

  /** The lock check of initializePopup: resume a lock still running, clear one that has run out. */
  function ReconcileLock(p: PanelState, s: Record, now: int): PanelState
  {
    if !HasLock(s) then p
    else if LockInFuture(s, now)
    then AfterCountdownStart(p.(isRunning := true,
                                totalDuration := SessionSeconds(s[LockEndTime], Lookup(s, StartTime))),
                             ToNumber(s[LockEndTime]), now).(controlsLocked := true, buttons := Running)
    else p.(store := ClearLock(p.store), controlsLocked := false)
  }

  /** The runtime message listener. */
  function AfterMessage(p: PanelState, msg: Message): PanelState
  {
    match msg
    case UpdateStats(Some(v)) => p.(store := p.store[VectorsBlocked := Num(v)])
    case TimerComplete => AfterComplete(p)
    case _ => p
  }

  /** The timeout three seconds after completion puts back the idle countdown text. */
  function AfterDoneTimeout(p: PanelState): PanelState
  {
    p.(countdownText := NoCountdown)
  }

  // ---- What the session rules promise ----

  /**
   * startSession at time now with d > 0 minutes writes a lock until now + d
   * minutes and blocking on, and leaves the counters alone.
   */
  lemma StartWritesLock(p: PanelState, now: int, tabOpen: bool)
    requires p.selectedDuration > 0
    ensures var s := AfterStart(p, now, tabOpen).after.store;
      var endTime := now + p.selectedDuration * 60000;
      && Lookup(s, LockEndTime) == Some(Num(endTime))
      && Lookup(s, StartTime) == Some(Num(now))
      && Lookup(s, IsLocked) == Some(Bool(true))
      && Lookup(s, IsBlocking) == Some(Bool(true))
      && Lookup(s, SessionsComplete) == Lookup(p.store, SessionsComplete)
      && Lookup(s, TotalTime) == Lookup(p.store, TotalTime)
  {
    StartShape(p, now, tabOpen);
    ArmedWrites(p, now);
    assert AfterStart(p, now, tabOpen).after.store == Armed(p, now).store;
  }

  /**
   * startSession with d > 0 minutes: running and not paused, the controls
   * locked, the countdown showing the whole duration towards now + d minutes,
   * and the background told to arm its timer for that end.
   */
  lemma StartRunsCountdown(p: PanelState, now: int, tabOpen: bool)
    requires p.selectedDuration > 0
    ensures var o := AfterStart(p, now, tabOpen);
      var endTime := now + p.selectedDuration * 60000;
      && o.after.totalDuration == Some(p.selectedDuration * 60)
      && o.after.isRunning && !o.after.isPaused && o.after.controlsLocked && o.after.toggleChecked
      && o.after.countdownEnd == Some(endTime)
      && o.after.countdownText == CountdownText(p.selectedDuration * 60000)
      && StartTimer(endTime) in o.sent
  {
    StartShape(p, now, tabOpen);
    var sent := AfterStart(p, now, tabOpen).sent;
    assert sent[|sent| - 1] == StartTimer(now + p.selectedDuration * 60000);
  }

  /** With d > 0 the first countdown update only shows the time: the session is not over at once. */
  lemma StartShape(p: PanelState, now: int, tabOpen: bool)
    requires p.selectedDuration > 0
    ensures AfterStart(p, now, tabOpen).after
        == Armed(p, now).(countdownText := CountdownText(p.selectedDuration * 60000),
                          countdownEnd := Some(now + p.selectedDuration * 60000))
  {
    var endTime := now + p.selectedDuration * 60000;
    assert endTime - now == p.selectedDuration * 60000;
    CountdownStartShows(Armed(p, now), endTime, now);
  }

  /** startSession's write: the lock until now + d minutes, blocking on, the counters untouched. */
  lemma ArmedWrites(p: PanelState, now: int)
    ensures var s := Armed(p, now).store;
      var endTime := now + p.selectedDuration * 60000;
      && Lookup(s, LockEndTime) == Some(Num(endTime))
      && Lookup(s, StartTime) == Some(Num(now))
      && Lookup(s, IsLocked) == Some(Bool(true))
      && Lookup(s, IsBlocking) == Some(Bool(true))
      && Lookup(s, SessionsComplete) == Lookup(p.store, SessionsComplete)
      && Lookup(s, TotalTime) == Lookup(p.store, TotalTime)
  {
  }

  /** startCountdown towards an end still ahead shows the time left and keeps the interval. */
  lemma CountdownStartShows(p: PanelState, endTime: int, now: int)
    requires endTime > now
    ensures AfterCountdownStart(p, endTime, now)
      == p.(countdownText := CountdownText(endTime - now), countdownEnd := Some(endTime))
  {
  }

  /** A 5-minute session started at T shows 00:01 at T + 299000 ms. */
  lemma FiveMinuteSessionLastSecond(p: PanelState, t: int, tabOpen: bool)
    requires p.selectedDuration == 5
    ensures AfterTick(AfterStart(p, t, tabOpen).after, t + 299000).countdownText == "00:01"
  {
    CountdownOneSecond();
  }

  /**
   * completeSession adds one session (a missing count reads as 0) and the
   * selected minutes, clears the lock, leaves every other key alone, stops
   * running and shows the new session count on the dots.
   */
  lemma CompleteCounts(p: PanelState)
    ensures var q := AfterComplete(p);
      var sessions := OrZero(Lookup(p.store, SessionsComplete)) + 1;
      && Lookup(q.store, SessionsComplete) == Some(Num(sessions))
      && Lookup(q.store, TotalTime) == Some(Num(OrZero(Lookup(p.store, TotalTime)) + p.selectedDuration))
      && Lookup(q.store, IsLocked) == Some(Bool(false)) && Lookup(q.store, LockEndTime) == Some(Null)
      && (forall k :: k != SessionsComplete && k != TotalTime && k != IsLocked && k != LockEndTime
            ==> Lookup(q.store, k) == Lookup(p.store, k))
      && !q.isRunning && q.countdownEnd == None && !q.controlsLocked && q.alarms == p.alarms
      && q.dots == DotStates(|p.dots|, JsRemainder(sessions, 4))
  {
  }

  /**
   * completeSession is not idempotent: a second run (timerComplete arriving
   * after the local countdown reached zero) counts the session again.
   */
  lemma CompleteTwiceCountsTwice(p: PanelState)
    ensures Lookup(AfterComplete(AfterComplete(p)).store, SessionsComplete)
      == Some(Num(OrZero(Lookup(p.store, SessionsComplete)) + 2))
    ensures Lookup(AfterComplete(AfterComplete(p)).store, TotalTime)
      == Some(Num(OrZero(Lookup(p.store, TotalTime)) + 2 * p.selectedDuration))
  {
    var q := AfterComplete(p);
    assert OrZero(Lookup(q.store, SessionsComplete)) == OrZero(Lookup(p.store, SessionsComplete)) + 1;
    assert OrZero(Lookup(q.store, TotalTime)) == OrZero(Lookup(p.store, TotalTime)) + p.selectedDuration;
  }

  /**
   * When timerComplete arrives before the local countdown reaches zero, the
   * completion clears the interval: no countdown is left to tick, so the
   * session is counted once.
   */
  lemma MessageFirstCountsOnce(p: PanelState)
    ensures AfterMessage(p, TimerComplete) == AfterComplete(p)
    ensures AfterMessage(p, TimerComplete).countdownEnd == None
    ensures Lookup(AfterMessage(p, TimerComplete).store, SessionsComplete)
      == Some(Num(OrZero(Lookup(p.store, SessionsComplete)) + 1))
  {
  }

  /**
   * A session of d > 0 minutes that runs out: the first tick at or after its
   * end counts one session and d minutes and clears the lock.
   */
  lemma NaturalCompletion(p: PanelState, t: int, tabOpen: bool, now: int)
    requires p.selectedDuration > 0 && now >= t + p.selectedDuration * 60000
    ensures var q := AfterTick(AfterStart(p, t, tabOpen).after, now);
      && Lookup(q.store, SessionsComplete) == Some(Num(OrZero(Lookup(p.store, SessionsComplete)) + 1))
      && Lookup(q.store, TotalTime) == Some(Num(OrZero(Lookup(p.store, TotalTime)) + p.selectedDuration))
      && Lookup(q.store, IsLocked) == Some(Bool(false)) && Lookup(q.store, LockEndTime) == Some(Null)
      && !q.isRunning && !q.controlsLocked
  {
    var started := AfterStart(p, t, tabOpen).after;
    StartShape(p, t, tabOpen);
    var halted := Armed(p, t).(countdownText := CountdownText(p.selectedDuration * 60000), countdownEnd := None);
    assert started.(countdownEnd := None) == halted;
    TickAtEndCompletes(started, now);
    ArmedThenCompleted(p, t, CountdownText(p.selectedDuration * 60000));
  }

  /** Completing an armed session counts it on top of the counters from before it was armed. */
  lemma ArmedThenCompleted(p: PanelState, t: int, text: string)
    ensures var q := AfterComplete(Armed(p, t).(countdownText := text, countdownEnd := None));
      && Lookup(q.store, SessionsComplete) == Some(Num(OrZero(Lookup(p.store, SessionsComplete)) + 1))
      && Lookup(q.store, TotalTime) == Some(Num(OrZero(Lookup(p.store, TotalTime)) + p.selectedDuration))
      && Lookup(q.store, IsLocked) == Some(Bool(false)) && Lookup(q.store, LockEndTime) == Some(Null)
      && !q.isRunning && !q.controlsLocked
  {
    var halted := Armed(p, t).(countdownText := text, countdownEnd := None);
    assert Lookup(halted.store, SessionsComplete) == Lookup(p.store, SessionsComplete)
        && Lookup(halted.store, TotalTime) == Lookup(p.store, TotalTime)
        && halted.selectedDuration == p.selectedDuration by {
      ArmedWrites(p, t);
    }
    CompleteCounts(halted);
  }

  /** A state that carries completion's writes and otherwise the old values is the completed state. */
  lemma CompleteFields(p: PanelState, q: PanelState)
    requires q.store == p.store + map[IsLocked := Bool(false), LockEndTime := Null,
                                      SessionsComplete := Num(OrZero(Lookup(p.store, SessionsComplete)) + 1),
                                      TotalTime := Num(OrZero(Lookup(p.store, TotalTime)) + p.selectedDuration)]
    requires q.dots == DotStates(|p.dots|, JsRemainder(OrZero(Lookup(p.store, SessionsComplete)) + 1, 4))
    requires q.countdownEnd == None && !q.isRunning && !q.controlsLocked && q.buttons == Stopped
    requires q.countdownText == Done
    requires q.alarms == p.alarms && q.selectedDuration == p.selectedDuration && q.isPaused == p.isPaused
    requires q.totalDuration == p.totalDuration && q.toggleChecked == p.toggleChecked
    requires q.statusActive == p.statusActive
    ensures q == AfterComplete(p)
  {
  }

  /** An update with no time left completes the session; clearing the interval first makes no difference. */
  lemma UpdateAtEndCompletes(p: PanelState, endTime: int, now: int)
    requires endTime <= now
    ensures AfterCountdownUpdate(p, endTime, now) == AfterComplete(p)
  {
    assert AfterComplete(p.(countdownEnd := None)) == AfterComplete(p);
  }

  /** A tick at or after the countdown's end completes the session. */
  lemma TickAtEndCompletes(p: PanelState, now: int)
    requires p.countdownEnd.Some? && now >= p.countdownEnd.value
    ensures AfterTick(p, now) == AfterComplete(p.(countdownEnd := None))
  {
  }

  /**
   * stopSession: declined, nothing changes; confirmed, the lock, the alarm and
   * the countdown are cleared and the counters keep their values.
   */
  lemma StopKeepsCounters(p: PanelState, confirmed: bool)
    ensures !confirmed ==> AfterStop(p, confirmed) == p
    ensures confirmed ==>
      var q := AfterStop(p, confirmed);
      && Lookup(q.store, SessionsComplete) == Lookup(p.store, SessionsComplete)
      && Lookup(q.store, TotalTime) == Lookup(p.store, TotalTime)
      && Lookup(q.store, IsLocked) == Some(Bool(false)) && Lookup(q.store, LockEndTime) == Some(Null)
      && FocusTimer !in q.alarms && !q.isRunning && !q.isPaused && q.countdownEnd == None
  {
  }

  /** A session stopped early counts nothing: the counters are those from before it started. */
  lemma StartThenStopCountsNothing(p: PanelState, t: int, tabOpen: bool)
    requires p.selectedDuration > 0
    ensures var q := AfterStop(AfterStart(p, t, tabOpen).after, true);
      Lookup(q.store, SessionsComplete) == Lookup(p.store, SessionsComplete)
      && Lookup(q.store, TotalTime) == Lookup(p.store, TotalTime)
  {
    StartWritesLock(p, t, tabOpen);
  }

  /** Under a lock the toggle snaps back to on, writes nothing and tells no one. */
  lemma LockedToggleRejected(p: PanelState, checked: bool, now: int, tabOpen: bool)
    requires Truthy(Lookup(p.store, IsLocked))
    ensures var o := AfterToggle(p, checked, now, tabOpen);
      o.after.store == p.store && o.after.toggleChecked && o.sent == []
  {
  }

  /** Without a lock the toggle writes the state clicked and tells the page. */
  lemma UnlockedToggleWrites(p: PanelState, checked: bool, now: int)
    requires !Truthy(Lookup(p.store, IsLocked))
    ensures var o := AfterToggle(p, checked, now, true);
      Lookup(o.after.store, IsBlocking) == Some(Bool(checked)) && o.after.toggleChecked == checked
      && o.sent == [UpdateState(checked)]
  {
  }

  /** During a running session the toggle cannot switch blocking off. */
  lemma SessionCannotBeDisabled(p: PanelState, t: int, tabOpen: bool, now: int, tabOpen': bool)
    requires p.selectedDuration > 0
    ensures var q := AfterToggle(AfterStart(p, t, tabOpen).after, false, now, tabOpen').after;
      Lookup(q.store, IsBlocking) == Some(Bool(true)) && q.toggleChecked
  {
    StartWritesLock(p, t, tabOpen);
  }

  /**
   * Pause and resume only flip isPaused and the buttons: the store, the lock
   * end and the countdown go on exactly as if the session were not paused.
   */
  lemma PauseIsCosmetic(p: PanelState)
    ensures AfterPause(p).store == p.store && AfterPause(p).countdownEnd == p.countdownEnd
    ensures AfterPause(p).countdownText == p.countdownText && AfterPause(p).isRunning == p.isRunning
    ensures AfterResume(AfterPause(p)) == p.(isPaused := false, buttons := Running)
  {
  }

  /** A paused countdown goes on ticking: a tick writes and shows what it would unpaused. */
  lemma TickIgnoresPause(p: PanelState, now: int)
    requires p.countdownEnd.Some?
    ensures AfterTick(AfterPause(p), now).store == AfterTick(p, now).store
    ensures AfterTick(AfterPause(p), now).countdownText == AfterTick(p, now).countdownText
    ensures AfterTick(AfterPause(p), now).countdownEnd == AfterTick(p, now).countdownEnd
  {
    if now >= p.countdownEnd.value {
      PausedTickAtEnd(p, now);
    } else {
      var text := CountdownText(p.countdownEnd.value - now);
      assert AfterTick(p, now) == p.(countdownText := text);
      assert AfterTick(AfterPause(p), now) == AfterPause(p).(countdownText := text);
    }
  }

  /** The tick that ends a paused session completes it as it would an unpaused one. */
  lemma PausedTickAtEnd(p: PanelState, now: int)
    requires p.countdownEnd.Some? && now >= p.countdownEnd.value
    ensures AfterTick(AfterPause(p), now) == AfterTick(p, now).(isPaused := true)
  {
    TickAtEndCompletes(p, now);
    TickAtEndCompletes(AfterPause(p), now);
    assert AfterPause(p).(countdownEnd := None) == AfterPause(p.(countdownEnd := None));
    CompleteIgnoresPause(p.(countdownEnd := None));
  }

  /** completeSession does the same whether or not the session was paused. */
  lemma CompleteIgnoresPause(p: PanelState)
    ensures AfterComplete(AfterPause(p)) == AfterComplete(p).(isPaused := true)
  {
  }

  /** A duration button is ignored while a session runs. */
  lemma DurationIgnoredWhileRunning(p: PanelState, t: int, tabOpen: bool, minutes: nat)
    requires p.selectedDuration > 0
    ensures var q := AfterStart(p, t, tabOpen).after; AfterDurationClick(q, minutes) == q
  {
    StartRunsCountdown(p, t, tabOpen);
  }

  /** Opening the popup: an isBlocking never written is shown and stored as on. */
  lemma OpenDefaultsBlocking(p: PanelState, now: int)
    requires IsBlocking !in p.store
    ensures Lookup(AfterOpen(p, now).store, IsBlocking) == Some(Bool(true))
    ensures AfterOpen(p, now).toggleChecked
  {
    var p1 := OpenDisplay(p);
    assert Lookup(p1.store, IsBlocking) == Some(Bool(true)) && p1.toggleChecked;
    ReconcileKeepsToggle(p1, p.store, now);
  }

  /** The lock check leaves isBlocking and the toggle as they were. */
  lemma ReconcileKeepsToggle(p: PanelState, s: Record, now: int)
    ensures Lookup(ReconcileLock(p, s, now).store, IsBlocking) == Lookup(p.store, IsBlocking)
    ensures ReconcileLock(p, s, now).toggleChecked == p.toggleChecked
  {
    if LockInFuture(s, now) {
      var r := p.(isRunning := true, totalDuration := SessionSeconds(s[LockEndTime], Lookup(s, StartTime)));
      CountdownStartShows(r, ToNumber(s[LockEndTime]), now);
    }
  }

  /** What opening the popup writes: a missing isBlocking, and the clearing of a lock that has run out. */
  lemma OpenStore(p: PanelState, now: int)
    ensures var s := p.store;
      var shown := if IsBlocking in s then s else s[IsBlocking := Bool(true)];
      AfterOpen(p, now).store == if HasLock(s) && !LockInFuture(s, now) then ClearLock(shown) else shown
  {
    var s := p.store;
    var p1 := OpenDisplay(p);
    OpenDisplayStore(p);
    ReconcileStore(p1, s, now);
    var p3 := ReconcileLock(p1, s, now);
    assert AfterOpen(p, now).store == p3.store;
  }

  /** The first steps of opening write only a missing isBlocking. */
  lemma OpenDisplayStore(p: PanelState)
    ensures OpenDisplay(p).store == if IsBlocking in p.store then p.store else p.store[IsBlocking := Bool(true)]
  {
  }

  /** The lock check writes only when the lock has run out, and then only the lock. */
  lemma ReconcileStore(p: PanelState, s: Record, now: int)
    ensures ReconcileLock(p, s, now).store == if HasLock(s) && !LockInFuture(s, now) then ClearLock(p.store) else p.store
  {
    if LockInFuture(s, now) {
      var r := p.(isRunning := true, totalDuration := SessionSeconds(s[LockEndTime], Lookup(s, StartTime)));
      CountdownStartShows(r, ToNumber(s[LockEndTime]), now);
    }
  }

  /** Opening the popup under a lock ending in the future resumes its countdown. */
  lemma OpenResumesLock(p: PanelState, now: int)
    requires LockInFuture(p.store, now)
    ensures var q := AfterOpen(p, now);
      var endTime := ToNumber(p.store[LockEndTime]);
      q.isRunning && q.controlsLocked && q.buttons == Running && q.countdownEnd == Some(endTime)
      && q.countdownText == CountdownText(endTime - now)
  {
    var s := p.store;
    var endTime := ToNumber(s[LockEndTime]);
    var r := OpenDisplay(p).(isRunning := true,
                             totalDuration := SessionSeconds(s[LockEndTime], Lookup(s, StartTime)));
    CountdownStartShows(r, endTime, now);
    var p3 := r.(countdownText := CountdownText(endTime - now), countdownEnd := Some(endTime),
                 controlsLocked := true, buttons := Running);
    assert ReconcileLock(OpenDisplay(p), s, now) == p3;
  }

  /**
   * Opening the popup under a lock that has run out (lockEndTime <= now)
   * clears it and starts no countdown.
   */
  lemma OpenClearsExpiredLock(p: PanelState, now: int)
    requires HasLock(p.store) && !LockInFuture(p.store, now)
    ensures var q := AfterOpen(p, now);
      Lookup(q.store, IsLocked) == Some(Bool(false)) && Lookup(q.store, LockEndTime) == Some(Null)
      && q.isRunning == p.isRunning && q.countdownEnd == p.countdownEnd && q.countdownText == p.countdownText
  {
    var p1 := OpenDisplay(p);
    var p3 := p1.(store := ClearLock(p1.store), controlsLocked := false);
    assert ReconcileLock(p1, p.store, now) == p3;
    assert p3.isRunning == p.isRunning && p3.countdownEnd == p.countdownEnd && p3.countdownText == p.countdownText;
  }

  /** After a completion on the popup's four dots, one dot is active and sessions % 4 are completed. */
  lemma CompletionDots(p: PanelState)
    requires |p.dots| == 4 && OrZero(Lookup(p.store, SessionsComplete)) >= 0
    ensures var sessions := OrZero(Lookup(p.store, SessionsComplete)) + 1;
      CountOf(AfterComplete(p).dots, Active) == 1
      && CountOf(AfterComplete(p).dots, Completed) == sessions % 4
  {
    FourDots(OrZero(Lookup(p.store, SessionsComplete)) + 1);
  }
}

module PopupPanel {
  import opened Wrappers
  import opened Store
  import opened Alarms
  import opened Messages
  import opened Countdown
  import opened SessionDots
  import opened Popup

  /** The popup's module state and page elements, over the shared store and alarm table. */
  class Panel {
    const store: LocalStore
    const alarms: AlarmTable
    /** The .progress-dot elements. */
    const dots: array<DotState>
    var selectedDuration: int
    var isRunning: bool
    var isPaused: bool
    var totalDuration: Option<int>
    var countdownEnd: Option<int>
    var toggleChecked: bool
    var statusActive: bool
    var controlsLocked: bool
    var buttons: ButtonState
    var countdownText: string

    ghost function Snapshot(): PanelState
      reads this, store, alarms, dots
    {
      PanelState(store.data, alarms.table, selectedDuration, isRunning, isPaused, totalDuration,
                 countdownEnd, toggleChecked, statusActive, controlsLocked, buttons, countdownText, dots[..])
    }

    /** The popup as loaded, before initializePopup runs. */
    constructor (store: LocalStore, alarms: AlarmTable, dots: array<DotState>)
      ensures this.store == store && this.alarms == alarms && this.dots == dots
      ensures selectedDuration == DefaultDuration && !isRunning && !isPaused && totalDuration == Some(0)
      ensures countdownEnd == None && !controlsLocked && buttons == Initial
    {
      this.store := store;
      this.alarms := alarms;
      this.dots := dots;
      selectedDuration := DefaultDuration;
      isRunning := false;
      isPaused := false;
      totalDuration := Some(0);
      countdownEnd := None;
      toggleChecked := false;
      statusActive := false;
      controlsLocked := false;
      buttons := Initial;
      countdownText := NoCountdown;
    }

    /** updateSessionDots: each dot gets its class from its index. */
    method UpdateSessionDots(activeIndex: int)
      modifies dots
      ensures dots[..] == DotStates(dots.Length, activeIndex)
    {
      var index := 0;
      while index < dots.Length
        invariant 0 <= index <= dots.Length
        invariant forall i :: 0 <= i < index ==> dots[i] == DotClass(i, activeIndex)
      {
        dots[index] := DotClass(index, activeIndex);
        index := index + 1;
      }
    }

    method CompleteSession()
      modifies this, store, dots
      ensures Snapshot() == AfterComplete(old(Snapshot()))
    {
      ghost var before := Snapshot();
      var newSessions := OrZero(Lookup(store.data, SessionsComplete)) + 1;
      var newTotalTime := OrZero(Lookup(store.data, TotalTime)) + selectedDuration;
      store.Set(map[IsLocked := Bool(false), LockEndTime := Null,
                    SessionsComplete := Num(newSessions), TotalTime := Num(newTotalTime)]);
      UpdateSessionDots(JsRemainder(newSessions, 4));
      ShowCompleted();
      CompleteFields(before, Snapshot());
    }

    /** completeSession's own variables and display: stopped, unlocked, DONE shown. */
    method ShowCompleted()
      modifies this
      ensures countdownEnd == None && !isRunning && !controlsLocked && buttons == Stopped && countdownText == Done
      ensures selectedDuration == old(selectedDuration) && isPaused == old(isPaused)
      ensures totalDuration == old(totalDuration) && toggleChecked == old(toggleChecked)
      ensures statusActive == old(statusActive)
    {
      countdownEnd := None;
      isRunning := false;
      controlsLocked := false;
      buttons := Stopped;
      countdownText := Done;
    }

    /** The countdown's update, for a countdown towards endTime. */
    method UpdateCountdown(endTime: int, now: int)
      modifies this, store, dots
      ensures Snapshot() == AfterCountdownUpdate(old(Snapshot()), endTime, now)
    {
      var remaining := endTime - now;
      if remaining <= 0 {
        ghost var before := Snapshot();
        // completeSession clears the interval as well
        CompleteSession();
        UpdateAtEndCompletes(before, endTime, now);
        return;
      }
      countdownText := CountdownText(remaining);
    }

    method StartCountdown(endTime: int, now: int)
      modifies this, store, dots
      ensures Snapshot() == AfterCountdownStart(old(Snapshot()), endTime, now)
    {
      countdownEnd := None;
      UpdateCountdown(endTime, now);
      countdownEnd := Some(endTime);
    }

    /** A tick of the installed one-second interval. */
    method Tick(now: int)
      requires countdownEnd.Some?
      modifies this, store, dots
      ensures Snapshot() == AfterTick(old(Snapshot()), now)
    {
      UpdateCountdown(countdownEnd.value, now);
    }

    method StartSession(now: int, tabOpen: bool) returns (sent: seq<Message>)
      modifies this, store, dots
      ensures Outcome(Snapshot(), sent) == AfterStart(old(Snapshot()), now, tabOpen)
    {
      var endTime := now + selectedDuration * 60 * 1000;
      Arm(now);
      sent := if tabOpen then [UpdateState(true)] else [];
      sent := sent + [StartTimer(endTime)];
      StartCountdown(endTime, now);
    }

    /** startSession's writes before the countdown: the lock, the toggle, the session flags. */
    method Arm(startTime: int)
      modifies this, store
      ensures Snapshot() == Armed(old(Snapshot()), startTime)
    {
      var endTime := startTime + selectedDuration * 60 * 1000;
      store.Set(map[IsLocked := Bool(true), LockEndTime := Num(endTime), StartTime := Num(startTime),
                    IsBlocking := Bool(true), SelectedDuration := Num(selectedDuration)]);
      totalDuration := Some(selectedDuration * 60);
      toggleChecked := true;
      statusActive := true;
      isRunning := true;
      isPaused := false;
      controlsLocked := true;
      buttons := Running;
    }

    method PauseSession()
      modifies this
      ensures Snapshot() == AfterPause(old(Snapshot()))
    {
      isPaused := true;
      buttons := Paused;
    }

    method ResumeSession()
      modifies this
      ensures Snapshot() == AfterResume(old(Snapshot()))
    {
      isPaused := false;
      buttons := Running;
    }

    /** The play button's click handler. */
    method Play(now: int, tabOpen: bool) returns (sent: seq<Message>)
      modifies this, store, dots
      ensures Outcome(Snapshot(), sent) == AfterPlay(old(Snapshot()), now, tabOpen)
    {
      sent := [];
      if !isRunning {
        sent := StartSession(now, tabOpen);
      } else if isPaused {
        ResumeSession();
      }
    }

    /** stopSession; `confirmed` is the answer to the confirmation dialog. */
    method StopSession(confirmed: bool)
      modifies this, store, alarms
      ensures Snapshot() == AfterStop(old(Snapshot()), confirmed)
    {
      if !confirmed {
        return;
      }
      StopConfirmed();
    }

    /** stopSession once the dialog is answered yes. */
    method StopConfirmed()
      modifies this, store, alarms
      ensures Snapshot() == AfterStop(old(Snapshot()), true)
    {
      store.Set(map[IsLocked := Bool(false), LockEndTime := Null]);
      alarms.Clear(FocusTimer);
      ShowStopped();
    }

    /** stopSession's own variables and display: stopped, unlocked, `--:--` shown. */
    method ShowStopped()
      modifies this
      ensures countdownEnd == None && !isRunning && !isPaused && !controlsLocked && buttons == Stopped
      ensures countdownText == NoCountdown
      ensures selectedDuration == old(selectedDuration) && totalDuration == old(totalDuration)
      ensures toggleChecked == old(toggleChecked) && statusActive == old(statusActive)
    {
      countdownEnd := None;
      isRunning := false;
      isPaused := false;
      controlsLocked := false;
      buttons := Stopped;
      countdownText := NoCountdown;
    }

    /** A duration button's click handler. */
    method SelectDuration(minutes: nat)
      modifies this, store
      ensures Snapshot() == AfterDurationClick(old(Snapshot()), minutes)
    {
      if isRunning {
        return;
      }
      selectedDuration := minutes;
      store.Set(map[SelectedDuration := Num(minutes)]);
      countdownText := Decimal(minutes) + ":00";
    }

    /** The toggle's change handler; `checked` is the state the user clicked it to. */
    method Toggle(checked: bool, now: int, tabOpen: bool) returns (sent: seq<Message>)
      modifies this, store
      ensures Outcome(Snapshot(), sent) == AfterToggle(old(Snapshot()), checked, now, tabOpen)
    {
      toggleChecked := checked;
      sent := [];
      if Truthy(Lookup(store.data, IsLocked)) {
        toggleChecked := true;
        return;
      }
      var isBlocking := checked;
      store.Set(map[IsBlocking := Bool(isBlocking), SessionStart := if isBlocking then Num(now) else Null]);
      statusActive := isBlocking;
      if tabOpen {
        sent := [UpdateState(isBlocking)];
      }
    }

    /** initializePopup at time now. */
    method Initialize(now: int)
      modifies this, store, dots
      ensures Snapshot() == AfterOpen(old(Snapshot()), now)
    {
      var result := store.data;
      ShowStoredState();
      CheckLock(result, now);
      if Truthy(Lookup(result, SelectedDuration)) {
        selectedDuration := ToNumber(result[SelectedDuration]);
      }
    }

    /** initializePopup's first steps, before the lock check. */
    method ShowStoredState()
      modifies this, store, dots
      ensures Snapshot() == OpenDisplay(old(Snapshot()))
    {
      var result := store.data;
      var isBlocking := if IsBlocking in result then Truthy(Lookup(result, IsBlocking)) else true;
      if IsBlocking !in result {
        store.Set(map[IsBlocking := Bool(true)]);
      }
      toggleChecked := isBlocking;
      statusActive := isBlocking;
      if Truthy(Lookup(result, SessionsComplete)) {
        UpdateSessionDots(JsRemainder(ToNumber(result[SessionsComplete]), 4));
      }
    }

    /** The active-lock check of initializePopup, on the record it read. */
    method CheckLock(result: Record, now: int)
      modifies this, store, dots
      ensures Snapshot() == ReconcileLock(old(Snapshot()), result, now)
    {
      if Truthy(Lookup(result, LockEndTime)) && Truthy(Lookup(result, IsLocked)) {
        var lockEndTime := ToNumber(result[LockEndTime]);
        if lockEndTime > now {
          ResumeLock(result, now);
        } else {
          store.Set(map[IsLocked := Bool(false), LockEndTime := Null]);
          controlsLocked := false;
        }
      }
    }

    /** The lock check's resumption of a lock still running. */
    method ResumeLock(result: Record, now: int)
      requires LockInFuture(result, now)
      modifies this, store, dots
      ensures Snapshot() == ReconcileLock(old(Snapshot()), result, now)
    {
      var lockEndTime := ToNumber(result[LockEndTime]);
      isRunning := true;
      totalDuration := SessionSeconds(result[LockEndTime], Lookup(result, StartTime));
      StartCountdown(lockEndTime, now);
      controlsLocked := true;
      buttons := Running;
    }

    /** The runtime message listener (updateStats from the page, timerComplete from the background). */
    method OnMessage(msg: Message)
      modifies this, store, dots
      ensures Snapshot() == AfterMessage(old(Snapshot()), msg)
    {
      match msg {
        case UpdateStats(v) =>
          if v.Some? {
            store.Set(map[VectorsBlocked := Num(v.value)]);
          }
        case TimerComplete =>
          CompleteSession();
        case _ =>
      }
    }

    /** The timeout three seconds after completion. */
    method ClearDoneDisplay()
      modifies this
      ensures Snapshot() == AfterDoneTimeout(old(Snapshot()))
    {
      countdownText := NoCountdown;
    }
  }
}
