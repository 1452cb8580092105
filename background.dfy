/**
 * The background worker: it seeds the store on installation, answers
 * getStatus and startTimer, ends the lock when the focus alarm fires and
 * clears a lock that ran out while the browser was closed.
 *
 * Its handlers are methods over the shared store and alarm table; what each
 * does to them is stated by a pure function of the old contents.
 */
module Background {
  import opened Wrappers
  import opened Store
  import opened Alarms
  import opened Messages

  /** The values written on installation; every other key keeps what it had. */
  function InstallDefaults(): Record
  {
    map[IsBlocking := Bool(true), OverrideEnabled := Bool(true), VectorsBlocked := Num(0),
        SessionsComplete := Num(0), TotalTime := Num(0)]
  }

  /**
   * After installation blocking and the kill switch are on and the three
   * counters read 0, whatever was stored before; the lock keys are untouched.
   */
  lemma InstallSeeds(s: Record)
    ensures Truthy(Lookup(s + InstallDefaults(), IsBlocking))
    ensures Coalesce(Lookup(s + InstallDefaults(), OverrideEnabled), Bool(false)) == Bool(true)
    ensures OrZero(Lookup(s + InstallDefaults(), VectorsBlocked)) == 0
    ensures OrZero(Lookup(s + InstallDefaults(), SessionsComplete)) == 0
    ensures OrZero(Lookup(s + InstallDefaults(), TotalTime)) == 0
    ensures forall k :: k !in InstallDefaults() ==> Lookup(s + InstallDefaults(), k) == Lookup(s, k)
  {
  }

  /** onInstalled. */
  method OnInstalled(store: LocalStore)
    modifies store
    ensures store.data == old(store.data) + InstallDefaults()
  {
    store.Set(InstallDefaults());
  }

  /** The getStatus answer: the stored kill switch, on when it is missing or null. */
  function StatusOf(s: Record): (r: Response)
    ensures r.Status?
    ensures OverrideEnabled !in s || s[OverrideEnabled] == Null ==> r.enabled == Bool(true)
    ensures OverrideEnabled in s && s[OverrideEnabled] != Null ==> r.enabled == s[OverrideEnabled]
  {
    Status(Coalesce(Lookup(s, OverrideEnabled), Bool(true)))
  }

  /** The alarm table after startTimer: exactly one focusTimer, firing at endTime. */
  function Rearmed(t: map<string, int>, endTime: int): (r: map<string, int>)
    ensures FocusTimer in r && r[FocusTimer] == endTime
    ensures forall name :: name != FocusTimer ==> (name in r <==> name in t)
    ensures forall name :: name != FocusTimer && name in t ==> r[name] == t[name]
  {
    (t - {FocusTimer})[FocusTimer := endTime]
  }

  /** A second startTimer replaces the first: only the latest end time is armed. */
  lemma RearmReplaces(t: map<string, int>, first: int, second: int)
    ensures Rearmed(Rearmed(t, first), second) == Rearmed(t, second)
  {
    var a := Rearmed(Rearmed(t, first), second);
    var b := Rearmed(t, second);
    assert a.Keys == b.Keys;
    assert forall name :: name in a ==> a[name] == b[name];
  }

  /**
   * The runtime message listener: getStatus is answered from the store,
   * startTimer re-arms focusTimer and answers success; every other message
   * goes unanswered.
   */
  method OnMessage(store: LocalStore, alarms: AlarmTable, msg: Message) returns (resp: Option<Response>)
    modifies alarms
    ensures msg.GetStatus? ==> resp == Some(StatusOf(store.data)) && alarms.table == old(alarms.table)
    ensures msg.StartTimer? ==> resp == Some(Success) && alarms.table == Rearmed(old(alarms.table), msg.endTime)
    ensures !msg.GetStatus? && !msg.StartTimer? ==> resp == None && alarms.table == old(alarms.table)
  {
    match msg
    case GetStatus =>
      resp := Some(StatusOf(store.data));
    case StartTimer(endTime) =>
      alarms.Clear(FocusTimer);
      alarms.Create(FocusTimer, endTime);
      resp := Some(Success);
    case _ =>
      resp := None;
  }

  /** What the store holds after an alarm named `name` fires. */
  function AlarmWrite(s: Record, name: string): (r: Record)
    ensures name == FocusTimer ==>
      Lookup(r, IsLocked) == Some(Bool(false)) && Lookup(r, LockEndTime) == Some(Null)
    ensures forall k :: k != IsLocked && k != LockEndTime ==> Lookup(r, k) == Lookup(s, k)
    ensures name != FocusTimer ==> r == s
  {
    if name == FocusTimer then ClearLock(s) else s
  }

  /**
   * onAlarm: the focus alarm ends the lock and tells the popup (the message
   * is dropped when no popup is open); any other alarm does nothing.
   */
  method OnAlarm(store: LocalStore, name: string) returns (sent: seq<Message>)
    modifies store
    ensures store.data == AlarmWrite(old(store.data), name)
    ensures name == FocusTimer ==> sent == [TimerComplete]
    ensures name != FocusTimer ==> sent == []
  {
    sent := [];
    if name == FocusTimer {
      store.Set(map[IsLocked := Bool(false), LockEndTime := Null]);
      sent := [TimerComplete];
    }
  }

  /** onStartup's test: a lock with an end time that is not after `now`. */
  predicate LockExpired(s: Record, now: int)
  {
    Truthy(Lookup(s, IsLocked)) && Truthy(Lookup(s, LockEndTime)) && ToNumber(s[LockEndTime]) <= now
  }

  /** What the store holds after onStartup at time `now`. */
  function StartupWrite(s: Record, now: int): (r: Record)
    ensures LockExpired(s, now) ==>
      Lookup(r, IsLocked) == Some(Bool(false)) && Lookup(r, LockEndTime) == Some(Null)
    ensures forall k :: k != IsLocked && k != LockEndTime ==> Lookup(r, k) == Lookup(s, k)
    ensures !LockExpired(s, now) ==> r == s
  {
    if LockExpired(s, now) then ClearLock(s) else s
  }

  /** onStartup. */
  method OnStartup(store: LocalStore, now: int)
    modifies store
    ensures store.data == StartupWrite(old(store.data), now)
  {
    var result := store.data;
    if Truthy(Lookup(result, IsLocked)) && Truthy(Lookup(result, LockEndTime)) {
      if ToNumber(result[LockEndTime]) <= now {
        store.Set(map[IsLocked := Bool(false), LockEndTime := Null]);
      }
    }
  }

  /** After the focus alarm has fired, a later startup finds no lock to clear. */
  lemma AlarmThenStartupQuiet(s: Record, now: int)
    ensures StartupWrite(AlarmWrite(s, FocusTimer), now) == AlarmWrite(s, FocusTimer)
  {
    assert !Truthy(Lookup(AlarmWrite(s, FocusTimer), IsLocked));
  }

  /** Startup clean-up is idempotent: a second startup at the same time changes nothing. */
  lemma StartupIdempotent(s: Record, now: int)
    ensures StartupWrite(StartupWrite(s, now), now) == StartupWrite(s, now)
  {
    if LockExpired(s, now) {
      assert !Truthy(Lookup(StartupWrite(s, now), IsLocked));
    }
  }
}

/**
 * The popup and the background worker decide independently whether a lock
 * has run out; they agree.
 */
module LockAgreement {
  import opened Wrappers
  import opened Store
  import opened Alarms
  import opened Popup
  import opened Background

  /**
   * On the same store and clock, the popup clears the lock on opening exactly
   * when the background clears it on startup; a lock ending exactly now is
   * expired for both.
   */
  lemma ExpiryAgrees(s: Record, now: int)
    ensures (HasLock(s) && !LockInFuture(s, now)) <==> LockExpired(s, now)
  {
  }

  /**
   * A session whose alarm fires while the popup is closed is never counted:
   * the alarm only ends the lock, and the popup opened afterwards finds no
   * lock and leaves sessionsComplete and totalTime as they were.
   */
  lemma AlarmWhileClosedUncounted(p: PanelState, now: int)
    ensures var q := AfterOpen(p.(store := AlarmWrite(p.store, FocusTimer)), now);
      && !HasLock(q.store)
      && Lookup(q.store, SessionsComplete) == Lookup(p.store, SessionsComplete)
      && Lookup(q.store, TotalTime) == Lookup(p.store, TotalTime)
  {
    var p' := p.(store := AlarmWrite(p.store, FocusTimer));
    OpenStore(p', now);
    assert !HasLock(p'.store);
  }

  /**
   * Opening the popup after startup or startup after opening the popup leaves
   * the same lock keys: both clear an expired lock and keep a live one.
   */
  lemma OpenAndStartupWriteAlike(p: PanelState, now: int)
    ensures Lookup(AfterOpen(p, now).store, IsLocked) == Lookup(StartupWrite(p.store, now), IsLocked)
    ensures Lookup(AfterOpen(p, now).store, LockEndTime) == Lookup(StartupWrite(p.store, now), LockEndTime)
  {
    var s := p.store;
    var shown := if IsBlocking in s then s else s[IsBlocking := Bool(true)];
    OpenStore(p, now);
    ExpiryAgrees(s, now);
    assert Lookup(shown, IsLocked) == Lookup(s, IsLocked) && Lookup(shown, LockEndTime) == Lookup(s, LockEndTime);
  }
}
