/** Option, for values that may be absent (a missing store key, a NaN). */
module Wrappers {
  datatype Option<+T> = None | Some(value: T)
}

/**
 * The extension's persistent key/value record (chrome.storage.local) and the
 * JavaScript coercions the three scripts apply to what they read from it.
 */
module Store {
  import opened Wrappers

  /** What the scripts write: booleans, integer numbers (ms timestamps, counters) and null. */
  datatype Value = Bool(b: bool) | Num(n: int) | Null

  /**
   * The keys the scripts read and write: isBlocking, overrideEnabled,
   * vectorsBlocked, sessionsComplete, totalTime, isLocked, lockEndTime,
   * startTime, selectedDuration and sessionStart.
   */
  datatype Key =
    | IsBlocking | OverrideEnabled | VectorsBlocked | SessionsComplete | TotalTime
    | IsLocked | LockEndTime | StartTime | SelectedDuration | SessionStart

  type Record = map<Key, Value>

  /** `result.key` after `get`: undefined (None) when the key was never written. */
  function Lookup(s: Record, key: Key): Option<Value>
  {
    if key in s then Some(s[key]) else None
  }

  /** JavaScript truthiness; undefined, null, false and 0 are falsy. */
  predicate Truthy(v: Option<Value>)
  {
    match v
    case None => false
    case Some(Bool(b)) => b
    case Some(Num(n)) => n != 0
    case Some(Null) => false
  }

  /** JavaScript's numeric coercion of a stored value (true is 1, false and null are 0). */
  function ToNumber(v: Value): int
  {
    match v
    case Bool(b) => if b then 1 else 0
    case Num(n) => n
    case Null => 0
  }

  /** `(v || 0)` used as a number. */
  function OrZero(v: Option<Value>): (r: int)
    ensures !Truthy(v) ==> r == 0
    ensures v.Some? && v.value.Num? ==> r == v.value.n
    ensures v == Some(Bool(true)) ==> r == 1
  {
    if Truthy(v) then ToNumber(v.value) else 0
  }

  /** `v ?? fallback`: the fallback only for undefined and null. */
  function Coalesce(v: Option<Value>, fallback: Value): (r: Value)
    ensures v.Some? && v.value != Null ==> r == v.value
    ensures v == None || v == Some(Null) ==> r == fallback
  {
    if v.Some? && v.value != Null then v.value else fallback
  }

  /** The write `{ isLocked: false, lockEndTime: null }` that every script uses to end a lock. */
  function ClearLock(s: Record): (r: Record)
    ensures Lookup(r, IsLocked) == Some(Bool(false)) && Lookup(r, LockEndTime) == Some(Null)
    ensures forall k :: k != IsLocked && k != LockEndTime ==> Lookup(r, k) == Lookup(s, k)
  {
    s + map[IsLocked := Bool(false), LockEndTime := Null]
  }

  /** chrome.storage.local, shared by the background worker, the popup and the page script. */
  class LocalStore {
    var data: Record

    constructor (initial: Record)
      ensures data == initial
    {
      data := initial;
    }

    /** `set(items)`: the written keys take the new values, every other key keeps its value. */
    method Set(items: Record)
      modifies this
      ensures data == old(data) + items
    {
      data := data + items;
    }
  }
}
