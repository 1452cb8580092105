/** The row of session dots under the timer: which are completed, which is active. */
module SessionDots {
  datatype DotState = Plain | Completed | Active

  /** The classes updateSessionDots gives dot `index`. */
  function DotClass(index: nat, activeIndex: int): DotState
  {
    if index < activeIndex then Completed
    else if index == activeIndex then Active
    else Plain
  }

  /** The states of all `count` dots after updateSessionDots(activeIndex). */
  function DotStates(count: nat, activeIndex: int): (r: seq<DotState>)
    ensures |r| == count
    ensures forall i :: 0 <= i < count ==>
      (r[i] == Completed <==> i < activeIndex) && (r[i] == Active <==> i == activeIndex)
  {
    seq(count, i requires 0 <= i < count => DotClass(i, activeIndex))
  }

  function CountOf(dots: seq<DotState>, st: DotState): nat
  {
    if dots == [] then 0
    else CountOf(dots[..|dots| - 1], st) + (if dots[|dots| - 1] == st then 1 else 0)
  }

  /**
   * With a non-negative active index, the first activeIndex dots (as many as
   * there are) are completed, and exactly one dot is active when the index
   * names a dot.
   */
  lemma {:induction false} DotCounts(count: nat, activeIndex: int)
    requires activeIndex >= 0
    ensures CountOf(DotStates(count, activeIndex), Completed) ==
      if activeIndex < count then activeIndex else count
    ensures CountOf(DotStates(count, activeIndex), Active) ==
      if activeIndex < count then 1 else 0
  {
    if count > 0 {
      var r := DotStates(count, activeIndex);
      assert r[..count - 1] == DotStates(count - 1, activeIndex);
      DotCounts(count - 1, activeIndex);
    }
  }

  /** The popup's four dots after `sessions` completed sessions (index sessions % 4). */
  lemma FourDots(sessions: nat)
    ensures CountOf(DotStates(4, sessions % 4), Active) == 1
    ensures CountOf(DotStates(4, sessions % 4), Completed) == sessions % 4
  {
    DotCounts(4, sessions % 4);
  }
}
