/**
 * The runtime messages exchanged by the three scripts. Sending is modelled by
 * returning the messages a handler sends; delivery is deliver-or-drop, so a
 * handler never learns whether anyone received them.
 */
module Messages {
  import opened Wrappers
  import opened Store

  datatype Message =
    | GetStatus
    | StartTimer(endTime: int)
    | UpdateState(isBlocking: bool)
    | UpdateStats(vectorsBlocked: Option<int>)
    | TimerComplete

  datatype Response =
    | Success
    | Status(enabled: Value)
}
