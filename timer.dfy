/** The time left on the most recently started dialog timer. */
module Timer {
  import opened JsValues

  /** `getTimerLeft` at time `now`, for the recorded end time `timerEnd`:
      nothing while no timer has been started (an end time of 0 counts as
      none), otherwise the milliseconds left, never below zero. */
  function TimerLeft(timerEnd: Option<int>, now: int): (left: Option<int>)
    ensures left.None? <==> timerEnd.None? || timerEnd.value == 0
    ensures left.Some? ==> left.value >= 0 && left.value >= timerEnd.value - now
    ensures left.Some? ==> (left.value == 0 <==> timerEnd.value <= now)
    ensures left.Some? && left.value > 0 ==> left.value == timerEnd.value - now
  {
    if timerEnd.None? || timerEnd.value == 0 then None
    else if timerEnd.value - now > 0 then Some(timerEnd.value - now)
    else Some(0)
  }

  /** As time passes the time left never grows, and it shrinks by the time
      passed until it reaches zero. */
  lemma TimerLeftNonIncreasing(timerEnd: Option<int>, now: int, later: int)
    requires now <= later
    requires TimerLeft(timerEnd, now).Some?
    ensures TimerLeft(timerEnd, later).Some?
    ensures TimerLeft(timerEnd, later).value <= TimerLeft(timerEnd, now).value
    ensures TimerLeft(timerEnd, later).value > 0 ==>
              TimerLeft(timerEnd, later).value == TimerLeft(timerEnd, now).value - (later - now)
  {
  }
}
