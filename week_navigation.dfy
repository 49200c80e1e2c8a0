/**
 * The week pager of the generated-schedule view: four buttons that propose a new week to the
 * parent, which stores it as `currentWeek`.
 */
module WeekNavigation {
  import opened Wrappers

  /** "Previous": one week back, proposed only after week 1. */
  function PreviousWeek(current: int): (r: Option<int>)
    ensures r.Some? <==> current > 1
    ensures r.Some? ==> r.value == current - 1
  {
    if current > 1 then Some(current - 1) else None
  }

  /** "Next": one week on, proposed only before the last week. */
  function NextWeek(current: int, total: int): (r: Option<int>)
    ensures r.Some? <==> current < total
    ensures r.Some? ==> r.value == current + 1
  {
    if current < total then Some(current + 1) else None
  }

  /** "First" always proposes week 1 and "Last" the total; both buttons, like "Previous" and
      "Next", are rendered disabled at the corresponding end. */
  datatype NavButton = First | Previous | Next | Last

  /** The week a button proposes, if any. */
  function Proposed(b: NavButton, current: int, total: int): (r: Option<int>)
    ensures b == First ==> r == Some(1)
    ensures b == Last ==> r == Some(total)
  {
    match b
    case First => Some(1)
    case Previous => PreviousWeek(current)
    case Next => NextWeek(current, total)
    case Last => Some(total)
  }

  /** The `disabled` attribute of a button. */
  predicate Disabled(b: NavButton, current: int, total: int) {
    match b
    case First => current <= 1
    case Previous => current <= 1
    case Next => current >= total
    case Last => current >= total
  }

  /** The parent's `currentWeek` after a click: the proposal, or unchanged without one. */
  function Click(b: NavButton, current: int, total: int): (w: int)
    ensures 1 <= current <= total ==> 1 <= w <= total
  {
    Proposed(b, current, total).GetOr(current)
  }

  /** The week after a sequence of clicks, starting from `current`. */
  function Clicks(bs: seq<NavButton>, current: int, total: int): (w: int)
    ensures 1 <= current <= total ==> 1 <= w <= total
  {
    if bs == [] then current else Clicks(bs[1..], Click(bs[0], current, total), total)
  }

  /** An enabled "Previous" or "Next" moves by exactly one week; a disabled one does nothing. */
  lemma StepButtons(current: int, total: int)
    ensures !Disabled(Previous, current, total) ==> Click(Previous, current, total) == current - 1
    ensures Disabled(Previous, current, total) ==> Click(Previous, current, total) == current
    ensures !Disabled(Next, current, total) ==> Click(Next, current, total) == current + 1
    ensures Disabled(Next, current, total) ==> Click(Next, current, total) == current
  {
  }
}
