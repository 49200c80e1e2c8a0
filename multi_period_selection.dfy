/**
 * The multi-period selection hook: a rectangle of calendar cells chosen by dragging or by a
 * click followed by a shift-click. The selection record is hook state that the mouse handlers
 * replace or update; every completed selection is reported to the caller's callback, and the
 * highlight test reads the record.
 *
 * Each handler is modelled as running on the state the previous one left, as it does when the
 * component re-renders between events.
 */
module MultiPeriodSelection {
  import opened Wrappers

  /** `Selection`; a coordinate is `None` while it is `null`. */
  datatype Selection = Selection(startDayIndex: Option<int>, startPeriod: Option<int>,
                                 endDayIndex: Option<int>, endPeriod: Option<int>,
                                 isDragging: bool, isShiftPressed: bool)

  const INITIAL: Selection := Selection(None, None, None, None, false, false)

  /** The arguments of one `onSelectionComplete` call. */
  datatype Range = Range(startDay: int, startPeriod: int, endDay: int, endPeriod: int)

  /** The parts of a mouse event the handlers read. */
  datatype MouseEvent = MouseEvent(button: int, shiftKey: bool)

  /** A coordinate is truthy: present and not 0. */
  predicate Truthy(x: Option<int>) {
    x.Some? && x.value != 0
  }

  function Min(a: int, b: int): int { if a <= b then a else b }
  function Max(a: int, b: int): int { if a <= b then b else a }

  /** `isInSelection`: with every coordinate truthy, the cell lies in the rectangle from the
      smaller to the larger day and from the smaller to the larger period. */
  function InSelection(s: Selection, dayIndex: int, period: int): bool {
    if !Truthy(s.startDayIndex) || !Truthy(s.endDayIndex) || !Truthy(s.startPeriod) || !Truthy(s.endPeriod) then false
    else
      var startDay := Min(s.startDayIndex.value, s.endDayIndex.value);
      var endDay := Max(s.startDayIndex.value, s.endDayIndex.value);
      var startPeriod := Min(s.startPeriod.value, s.endPeriod.value);
      var endPeriod := Max(s.startPeriod.value, s.endPeriod.value);
      dayIndex >= startDay && dayIndex <= endDay && period >= startPeriod && period <= endPeriod
  }

  /** `x` lies between `a` and `b`, whichever is larger. */
  predicate Between(x: int, a: int, b: int) {
    a <= x <= b || b <= x <= a
  }

  /** The highlight test is the inclusive rectangle spanned by the two corners, in either order,
      and never holds while a coordinate is missing or 0. */
  lemma InSelectionRectangle(s: Selection, dayIndex: int, period: int)
    ensures InSelection(s, dayIndex, period) <==>
      && Truthy(s.startDayIndex) && Truthy(s.endDayIndex) && Truthy(s.startPeriod) && Truthy(s.endPeriod)
      && Between(dayIndex, s.startDayIndex.value, s.endDayIndex.value)
      && Between(period, s.startPeriod.value, s.endPeriod.value)
  {
  }

  /** Which corner is the start does not matter. */
  lemma InSelectionSymmetric(s: Selection, dayIndex: int, period: int)
    ensures InSelection(s, dayIndex, period)
      == InSelection(s.(startDayIndex := s.endDayIndex, endDayIndex := s.startDayIndex,
                        startPeriod := s.endPeriod, endPeriod := s.startPeriod), dayIndex, period)
  {
    InSelectionRectangle(s, dayIndex, period);
    InSelectionRectangle(s.(startDayIndex := s.endDayIndex, endDayIndex := s.startDayIndex,
                            startPeriod := s.endPeriod, endPeriod := s.startPeriod), dayIndex, period);
  }

  /** Day index 0 is never highlighted while the stored day indices are non-negative, and once
      a corner stores day 0 or period 0 no cell is highlighted at all. */
  lemma ZeroNeverSelected(s: Selection, dayIndex: int, period: int)
    requires s.startDayIndex.Some? ==> s.startDayIndex.value >= 0
    requires s.endDayIndex.Some? ==> s.endDayIndex.value >= 0
    ensures !InSelection(s, 0, period)
    ensures Some(0) in [s.startDayIndex, s.endDayIndex, s.startPeriod, s.endPeriod] ==> !InSelection(s, dayIndex, period)
  {
    InSelectionRectangle(s, 0, period);
  }

  class SelectionHook {
    var selection: Selection
    /** The `onSelectionComplete` calls made so far, in order. */
    var completed: seq<Range>

    constructor()
      ensures selection == INITIAL && completed == []
    {
      selection := INITIAL;
      completed := [];
    }

    /** `isInSelection`. */
    predicate IsInSelection(dayIndex: int, period: int)
      reads this
    {
      InSelection(selection, dayIndex, period)
    }

    /** `handleMouseDown`: a left press starts a drag on the single cell; any other button is
        ignored. */
    method HandleMouseDown(dayIndex: int, period: int, event: MouseEvent)
      modifies this
      ensures event.button != 0 ==> selection == old(selection)
      ensures event.button == 0 ==>
        selection == Selection(Some(dayIndex), Some(period), Some(dayIndex), Some(period), true, event.shiftKey)
      ensures completed == old(completed)
    {
      if event.button != 0 {
        return;
      }
      selection := Selection(Some(dayIndex), Some(period), Some(dayIndex), Some(period), true, event.shiftKey);
    }

    /** `handleMouseEnter`: while dragging, the entered cell becomes the end corner. */
    method HandleMouseEnter(dayIndex: int, period: int)
      modifies this
      ensures old(selection).isDragging ==>
        selection == old(selection).(endDayIndex := Some(dayIndex), endPeriod := Some(period))
      ensures !old(selection).isDragging ==> selection == old(selection)
      ensures completed == old(completed)
    {
      if selection.isDragging {
        selection := selection.(endDayIndex := Some(dayIndex), endPeriod := Some(period));
      }
    }

    /** `handleMouseUp`: a drag with both corners set is reported once; the drag ends in every
        case and the corners stay. */
    method HandleMouseUp()
      modifies this
      ensures selection == old(selection).(isDragging := false)
      ensures var s := old(selection);
        if s.isDragging && s.startDayIndex.Some? && s.endDayIndex.Some? && s.startPeriod.Some? && s.endPeriod.Some?
        then completed == old(completed) + [Range(s.startDayIndex.value, s.startPeriod.value,
                                                  s.endDayIndex.value, s.endPeriod.value)]
        else completed == old(completed)
    {
      if selection.isDragging && selection.startDayIndex.Some? && selection.endDayIndex.Some?
         && selection.startPeriod.Some? && selection.endPeriod.Some? {
        completed := completed + [Range(selection.startDayIndex.value, selection.startPeriod.value,
                                        selection.endDayIndex.value, selection.endPeriod.value)];
      }
      selection := selection.(isDragging := false);
    }

    /** `handleClick`: a shift-click with a start corner extends the selection to the clicked cell
        and reports the range from the start; any other click selects the clicked cell alone and
        reports it. Either way exactly one range is reported. */
    method HandleClick(dayIndex: int, period: int, event: MouseEvent)
      modifies this
      ensures var s := old(selection);
        event.shiftKey && s.startDayIndex.Some? && s.startPeriod.Some? ==>
          && selection == s.(endDayIndex := Some(dayIndex), endPeriod := Some(period), isShiftPressed := true)
          && completed == old(completed) + [Range(s.startDayIndex.value, s.startPeriod.value, dayIndex, period)]
      ensures var s := old(selection);
        !(event.shiftKey && s.startDayIndex.Some? && s.startPeriod.Some?) ==>
          && selection == Selection(Some(dayIndex), Some(period), Some(dayIndex), Some(period), false, event.shiftKey)
          && completed == old(completed) + [Range(dayIndex, period, dayIndex, period)]
    {
      if event.shiftKey && selection.startDayIndex.Some? && selection.startPeriod.Some? {
        var start := Range(selection.startDayIndex.value, selection.startPeriod.value, dayIndex, period);
        selection := selection.(endDayIndex := Some(dayIndex), endPeriod := Some(period), isShiftPressed := true);
        completed := completed + [start];
      } else {
        selection := Selection(Some(dayIndex), Some(period), Some(dayIndex), Some(period), false, event.shiftKey);
        completed := completed + [Range(dayIndex, period, dayIndex, period)];
      }
    }
  }

  // ---------------------------------------------------------------- interaction sequences

  /** A click followed by a shift-click reports the single cell and then the range from the
      first cell to the second. */
  method ClickThenShiftClick(d1: int, p1: int, d2: int, p2: int) returns (completed: seq<Range>)
    ensures completed == [Range(d1, p1, d1, p1), Range(d1, p1, d2, p2)]
  {
    var hook := new SelectionHook();
    hook.HandleClick(d1, p1, MouseEvent(0, false));
    hook.HandleClick(d2, p2, MouseEvent(0, true));
    completed := hook.completed;
  }

  /** Pressing on one cell, entering another and releasing reports the rectangle between them
      once; the drag is over afterwards. */
  method DragBetween(d1: int, p1: int, d2: int, p2: int) returns (completed: seq<Range>, dragging: bool)
    ensures completed == [Range(d1, p1, d2, p2)]
    ensures !dragging
  {
    var hook := new SelectionHook();
    hook.HandleMouseDown(d1, p1, MouseEvent(0, false));
    hook.HandleMouseEnter(d2, p2);
    hook.HandleMouseUp();
    completed := hook.completed;
    dragging := hook.selection.isDragging;
  }

  /** While dragging from `(d1, p1)` to `(d2, p2)`, with no coordinate 0, exactly the cells of the
      rectangle between them are highlighted, in whichever direction the drag went. */
  method DragHighlights(d1: int, p1: int, d2: int, p2: int, day: int, period: int) returns (highlighted: bool)
    requires d1 != 0 && p1 != 0 && d2 != 0 && p2 != 0
    ensures highlighted <==> Between(day, d1, d2) && Between(period, p1, p2)
  {
    var hook := new SelectionHook();
    hook.HandleMouseDown(d1, p1, MouseEvent(0, false));
    hook.HandleMouseEnter(d2, p2);
    highlighted := InSelection(hook.selection, day, period);
    InSelectionRectangle(hook.selection, day, period);
  }

  /** A press with another button than the left one leaves the fresh state: nothing is selected
      and a mouse-up reports nothing. */
  method OtherButtonIgnored(dayIndex: int, period: int, button: int) returns (completed: seq<Range>, highlighted: bool)
    requires button != 0
    ensures completed == [] && !highlighted
  {
    var hook := new SelectionHook();
    hook.HandleMouseDown(dayIndex, period, MouseEvent(button, false));
    hook.HandleMouseUp();
    completed := hook.completed;
    highlighted := InSelection(hook.selection, dayIndex, period);
  }
}
