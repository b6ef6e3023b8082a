/**
 * The pure helpers of the list component: which half of a hovered item the
 * pointer is in, the insertion index that the hover predicts, and which
 * items show the "drop here" marker for a given source and target index.
 * Pointer and rectangle coordinates are exact reals.
 */
module Geometry {
  import opened Options

  datatype Position = Before | After

  datatype Direction = Vertical | Horizontal

  /** What `getBoundingClientRect` reports for the hovered item. */
  datatype Rect = Rect(top: real, left: real, width: real, height: real) {

    /** Leading edge of the rectangle along the layout axis. */
    function Start(direction: Direction): real {
      if direction == Vertical then top else left
    }

    /** Size of the rectangle along the layout axis. */
    function Extent(direction: Direction): real {
      if direction == Vertical then height else width
    }
  }

  /** `Math.max` on integers. */
  function Max(a: int, b: int): int {
    if a < b then b else a
  }

  /** The pointer coordinate on the layout axis. */
  function Along(direction: Direction, clientX: real, clientY: real): real {
    if direction == Vertical then clientY else clientX
  }

  /**
   * Marker on the leading side of item `index`. A target at or past the source
   * is compared with `index - 1` (the slot after `index - 1`), an earlier one
   * with `index` itself. Outside a drag, or before a target exists, no item
   * has the marker; the dragged item never has it, so neither does the
   * floating preview, which is rendered with the source's own index.
   */
  function ShouldInsertBefore(sourceIndex: Option<nat>, targetIndex: Option<nat>, index: nat): (r: bool)
    ensures r ==> sourceIndex.Some? && targetIndex.Some?
    ensures r ==> index != sourceIndex.value
  {
    if sourceIndex.None? || targetIndex.None? then false
    else if targetIndex.value >= sourceIndex.value then targetIndex.value == index - 1
    else targetIndex.value == index
  }

  /**
   * Marker on the trailing side of item `index`. Note the strict comparison
   * here against the non-strict one in `ShouldInsertBefore`. The same two
   * guarantees hold as for the leading-side marker.
   */
  function ShouldInsertAfter(sourceIndex: Option<nat>, targetIndex: Option<nat>, index: nat): (r: bool)
    ensures r ==> sourceIndex.Some? && targetIndex.Some?
    ensures r ==> index != sourceIndex.value
  {
    if sourceIndex.None? || targetIndex.None? then false
    else if targetIndex.value > sourceIndex.value then targetIndex.value == index
    else targetIndex.value == index + 1
  }

  /**
   * Before exactly when the pointer is strictly closer to the leading edge
   * of the rectangle than to its trailing edge, on the layout axis.
   */
  function CalculateInsertPosition(rect: Rect, clientX: real, clientY: real, direction: Direction): (p: Position)
    ensures var c := Along(direction, clientX, clientY);
      p == Before <==> c - rect.Start(direction) < rect.Start(direction) + rect.Extent(direction) - c
  {
    if direction == Vertical then
      if clientY < rect.top + rect.height / 2.0 then Before else After
    else
      if clientX < rect.left + rect.width / 2.0 then Before else After
  }

  /**
   * The slot, in the sequence without the dragged item, that a hover over
   * item `index` on the given side predicts. It always lies next to `index`.
   */
  function CalculationTargetIndex(position: Position, sourceIndex: nat, index: nat): (r: nat)
    ensures r == index || r + 1 == index || r == index + 1
    ensures sourceIndex != index ==>
      ((r == index) <==> ((sourceIndex < index) <==> position.After?))
  {
    if sourceIndex == index then index
    else if sourceIndex < index then
      if position == Before then Max(0, index - 1) else index
    else
      if position == Before then index else index + 1
  }

  /** Hovering the dragged item itself predicts its own slot. */
  lemma TargetIndexOnSelf(position: Position, index: nat)
    ensures CalculationTargetIndex(position, index, index) == index
  {
  }

  /** The four cases of the target index, spelled out. */
  lemma TargetIndexCases(position: Position, sourceIndex: nat, index: nat)
    ensures sourceIndex < index && position == Before ==> CalculationTargetIndex(position, sourceIndex, index) == index - 1
    ensures sourceIndex < index && position == After ==> CalculationTargetIndex(position, sourceIndex, index) == index
    ensures sourceIndex > index && position == Before ==> CalculationTargetIndex(position, sourceIndex, index) == index
    ensures sourceIndex > index && position == After ==> CalculationTargetIndex(position, sourceIndex, index) == index + 1
  {
  }

  /** With the source and the hovered item in a list of `n`, the target is a valid index. */
  lemma TargetIndexInRange(position: Position, sourceIndex: nat, index: nat, n: nat)
    requires sourceIndex < n && index < n
    ensures CalculationTargetIndex(position, sourceIndex, index) < n
  {
  }

  /** Over any other item, the two halves predict two adjacent slots, After the later one. */
  lemma TargetIndexHalvesAdjacent(sourceIndex: nat, index: nat)
    requires sourceIndex != index
    ensures CalculationTargetIndex(After, sourceIndex, index) == CalculationTargetIndex(Before, sourceIndex, index) + 1
  {
  }

  /** No item shows both markers. */
  lemma MarkersExclusive(sourceIndex: Option<nat>, targetIndex: Option<nat>, index: nat)
    ensures !(ShouldInsertBefore(sourceIndex, targetIndex, index) && ShouldInsertAfter(sourceIndex, targetIndex, index))
  {
  }

  /** The pointer exactly on the midpoint resolves to After. */
  lemma MidpointIsAfter(rect: Rect, clientX: real, clientY: real, direction: Direction)
    requires Along(direction, clientX, clientY) == rect.Start(direction) + rect.Extent(direction) / 2.0
    ensures CalculateInsertPosition(rect, clientX, clientY, direction) == After
  {
  }

  /** Moving the pointer towards the leading edge never turns Before into After. */
  lemma InsertPositionMonotone(rect: Rect, x1: real, y1: real, x2: real, y2: real, direction: Direction)
    requires Along(direction, x1, y1) <= Along(direction, x2, y2)
    requires CalculateInsertPosition(rect, x2, y2, direction) == Before
    ensures CalculateInsertPosition(rect, x1, y1, direction) == Before
  {
  }

  /** Only the coordinate on the layout axis matters. */
  lemma InsertPositionIgnoresCrossAxis(rect: Rect, x1: real, y1: real, x2: real, y2: real, direction: Direction)
    requires Along(direction, x1, y1) == Along(direction, x2, y2)
    ensures CalculateInsertPosition(rect, x1, y1, direction) == CalculateInsertPosition(rect, x2, y2, direction)
  {
  }
}
