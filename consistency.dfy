/**
 * The classifier and the markers agree with the reorder the consumer
 * applies: the predicted target puts the dragged item right beside the
 * hovered one, and a marker is drawn exactly on the items that border the
 * dragged item's landing slot.
 */
module Consistency {
  import opened Options
  import opened Geometry
  import opened Reorder

  /**
   * Dropping with the target that a hover over item `index` predicts lands
   * the dragged item at the target, with the hovered item right behind it
   * for Before and right ahead of it for After.
   */
  lemma TargetPlacesBesideHovered<T>(items: seq<T>, position: Position, sourceIndex: nat, index: nat)
    requires sourceIndex < |items| && index < |items| && sourceIndex != index
    ensures var target := CalculationTargetIndex(position, sourceIndex, index);
      var moved := Move(items, sourceIndex, target);
      target < |items| && |moved| == |items| && moved[target] == items[sourceIndex] &&
      (position == Before ==> target + 1 < |items| && moved[target + 1] == items[index]) &&
      (position == After ==> 1 <= target && moved[target - 1] == items[index])
  {
    var target := CalculationTargetIndex(position, sourceIndex, index);
    TargetIndexInRange(position, sourceIndex, index, |items|);
    MoveLands(items, sourceIndex, target);
    if position == Before {
      MoveAt(items, sourceIndex, target, target + 1);
    } else {
      MoveAt(items, sourceIndex, target, target - 1);
    }
  }

  /**
   * The leading-side marker sits exactly on the item that ends up right
   * after the dragged item once the drop is applied.
   */
  lemma BeforeMarkerBordersLanding<T>(items: seq<T>, sourceIndex: nat, targetIndex: nat, index: nat)
    requires sourceIndex < |items| && targetIndex < |items| && index < |items|
    ensures ShouldInsertBefore(Some(sourceIndex), Some(targetIndex), index) <==>
      targetIndex + 1 < |items| && index == Origin(sourceIndex, targetIndex, targetIndex + 1)
    ensures ShouldInsertBefore(Some(sourceIndex), Some(targetIndex), index) ==>
      Move(items, sourceIndex, targetIndex)[targetIndex + 1] == items[index]
  {
    if ShouldInsertBefore(Some(sourceIndex), Some(targetIndex), index) {
      MoveAt(items, sourceIndex, targetIndex, targetIndex + 1);
    }
  }

  /**
   * The trailing-side marker sits exactly on the item that ends up right
   * before the dragged item once the drop is applied.
   */
  lemma AfterMarkerBordersLanding<T>(items: seq<T>, sourceIndex: nat, targetIndex: nat, index: nat)
    requires sourceIndex < |items| && targetIndex < |items| && index < |items|
    ensures ShouldInsertAfter(Some(sourceIndex), Some(targetIndex), index) <==>
      1 <= targetIndex && index == Origin(sourceIndex, targetIndex, targetIndex - 1)
    ensures ShouldInsertAfter(Some(sourceIndex), Some(targetIndex), index) ==>
      Move(items, sourceIndex, targetIndex)[targetIndex - 1] == items[index]
  {
    if ShouldInsertAfter(Some(sourceIndex), Some(targetIndex), index) {
      MoveAt(items, sourceIndex, targetIndex, targetIndex - 1);
    }
  }
}
