/**
 * The `SortableList` component's interaction state: the `sourceIndex`,
 * `hoveredItem` and `targetIndex` state cells (plus the preview's pointer
 * and size cells written on touch start) and the per-item event handlers
 * that overwrite them. A handler that ends a drag returns the
 * `onSort(sourceIndex, targetIndex)` call it makes, if any.
 */
module SortableListComponent {
  import opened Options
  import opened Geometry

  /** The flags handed to the consumer's render callback for one item. */
  datatype ItemFlags = ItemFlags(
    isDragItemInsertBefore: bool,
    isDragItemInsertAfter: bool,
    isDragged: bool,
    isHovered: bool)

  predicate InRange(o: Option<nat>, n: nat) {
    o.None? || o.value < n
  }

  class SortableList {
    /** `items.length` and the `direction` prop (default vertical). */
    const itemCount: nat
    const direction: Direction

    var sourceIndex: Option<nat>
    var hoveredItem: Option<nat>
    var targetIndex: Option<nat>
    var pointer: (real, real)
    var draggableSize: (real, real)

    /** Every index names an item, and a target exists only during a drag. */
    ghost predicate Valid()
      reads this
    {
      InRange(sourceIndex, itemCount) && InRange(hoveredItem, itemCount) && InRange(targetIndex, itemCount) &&
      (targetIndex.Some? ==> sourceIndex.Some?)
    }

    constructor (itemCount: nat, direction: Direction)
      ensures Valid()
      ensures this.itemCount == itemCount && this.direction == direction
      ensures sourceIndex.None? && hoveredItem.None? && targetIndex.None?
      ensures pointer == (0.0, 0.0) && draggableSize == (0.0, 0.0)
    {
      this.itemCount := itemCount;
      this.direction := direction;
      sourceIndex, hoveredItem, targetIndex := None, None, None;
      pointer, draggableSize := (0.0, 0.0), (0.0, 0.0);
    }

    /**
     * What item `index` is rendered with. No item carries both markers, and
     * the dragged item carries none.
     */
    function Flags(index: nat): (f: ItemFlags)
      reads this
      ensures !(f.isDragItemInsertBefore && f.isDragItemInsertAfter)
      ensures f.isDragged ==> !f.isDragItemInsertBefore && !f.isDragItemInsertAfter
      ensures f.isDragItemInsertBefore || f.isDragItemInsertAfter ==> sourceIndex.Some? && targetIndex.Some?
    {
      MarkersExclusive(sourceIndex, targetIndex, index);
      ItemFlags(
        ShouldInsertBefore(sourceIndex, targetIndex, index),
        ShouldInsertAfter(sourceIndex, targetIndex, index),
        sourceIndex == Some(index),
        hoveredItem == Some(index))
    }

    /** `onDragStart`: the item becomes the source; nothing else changes. */
    method DragStart(index: nat)
      requires Valid() && index < itemCount
      modifies this
      ensures Valid()
      ensures sourceIndex == Some(index)
      ensures hoveredItem == old(hoveredItem) && targetIndex == old(targetIndex)
      ensures pointer == old(pointer) && draggableSize == old(draggableSize)
    {
      sourceIndex := Some(index);
    }

    /** `onDragEnter`: the item becomes the hovered one, with or without a drag. */
    method DragEnter(index: nat)
      requires Valid() && index < itemCount
      modifies this
      ensures Valid()
      ensures hoveredItem == Some(index)
      ensures sourceIndex == old(sourceIndex) && targetIndex == old(targetIndex)
      ensures pointer == old(pointer) && draggableSize == old(draggableSize)
    {
      hoveredItem := Some(index);
    }

    /**
     * `onDragOver` item `index`, whose bounding rectangle is `rect`, with the
     * pointer at (`clientX`, `clientY`). Outside a drag nothing changes;
     * during one the target becomes the slot the classifier predicts.
     */
    method DragOver(index: nat, rect: Rect, clientX: real, clientY: real)
      requires Valid() && index < itemCount
      modifies this
      ensures Valid()
      ensures old(sourceIndex).None? ==> targetIndex == old(targetIndex)
      ensures old(sourceIndex).Some? ==> targetIndex == Some(CalculationTargetIndex(
        CalculateInsertPosition(rect, clientX, clientY, direction), old(sourceIndex).value, index))
      ensures sourceIndex == old(sourceIndex) && hoveredItem == old(hoveredItem)
      ensures pointer == old(pointer) && draggableSize == old(draggableSize)
    {
      if sourceIndex.None? {
        return;
      }
      var position := CalculateInsertPosition(rect, clientX, clientY, direction);
      var target := CalculationTargetIndex(position, sourceIndex.value, index);
      TargetIndexInRange(position, sourceIndex.value, index, itemCount);
      targetIndex := Some(target);
    }

    /**
     * Ends a drag: reports `(sourceIndex, targetIndex)` when both are set,
     * then clears all three cells whether or not it reported.
     */
    method Release() returns (commit: Option<(nat, nat)>)
      requires Valid()
      modifies this
      ensures Valid()
      ensures commit == if old(sourceIndex).Some? && old(targetIndex).Some?
        then Some((old(sourceIndex).value, old(targetIndex).value)) else None
      ensures commit.Some? ==> commit.value.0 < itemCount && commit.value.1 < itemCount
      ensures sourceIndex.None? && hoveredItem.None? && targetIndex.None?
      ensures pointer == old(pointer) && draggableSize == old(draggableSize)
    {
      commit := None;
      if sourceIndex.Some? && targetIndex.Some? {
        commit := Some((sourceIndex.value, targetIndex.value));
      }
      targetIndex := None;
      sourceIndex := None;
      hoveredItem := None;
    }

    /** `onDragEnd`. */
    method DragEnd() returns (commit: Option<(nat, nat)>)
      requires Valid()
      modifies this
      ensures Valid()
      ensures commit == if old(sourceIndex).Some? && old(targetIndex).Some?
        then Some((old(sourceIndex).value, old(targetIndex).value)) else None
      ensures commit.Some? ==> commit.value.0 < itemCount && commit.value.1 < itemCount
      ensures sourceIndex.None? && hoveredItem.None? && targetIndex.None?
      ensures pointer == old(pointer) && draggableSize == old(draggableSize)
    {
      commit := Release();
    }

    /**
     * `onTouchStart` on item `index` of size `width` by `height` with the
     * touch at (`clientX`, `clientY`): the item becomes both the source and
     * the hovered one, so it alone is rendered as dragged and as hovered.
     */
    method TouchStart(index: nat, clientX: real, clientY: real, width: real, height: real)
      requires Valid() && index < itemCount
      modifies this
      ensures Valid()
      ensures sourceIndex == Some(index) && hoveredItem == Some(index)
      ensures targetIndex == old(targetIndex)
      ensures draggableSize == (width, height) && pointer == (clientX, clientY)
      ensures forall j: nat :: Flags(j).isDragged <==> j == index
      ensures forall j: nat :: Flags(j).isHovered <==> j == index
    {
      draggableSize := (width, height);
      pointer := (clientX, clientY);
      sourceIndex := Some(index);
      hoveredItem := Some(index);
    }

    /** `onTouchEnd`. */
    method TouchEnd() returns (commit: Option<(nat, nat)>)
      requires Valid()
      modifies this
      ensures Valid()
      ensures commit == if old(sourceIndex).Some? && old(targetIndex).Some?
        then Some((old(sourceIndex).value, old(targetIndex).value)) else None
      ensures commit.Some? ==> commit.value.0 < itemCount && commit.value.1 < itemCount
      ensures sourceIndex.None? && hoveredItem.None? && targetIndex.None?
      ensures pointer == old(pointer) && draggableSize == old(draggableSize)
    {
      commit := Release();
    }

    /**
     * `onTouchMove`, where `hit` is the index that hit-testing the touch
     * point found (`None` when it found no item). Outside a drag nothing
     * changes; during one the hit becomes the target as it is, `None`
     * included, without going through the classifier.
     */
    method TouchMove(hit: Option<nat>)
      requires Valid() && InRange(hit, itemCount)
      modifies this
      ensures Valid()
      ensures targetIndex == if old(sourceIndex).None? then old(targetIndex) else hit
      ensures sourceIndex == old(sourceIndex) && hoveredItem == old(hoveredItem)
      ensures pointer == old(pointer) && draggableSize == old(draggableSize)
    {
      if sourceIndex.None? {
        return;
      }
      targetIndex := hit;
    }
  }
}
