/**
 * Whole drags on the five-item list A..E, from the first event to the
 * consumer's new state, checked against the component's and the handler's
 * contracts alone.
 */
module Scenarios {
  import opened Options
  import opened Geometry
  import opened Reorder
  import opened SortableListComponent
  import opened SortHandler

  /** Mouse drag of A over the lower half of D: A lands after D. */
  method DragFirstBelowFourth() {
    var list := new SortableList(5, Vertical);
    var items := new char[] ['A', 'B', 'C', 'D', 'E'];
    var state := new ItemsState(items);
    list.DragStart(0);
    list.DragEnter(3);
    list.DragOver(3, Rect(30.0, 0.0, 100.0, 10.0), 50.0, 37.0);
    assert list.targetIndex == Some(3);
    var commit := list.DragEnd();
    assert commit == Some((0, 3));
    state.HandleSort(0, 3);
    assert state.items[..] == ['B', 'C', 'D', 'A', 'E'];
  }

  /** Mouse drag of D over the upper half of B: D lands before B. */
  method DragFourthAboveSecond() {
    var list := new SortableList(5, Vertical);
    var items := new char[] ['A', 'B', 'C', 'D', 'E'];
    var state := new ItemsState(items);
    list.DragStart(3);
    list.DragEnter(1);
    list.DragOver(1, Rect(10.0, 0.0, 100.0, 10.0), 50.0, 12.0);
    assert list.targetIndex == Some(1);
    var commit := list.DragEnd();
    assert commit == Some((3, 1));
    state.HandleSort(3, 1);
    assert state.items[..] == ['A', 'D', 'B', 'C', 'E'];
  }

  /** A touch drag released before any hover reached a target commits nothing. */
  method TouchReleasedWithoutTarget() {
    var list := new SortableList(5, Horizontal);
    list.TouchStart(2, 0.0, 0.0, 40.0, 20.0);
    var commit := list.TouchEnd();
    assert commit == None;
  }

  /** A touch drag whose last hit-test found no item loses its target. */
  method TouchLastMoveOffList() {
    var list := new SortableList(5, Vertical);
    list.TouchStart(1, 0.0, 0.0, 40.0, 20.0);
    list.TouchMove(Some(4));
    list.TouchMove(None);
    var commit := list.TouchEnd();
    assert commit == None;
  }
}
