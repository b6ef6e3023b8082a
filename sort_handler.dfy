/**
 * The `onSort` handler that the list's consumers install: skip the update
 * when source and target coincide, otherwise copy the current items with
 * `slice()` and move one element with two in-place `splice` calls.
 * A JavaScript array is modelled as an `array` buffer with a separate
 * length; `splice` shifts the elements of the buffer in place.
 */
module SortHandler {
  import opened Reorder

  /** `items.splice(i, 1)` on the first `len` slots of `a`; returns the new length. */
  method SpliceRemove<T>(a: array<T>, len: nat, i: nat) returns (newLen: nat)
    requires len <= a.Length
    modifies a
    ensures newLen == if i < len then len - 1 else len
    ensures a[..newLen] == Remove(old(a[..len]), i)
  {
    if len <= i {
      return len;
    }
    var k := i;
    while k + 1 < len
      invariant i <= k < len
      invariant forall m :: 0 <= m < i ==> a[m] == old(a[m])
      invariant forall m :: i <= m < k ==> a[m] == old(a[m + 1])
      invariant forall m :: k < m < a.Length ==> a[m] == old(a[m])
    {
      a[k] := a[k + 1];
      k := k + 1;
    }
    newLen := len - 1;
    ghost var r := Remove(old(a[..len]), i);
    assert forall m :: 0 <= m < newLen ==> a[..newLen][m] == r[m];
  }

  /** `items.splice(i, 0, x)` on the first `len` slots of `a`; returns the new length. */
  method SpliceInsert<T>(a: array<T>, len: nat, i: nat, x: T) returns (newLen: nat)
    requires len < a.Length
    modifies a
    ensures newLen == len + 1
    ensures a[..newLen] == Insert(old(a[..len]), i, x)
  {
    var p := Min(i, len);
    var k := len;
    while k > p
      invariant p <= k <= len
      invariant forall m :: 0 <= m < k ==> a[m] == old(a[m])
      invariant forall m :: k < m <= len ==> a[m] == old(a[m - 1])
    {
      a[k] := a[k - 1];
      k := k - 1;
    }
    a[p] := x;
    newLen := len + 1;
    ghost var r := Insert(old(a[..len]), i, x);
    assert forall m :: 0 <= m < newLen ==> a[..newLen][m] == r[m];
  }

  /**
   * The updater handed to `setItems`: the element at `sourceIndex` moved to
   * `targetIndex`, computed on a fresh copy. Having no `modifies` clause,
   * it leaves `originItems` untouched.
   */
  method ApplySort<T>(originItems: array<T>, sourceIndex: nat, targetIndex: nat) returns (items: array<T>)
    requires sourceIndex < originItems.Length
    ensures fresh(items)
    ensures items[..] == Move(originItems[..], sourceIndex, targetIndex)
  {
    var n := originItems.Length;
    items := new T[n](k requires 0 <= k < n reads originItems => originItems[k]);
    ghost var copied := items[..];
    assert copied == originItems[..];
    var item := items[sourceIndex];
    var len := SpliceRemove(items, n, sourceIndex);
    ghost var removed := items[..len];
    assert removed == Remove(copied, sourceIndex);
    len := SpliceInsert(items, len, targetIndex, item);
    assert items[..len] == Insert(removed, targetIndex, item);
    assert items[..] == items[..len];
  }

  /** The `items` state cell of a consumer and its `onSort` handler. */
  class ItemsState<T> {
    var items: array<T>

    constructor (initial: array<T>)
      ensures items == initial
    {
      items := initial;
    }

    /**
     * Equal indices leave the state as it is (the same array); otherwise the
     * state becomes a new array holding the move of the old contents.
     */
    method HandleSort(sourceIndex: nat, targetIndex: nat)
      requires sourceIndex != targetIndex ==> sourceIndex < items.Length
      modifies this
      ensures sourceIndex == targetIndex ==> items == old(items)
      ensures sourceIndex != targetIndex ==> fresh(items)
      ensures sourceIndex != targetIndex ==> items[..] == Move(old(items[..]), sourceIndex, targetIndex)
      ensures old(items)[..] == old(items[..])
    {
      if sourceIndex == targetIndex {
        return;
      }
      items := ApplySort(items, sourceIndex, targetIndex);
    }
  }
}
