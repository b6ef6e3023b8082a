/**
 * The reorder that a consumer of the list applies when the list calls back
 * with `onSort(sourceIndex, targetIndex)`: remove the element at the source
 * index, then insert it at the target index of the shortened sequence.
 * `Remove` and `Insert` are the two `Array.prototype.splice` calls it uses,
 * with their semantics for a start index past the end.
 */
module Reorder {

  function Min(a: nat, b: nat): nat {
    if a < b then a else b
  }

  /** `items.splice(i, 1)`: drops the element at `i`; a start past the end drops nothing. */
  function Remove<T>(s: seq<T>, i: nat): (r: seq<T>)
    ensures |r| == if i < |s| then |s| - 1 else |s|
    ensures forall k :: 0 <= k < |r| ==> r[k] == if k < i then s[k] else s[k + 1]
  {
    if i < |s| then s[..i] + s[i + 1..] else s
  }

  /** `items.splice(i, 0, x)`: puts `x` at `i`; a start past the end appends. */
  function Insert<T>(s: seq<T>, i: nat, x: T): (r: seq<T>)
    ensures |r| == |s| + 1
    ensures r[Min(i, |s|)] == x
    ensures forall k :: 0 <= k < |r| ==>
      r[k] == if k < Min(i, |s|) then s[k] else if k == Min(i, |s|) then x else s[k - 1]
  {
    var p := Min(i, |s|);
    s[..p] + [x] + s[p..]
  }

  /**
   * The element at `source` moved to slot `target` of the sequence without
   * it: the length is kept, and the moved element is at the target slot
   * (at the end when the target is past it).
   */
  function Move<T>(s: seq<T>, source: nat, target: nat): (r: seq<T>)
    requires source < |s|
    ensures |r| == |s|
    ensures r[Min(target, |s| - 1)] == s[source]
  {
    Insert(Remove(s, source), target, s[source])
  }

  /**
   * Reference definition of the move as an index map: position `j` of the
   * result holds the element that was at `Origin(source, target, j)`.
   * Moving down shifts the elements in between one place up, moving up
   * shifts them one place down.
   */
  function Origin(source: nat, target: nat, j: nat): nat {
    if j == target then source
    else if source < target && source <= j < target then j + 1
    else if target < source && target < j <= source then j - 1
    else j
  }

  lemma OriginInRange(source: nat, target: nat, j: nat, n: nat)
    requires source < n && target < n && j < n
    ensures Origin(source, target, j) < n
  {
  }

  /** The index map of the opposite move undoes the index map. */
  lemma OriginInverse(source: nat, target: nat, j: nat)
    ensures Origin(source, target, Origin(target, source, j)) == j
  {
  }

  /** Every position of the moved sequence holds the element the index map names. */
  lemma MoveAt<T>(s: seq<T>, source: nat, target: nat, j: nat)
    requires source < |s| && target < |s| && j < |s|
    ensures |Move(s, source, target)| == |s|
    ensures Move(s, source, target)[j] == s[Origin(source, target, j)]
  {
  }

  /** The move matches the index map everywhere. */
  lemma MoveIsOrigin<T>(s: seq<T>, source: nat, target: nat)
    requires source < |s| && target < |s|
    ensures |Move(s, source, target)| == |s|
    ensures forall j :: 0 <= j < |s| ==> Move(s, source, target)[j] == s[Origin(source, target, j)]
  {
    forall j | 0 <= j < |s|
      ensures Move(s, source, target)[j] == s[Origin(source, target, j)]
    {
      MoveAt(s, source, target, j);
    }
  }

  /** The moved element lands exactly at the target slot. */
  lemma MoveLands<T>(s: seq<T>, source: nat, target: nat)
    requires source < |s| && target < |s|
    ensures |Move(s, source, target)| == |s|
    ensures Move(s, source, target)[target] == s[source]
  {
  }

  /** Moving an element onto its own slot changes nothing. */
  lemma MoveSameIndex<T>(s: seq<T>, i: nat)
    requires i < |s|
    ensures Move(s, i, i) == s
  {
    MoveIsOrigin(s, i, i);
  }

  /** Removing an in-range element takes exactly one copy of it out. */
  lemma RemoveMultiset<T>(s: seq<T>, i: nat)
    requires i < |s|
    ensures multiset(Remove(s, i)) + multiset{s[i]} == multiset(s)
  {
    assert s == s[..i] + [s[i]] + s[i + 1..];
  }

  /** Inserting adds exactly one copy of the inserted element. */
  lemma InsertMultiset<T>(s: seq<T>, i: nat, x: T)
    ensures multiset(Insert(s, i, x)) == multiset(s) + multiset{x}
  {
    var p := Min(i, |s|);
    assert s == s[..p] + s[p..];
  }

  /** The move keeps every element with its multiplicity, for any target. */
  lemma MovePermutation<T>(s: seq<T>, source: nat, target: nat)
    requires source < |s|
    ensures |Move(s, source, target)| == |s|
    ensures multiset(Move(s, source, target)) == multiset(s)
  {
    RemoveMultiset(s, source);
    InsertMultiset(Remove(s, source), target, s[source]);
  }

  /** All other elements keep their relative order. */
  lemma MoveKeepsOthers<T>(s: seq<T>, source: nat, target: nat)
    requires source < |s| && target < |s|
    ensures Remove(Move(s, source, target), target) == Remove(s, source)
  {
    var m := Move(s, source, target);
    MoveIsOrigin(s, source, target);
    var l, r := Remove(m, target), Remove(s, source);
    assert |l| == |r|;
    forall k | 0 <= k < |l| ensures l[k] == r[k] {
      if k < target {
        assert l[k] == s[Origin(source, target, k)];
      } else {
        assert l[k] == s[Origin(source, target, k + 1)];
      }
    }
  }

  /** Moving the element back from the target to the source restores the sequence. */
  lemma MoveUndo<T>(s: seq<T>, source: nat, target: nat)
    requires source < |s| && target < |s|
    ensures Move(Move(s, source, target), target, source) == s
  {
    var m := Move(s, source, target);
    MoveIsOrigin(s, source, target);
    MoveIsOrigin(m, target, source);
    forall j | 0 <= j < |s| ensures Move(m, target, source)[j] == s[j] {
      OriginInverse(source, target, j);
      OriginInRange(target, source, j, |s|);
    }
  }
}
