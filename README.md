# tiny-sortable-list, modelled in Dafny

A model of the `SortableList` React component of tiny-sortable-list and of
the reorder its consumers apply. The component renders a list of items,
lets the user pick one up with a mouse drag (native drag events) or a touch
drag, keeps three state cells (`sourceIndex`, `hoveredItem`, `targetIndex`)
while the drag goes on, and on release calls `onSort(sourceIndex,
targetIndex)`. The consumers in the demo story and the demo app answer that
call by copying the items array with `slice()` and moving one element with
two `splice` calls, unless the two indices are equal.

Files:

- `options.dfy` — `Option`, for the state cells that hold a number or `null`.
- `geometry.dfy` — module `Geometry`: the component's pure helpers
  (`shouldInsertBefore`, `shouldInsertAfter`, `calculateInsertPosition`,
  `calculationTargetIndex`) as functions, with their properties.
- `reorder.dfy` — module `Reorder`: `splice` removal and insertion on
  sequences, the move built from them, an index-map reference definition
  of the move (`Origin`) and the move's properties: length, permutation,
  landing slot, order of the other items, identity, undo.
- `sort_handler.dfy` — module `SortHandler`: the consumers' `onSort`
  handler; `splice` as in-place shifting loops on an array buffer, the
  updater that copies and moves (`ApplySort`), and the `items` state cell
  with the handler's equal-index guard (`ItemsState.HandleSort`).
- `sortable_list.dfy` — module `SortableListComponent`: the component's
  state cells and its event handlers, as class `SortableList`.
- `consistency.dfy` — module `Consistency`: the classifier's target and the
  markers agree with the move the consumer applies.
- `scenarios.dfy` — module `Scenarios`: whole drags on the list A..E, from
  first event to new items, checked against the contracts alone.

Pointer coordinates and rectangles are exact `real`s (the source uses
JavaScript numbers; no floating point is modelled). Indices are `nat`.
A JavaScript array that `splice` changes is an `array` buffer plus a
length; the handlers of the component are methods that read the current
state and update it in sequence.

## Model

| member | source | states |
|---|---|---|
| `Geometry.ShouldInsertBefore` | src/SortableList.tsx:28-36 | false whenever the source or the target is null (lines 29-31), and never true for the dragged item itself, so the preview rendered with the source index (lines 150-156) gets no marker |
| `Geometry.ShouldInsertAfter` | src/SortableList.tsx:38-46 | false whenever the source or the target is null (lines 39-41), and never true for the dragged item itself, so the preview rendered with the source index (lines 150-156) gets no marker |
| `Geometry.MarkersExclusive` | src/SortableList.tsx:32-45 | for every source, target and item, at most one of the two markers is true, despite `>=` in one helper and `>` in the other |
| `Geometry.CalculateInsertPosition` | src/SortableList.tsx:48-57 | Before exactly when the pointer, on the layout axis (Y for vertical, X for horizontal), is strictly nearer the item's leading edge than its trailing edge |
| `Geometry.MidpointIsAfter` | src/SortableList.tsx:52-56 | a pointer exactly on the midpoint resolves to After |
| `Geometry.InsertPositionMonotone` | src/SortableList.tsx:52-56 | moving the pointer towards the leading edge never turns Before into After |
| `Geometry.InsertPositionIgnoresCrossAxis` | src/SortableList.tsx:52-56 | the coordinate across the layout axis never changes the decision |
| `Geometry.CalculationTargetIndex` | src/SortableList.tsx:59-77 | the target lies next to or on the hovered index, and equals it exactly when dragging down and dropping after or dragging up and dropping before |
| `Geometry.TargetIndexOnSelf` | src/SortableList.tsx:60-62 | hovering the dragged item predicts its own index |
| `Geometry.TargetIndexCases` | src/SortableList.tsx:64-76 | source below hovered: Before gives index-1, After gives index; source above hovered: Before gives index, After gives index+1 |
| `Geometry.TargetIndexInRange` | src/SortableList.tsx:59-77 | with source and hovered index in [0, n) the target is in [0, n) |
| `Geometry.TargetIndexHalvesAdjacent` | src/SortableList.tsx:64-76 | over any other item the two halves predict adjacent slots, After the later one |
| `Reorder.Remove` | src/SortableList.stories.tsx:66 | `splice(i, 1)`: one element shorter when i is in range, every later element one place earlier; unchanged when i is past the end |
| `Reorder.Insert` | src/SortableList.stories.tsx:67 | `splice(i, 0, x)`: one element longer, x at i (at the end when i is past it), the elements from there one place later |
| `Reorder.RemoveMultiset` | src/SortableList.stories.tsx:66 | removal takes out exactly one copy of the removed element |
| `Reorder.InsertMultiset` | src/SortableList.stories.tsx:67 | insertion adds exactly one copy of the inserted element |
| `Reorder.Move` | src/App.tsx:59-62 | remove at the source then insert at the target of the shortened sequence, as at src/SortableList.stories.tsx:64-67; the length is kept and the moved element is at the target slot |
| `Reorder.MoveAt` | src/SortableList.stories.tsx:63-67 | each position of the moved sequence holds the element the index map `Origin` names, and the length is kept |
| `Reorder.MoveIsOrigin` | src/App.tsx:58-62 | the move equals the index-map reference definition at every position |
| `Reorder.MoveLands` | src/App.tsx:59-62 | the result holds the original source element at the target index |
| `Reorder.MovePermutation` | src/SortableList.stories.tsx:63-67 | the result has the input's length and multiset, for any target |
| `Reorder.MoveKeepsOthers` | src/App.tsx:61-62 | deleting the target position from the result gives the input without its source position: the other items keep their order |
| `Reorder.MoveSameIndex` | src/App.tsx:53-55 | a move onto the same index is the identity, so the early return is the same as applying the move |
| `Reorder.MoveUndo` | src/SortableList.stories.tsx:64-67 | moving the element back from target to source restores the input |
| `SortHandler.SpliceRemove` | src/SortableList.stories.tsx:66 | shifting in place leaves in the buffer's live prefix exactly `Remove` of the old prefix, with the new length |
| `SortHandler.SpliceInsert` | src/SortableList.stories.tsx:67 | shifting in place leaves in the buffer's live prefix exactly `Insert` of the old prefix, one longer |
| `SortHandler.ApplySort` | src/SortableList.stories.tsx:61-70 | the returned array is a new one (`fresh`) and holds the move of the old items; with no `modifies` clause the old array is left untouched (the `slice()` copy); the same updater is at src/App.tsx:57-65 |
| `SortHandler.ItemsState.constructor` | src/App.tsx:50 | the `items` state cell starts as the given array (`useState(preset)`; `useState(createPreset())` at src/SortableList.stories.tsx:83) |
| `SortHandler.ItemsState.HandleSort` | src/App.tsx:52-66 | equal indices keep the same array; otherwise the state becomes a new array holding the move of the old contents, and the old array's contents are unchanged; the story's `createSortHandler` at src/SortableList.stories.tsx:55-71 is the same handler |
| `SortableListComponent.SortableList.constructor` | src/SortableList.tsx:91-96 | all three index cells start null, pointer and size at (0, 0) |
| `SortableListComponent.SortableList.Flags` | src/SortableList.tsx:219-225 | no item is rendered with both markers, the dragged item with none, and markers only during a drag with a target |
| `SortableListComponent.SortableList.DragStart` | src/SortableList.tsx:165 | the item becomes the source; hover and target are left as they were |
| `SortableListComponent.SortableList.DragEnter` | src/SortableList.tsx:166 | the item becomes the hovered one, with or without a drag; nothing else changes |
| `SortableListComponent.SortableList.DragOver` | src/SortableList.tsx:167-178 | without a source nothing changes; with one the target becomes the classifier's prediction for the item under the pointer (the one the event fires on, not the `hoveredItem` cell) and the pointer's position, always a valid index |
| `SortableListComponent.SortableList.Release` | src/SortableList.tsx:182-188 | reports (source, target) exactly when both are set, always with valid indices, and afterwards all three cells are null |
| `SortableListComponent.SortableList.DragEnd` | src/SortableList.tsx:179-189 | at most one `onSort(source, target)`, exactly when both are set; then source, target and hover are null |
| `SortableListComponent.SortableList.TouchStart` | src/SortableList.tsx:190-199 | the item becomes source and hovered; afterwards exactly that item is rendered as dragged and exactly that item as hovered |
| `SortableListComponent.SortableList.TouchEnd` | src/SortableList.tsx:200-208 | at most one `onSort(source, target)`, exactly when both are set; then source, target and hover are null |
| `SortableListComponent.SortableList.TouchMove` | src/SortableList.tsx:209-217 | without a source nothing changes; with one the hit-test result becomes the target as it is, a null result included, bypassing the classifier |
| `Consistency.TargetPlacesBesideHovered` | src/SortableList.tsx:59-77 | applying the predicted target puts the dragged item at the target with the hovered item right after it (Before) or right before it (After) |
| `Consistency.BeforeMarkerBordersLanding` | src/SortableList.tsx:28-36 | the leading-side marker is on an item exactly when that item ends up right after the dropped item |
| `Consistency.AfterMarkerBordersLanding` | src/SortableList.tsx:38-46 | the trailing-side marker is on an item exactly when that item ends up right before the dropped item |

## Behaviour worth noting

- A touch move whose hit-test finds no item sets the target to null
  (src/SortableList.tsx:214-216), so a release straight after it commits
  nothing (`Scenarios.TouchLastMoveOffList`).
- Drag start sets only the source (src/SortableList.tsx:165); the hovered
  item is set by the next drag enter (line 166). Touch start sets both
  (lines 197-198).
- A start while a drag is in progress sets the source again but leaves an
  earlier target in place (lines 165, 197): only a drag end or touch end
  clears it.
- A touch target is the hit item's index, used as the target directly
  (line 216), not passed through `calculationTargetIndex`.
- `Math.max(0, index - 1)` (line 66) never clamps: that branch runs only
  when `index > sourceIndex >= 0`.

## Left out

- Rendering and JSX: the floating preview's placement arithmetic
  (`/10`, src/SortableList.tsx:146-147), `style`, `className`, `key`;
  only the flags passed to the render callback are modelled. For
  `draggable` see the next line.
- Document-level listeners: pointer-type detection and the `pointerType`
  cell (src/SortableList.tsx:95, 100-110), `selectstart` suppression,
  document-level touchmove pointer tracking, and `useDragPreventAnimation`.
  Most of these only call `preventDefault` or feed the preview, but
  `pointerType` also decides `draggable` (line 163), so native drag events
  happen only after a mouse pointerdown. The model allows the drag and
  touch handlers in any order, which covers every sequence the component
  can receive.
- DOM hit-testing: `getTargetIndex` (src/SortableList.tsx:79-88) becomes the
  `hit` parameter of `TouchMove`, within the list when present;
  `getBoundingClientRect` and the event's coordinates become parameters.
- `preventDefault` calls and the story's `console.log` calls: side effects
  on the browser and the console only.
- React's batching of state updates and stale closures: each handler reads
  the current state and updates it in order.
- The list's length is fixed per `SortableList` object (`itemCount`); the
  consumers' reorder keeps the length, so a commit never changes it.
- Indices are natural numbers: the negative start that `splice` would
  count from the end is not modelled; no caller produces one.
- `ApplySort` and `ItemsState.HandleSort`: require the source index to be
  within the array (for `HandleSort`, when the two indices differ); with a
  source past the end the code would insert `undefined`, which a typed
  sequence cannot hold. `HandleSort` is what the component calls as
  `onSort`, with indices that `SortableList.Release` ensures are within the
  list, and `ApplySort` is called only from `HandleSort`.
- The root `App.tsx` demo and the build configuration: no logic.
