# Todo list view model, in Dafny

This project models the single screen of the Todo app. The screen shows a list of
`TodoItem`s, each with an `id`, a `text` and an `isCompleted` flag. The list is held by
`TodoListViewModel`, together with the draft typed into the text field (`newItemText`)
and the "Show completed items" switch (`showCompleted`). The view model is a pure,
immutable state record. Each of its mutations is a function from one state to the next:

- `addItem` appends the draft as a new item, unless the draft is blank once trimmed.
- `deleteItem(at:)` removes the rows at a set of offsets.
- `toggleCompleted(for:)` flips the flag of the first item with a matching id.

The view contributes one piece of logic, the condition that decides whether a row is drawn.

Files:

- `text.dfy` (module `Text`): the `whitespacesAndNewlines` character set and
  `trimmingCharacters(in:)`.
- `offsets.dfy` (module `Offsets`): `remove(atOffsets:)` on a sequence. It has a
  reference definition and an implementation that removes one position at a time,
  highest first.
- `todo.dfy` (module `TodoList`): `TodoItem`, `TodoListViewModel`, the three mutations and
  their frame, round-trip and id-uniqueness lemmas.
- `view.dfy` (module `ContentView`): row visibility and the rows drawn.
- `session.dfy` (module `Session`): gestures applied in sequence. It proves that item ids
  stay pairwise distinct in every reachable state.

`UUID()` becomes a parameter, `newId`, of `AddItem`. Its uniqueness (the id is not already
in the list) is a hypothesis of the uniqueness lemmas and of `Session.Admissible`. It is not
a precondition of `AddItem`, which works for any id.

Two details of the code that the model keeps:

- The stored text is the raw `newItemText`, not the trimmed one
  (Todo/ContentView.swift:39). Trimming only feeds the emptiness guard (line 36).
- `toggleCompleted(for:)` changes only the first item whose id matches (line 49). Under
  unique ids this is the only such item (`ToggleFlipsTheItemWithThatId`).

## Model

| member | source | states |
|---|---|---|
| Text.IsWhitespace | Todo/ContentView.swift:36 | A character counts as whitespace exactly when CoreFoundation puts it in `.whitespacesAndNewlines`: the Zs space separators, U+200B ZERO WIDTH SPACE, TAB, U+000A to U+000D, U+0085, and U+2028 and U+2029. |
| Text.Trim | Todo/ContentView.swift:36 | The trimmed draft is a contiguous slice of the draft with only whitespace cut from either end. It is empty exactly when every character of the draft is whitespace or a newline. Otherwise it neither starts nor ends with whitespace. |
| TodoList.AddItem | Todo/ContentView.swift:35-42 | A blank or empty draft leaves the whole view model unchanged, draft included. Otherwise the list grows by exactly one item and every earlier item keeps its position and value. The new last item carries the given id, the untrimmed draft text and `isCompleted == false`. The draft becomes "" and the filter is unchanged. |
| TodoList.FirstIndex | Todo/ContentView.swift:49 | Returns no index exactly when no item has the id. Otherwise it returns the position of an item with that id that has no earlier item with that id. |
| TodoList.ToggleCompleted | Todo/ContentView.swift:48-52 | Length, order, every id and every text are kept. The list changes if and only if some item has the given item's id. The first such item has its flag negated, and every other position is unchanged. The draft and the filter are untouched. |
| TodoList.FirstIndexFollowsIds | Todo/ContentView.swift:49 | The first-match search gives the same answer on two lists with equal ids position by position, whatever their completion flags. |
| TodoList.ToggleTwiceRestores | Todo/ContentView.swift:48-52 | Toggling with the same item twice gives back the original view model. |
| TodoList.ToggleFlipsTheItemWithThatId | Todo/ContentView.swift:48-52 | When ids are unique, toggling flips the flag of exactly the item that carries the id and changes nothing else. |
| TodoList.DeleteItem | Todo/ContentView.swift:44-46 | With in-range offsets, the new list is the old one with exactly the items at those offsets removed. Every other item is kept once, in its original relative order. The length drops by the number of offsets. The draft and the filter are untouched. |
| TodoList.DeleteItemInPlace | Todo/ContentView.swift:44-46 | Removing the offsets one at a time, highest first, produces the same view model as `DeleteItem`. |
| TodoList.DeleteFirstAndLastOfThree | Todo/ContentView.swift:44-46 | Deleting offsets {0, 2} from [A, B, C] leaves [B]. |
| TodoList.AddKeepsIdsUnique | Todo/ContentView.swift:35-42 | If ids are distinct and the new id is not yet used, ids are still distinct after `addItem`. |
| TodoList.DeleteKeepsIdsUnique | Todo/ContentView.swift:44-46 | If ids are distinct, they stay distinct after `deleteItem(at:)`. |
| TodoList.ToggleKeepsIdsUnique | Todo/ContentView.swift:48-52 | If ids are distinct, they stay distinct after `toggleCompleted(for:)`. |
| Offsets.RemoveAtOffsets | Todo/ContentView.swift:45 | `remove(atOffsets:)` keeps the element of every position outside the offsets, each once and in order. No element at an offset is kept. The length drops by the number of offsets. |
| Offsets.RemoveHighestFirst | Todo/ContentView.swift:45 | Removing one position at a time, from the highest index down, yields exactly `RemoveAtOffsets`. |
| ContentView.IsVisible | Todo/ContentView.swift:100 | A row is drawn exactly when `showCompleted \|\| !item.isCompleted`. |
| ContentView.VisibleItems | Todo/ContentView.swift:99-100 | Every drawn row is an item of the list that satisfies `showCompleted \|\| !isCompleted`. Every item of the list that satisfies it is drawn. |
| ContentView.ShowCompletedShowsAll | Todo/ContentView.swift:100 | With `showCompleted` on, the drawn rows are the whole list, in order. |
| ContentView.HidingCompletedShowsOpenOnly | Todo/ContentView.swift:100 | With `showCompleted` off, an item of the list is drawn if and only if it is not completed. |
| ContentView.RowsKeepListOrder | Todo/ContentView.swift:99-100 | The drawn rows are the list with the positions of hidden items removed, so they keep list order. |
| Session.Step | Todo/ContentView.swift:84-111 | Typing stores the typed text verbatim as the draft, and the switch stores its position as `showCompleted`. "Add" runs `AddItem`, a row tap runs `ToggleCompleted` with that row's item, and a swipe runs `DeleteItem`. Only the switch changes `showCompleted`. Typing and the switch leave the list alone. The switch, toggling and deleting leave the draft alone. |
| Session.StepKeepsIdsUnique | Todo/ContentView.swift:35-52 | Every admissible gesture keeps ids pairwise distinct. |
| Session.RunKeepsIdsUnique | Todo/ContentView.swift:35-52 | Every admissible sequence of gestures keeps ids pairwise distinct. |
| Session.Fresh | Todo/ContentView.swift:27-29 | The defaults `init` falls back to when nothing is stored: an empty list, an empty draft and `showCompleted == false`. |
| Session.ReachableIdsUnique | Todo/ContentView.swift:26-52 | Every state reachable from the empty start state has pairwise distinct ids. |

## Left out

- Persistence is not modelled. This covers `UserDefaults`, the `didSet` save hooks, JSON
  encoding and the load in `init` (Todo/ContentView.swift:10-29, 54-67). They are I/O and
  a foreign encoder.
- No save/load round trip is claimed. The list is saved as encoded `Data` (lines 56-57)
  but read back with `array(forKey:) as? [TodoItem]` (line 27), so loading does not invert
  saving.
- `Session.Fresh` is the state with nothing stored, and `Session.ReachableIdsUnique`
  starts only from it.
- The termination observer (lines 32, 69-74) is platform lifecycle plumbing and is not
  modelled.
- The SwiftUI view tree, bindings, styling and previews (lines 77-123) are not modelled.
  The exception is the row condition on line 100 and the way gestures reach the view model
  (`Session.Step`). The text field and the switch are plain field assignments, modelled as
  the `Type` and `SetShowCompleted` gestures.
- Computing the visible rows cannot change `todoItems`. This holds by construction, since
  `ContentView.VisibleItems` is a pure function of the state.
- How `UUID()` draws its bits is not modelled. An id is an opaque 128-bit value supplied by
  the caller, and freshness is assumed where uniqueness is proved.
- `Text.IsWhitespace` writes out the character set that CoreFoundation's whitespace test
  accepts. Foundation is not part of this model, so the set is stated, not derived.
- Strings are sequences of Unicode scalars. `trimmingCharacters(in:)` tests set membership
  one scalar at a time, so `Text.Trim` follows the guard on line 36 exactly. Swift's
  grapheme-cluster `String` equality is not modelled; the view model never compares strings.
- `TodoList.DeleteItem` and `Offsets.RemoveAtOffsets` require every offset to be in range.
  Swift traps on an out-of-range offset, so the model has no behaviour for that case.
- `TodoList.ToggleCompleted` takes a whole `TodoItem`, as the source does, but only its
  `id` is consulted.
