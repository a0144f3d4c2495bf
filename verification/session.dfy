/** Sequences of user gestures applied to the view model, one at a time, as
    the screen forwards them, and the id invariant they keep. */
module Session {
  import opened Offsets
  import opened TodoList

  /** One gesture: typing into the text field, pressing "Add" (with the id
      `UUID()` hands out), tapping a row, swiping rows away, or flipping the
      "Show completed items" switch. */
  datatype Action =
    | Type(text: string)
    | Add(newId: Uuid)
    | Toggle(item: TodoItem)
    | Delete(offsets: set<nat>)
    | SetShowCompleted(on: bool)

  /** The gesture can happen in state `vm`: swiped offsets name existing rows
      (Swift traps otherwise), and a generated id is not already in use. */
  predicate Admissible(vm: TodoListViewModel, a: Action) {
    match a
    case Add(newId) => !HasId(vm.todoItems, newId)
    case Delete(offsets) => InBounds(offsets, |vm.todoItems|)
    case _ => true
  }

  /** The view model after one gesture. The text field stores what was
      typed verbatim and the switch stores its position; "Add" runs
      `addItem`, a row tap runs `toggleCompleted(for:)` with that row's item
      and a swipe runs `deleteItem(at:)`. Only the switch changes the filter,
      only typing and adding change the draft, and neither binding touches
      the list. */
  function Step(vm: TodoListViewModel, a: Action): (r: TodoListViewModel)
    requires Admissible(vm, a)
    ensures a.Type? ==> r.newItemText == a.text
    ensures a.SetShowCompleted? ==> r.showCompleted == a.on
    ensures a.Add? ==> r == AddItem(vm, a.newId)
    ensures a.Toggle? ==> r == ToggleCompleted(vm, a.item)
    ensures a.Delete? ==> r == DeleteItem(vm, a.offsets)
    ensures !a.SetShowCompleted? ==> r.showCompleted == vm.showCompleted
    ensures a.Type? || a.SetShowCompleted? ==> r.todoItems == vm.todoItems
    ensures !a.Type? && !a.Add? ==> r.newItemText == vm.newItemText
  {
    match a
    case Type(text) => vm.(newItemText := text)
    case Add(newId) => AddItem(vm, newId)
    case Toggle(item) => ToggleCompleted(vm, item)
    case Delete(offsets) => DeleteItem(vm, offsets)
    case SetShowCompleted(on) => vm.(showCompleted := on)
  }

  /** Every gesture of the trace is admissible in the state it meets. */
  predicate ValidTrace(vm: TodoListViewModel, trace: seq<Action>)
    decreases |trace|
  {
    |trace| == 0 || (Admissible(vm, trace[0]) && ValidTrace(Step(vm, trace[0]), trace[1..]))
  }

  function Run(vm: TodoListViewModel, trace: seq<Action>): TodoListViewModel
    requires ValidTrace(vm, trace)
    decreases |trace|
  {
    if |trace| == 0 then vm else Run(Step(vm, trace[0]), trace[1..])
  }

  /** One gesture keeps the ids distinct. */
  lemma StepKeepsIdsUnique(vm: TodoListViewModel, a: Action)
    requires Admissible(vm, a)
    requires UniqueIds(vm.todoItems)
    ensures UniqueIds(Step(vm, a).todoItems)
  {
    match a
    case Type(_) =>
    case Add(newId) => AddKeepsIdsUnique(vm, newId);
    case Toggle(item) => ToggleKeepsIdsUnique(vm, item);
    case Delete(offsets) => DeleteKeepsIdsUnique(vm, offsets);
    case SetShowCompleted(_) =>
  }

  /** No sequence of gestures ever produces two items with the same id. */
  lemma {:induction false} RunKeepsIdsUnique(vm: TodoListViewModel, trace: seq<Action>)
    requires ValidTrace(vm, trace)
    requires UniqueIds(vm.todoItems)
    ensures UniqueIds(Run(vm, trace).todoItems)
    decreases |trace|
  {
    if |trace| > 0 {
      StepKeepsIdsUnique(vm, trace[0]);
      RunKeepsIdsUnique(Step(vm, trace[0]), trace[1..]);
    }
  }

  /** The state `init` falls back to when nothing has been stored: an empty
      list, an empty draft and completed items hidden. */
  function Fresh(): TodoListViewModel {
    TodoListViewModel([], "", false)
  }

  /** Every state reachable from a fresh start has distinct ids. */
  lemma ReachableIdsUnique(trace: seq<Action>)
    requires ValidTrace(Fresh(), trace)
    ensures UniqueIds(Run(Fresh(), trace).todoItems)
  {
    RunKeepsIdsUnique(Fresh(), trace);
  }
}
