/** The state of `TodoListViewModel` and its three list mutations, as pure
    functions from one state to the next. */
module TodoList {
  import opened Text
  import opened Offsets

  /** A `UUID`: 128 bits, compared only for equality. */
  newtype Uuid = x: int | 0 <= x < 0x1_0000_0000_0000_0000_0000_0000_0000_0000

  datatype TodoItem = TodoItem(id: Uuid, text: string, isCompleted: bool)

  /** The view model's stored properties: the list, the draft typed into the
      text field, and the "Show completed items" switch. */
  datatype TodoListViewModel = TodoListViewModel(
    todoItems: seq<TodoItem>,
    newItemText: string,
    showCompleted: bool)

  datatype Option<T> = None | Some(value: T)

  predicate HasId(items: seq<TodoItem>, id: Uuid) {
    exists i :: 0 <= i < |items| && items[i].id == id
  }

  /** No two items share an id. */
  predicate UniqueIds(items: seq<TodoItem>) {
    forall i, j :: 0 <= i < j < |items| ==> items[i].id != items[j].id
  }

  /** Position `i` holds the first item of `items` whose id is `id`. */
  predicate IsFirstMatch(items: seq<TodoItem>, id: Uuid, i: int) {
    && 0 <= i < |items|
    && items[i].id == id
    && forall j :: 0 <= j < i ==> items[j].id != id
  }

  /** Both lists have the same length and the same ids, position by position. */
  predicate SameIds(a: seq<TodoItem>, b: seq<TodoItem>) {
    && |a| == |b|
    && forall i :: 0 <= i < |a| ==> a[i].id == b[i].id
  }

  /** Both lists have the same length and the same ids and texts, position
      by position; only completion flags may differ. */
  predicate SameIdsAndTexts(a: seq<TodoItem>, b: seq<TodoItem>) {
    && |a| == |b|
    && forall i :: 0 <= i < |a| ==> a[i].id == b[i].id && a[i].text == b[i].text
  }

  /** `todoItems.firstIndex(where: { $0.id == id })`. */
  function FirstIndex(items: seq<TodoItem>, id: Uuid): (r: Option<nat>)
    ensures r.None? <==> !HasId(items, id)
    ensures r.Some? ==> IsFirstMatch(items, id, r.value)
  {
    if |items| == 0 then None
    else if items[0].id == id then Some(0)
    else
      match FirstIndex(items[1..], id)
      case None =>
        assert forall i :: 1 <= i < |items| ==> items[i] == items[1..][i - 1];
        None
      case Some(k) =>
        assert forall j :: 1 <= j <= k ==> items[j] == items[1..][j - 1];
        Some(k + 1)
  }

  /** `addItem()`: a draft that is blank once trimmed changes nothing;
      otherwise one new, not yet completed item carrying the draft exactly
      as typed (untrimmed) is appended after all existing items, and the
      draft is cleared. */
  function AddItem(vm: TodoListViewModel, newId: Uuid): (r: TodoListViewModel)
    ensures AllWhitespace(vm.newItemText) ==> r == vm
    ensures !AllWhitespace(vm.newItemText) ==>
      && |r.todoItems| == |vm.todoItems| + 1
      && r.todoItems[..|vm.todoItems|] == vm.todoItems
      && r.todoItems[|vm.todoItems|] == TodoItem(newId, vm.newItemText, false)
      && r.newItemText == ""
      && r.showCompleted == vm.showCompleted
  {
    if |Trim(vm.newItemText)| == 0 then vm
    else
      var newItem := TodoItem(newId, vm.newItemText, false);
      vm.(todoItems := vm.todoItems + [newItem], newItemText := "")
  }

  /** `deleteItem(at:)`: the items at the given offsets are gone, every other
      item is kept once and in its original order, and the draft and the
      filter are untouched. */
  function DeleteItem(vm: TodoListViewModel, offsets: set<nat>): (r: TodoListViewModel)
    requires InBounds(offsets, |vm.todoItems|)
    ensures |r.todoItems| == |vm.todoItems| - |offsets|
    ensures ExactlyUnmarked(r.todoItems, vm.todoItems, offsets)
    ensures r.newItemText == vm.newItemText && r.showCompleted == vm.showCompleted
  {
    vm.(todoItems := RemoveAtOffsets(vm.todoItems, offsets))
  }

  /** `deleteItem(at:)` with the removal carried out highest offset first. */
  method DeleteItemInPlace(vm: TodoListViewModel, offsets: set<nat>) returns (r: TodoListViewModel)
    requires InBounds(offsets, |vm.todoItems|)
    ensures r == DeleteItem(vm, offsets)
  {
    var items := RemoveHighestFirst(vm.todoItems, offsets);
    r := vm.(todoItems := items);
  }

  /** `toggleCompleted(for:)`: only the first item with the given item's id
      changes, and only its completion flag, which is negated. The list
      changes at all exactly when some item has that id. */
  function ToggleCompleted(vm: TodoListViewModel, item: TodoItem): (r: TodoListViewModel)
    ensures SameIdsAndTexts(r.todoItems, vm.todoItems)
    ensures r.newItemText == vm.newItemText && r.showCompleted == vm.showCompleted
    ensures !HasId(vm.todoItems, item.id) ==> r == vm
    ensures r.todoItems != vm.todoItems <==> HasId(vm.todoItems, item.id)
    ensures forall i :: IsFirstMatch(vm.todoItems, item.id, i) ==>
              r.todoItems[i].isCompleted == !vm.todoItems[i].isCompleted
    ensures forall i :: 0 <= i < |vm.todoItems| && !IsFirstMatch(vm.todoItems, item.id, i) ==>
              r.todoItems[i] == vm.todoItems[i]
  {
    match FirstIndex(vm.todoItems, item.id)
    case None => vm
    case Some(i) =>
      var hit := vm.todoItems[i];
      assert forall j :: IsFirstMatch(vm.todoItems, item.id, j) ==> j == i;
      vm.(todoItems := vm.todoItems[i := hit.(isCompleted := !hit.isCompleted)])
  }

  /** Only ids decide where `firstIndex(where:)` stops. */
  lemma FirstIndexFollowsIds(a: seq<TodoItem>, b: seq<TodoItem>, id: Uuid)
    requires SameIds(a, b)
    ensures FirstIndex(a, id) == FirstIndex(b, id)
  {
    if HasId(a, id) {
      var i := FirstIndex(a, id).value;
      assert a[i].id == b[i].id;
      var j := FirstIndex(b, id).value;
      assert a[j].id == b[j].id;
    } else {
      forall j | 0 <= j < |b| ensures b[j].id != id {
        assert a[j].id == b[j].id;
      }
    }
  }

  /** Tapping the same row twice leaves the view model as it was. */
  lemma ToggleTwiceRestores(vm: TodoListViewModel, item: TodoItem)
    ensures ToggleCompleted(ToggleCompleted(vm, item), item) == vm
  {
    var once := ToggleCompleted(vm, item);
    FirstIndexFollowsIds(vm.todoItems, once.todoItems, item.id);
  }

  /** Adding under an id no item has keeps the ids distinct. */
  lemma AddKeepsIdsUnique(vm: TodoListViewModel, newId: Uuid)
    requires UniqueIds(vm.todoItems)
    requires !HasId(vm.todoItems, newId)
    ensures UniqueIds(AddItem(vm, newId).todoItems)
  {
    var r := AddItem(vm, newId);
    if r != vm {
      forall i, j | 0 <= i < j < |r.todoItems|
        ensures r.todoItems[i].id != r.todoItems[j].id
      {
        if j == |vm.todoItems| {
          assert r.todoItems[i] == vm.todoItems[i];
        } else {
          assert r.todoItems[i] == vm.todoItems[i] && r.todoItems[j] == vm.todoItems[j];
        }
      }
    }
  }

  /** Deleting keeps the ids distinct. */
  lemma DeleteKeepsIdsUnique(vm: TodoListViewModel, offsets: set<nat>)
    requires InBounds(offsets, |vm.todoItems|)
    requires UniqueIds(vm.todoItems)
    ensures UniqueIds(DeleteItem(vm, offsets).todoItems)
  {
    var s := vm.todoItems;
    var r := DeleteItem(vm, offsets).todoItems;
    var kept := KeptOffsets(|s|, offsets, 0);
    assert r == Pick(s, kept);
    forall i, j | 0 <= i < j < |r| ensures r[i].id != r[j].id {
      assert r[i] == s[kept[i]] && r[j] == s[kept[j]];
      assert kept[i] < kept[j];
    }
  }

  /** Toggling keeps the ids distinct. */
  lemma ToggleKeepsIdsUnique(vm: TodoListViewModel, item: TodoItem)
    requires UniqueIds(vm.todoItems)
    ensures UniqueIds(ToggleCompleted(vm, item).todoItems)
  {
    var r := ToggleCompleted(vm, item).todoItems;
    forall i, j | 0 <= i < j < |r| ensures r[i].id != r[j].id {
      assert r[i].id == vm.todoItems[i].id && r[j].id == vm.todoItems[j].id;
    }
  }

  /** With unique ids the first match is the only match, so toggling flips
      the flag of exactly the item carrying that id. */
  lemma ToggleFlipsTheItemWithThatId(vm: TodoListViewModel, item: TodoItem, i: int)
    requires UniqueIds(vm.todoItems)
    requires 0 <= i < |vm.todoItems| && vm.todoItems[i].id == item.id
    ensures ToggleCompleted(vm, item).todoItems ==
              vm.todoItems[i := vm.todoItems[i].(isCompleted := !vm.todoItems[i].isCompleted)]
  {
    assert IsFirstMatch(vm.todoItems, item.id, i);
  }

  /** Deleting positions {0, 2} of [A, B, C] leaves [B]. */
  lemma DeleteFirstAndLastOfThree(a: TodoItem, b: TodoItem, c: TodoItem, text: string, show: bool)
    ensures DeleteItem(TodoListViewModel([a, b, c], text, show), {0, 2}).todoItems == [b]
  {
  }
}
