/** The one piece of logic in `ContentView.body`: which rows of the list are
    drawn. The view only reads the view model; nothing here changes it. */
module ContentView {
  import opened TodoList
  import opened Offsets

  /** The condition guarding a row: it is drawn when completed items are
      shown or when the item is not completed. */
  predicate IsVisible(showCompleted: bool, item: TodoItem) {
    showCompleted || !item.isCompleted
  }

  /** Positions of `items` whose rows are not drawn. */
  function HiddenOffsets(items: seq<TodoItem>, showCompleted: bool): (h: set<nat>)
    ensures InBounds(h, |items|)
  {
    set i: nat | i < |items| && !IsVisible(showCompleted, items[i])
  }

  /** The items whose rows `ForEach` draws, top to bottom. Each drawn item is
      visible and comes from the list; each visible item of the list is drawn. */
  function VisibleItems(items: seq<TodoItem>, showCompleted: bool): (r: seq<TodoItem>)
    ensures |r| <= |items|
    ensures forall k :: 0 <= k < |r| ==> IsVisible(showCompleted, r[k]) && r[k] in items
    ensures forall i :: 0 <= i < |items| && IsVisible(showCompleted, items[i]) ==> items[i] in r
  {
    if |items| == 0 then []
    else
      var rest := VisibleItems(items[1..], showCompleted);
      assert forall i :: 1 <= i < |items| ==> items[i] == items[1..][i - 1];
      if IsVisible(showCompleted, items[0]) then [items[0]] + rest else rest
  }

  /** The rows drawn for a view model. */
  function Rows(vm: TodoListViewModel): seq<TodoItem> {
    VisibleItems(vm.todoItems, vm.showCompleted)
  }

  /** With "Show completed items" on, every item is drawn, in list order. */
  lemma {:induction false} ShowCompletedShowsAll(items: seq<TodoItem>)
    ensures VisibleItems(items, true) == items
  {
    if |items| > 0 {
      ShowCompletedShowsAll(items[1..]);
      assert items == [items[0]] + items[1..];
    }
  }

  /** With it off, no completed item is drawn and every open item is. */
  lemma HidingCompletedShowsOpenOnly(items: seq<TodoItem>, item: TodoItem)
    requires item in items
    ensures item in VisibleItems(items, false) <==> !item.isCompleted
  {
  }

  /** The rows drawn from position `lo` on: that item's row, if visible,
      then the rows from `lo + 1` on. */
  lemma VisibleItemsUnfold(items: seq<TodoItem>, showCompleted: bool, lo: nat)
    requires lo < |items|
    ensures VisibleItems(items[lo..], showCompleted)
            == (if IsVisible(showCompleted, items[lo]) then [items[lo]] else [])
               + VisibleItems(items[lo + 1..], showCompleted)
  {
    assert items[lo..][1..] == items[lo + 1..];
  }

  /** The drawn rows, from position `lo` on, are the list with the hidden
      positions removed. */
  lemma {:induction false} VisibleFrom(items: seq<TodoItem>, showCompleted: bool, lo: nat)
    requires lo <= |items|
    ensures VisibleItems(items[lo..], showCompleted)
            == Pick(items, KeptOffsets(|items|, HiddenOffsets(items, showCompleted), lo))
    decreases |items| - lo
  {
    if lo < |items| {
      VisibleFrom(items, showCompleted, lo + 1);
      VisibleItemsUnfold(items, showCompleted, lo);
      var hidden := HiddenOffsets(items, showCompleted);
      var above := KeptOffsets(|items|, hidden, lo + 1);
      if IsVisible(showCompleted, items[lo]) {
        assert lo !in hidden;
        assert KeptOffsets(|items|, hidden, lo) == [lo] + above;
        PickCons(items, lo, above);
      } else {
        assert lo in hidden;
        assert KeptOffsets(|items|, hidden, lo) == above;
      }
    }
  }

  /** Filtering keeps list order: the drawn rows are exactly the list with the
      positions of hidden items taken out. */
  lemma RowsKeepListOrder(vm: TodoListViewModel)
    ensures Rows(vm) == RemoveAtOffsets(vm.todoItems, HiddenOffsets(vm.todoItems, vm.showCompleted))
    ensures ExactlyUnmarked(Rows(vm), vm.todoItems, HiddenOffsets(vm.todoItems, vm.showCompleted))
  {
    VisibleFrom(vm.todoItems, vm.showCompleted, 0);
    assert vm.todoItems[0..] == vm.todoItems;
  }
}
