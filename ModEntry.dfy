/**
 * The mod's entry point, reduced to its own state: the rotating queue of sort
 * orders, the stack of menus hidden behind the production menu, and the
 * snapshot of the player's stock that the menu is opened with. The game's
 * active menu (`Game1.activeClickableMenu`) is a field of the model.
 */
module Mod {
  import opened GameItems
  import opened Wrappers
  import SortOrders
  import opened ProductionMenus

  // ---------------------------------------------------------------------------
  // The sort-order queue
  // ---------------------------------------------------------------------------

  /** The queue's contents when the mod loads, front first. */
  const InitialSortOrders: seq<SortOrders.SortOrder> := [
    SortOrders.SortOrder.None,
    SortOrders.SortOrder.AscendingByName,
    SortOrders.SortOrder.DescendingByName,
    SortOrders.SortOrder.AscendingByCount,
    SortOrders.SortOrder.DescendingByCount
  ]

  /** The queue holds each of the five orders exactly once, so every order is reached by some sort. */
  lemma InitialSortOrdersHoldEveryOrder(order: SortOrders.SortOrder)
    ensures order in InitialSortOrders
    ensures forall i, j :: 0 <= i < j < |InitialSortOrders| ==> InitialSortOrders[i] != InitialSortOrders[j]
  {
  }

  /** `q` with its first `n` elements moved, in order, to the back. */
  function Rotate<T>(q: seq<T>, n: nat): (r: seq<T>)
    requires n <= |q|
    ensures |r| == |q|
    ensures n < |q| ==> r[0] == q[n]
  {
    q[n..] + q[..n]
  }

  /** One dequeue followed by enqueueing the same element. */
  function Cycle<T>(q: seq<T>): (r: seq<T>)
    requires q != []
    ensures |r| == |q| && r[|r| - 1] == q[0]
  {
    q[1..] + [q[0]]
  }

  /** `Cycle` applied `k` times. */
  function CycleTimes<T>(q: seq<T>, k: nat): (r: seq<T>)
    requires q != []
    ensures |r| == |q|
  {
    if k == 0 then q else Cycle(CycleTimes(q, k - 1))
  }

  /** Cycling a rotation of `q` rotates it one step further, wrapping back to `q` itself. */
  lemma {:induction false} CycleOfRotate<T>(q: seq<T>, n: nat)
    requires n < |q|
    ensures Cycle(Rotate(q, n)) == Rotate(q, if n + 1 == |q| then 0 else n + 1)
  {
    var r := Rotate(q, n);
    assert r == q[n..] + q[..n];
    assert q[n..] == [q[n]] + q[n + 1..];
    assert r[1..] == q[n + 1..] + q[..n];
    calc {
      Cycle(r);
      q[n + 1..] + q[..n] + [q[n]];
      q[n + 1..] + (q[..n] + [q[n]]);
      { assert q[..n] + [q[n]] == q[..n + 1]; }
      q[n + 1..] + q[..n + 1];
    }
    if n + 1 == |q| {
      assert q[n + 1..] == [] && q[..n + 1] == q;
      assert Rotate(q, 0) == q[0..] + q[..0];
      assert q[0..] == q && q[..0] == [];
    }
  }

  /** One more step, counted modulo 5. */
  lemma NextModFive(k: nat)
    requires k >= 1
    ensures (if (k - 1) % 5 + 1 == 5 then 0 else (k - 1) % 5 + 1) == k % 5
  {
  }

  /** On a queue of five, cycling `k` times is rotating by `k` modulo 5. */
  lemma {:induction false} CycleTimesIsRotate<T>(q: seq<T>, k: nat)
    requires |q| == 5
    ensures CycleTimes(q, k) == Rotate(q, k % 5)
  {
    if k == 0 {
      assert Rotate(q, 0) == q;
    } else {
      var m := (k - 1) % 5;
      CycleTimesIsRotate(q, k - 1);
      assert CycleTimes(q, k) == Cycle(Rotate(q, m));
      CycleOfRotate(q, m);
      NextModFive(k);
    }
  }

  /** One sort moves the queue from rotation `n` to rotation `n + 1`, applying the `n`-th initial order. */
  lemma SortStep(n: nat)
    ensures Rotate(InitialSortOrders, n % 5)[0] == InitialSortOrders[n % 5]
    ensures Cycle(Rotate(InitialSortOrders, n % 5)) == Rotate(InitialSortOrders, (n + 1) % 5)
  {
    CycleOfRotate(InitialSortOrders, n % 5);
    NextModFive(n + 1);
  }

  /** Five successful sorts leave the queue as it started. */
  lemma FiveSortsRestoreQueue()
    ensures CycleTimes(InitialSortOrders, 5) == InitialSortOrders
  {
    CycleTimesIsRotate(InitialSortOrders, 5);
    assert Rotate(InitialSortOrders, 0) == InitialSortOrders;
  }

  /** The `k`-th successful sort (from 0) applies the `k mod 5`-th initial order: None, by name up, by name down, by count up, by count down, then again. */
  lemma SortOrderOfNthSort(k: nat)
    ensures CycleTimes(InitialSortOrders, k)[0] == InitialSortOrders[k % 5]
  {
    CycleTimesIsRotate(InitialSortOrders, k);
  }

  // ---------------------------------------------------------------------------
  // Menus
  // ---------------------------------------------------------------------------

  /** A menu the game can show: the production menu, or any other menu. */
  datatype ClickableMenu = Production(menu: ProductionMenu) | OtherMenu(id: nat)

  /** Whether a menu hidden by the production menu is to be shown again once it closes. */
  predicate ShouldRestoreMenu(menu: Option<ClickableMenu>) {
    match menu
    case None => false
    case Some(Production(_)) => false
    case Some(OtherMenu(_)) => true
  }

  class ModEntry {
    /** The sort queue, front first. */
    var sortOrders: seq<SortOrders.SortOrder>
    /** How many sorts have been applied so far. */
    ghost var sortCount: nat
    /** The hidden menus, top of the stack last. */
    var previousMenus: seq<ClickableMenu>
    var activeMenu: Option<ClickableMenu>

    /** The queue is the initial one rotated once per applied sort; the stack holds only menus worth restoring. */
    ghost predicate Valid()
      reads this
    {
      && sortOrders == Rotate(InitialSortOrders, sortCount % 5)
      && forall i :: 0 <= i < |previousMenus| ==> ShouldRestoreMenu(Some(previousMenus[i]))
    }

    constructor(activeMenu: Option<ClickableMenu>)
      ensures sortOrders == InitialSortOrders && sortCount == 0
      ensures previousMenus == [] && this.activeMenu == activeMenu
      ensures Valid()
    {
      sortOrders := InitialSortOrders;
      sortCount := 0;
      previousMenus := [];
      this.activeMenu := activeMenu;
      new;
      assert Rotate(InitialSortOrders, 0) == InitialSortOrders;
    }

    /**
     * On a production menu whose search box is not focused: take the front
     * order, announce it, and put it at the back. On any other menu, or while
     * the search box has focus, nothing happens.
     */
    method Sort() returns (applied: Option<SortOrders.SortOrder>, message: Option<string>)
      requires Valid()
      modifies this`sortOrders, this`sortCount
      ensures Valid()
      ensures applied.Some? <==> activeMenu.Some? && activeMenu.value.Production? && !activeMenu.value.menu.searchSelected
      ensures applied.Some? ==>
                && applied.value == InitialSortOrders[old(sortCount) % 5]
                && applied.value == old(sortOrders)[0]
                && sortOrders == Cycle(old(sortOrders))
                && sortCount == old(sortCount) + 1
                && message == Some("View sorted by " + SortOrders.Description(applied.value))
      ensures applied.None? ==> sortOrders == old(sortOrders) && sortCount == old(sortCount) && message.None?
    {
      if !(activeMenu.Some? && activeMenu.value.Production?) {
        return None, None;
      }
      var menu := activeMenu.value.menu;
      if menu.IsSearchTextBoxFocused() {
        return None, None;
      }
      var order := sortOrders[0];
      sortOrders := sortOrders[1..];
      message := Some("View sorted by " + SortOrders.Description(order));
      sortOrders := sortOrders + [order];
      SortStep(old(sortCount));
      sortCount := sortCount + 1;
      applied := Some(order);
    }

    /** Show `menu`, first saving the current menu on the stack when it is worth restoring. */
    method PushMenu(menu: ClickableMenu)
      requires Valid()
      modifies this`previousMenus, this`activeMenu
      ensures activeMenu == Some(menu)
      ensures old(activeMenu).Some? && old(activeMenu).value.OtherMenu? ==> previousMenus == old(previousMenus) + [old(activeMenu).value]
      ensures old(activeMenu).None? || old(activeMenu).value.Production? ==> previousMenus == old(previousMenus)
      ensures forall i :: 0 <= i < |previousMenus| ==> previousMenus[i].OtherMenu?
      ensures Valid()
    {
      if ShouldRestoreMenu(activeMenu) {
        previousMenus := previousMenus + [activeMenu.value];
      }
      activeMenu := Some(menu);
    }

    /**
     * The game changed its menu from `oldMenu` to `newMenu`, so `newMenu` is
     * now the active menu. When a production menu has just closed to nothing
     * and a menu is saved, that menu is shown again instead. The menu brought
     * back is never a production menu.
     */
    method OnMenuChanged(oldMenu: Option<ClickableMenu>, newMenu: Option<ClickableMenu>)
      requires Valid()
      modifies this`previousMenus, this`activeMenu
      ensures var restores := newMenu.None? && oldMenu.Some? && oldMenu.value.Production? && old(previousMenus) != [];
              && (restores ==>
                    && previousMenus == old(previousMenus)[..|old(previousMenus)| - 1]
                    && activeMenu == Some(old(previousMenus)[|old(previousMenus)| - 1])
                    && activeMenu.value.OtherMenu?)
              && (!restores ==> previousMenus == old(previousMenus) && activeMenu == newMenu)
      ensures Valid()
    {
      activeMenu := newMenu;
      if newMenu.None? && oldMenu.Some? && oldMenu.value.Production? && |previousMenus| != 0 {
        var top := previousMenus[|previousMenus| - 1];
        previousMenus := previousMenus[..|previousMenus| - 1];
        activeMenu := Some(top);
      }
    }
  }

  /**
   * A production menu opened over no other menu and then closed: nothing is
   * restored, no menu is active, and a sort request does nothing.
   */
  method SortAfterClosing() returns (applied: Option<SortOrders.SortOrder>)
    ensures applied == None
  {
    var mod := new ModEntry(None);
    var menu := new ProductionMenu([], 40);
    mod.PushMenu(Production(menu));
    mod.OnMenuChanged(Some(Production(menu)), None);
    var message;
    applied, message := mod.Sort();
  }

  // ---------------------------------------------------------------------------
  // The stock snapshot
  // ---------------------------------------------------------------------------

  /** The names of the non-null items, each once, in order of first appearance. */
  function Names(items: seq<Item?>): seq<string> {
    if items == [] then []
    else
      var x := items[|items| - 1];
      var earlier := Names(items[..|items| - 1]);
      if x != null && x.name !in earlier then earlier + [x.name] else earlier
  }

  /** No name is listed twice. */
  lemma {:induction false} NamesDistinct(items: seq<Item?>)
    ensures forall i, j :: 0 <= i < j < |Names(items)| ==> Names(items)[i] != Names(items)[j]
  {
    if items != [] {
      NamesDistinct(items[..|items| - 1]);
    }
  }

  /** Every non-null item's name is listed, and only such names are. */
  lemma {:induction false} NamesComplete(items: seq<Item?>)
    ensures forall i :: 0 <= i < |items| && items[i] != null ==> items[i].name in Names(items)
    ensures forall n :: n in Names(items) ==> exists i :: 0 <= i < |items| && items[i] != null && items[i].name == n
  {
    if items != [] {
      var init := items[..|items| - 1];
      NamesComplete(init);
      assert forall i :: 0 <= i < |init| ==> init[i] == items[i];
    }
  }

  /** The sum of `Stack` over the non-null items called `name`. */
  function StackTotal(items: seq<Item?>, name: string): int {
    if items == [] then 0
    else
      var x := items[|items| - 1];
      StackTotal(items[..|items| - 1], name) + (if x != null && x.name == name then x.stack else 0)
  }

  /** The first non-null item called `name`, or null when there is none. */
  function FirstNamed(items: seq<Item?>, name: string): (first: Item?)
    ensures first != null ==> first.name == name
    ensures (first != null) == (name in Names(items))
  {
    if items == [] then null
    else
      var x := items[|items| - 1];
      var earlier := FirstNamed(items[..|items| - 1], name);
      if earlier != null then earlier
      else if x != null && x.name == name then x
      else null
  }

  /** `FirstNamed` is an item of the list with no item of that name before it. */
  lemma {:induction false} FirstNamedIsFirst(items: seq<Item?>, name: string)
    requires FirstNamed(items, name) != null
    ensures exists i :: 0 <= i < |items| && items[i] == FirstNamed(items, name) &&
                        (forall j :: 0 <= j < i && items[j] != null ==> items[j].name != name)
  {
    var init := items[..|items| - 1];
    assert forall i :: 0 <= i < |init| ==> init[i] == items[i];
    if FirstNamed(init, name) != null {
      FirstNamedIsFirst(init, name);
    } else {
      NoneNamed(init, name);
    }
  }

  /** When there is no first item of a name, there is no item of that name. */
  lemma {:induction false} NoneNamed(items: seq<Item?>, name: string)
    requires FirstNamed(items, name) == null
    ensures forall i :: 0 <= i < |items| && items[i] != null ==> items[i].name != name
  {
    if items != [] {
      var init := items[..|items| - 1];
      NoneNamed(init, name);
      assert forall i :: 0 <= i < |init| ==> init[i] == items[i];
    }
  }

  /** The sum of `Stack` over all non-null items. */
  function AllStacks(items: seq<Item?>): int {
    if items == [] then 0
    else
      var x := items[|items| - 1];
      AllStacks(items[..|items| - 1]) + (if x != null then x.stack else 0)
  }

  /** The sum of the counts of `stocks`. */
  function SumCounts(stocks: seq<ItemStock>): int {
    if stocks == [] then 0 else SumCounts(stocks[..|stocks| - 1]) + stocks[|stocks| - 1].count
  }

  /** The sum, over `names`, of each name's stack total in `items`. */
  function SumTotals(names: seq<string>, items: seq<Item?>): int {
    if names == [] then 0 else SumTotals(names[..|names| - 1], items) + StackTotal(items, names[|names| - 1])
  }

  /** The dictionary `GetItemSubjects` has built after the slots `items`. */
  function Snapshot(items: seq<Item?>): map<string, ItemStock> {
    if items == [] then map[]
    else
      var m := Snapshot(items[..|items| - 1]);
      var x := items[|items| - 1];
      if x == null then m
      else
        var entry := if x.name in m then m[x.name] else NewItemStock(x);
        m[x.name := entry.(count := entry.count + x.stack)]
  }

  /** The dictionary has a key per name. */
  lemma {:induction false} SnapshotKeys(items: seq<Item?>)
    ensures forall n :: n in Snapshot(items) <==> n in Names(items)
  {
    if items != [] {
      var init := items[..|items| - 1];
      var x := items[|items| - 1];
      assert items == init + [x];
      SnapshotKeys(init);
      SnapshotOfAppend(init, x);
      NamesOfAppend(init, x);
    }
  }

  /** Each key holds the first item of that name and the stacks of all items of that name. */
  lemma {:induction false} SnapshotValues(items: seq<Item?>, n: string)
    requires n in Snapshot(items)
    ensures FirstNamed(items, n) != null
    ensures Snapshot(items)[n] == ItemStock(FirstNamed(items, n), StackTotal(items, n))
  {
    var init := items[..|items| - 1];
    var x := items[|items| - 1];
    assert items == init + [x];
    SnapshotOfAppend(init, x);
    NamedOfAppend(init, x, n);
    SnapshotKeys(init);
    if n in Snapshot(init) {
      SnapshotValues(init, n);
    } else {
      StackTotalOfAbsentName(init, n);
    }
  }

  /** How one more slot changes the list of names. */
  lemma {:induction false} NamesOfAppend(items: seq<Item?>, x: Item?)
    ensures Names(items + [x]) == if x != null && x.name !in Names(items) then Names(items) + [x.name] else Names(items)
  {
    assert (items + [x])[..|items|] == items;
  }

  /** How one more slot changes the dictionary. */
  lemma {:induction false} SnapshotOfAppend(items: seq<Item?>, x: Item?)
    ensures x == null ==> Snapshot(items + [x]) == Snapshot(items)
    ensures x != null ==>
              var m := Snapshot(items);
              var entry := if x.name in m then m[x.name] else NewItemStock(x);
              Snapshot(items + [x]) == m[x.name := entry.(count := entry.count + x.stack)]
  {
    assert (items + [x])[..|items|] == items;
  }

  /** How one more slot changes the first item and the stack total of the name `n`. */
  lemma {:induction false} NamedOfAppend(items: seq<Item?>, x: Item?, n: string)
    ensures FirstNamed(items + [x], n) ==
              if FirstNamed(items, n) != null then FirstNamed(items, n) else if x != null && x.name == n then x else null
    ensures StackTotal(items + [x], n) == StackTotal(items, n) + (if x != null && x.name == n then x.stack else 0)
    ensures AllStacks(items + [x]) == AllStacks(items) + (if x != null then x.stack else 0)
  {
    assert (items + [x])[..|items|] == items;
  }

  lemma {:induction false} SumTotalsAppendName(names: seq<string>, n: string, items: seq<Item?>)
    ensures SumTotals(names + [n], items) == SumTotals(names, items) + StackTotal(items, n)
  {
    assert (names + [n])[..|names|] == names;
  }

  lemma {:induction false} StackTotalOfAbsentName(items: seq<Item?>, name: string)
    requires name !in Names(items)
    ensures StackTotal(items, name) == 0
  {
    if items != [] {
      var init := items[..|items| - 1];
      assert name !in Names(init);
      StackTotalOfAbsentName(init, name);
    }
  }

  lemma {:induction false} SumTotalsAppendItem(names: seq<string>, items: seq<Item?>, x: Item?)
    requires forall i, j :: 0 <= i < j < |names| ==> names[i] != names[j]
    ensures SumTotals(names, items + [x]) == SumTotals(names, items) + (if x != null && x.name in names then x.stack else 0)
  {
    assert (items + [x])[..|items|] == items;
    if names != [] {
      var init := names[..|names| - 1];
      var last := names[|names| - 1];
      SumTotalsAppendItem(init, items, x);
      assert x != null && x.name in names ==> (x.name in init <==> x.name != last);
    }
  }

  /** The snapshot loses no stack and counts none twice: its counts add up to all the stacks. */
  lemma {:induction false} NamesConserveStacks(items: seq<Item?>)
    ensures SumTotals(Names(items), items) == AllStacks(items)
  {
    if items != [] {
      var init := items[..|items| - 1];
      var x := items[|items| - 1];
      var names := Names(init);
      var gained := if x != null then x.stack else 0;
      assert AllStacks(items) == AllStacks(init) + gained;
      assert SumTotals(names, init) == AllStacks(init) by {
        NamesConserveStacks(init);
      }
      assert SumTotals(names, items) == SumTotals(names, init) + (if x != null && x.name in names then x.stack else 0) by {
        assert items == init + [x];
        NamesDistinct(init);
        SumTotalsAppendItem(names, init, x);
      }
      if x != null && x.name !in names {
        assert Names(items) == names + [x.name];
        assert SumTotals(names + [x.name], items) == SumTotals(names, items) + StackTotal(items, x.name) by {
          SumTotalsAppendName(names, x.name, items);
        }
        assert StackTotal(items, x.name) == x.stack by {
          StackTotalOfAbsentName(init, x.name);
        }
      } else {
        assert Names(items) == names;
      }
    }
  }

  lemma {:induction false} SumCountsOfTotals(stocks: seq<ItemStock>, names: seq<string>, items: seq<Item?>)
    requires |stocks| == |names|
    requires forall k :: 0 <= k < |stocks| ==> stocks[k].count == StackTotal(items, names[k])
    ensures SumCounts(stocks) == SumTotals(names, items)
  {
    if stocks != [] {
      SumCountsOfTotals(stocks[..|stocks| - 1], names[..|names| - 1], items);
    }
  }

  /**
   * `GetItemSubjects` over the items already gathered from the chests and the
   * player's inventory (`None` slots are the null ones): one stock per item
   * name, seeded with the first item of that name, counting the stacks of all
   * items of that name.
   */
  method GetItemSubjects(items: seq<Item?>) returns (stocks: seq<ItemStock>)
    ensures |stocks| == |Names(items)|
    ensures forall k :: 0 <= k < |stocks| ==>
              && stocks[k].item == FirstNamed(items, Names(items)[k])
              && stocks[k].item.name == Names(items)[k]
              && stocks[k].count == StackTotal(items, Names(items)[k])
    ensures forall k, l :: 0 <= k < l < |stocks| ==> stocks[k].item.name != stocks[l].item.name
    ensures forall i :: 0 <= i < |items| && items[i] != null ==> exists k :: 0 <= k < |stocks| && stocks[k].item.name == items[i].name
    ensures SumCounts(stocks) == AllStacks(items)
  {
    var result: map<string, ItemStock> := map[];
    var order: seq<string> := [];
    var i := 0;
    while i < |items|
      invariant 0 <= i <= |items|
      invariant order == Names(items[..i])
      invariant result == Snapshot(items[..i])
    {
      var item := items[i];
      assert items[..i + 1] == items[..i] + [item];
      SnapshotOfAppend(items[..i], item);
      NamesOfAppend(items[..i], item);
      SnapshotKeys(items[..i]);
      if item != null {
        ghost var before := result;
        if item.name !in result {
          result := result[item.name := NewItemStock(item)];
          order := order + [item.name];
        }
        var entry := result[item.name];
        result := result[item.name := entry.(count := entry.count + item.stack)];
        assert result == before[item.name := entry.(count := entry.count + item.stack)];
      }
      i := i + 1;
    }
    assert items[..i] == items;
    SnapshotKeys(items);
    stocks := seq(|order|, k requires 0 <= k < |order| => result[order[k]]);
    forall k | 0 <= k < |stocks|
      ensures stocks[k].item == FirstNamed(items, order[k]) && stocks[k].count == StackTotal(items, order[k])
    {
      SnapshotValues(items, order[k]);
    }
    NamesDistinct(items);
    NamesComplete(items);
    NamesConserveStacks(items);
    SumCountsOfTotals(stocks, order, items);
  }

  /** Two stacks of 3 and 4 of the same item give one stock of 7, seeded with the first. */
  method SameNameStacksAdd() returns (stocks: seq<ItemStock>, first: Item)
    ensures |stocks| == 1 && stocks[0].item == first && stocks[0].count == 7
  {
    first := new Item("(O)378", 0, "Copper Ore", "Copper Ore", 3);
    var second := new Item("(O)378", 0, "Copper Ore", "Copper Ore", 4);
    var none: seq<Item?> := [];
    var one := none + [first];
    var two := one + [null];
    var items := two + [second];
    NamesOfAppend(none, first);
    NamedOfAppend(none, first, "Copper Ore");
    NamesOfAppend(one, null);
    NamedOfAppend(one, null, "Copper Ore");
    NamesOfAppend(two, second);
    NamedOfAppend(two, second, "Copper Ore");
    stocks := GetItemSubjects(items);
  }
}
