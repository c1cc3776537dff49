/**
 * The production menu's own state: the search box and its result list, and
 * the vertical scroll position. Layout, drawing and the text box widget are
 * not modelled; the text box is its text and whether it has focus.
 */
module ProductionMenus {
  import opened GameItems
  import opened Wrappers
  import opened MenuSearch

  datatype Key = Escape | OtherKey

  /** Two 32-bit values that differ by a multiple of 2^32 are the same value. */
  lemma Int32Congruent(a: int32, b: int32, k: int)
    requires a - b == 0x1_0000_0000 * k
    ensures a == b
  {
  }

  /** Wrapping subtracts a whole number of 2^32 steps. */
  lemma Wrap32Quotient(x: int)
    ensures Wrap32(x) == x - 0x1_0000_0000 * ((x + 0x8000_0000) / 0x1_0000_0000)
  {
  }

  /** Wrapping an intermediate result does not change the wrapped total. */
  lemma WrapThenAdd(x: int, y: int)
    ensures Wrap32(Wrap32(x) + y) == Wrap32(x + y)
  {
    var inner := Wrap32(x);
    Wrap32Quotient(x);
    Wrap32Quotient(inner + y);
    Wrap32Quotient(x + y);
    var q1 := (inner + y + 0x8000_0000) / 0x1_0000_0000;
    var q2 := (x + 0x8000_0000) / 0x1_0000_0000;
    var q3 := (x + y + 0x8000_0000) / 0x1_0000_0000;
    Int32Congruent(Wrap32(inner + y), Wrap32(x + y), q3 - q1 - q2);
  }

  /**
   * Scrolling up by `a` and then down by `a` (or the reverse) returns to the
   * same position, even when the unchecked 32-bit arithmetic wraps around.
   */
  lemma UpThenDownCancels(scroll: int32, a: int32)
    ensures Wrap32(Wrap32(scroll - a) + a) == scroll
    ensures Wrap32(Wrap32(scroll + a) - a) == scroll
  {
    WrapThenAdd(scroll - a, a);
    WrapThenAdd(scroll + a, -(a as int));
  }

  class ProductionMenu {
    const production: seq<ItemStock>
    const scrollAmount: int32
    /** The search box's text and whether it has keyboard focus. */
    var searchText: string
    var searchSelected: bool
    var searchResults: seq<ItemStock>
    var currentScroll: int32
    var maxScroll: int32
    /** Set once the menu has asked the game to close it. */
    var exited: bool

    /** The result list belongs to the text in the box whenever that text is not empty; the scroll bound is never negative. */
    ghost predicate Valid()
      reads this`maxScroll, this`searchText, this`searchResults
    {
      maxScroll >= 0 && ResultsCurrent()
    }

    /** A non-empty search text has its results computed. */
    ghost predicate ResultsCurrent()
      reads this`searchText, this`searchResults
    {
      searchText != "" ==> searchResults == SearchResults(production, Some(searchText))
    }

    constructor(production: seq<ItemStock>, scrollAmount: int32)
      ensures this.production == production && this.scrollAmount == scrollAmount
      ensures searchText == "" && !searchSelected && searchResults == []
      ensures currentScroll == 0 && maxScroll == 0 && !exited
      ensures Valid()
    {
      this.production := production;
      this.scrollAmount := scrollAmount;
      searchText := "";
      searchSelected := false;
      searchResults := [];
      currentScroll := 0;
      maxScroll := 0;
      exited := false;
    }

    /** The search box's `OnChanged` handler: recompute the result list for `search` (`None` is a null text). */
    method ReceiveSearchTextboxChanged(search: Option<string>)
      modifies this`searchResults
      ensures searchResults == SearchResults(production, search)
    {
      searchResults := SearchResults(production, search);
    }

    /** The player edits the box: its text becomes `text` and `OnChanged` fires with it. */
    method ChangeSearchText(text: string)
      requires Valid()
      modifies this`searchText, this`searchResults
      ensures searchText == text
      ensures searchResults == SearchResults(production, Some(text))
      ensures Valid()
    {
      searchText := text;
      ReceiveSearchTextboxChanged(Some(text));
    }

    predicate IsFiltering()
      reads this
    {
      searchText != ""
    }

    predicate IsSearchTextBoxFocused()
      reads this
    {
      searchSelected
    }

    /**
     * The entries the menu lists: the whole production while the box is empty,
     * otherwise the search results for its text — never anything that is not
     * part of the production.
     */
    function VisibleItems(): (items: seq<ItemStock>)
      requires Valid()
      reads this
      ensures !IsFiltering() ==> items == production
      ensures IsFiltering() ==> items == SearchResults(production, Some(searchText))
      ensures forall e :: e in items ==> e in production
    {
      var items := if IsFiltering() then searchResults else production;
      assert forall e :: e in items ==> e in production by {
        if IsFiltering() && !AllSpaces(searchText) {
          assert Words(searchText) != [];
        }
      }
      items
    }

    /** `ScrollUp(amount)`: move up by `amount`, or by the configured amount; the subtraction wraps at 32 bits. */
    method ScrollUp(amount: Option<int32>)
      modifies this`currentScroll
      ensures currentScroll == Wrap32(old(currentScroll) - amount.GetOr(scrollAmount))
    {
      currentScroll := Wrap32(currentScroll - amount.GetOr(scrollAmount));
    }

    /** `ScrollDown(amount)`: move down by `amount`, or by the configured amount; the addition wraps at 32 bits. */
    method ScrollDown(amount: Option<int32>)
      modifies this`currentScroll
      ensures currentScroll == Wrap32(old(currentScroll) + amount.GetOr(scrollAmount))
    {
      currentScroll := Wrap32(currentScroll + amount.GetOr(scrollAmount));
    }

    /** A positive wheel direction scrolls up; zero and negative directions scroll down. */
    method ReceiveScrollWheelAction(direction: int32)
      modifies this`currentScroll
      ensures direction > 0 ==> currentScroll == Wrap32(old(currentScroll) - scrollAmount)
      ensures direction <= 0 ==> currentScroll == Wrap32(old(currentScroll) + scrollAmount)
    {
      if direction > 0 {
        ScrollUp(None);
      } else {
        ScrollDown(None);
      }
    }

    /**
     * Escape first takes focus away from the search box; with the box not
     * focused it exits the menu and raises `Closing`. Other keys do nothing.
     */
    method ReceiveKeyPress(key: Key) returns (closing: bool)
      modifies this`searchSelected, this`exited
      ensures closing <==> key == Escape && !old(searchSelected)
      ensures key == Escape && old(searchSelected) ==> !searchSelected && exited == old(exited)
      ensures closing ==> exited && searchSelected == old(searchSelected)
      ensures key != Escape ==> searchSelected == old(searchSelected) && exited == old(exited)
    {
      closing := false;
      if key == Escape {
        if IsSearchTextBoxFocused() {
          searchSelected := false;
        } else {
          exited := true;
          closing := true;
        }
      }
    }

    method FocusSearch()
      modifies this`searchSelected
      ensures searchSelected
    {
      searchSelected := true;
    }

    /** The clamp at the start of drawing: not above the top, then not below the bottom. */
    method ClampScroll()
      modifies this`currentScroll
      ensures old(currentScroll) < 0 ==> currentScroll == if maxScroll < 0 then maxScroll else 0
      ensures 0 <= old(currentScroll) <= maxScroll ==> currentScroll == old(currentScroll)
      ensures old(currentScroll) > maxScroll ==> currentScroll == maxScroll
      ensures maxScroll >= 0 ==> 0 <= currentScroll <= maxScroll
    {
      if currentScroll < 0 {
        currentScroll := 0;
      }
      if maxScroll < currentScroll {
        currentScroll := maxScroll;
      }
    }

    /** The new scroll bound once the content has been laid out; `extent` is how far the content reaches below the view. */
    method UpdateMaxScroll(extent: int32)
      modifies this`maxScroll
      ensures maxScroll >= 0
      ensures extent >= 0 ==> maxScroll == extent
      ensures extent < 0 ==> maxScroll == 0
    {
      maxScroll := if extent > 0 then extent else 0;
    }

    /**
     * The scroll part of one draw: clamp against the bound from the previous
     * draw, then recompute the bound. The position is therefore within the
     * bound that was in force when the draw began.
     */
    method DrawScroll(extent: int32)
      requires Valid()
      modifies this`currentScroll, this`maxScroll
      ensures old(currentScroll) < 0 ==> currentScroll == 0
      ensures 0 <= old(currentScroll) <= old(maxScroll) ==> currentScroll == old(currentScroll)
      ensures old(currentScroll) > old(maxScroll) ==> currentScroll == old(maxScroll)
      ensures maxScroll == if extent < 0 then 0 else extent
      ensures Valid()
    {
      ClampScroll();
      UpdateMaxScroll(extent);
    }
  }

  /** Content reaching 600 pixels below the view: scrolling down by 900 is held at 600 by the next draw. */
  method ScrollPastBottom() returns (scroll: int)
    ensures scroll == 600
  {
    var menu := new ProductionMenu([], 40);
    menu.DrawScroll(600);
    menu.ScrollDown(Some(900));
    menu.DrawScroll(600);
    scroll := menu.currentScroll;
  }
}
