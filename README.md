# ProductionStats in Dafny

ProductionStats is a Stardew Valley mod. It keeps a log of the items the
player gains and loses, and it answers "how much of each item was produced"
for a day, a week, a season, a year or any date range. It also shows a menu
of what the player holds now, with a search box, a rotating sort order and a
scrollable list. This project models the logic behind both parts and proves
what each part promises.

- **Production log** (`Inventory`, with `Calendar` and `TrackedItems`).
  - An `InventoryTracker` class owns a `seq<TrackedItem>` that only grows, plus the `start` date.
  - A query keeps the records of a window, groups them by item and sums each group.
  - It then drops every group whose sum is not positive.
  - Every query is specified by `IsNetProduction`. It gives one row per item, each row's count is that item's net count and is positive, and no item with a positive net count is missing.
  - The named windows are shown to select exactly the records of the day, season or year.
  - Splitting a range splits every item's net count between the two parts.
- **Live stock snapshot** (`Mod.GetItemSubjects`).
  - The loop folds possibly-null item slots into a dictionary keyed by the item's `Name`.
  - It is proved to give one entry per distinct name, in first-appearance order.
  - Each entry is seeded with the first item of its name and counts the stacks of all items of that name.
  - The counts add up to every stack.
- **Sort queue and menu stack** (`Mod.ModEntry`).
  - The five-order queue is shown to apply None, name up, name down, count up, count down, and then again.
  - Five successful sorts restore the queue.
  - A sort is skipped, leaving the queue untouched, on any other menu or while the search box has focus.
  - The stack of hidden menus keeps only menus worth restoring.
- **Search and scroll** (`MenuSearch`, `ProductionMenus.ProductionMenu`).
  - The query is split on spaces. Entries whose display name contains every word, ignoring ASCII case, are kept.
  - The kept entries are ordered stably by the smallest first-match position. This is proved as a permutation of the matching entries, sorted and stable.
  - Scrolling is unchecked 32-bit arithmetic. Moving up and then down by the same amount is the identity even when the value wraps.
  - The clamp in `draw` keeps the position inside the bound.
- **Supporting pieces.**
  - The two item equality comparers (an equivalence relation, hash agreement, and which is coarser).
  - The saved-tuple round trip of `TrackedItem`.
  - The `SortOrder` label table.
  - `ToItemStock`.

Behaviour of the code worth noting:

- The scroll clamp runs before `_maxScroll` is recomputed (`ProductionMenu.cs:450-453` then `:551`). A draw therefore clamps against the bound of the previous draw. `DrawScroll` states this.
- `Sort` is skipped while the search box is focused (`ModEntry.cs:173`).
- The snapshot is keyed by `Item.Name` (`ModEntry.cs:287-291`).
- Production queries group by `Item`'s own equality (`InventoryTracker.cs:57`, `:97`). Items are objects and group by identity. The comparers are modelled on their own.
- For the query "ore", Iron Ore (match at 5) comes before Iridium Ore (match at 8), by the ordering at `ProductionMenu.cs:167-170` and `SearchResults`'s contract.
- The labels of `AscendingByCount` ("Count (desc)") and `DescendingByCount` ("Count (asc)") are swapped in the source (`SortOrder.cs:18-22`). `SortOrders.Description` keeps them as written.
- Two calls in the source do not match across files:
  - `ModEntry.cs:231-236` constructs a `ProductionMenu` with arguments that do not match its constructor at `ProductionMenu.cs:107-113`;
  - `ModEntry.cs:181` calls a `menu.ApplySort` that `ProductionMenu.cs` does not define.

  The operations are therefore modelled separately and not wired together. `Sort` returns the order it applied and the HUD text it shows.

## Model

| member | source | states |
|---|---|---|
| GameItems.Wrap32 | ProductionStats/Components/ProductionMenu.cs:603-612 | unchecked C# `int` arithmetic: the result is the 32-bit value congruent to the exact result modulo 2^32, and is the exact result whenever that fits |
| Calendar.AtOrBefore | ProductionStats/InventoryTracker.cs:95 | no contract of its own; the year, then season, then day order on dates, which `AtOrBeforeIsTotalOrder` proves a total order |
| Calendar.IsBetween | ProductionStats/InventoryTracker.cs:95 | no contract of its own; `date.IsBetween(start, end)` with both ends included, whose ranges `IsBetweenOneDay`, `SeasonRange`, `YearRange` and `SplitRange` state |
| Calendar.AtOrBeforeIsTotalOrder | ProductionStats/InventoryTracker.cs:95 | the date order used by `IsBetween` is reflexive, antisymmetric, transitive and total |
| Calendar.IsBetweenOneDay | ProductionStats/InventoryTracker.cs:95 | the inclusive range `[d, d]` holds `d` and only `d` |
| Calendar.SeasonRange | ProductionStats/InventoryTracker.cs:129-130 | day 1 to day 28 of a season holds exactly the dates of that season and year |
| Calendar.YearRange | ProductionStats/InventoryTracker.cs:146-147 | Spring 1 to Winter 28 holds exactly the dates of that year |
| Calendar.DateProvider.constructor | ProductionStats/InventoryTracker.cs:19 | the clock starts at the date it is given |
| TrackedItems.FromId | ProductionStats/TrackedItem.cs:23-28 | no contract of its own; `SaveAfterLoad` states what loading promises |
| TrackedItems.FromTuple | ProductionStats/TrackedItem.cs:12-15 | no contract of its own; `SaveAfterLoad` and `SaveAfterLoadAll` state its round trip with `ToSerializeable` |
| TrackedItems.ToSerializeable | ProductionStats/TrackedItem.cs:34-35 | no contract of its own; `SaveAfterLoad` and `SaveAfterLoadAll` state its round trip with `FromTuple` |
| TrackedItems.SaveAfterLoad | ProductionStats/TrackedItem.cs:12-35 | saving a record loaded from a tuple gives the same tuple, when the registry makes items carrying their own id |
| TrackedItems.SaveAfterLoadAll | ProductionStats/TrackedItem.cs:12-35 | the same round trip holds for every tuple of a saved log |
| SortOrders.Description | ProductionStats/SortOrder.cs:10-25 | every order has a non-empty label |
| SortOrders.DescriptionIdentifiesOrder | ProductionStats/SortOrder.cs:12-25 | different orders have different labels |
| EnumerableHelper.ToItemStock | ProductionStats/EnumerableHelper.cs:10-11 | no contract of its own; `ToItemStocks` states the conversion of a whole sequence |
| EnumerableHelper.ToItemStocks | ProductionStats/EnumerableHelper.cs:7-8 | the same length, with element i converted from element i |
| ItemEqualityComparer.GetHashCode | ProductionStats/ItemEqualityComparer.cs:15-16 | the hash is the id's hash plus the quality, in wrapping 32-bit arithmetic |
| ItemEqualityComparer.Equals | ProductionStats/ItemEqualityComparer.cs:11-13 | no contract of its own; `EqualsIsEquivalence`, `HashAgreesWithEquals` and `QualifiedItemIdEqualityComparer.CoarserThanItemEquality` state its properties |
| ItemEqualityComparer.EqualsIsEquivalence | ProductionStats/ItemEqualityComparer.cs:11-13 | the relation is reflexive, symmetric and transitive |
| ItemEqualityComparer.HashAgreesWithEquals | ProductionStats/ItemEqualityComparer.cs:11-16 | alike items hash alike for every string hash |
| QualifiedItemIdEqualityComparer.GetHashCode | ProductionStats/QualifiedItemIdEqualityComparer.cs:14-15 | no contract of its own; `HashAgreesWithEquals` states that it agrees with `Equals` |
| QualifiedItemIdEqualityComparer.Equals | ProductionStats/QualifiedItemIdEqualityComparer.cs:11-12 | no contract of its own; `EqualsIsEquivalence`, `HashAgreesWithEquals`, `CoarserThanItemEquality` and `QualityIsIgnored` state its properties |
| QualifiedItemIdEqualityComparer.EqualsIsEquivalence | ProductionStats/QualifiedItemIdEqualityComparer.cs:11-12 | the relation is reflexive, symmetric and transitive |
| QualifiedItemIdEqualityComparer.HashAgreesWithEquals | ProductionStats/QualifiedItemIdEqualityComparer.cs:11-15 | alike items hash alike for every string hash |
| QualifiedItemIdEqualityComparer.CoarserThanItemEquality | ProductionStats/QualifiedItemIdEqualityComparer.cs:11-12 | items alike by id and quality are alike by id |
| QualifiedItemIdEqualityComparer.QualityIsIgnored | ProductionStats/QualifiedItemIdEqualityComparer.cs:11-12 | items differing only in quality are alike here and not alike under the other comparer |
| Inventory.OnDate | ProductionStats/InventoryTracker.cs:56 | keeps a record if and only if it is in the log and has the given date, with as many copies as the log has |
| Inventory.OnDateOfConcat | ProductionStats/InventoryTracker.cs:56 | the date filter of a concatenation is the concatenation of the filtered parts, so log order is kept |
| Inventory.InRange | ProductionStats/InventoryTracker.cs:95 | keeps a record if and only if it is in the log and its date is in the inclusive range, with as many copies as the log has |
| Inventory.InRangeOfConcat | ProductionStats/InventoryTracker.cs:95 | the range filter of a concatenation is the concatenation of the filtered parts, so log order is kept |
| Inventory.InRangeOfAppend | ProductionStats/InventoryTracker.cs:95 | one more record is kept at the end exactly when its date is in the range |
| Inventory.InSeason | ProductionStats/InventoryTracker.cs:129-133 | keeps a record if and only if it is in the log and dated in that season of that year, with as many copies as the log has |
| Inventory.InSeasonOfConcat | ProductionStats/InventoryTracker.cs:129-133 | the season filter of a concatenation is the concatenation of the filtered parts, so log order is kept |
| Inventory.InYear | ProductionStats/InventoryTracker.cs:146-150 | keeps a record if and only if it is in the log and dated in that year, with as many copies as the log has |
| Inventory.InYearOfConcat | ProductionStats/InventoryTracker.cs:146-150 | the year filter of a concatenation is the concatenation of the filtered parts, so log order is kept |
| Inventory.Total | ProductionStats/InventoryTracker.cs:58 | no contract of its own; `TotalOfAppend`, `TotalOfAbsentItem` and `RangeIsAdditive` state how it adds up |
| Inventory.TotalOfAppend | ProductionStats/InventoryTracker.cs:58 | one more record adds its count to its own item's total and to no other |
| Inventory.Groups | ProductionStats/InventoryTracker.cs:57 | the group keys: no item twice, every key has a record, every record's item is a key |
| Inventory.Summed | ProductionStats/InventoryTracker.cs:58 | one row per key, carrying the key and the sum of its records' counts |
| Inventory.Positive | ProductionStats/InventoryTracker.cs:59 | keeps a row if and only if its count is positive, and keeps keys distinct |
| Inventory.Aggregate | ProductionStats/InventoryTracker.cs:55-59 | no contract of its own; `AggregateIsNetProduction` states what its rows are |
| Inventory.AggregateIsNetProduction | ProductionStats/InventoryTracker.cs:55-59 | group, sum and filter give one row per item, each with its positive net count, and miss no item whose net count is positive |
| Inventory.TotalOfAbsentItem | ProductionStats/InventoryTracker.cs:58 | an item without records nets zero |
| Inventory.NonPositiveNetIsDropped | ProductionStats/InventoryTracker.cs:58-59 | an item whose records net to 0 or less has no row |
| Inventory.GainThenEqualLossNetsNothing | ProductionStats/InventoryTracker.cs:51-60 | +5 then -5 of one item on one day leaves no row for that day |
| Inventory.EmptyLogHasNoRows | ProductionStats/InventoryTracker.cs:55-59 | a query over no records returns no rows |
| Inventory.OnDateIsOneDayRange | ProductionStats/InventoryTracker.cs:51-100 | the records of a date are the records of the one-day range on that date |
| Inventory.SeasonRangeIsSeason | ProductionStats/InventoryTracker.cs:126-134 | the day 1 to day 28 window keeps exactly the season's records |
| Inventory.YearRangeIsYear | ProductionStats/InventoryTracker.cs:143-151 | the Spring 1 to Winter 28 window keeps exactly the year's records |
| Inventory.NextDay | ProductionStats/InventoryTracker.cs:95 | the day after a date: later than it, with no date strictly between them |
| Inventory.SplitRange | ProductionStats/InventoryTracker.cs:95 | a date of `[s, e]` lies in exactly one of `[s, m]` and `[m+1, e]` |
| Inventory.RangeIsAdditive | ProductionStats/InventoryTracker.cs:90-100 | an item's net count over `[s, e]` is its net over `[s, m]` plus its net over `[m+1, e]` |
| Inventory.InventoryTracker.constructor | ProductionStats/InventoryTracker.cs:12-16 | a new tracker has the given clock and start date and no records |
| Inventory.InventoryTracker.Today | ProductionStats/InventoryTracker.cs:19 | no contract of its own; the clock's current date, through which `Add` and the `Produced…` queries are stated |
| Inventory.InventoryTracker.Add | ProductionStats/InventoryTracker.cs:26-29 | appends one record dated with the clock's current date |
| Inventory.InventoryTracker.AddOnDate | ProductionStats/InventoryTracker.cs:37-41 | appends exactly one record with the given fields; earlier records and `start` are unchanged |
| Inventory.InventoryTracker.Produced | ProductionStats/InventoryTracker.cs:51-60 | the net production of the records of that date, and the same rows as the one-day range |
| Inventory.InventoryTracker.ProducedInBetween | ProductionStats/InventoryTracker.cs:90-100 | the net production of the records inside the inclusive range |
| Inventory.InventoryTracker.ProducedToday | ProductionStats/InventoryTracker.cs:69-70 | the net production of the records dated today |
| Inventory.InventoryTracker.ProducedYesterday | ProductionStats/InventoryTracker.cs:78-79 | the net production of the records dated one day before today |
| Inventory.InventoryTracker.ProducedThisWeek | ProductionStats/InventoryTracker.cs:109-117 | the net production of the records between today's first and last weekday |
| Inventory.InventoryTracker.ProducedThisSeason | ProductionStats/InventoryTracker.cs:126-134 | the net production of the records of today's season and year |
| Inventory.InventoryTracker.ProducedThisYear | ProductionStats/InventoryTracker.cs:143-151 | the net production of the records of today's year |
| Inventory.InventoryTracker.Reset | ProductionStats/InventoryTracker.cs:156-159 | no records remain, every date and range query is empty, `start` is unchanged |
| MenuSearch.WordLength | ProductionStats/Components/ProductionMenu.cs:157 | the length of the leading run of non-space characters |
| MenuSearch.Words | ProductionStats/Components/ProductionMenu.cs:157 | every piece is non-empty and space-free; there are no pieces if and only if the text is all spaces; with `WordsAfterWord` and `WordsAfterSpace` this fixes the split of every string |
| MenuSearch.WordLengthOfWord | ProductionStats/Components/ProductionMenu.cs:157 | a word followed by a space or the end has its own length as the leading run |
| MenuSearch.WordsAfterWord | ProductionStats/Components/ProductionMenu.cs:157 | a word followed by a space or the end is the first piece, and the rest is split on its own |
| MenuSearch.WordsAfterSpace | ProductionStats/Components/ProductionMenu.cs:157 | a leading space is dropped, so empty pieces never appear |
| MenuSearch.JoinWithSpaces | ProductionStats/Components/ProductionMenu.cs:157 | no contract of its own; `WordsOfJoin` states that `Words` undoes it |
| MenuSearch.WordsOfJoin | ProductionStats/Components/ProductionMenu.cs:157 | splitting words joined by single spaces gives the words back, so only the space separates |
| MenuSearch.UpperAscii | ProductionStats/Components/ProductionMenu.cs:166 | no contract of its own; the ASCII case folding that `IndexOfIgnoreCase` compares under (see "Left out") |
| MenuSearch.SameIgnoringCase | ProductionStats/Components/ProductionMenu.cs:166 | no contract of its own; `IndexOfIgnoreCase` states what a match is |
| MenuSearch.MatchesAt | ProductionStats/Components/ProductionMenu.cs:166 | no contract of its own; `IndexFrom` and `IndexOfIgnoreCase` state the first match |
| MenuSearch.IndexFrom | ProductionStats/Components/ProductionMenu.cs:166 | the first case-insensitive match at or after a position, or -1 when there is none |
| MenuSearch.IndexOfIgnoreCase | ProductionStats/Components/ProductionMenu.cs:166 | the first case-insensitive match position; non-negative if and only if the word occurs |
| MenuSearch.MinIndex | ProductionStats/Components/ProductionMenu.cs:168-169 | the smallest first-match position over the words, reached by one of them |
| MenuSearch.ContainsAll | ProductionStats/Components/ProductionMenu.cs:166 | no contract of its own; every word has a case-insensitive match, as `IndexOfIgnoreCase` states |
| MenuSearch.Rank | ProductionStats/Components/ProductionMenu.cs:168-169 | no contract of its own; `MinIndex` states that it is the least first-match position |
| MenuSearch.Matching | ProductionStats/Components/ProductionMenu.cs:165-166 | keeps an entry if and only if it is in the input and its display name contains every word, with as many copies as the input has |
| MenuSearch.MatchingOfConcat | ProductionStats/Components/ProductionMenu.cs:165-166 | the matches of a concatenation are the matches of each part in turn, so the production's order is kept |
| MenuSearch.Keyed | ProductionStats/Components/ProductionMenu.cs:167-169 | one pair per entry |
| MenuSearch.Firsts | ProductionStats/Components/ProductionMenu.cs:171 | one entry per pair |
| MenuSearch.FirstsOfKeyed | ProductionStats/Components/ProductionMenu.cs:167-171 | dropping the ranks gives back the entries that were ranked |
| MenuSearch.KeyedCarriesRanks | ProductionStats/Components/ProductionMenu.cs:167-169 | every pair's key is its entry's rank |
| MenuSearch.SortedByRank | ProductionStats/Components/ProductionMenu.cs:170 | no contract of its own; the sortedness `OrderByRank` and `SearchResults` promise |
| MenuSearch.WithRank | ProductionStats/Components/ProductionMenu.cs:170 | no contract of its own; the rank classes whose order `OrderByRank` keeps |
| MenuSearch.SortedByKey | ProductionStats/Components/ProductionMenu.cs:170 | no contract of its own; the sortedness `OrderByKeyFacts` promises |
| MenuSearch.WithKey | ProductionStats/Components/ProductionMenu.cs:170 | no contract of its own; the key classes whose order `OrderByKeyFacts` keeps |
| MenuSearch.InsertByKey | ProductionStats/Components/ProductionMenu.cs:170 | no contract of its own; the `InsertByKey…` lemmas state its properties |
| MenuSearch.OrderByKey | ProductionStats/Components/ProductionMenu.cs:170 | no contract of its own; `OrderByKeyFacts` states that it is a stable sort by key |
| MenuSearch.InsertByKeyMultiset | ProductionStats/Components/ProductionMenu.cs:170 | inserting adds exactly the one pair |
| MenuSearch.InsertByKeyFirstsMultiset | ProductionStats/Components/ProductionMenu.cs:170 | inserting adds exactly the one entry |
| MenuSearch.InsertByKeySorted | ProductionStats/Components/ProductionMenu.cs:170 | inserting into a key-sorted list keeps it sorted |
| MenuSearch.InsertByKeyStable | ProductionStats/Components/ProductionMenu.cs:170 | inserting puts the new pair after every pair of its key, order kept |
| MenuSearch.OrderByKeyFacts | ProductionStats/Components/ProductionMenu.cs:170 | `OrderBy` on the key is a permutation, sorted by key and stable |
| MenuSearch.FirstsSortedByRank | ProductionStats/Components/ProductionMenu.cs:170-171 | a key-sorted list of ranked pairs gives entries sorted by rank |
| MenuSearch.KeyedOrderCarriesRanks | ProductionStats/Components/ProductionMenu.cs:167-170 | after ordering, every key is still its entry's rank |
| MenuSearch.WithKeyIsWithRank | ProductionStats/Components/ProductionMenu.cs:167-171 | selecting a key among ranked pairs selects that rank among the entries |
| MenuSearch.OrderByRank | ProductionStats/Components/ProductionMenu.cs:167-171 | a permutation of the entries, sorted by rank, with equal ranks in input order |
| MenuSearch.SearchResults | ProductionStats/Components/ProductionMenu.cs:154-173 | a null or all-space query gives the whole production; otherwise exactly the entries containing every word, sorted stably by rank |
| ProductionMenus.WrapThenAdd | ProductionStats/Components/ProductionMenu.cs:603-612 | adding to a wrapped value and wrapping again is the same as adding and wrapping once |
| ProductionMenus.UpThenDownCancels | ProductionStats/Components/ProductionMenu.cs:603-612 | scrolling up then down, or down then up, by the same amount returns to the same position even across a wrap |
| ProductionMenus.ProductionMenu.constructor | ProductionStats/Components/ProductionMenu.cs:107-152 | a new menu has its production, scroll amount, an empty unfocused search box, no results and scroll 0 of 0 |
| ProductionMenus.ProductionMenu.ReceiveSearchTextboxChanged | ProductionStats/Components/ProductionMenu.cs:154-173 | the result list becomes the search results of the new text |
| ProductionMenus.ProductionMenu.ChangeSearchText | ProductionStats/Components/ProductionMenu.cs:151 | editing the box sets its text and, through `OnChanged`, the results of that text |
| ProductionMenus.ProductionMenu.VisibleItems | ProductionStats/Components/ProductionMenu.cs:495-497 | the whole production when not filtering, otherwise the search results of the text; never an entry outside the production |
| ProductionMenus.ProductionMenu.IsFiltering | ProductionStats/Components/ProductionMenu.cs:222 | no contract of its own; `VisibleItems` states what it selects |
| ProductionMenus.ProductionMenu.IsSearchTextBoxFocused | ProductionStats/Components/ProductionMenu.cs:224 | no contract of its own; `ReceiveKeyPress` and `Mod.ModEntry.Sort` state what it guards |
| ProductionMenus.ProductionMenu.ScrollUp | ProductionStats/Components/ProductionMenu.cs:603-606 | subtracts the amount, or the configured amount when none is given, in wrapping 32-bit arithmetic; nothing else changes |
| ProductionMenus.ProductionMenu.ScrollDown | ProductionStats/Components/ProductionMenu.cs:609-612 | adds the amount, or the configured amount when none is given, in wrapping 32-bit arithmetic; nothing else changes |
| ProductionMenus.ProductionMenu.ReceiveScrollWheelAction | ProductionStats/Components/ProductionMenu.cs:308-318 | a positive direction scrolls up; zero or negative scrolls down |
| ProductionMenus.ProductionMenu.ReceiveKeyPress | ProductionStats/Components/ProductionMenu.cs:226-240 | Escape unfocuses a focused box; otherwise it exits and raises `Closing`, which happens if and only if the box was not focused; other keys change nothing |
| ProductionMenus.ProductionMenu.FocusSearch | ProductionStats/Components/ProductionMenu.cs:621 | the search box gets focus |
| ProductionMenus.ProductionMenu.ClampScroll | ProductionStats/Components/ProductionMenu.cs:450-453 | not above the top, then not below the bottom; within `[0, max]` whenever `max >= 0` |
| ProductionMenus.ProductionMenu.UpdateMaxScroll | ProductionStats/Components/ProductionMenu.cs:551 | the new bound is the content's overhang, or 0 when there is none |
| ProductionMenus.ProductionMenu.DrawScroll | ProductionStats/Components/ProductionMenu.cs:450-551 | the clamp against the previous bound, then the new bound, which is the overhang or 0 when it is negative; the invariants are kept |
| ProductionMenus.ScrollPastBottom | ProductionStats/Components/ProductionMenu.cs:450-612 | with 600 pixels of overhang, scrolling down 900 is brought back to 600 by the next draw |
| Mod.InitialSortOrdersHoldEveryOrder | ProductionStats/ModEntry.cs:29-36 | the initial queue holds every sort order, each exactly once |
| Mod.Rotate | ProductionStats/ModEntry.cs:179-188 | a rotation keeps the length and brings element n to the front |
| Mod.Cycle | ProductionStats/ModEntry.cs:179-188 | dequeue then enqueue moves the front element to the back |
| Mod.CycleTimes | ProductionStats/ModEntry.cs:179-188 | any number of cycles keeps the length |
| Mod.CycleOfRotate | ProductionStats/ModEntry.cs:179-188 | cycling a rotation by n gives the rotation by n+1, wrapping to 0 |
| Mod.NextModFive | ProductionStats/ModEntry.cs:179-188 | the rotation index after one more sort is the sort count mod 5 |
| Mod.CycleTimesIsRotate | ProductionStats/ModEntry.cs:179-188 | k cycles of a five-element queue are the rotation by k mod 5 |
| Mod.SortStep | ProductionStats/ModEntry.cs:179-188 | one sort applies the order at position n mod 5 and moves to rotation n+1 mod 5 |
| Mod.FiveSortsRestoreQueue | ProductionStats/ModEntry.cs:29-36 | five sorts restore the initial queue |
| Mod.SortOrderOfNthSort | ProductionStats/ModEntry.cs:29-36 | the k-th sort applies None, name up, name down, count up or count down as k mod 5 is 0 to 4 |
| Mod.ShouldRestoreMenu | ProductionStats/ModEntry.cs:266-274 | no contract of its own; `ModEntry.PushMenu` states which menus are pushed, and `ModEntry.Valid` keeps only such menus on the stack |
| Mod.ModEntry.constructor | ProductionStats/ModEntry.cs:23-36 | the queue starts in its initial order and the stack empty |
| Mod.ModEntry.Sort | ProductionStats/ModEntry.cs:165-189 | applies if and only if a production menu is active and its box is unfocused; then the order taken is the front one, the queue is cycled once and the HUD text names the order; otherwise nothing changes |
| Mod.ModEntry.PushMenu | ProductionStats/ModEntry.cs:246-259 | pushes the current menu if and only if it is a menu other than the production menu; the stack then holds only such menus; the new menu becomes active |
| Mod.ModEntry.OnMenuChanged | ProductionStats/ModEntry.cs:102-112 | the new menu becomes active; the top menu is popped and restored instead exactly when a production menu closed to nothing and the stack is not empty; otherwise the stack is unchanged |
| Mod.SortAfterClosing | ProductionStats/ModEntry.cs:102-112 | after a production menu opened over nothing closes, no menu is active and a sort request applies nothing |
| Mod.Names | ProductionStats/ModEntry.cs:284-292 | no contract of its own; `NamesDistinct` and `NamesComplete` state what it lists |
| Mod.StackTotal | ProductionStats/ModEntry.cs:288-291 | no contract of its own; `SnapshotValues` and `NamesConserveStacks` state what it counts |
| Mod.FirstNamed | ProductionStats/ModEntry.cs:287-290 | the first item of a name carries that name, and exists if and only if the name occurs |
| Mod.NamesDistinct | ProductionStats/ModEntry.cs:284-292 | no name is listed twice |
| Mod.NamesComplete | ProductionStats/ModEntry.cs:282-292 | every non-null item's name is listed, and only those names |
| Mod.FirstNamedIsFirst | ProductionStats/ModEntry.cs:287-290 | the seed is an item of the list with no item of its name before it |
| Mod.NoneNamed | ProductionStats/ModEntry.cs:287-290 | when no seed exists, no item has that name |
| Mod.Snapshot | ProductionStats/ModEntry.cs:284-292 | no contract of its own; `SnapshotKeys` and `SnapshotValues` state its keys and values |
| Mod.AllStacks | ProductionStats/ModEntry.cs:284-292 | no contract of its own; the whole sum that `NamesConserveStacks` and `GetItemSubjects` conserve |
| Mod.SumCounts | ProductionStats/ModEntry.cs:284-294 | no contract of its own; the counts' sum that `GetItemSubjects` states |
| Mod.SumTotals | ProductionStats/ModEntry.cs:284-292 | no contract of its own; the per-name sum that `NamesConserveStacks` relates to all stacks |
| Mod.SnapshotKeys | ProductionStats/ModEntry.cs:284-292 | the dictionary has a key for each listed name and no other |
| Mod.SnapshotValues | ProductionStats/ModEntry.cs:284-292 | a key's entry is the first item of that name with the stacks of all items of that name |
| Mod.NamesConserveStacks | ProductionStats/ModEntry.cs:284-294 | the per-name totals add up to all the stacks, so nothing is lost or counted twice |
| Mod.SumCountsOfTotals | ProductionStats/ModEntry.cs:284-294 | the counts of one stock per listed name add up to the per-name totals |
| Mod.GetItemSubjects | ProductionStats/ModEntry.cs:276-295 | one entry per distinct name in first-appearance order, seeded with the first item of the name, counting that name's stacks; null slots are skipped; the counts sum to all stacks |
| Mod.SameNameStacksAdd | ProductionStats/ModEntry.cs:284-294 | stacks of 3 and 4 of one name, with a null slot between them, give one entry of 7 seeded with the first |

## Left out

- Rendering, layout and input plumbing are not modelled. This covers drawing (apart from the clamp and bound lines), `UpdateLayout`'s float layout, `HandleLeftClick`, `receiveGamePadButton`, `gameWindowSizeChanged`, the page-change events, `OnButtonsChanged`, `ToggleMenu`, `ShowMenu`, `ShowMenuFor`, `HideMenu`, `ModEntry.FocusSearch`, `OnGameLaunched`, the configuration, HUD messages and logging. They are game and SMAPI plumbing with no logic of their own.
- The content's height is computed from float text measurements. `DrawScroll` takes that overhang as the parameter `extent`.
- `ApplySort` and the comparators it would use are not defined by the source, so only the queue rotation and the label are modelled.
- The `_exitOnNextTick`, `QueueExit`, `readyToClose` and `update` handshake depends on the game's base menu class. `exitThisMenu` is the flag `exited`.
- `Dispose` is not modelled, because it releases graphics resources.
- Storage containers are left out. The snapshot's input is the flat list of slots, `seq<Item?>`.
- `PerScreen` is left out. The model is one screen.
- Reflection bypass is left out. `PushMenu`'s direct write of `_activeClickableMenu` is the assignment of `activeMenu`, and the difference (the previous menu is not disposed) is not observable in the model.
- `ItemRegistry.Create` is the function parameter `create`, so the freshness of each created item is not modelled. The source creates a new object for every loaded record (`TrackedItem.cs:23-28`). Under the identity grouping of `InventoryTracker.cs:57`, records loaded from save data therefore never group with each other or with live items. After a reload each saved record with a positive count is a row of its own, and one with a count of 0 or less has no row (`InventoryTracker.cs:59`). A saved loss also no longer offsets a saved gain: a saved +5/−5 pair of one item reloads as one row of 5, where before the reload there was none. `ToSerializeable` (`TrackedItem.cs:34-35`) does not save the quality, so a reloaded record's item has the registry's default quality. In the model, loaded records with the same id share one item and group together.
- TrackedItems.TrackedItem: the record's `count` and `Item.stack` are unbounded integers here, while the source uses 32-bit `int`.
- GameItems.NewItemStock: `ItemStock` is not part of this model's source files. That `new ItemStock(item)` starts with a count of 0 is an assumption of the model.
- The runtime's string hash is the function parameter `stringHash`.
- SMAPI's `AddDays`, `FirstWeekday` and `LastWeekday` are function parameters. Only `IsBetween` is defined.
- `EnumExtensions.GetDescription` reads attributes by reflection. Its effect is `SortOrders.Description`.
- `VisualizationDataset` is left out, because it uses `System.Random` and the item registry.
- Save-data access (`IDataHelperHelper`) is left out. Only the tuple form of a record is modelled.
- MenuSearch.UpperAscii: case-insensitive comparison folds ASCII letters only. Ordinal ignore-case folding of other characters is not modelled. Match positions count Unicode scalar values, while C# `IndexOf` counts UTF-16 code units, so a display name with a character outside the Basic Multilingual Plane before the match gets a different `Rank` in the source.
- Mod.GetItemSubjects: the dictionary's `Values` are taken in first-insertion order. That is the order of `Dictionary` when nothing is removed, but the .NET contract does not promise it.
- Mod.GetItemSubjects: `Count += Stack` is unbounded here, so 32-bit overflow of a stock count is not modelled.
- Inventory.InventoryTracker.Produced, ProducedInBetween and the `Produced…` wrappers: the source returns deferred LINQ queries over the live `_trackedItems` (`InventoryTracker.cs:55-59`, `:94-99`). Enumerated after a later `Add` or `Reset`, they show the later list, and an `Add` during enumeration throws `InvalidOperationException`. The model returns a snapshot of the rows taken at the call.
- Inventory.Summed: `Sum` is unbounded here, so the `OverflowException` that checked LINQ `Sum` raises is not modelled.
- The search box widget is reduced to its text and whether it has focus.
- Inventory.Groups: grouping uses object identity of items. It is the default equality of a reference type without an override, which is assumed for the game's `Item`.
