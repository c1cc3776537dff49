/**
 * The search of the production menu (`ProductionMenu.ReceiveSearchTextboxChanged`):
 * the query is split on spaces; an entry is kept when its display name contains
 * every word, ignoring case; the kept entries are ordered, stably, by the
 * smallest first-match position of any word.
 */
module MenuSearch {
  import opened GameItems
  import opened Wrappers

  // ---------------------------------------------------------------------------
  // Splitting the query
  // ---------------------------------------------------------------------------

  /** A piece of a split: not empty, no space in it. */
  predicate IsWord(w: string) {
    |w| > 0 && forall i :: 0 <= i < |w| ==> w[i] != ' '
  }

  predicate AllSpaces(s: string) {
    forall i :: 0 <= i < |s| ==> s[i] == ' '
  }

  /** Length of the run of non-space characters that starts `s`. */
  function WordLength(s: string): (n: nat)
    ensures n <= |s|
    ensures forall i :: 0 <= i < n ==> s[i] != ' '
    ensures n < |s| ==> s[n] == ' '
  {
    if s == [] || s[0] == ' ' then 0 else 1 + WordLength(s[1..])
  }

  /** `s.Split(new[] { ' ' }, StringSplitOptions.RemoveEmptyEntries)`. */
  function Words(s: string): (words: seq<string>)
    ensures forall i :: 0 <= i < |words| ==> IsWord(words[i])
    ensures words == [] <==> AllSpaces(s)
    decreases |s|
  {
    if s == [] then []
    else if s[0] == ' ' then
      assert AllSpaces(s) <==> AllSpaces(s[1..]) by {
        assert forall i :: 0 < i < |s| ==> s[i] == s[1..][i - 1];
      }
      Words(s[1..])
    else
      var n := WordLength(s);
      [s[..n]] + Words(s[n..])
  }

  /** Words put back together with one space between each two. */
  function JoinWithSpaces(words: seq<string>): string {
    if words == [] then ""
    else if |words| == 1 then words[0]
    else words[0] + " " + JoinWithSpaces(words[1..])
  }

  lemma {:induction false} WordLengthOfWord(w: string, rest: string)
    requires IsWord(w)
    requires rest == [] || rest[0] == ' '
    ensures WordLength(w + rest) == |w|
  {
    var s := w + rest;
    assert s[0] == w[0];
    if |w| == 1 {
      assert s[1..] == rest;
    } else {
      assert s[1..] == w[1..] + rest;
      WordLengthOfWord(w[1..], rest);
    }
  }

  lemma {:induction false} WordsAfterWord(w: string, rest: string)
    requires IsWord(w)
    requires rest == [] || rest[0] == ' '
    ensures Words(w + rest) == [w] + Words(rest)
  {
    var s := w + rest;
    WordLengthOfWord(w, rest);
    assert s[0] == w[0];
    assert s[..|w|] == w;
    assert s[|w|..] == rest;
  }

  lemma {:induction false} WordsAfterSpace(tail: string)
    ensures Words(" " + tail) == Words(tail)
  {
    assert (" " + tail)[1..] == tail;
  }

  /** Splitting words joined by spaces gives the words back: only a space separates. */
  lemma {:induction false} WordsOfJoin(words: seq<string>)
    requires forall i :: 0 <= i < |words| ==> IsWord(words[i])
    ensures Words(JoinWithSpaces(words)) == words
  {
    if words == [] {
    } else if |words| == 1 {
      var w := words[0];
      WordsAfterWord(w, "");
      assert w + "" == w;
    } else {
      var w := words[0];
      var tail := JoinWithSpaces(words[1..]);
      assert JoinWithSpaces(words) == w + (" " + tail);
      WordsAfterWord(w, " " + tail);
      WordsAfterSpace(tail);
      WordsOfJoin(words[1..]);
      assert words == [w] + words[1..];
    }
  }

  // ---------------------------------------------------------------------------
  // `IndexOf(word, StringComparison.OrdinalIgnoreCase)`
  // ---------------------------------------------------------------------------

  /** Upper-case mapping of ASCII letters; every other character maps to itself. */
  function UpperAscii(c: char): char {
    if 'a' <= c <= 'z' then (c as int - 32) as char else c
  }

  predicate SameIgnoringCase(a: string, b: string) {
    |a| == |b| && forall k :: 0 <= k < |a| ==> UpperAscii(a[k]) == UpperAscii(b[k])
  }

  /** `word` occurs in `text` at position `i`, ignoring case. */
  predicate MatchesAt(text: string, word: string, i: int) {
    0 <= i && i + |word| <= |text| && SameIgnoringCase(text[i..i + |word|], word)
  }

  /** The first match at or after `from`, or -1. */
  function IndexFrom(text: string, word: string, from: nat): (r: int)
    ensures r == -1 || (from <= r && MatchesAt(text, word, r))
    ensures forall i :: from <= i && (r == -1 || i < r) ==> !MatchesAt(text, word, i)
    decreases |text| + 1 - from
  {
    if from + |word| > |text| then -1
    else if MatchesAt(text, word, from) then from
    else IndexFrom(text, word, from + 1)
  }

  /** `text.IndexOf(word, StringComparison.OrdinalIgnoreCase)`: the first match, or -1 when there is none. */
  function IndexOfIgnoreCase(text: string, word: string): (r: int)
    ensures -1 <= r
    ensures r >= 0 ==> MatchesAt(text, word, r) && forall i :: 0 <= i < r ==> !MatchesAt(text, word, i)
    ensures r >= 0 <==> exists i :: MatchesAt(text, word, i)
  {
    IndexFrom(text, word, 0)
  }

  /** `words.All(word => text.IndexOf(word, OrdinalIgnoreCase) >= 0)`. */
  predicate ContainsAll(text: string, words: seq<string>) {
    forall k :: 0 <= k < |words| ==> IndexOfIgnoreCase(text, words[k]) >= 0
  }

  /** `words.Select(word => text.IndexOf(word, OrdinalIgnoreCase)).Min()`. */
  function MinIndex(text: string, words: seq<string>): (m: int)
    requires words != []
    ensures forall k :: 0 <= k < |words| ==> m <= IndexOfIgnoreCase(text, words[k])
    ensures exists k :: 0 <= k < |words| && m == IndexOfIgnoreCase(text, words[k])
  {
    if |words| == 1 then IndexOfIgnoreCase(text, words[0])
    else
      var rest := MinIndex(text, words[1..]);
      var here := IndexOfIgnoreCase(text, words[0]);
      assert forall k :: 1 <= k < |words| ==> words[k] == words[1..][k - 1];
      if here <= rest then here else rest
  }

  /** The sort key of an entry: its best match position. */
  function Rank(entry: ItemStock, words: seq<string>): int
    requires words != []
  {
    MinIndex(entry.item.displayName, words)
  }

  // ---------------------------------------------------------------------------
  // Filtering and ordering
  // ---------------------------------------------------------------------------

  /** `Where(entry => words.All(...))`, order kept. */
  function Matching(entries: seq<ItemStock>, words: seq<string>): (r: seq<ItemStock>)
    ensures forall e :: e in r ==> e in entries && ContainsAll(e.item.displayName, words)
    ensures forall e :: e in entries && ContainsAll(e.item.displayName, words) ==> e in r
    ensures forall e {:trigger multiset(r)[e]} :: e in entries ==>
              multiset(r)[e] == if ContainsAll(e.item.displayName, words) then multiset(entries)[e] else 0
  {
    if entries == [] then []
    else
      var e := entries[|entries| - 1];
      var rest := Matching(entries[..|entries| - 1], words);
      assert entries == entries[..|entries| - 1] + [e];
      if ContainsAll(e.item.displayName, words) then rest + [e] else rest
  }

  /** Filtering keeps the input's order: the matches of a concatenation are the matches of each part. */
  lemma {:induction false} MatchingOfConcat(a: seq<ItemStock>, b: seq<ItemStock>, words: seq<string>)
    ensures Matching(a + b, words) == Matching(a, words) + Matching(b, words)
  {
    if b == [] {
      assert a + b == a;
    } else {
      var init := b[..|b| - 1];
      var e := b[|b| - 1];
      var kept := if ContainsAll(e.item.displayName, words) then [e] else [];
      assert Matching(a + b, words) == Matching(a + init, words) + kept by {
        assert (a + b)[..|a + b| - 1] == a + init;
      }
      assert Matching(b, words) == Matching(init, words) + kept;
      MatchingOfConcat(a, init, words);
    }
  }

  predicate SortedByRank(s: seq<ItemStock>, words: seq<string>)
    requires words != []
  {
    forall i, j :: 0 <= i < j < |s| ==> Rank(s[i], words) <= Rank(s[j], words)
  }

  /** The entries of rank `k`, order kept. Equal-rank entries keeping their order is what stable means. */
  function WithRank(s: seq<ItemStock>, words: seq<string>, k: int): seq<ItemStock>
    requires words != []
  {
    if s == [] then []
    else WithRank(s[..|s| - 1], words, k) + (if Rank(s[|s| - 1], words) == k then [s[|s| - 1]] else [])
  }

  /** `Select(entry => (entry, rank))`. */
  function Keyed(entries: seq<ItemStock>, words: seq<string>): (pairs: seq<(ItemStock, int)>)
    requires words != []
    ensures |pairs| == |entries|
  {
    if entries == [] then [] else Keyed(entries[..|entries| - 1], words) + [(entries[|entries| - 1], Rank(entries[|entries| - 1], words))]
  }

  /** `Select(x => x.entry)`. */
  function Firsts<T>(pairs: seq<(T, int)>): (r: seq<T>)
    ensures |r| == |pairs|
  {
    if pairs == [] then [] else Firsts(pairs[..|pairs| - 1]) + [pairs[|pairs| - 1].0]
  }

  /** Dropping the ranks gives back the entries that were keyed. */
  lemma {:induction false} FirstsOfKeyed(entries: seq<ItemStock>, words: seq<string>)
    requires words != []
    ensures Firsts(Keyed(entries, words)) == entries
  {
    if entries != [] {
      var init := entries[..|entries| - 1];
      var e := entries[|entries| - 1];
      var pair := (e, Rank(e, words));
      assert Keyed(entries, words) == Keyed(init, words) + [pair];
      assert Firsts(Keyed(init, words) + [pair]) == Firsts(Keyed(init, words)) + [e] by {
        FirstsOfAppend(Keyed(init, words), pair);
      }
      assert Firsts(Keyed(init, words)) == init by {
        FirstsOfKeyed(init, words);
      }
      assert entries == init + [e];
    }
  }

  /** Every key `Keyed` attaches is its entry's rank. */
  lemma {:induction false} KeyedCarriesRanks(entries: seq<ItemStock>, words: seq<string>)
    requires words != []
    ensures KeysAreRanks(Keyed(entries, words), words)
  {
    if entries != [] {
      var init := entries[..|entries| - 1];
      KeyedCarriesRanks(init, words);
      assert Keyed(entries, words) == Keyed(init, words) + [(entries[|entries| - 1], Rank(entries[|entries| - 1], words))];
    }
  }

  lemma {:induction false} FirstsAt<T>(pairs: seq<(T, int)>, i: nat)
    requires i < |pairs|
    ensures Firsts(pairs)[i] == pairs[i].0
  {
    if i < |pairs| - 1 {
      FirstsAt(pairs[..|pairs| - 1], i);
    }
  }

  predicate SortedByKey<T>(s: seq<(T, int)>) {
    forall i, j :: 0 <= i < j < |s| ==> s[i].1 <= s[j].1
  }

  /** The pairs whose key is `k`, order kept. */
  function WithKey<T>(s: seq<(T, int)>, k: int): seq<(T, int)> {
    if s == [] then []
    else WithKey(s[..|s| - 1], k) + (if s[|s| - 1].1 == k then [s[|s| - 1]] else [])
  }

  /** Put `x` after every pair whose key is not greater than its own. */
  function InsertByKey<T>(sorted: seq<(T, int)>, x: (T, int)): seq<(T, int)> {
    if sorted == [] then [x]
    else
      var last := sorted[|sorted| - 1];
      if last.1 <= x.1 then sorted + [x]
      else InsertByKey(sorted[..|sorted| - 1], x) + [last]
  }

  /** `OrderBy(x => x.Item2)`: an insertion sort that keeps equal keys in input order. */
  function OrderByKey<T>(s: seq<(T, int)>): seq<(T, int)> {
    if s == [] then [] else InsertByKey(OrderByKey(s[..|s| - 1]), s[|s| - 1])
  }

  lemma {:induction false} FirstsOfAppend<T>(s: seq<(T, int)>, p: (T, int))
    ensures Firsts(s + [p]) == Firsts(s) + [p.0]
  {
    assert (s + [p])[..|s|] == s;
  }

  lemma {:induction false} InsertByKeyMultiset<T>(sorted: seq<(T, int)>, x: (T, int))
    ensures multiset(InsertByKey(sorted, x)) == multiset(sorted) + multiset{x}
  {
    if sorted != [] {
      var last := sorted[|sorted| - 1];
      var init := sorted[..|sorted| - 1];
      assert sorted == init + [last];
      if last.1 > x.1 {
        InsertByKeyMultiset(init, x);
      }
    }
  }

  lemma {:induction false} InsertByKeyFirstsMultiset<T>(sorted: seq<(T, int)>, x: (T, int))
    ensures multiset(Firsts(InsertByKey(sorted, x))) == multiset(Firsts(sorted)) + multiset{x.0}
  {
    if sorted == [] {
      FirstsOfAppend([], x);
    } else {
      var last := sorted[|sorted| - 1];
      var init := sorted[..|sorted| - 1];
      assert sorted == init + [last];
      FirstsOfAppend(init, last);
      if last.1 > x.1 {
        var mid := InsertByKey(init, x);
        assert InsertByKey(sorted, x) == mid + [last];
        InsertByKeyFirstsMultiset(init, x);
        FirstsOfAppend(mid, last);
        assert multiset(Firsts(mid + [last])) == multiset(Firsts(mid)) + multiset{last.0};
        assert multiset(Firsts(sorted)) == multiset(Firsts(init)) + multiset{last.0};
      } else {
        assert InsertByKey(sorted, x) == sorted + [x];
        FirstsOfAppend(sorted, x);
      }
    }
  }

  /** No key in `s` is above `bound`. */
  predicate KeysAtMost<T>(s: seq<(T, int)>, bound: int) {
    forall i :: 0 <= i < |s| ==> s[i].1 <= bound
  }

  lemma {:induction false} InsertByKeyKeepsBound<T>(sorted: seq<(T, int)>, x: (T, int), bound: int)
    requires KeysAtMost(sorted, bound) && x.1 <= bound
    ensures KeysAtMost(InsertByKey(sorted, x), bound)
  {
    if sorted != [] && sorted[|sorted| - 1].1 > x.1 {
      InsertByKeyKeepsBound(sorted[..|sorted| - 1], x, bound);
    }
  }

  lemma {:induction false} AppendKeepsSorted<T>(s: seq<(T, int)>, x: (T, int))
    requires SortedByKey(s) && KeysAtMost(s, x.1)
    ensures SortedByKey(s + [x])
  {
  }

  lemma {:induction false} InsertByKeySorted<T>(sorted: seq<(T, int)>, x: (T, int))
    requires SortedByKey(sorted)
    ensures SortedByKey(InsertByKey(sorted, x))
  {
    if sorted == [] {
    } else {
      var last := sorted[|sorted| - 1];
      var init := sorted[..|sorted| - 1];
      assert KeysAtMost(sorted, last.1);
      if last.1 <= x.1 {
        AppendKeepsSorted(sorted, x);
      } else {
        assert SortedByKey(init) && KeysAtMost(init, last.1);
        InsertByKeySorted(init, x);
        InsertByKeyKeepsBound(init, x, last.1);
        AppendKeepsSorted(InsertByKey(init, x), last);
      }
    }
  }

  lemma {:induction false} InsertByKeyStable<T>(sorted: seq<(T, int)>, x: (T, int), k: int)
    requires SortedByKey(sorted)
    ensures WithKey(InsertByKey(sorted, x), k) == WithKey(sorted, k) + (if x.1 == k then [x] else [])
  {
    var r := InsertByKey(sorted, x);
    if sorted == [] {
      assert r[..0] == [];
    } else {
      var last := sorted[|sorted| - 1];
      var init := sorted[..|sorted| - 1];
      if last.1 <= x.1 {
        assert r[..|r| - 1] == sorted;
      } else {
        var mid := InsertByKey(init, x);
        assert r == mid + [last];
        assert r[..|r| - 1] == mid;
        InsertByKeyStable(init, x, k);
      }
    }
  }

  /** The ordering is a permutation, sorted by key, and stable. */
  lemma {:induction false} OrderByKeyFacts<T>(s: seq<(T, int)>)
    ensures multiset(OrderByKey(s)) == multiset(s)
    ensures multiset(Firsts(OrderByKey(s))) == multiset(Firsts(s))
    ensures SortedByKey(OrderByKey(s))
    ensures forall k :: WithKey(OrderByKey(s), k) == WithKey(s, k)
  {
    if s != [] {
      var init := s[..|s| - 1];
      var last := s[|s| - 1];
      assert s == init + [last];
      OrderByKeyFacts(init);
      InsertByKeyMultiset(OrderByKey(init), last);
      InsertByKeyFirstsMultiset(OrderByKey(init), last);
      FirstsOfAppend(init, last);
      InsertByKeySorted(OrderByKey(init), last);
      forall k ensures WithKey(OrderByKey(s), k) == WithKey(s, k) {
        InsertByKeyStable(OrderByKey(init), last, k);
      }
    }
  }

  /** Every pair's key is its entry's rank. */
  predicate KeysAreRanks(s: seq<(ItemStock, int)>, words: seq<string>)
    requires words != []
  {
    forall i :: 0 <= i < |s| ==> s[i].1 == Rank(s[i].0, words)
  }

  lemma {:induction false} FirstsSortedByRank(s: seq<(ItemStock, int)>, words: seq<string>)
    requires words != []
    requires KeysAreRanks(s, words) && SortedByKey(s)
    ensures SortedByRank(Firsts(s), words)
  {
    var r := Firsts(s);
    forall i, j | 0 <= i < j < |r| ensures Rank(r[i], words) <= Rank(r[j], words) {
      FirstsAt(s, i);
      FirstsAt(s, j);
    }
  }

  /** Ordering the keyed entries keeps every pair's key equal to its entry's rank. */
  lemma {:induction false} KeyedOrderCarriesRanks(entries: seq<ItemStock>, words: seq<string>)
    requires words != []
    ensures KeysAreRanks(OrderByKey(Keyed(entries, words)), words)
  {
    var keyed := Keyed(entries, words);
    var r := OrderByKey(keyed);
    OrderByKeyFacts(keyed);
    KeyedCarriesRanks(entries, words);
    forall i | 0 <= i < |r| ensures r[i].1 == Rank(r[i].0, words) {
      assert r[i] in multiset(r);
      assert r[i] in keyed;
    }
  }

  /** On pairs that carry their entry's rank, selecting the rank-`k` pairs selects the rank-`k` entries. */
  lemma {:induction false} WithKeyIsWithRank(s: seq<(ItemStock, int)>, words: seq<string>, k: int)
    requires words != []
    requires KeysAreRanks(s, words)
    ensures Firsts(WithKey(s, k)) == WithRank(Firsts(s), words, k)
  {
    if s != [] {
      var init := s[..|s| - 1];
      var last := s[|s| - 1];
      assert s == init + [last];
      assert KeysAreRanks(init, words) by {
        assert forall i :: 0 <= i < |init| ==> init[i] == s[i];
      }
      WithKeyIsWithRank(init, words, k);
      FirstsOfAppend(init, last);
      WithRankOfAppend(Firsts(init), last.0, words, k);
      var w := WithKey(init, k);
      assert WithKey(s, k) == w + (if last.1 == k then [last] else []);
      if last.1 == k {
        FirstsOfAppend(w, last);
      } else {
        assert w + [] == w;
      }
    }
  }

  lemma {:induction false} WithRankOfAppend(s: seq<ItemStock>, e: ItemStock, words: seq<string>, k: int)
    requires words != []
    ensures WithRank(s + [e], words, k) == WithRank(s, words, k) + (if Rank(e, words) == k then [e] else [])
  {
    assert (s + [e])[..|s|] == s;
  }

  // ---------------------------------------------------------------------------
  // The search
  // ---------------------------------------------------------------------------

  /**
   * `Select(entry => (entry, rank)).OrderBy(x => x.Item2).Select(x => x.entry)`:
   * the same entries, by ascending rank, stably.
   */
  function OrderByRank(entries: seq<ItemStock>, words: seq<string>): (r: seq<ItemStock>)
    requires words != []
    ensures multiset(r) == multiset(entries)
    ensures SortedByRank(r, words)
    ensures forall k :: WithRank(r, words, k) == WithRank(entries, words, k)
  {
    var keyed := Keyed(entries, words);
    var sorted := OrderByKey(keyed);
    var r := Firsts(sorted);
    FirstsOfKeyed(entries, words);
    KeyedCarriesRanks(entries, words);
    OrderByKeyFacts(keyed);
    KeyedOrderCarriesRanks(entries, words);
    FirstsSortedByRank(sorted, words);
    assert forall k :: WithRank(r, words, k) == WithRank(entries, words, k) by {
      forall k ensures WithRank(r, words, k) == WithRank(entries, words, k) {
        WithKeyIsWithRank(sorted, words, k);
        WithKeyIsWithRank(keyed, words, k);
      }
    }
    r
  }

  /**
   * `ReceiveSearchTextboxChanged`'s result list: a query of spaces only keeps the
   * whole production; otherwise the entries containing every word, by rank.
   */
  function SearchResults(production: seq<ItemStock>, search: Option<string>): (r: seq<ItemStock>)
    ensures AllSpaces(search.GetOr("")) ==> r == production
    ensures var words := Words(search.GetOr(""));
            words != [] ==>
              && (forall e :: e in r ==> e in production && ContainsAll(e.item.displayName, words))
              && (forall e :: e in production && ContainsAll(e.item.displayName, words) ==> e in r)
              && multiset(r) == multiset(Matching(production, words))
              && SortedByRank(r, words)
              && (forall k :: WithRank(r, words, k) == WithRank(Matching(production, words), words, k))
  {
    var words := Words(search.GetOr(""));
    if words == [] then production
    else
      var matching := Matching(production, words);
      var r := OrderByRank(matching, words);
      assert forall e :: e in r ==> e in multiset(matching);
      assert forall e :: e in matching ==> e in multiset(r);
      r
  }
}
