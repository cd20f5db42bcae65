/** Deck construction: category filter, Fisher–Yates shuffle and the forward Wildcard repair pass,
    plus the per-category card counts shown on the setup screen. The card catalog is an input
    sequence and the random draws are supplied, one real in [0, 1) per shuffle iteration. */
module CardUtils {
  import opened Types

  // ---------------------------------------------------------------------------------------------
  // Filtering

  /** The cards of `cards` whose category is in `cats`, in catalog order. */
  function KeepCategories(cards: seq<Card>, cats: seq<Category>): (r: seq<Card>)
    ensures |r| <= |cards|
  {
    if cards == [] then []
    else (if cards[0].category in cats then [cards[0]] else []) + KeepCategories(cards[1..], cats)
  }

  /** The deck before shuffling: a present, non-empty selection keeps only its categories;
      an absent or empty selection keeps the whole catalog. */
  function FilterDeck(catalog: seq<Card>, selected: Option<seq<Category>>): seq<Card>
  {
    if selected.Some? && |selected.value| > 0 then KeepCategories(catalog, selected.value) else catalog
  }

  /** Each card occurs in the filtered list exactly as often as in the catalog if its category is
      selected, and not at all otherwise. */
  lemma {:induction false} KeepCategoriesCount(cards: seq<Card>, cats: seq<Category>, c: Card)
    ensures multiset(KeepCategories(cards, cats))[c] == if c.category in cats then multiset(cards)[c] else 0
  {
    if cards != [] {
      var head := if cards[0].category in cats then [cards[0]] else [];
      var rest := KeepCategories(cards[1..], cats);
      KeepCategoriesCount(cards[1..], cats, c);
      assert KeepCategories(cards, cats) == head + rest;
      assert multiset(head + rest) == multiset(head) + multiset(rest);
      assert multiset(cards) == multiset{cards[0]} + multiset(cards[1..]) by {
        assert cards == [cards[0]] + cards[1..];
      }
    }
  }

  lemma FilterDeckExact(catalog: seq<Card>, selected: Option<seq<Category>>, c: Card)
    ensures selected.Some? && |selected.value| > 0 ==>
      multiset(FilterDeck(catalog, selected))[c] == if c.category in selected.value then multiset(catalog)[c] else 0
    ensures selected.None? || selected.value == [] ==> FilterDeck(catalog, selected) == catalog
  {
    if selected.Some? && |selected.value| > 0 {
      KeepCategoriesCount(catalog, selected.value, c);
    }
  }

  // ---------------------------------------------------------------------------------------------
  // Fisher–Yates

  /** Every draw is a value Math.random() can return. */
  predicate ValidDraws(draws: seq<real>) {
    forall k :: 0 <= k < |draws| ==> 0.0 <= draws[k] < 1.0
  }

  /** Math.floor(r * (i + 1)) for a draw r in [0, 1): always an index in [0, i]. */
  function PickIndex(r: real, i: nat): (j: int)
    requires 0.0 <= r < 1.0
    ensures 0 <= j <= i
  {
    var m := (i + 1) as real;
    assert r * m < m by {
      assert (1.0 - r) * m > 0.0;
    }
    (r * m).Floor
  }

  /** The indices a shuffle of n cards may pick: iteration k (at position n - 1 - k) swaps with an
      index in [0, n - 1 - k]. */
  predicate ValidPicks(picks: seq<int>, n: nat) {
    n <= |picks| + 1 && forall k :: 0 <= k < n - 1 ==> 0 <= picks[k] <= n - 1 - k
  }

  /** The indices the shuffle of n cards picks from the draws, one per iteration. */
  function PicksFromDraws(draws: seq<real>, n: nat): (picks: seq<int>)
    requires ValidDraws(draws) && n <= |draws| + 1
    ensures |picks| == if n == 0 then 0 else n - 1
    ensures ValidPicks(picks, n)
  {
    seq(if n == 0 then 0 else n - 1, k requires 0 <= k < n - 1 => PickIndex(draws[k], n - 1 - k))
  }

  function Swap(s: seq<Card>, i: nat, j: nat): (r: seq<Card>)
    requires i < |s| && j < |s|
    ensures |r| == |s|
  {
    s[i := s[j]][j := s[i]]
  }

  /** A swap exchanges two positions, keeps all others and keeps the multiset of cards. */
  lemma SwapFacts(s: seq<Card>, i: nat, j: nat)
    requires i < |s| && j < |s|
    ensures Swap(s, i, j)[i] == s[j] && Swap(s, i, j)[j] == s[i]
    ensures forall m :: 0 <= m < |s| && m != i && m != j ==> Swap(s, i, j)[m] == s[m]
    ensures multiset(Swap(s, i, j)) == multiset(s)
  {
  }

  /** The descending Fisher–Yates loop from position `i` down to 1; the iteration at position i
      swaps it with picks[|s| - 1 - i]. */
  function ShuffleFrom(s: seq<Card>, picks: seq<int>, i: int): seq<Card>
    requires i < |s| && ValidPicks(picks, |s|)
    decreases i
  {
    if i <= 0 then s
    else ShuffleFrom(Swap(s, i, picks[|s| - 1 - i]), picks, i - 1)
  }

  function FisherYates(s: seq<Card>, picks: seq<int>): seq<Card>
    requires ValidPicks(picks, |s|)
  {
    ShuffleFrom(s, picks, |s| - 1)
  }

  lemma {:induction false} ShuffleFromPermutes(s: seq<Card>, picks: seq<int>, i: int)
    requires i < |s| && ValidPicks(picks, |s|)
    ensures |ShuffleFrom(s, picks, i)| == |s|
    ensures multiset(ShuffleFrom(s, picks, i)) == multiset(s)
    decreases i
  {
    if i > 0 {
      var j := picks[|s| - 1 - i];
      SwapFacts(s, i, j);
      ShuffleFromPermutes(Swap(s, i, j), picks, i - 1);
    }
  }

  /** The shuffle loop of the source, in place on the array. */
  method FisherYatesInPlace(a: array<Card>, picks: seq<int>)
    requires ValidPicks(picks, a.Length)
    modifies a
    ensures a[..] == FisherYates(old(a[..]), picks)
  {
    var i := a.Length - 1;
    while i > 0
      invariant -1 <= i < a.Length
      invariant ShuffleFrom(a[..], picks, i) == FisherYates(old(a[..]), picks)
    {
      var j := picks[a.Length - 1 - i];
      ghost var before := a[..];
      a[i], a[j] := a[j], a[i];
      assert a[..] == Swap(before, i, j);
      i := i - 1;
    }
  }

  // ---------------------------------------------------------------------------------------------
  // Wildcard repair

  /** The first index at or after `from` that holds a non-Wildcard card, or |s| when there is none. */
  function FirstNonWildcard(s: seq<Card>, from: nat): (k: nat)
    requires from <= |s|
    ensures from <= k <= |s|
    ensures forall m :: from <= m < k ==> IsWildcard(s[m])
    ensures k < |s| ==> !IsWildcard(s[k])
    decreases |s| - from
  {
    if from == |s| || !IsWildcard(s[from]) then from else FirstNonWildcard(s, from + 1)
  }

  /** FirstNonWildcard is determined by its contract. */
  lemma {:induction false} FirstNonWildcardUnique(s: seq<Card>, from: nat, k: nat)
    requires from <= k <= |s|
    requires forall m :: from <= m < k ==> IsWildcard(s[m])
    requires k < |s| ==> !IsWildcard(s[k])
    ensures FirstNonWildcard(s, from) == k
    decreases |s| - from
  {
    if from < k {
      FirstNonWildcardUnique(s, from + 1, k);
    }
  }

  /** Every card from position k to the end is a Wildcard. */
  predicate WildTail(s: seq<Card>, k: int) {
    forall m :: k <= m < |s| && 0 <= m ==> IsWildcard(s[m])
  }

  /** One iteration of the repair loop at position i: a Wildcard pair (i, i+1) gets the first
      non-Wildcard after it swapped into position i+1, if there is one. */
  function RepairStep(s: seq<Card>, i: nat): (r: seq<Card>)
    requires i + 1 < |s|
    ensures |r| == |s| && multiset(r) == multiset(s)
    ensures r[..i + 1] == s[..i + 1]
    ensures IsWildcard(r[i]) && IsWildcard(r[i + 1]) ==> r == s && WildTail(s, i)
    ensures !(IsWildcard(s[i]) && IsWildcard(s[i + 1])) ==> r == s
    ensures IsWildcard(s[i]) && IsWildcard(s[i + 1]) && WildTail(s, i + 2) ==> r == s
    ensures IsWildcard(s[i]) && IsWildcard(s[i + 1]) && !WildTail(s, i + 2) ==>
      var k := FirstNonWildcard(s, i + 2);
      k < |s| && r[i + 1] == s[k] && !IsWildcard(r[i + 1]) && r[k] == s[i + 1] &&
      forall m :: 0 <= m < |s| && m != i + 1 && m != k ==> r[m] == s[m]
  {
    if IsWildcard(s[i]) && IsWildcard(s[i + 1]) then
      var k := FirstNonWildcard(s, i + 2);
      if k < |s| then SwapFacts(s, i + 1, k); Swap(s, i + 1, k) else s
    else s
  }

  /** The repair loop from position i to the end. */
  function RepairFrom(s: seq<Card>, i: nat): seq<Card>
    decreases |s| - i
  {
    if i + 1 >= |s| then s else RepairFrom(RepairStep(s, i), i + 1)
  }

  function Repaired(s: seq<Card>): seq<Card> {
    RepairFrom(s, 0)
  }

  /** Every Wildcard pair starting below position i lies in an all-Wildcard tail. */
  predicate PairsResolvedBelow(s: seq<Card>, i: int) {
    forall k :: 0 <= k < i && k + 1 < |s| && IsWildcard(s[k]) && IsWildcard(s[k + 1]) ==> WildTail(s, k)
  }

  /** The guarantee of the repair pass: any surviving adjacent Wildcard pair starts an all-Wildcard tail. */
  predicate NoStrayWildcardPairs(s: seq<Card>) {
    PairsResolvedBelow(s, |s|)
  }

  lemma RepairStepResolves(s: seq<Card>, i: nat)
    requires i + 1 < |s| && PairsResolvedBelow(s, i)
    ensures PairsResolvedBelow(RepairStep(s, i), i + 1)
  {
    var r := RepairStep(s, i);
    forall k | 0 <= k < i + 1 && k + 1 < |r| && IsWildcard(r[k]) && IsWildcard(r[k + 1])
      ensures WildTail(r, k)
    {
      if k < i {
        assert r[k] == s[k] && r[k + 1] == s[k + 1] by {
          assert r[..i + 1][k] == r[k] && r[..i + 1][k + 1] == r[k + 1];
        }
        assert WildTail(s, k);
        assert IsWildcard(s[i]) && IsWildcard(s[i + 1]);
        FirstNonWildcardUnique(s, i + 2, |s|);
        assert r == s;
      }
    }
  }

  lemma {:induction false} RepairFromResolves(s: seq<Card>, i: nat)
    requires PairsResolvedBelow(s, i)
    ensures NoStrayWildcardPairs(RepairFrom(s, i))
    decreases |s| - i
  {
    if i + 1 < |s| {
      var r := RepairStep(s, i);
      RepairStepResolves(s, i);
      RepairFromResolves(r, i + 1);
      assert RepairFrom(s, i) == RepairFrom(r, i + 1);
    } else {
      assert RepairFrom(s, i) == s;
      LastPairsResolved(s, i);
    }
  }

  /** Once the loop has passed the last pair, every pair is resolved. */
  lemma LastPairsResolved(s: seq<Card>, i: nat)
    requires PairsResolvedBelow(s, i) && i + 1 >= |s|
    ensures NoStrayWildcardPairs(s)
  {
  }

  lemma {:induction false} RepairFromPermutes(s: seq<Card>, i: nat)
    ensures |RepairFrom(s, i)| == |s| && multiset(RepairFrom(s, i)) == multiset(s)
    decreases |s| - i
  {
    if i + 1 < |s| {
      RepairFromPermutes(RepairStep(s, i), i + 1);
    }
  }

  /** The repair pass keeps the multiset of cards and leaves no Wildcard pair outside an all-Wildcard tail. */
  lemma RepairedSound(s: seq<Card>)
    ensures |Repaired(s)| == |s| && multiset(Repaired(s)) == multiset(s)
    ensures NoStrayWildcardPairs(Repaired(s))
  {
    RepairFromPermutes(s, 0);
    RepairFromResolves(s, 0);
  }

  /** When the last card is not a Wildcard there is no all-Wildcard tail, so no two Wildcards are adjacent. */
  lemma NoAdjacentWildcardsWithoutWildTail(r: seq<Card>)
    requires NoStrayWildcardPairs(r)
    requires |r| > 0 && !IsWildcard(r[|r| - 1])
    ensures forall k :: 0 <= k < |r| - 1 ==> !(IsWildcard(r[k]) && IsWildcard(r[k + 1]))
  {
    forall k | 0 <= k < |r| - 1
      ensures !(IsWildcard(r[k]) && IsWildcard(r[k + 1]))
    {
      assert !WildTail(r, k);
    }
  }

  lemma {:induction false} RepairFromNoWildcards(s: seq<Card>, i: nat)
    requires forall m :: 0 <= m < |s| ==> !IsWildcard(s[m])
    ensures RepairFrom(s, i) == s
    decreases |s| - i
  {
    if i + 1 < |s| {
      RepairFromNoWildcards(RepairStep(s, i), i + 1);
    }
  }

  /** A deck without Wildcards is left exactly as shuffled. */
  lemma RepairedNoWildcards(s: seq<Card>)
    requires forall m :: 0 <= m < |s| ==> !IsWildcard(s[m])
    ensures Repaired(s) == s
  {
    RepairFromNoWildcards(s, 0);
  }

  /** The pass only looks forward, so a Wildcard pair at the end of the deck has nothing to swap in:
      [N, N, W, W] comes back with its trailing pair, although the comment above the loop promises that no
      two Wildcards end up consecutive. */
  lemma ForwardOnlyRepairKeepsTrailingPair()
    ensures var s := [Card(1, Wahrheit, "", 1), Card(2, Aufgabe, "", 1), Card(3, Wildcard, "", 0), Card(4, Wildcard, "", 0)];
      Repaired(s) == s && IsWildcard(Repaired(s)[2]) && IsWildcard(Repaired(s)[3])
  {
    var s := [Card(1, Wahrheit, "", 1), Card(2, Aufgabe, "", 1), Card(3, Wildcard, "", 0), Card(4, Wildcard, "", 0)];
    assert RepairStep(s, 0) == s;
    assert RepairStep(s, 1) == s;
    assert FirstNonWildcard(s, 4) == 4;
    assert RepairStep(s, 2) == s;
  }

  /** The body of the repair loop at position i, with its inner forward search, in place on the array. */
  method RepairAt(a: array<Card>, i: nat)
    requires i + 1 < a.Length
    modifies a
    ensures a[..] == RepairStep(old(a[..]), i)
  {
    if IsWildcard(a[i]) && IsWildcard(a[i + 1]) {
      var swapIndex := i + 2;
      while swapIndex < a.Length && IsWildcard(a[swapIndex])
        invariant i + 2 <= swapIndex <= a.Length
        invariant forall m :: i + 2 <= m < swapIndex ==> IsWildcard(a[m])
      {
        swapIndex := swapIndex + 1;
      }
      ghost var before := a[..];
      FirstNonWildcardUnique(before, i + 2, swapIndex);
      if swapIndex < a.Length {
        a[i + 1], a[swapIndex] := a[swapIndex], a[i + 1];
        assert a[..] == Swap(before, i + 1, swapIndex);
      }
    }
  }

  /** The repair loop of the source, in place on the array. */
  method RepairInPlace(a: array<Card>)
    modifies a
    ensures a[..] == Repaired(old(a[..]))
  {
    var i := 0;
    while i < a.Length - 1
      invariant RepairFrom(a[..], i) == Repaired(old(a[..]))
    {
      RepairAt(a, i);
      i := i + 1;
    }
  }

  /** shuffleDeck: filter a fresh copy of the catalog, shuffle it in place, then run the repair pass. */
  method ShuffleDeck(catalog: seq<Card>, selected: Option<seq<Category>>, draws: seq<real>) returns (deck: seq<Card>)
    requires ValidDraws(draws) && |FilterDeck(catalog, selected)| <= |draws| + 1
    ensures var filtered := FilterDeck(catalog, selected);
      deck == Repaired(FisherYates(filtered, PicksFromDraws(draws, |filtered|)))
    ensures |deck| == |FilterDeck(catalog, selected)|
    ensures multiset(deck) == multiset(FilterDeck(catalog, selected))
    ensures NoStrayWildcardPairs(deck)
  {
    var filtered := FilterDeck(catalog, selected);
    var a := new Card[|filtered|](k requires 0 <= k < |filtered| => filtered[k]);
    assert a[..] == filtered;
    var picks := PicksFromDraws(draws, |filtered|);
    FisherYatesInPlace(a, picks);
    RepairInPlace(a);
    deck := a[..];
    ShuffleFromPermutes(filtered, picks, |filtered| - 1);
    RepairedSound(FisherYates(filtered, picks));
  }

  // ---------------------------------------------------------------------------------------------
  // Category counts

  /** getCategoryCount: the number of catalog cards of category c. */
  function GetCategoryCount(catalog: seq<Card>, c: Category): (n: nat)
    ensures n <= |catalog|
  {
    if catalog == [] then 0
    else (if catalog[0].category == c then 1 else 0) + GetCategoryCount(catalog[1..], c)
  }

  /** The count agrees with filtering the catalog by that single category. */
  lemma {:induction false} CategoryCountIsFilterLength(catalog: seq<Card>, c: Category)
    ensures GetCategoryCount(catalog, c) == |FilterDeck(catalog, Some([c]))|
  {
    if catalog != [] {
      CategoryCountIsFilterLength(catalog[1..], c);
    }
  }

  datatype CategoryCount = CategoryCount(category: Category, count: nat)

  /** getAllCategoryCounts: the five categories in fixed order, each with its count. */
  function GetAllCategoryCounts(catalog: seq<Card>): (r: seq<CategoryCount>)
    ensures |r| == 5
    ensures forall k :: 0 <= k < 5 ==> r[k].category == AllCategories[k] && r[k].count == GetCategoryCount(catalog, AllCategories[k])
  {
    seq(5, k requires 0 <= k < 5 => CategoryCount(AllCategories[k], GetCategoryCount(catalog, AllCategories[k])))
  }

  function SumCounts(r: seq<CategoryCount>): nat {
    if r == [] then 0 else r[0].count + SumCounts(r[1..])
  }

  lemma {:induction false} CountsPartition(catalog: seq<Card>)
    ensures GetCategoryCount(catalog, Wahrheit) + GetCategoryCount(catalog, Aufgabe) + GetCategoryCount(catalog, Gruppe)
      + GetCategoryCount(catalog, Duell) + GetCategoryCount(catalog, Wildcard) == |catalog|
  {
    if catalog != [] {
      CountsPartition(catalog[1..]);
    }
  }

  /** Every catalog card is counted under exactly one of the five categories. */
  lemma AllCategoryCountsCoverCatalog(catalog: seq<Card>)
    ensures SumCounts(GetAllCategoryCounts(catalog)) == |catalog|
  {
    var r := GetAllCategoryCounts(catalog);
    CountsPartition(catalog);
    assert SumCounts(r[4..]) == r[4].count + SumCounts([]);
    assert SumCounts(r[3..]) == r[3].count + SumCounts(r[4..]);
    assert SumCounts(r[2..]) == r[2].count + SumCounts(r[3..]);
    assert SumCounts(r[1..]) == r[1].count + SumCounts(r[2..]);
    assert SumCounts(r) == r[0].count + SumCounts(r[1..]);
  }
}
