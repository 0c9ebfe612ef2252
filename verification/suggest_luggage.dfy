/** The client-side luggage recommender: keep the bags that suit the transport
    mode, order them largest first, and take bags greedily until their nominal
    capacity covers the number of items; plus the undersize warning for a
    chosen set of bags. */
module Luggage {
  import opened Wrappers
  import opened Seqs
  import opened Sorting

  datatype Size = Small | Medium | Large

  datatype LuggageItem = LuggageItem(id: string, name: string, transportModes: seq<string>, size: Size)

  /** Nominal capacity of a bag, in items. */
  function Capacity(size: Size): (c: int)
    ensures c > 0
  {
    match size
    case Small => 15
    case Medium => 30
    case Large => 50
  }

  /** Position of a size in the order small < medium < large. */
  function SizeRank(size: Size): int {
    match size
    case Small => 0
    case Medium => 1
    case Large => 2
  }

  /** The comparator subtracts the first bag's rank from the second's, so the
      sort puts larger bags first: ascending on the negated rank. */
  function SizeKey(bag: LuggageItem): SortKey {
    SortKey(-SizeRank(bag.size), 0)
  }

  function FitsMode(mode: string): LuggageItem -> bool {
    (bag: LuggageItem) => mode in bag.transportModes
  }

  function OfSize(size: Size): LuggageItem -> bool {
    (bag: LuggageItem) => bag.size == size
  }

  /** The compatible bags, largest first, equal sizes in input order. */
  function SortedCompatible(allLuggage: seq<LuggageItem>, mode: string): seq<LuggageItem> {
    SortBy(Filter(allLuggage, FitsMode(mode)), SizeKey)
  }

  /** Sum of the nominal capacities, left to right. */
  function TotalCapacity(bags: seq<LuggageItem>): (total: int)
    ensures total >= 0
    ensures bags != [] ==> total > 0
  {
    if bags == [] then 0
    else TotalCapacity(bags[..|bags| - 1]) + Capacity(bags[|bags| - 1].size)
  }

  lemma TotalCapacitySnoc(bags: seq<LuggageItem>, bag: LuggageItem)
    ensures TotalCapacity(bags + [bag]) == TotalCapacity(bags) + Capacity(bag.size)
  {
    assert (bags + [bag])[..|bags|] == bags;
  }

  /** The greedy prefix of `sorted` for `totalItemCount`: it stops as soon as
      the capacity reaches the count, and takes its last bag only while the
      count was not yet reached. */
  ghost predicate GreedyPrefix(sorted: seq<LuggageItem>, totalItemCount: int, n: nat) {
    n <= |sorted|
    && (n == 0 || TotalCapacity(sorted[..n - 1]) < totalItemCount)
    && (n == |sorted| || TotalCapacity(sorted[..n]) >= totalItemCount)
  }

  /** Greedy selection over the compatible bags, largest first. */
  method SuggestLuggage(allLuggage: seq<LuggageItem>, transportMode: string, totalItemCount: int)
    returns (suggestions: seq<LuggageItem>)
    ensures var sorted := SortedCompatible(allLuggage, transportMode);
      GreedyPrefix(sorted, totalItemCount, |suggestions|) && suggestions == sorted[..|suggestions|]
  {
    // Filter by transport compatibility
    var compatible := Filter(allLuggage, FitsMode(transportMode));
    if |compatible| == 0 {
      assert SortBy(compatible, SizeKey) == [];
      return [];
    }

    // Sort by size descending, on a copy
    var sorted := SortBy(compatible, SizeKey);

    suggestions := TakeUntilCovered(sorted, totalItemCount);
  }

  /** The greedy loop: pick bags in order until there is enough capacity. */
  method TakeUntilCovered(sorted: seq<LuggageItem>, totalItemCount: int) returns (suggestions: seq<LuggageItem>)
    ensures GreedyPrefix(sorted, totalItemCount, |suggestions|) && suggestions == sorted[..|suggestions|]
  {
    suggestions := [];
    var remainingCapacity := totalItemCount;
    for i := 0 to |sorted|
      invariant suggestions == sorted[..i]
      invariant remainingCapacity == totalItemCount - TotalCapacity(suggestions)
      invariant i == 0 || TotalCapacity(sorted[..i - 1]) < totalItemCount
    {
      if remainingCapacity <= 0 {
        break;
      }
      TotalCapacitySnoc(suggestions, sorted[i]);
      assert sorted[..i + 1] == suggestions + [sorted[i]];
      suggestions := suggestions + [sorted[i]];
      remainingCapacity := remainingCapacity - Capacity(sorted[i].size);
    }
  }

  /** Capacity only grows along a sequence of bags. */
  lemma {:induction false} TotalCapacityMonotone(bags: seq<LuggageItem>, k: nat, n: nat)
    requires k <= n <= |bags|
    ensures TotalCapacity(bags[..k]) <= TotalCapacity(bags[..n])
  {
    if k < n {
      TotalCapacityMonotone(bags, k, n - 1);
      assert bags[..n][..n - 1] == bags[..n - 1];
    }
  }

  /** The greedy prefix is the shortest prefix whose capacity reaches the count
      (every shorter one falls short), or the whole sequence when none does;
      so there is exactly one. */
  lemma GreedyIsShortest(sorted: seq<LuggageItem>, totalItemCount: int, n: nat)
    requires GreedyPrefix(sorted, totalItemCount, n)
    ensures forall k :: 0 <= k < n ==> TotalCapacity(sorted[..k]) < totalItemCount
    ensures forall m: nat :: GreedyPrefix(sorted, totalItemCount, m) ==> m == n
  {
    forall k | 0 <= k < n ensures TotalCapacity(sorted[..k]) < totalItemCount {
      TotalCapacityMonotone(sorted, k, n - 1);
    }
    forall m: nat | GreedyPrefix(sorted, totalItemCount, m) ensures m == n {
      if n < m {
        TotalCapacityMonotone(sorted, n, m - 1);
      }
    }
  }

  /** What any greedy prefix consists of: compatible bags from the input, and
      nothing at all when there are no items to carry. */
  lemma SuggestionsAreCompatible(allLuggage: seq<LuggageItem>, mode: string, totalItemCount: int, n: nat)
    requires GreedyPrefix(SortedCompatible(allLuggage, mode), totalItemCount, n)
    ensures forall i :: 0 <= i < n ==>
      SortedCompatible(allLuggage, mode)[i] in allLuggage && mode in SortedCompatible(allLuggage, mode)[i].transportModes
    ensures totalItemCount <= 0 ==> n == 0
  {
    var compatible := Filter(allLuggage, FitsMode(mode));
    var sorted := SortedCompatible(allLuggage, mode);
    SortByLength(compatible, SizeKey);
    forall i | 0 <= i < n ensures sorted[i] in allLuggage && mode in sorted[i].transportModes {
      assert sorted[i] in compatible;
      var j :| 0 <= j < |compatible| && compatible[j] == sorted[i];
    }
    if n > 0 {
      GreedyIsShortest(sorted, totalItemCount, n);
      assert TotalCapacity(sorted[..0]) == 0;
    }
  }

  /** The order the greedy loop walks in: capacities never increase. */
  lemma SortedCompatibleDescending(allLuggage: seq<LuggageItem>, mode: string, i: nat, j: nat)
    requires i < j < |SortedCompatible(allLuggage, mode)|
    ensures Capacity(SortedCompatible(allLuggage, mode)[i].size) >= Capacity(SortedCompatible(allLuggage, mode)[j].size)
  {
    SortBySorted(Filter(allLuggage, FitsMode(mode)), SizeKey);
  }

  /** Bags of the same size keep their relative input order. */
  lemma SortedCompatibleStable(allLuggage: seq<LuggageItem>, mode: string, size: Size)
    ensures Filter(SortedCompatible(allLuggage, mode), OfSize(size)) == Filter(Filter(allLuggage, FitsMode(mode)), OfSize(size))
  {
    var compatible := Filter(allLuggage, FitsMode(mode));
    var sorted := SortedCompatible(allLuggage, mode);
    var k := SortKey(-SizeRank(size), 0);
    SortByStable(compatible, SizeKey, k);
    forall x ensures OfSize(size)(x) == HasKey(SizeKey, k)(x) {
      assert SizeKey(x) == k <==> x.size == size by {
        assert SizeKey(x).major == -SizeRank(x.size);
      }
    }
    FilterExt(sorted, OfSize(size), HasKey(SizeKey, k));
    FilterExt(compatible, OfSize(size), HasKey(SizeKey, k));
  }

  /** Sorting works on a copy: the compatible bags are the same bags, each as
      often as in the input. */
  lemma SortedCompatiblePermutes(allLuggage: seq<LuggageItem>, mode: string)
    ensures multiset(SortedCompatible(allLuggage, mode)) == multiset(Filter(allLuggage, FitsMode(mode)))
    ensures Filter(allLuggage, FitsMode(mode)) == [] <==> SortedCompatible(allLuggage, mode) == []
  {
    SortByLength(Filter(allLuggage, FitsMode(mode)), SizeKey);
  }

  // ---------------------------------------------------------------------------
  // Undersize warning

  const WarningText := "Your selected luggage might be too small for this trip. Consider a larger bag."

  /** Warns when the selected capacity is below 70% of the item count; over the
      integers that is `10 * capacity < 7 * count`. */
  function LuggageWarning(selectedLuggage: seq<LuggageItem>, totalItemCount: int): (w: Option<string>)
    ensures w.Some? <==> 10 * TotalCapacity(selectedLuggage) < 7 * totalItemCount
    ensures w.Some? ==> w.value == WarningText
  {
    var totalCapacity := TotalCapacity(selectedLuggage);
    if (totalCapacity as real) < (totalItemCount as real) * 0.7 then Some(WarningText) else None
  }

  function SizesOf(bags: seq<LuggageItem>): (sizes: seq<Size>)
    ensures |sizes| == |bags|
  {
    if bags == [] then [] else SizesOf(bags[..|bags| - 1]) + [bags[|bags| - 1].size]
  }

  /** The capacity is determined by how many bags of each size there are. */
  lemma {:induction false} TotalCapacityBySize(bags: seq<LuggageItem>)
    ensures var m := multiset(SizesOf(bags));
      TotalCapacity(bags) == 15 * m[Small] + 30 * m[Medium] + 50 * m[Large]
  {
    if bags != [] {
      TotalCapacityBySize(bags[..|bags| - 1]);
    }
  }

  /** The warning depends only on the multiset of sizes of the chosen bags, not
      on their order or identity. */
  lemma WarningDependsOnSizes(a: seq<LuggageItem>, b: seq<LuggageItem>, totalItemCount: int)
    requires multiset(SizesOf(a)) == multiset(SizesOf(b))
    ensures LuggageWarning(a, totalItemCount) == LuggageWarning(b, totalItemCount)
  {
    TotalCapacityBySize(a);
    TotalCapacityBySize(b);
  }

  /** The 70% line: one medium bag (30) carries 42 items without a warning and
      warns at 43; no bags and no items gives no warning, no bags and ten items
      warns. */
  lemma WarningBoundaries(bag: LuggageItem)
    requires bag.size == Medium
    ensures LuggageWarning([bag], 42) == None
    ensures LuggageWarning([bag], 43) == Some(WarningText)
    ensures LuggageWarning([], 0) == None
    ensures LuggageWarning([], 10) == Some(WarningText)
  {
    assert [bag][..0] == [];
    assert TotalCapacity([bag]) == 30;
  }
}
