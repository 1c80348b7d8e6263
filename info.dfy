/**
 * Run grouping for the dataset summary: a list is cut into maximal runs of items each of
 * which follows its predecessor, and each run is shown as its single item or as
 * "first - last".
 */
module Info {
  import opened PyText

  /** A half-open index range `(start, stop)` into the item list. */
  type Range = (nat, nat)

  /** `check_sequence_or_frame_consecution`: two all-digit names whose values differ by one. */
  function CheckConsecution(first: string, second: string): (r: bool)
    ensures r ==> first != "data_syn" && second != "data_syn"
    ensures r ==> first != second
  {
    if IsDigits(first) && IsDigits(second) then DecimalValue(second) == DecimalValue(first) + 1
    else false
  }

  /** The ranges cut `[0, n)` into non-empty, adjacent pieces, in order. */
  predicate Partition(ranges: seq<Range>, n: nat) {
    && (ranges == [] <==> n == 0)
    && (ranges != [] ==> ranges[0].0 == 0 && ranges[|ranges| - 1].1 == n)
    && (forall k :: 0 <= k < |ranges| ==> ranges[k].0 < ranges[k].1)
    && (forall k, m :: 0 <= k < |ranges| && 0 <= m < |ranges| && m == k + 1 ==> ranges[k].1 == ranges[m].0)
  }

  /**
   * Among the first `n` items, inside a range every item follows its predecessor, and
   * across a cut between two ranges it does not.
   */
  predicate MaximalUpTo<T>(ranges: seq<Range>, items: seq<T>, check: (T, T) -> bool, n: nat)
    requires n <= |items|
  {
    && (forall k, j :: 0 <= k < |ranges| && ranges[k].0 < j < ranges[k].1 && j < n ==>
          check(items[j - 1], items[j]))
    && (forall k :: 0 <= k < |ranges| - 1 && 0 < ranges[k].1 < n ==>
          !check(items[ranges[k].1 - 1], items[ranges[k].1]))
  }

  /** The ranges cut the whole list into maximal runs. */
  predicate Maximal<T>(ranges: seq<Range>, items: seq<T>, check: (T, T) -> bool) {
    MaximalUpTo(ranges, items, check, |items|)
  }

  /** The ranges cut the first `n` items into maximal runs. */
  predicate RunsOf<T>(ranges: seq<Range>, items: seq<T>, check: (T, T) -> bool, n: nat) {
    n <= |items| && Partition(ranges, n) && MaximalUpTo(ranges, items, check, n)
  }

  /** Two names follow each other exactly when both are digit runs and `int()` of the second is one more. */
  lemma ConsecutionByInt(first: string, second: string)
    ensures CheckConsecution(first, second) <==>
              IsDigits(first) && IsDigits(second) && PyInt(first).Some? && PyInt(second) == Some(PyInt(first).value + 1)
  {
    if IsDigits(first) && IsDigits(second) {
      PyIntOfDigits(first);
      PyIntOfDigits(second);
    }
  }

  /** The maximal runs of the first `n` items, extending or closing the last run item by item. */
  function Runs<T>(items: seq<T>, check: (T, T) -> bool, n: nat): (r: seq<Range>)
    requires n <= |items|
    ensures |r| > 0 <==> n > 0
    ensures n > 0 ==> r[|r| - 1].1 == n
  {
    if n == 0 then []
    else if n == 1 then [(0, 1)]
    else
      var previous := Runs(items, check, n - 1);
      if check(items[n - 2], items[n - 1]) then previous[..|previous| - 1] + [(previous[|previous| - 1].0, n)]
      else previous + [(n - 1, n)]
  }

  /** `get_item_ranges`: the maximal runs of the whole list. */
  function ItemRanges<T>(items: seq<T>, check: (T, T) -> bool): seq<Range> {
    Runs(items, check, |items|)
  }

  /** One more item either extends the last run or opens a new one. */
  lemma RunsNext<T>(items: seq<T>, check: (T, T) -> bool, n: nat, closed: seq<Range>, start: nat)
    requires 1 <= n < |items| && Runs(items, check, n) == closed + [(start, n)]
    ensures Runs(items, check, n + 1)
            == if check(items[n - 1], items[n]) then closed + [(start, n + 1)] else closed + [(start, n), (n, n + 1)]
  {
    assert (closed + [(start, n)])[..|closed|] == closed;
  }

  /** `get_item_ranges`, closing a run whenever an item does not follow its predecessor. */
  method GetItemRanges<T>(items: seq<T>, check: (T, T) -> bool) returns (ranges: seq<Range>)
    ensures ranges == ItemRanges(items, check)
  {
    var count := |items|;
    if count == 0 {
      return [];
    }
    if count == 1 {
      return [(0, 1)];
    }
    ranges := [];
    var start := 0;
    var previous := items[0];
    for index := 1 to count
      invariant previous == items[index - 1]
      invariant Runs(items, check, index) == ranges + [(start, index)]
    {
      RunsNext(items, check, index, ranges, start);
      if !check(previous, items[index]) {
        ranges := ranges + [(start, index)];
        start := index;
      }
      previous := items[index];
    }
    ranges := ranges + [(start, count)];
  }

  /** The runs computed item by item partition the prefix. */
  lemma {:induction false} RunsPartition<T>(items: seq<T>, check: (T, T) -> bool, n: nat)
    requires n <= |items|
    ensures Partition(Runs(items, check, n), n)
  {
    if n >= 2 {
      RunsPartition(items, check, n - 1);
      var previous := Runs(items, check, n - 1);
      if check(items[n - 2], items[n - 1]) {
        PartitionExtendLast(previous, n);
      } else {
        PartitionAppend(previous, n);
      }
    }
  }

  /** Moving the end of the last range one item further keeps a partition. */
  lemma PartitionExtendLast(previous: seq<Range>, n: nat)
    requires n >= 2 && Partition(previous, n - 1)
    ensures Partition(previous[..|previous| - 1] + [(previous[|previous| - 1].0, n)], n)
  {
    var r := previous[..|previous| - 1] + [(previous[|previous| - 1].0, n)];
    assert forall k :: 0 <= k < |r| - 1 ==> r[k] == previous[k];
  }

  /** Appending the one-item range `[n - 1, n)` keeps a partition. */
  lemma PartitionAppend(previous: seq<Range>, n: nat)
    requires n >= 2 && Partition(previous, n - 1)
    ensures Partition(previous + [(n - 1, n)], n)
  {
    var r := previous + [(n - 1, n)];
    assert forall k :: 0 <= k < |previous| ==> r[k] == previous[k];
  }

  /** Extending the last run by an item that follows its predecessor keeps the runs maximal. */
  lemma MaximalExtend<T>(previous: seq<Range>, items: seq<T>, check: (T, T) -> bool, n: nat)
    requires 2 <= n <= |items| && Partition(previous, n - 1) && MaximalUpTo(previous, items, check, n - 1)
    requires check(items[n - 2], items[n - 1])
    ensures var last := |previous| - 1;
            MaximalUpTo(previous[..last] + [(previous[last].0, n)], items, check, n)
  {
    ExtendInside(previous, items, check, n);
    ExtendCuts(previous, items, check, n);
  }

  lemma ExtendInside<T>(previous: seq<Range>, items: seq<T>, check: (T, T) -> bool, n: nat)
    requires 2 <= n <= |items| && Partition(previous, n - 1) && MaximalUpTo(previous, items, check, n - 1)
    requires check(items[n - 2], items[n - 1])
    ensures var last := |previous| - 1;
            var r := previous[..last] + [(previous[last].0, n)];
            forall k, j :: 0 <= k < |r| && r[k].0 < j < r[k].1 && j < n ==> check(items[j - 1], items[j])
  {
    var last := |previous| - 1;
    var r := previous[..last] + [(previous[last].0, n)];
    forall k, j | 0 <= k < |r| && r[k].0 < j < r[k].1 && j < n
      ensures check(items[j - 1], items[j])
    {
      if j < n - 1 {
        if k < last {
          assert r[k] == previous[k];
        }
        assert previous[k].0 < j < previous[k].1;
      }
    }
  }

  lemma ExtendCuts<T>(previous: seq<Range>, items: seq<T>, check: (T, T) -> bool, n: nat)
    requires 2 <= n <= |items| && Partition(previous, n - 1) && MaximalUpTo(previous, items, check, n - 1)
    ensures var last := |previous| - 1;
            var r := previous[..last] + [(previous[last].0, n)];
            forall k :: 0 <= k < |r| - 1 && 0 < r[k].1 < n ==> !check(items[r[k].1 - 1], items[r[k].1])
  {
    var last := |previous| - 1;
    var r := previous[..last] + [(previous[last].0, n)];
    forall k | 0 <= k < |r| - 1 && 0 < r[k].1 < n
      ensures !check(items[r[k].1 - 1], items[r[k].1])
    {
      assert r[k] == previous[k];
      PartitionStopsBounded(previous, n - 1, k);
    }
  }

  /** Opening a run at an item that does not follow its predecessor keeps the runs maximal. */
  lemma MaximalOpen<T>(previous: seq<Range>, items: seq<T>, check: (T, T) -> bool, n: nat)
    requires 2 <= n <= |items| && Partition(previous, n - 1) && MaximalUpTo(previous, items, check, n - 1)
    requires !check(items[n - 2], items[n - 1])
    ensures MaximalUpTo(previous + [(n - 1, n)], items, check, n)
  {
    OpenInside(previous, items, check, n);
    OpenCuts(previous, items, check, n);
  }

  lemma OpenInside<T>(previous: seq<Range>, items: seq<T>, check: (T, T) -> bool, n: nat)
    requires 2 <= n <= |items| && Partition(previous, n - 1) && MaximalUpTo(previous, items, check, n - 1)
    ensures var r := previous + [(n - 1, n)];
            forall k, j :: 0 <= k < |r| && r[k].0 < j < r[k].1 && j < n ==> check(items[j - 1], items[j])
  {
    var r := previous + [(n - 1, n)];
    forall k, j | 0 <= k < |r| && r[k].0 < j < r[k].1 && j < n
      ensures check(items[j - 1], items[j])
    {
      assert k < |previous| && r[k] == previous[k];
      PartitionStopsBounded(previous, n - 1, k);
    }
  }

  lemma OpenCuts<T>(previous: seq<Range>, items: seq<T>, check: (T, T) -> bool, n: nat)
    requires 2 <= n <= |items| && Partition(previous, n - 1) && MaximalUpTo(previous, items, check, n - 1)
    requires !check(items[n - 2], items[n - 1])
    ensures var r := previous + [(n - 1, n)];
            forall k :: 0 <= k < |r| - 1 && 0 < r[k].1 < n ==> !check(items[r[k].1 - 1], items[r[k].1])
  {
    var r := previous + [(n - 1, n)];
    forall k | 0 <= k < |r| - 1 && 0 < r[k].1 < n
      ensures !check(items[r[k].1 - 1], items[r[k].1])
    {
      assert r[k] == previous[k];
      if k < |previous| - 1 {
        PartitionStopsBounded(previous, n - 1, k + 1);
      }
    }
  }

  /** The runs computed item by item are maximal. */
  lemma {:induction false} RunsMaximal<T>(items: seq<T>, check: (T, T) -> bool, n: nat)
    requires n <= |items|
    ensures MaximalUpTo(Runs(items, check, n), items, check, n)
  {
    if n >= 2 {
      RunsMaximal(items, check, n - 1);
      RunsPartition(items, check, n - 1);
      if check(items[n - 2], items[n - 1]) {
        MaximalExtend(Runs(items, check, n - 1), items, check, n);
      } else {
        MaximalOpen(Runs(items, check, n - 1), items, check, n);
      }
    }
  }

  /** Dropping the last run of a partition into maximal runs leaves one of a shorter prefix. */
  lemma DropLastRun<T>(ranges: seq<Range>, items: seq<T>, check: (T, T) -> bool, n: nat)
    requires RunsOf(ranges, items, check, n) && |ranges| >= 2
    ensures RunsOf(ranges[..|ranges| - 1], items, check, ranges[|ranges| - 1].0)
  {
    var init := ranges[..|ranges| - 1];
    assert init[|init| - 1].1 == ranges[|ranges| - 1].0;
    PartitionStopsBounded(ranges, n, |ranges| - 2);
  }

  /** Shortening the last run of a partition into maximal runs by one item. */
  lemma ShortenLastRun<T>(ranges: seq<Range>, items: seq<T>, check: (T, T) -> bool, n: nat)
    requires RunsOf(ranges, items, check, n) && |ranges| > 0 && ranges[|ranges| - 1].0 < n - 1
    ensures var last := |ranges| - 1;
            RunsOf(ranges[..last] + [(ranges[last].0, n - 1)], items, check, n - 1)
  {
    ShortenPartition(ranges, n);
    ShortenInside(ranges, items, check, n);
    ShortenCuts(ranges, items, check, n);
  }

  lemma ShortenPartition(ranges: seq<Range>, n: nat)
    requires Partition(ranges, n) && |ranges| > 0 && ranges[|ranges| - 1].0 < n - 1
    ensures var last := |ranges| - 1;
            Partition(ranges[..last] + [(ranges[last].0, n - 1)], n - 1)
  {
    var last := |ranges| - 1;
    var shorter := ranges[..last] + [(ranges[last].0, n - 1)];
    assert forall k :: 0 <= k < last ==> shorter[k] == ranges[k];
    assert shorter[last] == (ranges[last].0, n - 1);
  }

  lemma ShortenInside<T>(ranges: seq<Range>, items: seq<T>, check: (T, T) -> bool, n: nat)
    requires RunsOf(ranges, items, check, n) && |ranges| > 0 && ranges[|ranges| - 1].0 < n - 1
    ensures var last := |ranges| - 1;
            var shorter := ranges[..last] + [(ranges[last].0, n - 1)];
            forall k, j :: 0 <= k < |shorter| && shorter[k].0 < j < shorter[k].1 && j < n - 1 ==>
              check(items[j - 1], items[j])
  {
    var last := |ranges| - 1;
    var shorter := ranges[..last] + [(ranges[last].0, n - 1)];
    forall k, j | 0 <= k < |shorter| && shorter[k].0 < j < shorter[k].1 && j < n - 1
      ensures check(items[j - 1], items[j])
    {
      if k < last {
        assert shorter[k] == ranges[k];
      }
      assert ranges[k].0 < j < ranges[k].1 && j < n;
    }
  }

  lemma ShortenCuts<T>(ranges: seq<Range>, items: seq<T>, check: (T, T) -> bool, n: nat)
    requires RunsOf(ranges, items, check, n) && |ranges| > 0 && ranges[|ranges| - 1].0 < n - 1
    ensures var last := |ranges| - 1;
            var shorter := ranges[..last] + [(ranges[last].0, n - 1)];
            forall k :: 0 <= k < |shorter| - 1 && 0 < shorter[k].1 < n - 1 ==>
              !check(items[shorter[k].1 - 1], items[shorter[k].1])
  {
    var last := |ranges| - 1;
    var shorter := ranges[..last] + [(ranges[last].0, n - 1)];
    forall k | 0 <= k < |shorter| - 1 && 0 < shorter[k].1 < n - 1
      ensures !check(items[shorter[k].1 - 1], items[shorter[k].1])
    {
      assert shorter[k] == ranges[k];
    }
  }

  /** A last run of several items extends the runs of the shorter prefix. */
  lemma UniqueExtend<T>(ranges: seq<Range>, items: seq<T>, check: (T, T) -> bool, n: nat)
    requires RunsOf(ranges, items, check, n) && |ranges| > 0 && ranges[|ranges| - 1].0 < n - 1
    requires var last := |ranges| - 1;
             ranges[..last] + [(ranges[last].0, n - 1)] == Runs(items, check, n - 1)
    ensures ranges == Runs(items, check, n)
  {
    var last := |ranges| - 1;
    assert ranges[last].0 < n - 1 < ranges[last].1;
    assert check(items[n - 2], items[n - 1]);
    var previous := Runs(items, check, n - 1);
    assert |previous| == last + 1 && previous[last].0 == ranges[last].0;
    assert previous[..last] == ranges[..last];
    assert Runs(items, check, n) == previous[..last] + [(previous[last].0, n)];
    assert ranges == ranges[..last] + [(ranges[last].0, n)];
  }

  /** A last run of one item opens after the runs of the shorter prefix. */
  lemma UniqueOpen<T>(ranges: seq<Range>, items: seq<T>, check: (T, T) -> bool, n: nat)
    requires RunsOf(ranges, items, check, n) && |ranges| >= 2 && ranges[|ranges| - 1].0 == n - 1
    requires ranges[..|ranges| - 1] == Runs(items, check, n - 1)
    ensures ranges == Runs(items, check, n)
  {
    var last := |ranges| - 1;
    assert ranges[last - 1].1 == n - 1 && ranges[last - 1].0 < n - 1;
    assert !check(items[n - 2], items[n - 1]);
    assert ranges == ranges[..last] + [(n - 1, n)];
  }

  /**
   * There is only one way to cut a list into maximal runs: any partition into runs that are
   * maximal is the one `get_item_ranges` computes.
   */
  lemma {:induction false} RunsUnique<T>(ranges: seq<Range>, items: seq<T>, check: (T, T) -> bool, n: nat)
    requires RunsOf(ranges, items, check, n)
    ensures ranges == Runs(items, check, n)
    decreases n
  {
    if n > 0 {
      var last := |ranges| - 1;
      var start := ranges[last].0;
      if start < n - 1 {
        ShortenLastRun(ranges, items, check, n);
        RunsUnique(ranges[..last] + [(start, n - 1)], items, check, n - 1);
        UniqueExtend(ranges, items, check, n);
      } else if last == 0 {
        assert ranges == [(0, 1)];
      } else {
        DropLastRun(ranges, items, check, n);
        RunsUnique(ranges[..last], items, check, n - 1);
        UniqueOpen(ranges, items, check, n);
      }
    }
  }

  /** `get_item_ranges` of a list: a partition into maximal runs, and the only one. */
  lemma ItemRangesCharacterized<T>(items: seq<T>, check: (T, T) -> bool, ranges: seq<Range>)
    ensures Partition(ItemRanges(items, check), |items|)
    ensures Maximal(ItemRanges(items, check), items, check)
    ensures Partition(ranges, |items|) && Maximal(ranges, items, check) ==> ranges == ItemRanges(items, check)
  {
    RunsPartition(items, check, |items|);
    RunsMaximal(items, check, |items|);
    if Partition(ranges, |items|) && Maximal(ranges, items, check) {
      RunsUnique(ranges, items, check, |items|);
    }
  }

  /** In a partition the stops only grow, so none passes the end or a later start. */
  lemma {:induction false} PartitionStopsBounded(ranges: seq<Range>, n: nat, k: nat)
    requires Partition(ranges, n) && k < |ranges|
    ensures ranges[k].1 <= n
    ensures forall m :: k < m < |ranges| ==> ranges[k].1 <= ranges[m].0
    decreases |ranges| - k
  {
    if k < |ranges| - 1 {
      PartitionStopsBounded(ranges, n, k + 1);
    }
  }

  // ---------------------------------------------------------------- formatting

  /** One run shown as its only item, or as "first - last". */
  function FormatRange(items: seq<string>, range: Range): string
    requires range.0 < range.1 <= |items|
  {
    if range.1 == range.0 + 1 then items[range.0] else items[range.0] + " - " + items[range.1 - 1]
  }

  /** Every range of a partition of the list lies inside it. */
  predicate WithinItems(ranges: seq<Range>, n: nat) {
    forall k :: 0 <= k < |ranges| ==> ranges[k].0 < ranges[k].1 <= n
  }

  lemma PartitionWithin(ranges: seq<Range>, n: nat)
    requires Partition(ranges, n)
    ensures WithinItems(ranges, n)
  {
    forall k | 0 <= k < |ranges| ensures ranges[k].1 <= n {
      PartitionStopsBounded(ranges, n, k);
    }
  }

  /** The runs shown one string each, in order. */
  function FormatRanges(items: seq<string>, ranges: seq<Range>): (r: seq<string>)
    requires WithinItems(ranges, |items|)
    ensures |r| == |ranges|
    ensures forall k :: 0 <= k < |r| ==> r[k] == FormatRange(items, ranges[k])
  {
    if ranges == [] then [] else FormatRanges(items, ranges[..|ranges| - 1]) + [FormatRange(items, ranges[|ranges| - 1])]
  }

  /** `format_in_ranges` as a specification. */
  function FormattedRanges(items: seq<string>, check: (string, string) -> bool): seq<string> {
    var ranges := ItemRanges(items, check);
    RunsPartition(items, check, |items|);
    PartitionWithin(ranges, |items|);
    FormatRanges(items, ranges)
  }

  /** `format_in_ranges`. */
  method FormatInRanges(items: seq<string>, check: (string, string) -> bool) returns (formatted: seq<string>)
    ensures formatted == FormattedRanges(items, check)
  {
    var ranges := GetItemRanges(items, check);
    RunsPartition(items, check, |items|);
    PartitionWithin(ranges, |items|);
    formatted := FormatEach(items, ranges);
  }

  /** The loop of `format_in_ranges` over the runs. */
  method FormatEach(items: seq<string>, ranges: seq<Range>) returns (formatted: seq<string>)
    requires WithinItems(ranges, |items|)
    ensures formatted == FormatRanges(items, ranges)
  {
    formatted := [];
    for k := 0 to |ranges|
      invariant formatted == FormatRanges(items, ranges[..k])
    {
      var (start, stop) := ranges[k];
      assert ranges[..k + 1][..k] == ranges[..k];
      if stop == start + 1 {
        formatted := formatted + [items[start]];
      } else {
        formatted := formatted + [items[start] + " - " + items[stop - 1]];
      }
    }
    assert ranges[..|ranges|] == ranges;
  }

  // ---------------------------------------------------------------- properties

  /** The ranges of length one over `[0, n)`. */
  function Singles(n: nat): (r: seq<Range>)
    ensures |r| == n && forall k :: 0 <= k < n ==> r[k] == (k, k + 1)
  {
    if n == 0 then [] else Singles(n - 1) + [(n - 1, n)]
  }

  lemma SinglesPartition(n: nat)
    ensures Partition(Singles(n), n)
  {
  }

  /** Without two consecutive items every run is a single item. */
  lemma RangesWithoutRuns<T>(items: seq<T>, check: (T, T) -> bool)
    requires forall j :: 0 < j < |items| ==> !check(items[j - 1], items[j])
    ensures ItemRanges(items, check) == Singles(|items|)
  {
    var singles := Singles(|items|);
    SinglesPartition(|items|);
    assert Maximal(singles, items, check) by {
      forall k | 0 <= k < |singles| - 1 && 0 < singles[k].1 < |items|
        ensures !check(items[singles[k].1 - 1], items[singles[k].1])
      {
        assert singles[k] == (k, k + 1);
      }
    }
    ItemRangesCharacterized(items, check, singles);
  }

  /** Without two consecutive items every item is shown on its own. */
  lemma FormatWithoutRuns(items: seq<string>, check: (string, string) -> bool)
    requires forall j :: 0 < j < |items| ==> !check(items[j - 1], items[j])
    ensures FormattedRanges(items, check) == items
  {
    RangesWithoutRuns(items, check);
    FormatSingles(items);
  }

  /** Runs of one item each are shown as the items themselves. */
  lemma FormatSingles(items: seq<string>)
    ensures WithinItems(Singles(|items|), |items|)
    ensures forall k :: 0 <= k < |items| ==> FormatRanges(items, Singles(|items|))[k] == items[k]
  {
    SinglesWithin(|items|, |items|);
    forall k | 0 <= k < |items| ensures FormatRanges(items, Singles(|items|))[k] == items[k] {
      assert Singles(|items|)[k] == (k, k + 1);
    }
  }

  lemma SinglesWithin(n: nat, count: nat)
    requires n <= count
    ensures WithinItems(Singles(n), count)
  {
  }

  /** The last range is formatted after all the others. */
  lemma FormatLastRange(items: seq<string>, ranges: seq<Range>)
    requires WithinItems(ranges, |items|) && |ranges| > 0
    ensures WithinItems(ranges[..|ranges| - 1], |items|)
    ensures FormatRanges(items, ranges)
            == FormatRanges(items, ranges[..|ranges| - 1]) + [FormatRange(items, ranges[|ranges| - 1])]
  {
  }

  /** A list of two or more items each following the previous one is shown as "first - last". */
  lemma FormatOneRun(items: seq<string>, check: (string, string) -> bool)
    requires |items| >= 2 && forall j :: 0 < j < |items| ==> check(items[j - 1], items[j])
    ensures FormattedRanges(items, check) == [items[0] + " - " + items[|items| - 1]]
  {
    OneRunRanges(items, check);
    var ranges := [(0, |items|)];
    assert FormatRanges(items, ranges)[0] == FormatRange(items, ranges[0]);
  }

  /** A list whose every item follows its predecessor is a single run. */
  lemma OneRunRanges<T>(items: seq<T>, check: (T, T) -> bool)
    requires |items| >= 1 && forall j :: 0 < j < |items| ==> check(items[j - 1], items[j])
    ensures ItemRanges(items, check) == [(0, |items|)]
  {
    var ranges := [(0, |items|)];
    assert Partition(ranges, |items|);
    assert Maximal(ranges, items, check);
    ItemRangesCharacterized(items, check, ranges);
  }

  /** `data_syn` never continues or is continued by a run. */
  lemma DataSynIsolated(name: string)
    ensures !CheckConsecution(name, "data_syn") && !CheckConsecution("data_syn", name)
  {
  }

  /** Zero-padded identifiers of successive numbers are consecutive, whatever the padding. */
  lemma PaddedConsecutive(n: nat, width: nat)
    ensures CheckConsecution(FormatPadded(n, width), FormatPadded(n + 1, width))
  {
  }

  /** The check the examples use: the next number follows the previous one. */
  predicate Successor(a: int, b: int) {
    b == a + 1
  }

  /** The empty list, a single item and one unbroken run. */
  lemma ItemRangesExamples()
    ensures ItemRanges([], Successor) == []
    ensures ItemRanges([42], Successor) == [(0, 1)]
    ensures ItemRanges([42, 43, 44, 45, 46], Successor) == [(0, 5)]
  {
  }

  /** A sorted list with gaps: each gap closes a run. */
  lemma ItemRangesSortedExample()
    ensures ItemRanges([0, 7, 8, 13, 42, 43, 44, 49], Successor) == [(0, 1), (1, 3), (3, 4), (4, 7), (7, 8)]
  {
    var items := [0, 7, 8, 13, 42, 43, 44, 49];
    assert Runs(items, Successor, 4) == [(0, 1), (1, 3), (3, 4)];
  }

  /** Unsorted input: runs are taken in list order, never after sorting. */
  lemma ItemRangesUnsortedExample()
    ensures ItemRanges([7, 8, 0, 42, 43, 44, 13, 49], Successor) == [(0, 2), (2, 3), (3, 6), (6, 7), (7, 8)]
  {
    var items := [7, 8, 0, 42, 43, 44, 13, 49];
    assert Runs(items, Successor, 4) == [(0, 2), (2, 3), (3, 4)];
  }

  /** The sample summary line: the run `0042` to `0044` is written as one range. */
  lemma FormatInRangesExample()
    ensures FormattedRanges(["0042", "0043", "0044"], CheckConsecution) == ["0042 - 0044"]
  {
    var items := ["0042", "0043", "0044"];
    SampleRun(items);
    FormatOneRun(items, CheckConsecution);
    assert items[0] + " - " + items[2] == "0042 - 0044";
  }

  lemma SampleRun(items: seq<string>)
    requires items == ["0042", "0043", "0044"]
    ensures forall j :: 0 < j < |items| ==> CheckConsecution(items[j - 1], items[j])
  {
    SampleConsecutive();
  }

  lemma SampleConsecutive()
    ensures CheckConsecution("0042", "0043") && CheckConsecution("0043", "0044")
  {
    assert "42"[..1] == "4" && "43"[..1] == "4" && "44"[..1] == "4";
    assert "0042" == Zeros(2) + "42" && "0043" == Zeros(2) + "43" && "0044" == Zeros(2) + "44";
    LeadingZerosValue(2, "42");
    LeadingZerosValue(2, "43");
    LeadingZerosValue(2, "44");
  }
}
