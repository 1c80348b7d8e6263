/**
 * The selector evaluation engine: the six element selectors and what each selects from an
 * ordered list of available identifiers, with Python's slice semantics for ranges.
 */
module Selectors {
  import opened PyText
  import opened Identifiers

  /** Which lookup failed, as the `MissingElementError` message says. */
  datatype Missing =
    | SingleMissing
    | ListMissing(index: nat)
    | DataSynMissing
    | RangeStartMissing
    | RangeStopMissing

  datatype ValueErrorReason = NoElementsToSelectFrom | SliceStepZero

  /** The exceptions `select` raises. */
  datatype SelectionError =
    | ValueError(reason: ValueErrorReason)
    | MissingElementError(element: string, elements: seq<string>, what: Missing)
    | EmptySelectionError(expression: string, elements: seq<string>)

  /** The `ElementSelector` subclasses as one closed datatype. */
  datatype ElementSelector =
    | SingleElementSelector(kind: Kind, expression: string, element: string)
    | ListSelector(kind: Kind, expression: string, wanted: seq<string>)
    | StarSelector(kind: Kind)
    | DataSelector
    | DataSynSelector
    | RangeSelector(kind: Kind, expression: string, start: Option<string>, stop: Option<string>, step: int)

  /** A parsed selection expression: one selector per axis. */
  datatype Selector = Selector(expression: string, sequenceSelector: ElementSelector, frameSelector: ElementSelector)

  /** The `ValueError`s of the `RangeSelector` constructor. */
  datatype RangeError = StepZero | StartAfterStop | StartBeforeStop | NotAnInteger(literal: string)

  /** Python truthiness of an optional string: present and non-empty. */
  predicate Truthy(s: Option<string>) {
    s.Some? && s.value != ""
  }

  function Min(a: int, b: int): int {
    if a <= b then a else b
  }

  // ---------------------------------------------------------------- Python slices

  /** `s[i], s[i + step], ...` while the index stays below `hi`. */
  function Ascending<T>(s: seq<T>, i: nat, hi: nat, step: nat): seq<T>
    requires step > 0 && hi <= |s|
    decreases if i < hi then hi - i else 0
  {
    if i >= hi then [] else [s[i]] + Ascending(s, i + step, hi, step)
  }

  /** `s[i], s[i - step], ...` while the index stays above `lo`. */
  function Descending<T>(s: seq<T>, i: int, lo: int, step: nat): seq<T>
    requires step > 0 && -1 <= lo && i < |s|
    decreases if i > lo then i - lo else 0
  {
    if i <= lo then [] else [s[i]] + Descending(s, i - step, lo, step)
  }

  /**
   * `s[start:stop:step]` for absent or non-negative bounds (they come from `list.index`):
   * bounds are clamped to the list, and absent ones default to the end the step starts from
   * or runs towards.
   */
  function PySlice<T>(s: seq<T>, start: Option<nat>, stop: Option<nat>, step: int): seq<T>
    requires step != 0
  {
    if step > 0 then
      var lo := if start.Some? then Min(start.value, |s|) else 0;
      var hi := if stop.Some? then Min(stop.value, |s|) else |s|;
      Ascending(s, lo, hi, step)
    else
      var first := if start.Some? then Min(start.value, |s| - 1) else |s| - 1;
      var last := if stop.Some? then Min(stop.value, |s| - 1) else -1;
      Descending(s, first, last, -step)
  }

  /** The k-th element of an ascending slice is `s[i + k * step]`. */
  lemma {:induction false} AscendingAt<T>(s: seq<T>, i: nat, hi: nat, step: nat, k: nat)
    requires step > 0 && hi <= |s| && k < |Ascending(s, i, hi, step)|
    ensures i + k * step < hi && Ascending(s, i, hi, step)[k] == s[i + k * step]
    decreases k
  {
    if k > 0 {
      AscendingAt(s, i + step, hi, step, k - 1);
      assert i + step + (k - 1) * step == i + k * step;
    }
  }

  /** The k-th element of a descending slice is `s[i - k * step]`. */
  lemma {:induction false} DescendingAt<T>(s: seq<T>, i: int, lo: int, step: nat, k: nat)
    requires step > 0 && -1 <= lo && i < |s| && k < |Descending(s, i, lo, step)|
    ensures lo < i - k * step && Descending(s, i, lo, step)[k] == s[i - k * step]
    decreases k
  {
    if k > 0 {
      DescendingAt(s, i - step, lo, step, k - 1);
      assert i - step - (k - 1) * step == i - k * step;
    }
  }

  /** A slice takes its elements from the list. */
  lemma SliceMembers<T>(s: seq<T>, start: Option<nat>, stop: Option<nat>, step: int)
    requires step != 0
    ensures forall x :: x in PySlice(s, start, stop, step) ==> x in s
  {
    var r := PySlice(s, start, stop, step);
    forall x | x in r ensures x in s {
      var k :| 0 <= k < |r| && r[k] == x;
      if step > 0 {
        AscendingAt(s, if start.Some? then Min(start.value, |s|) else 0,
                    if stop.Some? then Min(stop.value, |s|) else |s|, step, k);
      } else {
        DescendingAt(s, if start.Some? then Min(start.value, |s| - 1) else |s| - 1,
                     if stop.Some? then Min(stop.value, |s| - 1) else -1, -step, k);
      }
    }
  }

  lemma {:induction false} AscendingByOne<T>(s: seq<T>, i: nat, hi: nat)
    requires i <= hi <= |s|
    ensures Ascending(s, i, hi, 1) == s[i..hi]
    decreases hi - i
  {
    if i < hi {
      AscendingByOne(s, i + 1, hi);
    }
  }

  function Reverse<T>(s: seq<T>): (r: seq<T>)
    ensures |r| == |s| && forall k :: 0 <= k < |s| ==> r[k] == s[|s| - 1 - k]
  {
    if s == [] then [] else Reverse(s[1..]) + [s[0]]
  }

  lemma {:induction false} DescendingByOne<T>(s: seq<T>, i: int, lo: int)
    requires -1 <= lo <= i < |s|
    ensures Descending(s, i, lo, 1) == Reverse(s[lo + 1..i + 1])
    decreases i - lo
  {
    if lo < i {
      DescendingByOne(s, i - 1, lo);
      var r := Reverse(s[lo + 1..i + 1]);
      assert r == [s[i]] + Reverse(s[lo + 1..i]);
    }
  }

  /** `s[i:j]` with step 1 is the contiguous part from i up to but excluding j. */
  lemma SliceForward<T>(s: seq<T>, i: nat, j: nat)
    requires i <= j <= |s|
    ensures PySlice(s, Some(i), Some(j), 1) == s[i..j]
  {
    AscendingByOne(s, i, j);
  }

  /**
   * `s[j:i:-1]` is the part from j down to but excluding i: the reverse of `s[i + 1..j + 1]`,
   * not of `s[i:j]`; the two directions are shifted by one element at each end.
   */
  lemma SliceBackward<T>(s: seq<T>, i: nat, j: nat)
    requires i <= j < |s|
    ensures PySlice(s, Some(j), Some(i), -1) == Reverse(s[i + 1..j + 1])
  {
    DescendingByOne(s, j, i);
  }

  /** `s[::1]` is `s` and `s[::-1]` is `s` reversed. */
  lemma SliceWhole<T>(s: seq<T>)
    ensures PySlice(s, None, None, 1) == s
    ensures PySlice(s, None, None, -1) == Reverse(s)
  {
    AscendingByOne(s, 0, |s|);
    DescendingByOne(s, |s| - 1, -1);
  }

  // ---------------------------------------------------------------- selection

  function NotDataSyn(element: string): bool {
    element != "data_syn"
  }

  /** `ListSelector.select`'s loop: the position of the first wanted element that is absent. */
  function FirstMissing(wanted: seq<string>, elements: seq<string>): (r: Option<nat>)
    ensures r.None? <==> forall x :: x in wanted ==> x in elements
    ensures r.Some? ==> r.value < |wanted| && wanted[r.value] !in elements
    ensures r.Some? ==> forall k :: 0 <= k < r.value ==> wanted[k] in elements
  {
    if |wanted| == 0 then None
    else if wanted[0] !in elements then Some(0)
    else
      match FirstMissing(wanted[1..], elements)
      case None =>
        assert wanted == [wanted[0]] + wanted[1..];
        None
      case Some(i) => Some(i + 1)
  }

  /** What a range selects from: for sequences only the numeric identifiers (never `data_syn`). */
  function RangePool(kind: Kind, elements: seq<string>): seq<string> {
    if kind == Sequence then Filter(elements, IsDigits) else elements
  }

  /** `RangeSelector.select` after the empty-input check. */
  function SelectRange(kind: Kind, expression: string, start: Option<string>, stop: Option<string>,
                       step: int, elements: seq<string>): (r: Result<seq<string>, SelectionError>)
    ensures r.Ok? ==> |r.value| > 0 && forall x :: x in r.value ==> x in RangePool(kind, elements)
  {
    var pool := RangePool(kind, elements);
    if Truthy(start) && start.value !in pool then Err(MissingElementError(start.value, pool, RangeStartMissing))
    else if Truthy(stop) && stop.value !in pool then Err(MissingElementError(stop.value, pool, RangeStopMissing))
    else if step == 0 then Err(ValueError(SliceStepZero))
    else
      var startIndex := if Truthy(start) then Some(IndexOf(pool, start.value)) else None;
      var stopIndex := if Truthy(stop) then Some(IndexOf(pool, stop.value)) else None;
      var expansion := PySlice(pool, startIndex, stopIndex, step);
      SliceMembers(pool, startIndex, stopIndex, step);
      if |expansion| == 0 then Err(EmptySelectionError(expression, pool)) else Ok(expansion)
  }

  /**
   * `selector.select(elements)`. Every selector first rejects an empty input; whatever a
   * selector returns is taken from its input.
   */
  function Select(selector: ElementSelector, elements: seq<string>): (r: Result<seq<string>, SelectionError>)
    ensures |elements| == 0 ==> r == Err(ValueError(NoElementsToSelectFrom))
    ensures r.Ok? ==> forall x :: x in r.value ==> x in elements
  {
    if |elements| == 0 then Err(ValueError(NoElementsToSelectFrom))
    else
      match selector
      case SingleElementSelector(_, _, element) =>
        if element in elements then Ok([element]) else Err(MissingElementError(element, elements, SingleMissing))
      case ListSelector(_, _, wanted) =>
        (match FirstMissing(wanted, elements)
         case Some(i) => Err(MissingElementError(wanted[i], elements, ListMissing(i)))
         case None => Ok(wanted))
      case StarSelector(_) => Ok(elements)
      case DataSelector => Ok(Filter(elements, NotDataSyn))
      case DataSynSelector =>
        if "data_syn" in elements then Ok(["data_syn"])
        else Err(MissingElementError("data_syn", elements, DataSynMissing))
      case RangeSelector(kind, expression, start, stop, step) =>
        SelectRange(kind, expression, start, stop, step, elements)
  }

  /**
   * The `RangeSelector` constructor's `check_range_elements`: step 0 is refused; when both
   * bounds are given, a positive step needs start <= stop and a negative one start >= stop,
   * comparing `int()` of the bounds.
   */
  function NewRangeSelector(kind: Kind, expression: string, start: Option<string>, stop: Option<string>,
                            step: int): (r: Result<ElementSelector, RangeError>)
    ensures r.Ok? ==> r.value == RangeSelector(kind, expression, start, stop, step) && step != 0
  {
    if step == 0 then Err(StepZero)
    else if Truthy(start) && Truthy(stop) then
      match (PyInt(start.value), PyInt(stop.value))
      case (Some(a), Some(b)) =>
        if step > 0 && a > b then Err(StartAfterStop)
        else if step < 0 && a < b then Err(StartBeforeStop)
        else Ok(RangeSelector(kind, expression, start, stop, step))
      case (None, _) => Err(NotAnInteger(start.value))
      case (_, None) => Err(NotAnInteger(stop.value))
    else Ok(RangeSelector(kind, expression, start, stop, step))
  }

  // ---------------------------------------------------------------- properties

  /** Every selector raises `ValueError` on an empty list before looking at anything else. */
  lemma EmptyInputRejected(selector: ElementSelector)
    ensures Select(selector, []) == Err(ValueError(NoElementsToSelectFrom))
  {
  }

  /** A single element is selected exactly when present; otherwise the error names it and the input. */
  lemma SingleSelection(kind: Kind, expression: string, element: string, elements: seq<string>)
    requires |elements| > 0
    ensures var r := Select(SingleElementSelector(kind, expression, element), elements);
            && (element in elements <==> r == Ok([element]))
            && (element !in elements <==> r == Err(MissingElementError(element, elements, SingleMissing)))
  {
  }

  /**
   * A list selection returns the declared list itself, order and duplicates kept, when every
   * member is present; otherwise it fails on the first absent member in declared order.
   */
  lemma ListSelection(kind: Kind, expression: string, wanted: seq<string>, elements: seq<string>)
    requires |elements| > 0
    ensures var r := Select(ListSelector(kind, expression, wanted), elements);
            && ((forall x :: x in wanted ==> x in elements) <==> r == Ok(wanted))
            && (r.Err? ==> exists i :: 0 <= i < |wanted| && wanted[i] !in elements
                             && (forall k :: 0 <= k < i ==> wanted[k] in elements)
                             && r == Err(MissingElementError(wanted[i], elements, ListMissing(i))))
  {
    var r := Select(ListSelector(kind, expression, wanted), elements);
    if r.Err? {
      var i := FirstMissing(wanted, elements).value;
      assert 0 <= i < |wanted| && wanted[i] !in elements;
    }
  }

  /**
   * `*` returns its input unchanged; `data` drops exactly the `data_syn` entries, never failing:
   * every other entry is kept as often as it occurs, and an input without `data_syn` comes back
   * unchanged.
   */
  lemma StarAndDataSelection(kind: Kind, elements: seq<string>)
    requires |elements| > 0
    ensures Select(StarSelector(kind), elements) == Ok(elements)
    ensures var r := Select(DataSelector, elements);
            && r.Ok? && "data_syn" !in r.value
            && (forall x :: x in r.value <==> x in elements && x != "data_syn")
            && multiset(r.value) == multiset(elements)["data_syn" := 0]
            && ("data_syn" !in elements ==> r.value == elements)
  {
    DropDataSyn(elements);
  }

  /** Dropping the `data_syn` entries, as counts and as a no-op when there are none. */
  lemma DropDataSyn(elements: seq<string>)
    ensures multiset(Filter(elements, NotDataSyn)) == multiset(elements)["data_syn" := 0]
    ensures "data_syn" !in elements ==> Filter(elements, NotDataSyn) == elements
  {
    var r := Filter(elements, NotDataSyn);
    forall x ensures multiset(r)[x] == multiset(elements)["data_syn" := 0][x] {
      FilterCount(elements, NotDataSyn, x);
    }
    if "data_syn" !in elements {
      assert forall i :: 0 <= i < |elements| ==> NotDataSyn(elements[i]);
      FilterKeepsAll(elements, NotDataSyn);
    }
  }

  /**
   * `data` keeps the order of its input: selecting from two lists one after the other is
   * selecting from the second after the first.
   */
  lemma DataSelectionAppend(xs: seq<string>, ys: seq<string>)
    requires |xs| > 0 && |ys| > 0
    ensures Select(DataSelector, xs + ys).Ok?
    ensures Select(DataSelector, xs + ys).value == Select(DataSelector, xs).value + Select(DataSelector, ys).value
  {
    FilterAppend(xs, ys, NotDataSyn);
  }

  /** `data_syn` selects `["data_syn"]` when present and otherwise names it as missing. */
  lemma DataSynSelection(elements: seq<string>)
    requires |elements| > 0
    ensures "data_syn" in elements ==> Select(DataSynSelector, elements) == Ok(["data_syn"])
    ensures "data_syn" !in elements ==>
              Select(DataSynSelector, elements) == Err(MissingElementError("data_syn", elements, DataSynMissing))
  {
  }

  /**
   * Constructing a range fails exactly for step 0, or for both bounds given and ordered against
   * the step; equal bounds are accepted here and only fail when selecting.
   */
  lemma RangeConstruction(kind: Kind, expression: string, start: string, stop: string, step: int)
    requires IsDigits(start) && IsDigits(stop)
    ensures var r := NewRangeSelector(kind, expression, Some(start), Some(stop), step);
            r.Err? <==> (step == 0 || (step > 0 && DecimalValue(start) > DecimalValue(stop))
                                   || (step < 0 && DecimalValue(start) < DecimalValue(stop)))
    ensures step != 0 ==> NewRangeSelector(kind, expression, Some(start), None, step).Ok?
    ensures step != 0 ==> NewRangeSelector(kind, expression, None, Some(stop), step).Ok?
    ensures step != 0 ==> NewRangeSelector(kind, expression, None, None, step).Ok?
  {
    PyIntOfDigits(start);
    PyIntOfDigits(stop);
  }

  /** On a non-empty list a range selector is evaluated by `SelectRange`. */
  lemma SelectIsRange(kind: Kind, expression: string, start: Option<string>, stop: Option<string>,
                      step: int, elements: seq<string>)
    requires |elements| > 0
    ensures Select(RangeSelector(kind, expression, start, stop, step), elements)
              == SelectRange(kind, expression, start, stop, step, elements)
  {
  }

  /**
   * A range never selects nothing: an empty expansion (start == stop, or a stop at the end the
   * step starts from) raises `EmptySelectionError` carrying the list it was taken from.
   */
  lemma RangeNeverEmpty(kind: Kind, expression: string, start: Option<string>, stop: Option<string>,
                        step: int, elements: seq<string>)
    ensures var r := Select(RangeSelector(kind, expression, start, stop, step), elements);
            r.Ok? ==> |r.value| > 0
    ensures step != 0 && |elements| > 0 && Truthy(start) && start == stop
            && start.value in RangePool(kind, elements) ==>
              Select(RangeSelector(kind, expression, start, stop, step), elements)
                == Err(EmptySelectionError(expression, RangePool(kind, elements)))
  {
    if |elements| > 0 {
      SelectIsRange(kind, expression, start, stop, step, elements);
    }
  }

  /** Range bounds are looked up by value, and an absent bound is reported with the list searched. */
  lemma RangeMissingBound(kind: Kind, expression: string, start: Option<string>, stop: Option<string>,
                          step: int, elements: seq<string>)
    requires |elements| > 0
    ensures var pool := RangePool(kind, elements);
            var r := Select(RangeSelector(kind, expression, start, stop, step), elements);
            && (Truthy(start) && start.value !in pool ==> r == Err(MissingElementError(start.value, pool, RangeStartMissing)))
            && (Truthy(start) && start.value in pool && Truthy(stop) && stop.value !in pool ==>
                  r == Err(MissingElementError(stop.value, pool, RangeStopMissing)))
  {
    SelectIsRange(kind, expression, start, stop, step, elements);
  }

  /** A sequence range selects numeric identifiers only, so never `data_syn`. */
  lemma SequenceRangeIsNumeric(expression: string, start: Option<string>, stop: Option<string>,
                               step: int, elements: seq<string>)
    ensures var r := Select(RangeSelector(Sequence, expression, start, stop, step), elements);
            r.Ok? ==> forall x :: x in r.value ==> IsDigits(x) && x != "data_syn"
  {
    if |elements| > 0 {
      SelectIsRange(Sequence, expression, start, stop, step, elements);
      assert !IsDigitChar("data_syn"[0]);
    }
  }

  lemma AscendingSorted(s: seq<string>, i: nat, hi: nat, step: nat)
    requires Sorted(s) && step > 0 && hi <= |s|
    ensures Sorted(Ascending(s, i, hi, step))
  {
    var v := Ascending(s, i, hi, step);
    forall a, b | 0 <= a < b < |v| ensures LessEq(v[a], v[b]) {
      AscendingAt(s, i, hi, step, a);
      AscendingAt(s, i, hi, step, b);
      MulStrict(a, b, step);
    }
  }

  lemma DescendingSorted(s: seq<string>, i: int, lo: int, step: nat)
    requires Sorted(s) && step > 0 && -1 <= lo && i < |s|
    ensures Sorted(Reverse(Descending(s, i, lo, step)))
  {
    var v := Descending(s, i, lo, step);
    var w := Reverse(v);
    forall a, b | 0 <= a < b < |w| ensures LessEq(w[a], w[b]) {
      assert w[a] == v[|v| - 1 - a] && w[b] == v[|v| - 1 - b];
      DescendingPair(s, i, lo, step, |v| - 1 - b, |v| - 1 - a);
    }
  }

  /** A later element of a descending walk over a sorted list is no greater than an earlier one. */
  lemma DescendingPair(s: seq<string>, i: int, lo: int, step: nat, p: nat, q: nat)
    requires Sorted(s) && step > 0 && -1 <= lo && i < |s| && p < q < |Descending(s, i, lo, step)|
    ensures LessEq(Descending(s, i, lo, step)[q], Descending(s, i, lo, step)[p])
  {
    DescendingAt(s, i, lo, step, p);
    DescendingAt(s, i, lo, step, q);
    MulStrict(p, q, step);
    var x, y := i - q * step, i - p * step;
    assert 0 <= x < y < |s|;
  }

  /** A positive-step slice of a sorted list is sorted; a negative-step one is sorted descending. */
  lemma SliceSorted(s: seq<string>, start: Option<nat>, stop: Option<nat>, step: int)
    requires Sorted(s) && step != 0
    ensures step > 0 ==> Sorted(PySlice(s, start, stop, step))
    ensures step < 0 ==> Sorted(Reverse(PySlice(s, start, stop, step)))
  {
    if step > 0 {
      AscendingSorted(s, if start.Some? then Min(start.value, |s|) else 0,
                      if stop.Some? then Min(stop.value, |s|) else |s|, step);
    } else {
      DescendingSorted(s, if start.Some? then Min(start.value, |s| - 1) else |s| - 1,
                       if stop.Some? then Min(stop.value, |s| - 1) else -1, -step);
    }
  }

  /**
   * On an ascending list a positive step selects in ascending order and a negative step in
   * descending order.
   */
  lemma RangeOrder(kind: Kind, expression: string, start: Option<string>, stop: Option<string>,
                   step: int, elements: seq<string>)
    requires Sorted(elements)
    ensures var r := Select(RangeSelector(kind, expression, start, stop, step), elements);
            r.Ok? ==> (step > 0 ==> Sorted(r.value)) && (step < 0 ==> Sorted(Reverse(r.value)))
  {
    if |elements| > 0 && step != 0 {
      SelectIsRange(kind, expression, start, stop, step, elements);
      var pool := RangePool(kind, elements);
      FilterKeepsOrder(elements, kind);
      SliceSorted(pool, if Truthy(start) && start.value in pool then Some(IndexOf(pool, start.value)) else None,
                  if Truthy(stop) && stop.value in pool then Some(IndexOf(pool, stop.value)) else None, step);
    }
  }

  lemma MulStrict(a: nat, b: nat, step: nat)
    requires a < b && step > 0
    ensures a * step < b * step
  {
  }

  lemma FilterKeepsOrder(elements: seq<string>, kind: Kind)
    requires Sorted(elements)
    ensures Sorted(RangePool(kind, elements))
  {
    if kind == Sequence {
      FilterSorted(elements);
    }
  }

  lemma {:induction false} FilterSorted(s: seq<string>)
    requires Sorted(s)
    ensures Sorted(Filter(s, IsDigits))
  {
    if |s| > 0 {
      FilterSorted(s[1..]);
      var rest := Filter(s[1..], IsDigits);
      forall j | 0 <= j < |rest| ensures LessEq(s[0], rest[j]) {
        assert rest[j] in s[1..];
      }
    }
  }

  /** The frame identifiers 40, 41, 42, 43, 44, 47, 55 and 56 that tests/test_selectors.py selects from. */
  function TestFrames(): seq<string> {
    ["000040", "000041", "000042", "000043", "000044", "000047", "000055", "000056"]
  }

  lemma TestFramesIndex(k: nat)
    requires k < 8
    ensures IndexOf(TestFrames(), TestFrames()[k]) == k
  {
    var e := TestFrames();
    var tens := "44444455";
    var ones := "01234756";
    assert forall i | 0 <= i < 8 :: |e[i]| == 6 && e[i][4] == tens[i] && e[i][5] == ones[i];
    assert e[k] !in e[..k];
  }

  /**
   * Where a range's bounds sit in the list it selects from (for sequences, the numeric
   * identifiers only), its selection is the slice between those positions, unless empty.
   */
  lemma RangeAt(kind: Kind, expression: string, start: Option<string>, stop: Option<string>, step: int,
                elements: seq<string>, i: Option<nat>, j: Option<nat>)
    requires |elements| > 0 && step != 0
    requires var pool := RangePool(kind, elements);
             && (i.Some? ==> i.value < |pool| && start == Some(pool[i.value]) && pool[i.value] != ""
                             && IndexOf(pool, pool[i.value]) == i.value)
             && (i.None? ==> start.None?)
             && (j.Some? ==> j.value < |pool| && stop == Some(pool[j.value]) && pool[j.value] != ""
                             && IndexOf(pool, pool[j.value]) == j.value)
             && (j.None? ==> stop.None?)
    ensures var pool := RangePool(kind, elements);
            var slice := PySlice(pool, i, j, step);
            Select(RangeSelector(kind, expression, start, stop, step), elements)
              == if slice == [] then Err(EmptySelectionError(expression, pool)) else Ok(slice)
  {
    SelectIsRange(kind, expression, start, stop, step, elements);
  }

  /** A frame range selects from the whole list: `RangeAt` with the list itself as the pool. */
  lemma FrameRangeAt(expression: string, start: Option<string>, stop: Option<string>, step: int,
                     elements: seq<string>, i: Option<nat>, j: Option<nat>)
    requires |elements| > 0 && step != 0
    requires i.Some? ==> i.value < |elements| && start == Some(elements[i.value]) && elements[i.value] != ""
                         && IndexOf(elements, elements[i.value]) == i.value
    requires i.None? ==> start.None?
    requires j.Some? ==> j.value < |elements| && stop == Some(elements[j.value]) && elements[j.value] != ""
                         && IndexOf(elements, elements[j.value]) == j.value
    requires j.None? ==> stop.None?
    ensures var slice := PySlice(elements, i, j, step);
            Select(RangeSelector(Frame, expression, start, stop, step), elements)
              == if slice == [] then Err(EmptySelectionError(expression, elements)) else Ok(slice)
  {
    RangeAt(Frame, expression, start, stop, step, elements, i, j);
  }

  /** The sequence identifiers 40, 41, 42, 43, 44, 47, 55 and 56 that tests/test_selectors.py selects from. */
  function TestSequenceNumbers(): seq<string> {
    ["0040", "0041", "0042", "0043", "0044", "0047", "0055", "0056"]
  }

  /** The test sequences with `data_syn` after them. */
  function TestSequences(): seq<string> {
    TestSequenceNumbers() + ["data_syn"]
  }

  /** Numeric identifiers followed by a non-numeric one: the range pool is the numeric ones. */
  lemma PoolOfNumeric(numeric: seq<string>, other: string)
    requires forall i :: 0 <= i < |numeric| ==> IsDigits(numeric[i])
    requires !IsDigits(other)
    ensures RangePool(Sequence, numeric + [other]) == numeric
  {
    FilterKeepsAll(numeric, IsDigits);
    FilterAppend(numeric, [other], IsDigits);
    assert Filter([other], IsDigits) == [];
  }

  lemma TestSequenceNumbersDigits(i: nat)
    requires i < 8
    ensures IsDigits(TestSequenceNumbers()[i])
  {
    var e := TestSequenceNumbers();
    var tens := "44444455";
    var ones := "01234756";
    assert |e[i]| == 4 && e[i][0] == '0' && e[i][1] == '0' && e[i][2] == tens[i] && e[i][3] == ones[i];
  }

  /** A sequence range selects from the numeric identifiers: `data_syn` is left out of the pool. */
  lemma TestSequencesPool()
    ensures RangePool(Sequence, TestSequences()) == TestSequenceNumbers()
  {
    forall i | 0 <= i < |TestSequenceNumbers()| ensures IsDigits(TestSequenceNumbers()[i]) {
      TestSequenceNumbersDigits(i);
    }
    assert !IsDigits("data_syn") by {
      assert !IsDigitChar("data_syn"[0]);
    }
    PoolOfNumeric(TestSequenceNumbers(), "data_syn");
  }

  lemma TestSequencesIndex(k: nat)
    requires k < 8
    ensures IndexOf(TestSequenceNumbers(), TestSequenceNumbers()[k]) == k
  {
    var e := TestSequenceNumbers();
    var tens := "44444455";
    var ones := "01234756";
    assert forall i | 0 <= i < 8 :: |e[i]| == 4 && e[i][2] == tens[i] && e[i][3] == ones[i];
    assert e[k] !in e[..k];
  }

  /**
   * tests/test_selectors.py with kind `sequence`: `42:55:2` selects 42 and 44, even with
   * `data_syn` in the list, which a sequence range never considers.
   */
  lemma SequenceRangeExample()
    ensures Select(RangeSelector(Sequence, "42:55:2", Some("0042"), Some("0055"), 2), TestSequences())
              == Ok(["0042", "0044"])
  {
    TestSequencesPool();
    TestSequencesIndex(2);
    TestSequencesIndex(6);
    SequenceSlice();
    RangeAt(Sequence, "42:55:2", Some("0042"), Some("0055"), 2, TestSequences(), Some(2), Some(6));
  }

  /** Positions 2 to 6 by step 2 of the numeric sequences: 42 and 44. */
  lemma SequenceSlice()
    ensures PySlice(TestSequenceNumbers(), Some(2), Some(6), 2) == ["0042", "0044"]
  {
    var e := TestSequenceNumbers();
    assert Ascending(e, 2, 6, 2) == ["0042", "0044"];
  }

  /**
   * tests/test_selectors.py: `42:55:2` selects 42 and 44. The bounds sit at positions 2 and 6
   * (`TestFramesIndex`), so by `FrameRangeAt` the selection is that slice.
   */
  lemma ForwardRangeExample()
    ensures Select(RangeSelector(Frame, "42:55:2", Some("000042"), Some("000055"), 2), TestFrames())
              == Ok(["000042", "000044"])
  {
    var e := TestFrames();
    TestFramesIndex(2);
    TestFramesIndex(6);
    ForwardSlice();
    FrameRangeAt("42:55:2", Some("000042"), Some("000055"), 2, e, Some(2), Some(6));
  }

  /**
   * tests/test_selectors.py: `55:42:-1` selects 55, 47, 44 and 43, excluding 42: the slice from
   * position 6 down to, not including, position 2.
   */
  lemma BackwardRangeExample()
    ensures Select(RangeSelector(Frame, "55:42:-1", Some("000055"), Some("000042"), -1), TestFrames())
              == Ok(["000055", "000047", "000044", "000043"])
  {
    var e := TestFrames();
    TestFramesIndex(6);
    TestFramesIndex(2);
    BackwardSlice();
    FrameRangeAt("55:42:-1", Some("000055"), Some("000042"), -1, e, Some(6), Some(2));
  }

  /** Positions 2 to 6 by step 2: the frames 42 and 44. */
  lemma ForwardSlice()
    ensures PySlice(TestFrames(), Some(2), Some(6), 2) == ["000042", "000044"]
  {
    var e := TestFrames();
    assert Ascending(e, 2, 6, 2) == ["000042", "000044"];
  }

  /** Positions 6 down to, not including, 2: the frames 55, 47, 44 and 43. */
  lemma BackwardSlice()
    ensures PySlice(TestFrames(), Some(6), Some(2), -1) == ["000055", "000047", "000044", "000043"]
  {
    var e := TestFrames();
    assert Descending(e, 6, 2, 1) == ["000055", "000047", "000044", "000043"];
  }

  /** tests/test_selectors.py: `:40` selects nothing and raises. */
  lemma EmptyForwardExample()
    ensures Select(RangeSelector(Frame, ":40", None, Some("000040"), 1), TestFrames())
              == Err(EmptySelectionError(":40", TestFrames()))
  {
    var e := TestFrames();
    TestFramesIndex(0);
    assert PySlice(e, None, Some(0), 1) == [];
    FrameRangeAt(":40", None, Some("000040"), 1, e, None, Some(0));
  }

  /** tests/test_selectors.py: `:56:-1` selects nothing and raises. */
  lemma EmptyBackwardExample()
    ensures Select(RangeSelector(Frame, ":56:-1", None, Some("000056"), -1), TestFrames())
              == Err(EmptySelectionError(":56:-1", TestFrames()))
  {
    var e := TestFrames();
    TestFramesIndex(7);
    BackwardFromLastEmpty(e);
    FrameRangeAt(":56:-1", None, Some("000056"), -1, e, None, Some(7));
  }

  /** Walking backwards from the end and stopping at the last element takes nothing. */
  lemma BackwardFromLastEmpty<T>(s: seq<T>)
    requires |s| > 0
    ensures PySlice(s, None, Some(|s| - 1), -1) == []
  {
  }
}
