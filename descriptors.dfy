/**
 * The descriptor resolver: `DescriptorCreator` turns a batch of selection expressions into
 * (frame sequence, frame) descriptors against the dataset's inventory. All expressions are
 * parsed first; then each selector, in order, selects sequences from the sorted sequence
 * inventory and, per selected sequence, frames from the sorted list of that sequence's
 * frame sets, refusing any selected frame whose files are incomplete.
 */
module Descriptors {
  import opened PyText
  import opened Selectors
  import Parsing
  import opened FrameSets
  import opened FrameAccess

  /**
   * What the resolver asks its `DatasetAccess` for: the available frame sequences, and
   * per sequence its complete frames and its incomplete frames with their missing kinds.
   */
  datatype Inventory = Inventory(sequences: seq<string>, frameSets: map<string, FrameSets>)

  /** The frame sets of one sequence; a sequence without a listing has none. */
  function FrameSetsOf(inventory: Inventory, sequence: string): FrameSets {
    if sequence in inventory.frameSets then inventory.frameSets[sequence] else FrameSets([], [])
  }

  /** The frames a selector picks from: complete and incomplete ones together, sorted. */
  function AvailableFrames(sets: FrameSets): (r: seq<string>)
    ensures Sorted(r)
    ensures forall x :: x in r <==> x in sets.complete || x in Keys(sets.incomplete)
  {
    var all := sets.complete + Keys(sets.incomplete);
    assert forall x :: x in SortStrings(all) <==> x in all by {
      forall x ensures x in SortStrings(all) <==> x in all {
        SortedMembers(all, x);
      }
    }
    SortStrings(all)
  }

  /** The exceptions `get_descriptors` raises. */
  datatype ResolveError =
    | InvalidExpressions(invalid: Parsing.InvalidExpressions)               // ValueError from parsing
    | SequenceNotAvailable(element: string)                                 // IOError
    | SequenceSelectionFailed(selectionError: SelectionError)               // propagated unchanged
    | FrameNotAvailable(sequence: string, frame: string)                    // IOError
    | FrameSelectionFailed(frameSelectionError: SelectionError)             // propagated unchanged
    | FilesMissing(incompleteSequence: string, incompleteFrame: string, missing: seq<string>) // IOError

  // ---------------------------------------------------------------- extend, in order

  /**
   * Extending one list with the results of `step` over `items`, in order, stopping at the
   * first failure.
   */
  function ConcatAll<T, U, E>(items: seq<T>, step: T -> Result<seq<U>, E>): (r: Result<seq<U>, E>)
    ensures r.Ok? <==> forall i :: 0 <= i < |items| ==> step(items[i]).Ok?
    ensures r.Err? ==> exists i :: 0 <= i < |items| && step(items[i]) == Err(r.error)
                                   && forall k :: 0 <= k < i ==> step(items[k]).Ok?
  {
    if items == [] then Ok([])
    else
      var init := items[..|items| - 1];
      var last := items[|items| - 1];
      assert forall k :: 0 <= k < |init| ==> init[k] == items[k];
      match ConcatAll(init, step)
      case Err(e) => Err(e)
      case Ok(prefix) =>
        match step(last)
        case Err(e) => Err(e)
        case Ok(more) => Ok(prefix + more)
  }

  /** Once extending has failed, further items keep that failure. */
  lemma {:induction false} ConcatAllKeepsFailure<T, U, E>(items: seq<T>, n: nat, step: T -> Result<seq<U>, E>)
    requires n <= |items| && ConcatAll(items[..n], step).Err?
    ensures ConcatAll(items, step) == ConcatAll(items[..n], step)
  {
    if n < |items| {
      assert items[..|items| - 1][..n] == items[..n];
      ConcatAllKeepsFailure(items[..|items| - 1], n, step);
    } else {
      assert items[..n] == items;
    }
  }

  /** Extending over two lists in turn is extending over their concatenation. */
  lemma {:induction false} ConcatAllAppend<T, U, E>(xs: seq<T>, ys: seq<T>, step: T -> Result<seq<U>, E>)
    requires ConcatAll(xs, step).Ok? && ConcatAll(ys, step).Ok?
    ensures ConcatAll(xs + ys, step) == Ok(ConcatAll(xs, step).value + ConcatAll(ys, step).value)
  {
    if ys == [] {
      assert xs + ys == xs;
      assert ConcatAll(xs, step).value + [] == ConcatAll(xs, step).value;
    } else {
      var init := ys[..|ys| - 1];
      assert forall k :: 0 <= k < |init| ==> init[k] == ys[k];
      ConcatAllAppend(xs, init, step);
      assert (xs + ys)[..|xs + ys| - 1] == xs + init;
      assert (xs + ys)[|xs + ys| - 1] == ys[|ys| - 1];
      var vx, vi, more := ConcatAll(xs, step).value, ConcatAll(init, step).value, step(ys[|ys| - 1]).value;
      assert (vx + vi) + more == vx + (vi + more);
    }
  }

  /** Whatever extending produces comes from the result of one item. */
  lemma {:induction false} ConcatAllMember<T, U, E>(items: seq<T>, step: T -> Result<seq<U>, E>, x: U)
    requires ConcatAll(items, step).Ok? && x in ConcatAll(items, step).value
    ensures exists i :: 0 <= i < |items| && x in step(items[i]).value
  {
    var init := items[..|items| - 1];
    assert forall k :: 0 <= k < |init| ==> init[k] == items[k];
    if x !in step(items[|items| - 1]).value {
      ConcatAllMember(init, step, x);
      var i :| 0 <= i < |init| && x in step(init[i]).value;
      assert x in step(items[i]).value;
    }
  }

  // ---------------------------------------------------------------- resolution

  /** One descriptor per frame, in order. */
  function DescriptorsOf(sequence: string, frames: seq<string>): (r: seq<Descriptor>)
    ensures |r| == |frames| && forall i :: 0 <= i < |r| ==> r[i] == Descriptor(sequence, frames[i])
  {
    if frames == [] then [] else DescriptorsOf(sequence, frames[..|frames| - 1]) + [Descriptor(sequence, frames[|frames| - 1])]
  }

  /**
   * The body of the loop over selected sequences: select frames, refuse an unavailable or
   * an incomplete frame, emit one descriptor per selected frame.
   */
  function ResolveSequence(inventory: Inventory, selector: Selector, sequence: string)
    : (r: Result<seq<Descriptor>, ResolveError>)
    ensures var sets := FrameSetsOf(inventory, sequence);
            var selection := Select(selector.frameSelector, AvailableFrames(sets));
            && (r.Ok? <==> selection.Ok? && forall f :: f in selection.value ==> f in sets.complete)
            && (r.Ok? ==> r.value == DescriptorsOf(sequence, selection.value))
            && (r.Err? && r.error.FilesMissing? ==>
                  && r.error.incompleteSequence == sequence
                  && selection.Ok? && r.error.incompleteFrame in selection.value
                  && r.error.incompleteFrame !in sets.complete
                  && Lookup(sets.incomplete, r.error.incompleteFrame) == Some(r.error.missing))
  {
    var sets := FrameSetsOf(inventory, sequence);
    match Select(selector.frameSelector, AvailableFrames(sets))
    case Err(MissingElementError(frame, _, _)) => Err(FrameNotAvailable(sequence, frame))
    case Err(e) => Err(FrameSelectionFailed(e))
    case Ok(selected) =>
      match FirstMissing(selected, sets.complete)
      case Some(i) => Err(FilesMissing(sequence, selected[i], Lookup(sets.incomplete, selected[i]).value))
      case None => Ok(DescriptorsOf(sequence, selected))
  }

  /**
   * Which error a sequence raises: a frame missing from the list is "not available", any other
   * selection failure propagates as it is, and a selection that succeeds fails only for files
   * missing, exactly when it picked an incomplete frame.
   */
  lemma ResolveSequenceErrors(inventory: Inventory, selector: Selector, sequence: string)
    ensures var sets := FrameSetsOf(inventory, sequence);
            var selection := Select(selector.frameSelector, AvailableFrames(sets));
            var r := ResolveSequence(inventory, selector, sequence);
            && (selection.Err? && selection.error.MissingElementError? ==>
                  r == Err(FrameNotAvailable(sequence, selection.error.element)))
            && (selection.Err? && !selection.error.MissingElementError? ==>
                  r == Err(FrameSelectionFailed(selection.error)))
            && (selection.Ok? ==>
                  (r.Err? <==> exists f :: f in selection.value && f !in sets.complete)
                  && (r.Err? ==> r.error.FilesMissing?))
  {
  }

  /** The loop body over selected sequences, as a step for `ConcatAll`. */
  function SequenceStep(inventory: Inventory, selector: Selector): string -> Result<seq<Descriptor>, ResolveError> {
    sequence => ResolveSequence(inventory, selector, sequence)
  }

  /** `_create_descriptors_from_selector` once the sequences are selected (or not). */
  function ResolveSelection(inventory: Inventory, selector: Selector, selection: Result<seq<string>, SelectionError>)
    : Result<seq<Descriptor>, ResolveError>
  {
    match selection
    case Err(MissingElementError(element, _, _)) => Err(SequenceNotAvailable(element))
    case Err(e) => Err(SequenceSelectionFailed(e))
    case Ok(sequences) => ConcatAll(sequences, SequenceStep(inventory, selector))
  }

  /**
   * Which error the sequence selection raises: a sequence missing from the inventory is "not
   * available", any other selection failure propagates as it is, and after a successful
   * selection every error comes from one selected sequence, the first one that fails.
   */
  lemma ResolveSelectionErrors(inventory: Inventory, selector: Selector, selection: Result<seq<string>, SelectionError>)
    ensures var r := ResolveSelection(inventory, selector, selection);
            && (selection.Err? && selection.error.MissingElementError? ==>
                  r == Err(SequenceNotAvailable(selection.error.element)))
            && (selection.Err? && !selection.error.MissingElementError? ==>
                  r == Err(SequenceSelectionFailed(selection.error)))
            && (selection.Ok? && r.Err? ==>
                  exists i :: 0 <= i < |selection.value|
                    && ResolveSequence(inventory, selector, selection.value[i]) == Err(r.error)
                    && forall k :: 0 <= k < i ==> ResolveSequence(inventory, selector, selection.value[k]).Ok?)
  {
    if selection.Ok? {
      var step := SequenceStep(inventory, selector);
      assert forall t :: step(t) == ResolveSequence(inventory, selector, t);
    }
  }

  /** `_create_descriptors_from_selector`: select from the sorted sequence inventory. */
  function ResolveSelector(inventory: Inventory, selector: Selector): Result<seq<Descriptor>, ResolveError> {
    ResolveSelection(inventory, selector, Select(selector.sequenceSelector, SortStrings(inventory.sequences)))
  }

  /** The loop body over selectors, as a step for `ConcatAll`. */
  function SelectorStep(inventory: Inventory): Selector -> Result<seq<Descriptor>, ResolveError> {
    selector => ResolveSelector(inventory, selector)
  }

  /** `get_descriptors` once the expressions are parsed (or not). */
  function ResolveParsed(inventory: Inventory, parsed: Result<seq<Selector>, Parsing.InvalidExpressions>)
    : Result<seq<Descriptor>, ResolveError>
  {
    match parsed
    case Err(e) => Err(InvalidExpressions(e))
    case Ok(selectors) => ConcatAll(selectors, SelectorStep(inventory))
  }

  /** `get_descriptors`: parse every expression first, then resolve the selectors in order. */
  function Resolve(inventory: Inventory, expressions: seq<string>): Result<seq<Descriptor>, ResolveError> {
    ResolveParsed(inventory, Parsing.ParseAll(expressions))
  }

  /** `DescriptorCreator`, holding the dataset access it resolves against. */
  class DescriptorCreator {
    const inventory: Inventory

    constructor(inventory: Inventory)
      ensures this.inventory == inventory
    {
      this.inventory := inventory;
    }

    /** `get_descriptors`. */
    method GetDescriptors(expressions: seq<string>) returns (r: Result<seq<Descriptor>, ResolveError>)
      ensures r == Resolve(inventory, expressions)
    {
      var parsed := Parsing.ParseSelectionExpressions(expressions);
      if parsed.Err? {
        return Err(InvalidExpressions(parsed.error));
      }
      r := ResolveSelectors(parsed.value);
    }

    /** The loop of `get_descriptors` over the parsed selectors. */
    method ResolveSelectors(selectors: seq<Selector>) returns (r: Result<seq<Descriptor>, ResolveError>)
      ensures r == ConcatAll(selectors, SelectorStep(inventory))
    {
      var descriptors: seq<Descriptor> := [];
      for i := 0 to |selectors|
        invariant ConcatAll(selectors[..i], SelectorStep(inventory)) == Ok(descriptors)
      {
        var more := CreateDescriptorsFromSelector(selectors[i]);
        assert selectors[..i + 1][..i] == selectors[..i];
        if more.Err? {
          ConcatAllKeepsFailure(selectors, i + 1, SelectorStep(inventory));
          return Err(more.error);
        }
        descriptors := descriptors + more.value;
      }
      assert selectors[..|selectors|] == selectors;
      r := Ok(descriptors);
    }

    /** `_create_descriptors_from_selector`. */
    method CreateDescriptorsFromSelector(selector: Selector) returns (r: Result<seq<Descriptor>, ResolveError>)
      ensures r == ResolveSelector(inventory, selector)
    {
      var available := SortStrings(inventory.sequences);
      var selection := Select(selector.sequenceSelector, available);
      if selection.Err? {
        if selection.error.MissingElementError? {
          return Err(SequenceNotAvailable(selection.error.element));
        }
        return Err(SequenceSelectionFailed(selection.error));
      }
      r := ResolveSequences(selector, selection.value);
    }

    /** The loop of `_create_descriptors_from_selector` over the selected sequences. */
    method ResolveSequences(selector: Selector, sequences: seq<string>) returns (r: Result<seq<Descriptor>, ResolveError>)
      ensures r == ConcatAll(sequences, SequenceStep(inventory, selector))
    {
      var descriptors: seq<Descriptor> := [];
      for i := 0 to |sequences|
        invariant ConcatAll(sequences[..i], SequenceStep(inventory, selector)) == Ok(descriptors)
      {
        var more := ResolveSequenceFrames(sequences[i], selector);
        assert sequences[..i + 1][..i] == sequences[..i];
        if more.Err? {
          ConcatAllKeepsFailure(sequences, i + 1, SequenceStep(inventory, selector));
          return Err(more.error);
        }
        descriptors := descriptors + more.value;
      }
      assert sequences[..|sequences|] == sequences;
      r := Ok(descriptors);
    }

    /** The body of the loop over selected sequences: frame selection, completeness, emission. */
    method ResolveSequenceFrames(sequence: string, selector: Selector) returns (r: Result<seq<Descriptor>, ResolveError>)
      ensures r == ResolveSequence(inventory, selector, sequence)
    {
      var sets := FrameSetsOf(inventory, sequence);
      var selection := Select(selector.frameSelector, AvailableFrames(sets));
      if selection.Err? {
        if selection.error.MissingElementError? {
          return Err(FrameNotAvailable(sequence, selection.error.element));
        }
        return Err(FrameSelectionFailed(selection.error));
      }
      var frames := selection.value;
      var incomplete := FirstMissing(frames, sets.complete);
      if incomplete.Some? {
        var frame := frames[incomplete.value];
        return Err(FilesMissing(sequence, frame, Lookup(sets.incomplete, frame).value));
      }
      var descriptors: seq<Descriptor> := [];
      for i := 0 to |frames|
        invariant descriptors == DescriptorsOf(sequence, frames[..i])
      {
        assert frames[..i + 1][..i] == frames[..i];
        descriptors := descriptors + [Descriptor(sequence, frames[i])];
      }
      assert frames[..|frames|] == frames;
      r := Ok(descriptors);
    }
  }

  // ---------------------------------------------------------------- properties

  /**
   * Parsing comes first: one invalid expression anywhere fails the whole batch with the
   * parse error, whatever the inventory holds.
   */
  lemma InvalidExpressionFailsBatch(inventory: Inventory, expressions: seq<string>, i: nat)
    requires i < |expressions| && Parsing.Parse(expressions[i]).Err?
    ensures var r := Resolve(inventory, expressions);
            && r.Err? && r.error.InvalidExpressions?
            && r.error.invalid.index <= i
            && Parsing.Parse(expressions[r.error.invalid.index]).Err?
  {
    Parsing.ParseAllFirstFailure(expressions);
  }

  /** The descriptors of a batch are those of its first part followed by those of its second. */
  lemma ResolveConcatenates(inventory: Inventory, xs: seq<string>, ys: seq<string>)
    requires Resolve(inventory, xs).Ok? && Resolve(inventory, ys).Ok?
    ensures Resolve(inventory, xs + ys) == Ok(Resolve(inventory, xs).value + Resolve(inventory, ys).value)
  {
    Parsing.ParseAllAppend(xs, ys);
    ConcatAllAppend(Parsing.ParseAll(xs).value, Parsing.ParseAll(ys).value, SelectorStep(inventory));
  }

  /** Whatever a selection resolves to lies in the selected sequences and their complete frames. */
  lemma {:induction false} SelectionSound(inventory: Inventory, selector: Selector,
                                          selection: Result<seq<string>, SelectionError>, d: Descriptor)
    requires ResolveSelection(inventory, selector, selection).Ok?
    requires d in ResolveSelection(inventory, selector, selection).value
    ensures selection.Ok? && d.frameSequence in selection.value
    ensures d.frame in FrameSetsOf(inventory, d.frameSequence).complete
  {
    var sequences := selection.value;
    ConcatAllMember(sequences, SequenceStep(inventory, selector), d);
    var i :| 0 <= i < |sequences| && d in SequenceStep(inventory, selector)(sequences[i]).value;
    var frames := Select(selector.frameSelector, AvailableFrames(FrameSetsOf(inventory, sequences[i]))).value;
    var k :| 0 <= k < |frames| && DescriptorsOf(sequences[i], frames)[k] == d;
    assert frames[k] in frames;
  }

  /** Every descriptor a selector resolves to names an available sequence and one of its complete frames. */
  lemma SelectorSound(inventory: Inventory, selector: Selector, d: Descriptor)
    requires ResolveSelector(inventory, selector).Ok? && d in ResolveSelector(inventory, selector).value
    ensures d.frameSequence in inventory.sequences
    ensures d.frame in FrameSetsOf(inventory, d.frameSequence).complete
  {
    var selection := Select(selector.sequenceSelector, SortStrings(inventory.sequences));
    SelectionSound(inventory, selector, selection, d);
    SortedMembers(inventory.sequences, d.frameSequence);
  }

  /** Every descriptor of a batch names an available sequence and one of its complete frames. */
  lemma ResolveSound(inventory: Inventory, expressions: seq<string>, d: Descriptor)
    requires Resolve(inventory, expressions).Ok? && d in Resolve(inventory, expressions).value
    ensures d.frameSequence in inventory.sequences
    ensures d.frame in FrameSetsOf(inventory, d.frameSequence).complete
  {
    var selectors := Parsing.ParseAll(expressions).value;
    ConcatAllMember(selectors, SelectorStep(inventory), d);
    var i :| 0 <= i < |selectors| && d in SelectorStep(inventory)(selectors[i]).value;
    SelectorSound(inventory, selectors[i], d);
  }

  /** The incomplete-files error of a selection comes from one of the selected sequences. */
  lemma {:induction false} SelectionFilesMissing(inventory: Inventory, selector: Selector,
                                                 selection: Result<seq<string>, SelectionError>)
    requires ResolveSelection(inventory, selector, selection).Err?
    requires ResolveSelection(inventory, selector, selection).error.FilesMissing?
    ensures var e := ResolveSelection(inventory, selector, selection).error;
            && selection.Ok? && e.incompleteSequence in selection.value
            && ResolveSequence(inventory, selector, e.incompleteSequence) == Err(e)
  {
    var sequences := selection.value;
    var e := ResolveSelection(inventory, selector, selection).error;
    var i :| 0 <= i < |sequences| && SequenceStep(inventory, selector)(sequences[i]) == Err(e);
    assert ResolveSequence(inventory, selector, sequences[i]) == Err(e);
  }

  /**
   * The incomplete-files error names an available sequence, a frame its selector selected
   * that is not complete, and that frame's missing kinds.
   */
  lemma FilesMissingNamesSelectedFrame(inventory: Inventory, selector: Selector)
    requires ResolveSelector(inventory, selector).Err? && ResolveSelector(inventory, selector).error.FilesMissing?
    ensures var e := ResolveSelector(inventory, selector).error;
            var sets := FrameSetsOf(inventory, e.incompleteSequence);
            && e.incompleteSequence in inventory.sequences
            && e.incompleteFrame in Select(selector.frameSelector, AvailableFrames(sets)).value
            && e.incompleteFrame !in sets.complete
            && Lookup(sets.incomplete, e.incompleteFrame) == Some(e.missing)
  {
    var selection := Select(selector.sequenceSelector, SortStrings(inventory.sequences));
    SelectionFilesMissing(inventory, selector, selection);
    SortedMembers(inventory.sequences, ResolveSelector(inventory, selector).error.incompleteSequence);
  }
}
