/**
 * The older selection syntax, kept in two variants: the current one reads
 * `sequences/frames` (sequences in 1 to 4 digits, or `data_syn`; frames in 1 to 6 digits),
 * the legacy one `frames:sequences` with the digit limits swapped and no `data_syn`. A part is
 * a bracketed comma-separated list of digit runs, a single digit run, or `*`.
 */
module FrameSelection {
  import opened PyText
  import opened Identifiers

  /** `src/ycbvideo/frameselection.py` or the top-level `frameselection.py`. */
  datatype Syntax = Current | Legacy

  /** The character between the two parts. */
  function Separator(syntax: Syntax): char {
    match syntax
    case Current => '/'
    case Legacy => ':'
  }

  /** `FrameSelector`: the two parts, exactly as written. */
  datatype FrameSelector = FrameSelector(frameSequenceSelection: string, frameSelection: string)

  // ---------------------------------------------------------------- the part grammar

  /** `[0-9]{1,n}` when a limit is given, `[0-9]+` otherwise. */
  predicate DigitRun(s: string, maxDigits: Option<nat>) {
    IsDigits(s) && (maxDigits.Some? ==> |s| <= maxDigits.value)
  }

  predicate IsBracketed(s: string) {
    |s| >= 2 && s[0] == '[' && s[|s| - 1] == ']'
  }

  /** What lies between the brackets. */
  function Inner(s: string): string
    requires IsBracketed(s)
  {
    s[1..|s| - 1]
  }

  /** `\[run(,run)*\]`: a bracketed, comma-separated, non-empty list of digit runs. */
  predicate IsDigitList(s: string, maxDigits: Option<nat>) {
    IsBracketed(s) && forall item :: item in Split(Inner(s), ',') ==> DigitRun(item, maxDigits)
  }

  /** `SELECTION_PATTERN` with `n` replaced by `maxDigits`. */
  predicate SelectionPart(s: string, maxDigits: nat) {
    IsDigitList(s, Some(maxDigits)) || DigitRun(s, Some(maxDigits)) || s == "*"
  }

  /** The digit limit of the part before the separator. */
  function FirstPartDigits(syntax: Syntax): nat {
    match syntax
    case Current => 4
    case Legacy => 6
  }

  /** The digit limit of the part after the separator. */
  function SecondPartDigits(syntax: Syntax): nat {
    match syntax
    case Current => 6
    case Legacy => 4
  }

  /** The part before the separator; only the current syntax also accepts `data_syn`. */
  predicate FirstPart(syntax: Syntax, s: string) {
    SelectionPart(s, FirstPartDigits(syntax)) || (syntax == Current && s == "data_syn")
  }

  predicate SecondPart(syntax: Syntax, s: string) {
    SelectionPart(s, SecondPartDigits(syntax))
  }

  /** Only digits, brackets and commas make up a list. */
  lemma DigitListChars(s: string, maxDigits: Option<nat>, c: char)
    requires IsDigitList(s, maxDigits) && c in s
    ensures IsDigitChar(c) || c == '[' || c == ']' || c == ','
  {
    var i :| 0 <= i < |s| && s[i] == c;
    if 0 < i < |s| - 1 && c != ',' {
      assert c in Inner(s) by {
        assert Inner(s)[i - 1] == c;
      }
      var k := SplitChars(Inner(s), ',', c);
      assert DigitRun(Split(Inner(s), ',')[k], maxDigits);
    }
  }

  /** A part never holds a separator of either syntax, nor a line break. */
  lemma PartHasNoSeparator(syntax: Syntax, s: string, c: char)
    requires FirstPart(syntax, s) || SecondPart(syntax, s)
    requires c == '/' || c == ':' || c == '\n'
    ensures c !in s
  {
    if c in s && (IsDigitList(s, Some(FirstPartDigits(syntax))) || IsDigitList(s, Some(SecondPartDigits(syntax)))) {
      if IsDigitList(s, Some(FirstPartDigits(syntax))) {
        DigitListChars(s, Some(FirstPartDigits(syntax)), c);
      } else {
        DigitListChars(s, Some(SecondPartDigits(syntax)), c);
      }
    }
  }

  // ---------------------------------------------------------------- get_frame_selector

  /** The `ValueError`s of this module. */
  datatype SyntaxError =
    | SelectionSyntaxError(selection: string)
    | IndexedSelectionSyntaxError(selection: string, index: nat)
    | DescriptorSyntaxError(descriptor: string)
    | UnknownKind(kindOfItem: string)
    | NotAnInteger(item: string)

  /**
   * `get_frame_selector`: the whole selection (up to one final line break, which `$` lets
   * through) must be a first part, the separator and a second part.
   */
  function GetFrameSelector(syntax: Syntax, selection: string): (r: Result<FrameSelector, SyntaxError>)
    ensures r.Ok? ==> FirstPart(syntax, r.value.frameSequenceSelection)
                      && SecondPart(syntax, r.value.frameSelection)
                      && EndAnchored(selection)
                         == r.value.frameSequenceSelection + [Separator(syntax)] + r.value.frameSelection
    ensures r.Err? ==> r.error == SelectionSyntaxError(selection)
  {
    var text := EndAnchored(selection);
    var parts := Split(text, Separator(syntax));
    if |parts| == 2 && FirstPart(syntax, parts[0]) && SecondPart(syntax, parts[1]) then
      JoinSplit(text, Separator(syntax));
      assert parts[1..] == [parts[1]];
      Ok(FrameSelector(parts[0], parts[1]))
    else
      Err(SelectionSyntaxError(selection))
  }

  /** A first part, the separator and a second part are read back as exactly those parts. */
  lemma GetFrameSelectorOfParts(syntax: Syntax, first: string, second: string)
    requires FirstPart(syntax, first) && SecondPart(syntax, second)
    ensures GetFrameSelector(syntax, first + [Separator(syntax)] + second) == Ok(FrameSelector(first, second))
    ensures GetFrameSelector(syntax, first + [Separator(syntax)] + second + "\n") == Ok(FrameSelector(first, second))
  {
    var sep := Separator(syntax);
    PartHasNoSeparator(syntax, first, sep);
    PartHasNoSeparator(syntax, second, sep);
    PartHasNoSeparator(syntax, second, '\n');
    var text := first + [sep] + second;
    assert second != "" && text[|text| - 1] == second[|second| - 1];
    assert EndAnchored(text) == text;
    assert (text + "\n")[..|text|] == text;
    assert EndAnchored(text + "\n") == text;
    SplitAfterFirst(first, sep, second);
  }

  /** A selection is accepted exactly when it is a first part, the separator and a second part. */
  lemma GetFrameSelectorIff(syntax: Syntax, selection: string)
    ensures GetFrameSelector(syntax, selection).Ok? <==>
            exists first, second :: FirstPart(syntax, first) && SecondPart(syntax, second)
                                    && EndAnchored(selection) == first + [Separator(syntax)] + second
  {
    var r := GetFrameSelector(syntax, selection);
    if r.Ok? {
      assert FirstPart(syntax, r.value.frameSequenceSelection) && SecondPart(syntax, r.value.frameSelection);
    }
    if exists first, second :: FirstPart(syntax, first) && SecondPart(syntax, second)
                                && EndAnchored(selection) == first + [Separator(syntax)] + second {
      var first, second :| FirstPart(syntax, first) && SecondPart(syntax, second)
                           && EndAnchored(selection) == first + [Separator(syntax)] + second;
      var sep := Separator(syntax);
      PartHasNoSeparator(syntax, first, sep);
      PartHasNoSeparator(syntax, second, sep);
      SplitAfterFirst(first, sep, second);
    }
  }

  // ---------------------------------------------------------------- get_frame_selectors

  /** `get_frame_selector` of one syntax, as a value. */
  function Reader(syntax: Syntax): string -> Result<FrameSelector, SyntaxError> {
    selection => GetFrameSelector(syntax, selection)
  }

  /** `get_frame_selectors` over the first `n` selections, reading each with `read`. */
  function SelectorsUpTo(read: string -> Result<FrameSelector, SyntaxError>, selections: seq<string>, n: nat)
    : (r: Result<seq<FrameSelector>, SyntaxError>)
    requires n <= |selections|
    ensures r.Ok? ==> |r.value| == n
  {
    if n == 0 then Ok([])
    else
      match SelectorsUpTo(read, selections, n - 1)
      case Err(e) => Err(e)
      case Ok(selectors) =>
        match read(selections[n - 1])
        case Err(_) => Err(IndexedSelectionSyntaxError(selections[n - 1], n - 1))
        case Ok(selector) => Ok(selectors + [selector])
  }

  /** `get_frame_selectors`, as a specification. */
  function FrameSelectors(syntax: Syntax, selections: seq<string>): Result<seq<FrameSelector>, SyntaxError> {
    SelectorsUpTo(Reader(syntax), selections, |selections|)
  }

  /** `get_frame_selectors`: all or nothing, in input order. */
  method GetFrameSelectors(syntax: Syntax, selections: seq<string>) returns (r: Result<seq<FrameSelector>, SyntaxError>)
    ensures r == FrameSelectors(syntax, selections)
  {
    r := ReadSelectors(Reader(syntax), selections);
  }

  /** The loop of `get_frame_selectors`, reading each selection with `read`. */
  method ReadSelectors(read: string -> Result<FrameSelector, SyntaxError>, selections: seq<string>)
    returns (r: Result<seq<FrameSelector>, SyntaxError>)
    ensures r == SelectorsUpTo(read, selections, |selections|)
  {
    var selectors: seq<FrameSelector> := [];
    for index := 0 to |selections|
      invariant SelectorsUpTo(read, selections, index) == Ok(selectors)
    {
      var selector := read(selections[index]);
      if selector.Err? {
        SelectorsKeepFailure(read, selections, index + 1, |selections|);
        return Err(IndexedSelectionSyntaxError(selections[index], index));
      }
      selectors := selectors + [selector.value];
    }
    r := Ok(selectors);
  }

  lemma {:induction false} SelectorsKeepFailure(read: string -> Result<FrameSelector, SyntaxError>,
                                                selections: seq<string>, n: nat, m: nat)
    requires n <= m <= |selections| && SelectorsUpTo(read, selections, n).Err?
    ensures SelectorsUpTo(read, selections, m) == SelectorsUpTo(read, selections, n)
    decreases m
  {
    if m > n {
      SelectorsKeepFailure(read, selections, n, m - 1);
    }
  }

  lemma {:induction false} SelectorsUpToFirstFailure(read: string -> Result<FrameSelector, SyntaxError>,
                                                     selections: seq<string>, n: nat)
    requires n <= |selections|
    ensures var r := SelectorsUpTo(read, selections, n);
            && (r.Ok? <==> forall i :: 0 <= i < n ==> read(selections[i]).Ok?)
            && (r.Ok? ==> forall i :: 0 <= i < n ==> r.value[i] == read(selections[i]).value)
            && (r.Err? ==> && r.error.IndexedSelectionSyntaxError?
                           && r.error.index < n
                           && r.error.selection == selections[r.error.index]
                           && read(selections[r.error.index]).Err?
                           && forall i :: 0 <= i < r.error.index ==> read(selections[i]).Ok?)
  {
    if n > 0 {
      SelectorsUpToFirstFailure(read, selections, n - 1);
    }
  }

  /**
   * `get_frame_selectors` gives one selector per selection in input order, or fails naming
   * the first invalid selection and its index, every earlier one being valid.
   */
  lemma FrameSelectorsFirstFailure(syntax: Syntax, selections: seq<string>)
    ensures var r := FrameSelectors(syntax, selections);
            && (r.Ok? <==> forall i :: 0 <= i < |selections| ==> GetFrameSelector(syntax, selections[i]).Ok?)
            && (r.Ok? ==> forall i :: 0 <= i < |selections| ==>
                            r.value[i] == GetFrameSelector(syntax, selections[i]).value)
            && (r.Err? ==> && r.error.IndexedSelectionSyntaxError?
                           && r.error.index < |selections|
                           && r.error.selection == selections[r.error.index]
                           && GetFrameSelector(syntax, selections[r.error.index]).Err?
                           && forall i :: 0 <= i < r.error.index ==> GetFrameSelector(syntax, selections[i]).Ok?)
  {
    SelectorsUpToFirstFailure(Reader(syntax), selections, |selections|);
  }

  // ---------------------------------------------------------------- is_star_selection

  /** `is_star_selection`: a one-element selection whose element is the star. */
  function IsStarSelection<T(==)>(selection: seq<T>, star: T): (r: bool)
    ensures r <==> selection == [star]
  {
    |selection| == 1 && selection[0] == star
  }

  // ---------------------------------------------------------------- get_items

  /** The single items `SINGLE_ITEM_PATTERN` accepts. */
  predicate SingleItem(syntax: Syntax, s: string) {
    DigitRun(s, None) || s == "*" || (syntax == Current && s == "data_syn")
  }

  /** `get_items`: the list's items in order, or the one single item. */
  function GetItems(syntax: Syntax, selection: string): (r: Result<seq<string>, SyntaxError>)
    ensures r.Ok? ==> |r.value| > 0
    ensures r.Ok? && IsDigitList(EndAnchored(selection), None) ==>
              "[" + Join(r.value, ',') + "]" == EndAnchored(selection)
              && forall k :: 0 <= k < |r.value| ==> DigitRun(r.value[k], None)
    ensures r.Ok? && !IsDigitList(EndAnchored(selection), None) ==>
              r.value == [EndAnchored(selection)] && SingleItem(syntax, EndAnchored(selection))
    ensures r.Err? <==> !IsDigitList(EndAnchored(selection), None) && !SingleItem(syntax, EndAnchored(selection))
  {
    var text := EndAnchored(selection);
    if IsDigitList(text, None) then
      JoinSplit(Inner(text), ',');
      assert text == "[" + Inner(text) + "]";
      Ok(Split(Inner(text), ','))
    else if SingleItem(syntax, text) then Ok([text])
    else Err(DescriptorSyntaxError(selection))
  }

  /** A bracketed list of digit runs is read back as exactly those runs. */
  lemma GetItemsOfList(syntax: Syntax, items: seq<string>)
    requires |items| > 0 && forall k :: 0 <= k < |items| ==> DigitRun(items[k], None)
    ensures GetItems(syntax, "[" + Join(items, ',') + "]") == Ok(items)
  {
    forall k | 0 <= k < |items| ensures ',' !in items[k] {
      var item := items[k];
      assert forall i :: 0 <= i < |item| ==> item[i] != ',';
    }
    SplitJoin(items, ',');
    var text := "[" + Join(items, ',') + "]";
    assert Inner(text) == Join(items, ',');
    assert text[|text| - 1] == ']';
  }

  /** Every part `get_frame_selector` accepts can be expanded into items. */
  lemma PartsHaveItems(syntax: Syntax, part: string)
    requires FirstPart(syntax, part) || SecondPart(syntax, part)
    ensures GetItems(syntax, part).Ok?
  {
    PartHasNoSeparator(syntax, part, '\n');
    if part != "" {
      assert part[|part| - 1] in part;
    }
    assert EndAnchored(part) == part;
  }

  /** The malformed parts of the tests: no items, a starred list, a trailing comma. */
  lemma GetItemsRejects(syntax: Syntax)
    ensures GetItems(syntax, "[]").Err?
    ensures GetItems(syntax, "[*]").Err?
    ensures GetItems(syntax, "42,").Err?
  {
    EmptyListRejected(syntax);
    StarListRejected(syntax);
    TrailingCommaRejected(syntax);
  }

  lemma EmptyListRejected(syntax: Syntax)
    ensures GetItems(syntax, "[]").Err?
  {
    var text := "[]";
    assert EndAnchored(text) == text;
    assert Split(Inner(text), ',') == [""] by {
      assert Inner(text) == "";
    }
    assert !DigitRun("", None);
    assert !IsDigitList(text, None);
    assert !IsDigitChar(text[0]);
    assert !SingleItem(syntax, text);
  }

  lemma StarListRejected(syntax: Syntax)
    ensures GetItems(syntax, "[*]").Err?
  {
    var text := "[*]";
    assert EndAnchored(text) == text;
    assert Split(Inner(text), ',') == ["*"] by {
      assert Inner(text) == "*";
    }
    assert !DigitRun("*", None) by {
      assert !IsDigitChar("*"[0]);
    }
    assert !IsDigitList(text, None);
    assert !IsDigitChar(text[0]);
    assert !SingleItem(syntax, text);
  }

  lemma TrailingCommaRejected(syntax: Syntax)
    ensures GetItems(syntax, "42,").Err?
  {
    var text := "42,";
    assert EndAnchored(text) == text;
    assert !IsBracketed(text);
    assert !IsDigitChar(text[2]);
    assert !SingleItem(syntax, text);
  }

  // ---------------------------------------------------------------- format_selection_item

  /** The canonical width for a kind name, if the name is one of the two kinds. */
  function KindWidth(kindOfItem: string): Option<nat> {
    if kindOfItem == "frame_sequence" then Some(4)
    else if kindOfItem == "frame" then Some(6)
    else None
  }

  /**
   * `format_selection_item`: unknown kinds are refused; `*` (and, in the current syntax,
   * `data_syn`) pass through; anything else is read with `int()` and zero-padded.
   */
  function FormatSelectionItem(syntax: Syntax, item: string, kindOfItem: string): (r: Result<string, SyntaxError>)
    ensures KindWidth(kindOfItem).None? ==> r == Err(UnknownKind(kindOfItem))
    ensures KindWidth(kindOfItem).Some? && (item == "*" || (syntax == Current && item == "data_syn")) ==>
              r == Ok(item)
    ensures KindWidth(kindOfItem).Some? && IsDigits(item) ==>
              r.Ok? && IsDigits(r.value) && |r.value| >= KindWidth(kindOfItem).value
              && DecimalValue(r.value) == DecimalValue(item)
              && |r.value| == (var digits := |Decimal(DecimalValue(item))|;
                               if digits < KindWidth(kindOfItem).value then KindWidth(kindOfItem).value else digits)
  {
    match KindWidth(kindOfItem)
    case None => Err(UnknownKind(kindOfItem))
    case Some(width) =>
      if item == "*" || (syntax == Current && item == "data_syn") then Ok(item)
      else
        match PyInt(item)
        case None => Err(NotAnInteger(item))
        case Some(n) =>
          assert IsDigits(item) ==> n == DecimalValue(item) by {
            if IsDigits(item) {
              PyIntOfDigits(item);
            }
          }
          Ok(FormatPadded(n, width))
  }

  /** The number of digits `str(int(s))` needs is at most the number written. */
  lemma {:induction false} DecimalLength(s: string)
    requires IsDigits(s)
    ensures |Decimal(DecimalValue(s))| <= |s|
  {
    var n := DecimalValue(s);
    if n >= 10 {
      var init := s[..|s| - 1];
      assert |init| > 0;
      assert n / 10 == DecimalValue(init);
      DecimalLength(init);
    }
  }

  /** Padding the value of a digit run within the width is padding the run itself. */
  lemma PaddedValue(item: string, width: nat)
    requires IsDigits(item) && |item| <= width
    ensures FormatPadded(DecimalValue(item), width) == ZeroPad(item, width)
  {
    DecimalLength(item);
    ZeroPadValue(item, width);
    var formatted := FormatPadded(DecimalValue(item), width);
    assert |formatted| == width;
    SameValueSameDigits(formatted, ZeroPad(item, width));
  }

  /**
   * For a digit item within the canonical width, formatting agrees with the identifier
   * normalizer of the current selection expressions.
   */
  lemma FormatAgreesWithNormalize(item: string, kind: Kind)
    requires IsDigits(item) && |item| <= Width(kind)
    ensures var name := if kind == Sequence then "frame_sequence" else "frame";
            FormatSelectionItem(Current, item, name) == Ok(NormalizeElement(item, kind).value)
  {
    var name := if kind == Sequence then "frame_sequence" else "frame";
    assert KindWidth(name) == Some(Width(kind));
    assert item != "*" && item != "data_syn" by {
      assert IsDigitChar(item[0]);
    }
    assert FormatSelectionItem(Current, item, name) == Ok(FormatPadded(DecimalValue(item), Width(kind))) by {
      PyIntOfDigits(item);
    }
    assert NormalizeElement(item, kind) == Ok(ZeroPad(item, Width(kind)));
    PaddedValue(item, Width(kind));
  }

  /** An item written with more digits than the width loses its surplus leading zeros. */
  lemma LongItemExample()
    ensures FormatSelectionItem(Current, "0000042", "frame_sequence") == Ok("0042")
  {
    FortyTwo(5, "0000042");
    FortyTwo(2, "0042");
    assert Decimal(42) == "42";
    var r := FormatSelectionItem(Current, "0000042", "frame_sequence");
    SameValueSameDigits(r.value, "0042");
  }

  /** `"42"` behind `k` zeros is a digit run worth 42. */
  lemma FortyTwo(k: nat, s: string)
    requires s == Zeros(k) + "42"
    ensures IsDigits(s) && DecimalValue(s) == 42
  {
    assert AllDigits("42") && DecimalValue("42") == 42 by {
      assert "42"[..1] == "4";
    }
    LeadingZerosValue(k, "42");
  }

  /** The legacy syntax has no `data_syn`: formatting it fails in `int()`. */
  lemma LegacyFormatRejectsDataSyn(kindOfItem: string)
    requires KindWidth(kindOfItem).Some?
    ensures FormatSelectionItem(Legacy, "data_syn", kindOfItem) == Err(NotAnInteger("data_syn"))
    ensures FormatSelectionItem(Current, "data_syn", kindOfItem) == Ok("data_syn")
  {
    DataSynNotAnInteger();
  }

  lemma DataSynNotAnInteger()
    ensures PyInt("data_syn") == None
  {
    assert !IsSpace("data_syn"[0]) && "data_syn"[0] != '+' && "data_syn"[0] != '-';
  }
}
