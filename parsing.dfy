/**
 * The selection expression parser (`Parser`, `parse_selection_expressions`): a text
 * `<sequence part>/<frame part>` becomes a `Selector`, each part being tried against a fixed
 * list of expression handlers, first match wins.
 */
module Parsing {
  import opened PyText
  import opened Identifiers
  import opened Selectors

  // ---------------------------------------------------------------- the three patterns

  /** `[0-9]{1,6}`: the element literal of the list and range patterns. */
  predicate IsElementLiteral(s: string) {
    IsDigits(s) && |s| <= 6
  }

  /** An optional element group: absent (empty) or an element literal. */
  predicate IsOptionalElement(s: string) {
    s == "" || IsElementLiteral(s)
  }

  /** The optional step group `-?[0-9]{1,6}`. */
  predicate IsOptionalStep(s: string) {
    s == "" || IsElementLiteral(s) || (|s| > 1 && s[0] == '-' && IsElementLiteral(s[1..]))
  }

  /** The text between the brackets of a `[...]` part (after the `$` anchor's final newline). */
  function ListBody(expression: string): string {
    var t := EndAnchored(expression);
    if |t| >= 2 then t[1..|t| - 1] else ""
  }

  /** `^\[E(,E)*\]$`. */
  predicate IsListExpression(expression: string) {
    var t := EndAnchored(expression);
    && |t| >= 2 && t[0] == '[' && t[|t| - 1] == ']'
    && forall item :: item in Split(ListBody(expression), ',') ==> IsElementLiteral(item)
  }

  /** The groups of `^(E)?:(E)?(:(-?E)?)?$`, split at the colons. */
  function RangeGroups(expression: string): seq<string> {
    Split(EndAnchored(expression), ':')
  }

  /** Two or three colon-separated groups: optional start, optional stop, optional step. */
  predicate RangeShaped(g: seq<string>) {
    && (|g| == 2 || |g| == 3)
    && IsOptionalElement(g[0]) && IsOptionalElement(g[1])
    && (|g| == 3 ==> IsOptionalStep(g[2]))
  }

  predicate IsRangeExpression(expression: string) {
    RangeShaped(RangeGroups(expression))
  }

  function OptionalGroup(s: string): Option<string> {
    if s == "" then None else Some(s)
  }

  /** `int(match.group('step') or 1)`. */
  function StepValue(s: string): (step: int)
    requires IsOptionalStep(s)
    ensures s == "" ==> step == 1
    ensures s != "" ==> PyInt(s) == Some(step)
  {
    if s == "" then 1
    else if s[0] == '-' then
      PyIntOfNegative(s);
      -(DecimalValue(s[1..]) as int)
    else
      PyIntOfDigits(s);
      DecimalValue(s)
  }

  lemma PyIntOfNegative(s: string)
    requires |s| > 1 && s[0] == '-' && IsDigits(s[1..])
    ensures PyInt(s) == Some(-(DecimalValue(s[1..]) as int))
  {
    assert s[|s| - 1] == s[1..][|s| - 2];
    assert StripLeft(s) == s;
    assert StripRight(s) == s;
    WithoutUnderscoresOfDigits(s[1..]);
  }

  // ---------------------------------------------------------------- the handlers

  datatype Handler = SingleHandler | ListHandler | StarHandler | DataHandler | DataSynHandler | RangeHandler

  /** The order `_parse_sequence_expression` tries the handlers in. */
  const SequenceHandlers: seq<Handler> := [SingleHandler, ListHandler, StarHandler, DataHandler, DataSynHandler, RangeHandler]

  /** The order `_parse_frame_expression` tries the handlers in. */
  const FrameHandlers: seq<Handler> := [SingleHandler, ListHandler, StarHandler, RangeHandler]

  function HandlersFor(kind: Kind): seq<Handler> {
    match kind
    case Sequence => SequenceHandlers
    case Frame => FrameHandlers
  }

  /** Why a part did not yield a selector. */
  datatype HandlerFailure =
    | NoHandlerMatched(kind: Kind, part: string)
    | NormalizeFailed(normalizeError: NormalizeError)
    | RangeFailed(rangeError: RangeError)
    | KindMustBeSequence(kind: Kind)

  /** A handler returns `None`, a selector, or raises. */
  datatype HandlerOutcome = NoMatch | Matched(selector: ElementSelector) | Raised(failure: HandlerFailure)

  /** An item `normalize_element` accepts for the kind. */
  predicate Normalizable(item: string, kind: Kind) {
    IsDigits(item) && |item| <= Width(kind)
  }

  /** `[normalize_element(e, kind) for e in items]`: the first failure propagates. */
  function NormalizeAll(items: seq<string>, kind: Kind): (r: Result<seq<string>, NormalizeError>)
    ensures r.Ok? <==> forall i :: 0 <= i < |items| ==> Normalizable(items[i], kind)
    ensures r.Ok? ==> |r.value| == |items|
                      && forall i :: 0 <= i < |items| ==> r.value[i] == ZeroPad(items[i], Width(kind))
  {
    if |items| == 0 then Ok([])
    else
      match NormalizeElement(items[0], kind)
      case Err(e) => Err(e)
      case Ok(first) =>
        NormalizableTail(items, kind);
        match NormalizeAll(items[1..], kind)
        case Err(e) => Err(e)
        case Ok(rest) =>
          PaddedCons(items, Width(kind), first, rest);
          Ok([first] + rest)
  }

  /** After a normalizable head, the whole list is normalizable exactly when its tail is. */
  lemma NormalizableTail(items: seq<string>, kind: Kind)
    requires |items| > 0 && Normalizable(items[0], kind)
    ensures (forall i :: 0 <= i < |items| ==> Normalizable(items[i], kind))
            <==> (forall i :: 0 <= i < |items[1..]| ==> Normalizable(items[1..][i], kind))
  {
    if forall i :: 0 <= i < |items[1..]| ==> Normalizable(items[1..][i], kind) {
      forall i | 0 < i < |items| ensures Normalizable(items[i], kind) {
        assert items[i] == items[1..][i - 1];
      }
    }
  }

  /** Padding the head and the padded tail pads the whole list. */
  lemma PaddedCons(items: seq<string>, width: nat, first: string, rest: seq<string>)
    requires |items| > 0 && first == ZeroPad(items[0], width)
    requires |rest| == |items| - 1 && forall i :: 0 <= i < |rest| ==> rest[i] == ZeroPad(items[1..][i], width)
    ensures forall i :: 0 <= i < |items| ==> ([first] + rest)[i] == ZeroPad(items[i], width)
  {
    forall i | 0 < i < |items| ensures ([first] + rest)[i] == ZeroPad(items[i], width) {
      assert items[i] == items[1..][i - 1];
    }
  }

  /** `_single_element_expression`: an all-digit part no longer than the kind's width. */
  function SingleOutcome(expression: string, kind: Kind): HandlerOutcome {
    if IsDigits(expression) && |expression| <= Width(kind) then
      Matched(SingleElementSelector(kind, expression, NormalizeElement(expression, kind).value))
    else NoMatch
  }

  /** `_list_expression`: the bracketed items, each normalized. */
  function ListOutcome(expression: string, kind: Kind): HandlerOutcome {
    if IsListExpression(expression) then
      match NormalizeAll(Split(ListBody(expression), ','), kind)
      case Err(e) => Raised(NormalizeFailed(e))
      case Ok(elements) => Matched(ListSelector(kind, expression, elements))
    else NoMatch
  }

  /** `_data_expression` and `_data_syn_expression`: both refuse the frame axis before looking. */
  function KeywordOutcome(expression: string, kind: Kind, keyword: string, selector: ElementSelector): HandlerOutcome {
    if kind != Sequence then Raised(KindMustBeSequence(kind))
    else if expression == keyword then Matched(selector) else NoMatch
  }

  /** `_range_expression`: normalize start, then stop, then build the range. */
  function RangeOutcome(expression: string, kind: Kind): HandlerOutcome {
    if !IsRangeExpression(expression) then NoMatch
    else RangeOfGroups(RangeGroups(expression), expression, kind)
  }

  /** The range handler once the pattern has matched: it never answers `None`. */
  function RangeOfGroups(g: seq<string>, expression: string, kind: Kind): (r: HandlerOutcome)
    requires RangeShaped(g)
    ensures !r.NoMatch?
  {
    match NormalizeOptionalElement(OptionalGroup(g[0]), kind)
    case Err(e) => Raised(NormalizeFailed(e))
    case Ok(start) =>
      match NormalizeOptionalElement(OptionalGroup(g[1]), kind)
      case Err(e) => Raised(NormalizeFailed(e))
      case Ok(stop) =>
        match NewRangeSelector(kind, expression, start, stop, StepValue(if |g| == 3 then g[2] else ""))
        case Err(e) => Raised(RangeFailed(e))
        case Ok(selector) => Matched(selector)
  }

  /** One `Parser._..._expression(expression, kind)` call. */
  function ApplyHandler(handler: Handler, expression: string, kind: Kind): (r: HandlerOutcome)
    ensures r.Raised? ==> !r.failure.NoHandlerMatched?
  {
    match handler
    case SingleHandler => SingleOutcome(expression, kind)
    case ListHandler => ListOutcome(expression, kind)
    case StarHandler => if expression == "*" then Matched(StarSelector(kind)) else NoMatch
    case DataHandler => KeywordOutcome(expression, kind, "data", DataSelector)
    case DataSynHandler => KeywordOutcome(expression, kind, "data_syn", DataSynSelector)
    case RangeHandler => RangeOutcome(expression, kind)
  }

  /** What each handler returns for the part, in the order they are tried. */
  function Outcomes(handlers: seq<Handler>, expression: string, kind: Kind): (outcomes: seq<HandlerOutcome>)
    ensures |outcomes| == |handlers|
  {
    if |handlers| == 0 then [] else [ApplyHandler(handlers[0], expression, kind)] + Outcomes(handlers[1..], expression, kind)
  }

  lemma {:induction false} OutcomesAt(handlers: seq<Handler>, expression: string, kind: Kind, i: nat)
    requires i < |handlers|
    ensures Outcomes(handlers, expression, kind)[i] == ApplyHandler(handlers[i], expression, kind)
  {
    if i > 0 {
      OutcomesAt(handlers[1..], expression, kind, i - 1);
    }
  }

  /** The first outcome other than `None` decides; if there is none, the part is invalid. */
  function FirstResponse(outcomes: seq<HandlerOutcome>, expression: string, kind: Kind)
    : Result<ElementSelector, HandlerFailure>
  {
    if |outcomes| == 0 then Err(NoHandlerMatched(kind, expression))
    else
      match outcomes[0]
      case NoMatch => FirstResponse(outcomes[1..], expression, kind)
      case Matched(selector) => Ok(selector)
      case Raised(failure) => Err(failure)
  }

  /** The handler loop of `_parse_sequence_expression` / `_parse_frame_expression`, as a specification. */
  function FirstMatch(handlers: seq<Handler>, expression: string, kind: Kind): Result<ElementSelector, HandlerFailure> {
    FirstResponse(Outcomes(handlers, expression, kind), expression, kind)
  }

  /** `_parse_sequence_expression` / `_parse_frame_expression`: the handler loop. */
  method ParseElementExpression(expression: string, kind: Kind) returns (r: Result<ElementSelector, HandlerFailure>)
    ensures r == FirstMatch(HandlersFor(kind), expression, kind)
  {
    var handlers := HandlersFor(kind);
    ghost var outcomes := Outcomes(handlers, expression, kind);
    var i := 0;
    while i < |handlers|
      invariant 0 <= i <= |handlers|
      invariant FirstResponse(outcomes[i..], expression, kind) == FirstResponse(outcomes, expression, kind)
    {
      var outcome := ApplyHandler(handlers[i], expression, kind);
      OutcomesAt(handlers, expression, kind, i);
      if outcome.Matched? {
        return Ok(outcome.selector);
      }
      if outcome.Raised? {
        return Err(outcome.failure);
      }
      assert outcomes[i..][1..] == outcomes[i + 1..];
      i := i + 1;
    }
    return Err(NoHandlerMatched(kind, expression));
  }

  // ---------------------------------------------------------------- whole expressions

  datatype SplitFailure = NoSlash | TooManySlashes | NoSequenceExpression | NoFrameExpression

  /** Why `Parser.parse` raised. */
  datatype ParseFailure =
    | Malformed(split: SplitFailure)
    | SequencePartInvalid(cause: HandlerFailure)
    | FramePartInvalid(cause: HandlerFailure)

  /** `SelectionExpressionError`: always about the whole expression. */
  datatype SelectionExpressionError = SelectionExpressionError(expression: string, failure: ParseFailure)

  /**
   * `_get_sequence_and_frame_expression`: exactly one '/', with text on both sides; the two
   * parts joined by '/' give back the expression.
   */
  function SplitExpression(expression: string): (r: Result<(string, string), SplitFailure>)
    ensures r == Err(NoSlash) <==> '/' !in expression
    ensures r == Err(TooManySlashes) <==> Count(expression, '/') > 1
    ensures r.Ok? ==> && expression == r.value.0 + "/" + r.value.1
                      && r.value.0 != "" && r.value.1 != ""
                      && '/' !in r.value.0 && '/' !in r.value.1
  {
    var n := Count(expression, '/');
    if n == 0 then Err(NoSlash)
    else if n > 1 then Err(TooManySlashes)
    else
      var parts := Split(expression, '/');
      SplitCount(expression, '/');
      JoinSplit(expression, '/');
      assert Join(parts, '/') == parts[0] + "/" + parts[1];
      if parts[0] == "" then Err(NoSequenceExpression)
      else if parts[1] == "" then Err(NoFrameExpression)
      else Ok((parts[0], parts[1]))
  }

  /** Joining two non-empty, slash-free parts with '/' and splitting again gives the parts back. */
  lemma SplitJoinRoundTrip(sequencePart: string, framePart: string)
    requires sequencePart != "" && framePart != "" && '/' !in sequencePart && '/' !in framePart
    ensures SplitExpression(sequencePart + "/" + framePart) == Ok((sequencePart, framePart))
  {
    var e := sequencePart + "/" + framePart;
    CountConcat(sequencePart + "/", framePart, '/');
    CountConcat(sequencePart, "/", '/');
    SplitAfterFirst(sequencePart, '/', framePart);
    assert e == sequencePart + ['/'] + framePart;
  }

  /** `Parser.parse(expression)`, as a specification. */
  function Parse(expression: string): (r: Result<Selector, SelectionExpressionError>)
    ensures r.Err? ==> r.error.expression == expression
    ensures r.Ok? ==> r.value.expression == expression && Count(expression, '/') == 1
  {
    match SplitExpression(expression)
    case Err(f) => Err(SelectionExpressionError(expression, Malformed(f)))
    case Ok((sequencePart, framePart)) =>
      match FirstMatch(SequenceHandlers, sequencePart, Sequence)
      case Err(c) => Err(SelectionExpressionError(expression, SequencePartInvalid(c)))
      case Ok(sequenceSelector) =>
        match FirstMatch(FrameHandlers, framePart, Frame)
        case Err(c) => Err(SelectionExpressionError(expression, FramePartInvalid(c)))
        case Ok(frameSelector) => Ok(Selector(expression, sequenceSelector, frameSelector))
  }

  /** `Parser.parse`: split, then run the two handler loops, wrapping every failure. */
  method ParseExpression(expression: string) returns (r: Result<Selector, SelectionExpressionError>)
    ensures r == Parse(expression)
  {
    var split := SplitExpression(expression);
    if split.Err? {
      return Err(SelectionExpressionError(expression, Malformed(split.error)));
    }
    var sequenceSelector := ParseElementExpression(split.value.0, Sequence);
    if sequenceSelector.Err? {
      return Err(SelectionExpressionError(expression, SequencePartInvalid(sequenceSelector.error)));
    }
    var frameSelector := ParseElementExpression(split.value.1, Frame);
    if frameSelector.Err? {
      return Err(SelectionExpressionError(expression, FramePartInvalid(frameSelector.error)));
    }
    return Ok(Selector(expression, sequenceSelector.value, frameSelector.value));
  }

  /** The `ValueError` of `parse_selection_expressions`: the expression, an index and the whole list. */
  datatype InvalidExpressions = InvalidExpressions(
    expression: string, index: nat, expressions: seq<string>, cause: SelectionExpressionError)

  /** `f` applied to each element, in order. */
  function MapEach<T, U>(f: T -> U, xs: seq<T>): (ys: seq<U>)
    ensures |ys| == |xs|
  {
    if |xs| == 0 then [] else [f(xs[0])] + MapEach(f, xs[1..])
  }

  lemma {:induction false} MapEachAt<T, U>(f: T -> U, xs: seq<T>, i: nat)
    requires i < |xs|
    ensures MapEach(f, xs)[i] == f(xs[i])
  {
    if i > 0 {
      MapEachAt(f, xs[1..], i - 1);
    }
  }

  /** Mapping two lists in turn is mapping their concatenation. */
  lemma {:induction false} MapEachAppend<T, U>(f: T -> U, xs: seq<T>, ys: seq<T>)
    ensures MapEach(f, xs + ys) == MapEach(f, xs) + MapEach(f, ys)
  {
    if xs != [] {
      MapEachAppend(f, xs[1..], ys);
      assert (xs + ys)[1..] == xs[1..] + ys;
    } else {
      assert xs + ys == ys;
    }
  }

  /** `Parser.parse` of each expression, in order. */
  function ParseEach(expressions: seq<string>): (parsed: seq<Result<Selector, SelectionExpressionError>>)
    ensures |parsed| == |expressions|
  {
    MapEach(Parse, expressions)
  }

  /** Collecting the first `n` parse results: the selectors, or the first failure and its position. */
  function Collect(expressions: seq<string>, parsed: seq<Result<Selector, SelectionExpressionError>>, n: nat)
    : (r: Result<seq<Selector>, InvalidExpressions>)
    requires |parsed| == |expressions| && n <= |parsed|
    ensures r.Ok? ==> |r.value| == n
  {
    if n == 0 then Ok([])
    else
      match Collect(expressions, parsed, n - 1)
      case Err(e) => Err(e)
      case Ok(selectors) =>
        match parsed[n - 1]
        case Err(cause) => Err(InvalidExpressions(expressions[n - 1], n - 1, expressions, cause))
        case Ok(selector) => Ok(selectors + [selector])
  }

  /** `parse_selection_expressions`, reporting the position of the failing expression. */
  function ParseAll(expressions: seq<string>): Result<seq<Selector>, InvalidExpressions> {
    Collect(expressions, ParseEach(expressions), |expressions|)
  }

  /** `parse_selection_expressions`: all or nothing, in input order. */
  method ParseSelectionExpressions(expressions: seq<string>) returns (r: Result<seq<Selector>, InvalidExpressions>)
    ensures r == ParseAll(expressions)
  {
    r := CollectParses(expressions, Parse);
  }

  /** The loop of `parse_selection_expressions`, stopping at the first expression `parse` rejects. */
  method CollectParses(expressions: seq<string>, parse: string -> Result<Selector, SelectionExpressionError>)
    returns (r: Result<seq<Selector>, InvalidExpressions>)
    ensures r == Collect(expressions, MapEach(parse, expressions), |expressions|)
  {
    ghost var parsed := MapEach(parse, expressions);
    var selectors: seq<Selector> := [];
    for index := 0 to |expressions|
      invariant Collect(expressions, parsed, index) == Ok(selectors)
    {
      var selector := parse(expressions[index]);
      MapEachAt(parse, expressions, index);
      if selector.Err? {
        CollectKeepsFailure(expressions, parsed, index + 1, |expressions|);
        return Err(InvalidExpressions(expressions[index], index, expressions, selector.error));
      }
      selectors := selectors + [selector.value];
    }
    return Ok(selectors);
  }

  /**
   * The message as written always says "at index 0": the same outcome with the reported
   * position replaced by 0.
   */
  function ParseAllAsWritten(expressions: seq<string>): (r: Result<seq<Selector>, InvalidExpressions>)
    ensures r.Err? ==> r.error.index == 0
    ensures r.Ok? <==> ParseAll(expressions).Ok?
  {
    match ParseAll(expressions)
    case Ok(selectors) => Ok(selectors)
    case Err(e) => Err(e.(index := 0))
  }

  // ---------------------------------------------------------------- properties

  /** Once collecting has failed, collecting further results keeps that failure. */
  lemma {:induction false} CollectKeepsFailure(expressions: seq<string>,
                                               parsed: seq<Result<Selector, SelectionExpressionError>>, n: nat, m: nat)
    requires |parsed| == |expressions| && n <= m <= |parsed|
    requires Collect(expressions, parsed, n).Err?
    ensures Collect(expressions, parsed, m) == Collect(expressions, parsed, n)
    decreases m
  {
    if m > n {
      CollectKeepsFailure(expressions, parsed, n, m - 1);
    }
  }

  /** Collecting is all or nothing: every result's selector, or the first failure, located. */
  lemma {:induction false} CollectFirstFailure(expressions: seq<string>,
                                               parsed: seq<Result<Selector, SelectionExpressionError>>, n: nat)
    requires |parsed| == |expressions| && n <= |parsed|
    ensures var r := Collect(expressions, parsed, n);
            && (r.Ok? <==> forall i :: 0 <= i < n ==> parsed[i].Ok?)
            && (r.Ok? ==> forall i :: 0 <= i < n ==> r.value[i] == parsed[i].value)
            && (r.Err? ==> && r.error.index < n
                           && r.error.expression == expressions[r.error.index]
                           && r.error.expressions == expressions
                           && parsed[r.error.index] == Err(r.error.cause)
                           && forall i :: 0 <= i < r.error.index ==> parsed[i].Ok?)
  {
    if n > 0 {
      CollectFirstFailure(expressions, parsed, n - 1);
    }
  }

  /** Collecting two successful batches in turn is collecting their concatenation. */
  lemma CollectAppend(xs: seq<string>, px: seq<Result<Selector, SelectionExpressionError>>,
                      ys: seq<string>, py: seq<Result<Selector, SelectionExpressionError>>)
    requires |px| == |xs| && |py| == |ys|
    requires Collect(xs, px, |xs|).Ok? && Collect(ys, py, |ys|).Ok?
    ensures Collect(xs + ys, px + py, |xs + ys|) == Ok(Collect(xs, px, |xs|).value + Collect(ys, py, |ys|).value)
  {
    CollectFirstFailure(xs, px, |xs|);
    CollectFirstFailure(ys, py, |ys|);
    CollectFirstFailure(xs + ys, px + py, |xs + ys|);
    assert forall i :: 0 <= i < |px + py| ==> (px + py)[i].Ok? by {
      forall i | 0 <= i < |px + py| ensures (px + py)[i].Ok? {
        if i >= |px| {
          assert (px + py)[i] == py[i - |px|];
        }
      }
    }
    var s, sx, sy := Collect(xs + ys, px + py, |xs + ys|).value, Collect(xs, px, |xs|).value, Collect(ys, py, |ys|).value;
    assert s == sx + sy by {
      forall i | 0 <= i < |s| ensures s[i] == (sx + sy)[i] {
        if i >= |px| {
          assert (px + py)[i] == py[i - |px|];
        }
      }
    }
  }

  /** Two valid batches make a valid batch, whose selectors are theirs in order. */
  lemma ParseAllAppend(xs: seq<string>, ys: seq<string>)
    requires ParseAll(xs).Ok? && ParseAll(ys).Ok?
    ensures ParseAll(xs + ys) == Ok(ParseAll(xs).value + ParseAll(ys).value)
  {
    MapEachAppend(Parse, xs, ys);
    CollectAppend(xs, ParseEach(xs), ys, ParseEach(ys));
  }

  /**
   * `parse_selection_expressions` is all or nothing: one selector per expression in input
   * order, or the first invalid expression with its position, every earlier one being valid.
   */
  lemma ParseAllFirstFailure(expressions: seq<string>)
    ensures var r := ParseAll(expressions);
            && (r.Ok? <==> forall i :: 0 <= i < |expressions| ==> Parse(expressions[i]).Ok?)
            && (r.Ok? ==> |r.value| == |expressions|
                          && forall i :: 0 <= i < |expressions| ==> r.value[i] == Parse(expressions[i]).value)
            && (r.Err? ==> && r.error.index < |expressions|
                           && r.error.expression == expressions[r.error.index]
                           && Parse(expressions[r.error.index]) == Err(r.error.cause)
                           && forall i :: 0 <= i < r.error.index ==> Parse(expressions[i]).Ok?)
  {
    CollectFirstFailure(expressions, ParseEach(expressions), |expressions|);
    forall i | 0 <= i < |expressions| ensures ParseEach(expressions)[i] == Parse(expressions[i]) {
      MapEachAt(Parse, expressions, i);
    }
  }

  /**
   * When the first expression is valid and the second is not, the error is about the
   * expression at index 1, but the message as written reports index 0.
   */
  lemma ReportedIndexAsWritten(expressions: seq<string>)
    requires |expressions| >= 2 && Parse(expressions[0]).Ok? && Parse(expressions[1]).Err?
    ensures ParseAll(expressions).Err? && ParseAll(expressions).error.index == 1
    ensures ParseAllAsWritten(expressions).Err? && ParseAllAsWritten(expressions).error.index == 0
    ensures ParseAllAsWritten(expressions).error.expression == expressions[1]
  {
    ParseAllFirstFailure(expressions);
  }

  /** The star-and-star expression followed by "bad" is such an input. */
  lemma ReportedIndexCounterexample()
    ensures ParseAll(["*/*", "bad"]).Err? && ParseAll(["*/*", "bad"]).error.index == 1
    ensures ParseAllAsWritten(["*/*", "bad"]).Err? && ParseAllAsWritten(["*/*", "bad"]).error.index == 0
  {
    var expressions := ["*/*", "bad"];
    SampleParses();
    SampleRejected();
    ReportedIndexAsWritten(expressions);
  }

  lemma SampleRejected()
    ensures Parse("bad").Err?
  {
    assert '/' !in "bad";
    ParseWithoutSlash("bad");
  }

  lemma SampleParses()
    ensures Parse("*/*").Ok?
  {
    SampleSplit();
    StarPartParses(Sequence);
    StarPartParses(Frame);
  }

  lemma SampleSplit()
    ensures SplitExpression("*/*") == Ok(("*", "*"))
  {
    assert "*/*" == "*" + "/" + "*";
    SplitJoinRoundTrip("*", "*");
  }

  lemma {:induction false} FirstResponseIsFirst(outcomes: seq<HandlerOutcome>, expression: string, kind: Kind)
    requires forall i :: 0 <= i < |outcomes| && outcomes[i].Raised? ==> !outcomes[i].failure.NoHandlerMatched?
    ensures var r := FirstResponse(outcomes, expression, kind);
            && (r == Err(NoHandlerMatched(kind, expression)) <==> forall i :: 0 <= i < |outcomes| ==> outcomes[i].NoMatch?)
            && (r.Ok? ==> exists i :: && 0 <= i < |outcomes| && outcomes[i] == Matched(r.value)
                                     && forall j :: 0 <= j < i ==> outcomes[j].NoMatch?)
            && (r.Err? && r != Err(NoHandlerMatched(kind, expression)) ==>
                  exists i :: && 0 <= i < |outcomes| && outcomes[i] == Raised(r.error)
                              && forall j :: 0 <= j < i ==> outcomes[j].NoMatch?)
  {
    if |outcomes| > 0 && outcomes[0].NoMatch? {
      var tail := outcomes[1..];
      FirstResponseIsFirst(tail, expression, kind);
      var r := FirstResponse(outcomes, expression, kind);
      if r.Ok? {
        var i :| 0 <= i < |tail| && tail[i] == Matched(r.value) && forall j :: 0 <= j < i ==> tail[j].NoMatch?;
        assert outcomes[i + 1] == Matched(r.value);
        assert forall j :: 0 <= j < i + 1 ==> outcomes[j].NoMatch? by {
          forall j | 0 <= j < i + 1 ensures outcomes[j].NoMatch? {
            if j > 0 {
              assert outcomes[j] == tail[j - 1];
            }
          }
        }
      } else if r != Err(NoHandlerMatched(kind, expression)) {
        var i :| 0 <= i < |tail| && tail[i] == Raised(r.error) && forall j :: 0 <= j < i ==> tail[j].NoMatch?;
        assert outcomes[i + 1] == Raised(r.error);
        assert forall j :: 0 <= j < i + 1 ==> outcomes[j].NoMatch? by {
          forall j | 0 <= j < i + 1 ensures outcomes[j].NoMatch? {
            if j > 0 {
              assert outcomes[j] == tail[j - 1];
            }
          }
        }
      }
      if forall i :: 0 <= i < |tail| ==> tail[i].NoMatch? {
        forall i | 0 <= i < |outcomes| ensures outcomes[i].NoMatch? {
          if i > 0 {
            assert outcomes[i] == tail[i - 1];
          }
        }
      }
    }
  }

  /**
   * The handlers are tried in order and the first that responds decides: a selector it returns
   * is the result, an exception it raises is the failure, and if every handler returns `None`
   * the part is invalid.
   */
  lemma FirstMatchIsFirst(handlers: seq<Handler>, expression: string, kind: Kind)
    ensures var r := FirstMatch(handlers, expression, kind);
            && (r == Err(NoHandlerMatched(kind, expression)) <==>
                  forall i :: 0 <= i < |handlers| ==> ApplyHandler(handlers[i], expression, kind).NoMatch?)
            && (r.Ok? ==> exists i :: && 0 <= i < |handlers|
                                     && ApplyHandler(handlers[i], expression, kind) == Matched(r.value)
                                     && forall j :: 0 <= j < i ==> ApplyHandler(handlers[j], expression, kind).NoMatch?)
            && (r.Err? && r != Err(NoHandlerMatched(kind, expression)) ==>
                  exists i :: && 0 <= i < |handlers|
                              && ApplyHandler(handlers[i], expression, kind) == Raised(r.error)
                              && forall j :: 0 <= j < i ==> ApplyHandler(handlers[j], expression, kind).NoMatch?)
  {
    var outcomes := Outcomes(handlers, expression, kind);
    forall i | 0 <= i < |handlers| ensures outcomes[i] == ApplyHandler(handlers[i], expression, kind) {
      OutcomesAt(handlers, expression, kind, i);
    }
    FirstResponseIsFirst(outcomes, expression, kind);
  }

  /**
   * At most one handler of a kind's list responds to a part, so the order the handlers are
   * tried in does not change the outcome.
   */
  lemma HandlersExclusive(kind: Kind, expression: string, h1: Handler, h2: Handler)
    requires h1 in HandlersFor(kind) && h2 in HandlersFor(kind) && h1 != h2
    ensures ApplyHandler(h1, expression, kind).NoMatch? || ApplyHandler(h2, expression, kind).NoMatch?
  {
    RespondsIff(h1, expression, kind);
    RespondsIff(h2, expression, kind);
    ShapesExclusive(expression);
    AcceptsExclusive(kind, expression, h1, h2, IsListExpression(expression), IsRangeExpression(expression));
  }

  /** A digit run, a bracketed list, a keyword and a range are four different shapes. */
  lemma ShapesExclusive(expression: string)
    ensures IsDigits(expression) ==> && !IsListExpression(expression) && !IsRangeExpression(expression)
                                     && expression !in ["*", "data", "data_syn"]
    ensures IsListExpression(expression) ==> !IsRangeExpression(expression) && expression !in ["*", "data", "data_syn"]
    ensures expression in ["*", "data", "data_syn"] ==> !IsRangeExpression(expression)
  {
    if IsDigits(expression) {
      DigitsOnlySingle(expression);
    }
    if IsListExpression(expression) {
      ListOnlyList(expression);
    }
    if expression in ["*", "data", "data_syn"] {
      NoColonNotRange(expression);
    }
  }

  /**
   * When a handler answers something other than `None`, given whether the part matches the
   * list pattern and the range pattern.
   */
  predicate Accepts(handler: Handler, expression: string, kind: Kind, isList: bool, isRange: bool) {
    match handler
    case SingleHandler => IsDigits(expression) && |expression| <= Width(kind)
    case ListHandler => isList
    case StarHandler => expression == "*"
    case DataHandler => kind != Sequence || expression == "data"
    case DataSynHandler => kind != Sequence || expression == "data_syn"
    case RangeHandler => isRange
  }

  lemma RespondsIff(handler: Handler, expression: string, kind: Kind)
    ensures !ApplyHandler(handler, expression, kind).NoMatch?
            <==> Accepts(handler, expression, kind, IsListExpression(expression), IsRangeExpression(expression))
  {
  }

  /** The shapes the handlers look for exclude each other. */
  lemma AcceptsExclusive(kind: Kind, expression: string, h1: Handler, h2: Handler, isList: bool, isRange: bool)
    requires h1 in HandlersFor(kind) && h2 in HandlersFor(kind) && h1 != h2
    requires IsDigits(expression) ==> !isList && !isRange && expression !in ["*", "data", "data_syn"]
    requires isList ==> !isRange && expression !in ["*", "data", "data_syn"]
    requires expression in ["*", "data", "data_syn"] ==> !isRange
    ensures !Accepts(h1, expression, kind, isList, isRange) || !Accepts(h2, expression, kind, isList, isRange)
  {
  }

  lemma NoColonNotRange(expression: string)
    requires ':' !in EndAnchored(expression)
    ensures !IsRangeExpression(expression)
  {
    SplitCount(EndAnchored(expression), ':');
  }

  lemma DigitsOnlySingle(expression: string)
    requires IsDigits(expression)
    ensures !IsListExpression(expression) && !IsRangeExpression(expression)
    ensures expression != "*" && expression != "data" && expression != "data_syn"
  {
    assert EndAnchored(expression) == expression;
    assert IsDigitChar(expression[0]);
    assert ':' !in expression;
    NoColonNotRange(expression);
  }

  lemma ListOnlyList(expression: string)
    requires IsListExpression(expression)
    ensures !IsRangeExpression(expression)
    ensures expression != "*" && expression != "data" && expression != "data_syn"
  {
    var t := EndAnchored(expression);
    assert t[0] == '[' && expression[0] == '[';
    ListHasNoColon(expression);
    NoColonNotRange(expression);
  }

  lemma ListHasNoColon(expression: string)
    requires IsListExpression(expression)
    ensures ':' !in EndAnchored(expression)
  {
    var t := EndAnchored(expression);
    var body := ListBody(expression);
    JoinSplit(body, ',');
    NoColonInJoin(Split(body, ','));
    assert t == [t[0]] + body + [t[|t| - 1]];
  }

  lemma {:induction false} NoColonInJoin(items: seq<string>)
    requires forall item :: item in items ==> IsElementLiteral(item)
    ensures ':' !in Join(items, ',')
  {
    if |items| > 1 {
      NoColonInJoin(items[1..]);
      assert IsElementLiteral(items[0]);
      assert ':' !in items[0];
    } else if |items| == 1 {
      assert IsElementLiteral(items[0]);
    }
  }

  /** A digit part that fits the kind's width is a single element, zero-padded to that width. */
  lemma SinglePartParses(part: string, kind: Kind)
    requires IsDigits(part) && |part| <= Width(kind)
    ensures var r := FirstMatch(HandlersFor(kind), part, kind);
            && r.Ok? && r.value.SingleElementSelector? && r.value.expression == part
            && r.value.element == ZeroPad(part, Width(kind))
            && |r.value.element| == Width(kind) && DecimalValue(r.value.element) == DecimalValue(part)
  {
  }

  /** A part starting with '-' is never accepted: ranges take no negative bounds. */
  lemma NegativeStartRejected(part: string, kind: Kind)
    requires |part| > 0 && part[0] == '-'
    ensures FirstMatch(HandlersFor(kind), part, kind).Err?
  {
    var t := EndAnchored(part);
    assert !IsDigitChar(part[0]);
    assert part != "data" && part != "data_syn" && part != "*";
    assert !IsRangeExpression(part);
    assert !IsListExpression(part);
    FirstMatchIsFirst(HandlersFor(kind), part, kind);
  }

  /**
   * A part of range shape is decided by the range handler alone: its selector, or the
   * normalizer's or the `RangeSelector` constructor's exception (step 0, bounds against the
   * step), which `parse` then reports for the whole expression.
   */
  lemma RangePartDecidedByRange(part: string, kind: Kind)
    requires IsRangeExpression(part)
    ensures var r := FirstMatch(HandlersFor(kind), part, kind);
            var o := RangeOutcome(part, kind);
            && (o.Matched? ==> r == Ok(o.selector))
            && (o.Raised? ==> r == Err(o.failure))
  {
    var handlers := HandlersFor(kind);
    OthersSilentOnRange(part, kind);
    FirstMatchOfLast(handlers, part, kind);
    assert handlers[|handlers| - 1] == RangeHandler;
    RangeHandlerApplies(part, kind);
  }

  lemma RangeHandlerApplies(part: string, kind: Kind)
    ensures ApplyHandler(RangeHandler, part, kind) == RangeOutcome(part, kind)
  {
  }

  /** The range handler comes last, and no other handler responds to a range. */
  lemma OthersSilentOnRange(part: string, kind: Kind)
    requires IsRangeExpression(part)
    ensures HandlersFor(kind)[|HandlersFor(kind)| - 1] == RangeHandler
    ensures forall j :: 0 <= j < |HandlersFor(kind)| - 1 ==> ApplyHandler(HandlersFor(kind)[j], part, kind).NoMatch?
  {
    var handlers := HandlersFor(kind);
    RangeHandlerLast(kind);
    forall j | 0 <= j < |handlers| - 1 ensures ApplyHandler(handlers[j], part, kind).NoMatch? {
      OtherSilentOnRange(handlers[j], part, kind);
    }
  }

  lemma RangeHandlerLast(kind: Kind)
    ensures HandlersFor(kind)[|HandlersFor(kind)| - 1] == RangeHandler
    ensures forall j :: 0 <= j < |HandlersFor(kind)| - 1 ==>
              HandlersFor(kind)[j] in HandlersFor(kind) && HandlersFor(kind)[j] != RangeHandler
  {
  }

  lemma OtherSilentOnRange(handler: Handler, part: string, kind: Kind)
    requires IsRangeExpression(part) && handler in HandlersFor(kind) && handler != RangeHandler
    ensures ApplyHandler(handler, part, kind).NoMatch?
  {
    assert kind == Frame ==> handler in [SingleHandler, ListHandler, StarHandler];
    RespondsIff(handler, part, kind);
    ShapesExclusive(part);
  }

  /** Handlers that return `None` can be skipped: the rest of the list decides. */
  lemma {:induction false} FirstMatchSkip(handlers: seq<Handler>, expression: string, kind: Kind, i: nat)
    requires i <= |handlers|
    requires forall j :: 0 <= j < i ==> ApplyHandler(handlers[j], expression, kind).NoMatch?
    ensures FirstMatch(handlers, expression, kind) == FirstMatch(handlers[i..], expression, kind)
  {
    if i > 0 {
      var tail := handlers[1..];
      forall j | 0 <= j < i - 1 ensures ApplyHandler(tail[j], expression, kind).NoMatch? {
        assert tail[j] == handlers[j + 1];
      }
      FirstMatchSkip(tail, expression, kind, i - 1);
      assert tail[i - 1..] == handlers[i..];
      assert Outcomes(handlers, expression, kind)[1..] == Outcomes(tail, expression, kind);
    }
  }

  /** When every handler but the last returns `None`, the last one decides. */
  lemma FirstMatchOfLast(handlers: seq<Handler>, expression: string, kind: Kind)
    requires |handlers| > 0
    requires forall j :: 0 <= j < |handlers| - 1 ==> ApplyHandler(handlers[j], expression, kind).NoMatch?
    ensures var o := ApplyHandler(handlers[|handlers| - 1], expression, kind);
            var r := FirstMatch(handlers, expression, kind);
            && (o.Matched? ==> r == Ok(o.selector))
            && (o.Raised? ==> r == Err(o.failure))
  {
    var k := |handlers| - 1;
    FirstMatchSkip(handlers, expression, kind, k);
    assert handlers[k..] == [handlers[k]];
  }


  /** `*` is the star selector on either axis. */
  lemma StarPartParses(kind: Kind)
    ensures FirstMatch(HandlersFor(kind), "*", kind) == Ok(StarSelector(kind))
  {
    var handlers := HandlersFor(kind);
    StarSkipped(kind);
    FirstMatchSkip(handlers, "*", kind, 2);
    assert handlers[2..][0] == StarHandler;
  }

  /** Neither the single-element nor the list handler responds to `*`. */
  lemma StarSkipped(kind: Kind)
    ensures forall j :: 0 <= j < 2 ==> ApplyHandler(HandlersFor(kind)[j], "*", kind).NoMatch?
  {
    assert HandlersFor(kind)[0] == SingleHandler && HandlersFor(kind)[1] == ListHandler;
    RespondsIff(SingleHandler, "*", kind);
    assert !IsDigitChar("*"[0]);
    RespondsIff(ListHandler, "*", kind);
    ShapesExclusive("*");
  }

  /** tests/test_parsing.py: `:` alone is a valid range, from the first to the last frame. */
  lemma WholeRangeExample()
    ensures FirstMatch(FrameHandlers, ":", Frame) == Ok(RangeSelector(Frame, ":", None, None, 1))
  {
    WholeRangeGroups();
    assert RangeOutcome(":", Frame) == Matched(RangeSelector(Frame, ":", None, None, 1)) by {
      assert RangeOfGroups(["", ""], ":", Frame) == Matched(RangeSelector(Frame, ":", None, None, 1));
    }
    RangePartDecidedByRange(":", Frame);
  }

  lemma WholeRangeGroups()
    ensures RangeGroups(":") == ["", ""] && IsRangeExpression(":")
  {
    assert ":" == "" + [':'] + "";
    SplitAfterFirst("", ':', "");
  }

  /** The axis an element selector belongs to; `data` and `data_syn` only exist for sequences. */
  function AxisOf(selector: ElementSelector): Kind {
    match selector
    case SingleElementSelector(kind, _, _) => kind
    case ListSelector(kind, _, _) => kind
    case StarSelector(kind) => kind
    case DataSelector => Sequence
    case DataSynSelector => Sequence
    case RangeSelector(kind, _, _, _, _) => kind
  }

  /** A canonical identifier of the kind: all digits, exactly the kind's width. */
  predicate Canonical(element: string, kind: Kind) {
    IsDigits(element) && |element| == Width(kind)
  }

  predicate CanonicalOption(element: Option<string>, kind: Kind) {
    element.Some? ==> Canonical(element.value, kind)
  }

  /**
   * What the parser guarantees of a selector: its axis, canonical identifiers, a non-zero step
   * and bounds ordered along the step.
   */
  predicate WellFormed(selector: ElementSelector, kind: Kind) {
    && AxisOf(selector) == kind
    && match selector
       case SingleElementSelector(_, _, element) => Canonical(element, kind)
       case ListSelector(_, _, elements) => forall e :: e in elements ==> Canonical(e, kind)
       case RangeSelector(_, _, start, stop, step) =>
         && CanonicalOption(start, kind) && CanonicalOption(stop, kind) && step != 0
         && (start.Some? && stop.Some? && step > 0 ==> DecimalValue(start.value) <= DecimalValue(stop.value))
         && (start.Some? && stop.Some? && step < 0 ==> DecimalValue(start.value) >= DecimalValue(stop.value))
       case _ => true
  }

  /** A range the constructor accepts has a non-zero step and, for digit bounds, bounds ordered along it. */
  lemma NewRangeOrdered(kind: Kind, expression: string, start: Option<string>, stop: Option<string>, step: int)
    requires NewRangeSelector(kind, expression, start, stop, step).Ok?
    requires start.Some? ==> IsDigits(start.value)
    requires stop.Some? ==> IsDigits(stop.value)
    ensures step != 0
    ensures start.Some? && stop.Some? && step > 0 ==> DecimalValue(start.value) <= DecimalValue(stop.value)
    ensures start.Some? && stop.Some? && step < 0 ==> DecimalValue(start.value) >= DecimalValue(stop.value)
  {
    if start.Some? && stop.Some? {
      PyIntOfDigits(start.value);
      PyIntOfDigits(stop.value);
    }
  }

  lemma RangeOfGroupsWellFormed(g: seq<string>, expression: string, kind: Kind)
    requires RangeShaped(g) && RangeOfGroups(g, expression, kind).Matched?
    ensures WellFormed(RangeOfGroups(g, expression, kind).selector, kind)
  {
    var start := NormalizeOptionalElement(OptionalGroup(g[0]), kind).value;
    var stop := NormalizeOptionalElement(OptionalGroup(g[1]), kind).value;
    var step := StepValue(if |g| == 3 then g[2] else "");
    NewRangeOrdered(kind, expression, start, stop, step);
  }

  lemma RangeWellFormed(expression: string, kind: Kind)
    requires RangeOutcome(expression, kind).Matched?
    ensures WellFormed(RangeOutcome(expression, kind).selector, kind)
  {
    RangeOfGroupsWellFormed(RangeGroups(expression), expression, kind);
  }

  lemma ListWellFormed(expression: string, kind: Kind)
    requires ListOutcome(expression, kind).Matched?
    ensures WellFormed(ListOutcome(expression, kind).selector, kind)
  {
    var items := Split(ListBody(expression), ',');
    assert ListOutcome(expression, kind).selector == ListSelector(kind, expression, NormalizeAll(items, kind).value);
    NormalizeAllCanonical(items, kind);
  }

  /** Normalizing a list gives canonical identifiers only. */
  lemma NormalizeAllCanonical(items: seq<string>, kind: Kind)
    requires NormalizeAll(items, kind).Ok?
    ensures forall e :: e in NormalizeAll(items, kind).value ==> Canonical(e, kind)
  {
    var elements := NormalizeAll(items, kind).value;
    forall e | e in elements ensures Canonical(e, kind) {
      var i :| 0 <= i < |elements| && elements[i] == e;
      assert e == ZeroPad(items[i], Width(kind));
      assert Normalizable(items[i], kind);
      ZeroPadValue(items[i], Width(kind));
    }
  }

  /** Whatever a handler returns is well formed for the axis it was asked about. */
  lemma HandlerWellFormed(handler: Handler, expression: string, kind: Kind)
    requires ApplyHandler(handler, expression, kind).Matched?
    ensures WellFormed(ApplyHandler(handler, expression, kind).selector, kind)
  {
    match handler
    case RangeHandler => RangeWellFormed(expression, kind);
    case ListHandler => ListWellFormed(expression, kind);
    case _ =>
  }

  lemma FirstMatchWellFormed(handlers: seq<Handler>, expression: string, kind: Kind)
    ensures FirstMatch(handlers, expression, kind).Ok? ==> WellFormed(FirstMatch(handlers, expression, kind).value, kind)
  {
    FirstMatchIsFirst(handlers, expression, kind);
    var r := FirstMatch(handlers, expression, kind);
    if r.Ok? {
      var i :| 0 <= i < |handlers| && ApplyHandler(handlers[i], expression, kind) == Matched(r.value);
      HandlerWellFormed(handlers[i], expression, kind);
    }
  }

  /**
   * Every parsed selector is well formed for its axis: frame selectors are never `data` or
   * `data_syn`, and every identifier in a selector is already in canonical form.
   */
  lemma ParseWellFormed(expression: string)
    ensures var r := Parse(expression);
            r.Ok? ==> WellFormed(r.value.sequenceSelector, Sequence) && WellFormed(r.value.frameSelector, Frame)
  {
    var split := SplitExpression(expression);
    if split.Ok? {
      FirstMatchWellFormed(SequenceHandlers, split.value.0, Sequence);
      FirstMatchWellFormed(FrameHandlers, split.value.1, Frame);
    }
  }

  /** The expression of tests/test_parsing.py's error test names itself in the error. */
  lemma InvalidExpressionExample()
    ensures Parse("invalid") == Err(SelectionExpressionError("invalid", Malformed(NoSlash)))
  {
    assert '/' !in "invalid";
    ParseWithoutSlash("invalid");
  }

  /** An expression without '/' is refused before any handler runs. */
  lemma ParseWithoutSlash(expression: string)
    requires '/' !in expression
    ensures Parse(expression) == Err(SelectionExpressionError(expression, Malformed(NoSlash)))
  {
  }
}
