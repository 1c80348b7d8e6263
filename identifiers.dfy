/**
 * The identifier normalizer (`utils.normalize_element`, `utils.normalize_optional_element`):
 * a digit string becomes a fixed-width, zero-padded sequence or frame identifier.
 */
module Identifiers {
  import opened PyText

  /** The two axes of a selection expression (`Literal['sequence', 'frame']`). */
  datatype Kind = Sequence | Frame

  /** Canonical number of digits: 4 for a sequence, 6 for a frame. */
  function Width(kind: Kind): nat {
    match kind
    case Sequence => 4
    case Frame => 6
  }

  /** Both failures raise `ValueError`. */
  datatype NormalizeError =
    | NotADigitString(element: string)
    | TooManyDigits(element: string, kind: Kind)

  /**
   * `normalize_element(element, kind)`: accepted exactly when `element` is all digits and no
   * longer than the canonical width; the result is `element` left-padded with zeros to that width.
   */
  function NormalizeElement(element: string, kind: Kind): (r: Result<string, NormalizeError>)
    ensures r.Ok? <==> IsDigits(element) && |element| <= Width(kind)
    ensures r.Ok? ==> IsDigits(r.value) && |r.value| == Width(kind)
    ensures r.Ok? ==> r.value[Width(kind) - |element|..] == element
    ensures r.Ok? ==> DecimalValue(r.value) == DecimalValue(element)
  {
    if !IsDigits(element) then Err(NotADigitString(element))
    else if |element| > Width(kind) then Err(TooManyDigits(element, kind))
    else
      ZeroPadValue(element, Width(kind));
      Ok(ZeroPad(element, Width(kind)))
  }

  /** `normalize_optional_element(element, kind)`: `None` passes through. */
  function NormalizeOptionalElement(element: Option<string>, kind: Kind): (r: Result<Option<string>, NormalizeError>)
    ensures element.None? ==> r == Ok(None)
    ensures element.Some? ==> r.Ok? == NormalizeElement(element.value, kind).Ok?
    ensures element.Some? && r.Ok? ==> r.value == Some(NormalizeElement(element.value, kind).value)
  {
    match element
    case None => Ok(None)
    case Some(e) =>
      match NormalizeElement(e, kind)
      case Ok(n) => Ok(Some(n))
      case Err(err) => Err(err)
  }

  /** Normalizing a normalized identifier changes nothing. */
  lemma NormalizeIdempotent(element: string, kind: Kind)
    requires NormalizeElement(element, kind).Ok?
    ensures NormalizeElement(NormalizeElement(element, kind).value, kind) == NormalizeElement(element, kind)
  {
  }

  /** Two digit strings of the same length and value are the same string. */
  lemma {:induction false} SameValueSameDigits(a: string, b: string)
    requires AllDigits(a) && AllDigits(b) && |a| == |b|
    requires DecimalValue(a) == DecimalValue(b)
    ensures a == b
  {
    if |a| > 0 {
      var n := |a| - 1;
      assert DigitValue(a[n]) == DecimalValue(a) % 10;
      assert DigitValue(b[n]) == DecimalValue(b) % 10;
      SameValueSameDigits(a[..n], b[..n]);
      assert a == a[..n] + [a[n]] && b == b[..n] + [b[n]];
    }
  }

  /**
   * The identifier depends only on the number written, not on how many leading zeros were
   * written: '42', '042' and '0042' all name sequence '0042'.
   */
  lemma NormalizeIgnoresLeadingZeros(a: string, b: string, kind: Kind)
    requires NormalizeElement(a, kind).Ok? && NormalizeElement(b, kind).Ok?
    requires DecimalValue(a) == DecimalValue(b)
    ensures NormalizeElement(a, kind) == NormalizeElement(b, kind)
  {
    SameValueSameDigits(NormalizeElement(a, kind).value, NormalizeElement(b, kind).value);
  }

  /** The cases of tests/test_utils.py. */
  lemma NormalizeExamples()
    ensures NormalizeElement("42", Sequence) == Ok("0042")
    ensures NormalizeElement("42", Frame) == Ok("000042")
    ensures NormalizeElement("00042", Sequence).Err?
    ensures NormalizeElement("0000042", Frame).Err?
    ensures NormalizeElement("not_a_digit", Sequence).Err?
    ensures NormalizeOptionalElement(None, Frame) == Ok(None)
  {
    assert Zeros(1) == "0" && Zeros(2) == "00" && Zeros(3) == "000" && Zeros(4) == "0000";
    assert ZeroPad("42", 4) == "0042" && ZeroPad("42", 6) == "000042";
    assert !IsDigitChar("not_a_digit"[0]);
  }
}
