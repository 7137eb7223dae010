/** Order numbers as the CREON gateway compares them: decimal text without leading zeros
    (gateway/creon_client.py). */
module OrderNumbers {
  import opened Wrappers
  import opened PyText
  import opened CreonOrders

  /** A field of a COM row: nothing, an integer or a text. */
  datatype ComValue = Empty | Number(value: int) | Text(text: string)

  /** `_normalize_broker_order_id` */
  function NormalizeBrokerOrderId(id: string): Result<string, GatewayError> {
    var t := Strip(id);
    if t == "" || !AllDigits(t) || DigitsValue(t) <= 0 then Failure(InvalidOrderId) else Success(DecimalText(DigitsValue(t)))
  }

  function FromInt(n: int): Option<string> {
    if n > 0 then Some(DecimalText(n)) else None
  }

  /** `_normalize_optional_order_number` */
  function NormalizeOptionalOrderNumber(v: ComValue): Result<Option<string>, GatewayError> {
    match v
    case Empty => Success(None)
    case Number(n) => Success(FromInt(n))
    case Text(t) =>
      if t == "" then Success(None)
      else match ParseInt(t)
        case None => Failure(RequestFailed)
        case Some(n) => Success(FromInt(n))
  }

  /** The number that a caller asks for, if the text is one. */
  function NumberRequested(id: string): Option<nat> {
    var t := Strip(id);
    if t != "" && AllDigits(t) then Some(DigitsValue(t)) else None
  }

  /** The number that a row states, if it states one. */
  function NumberStated(v: ComValue): Option<int> {
    match v
    case Empty => None
    case Number(n) => Some(n)
    case Text(t) => ParseInt(t)
  }

  lemma EmptyTextIsNoNumber()
    ensures ParseInt("") == None
  {
  }

  /** A requested id and a row meet as texts exactly when both denote the same positive number. */
  lemma IdMeetsRowExactly(id: string, v: ComValue)
    ensures (exists b :: NormalizeBrokerOrderId(id) == Success(b) && NormalizeOptionalOrderNumber(v) == Success(Some(b)))
      <==> (exists n :: n > 0 && NumberRequested(id) == Some(n) && NumberStated(v) == Some(n))
  {
    EmptyTextIsNoNumber();
    if b :| NormalizeBrokerOrderId(id) == Success(b) && NormalizeOptionalOrderNumber(v) == Success(Some(b)) {
      DecimalTextInjective(NumberRequested(id).value, NumberStated(v).value);
    }
    if n :| n > 0 && NumberRequested(id) == Some(n) && NumberStated(v) == Some(n) {
      assert NormalizeBrokerOrderId(id) == Success(DecimalText(n));
    }
  }

  lemma DecimalTextIsAccepted(n: nat)
    requires n > 0
    ensures NormalizeBrokerOrderId(DecimalText(n)) == Success(DecimalText(n))
  {
    DecimalRoundTrip(n);
    var b := DecimalText(n);
    assert IsDigit(b[0]) && IsDigit(b[|b| - 1]);
    StripKeepsEnds(b);
  }

  lemma DecimalTextIsStated(n: nat)
    requires n > 0
    ensures NormalizeOptionalOrderNumber(Text(DecimalText(n))) == Success(Some(DecimalText(n)))
  {
    DecimalRoundTrip(n);
    ParseDecimal(n);
  }

  /** Normalising is idempotent, and `int` of the result is the number asked for: that number is
      what a cancel request carries. */
  lemma NormalizedIsCanonical(id: string, b: string)
    requires NormalizeBrokerOrderId(id) == Success(b)
    ensures NormalizeBrokerOrderId(b) == Success(b)
    ensures NormalizeOptionalOrderNumber(Text(b)) == Success(Some(b))
    ensures b != "" && NumberRequested(id).Some? && ParseInt(b) == Some(NumberRequested(id).value)
  {
    var n := NumberRequested(id).value;
    DecimalTextIsAccepted(n);
    DecimalTextIsStated(n);
    DecimalRoundTrip(n);
    ParseDecimal(n);
  }

  /** A requested id is refused exactly when it is not ASCII digits, or 0. */
  lemma IdRefusedExactly(id: string)
    ensures NormalizeBrokerOrderId(id) == Failure(InvalidOrderId) <==>
      NumberRequested(id) == None || NumberRequested(id) == Some(0)
    ensures NormalizeBrokerOrderId(id).Failure? ==> NormalizeBrokerOrderId(id) == Failure(InvalidOrderId)
    ensures forall n: nat :: n > 0 && NumberRequested(id) == Some(n) ==> NormalizeBrokerOrderId(id) == Success(DecimalText(n))
  {
  }

  /** A row's number is an error exactly when a text is there that is no integer, and missing when
      there is none or it is not positive. */
  lemma RowNumberExactly(v: ComValue)
    ensures NormalizeOptionalOrderNumber(v).Failure? <==> v.Text? && v.text != "" && ParseInt(v.text) == None
    ensures NormalizeOptionalOrderNumber(v).Failure? ==> NormalizeOptionalOrderNumber(v) == Failure(RequestFailed)
    ensures NormalizeOptionalOrderNumber(v) == Success(None) <==>
      v == Empty || v == Text("") || (NumberStated(v).Some? && NumberStated(v).value <= 0)
  {
    EmptyTextIsNoNumber();
  }
}
