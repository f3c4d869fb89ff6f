// The decimal template filters (orders/templatetags/decimal_tags.py): add, subtract and
// multiply two values, and apply a percentage discount rounded to cents. Decimals are reals.
module DecimalTags {
  import opened Wrappers
  import opened Arith

  /**
   * A template value as a filter receives it: nothing, a number, or a text together with what
   * Decimal makes of it (None when the text is not a number).
   */
  datatype Operand = Missing | Number(r: real) | Text(s: string, parsed: Option<real>)

  /** Python truthiness of the value. */
  predicate Truthy(x: Operand)
  {
    match x
    case Missing => false
    case Number(r) => r != 0.0
    case Text(s, _) => s != ""
  }

  /** `Decimal(str(x)) if x else Decimal(default)`; None when the conversion raises InvalidOperation. */
  function ToDecimal(x: Operand, default: real): (r: Option<real>)
    ensures !Truthy(x) ==> r == Some(default)
    ensures x.Number? && Truthy(x) ==> r == Some(x.r)
    ensures r.None? <==> x.Text? && x.s != "" && x.parsed.None?
  {
    if !Truthy(x) then Some(default)
    else match x
      case Number(r) => Some(r)
      case Text(_, parsed) => parsed
  }

  /** The four filters. */
  datatype Filter = AddDecimal | SubtractDecimal | MultiplyDecimal | ApplyDiscount

  /** What a falsy argument stands for: 1 for a multiplier, 0 otherwise. */
  function ArgDefault(f: Filter): real
  {
    if f == MultiplyDecimal then 1.0 else 0.0
  }

  /**
   * The arithmetic of each filter on converted operands; apply_discount quantizes
   * value * (1 - percent / 100) to 0.01 with ties to even.
   */
  function Compute(f: Filter, v: real, a: real): real
  {
    match f
    case AddDecimal => v + a
    case SubtractDecimal => v - a
    case MultiplyDecimal => v * a
    case ApplyDiscount => Round2(v * (1.0 - a / 100.0))
  }

  /** A filter's result: a decimal, its own input handed back, or an exception. */
  datatype Outcome = Dec(d: real) | Original(v: Operand) | Raises

  /**
   * The filters as written: the except clause names ValueError and TypeError, but a text that is
   * not a number makes Decimal raise decimal.InvalidOperation, which is neither, so the
   * exception escapes; and a falsy argument, a numeric zero included, takes the default.
   */
  function FilterAsWritten(f: Filter, value: Operand, arg: Operand): (r: Outcome)
    ensures r.Raises? <==> ToDecimal(value, 0.0).None? || ToDecimal(arg, ArgDefault(f)).None?
    ensures !r.Original?
  {
    match (ToDecimal(value, 0.0), ToDecimal(arg, ArgDefault(f)))
    case (Some(v), Some(a)) => Dec(Compute(f, v, a))
    case _ => Raises
  }

  /** A text that is not a number makes every filter raise. */
  lemma InvalidTextRaises(f: Filter)
    ensures FilterAsWritten(f, Text("abc", None), Number(1.0)) == Raises
    ensures FilterAsWritten(f, Number(1.0), Text("abc", None)) == Raises
  {
  }

  /** Multiplying by the number zero hands back the value: the zero is falsy and becomes 1. */
  lemma MultiplyByZeroAsWritten()
    ensures FilterAsWritten(MultiplyDecimal, Number(5.0), Number(0.0)) == Dec(5.0)
  {
  }

  /** The argument as the corrected filters read it: only a missing or empty argument takes the default. */
  function ArgDecimal(f: Filter, arg: Operand): (r: Option<real>)
    ensures arg.Number? ==> r == Some(arg.r)
    ensures r.None? <==> ToDecimal(arg, ArgDefault(f)).None?
  {
    if arg.Number? then Some(arg.r) else ToDecimal(arg, ArgDefault(f))
  }

  /**
   * The filters as intended: a conversion failure is caught and the value is handed back as it
   * stood when the failure happened (the original when the value itself failed to convert,
   * its decimal when only the argument did); a numeric zero argument is a zero.
   */
  function ApplyFilter(f: Filter, value: Operand, arg: Operand): (r: Outcome)
    ensures !r.Raises?
    ensures ToDecimal(value, 0.0).None? ==> r == Original(value)
    ensures ToDecimal(value, 0.0).Some? && ArgDecimal(f, arg).None? ==> r == Dec(ToDecimal(value, 0.0).value)
    ensures r.Dec? && ArgDecimal(f, arg).Some? ==> r.d == Compute(f, ToDecimal(value, 0.0).value, ArgDecimal(f, arg).value)
  {
    match ToDecimal(value, 0.0)
    case None => Original(value)
    case Some(v) =>
      match ArgDecimal(f, arg)
      case None => Dec(v)
      case Some(a) => Dec(Compute(f, v, a))
  }

  /** The corrected filters agree with the written ones wherever those do not raise, except for a zero multiplier. */
  lemma ApplyFilterAgrees(f: Filter, value: Operand, arg: Operand)
    requires !FilterAsWritten(f, value, arg).Raises?
    requires !(f == MultiplyDecimal && arg == Number(0.0))
    ensures ApplyFilter(f, value, arg) == FilterAsWritten(f, value, arg)
  {
  }

  /** Multiplying by zero gives zero. */
  lemma MultiplyByZero(value: Operand)
    requires ToDecimal(value, 0.0).Some?
    ensures ApplyFilter(MultiplyDecimal, value, Number(0.0)) == Dec(0.0)
  {
  }

  /** The decimal of a computed result, as the next filter in a chain receives it. */
  function Chain(o: Outcome): Operand
  {
    match o
    case Dec(d) => Number(d)
    case Original(v) => v
    case Raises => Missing
  }

  /** Subtracting what was added gives the value back. */
  lemma AddThenSubtract(value: Operand, arg: Operand)
    requires ToDecimal(value, 0.0).Some? && ToDecimal(arg, 0.0).Some?
    ensures ApplyFilter(SubtractDecimal, Chain(ApplyFilter(AddDecimal, value, arg)), arg) == Dec(ToDecimal(value, 0.0).value)
  {
    var v := ToDecimal(value, 0.0).value;
    var a := ArgDecimal(AddDecimal, arg).value;
    assert ApplyFilter(AddDecimal, value, arg) == Dec(v + a);
    assert ToDecimal(Number(v + a), 0.0) == Some(v + a);
  }

  /** A missing or empty argument leaves the value alone: adding 0 or multiplying by 1. */
  lemma FalsyArgumentIsNeutral(f: Filter, value: Operand, arg: Operand)
    requires f == AddDecimal || f == SubtractDecimal || f == MultiplyDecimal
    requires arg == Missing || arg == Text("", None)
    requires ToDecimal(value, 0.0).Some?
    ensures ApplyFilter(f, value, arg) == Dec(ToDecimal(value, 0.0).value)
  {
  }

  /**
   * apply_discount: no discount only rounds the value to cents, a full discount gives zero, and
   * a discount between 0 and 100 percent of a non-negative value gives a non-negative price at
   * most the value rounded up by half a cent.
   */
  lemma ApplyDiscountBounds(v: real, p: real)
    ensures Compute(ApplyDiscount, v, 0.0) == Round2(v)
    ensures Compute(ApplyDiscount, v, 100.0) == 0.0
    ensures 0.0 <= v && 0.0 <= p <= 100.0 ==> 0.0 <= Compute(ApplyDiscount, v, p) <= v + 0.005
  {
    DiscountFactor(v, 0.0);
    DiscountFactor(v, 100.0);
    Round2Fixed(0);
    if 0.0 <= v && 0.0 <= p <= 100.0 {
      var q := 1.0 - p / 100.0;
      DiscountFactor(v, p);
      MulFraction(v, q);
    }
  }

  /** The factor apply_discount multiplies by, for the boundary percentages and in general. */
  lemma DiscountFactor(v: real, p: real)
    ensures Compute(ApplyDiscount, v, p) == Round2(v * (1.0 - p / 100.0))
    ensures p == 0.0 ==> v * (1.0 - p / 100.0) == v
    ensures p == 100.0 ==> v * (1.0 - p / 100.0) == 0.0
    ensures 0.0 <= p <= 100.0 ==> 0.0 <= 1.0 - p / 100.0 <= 1.0
  {
  }
}
