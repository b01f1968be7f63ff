/**
 * Button sequences run against the engine, and the presentation layer's
 * recovery from a division by zero. Each states the outcome a pocket
 * calculator user expects; the formatter is left open throughout.
 */
module Scenarios {
  import opened CalculatorTypes
  import opened NumberText
  import opened Engine

  /** Clear, 1, 2, 3 shows "123"; an operator then takes 123 as its left operand. */
  method TypedDigitsConcatenate(format: Formatter) returns (shown: string, left: real)
    ensures shown == "123" && left == 123.0
  {
    var calculator := new Calculator(format);
    ghost var one := [DigitChar(1)];
    ghost var twelve := one + [DigitChar(2)];
    calculator.InputDigit(1);
    ParseDigitChar(1);
    calculator.InputDigit(2);
    assert calculator.text == twelve;
    TypedDigitValue(one, 2);
    calculator.InputDigit(3);
    assert calculator.text == twelve + [DigitChar(3)];
    TypedDigitValue(twelve, 3);
    shown := calculator.GetDisplay();
    var status := calculator.ApplyOperator(Add);
    left := calculator.accumulator;
  }

  predicate AreDigits(ds: seq<int>) {
    forall i :: 0 <= i < |ds| ==> 0 <= ds[i] <= 9
  }

  /** The characters the digits ds are written as. */
  function DigitString(ds: seq<int>): (s: string)
    requires AreDigits(ds)
    ensures |s| == |ds| && forall i :: 0 <= i < |ds| ==> s[i] == DigitChar(ds[i])
  {
    if ds == [] then [] else DigitString(ds[..|ds| - 1]) + [DigitChar(ds[|ds| - 1])]
  }

  /** The number the digits ds denote, most significant first. */
  function DigitsValue(ds: seq<int>): nat
    requires AreDigits(ds)
  {
    if ds == [] then 0 else 10 * DigitsValue(ds[..|ds| - 1]) + ds[|ds| - 1]
  }

  /**
   * What the display holds after the first i digits of ds: entry text
   * without a point, "0" before any digit, no longer than the digits typed,
   * reading as their number, and spelling them when the first is not 0.
   */
  ghost predicate TypedSoFar(ds: seq<int>, i: nat, t: string)
    requires AreDigits(ds) && i <= |ds|
  {
    && IsEntryText(t) && '.' !in t
    && (i == 0 ==> t == "0")
    && (i > 0 ==> |t| <= i)
    && Parse(t) == DigitsValue(ds[..i]) as real
    && (i > 0 && ds[0] != 0 ==> t == DigitString(ds[..i]))
  }

  /** One more digit button keeps TypedSoFar: the display edit InputDigit makes. */
  lemma TypedStep(ds: seq<int>, i: nat, t: string)
    requires AreDigits(ds) && i < |ds| && TypedSoFar(ds, i, t)
    ensures var c := DigitChar(ds[i]);
      TypedSoFar(ds, i + 1, if i == 0 || t == "0" then [c] else t + [c])
  {
    var c := DigitChar(ds[i]);
    var t' := if i == 0 || t == "0" then [c] else t + [c];
    assert ds[..i + 1][..i] == ds[..i];
    if i == 0 {
      ParseDigitChar(0);
      assert [DigitChar(0)] == "0";
      ParseDigitChar(ds[i]);
      assert '.' !in t' by { assert t' == [c] && c != '.'; }
    } else {
      if ds[0] != 0 {
        assert t[0] == DigitChar(ds[0]) != '0';
      }
      TypedDigitValue(t, ds[i]);
      assert '.' !in t' by { assert c != '.'; }
    }
  }

  /**
   * Clear, then any sequence of at most 63 digit buttons: the display reads
   * as the number the digits denote, and when the first digit is not 0 it
   * shows exactly their characters; with no digits it still shows "0".
   */
  method TypeDigits(format: Formatter, ds: seq<int>) returns (shown: string, value: real)
    requires AreDigits(ds) && |ds| <= DisplayCapacity
    ensures value == DigitsValue(ds) as real
    ensures ds != [] && ds[0] != 0 ==> shown == DigitString(ds)
    ensures ds == [] ==> shown == "0"
  {
    var calculator := new Calculator(format);
    ParseDigitChar(0);
    assert [DigitChar(0)] == "0";
    var i := 0;
    while i < |ds|
      invariant 0 <= i <= |ds|
      invariant calculator.Valid() && !calculator.lastWasEquals
      invariant calculator.enteringNew <==> i == 0
      invariant TypedSoFar(ds, i, calculator.text)
    {
      TypedStep(ds, i, calculator.text);
      calculator.InputDigit(ds[i]);
      i := i + 1;
    }
    assert ds[..i] == ds;
    shown := calculator.GetDisplay();
    value := calculator.GetDisplayValue();
  }

  /** Clear, 0, 5 shows "5", not "05". */
  method LeadingZeroReplaced(format: Formatter) returns (shown: string)
    ensures shown == "5"
  {
    var calculator := new Calculator(format);
    calculator.InputDigit(0);
    calculator.InputDigit(5);
    shown := calculator.GetDisplay();
  }

  /** Clear, 1, point, point, 5 shows "1.5": the second point is ignored. */
  method PointTypedOnce(format: Formatter) returns (shown: string)
    ensures shown == "1.5"
  {
    var calculator := new Calculator(format);
    calculator.InputDigit(1);
    ghost var one := [DigitChar(1)];
    assert calculator.text == one;
    calculator.InputDecimal();
    assert calculator.text == one + ".";
    calculator.InputDecimal();
    assert calculator.text == one + ".";
    calculator.InputDigit(5);
    ghost var five := [DigitChar(5)];
    assert calculator.text == one + "." + five;
    shown := calculator.GetDisplay();
  }

  /** Clear, 3, +, 4, +, 5, = evaluates left to right to 12. */
  method ChainedLeftToRight(format: Formatter) returns (result: real, shown: string)
    ensures result == 12.0 && shown == format(12.0)
  {
    var calculator := new Calculator(format);
    calculator.InputDigit(3);
    ParseDigitChar(3);
    var s1 := calculator.ApplyOperator(Add);
    calculator.InputDigit(4);
    ParseDigitChar(4);
    var s2 := calculator.ApplyOperator(Add);
    calculator.InputDigit(5);
    ParseDigitChar(5);
    var s3 := calculator.ApplyEquals();
    result := calculator.accumulator;
    shown := calculator.GetDisplay();
  }

  /** Clear, 5, +, 3, =, = gives 8 and then 11: equals repeats "+ 3". */
  method RepeatedEquals(format: Formatter) returns (first: real, second: real, shown: string)
    ensures first == 8.0 && second == 11.0 && shown == format(11.0)
  {
    var calculator := new Calculator(format);
    calculator.InputDigit(5);
    ParseDigitChar(5);
    var s1 := calculator.ApplyOperator(Add);
    calculator.InputDigit(3);
    ParseDigitChar(3);
    var s2 := calculator.ApplyEquals();
    first := calculator.accumulator;
    var s3 := calculator.ApplyEquals();
    second := calculator.accumulator;
    shown := calculator.GetDisplay();
  }

  /**
   * Clear, 8, /, 0, = reports the division by zero; the presentation layer
   * then clears, and the display shows "0" again.
   */
  method DivideByZeroThenClear(format: Formatter) returns (status: CalculatorResult, shown: string)
    ensures status == ErrorDivideByZero && shown == "0"
  {
    var calculator := new Calculator(format);
    calculator.InputDigit(8);
    ParseDigitChar(8);
    var s1 := calculator.ApplyOperator(Divide);
    calculator.InputDigit(0);
    ParseDigitChar(0);
    status := calculator.ApplyEquals();
    if status == ErrorDivideByZero {
      calculator.Clear();
    }
    shown := calculator.GetDisplay();
  }

  /**
   * Clear, 2, +, 3, = gives 5; typing 7 then starts a new number with no
   * trace of the finished calculation, so 7, +, 1, = gives 8.
   */
  method LazyResetStartsOver(format: Formatter) returns (finished: real, shown: string, next: real)
    ensures finished == 5.0 && shown == "7" && next == 8.0
  {
    var calculator := new Calculator(format);
    calculator.InputDigit(2);
    ParseDigitChar(2);
    var s1 := calculator.ApplyOperator(Add);
    assert calculator.accumulator == 2.0 && calculator.pendingOp == Add;
    calculator.InputDigit(3);
    ParseDigitChar(3);
    var s2 := calculator.ApplyEquals();
    finished := calculator.accumulator;
    assert calculator.lastWasEquals && !calculator.hasPending;
    calculator.InputDigit(7);
    ParseDigitChar(7);
    assert calculator.pendingOp == NoOperator && calculator.text == "7";
    shown := calculator.GetDisplay();
    var s3 := calculator.ApplyOperator(Add);
    assert calculator.accumulator == 7.0 && calculator.pendingOp == Add;
    calculator.InputDigit(1);
    ParseDigitChar(1);
    assert calculator.text == "1" && !calculator.lastWasEquals;
    var s4 := calculator.ApplyEquals();
    next := calculator.accumulator;
  }

  /** Reading the display twice with nothing in between gives the same text. */
  method DisplayReadTwice(calculator: Calculator) returns (a: string, b: string)
    requires calculator.Valid()
    ensures a == b && a == calculator.text
  {
    a := calculator.GetDisplay();
    b := calculator.GetDisplay();
  }
}
