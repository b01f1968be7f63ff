/**
 * The calculator engine: the arithmetic of one committed operator, and the
 * state record that digit, decimal-point, operator, equals and clear
 * events update in place.
 */
module Engine {
  import opened CalculatorTypes
  import opened NumberText

  /** What applying an operator gives: a value, or the divide-by-zero failure. */
  datatype Evaluation = Value(result: real) | DivideByZero

  /**
   * One operator applied to two operands. For NoOperator the switch falls to
   * its default, reports success and leaves the caller's result at the 0.0
   * it was initialised with. The only failure is a division whose right
   * operand is zero.
   */
  function PerformOperation(op: Operator, left: real, right: real): (e: Evaluation)
    ensures e.DivideByZero? <==> op == Divide && right == 0.0
    ensures e.Value? && op == Divide ==> e.result * right == left
  {
    match op
    case Add => Value(left + right)
    case Subtract => Value(left - right)
    case Multiply => Value(left * right)
    case Divide => if right == 0.0 then DivideByZero else Value(left / right)
    case NoOperator => Value(0.0)
  }

  /** Each of the four operators computes its arithmetic operation. */
  lemma PerformOperationValue(op: Operator, left: real, right: real)
    requires op != NoOperator && !(op == Divide && right == 0.0)
    ensures PerformOperation(op, left, right).Value?
    ensures var r := PerformOperation(op, left, right).result;
      && (op == Add ==> r == left + right)
      && (op == Subtract ==> r == left - right)
      && (op == Multiply ==> r == left * right)
      && (op == Divide ==> r * right == left)
  {
  }

  /**
   * Under the invariant the lazy-reset condition is equals alone: equals
   * never leaves a pending accumulator and always leaves a fresh entry.
   */
  lemma FreshCalculationDueIsLastWasEquals(c: Calculator)
    requires c.Valid()
    ensures c.FreshCalculationDue() <==> c.lastWasEquals
  {
  }

  class Calculator {
    var accumulator: real
    var lastOperand: real
    var pendingOp: Operator
    var hasPending: bool
    var enteringNew: bool
    var lastWasEquals: bool
    /** The NUL-terminated wide-character display buffer. */
    const display: array<char>
    /** The "%.15g" conversion results are written with. */
    const format: Formatter
    /** The text the display holds, up to its terminator. */
    ghost var text: string

    /** The buffer holds text followed by its terminator. */
    ghost predicate BufferValid()
      reads this, display
    {
      && display.Length == DisplaySize
      && 0 < |text| <= DisplayCapacity
      && '\0' !in text
      && display[..|text|] == text
      && display[|text|] == '\0'
    }

    /**
     * The object invariant: a well-formed buffer; a pending accumulator has
     * an operator; text being edited is entry text; and equals leaves no
     * pending accumulator and a fresh entry behind it.
     */
    ghost predicate Valid()
      reads this, display
    {
      && BufferValid()
      && (hasPending ==> pendingOp != NoOperator)
      && (!enteringNew ==> IsEntryText(text))
      && (hasPending ==> !lastWasEquals)
      && (lastWasEquals ==> enteringNew)
    }

    /** The canonical state Init and Clear establish. */
    ghost predicate IsStartState()
      reads this
    {
      && accumulator == 0.0
      && lastOperand == 0.0
      && pendingOp == NoOperator
      && !hasPending
      && enteringNew
      && !lastWasEquals
      && text == "0"
    }

    /** The condition under which the next entry starts a new calculation. */
    ghost predicate FreshCalculationDue()
      reads this
    {
      enteringNew && lastWasEquals && !hasPending
    }

    /** A calculator declared and initialised with Init. */
    constructor (format: Formatter)
      ensures Valid() && fresh(display)
      ensures this.format == format
      ensures IsStartState()
    {
      this.format := format;
      display := new char[DisplaySize];
      new;
      Init();
    }

    /** Copies s and its terminator into the buffer (wcscpy_s, or swprintf's output). */
    method SetDisplay(s: string)
      requires display.Length == DisplaySize
      requires 0 < |s| <= DisplayCapacity && '\0' !in s
      modifies display, this`text
      ensures BufferValid() && text == s
    {
      forall i | 0 <= i < |s| {
        display[i] := s[i];
      }
      display[|s|] := '\0';
      text := s;
    }

    /** Writes the formatted value into the buffer. */
    method SetDisplayFromDouble(value: real)
      requires display.Length == DisplaySize
      modifies display, this`text
      ensures BufferValid() && text == format(value)
    {
      SetDisplay(format(value));
    }

    /** wcslen on the display. */
    method DisplayLength() returns (n: nat)
      requires BufferValid()
      ensures n == |text|
    {
      assert forall k :: 0 <= k < |text| ==> display[k] == text[k] && text[k] in text;
      n := 0;
      while display[n] != '\0'
        invariant n <= |text|
        decreases |text| - n
      {
        n := n + 1;
      }
    }

    /** wcschr(display, '.') != NULL. */
    method DisplayHasPoint() returns (found: bool)
      requires BufferValid()
      ensures found <==> '.' in text
    {
      assert forall k :: 0 <= k < |text| ==> display[k] == text[k] && text[k] in text;
      assert text[..|text|] == text;
      var i := 0;
      while display[i] != '\0' && display[i] != '.'
        invariant i <= |text|
        invariant '.' !in text[..i]
        decreases |text| - i
      {
        assert text[..i + 1] == text[..i] + [text[i]];
        i := i + 1;
      }
      found := display[i] == '.';
    }

    /** The number the display reads as. */
    method GetDisplayValue() returns (v: real)
      requires BufferValid()
      ensures v == Parse(text)
    {
      var n := DisplayLength();
      v := Parse(display[..n]);
    }

    /** The display text; nothing changes. */
    method GetDisplay() returns (s: string)
      requires BufferValid()
      ensures s == text && 0 < |s| <= DisplayCapacity && '\0' !in s
    {
      var n := DisplayLength();
      s := display[..n];
    }

    /** Resets every field to the canonical start state. */
    method Init()
      requires display.Length == DisplaySize
      modifies this, display
      ensures Valid() && IsStartState()
    {
      accumulator := 0.0;
      lastOperand := 0.0;
      pendingOp := NoOperator;
      hasPending := false;
      enteringNew := true;
      lastWasEquals := false;
      SetDisplay("0");
    }

    /** The C (clear) button: the same start state Init gives. */
    method Clear()
      requires display.Length == DisplaySize
      modifies this, display
      ensures Valid() && IsStartState()
    {
      Init();
    }

    /**
     * The lazy reset: once equals has finished a calculation, the first new
     * entry drops the operator and operands it left behind.
     */
    method BeginFreshEntryIfNeeded()
      requires Valid()
      modifies this
      ensures Valid()
      ensures text == old(text)
      ensures hasPending == old(hasPending) && enteringNew == old(enteringNew)
      ensures old(FreshCalculationDue()) ==>
        pendingOp == NoOperator && accumulator == 0.0 && lastOperand == 0.0 && !lastWasEquals
      ensures !old(FreshCalculationDue()) ==>
        && pendingOp == old(pendingOp) && accumulator == old(accumulator)
        && lastOperand == old(lastOperand) && lastWasEquals == old(lastWasEquals)
    {
      if enteringNew && lastWasEquals && !hasPending {
        pendingOp := NoOperator;
        accumulator := 0.0;
        lastOperand := 0.0;
        lastWasEquals := false;
      }
    }

    /**
     * Digit entry into a number already being typed: a lone "0" is replaced,
     * otherwise the digit is appended while there is room.
     */
    method EditDigit(digit: int)
      requires BufferValid() && IsEntryText(text) && 0 <= digit <= 9
      modifies display, this`text
      ensures BufferValid() && IsEntryText(text)
      ensures text == (if old(text) == "0" then [DigitChar(digit)]
                       else if |old(text)| < DisplayCapacity then old(text) + [DigitChar(digit)]
                       else old(text))
    {
      var c := DigitChar(digit);
      ghost var before := text;
      var length := DisplayLength();
      var hasPoint := DisplayHasPoint();
      if length == 1 && display[0] == '0' && !hasPoint {
        assert before == "0";
        display[0] := c;
        display[1] := '\0';
        text := [c];
        ParseDigitChar(digit);
      } else if length < DisplaySize - 1 {
        assert before != "0" by {
          assert length == 1 ==> before[0] == display[0];
        }
        display[length] := c;
        display[length + 1] := '\0';
        text := text + [c];
        EntryAppendDigit(before, c);
        assert display[..|text|] == display[..length] + [c];
      } else {
        assert before != "0";
      }
    }

    /**
     * A digit button. Out-of-range digits are ignored; otherwise the lazy
     * reset runs, a fresh entry starts with the digit, and text being typed
     * is edited as EditDigit does.
     */
    method InputDigit(digit: int)
      requires Valid()
      modifies this, display
      ensures Valid()
      ensures !(0 <= digit <= 9) ==> unchanged(this, display)
      ensures 0 <= digit <= 9 ==>
        var reset := old(FreshCalculationDue());
        && pendingOp == (if reset then NoOperator else old(pendingOp))
        && accumulator == (if reset then 0.0 else old(accumulator))
        && lastOperand == (if reset then 0.0 else old(lastOperand))
        && hasPending == old(hasPending)
        && !enteringNew && !lastWasEquals
        && text == (if old(enteringNew) || old(text) == "0" then [DigitChar(digit)]
                    else if |old(text)| < DisplayCapacity then old(text) + [DigitChar(digit)]
                    else old(text))
    {
      if digit < 0 || digit > 9 {
        return;
      }
      BeginFreshEntryIfNeeded();
      if enteringNew {
        SetDisplay([DigitChar(digit)]);
        ParseDigitChar(digit);
        enteringNew := false;
      } else {
        EditDigit(digit);
      }
      lastWasEquals := false;
    }

    /**
     * The decimal-point button. After the lazy reset a fresh entry starts
     * as "0."; otherwise a point is appended once, while there is room.
     */
    method InputDecimal()
      requires Valid()
      modifies this, display
      ensures Valid()
      ensures var reset := old(FreshCalculationDue());
        && pendingOp == (if reset then NoOperator else old(pendingOp))
        && accumulator == (if reset then 0.0 else old(accumulator))
        && lastOperand == (if reset then 0.0 else old(lastOperand))
        && hasPending == old(hasPending)
        && !enteringNew && !lastWasEquals
        && text == (if old(enteringNew) then "0."
                    else if '.' in old(text) || |old(text)| >= DisplayCapacity then old(text)
                    else old(text) + ".")
      // the display holds a point unless it was full
      ensures '.' in text || (!old(enteringNew) && text == old(text) && |text| == DisplayCapacity)
    {
      BeginFreshEntryIfNeeded();
      if enteringNew {
        SetDisplay("0.");
        assert "0."[1] == '.';
        enteringNew := false;
      } else {
        ghost var before := text;
        var hasPoint := DisplayHasPoint();
        if !hasPoint {
          var length := DisplayLength();
          if length < DisplaySize - 1 {
            display[length] := '.';
            display[length + 1] := '\0';
            text := text + ".";
            EntryAppendPoint(before);
            assert display[..|text|] == display[..length] + ['.'];
          }
        }
      }
      lastWasEquals := false;
    }

    /**
     * Commits an operator. The first one stores the displayed number as the
     * left operand; a later one first evaluates the pending operator, left
     * to right. A division by zero is reported before anything is written.
     */
    method ApplyOperator(op: Operator) returns (status: CalculatorResult)
      requires Valid()
      modifies this, display
      ensures Valid()
      ensures op == NoOperator ==> status == Ok && unchanged(this, display)
      ensures op != NoOperator && !old(hasPending) ==>
        && status == Ok
        && accumulator == Parse(old(text)) && hasPending
        && pendingOp == op && enteringNew && !lastWasEquals
        && lastOperand == old(lastOperand) && text == old(text)
      ensures op != NoOperator && old(hasPending) ==>
        match PerformOperation(old(pendingOp), old(accumulator), Parse(old(text)))
        case DivideByZero =>
          status == ErrorDivideByZero && unchanged(this) && text == old(text)
        case Value(r) =>
          && status == Ok
          && accumulator == r && text == format(r) && hasPending
          && pendingOp == op && enteringNew && !lastWasEquals
          && lastOperand == old(lastOperand)
    {
      if op == NoOperator {
        return Ok;
      }
      var current := GetDisplayValue();
      if !hasPending {
        accumulator := current;
        hasPending := true;
      } else {
        var evaluation := PerformOperation(pendingOp, accumulator, current);
        if evaluation.DivideByZero? {
          return ErrorDivideByZero;
        }
        accumulator := evaluation.result;
        SetDisplayFromDouble(evaluation.result);
      }
      pendingOp := op;
      enteringNew := true;
      lastWasEquals := false;
      return Ok;
    }

    /**
     * Equals: applies the pending operator to the accumulator and the
     * displayed number, or, when equals is repeated, to the operand frozen at
     * the first press. With no operator it redisplays the number and takes
     * it as both operands. The operator stays for the next repeat.
     */
    method ApplyEquals() returns (status: CalculatorResult)
      requires Valid()
      modifies this, display
      ensures Valid()
      ensures old(pendingOp) == NoOperator ==>
        && status == Ok
        && accumulator == (if old(lastWasEquals) then old(accumulator) else Parse(old(text)))
        && lastOperand == (if old(lastWasEquals) then old(lastOperand) else Parse(old(text)))
        && text == format(Parse(old(text)))
        && pendingOp == NoOperator && !hasPending && enteringNew && lastWasEquals
      ensures old(pendingOp) != NoOperator ==>
        var operand := if old(lastWasEquals) then old(lastOperand) else Parse(old(text));
        && lastOperand == operand
        && match PerformOperation(old(pendingOp), old(accumulator), operand)
           case DivideByZero =>
             && status == ErrorDivideByZero
             && accumulator == old(accumulator) && pendingOp == old(pendingOp)
             && hasPending == old(hasPending) && enteringNew == old(enteringNew)
             && lastWasEquals == old(lastWasEquals) && text == old(text)
           case Value(r) =>
             && status == Ok
             && accumulator == r && text == format(r)
             && pendingOp == old(pendingOp) && !hasPending && enteringNew && lastWasEquals
    {
      var current := GetDisplayValue();
      if pendingOp == NoOperator {
        if !lastWasEquals {
          accumulator := current;
          lastOperand := current;
        }
        SetDisplayFromDouble(current);
        enteringNew := true;
        lastWasEquals := true;
        hasPending := false;
        return Ok;
      }
      if lastWasEquals {
        current := lastOperand;
      } else {
        lastOperand := current;
      }
      var evaluation := PerformOperation(pendingOp, accumulator, current);
      if evaluation.DivideByZero? {
        return ErrorDivideByZero;
      }
      accumulator := evaluation.result;
      SetDisplayFromDouble(evaluation.result);
      enteringNew := true;
      lastWasEquals := true;
      hasPending := false;
      return Ok;
    }
  }
}
