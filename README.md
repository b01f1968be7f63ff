# Four-function calculator engine, modelled in Dafny

This project models the engine of a four-function pocket calculator. The engine is one state record, changed in place by five button events: digit, decimal point, operator, equals and clear. The record has these fields:

- an accumulator;
- a frozen last operand;
- a pending operator;
- three flags: `hasPending`, `enteringNew` and `lastWasEquals`;
- a 64-wide-character, NUL-terminated display buffer.

While a number is being typed, the buffer is edited as text. The rules are:

- a lone `"0"` is replaced by the first digit typed;
- there is at most one point;
- a character that does not fit is silently dropped.

The text is read back as a number only when an operator or equals commits it. Operators chain from left to right. A repeated `=` re-applies the pending operator to the frozen operand. Equals leaves its result behind, and the first new digit or point clears it (a "lazy reset"). Division by zero is the single error.

Layout:

- `calculator_types.dfy` (module `CalculatorTypes`): the operator and result enumerations, the buffer size, and the `Formatter` type that stands for `"%.15g"`.
- `number_text.dfy` (module `NumberText`): a model of `wcstod` on the display (`Parse`), the shape of text that digit entry builds (`IsEntryText`), and lemmas on what each keystroke does to the value that text reads as.
- `engine.dfy` (module `Engine`):
  - `PerformOperation`, a pure function returning `Value(r)` or `DivideByZero`;
  - the class `Calculator`. Its fields are the six scalar fields, the display as an `array<char>` of 64, and a ghost `text` that is the string before the terminator. Each public C function is one method that updates the fields in place and edits the array element by element, as the C code does.
- `scenarios.dfy` (module `Scenarios`): button sequences run from a fresh calculator, each with its outcome stated. One of them adds the presentation layer's recovery (clear after a division by zero).

The object invariant `Valid()` holds after every operation. It says:

- the buffer holds `text` and then a NUL;
- `text` is between 1 and 63 characters;
- `hasPending ==> pendingOp != NoOperator`;
- the text being edited (`!enteringNew`) is entry text: a leading digit, then digits and at most one point;
- two more facts the code keeps without stating them: `hasPending ==> !lastWasEquals` and `lastWasEquals ==> enteringNew`. As a consequence, the lazy-reset condition `enteringNew && lastWasEquals && !hasPending` is equivalent to `lastWasEquals` alone (`FreshCalculationDueIsLastWasEquals`).

The methods state the new text. What that text then reads as is stated by lemmas on the same edits. For example, `TypedDigitValue` covers the edit `InputDigit` makes: the digit is shifted in as 10v + d before the point, or v + d / 10^k after it. `ParseAppendPoint` shows that typing the point keeps the value.

Numbers are `real`. The `"%.15g"` conversion is a parameter of the calculator: a function from `real` to text, which is assumed only non-empty, shorter than the buffer and free of NUL. `wcstod` is concrete: `Parse` reads an optional sign, a run of digits, then an optional point with a second run of digits. Reading stops at the first character that does not fit.

Behaviour of the code worth knowing:

- On a division by zero the engine returns the error without resetting. Only `lastOperand` has changed: `ApplyEquals` writes it before it computes (`src/calculator.c:135-137`, `171`, `176-178`). The presentation layer then calls `Calculator_Clear` (`src/ui.c:111-117`). `DivideByZeroThenClear` models that layered behaviour.
- Equals tests `pendingOp == NONE`, not `hasPending`. After `5 + 3 =`, `hasPending` is false but `pendingOp` is still `ADD`, and this is what makes a second `=` repeat.
- `Calculator_GetDisplay` returns a pointer into the live buffer. The model's `GetDisplay` returns the text as a value, so a caller cannot see later edits through it. The text is the same at the moment of the call (`DisplayReadTwice`).
- Digit entry with a digit outside 0..9 is silently ignored, flags included. `ApplyOperator(NONE)` returns OK and changes nothing.

## Model

| member | source | states |
|---|---|---|
| `Engine.PerformOperation` | src/calculator.c:31-52 | the operation fails (DIVIDE_BY_ZERO) exactly when the operator is Divide and the right operand is 0, in both directions; a successful division gives a quotient r with r * right == left |
| `Engine.Calculator.Valid` | src/calculator.h:18-26 | the object invariant of the state record: the buffer holds text and a NUL, text is 1 to 63 characters, a pending accumulator has an operator, text being typed is entry text, and equals leaves no pending accumulator and a fresh entry; every method keeps it |
| `Engine.PerformOperationValue` | src/calculator.c:33-48 | otherwise it succeeds: Add gives left + right, Subtract left - right, Multiply left * right, and Divide a quotient r with r * right == left |
| `Engine.FreshCalculationDueIsLastWasEquals` | src/calculator.c:21-29 | under the invariant, the lazy-reset condition enteringNew && lastWasEquals && !hasPending is equivalent to lastWasEquals |
| `Engine.Calculator.constructor` | src/calculator.c:54-67 | a new calculator is valid and in the canonical start state: 0, 0, NONE, no pending accumulator, fresh entry, not after equals, display "0" |
| `Engine.Calculator.Init` | src/calculator.c:54-67 | from any buffer it sets every field to the canonical start state, display "0", with the invariant established |
| `Engine.Calculator.Clear` | src/calculator.c:69-72 | same canonical start state as Init |
| `Engine.Calculator.SetDisplay` | src/calculator.c:11-14 | the buffer afterwards holds exactly the given text and its terminator; no scalar field changes |
| `Engine.Calculator.SetDisplayFromDouble` | src/calculator.c:6-9 | the buffer holds the formatted value; no scalar field changes |
| `Engine.Calculator.DisplayLength` | src/calculator.c:86 | wcslen: the returned length is exactly the number of characters before the terminator |
| `Engine.Calculator.DisplayHasPoint` | src/calculator.c:110 | wcschr for '.': the result is true exactly when the display text contains a point |
| `Engine.Calculator.GetDisplayValue` | src/calculator.c:16-19 | the value returned is the wcstod reading (Parse) of the display text |
| `Engine.Calculator.GetDisplay` | src/calculator.c:188-191 | returns the display text, which is non-empty, at most 63 characters and NUL-free; it changes nothing |
| `Engine.Calculator.BeginFreshEntryIfNeeded` | src/calculator.c:21-29 | if enteringNew, lastWasEquals and no pending accumulator: operator NONE, both operands 0, lastWasEquals cleared; otherwise nothing changes; text and the other flags never change |
| `Engine.Calculator.EditDigit` | src/calculator.c:85-94 | on text being edited: a lone "0" becomes the digit; with fewer than 63 characters the digit is appended; at capacity the text is unchanged; the result is still entry text |
| `Engine.Calculator.InputDigit` | src/calculator.c:74-97 | an out-of-range digit changes nothing; otherwise the lazy reset applies to operator and operands; hasPending is kept; the text becomes the one digit (fresh entry or "0"), the old text plus the digit (room left) or the old text (full); enteringNew and lastWasEquals end false |
| `Engine.Calculator.InputDecimal` | src/calculator.c:99-119 | lazy reset as for digits; a fresh entry becomes "0."; a text with a point or at capacity is unchanged, otherwise "." is appended; the display then has a point unless it was full; both flags end false |
| `Engine.Calculator.ApplyOperator` | src/calculator.c:121-146 | NONE changes nothing and returns OK; with nothing pending, the display's value becomes the accumulator and nothing is computed; with an operator pending, the accumulator becomes pendingOp(accumulator, display value) and the display its formatting; on success the operator is stored, with a fresh entry and not after equals; on a division by zero the error is returned and nothing changes |
| `Engine.Calculator.ApplyEquals` | src/calculator.c:148-186 | with operator NONE: the display's value becomes both operands unless this repeats equals, and it is redisplayed; otherwise the operand is the frozen lastOperand on a repeat, else the display's value, which is frozen; success stores pendingOp(accumulator, operand) and its formatting, keeps the operator and sets the fresh-entry and after-equals flags; a division by zero leaves everything but lastOperand unchanged |
| `NumberText.Parse` | src/calculator.c:16-19 | wcstod on the display: empty text reads as 0, text that starts with no sign, digit or point reads as 0, and only a leading '-' makes the value negative; its values on entry text are stated by the lemmas below |
| `NumberText.DigitChar` | src/calculator.c:88 | the character written for digit d is a decimal digit whose value is d |
| `NumberText.DigitRun` | src/calculator.c:18 | the digit run wcstod consumes is the longest prefix of digits: every character in it is a digit and the next one is not |
| `NumberText.IndexOfPoint` | src/calculator.c:110 | the position found holds a point and no earlier position does |
| `NumberText.ParseDigits` | src/calculator.c:16-19 | a string of digits reads as its natural value |
| `NumberText.ParsePointed` | src/calculator.c:16-19 | digits, a point and digits read as whole + frac / 10^len(frac) |
| `NumberText.EntryParts` | src/calculator.c:82-94 | entry text is a digit string, or a non-empty digit string, one point and a digit string |
| `NumberText.ParseAppendWholeDigit` | src/calculator.c:90-93 | appending digit c to a whole number gives 10v + c |
| `NumberText.ParseAppendFractionDigit` | src/calculator.c:90-93 | appending c after k fraction digits adds c / 10^(k+1) |
| `NumberText.EntryAppendDigit` | src/calculator.c:90-93 | appending a digit keeps entry text entry text |
| `NumberText.ParseAppendDigit` | src/calculator.c:90-93 | on entry text, appending a digit gives 10v + c without a point and v + c / 10^(k+1) with k fraction digits |
| `NumberText.EntryAppendPoint` | src/calculator.c:110-115 | appending a point to entry text without one keeps it entry text, now with a point |
| `NumberText.ParseAppendPoint` | src/calculator.c:110-115 | appending the point does not change the value the text reads as |
| `NumberText.TypedDigitValue` | src/calculator.c:86-93 | the edit InputDigit makes to text being typed ("0" replaced, else appended) keeps it entry text and shifts the digit into the value |
| `NumberText.ParseDigitChar` | src/calculator.c:82-84 | the one-digit text of a fresh entry is entry text and reads as that digit |
| `NumberText.ParseReplaceZero` | src/calculator.c:87-89 | replacing "0" by d reads as 10 * 0 + d, the same rule as appending |
| `NumberText.ParseZeroPoint` | src/calculator.c:107-109 | the "0." of a fresh decimal entry is entry text with a point and reads as 0 |
| `Scenarios.TypedDigitsConcatenate` | src/calculator.c:74-97 | Clear, 1, 2, 3 shows "123", and a following + takes 123 as the accumulator |
| `Scenarios.DigitString` | src/calculator.c:88 | the text of a digit sequence has one character per digit, each the character written for that digit |
| `Scenarios.TypedStep` | src/calculator.c:74-97 | one more digit button keeps the display equal to entry text that reads as the digits typed so far, spelling them when the first is not 0 |
| `Scenarios.TypeDigits` | src/calculator.c:74-97 | after Clear, any sequence of up to 63 digits leaves a display that reads as the number the digits denote; without a leading 0 it shows exactly their characters, and with no digits it shows "0" |
| `Scenarios.LeadingZeroReplaced` | src/calculator.c:87-89 | Clear, 0, 5 shows "5" |
| `Scenarios.PointTypedOnce` | src/calculator.c:99-119 | Clear, 1, point, point, 5 shows "1.5" |
| `Scenarios.ChainedLeftToRight` | src/calculator.c:121-146 | 3 + 4 + 5 = leaves accumulator 12 with formatted 12 on display |
| `Scenarios.RepeatedEquals` | src/calculator.c:168-172 | 5 + 3 = = gives 8 and then 11 |
| `Scenarios.DivideByZeroThenClear` | src/ui.c:111-117 | 8 / 0 = reports the division by zero, and after the presentation layer's clear the display shows "0" |
| `Scenarios.LazyResetStartsOver` | src/calculator.c:21-29 | 2 + 3 = gives 5; then 7 shows "7", and 7 + 1 = gives 8, with no trace of the earlier chain |
| `Scenarios.DisplayReadTwice` | src/calculator.c:188-191 | two display reads with nothing in between return the same text |

## Left out

- Engine.PerformOperationValue: the arithmetic is exact over `real`. IEEE double rounding, overflow to infinity, NaN and the signed zero are not modelled. `right == 0.0` in the code is also true for `-0.0`, which `real` does not have.
- Engine.Calculator.SetDisplayFromDouble: the digits `"%.15g"` produces are not modelled. The formatter is a parameter that is only known to give 1 to 63 characters without a NUL. So when a computed result is read back from the display (as in `5 + 3 = +`), the model's operand is `Parse(format(8))`, not 8. Fifteen-significant-digit rounding is not captured.
- Engine.Calculator.GetDisplayValue: `Parse` reads a sign, digits and one fraction. wcstod's leading white space, exponent part, hexadecimal form, `inf` and `nan` are not read, because none of them can arise from digit entry. Results are only ever re-read through the open formatter.
- The `swprintf` case of output too long for the buffer is excluded by the `Formatter` type, since `"%.15g"` output is far shorter than 63 characters.
- The `if (!calc)` NULL guards of every entry point: a Dafny reference is never null.
- `src/WinCalc.c` is an alternative single-file build with its own engine kept inside a Win32 edit control and with different semantics. It is not part of this model.
- `src/main.c` (window class and message loop) and `src/ui.c` (layout, fonts, `SetWindowTextW`, `MessageBoxW`, the id-to-operator map `Ui_OperatorFromId`) are presentation plumbing. Of `src/ui.c`, only the clear-after-error policy is modelled, in `Scenarios.DivideByZeroThenClear`.
- The digit argument is an unbounded `int`, not a C `int`. This makes no difference, because anything outside 0..9 is rejected first.
