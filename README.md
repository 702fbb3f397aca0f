# Calculator input accumulator, in Dafny

This project models the core of a browser calculator widget: the `Calculator` class of
`script.js` and the click handler that drives it. The calculator keeps:

- a current operand, a previous (left) operand, a pending operation name and a
  `readyToReset` flag;
- a history of completed calculations, most recent first, capped at 20 entries.

Its methods type digits and points (`appendNumber`), erase (`delete`), stage or
re-stage an operator (`chooseOperation`), calculate (`compute`, which records the
history entry), and reset (`clear`, `clearHistory`). The click handler resets the
current operand before a digit that follows a result. It then routes each button
to one of these methods.

Files:

- `numbers.dfy` (module `Numbers`): the JavaScript number builtins the calculator
  calls, kept abstract as the fields of an `Arith<Num>` record. These are
  `parseFloat`, `Number.prototype.toString`, `+ - * /`, the `=== 0` test and
  `parseFloat(x.toPrecision(12))`. The number domain `Num` is a type parameter,
  so every result holds for any arithmetic. The predicate `WellBehaved` names the
  only two facts some proofs rely on: `parseFloat('')` is NaN, and a number's text
  form holds at most one decimal point.
- `digits.dfy` (module `Digits`): the text side of entry. It also gives an
  independent description of the text a run of keys produces: every point after
  the first dropped, leading zeros suppressed. It proves that typing gives exactly
  that text.
- `history.dfy` (module `History`): the entry record, the push-and-cap step, and
  what a run of calculations leaves in the history.
- `accumulator.dfy` (module `Accumulator`): the operand state as a value. It holds
  one transition function per method and one for a button press, the invariant
  that presses keep, and the lemmas that relate the operations.
- `calculator.dfy` (module `Script`): the class `Calculator`, whose methods update
  its fields in place as the source does. Each method's postcondition equates the
  new fields with the matching transition function applied to the old fields.

The operands are `Operand<Num> = Text(s) | Computed(v)`. After a calculation,
`script.js:79` stores a number, not text, in `currentOperand`. The model keeps the
JavaScript consequences of that:

- `delete` on a number skips the length guard, because a number has no `length`.
  It drops the last character of the number's text, so a one-digit result leaves
  the empty text, not "0" (`DeleteOfShortResultLeavesEmpty`).
- Typing a point onto a number would throw a TypeError, because a number has no
  `includes`. The invariant proves that the click handler never gets there.

The model follows the code, including these behaviours:

- After `5 + 3 =` the current operand is the number 8, not the text "8".
- The history entry records the unrounded result. The code passes `computation`,
  not the value rounded to 12 digits, to `addHistoryEntry`.
- `chooseOperation` on a pending calculation stores the current operand as the new
  left operand even when the fold fails. A failed fold is an unparsable operand,
  an unknown operation or a division by zero. The old left operand is then lost
  (`FailedFoldDropsLeft`).
- `clear` leaves `readyToReset` as it was.

## Model

| member | source | states |
|---|---|---|
| `Digits.AppendToken` | script.js:32-37 | Typing onto text gives the text itself, the token, or text plus token. |
| `Digits.AppendKeepsOnePoint` | script.js:32-37 | If the text has at most one point and the token is a lone point or has none, the text after typing has at most one point. |
| `Digits.DropLast` | script.js:27 | `slice(0, -1)`: the result plus the removed last character is the input. The empty text stays empty. |
| `Digits.DropLastAddsNoPoint` | script.js:27 | Erasing the last character never adds a decimal point. |
| `Digits.TypedIsNumeral` | script.js:31-38 | Typing keys one by one onto numeral text gives the numeral of all the text typed. That is every point after the first dropped and leading zeros suppressed. Proved by induction against the independent definition `Numeral`. |
| `Digits.TypedHasOnePointAtMost` | script.js:32-37 | From "0", or from the empty text left by choosing an operator, any run of keys leaves at most one decimal point. |
| `History.Push` | script.js:85-90 | The new entry is at index 0. The old entries follow in order. The length grows by one until it reaches 20, then stays, because the oldest entry is dropped. A history within the cap stays within it. |
| `History.PushAllKeepsNewest` | script.js:87-90 | After any run of calculations the history is the new entries newest first, then the old history, cut to 20. |
| `History.TwentyOneCalculations` | script.js:87-90 | After 21 calculations on an empty history it holds 20 entries. The first is the 21st result, and the first calculation is gone. |
| `Accumulator.Cleared` | script.js:11-16 | `clear` returns the operands to the constructor's state. It keeps the history and `readyToReset`. |
| `Accumulator.HistoryCleared` | script.js:18-21 | `clearHistory` empties the history and changes nothing else. |
| `Accumulator.Deleted` | script.js:23-29 | Only the current operand changes, and it becomes text. Text of length ≤ 1 becomes "0". Longer text loses exactly its last character. A number loses the last character of its text form, with no length guard. |
| `Accumulator.AppendNumber` | script.js:31-38 | A point onto text that already holds one changes nothing. A non-point token replaces a lone "0". Anything else is appended to the text. A non-point token typed onto a number is appended to the number's text form. Only the current operand changes. A point typed onto a number is the TypeError (None). |
| `Accumulator.Compute` | script.js:54-83 | If either operand fails to parse, the operation is unknown, or it is a division by zero, nothing changes. `showError` is called exactly in the division-by-zero case. Otherwise the rounded result becomes the current operand (a number). The left operand becomes '', the operation becomes absent and `readyToReset` becomes true. The new history is `History.Push` of the entry (left, symbol, right, unrounded result): all old entries kept in order behind it, only the oldest dropped past 20. |
| `Accumulator.ChooseOperation` | script.js:40-52 | With both operands empty: no-op. With only the left operand: only the operation is replaced. With only the current operand: it moves to the left, the current becomes '' and the operator is recorded. After a non-empty current operand the left operand is always non-empty. With both operands present, `showError` is called exactly when the fold's `compute` calls it. The history stays within its cap. |
| `Accumulator.ResetForEntry` | script.js:148-151 | After a result, a digit or unmarked button first resets the current operand to "0" and clears `readyToReset`. Operator and action buttons do not. |
| `Accumulator.Press` | script.js:144-163 | A press never throws while a number in the current operand implies `readyToReset`. A digit after a result types onto a fresh "0"; any other digit runs `appendNumber`. An operator runs `chooseOperation`, equals runs `compute`, delete runs `delete`, all-clear resets the operands and empties the history. Any other action changes nothing; an unmarked button only does the reset pre-step. |
| `Accumulator.InitialInvariant` | script.js:6-8 | The constructor's state satisfies the invariant. |
| `Accumulator.PressKeepsInvariant` | script.js:144-163 | Every press keeps the invariant: history ≤ 20, a number in the current operand only right after a result, at most one point in current text. So no press throws. |
| `Accumulator.ComputeKeepsInvariant` | script.js:54-83 | `compute` keeps the invariant. |
| `Accumulator.ChooseKeepsInvariant` | script.js:40-52 | `chooseOperation` keeps the invariant. |
| `Accumulator.DeleteKeepsInvariant` | script.js:23-29 | `delete` keeps the invariant, given that a number's text has at most one point. |
| `Accumulator.RunKeepsInvariant` | script.js:144-163 | Every run of presses from the constructor's state satisfies the invariant. |
| `Accumulator.DeleteUndoesAppend` | script.js:23-37 | `delete` undoes an accepted one-character `appendNumber` onto non-empty text. |
| `Accumulator.ChooseTwiceLastWins` | script.js:40-52 | Choosing one operator and then another leaves the same state as choosing only the second. |
| `Accumulator.FoldStagesResult` | script.js:46-51 | Choosing an operator while a calculation is pending and computable records the entry. It stages the rounded result as the new left operand, with the new operator and an empty current operand. |
| `Accumulator.FailedFoldDropsLeft` | script.js:46-51 | If the pending calculation cannot be folded, the current operand replaces the old left operand. `showError` is called exactly when that `compute` calls it, the division by zero. |
| `Accumulator.ComputeIdempotent` | script.js:56-58 | A second `compute` right after the first changes nothing. After a result it does not call `showError` either. |
| `Accumulator.ClearedComputesNothing` | script.js:11-16 | After `clear` there is nothing to compute, and `showError` is not called. |
| `Accumulator.DeleteOfShortResultLeavesEmpty` | script.js:24-27 | `delete` on a number whose text is one character leaves the empty text. |
| `Accumulator.TypingBuildsNumeral` | script.js:31-38 | From "0" or '', typing keys leaves the numeral of the keys, with at most one point. Nothing but the current operand changes. |
| `Accumulator.FivePlusThree` | script.js:144-163 | 5 + 3 = on a new calculator leaves the rounded sum as a number, with the single history entry (5, "+", 3, sum). |
| `Accumulator.SevenDividedByZero` | script.js:65-68 | 7 ÷ 0 = calls `showError` and leaves operands, operation and history unchanged. |
| `Accumulator.SecondPointRefused` | script.js:32 | 1 . . leaves "1.". |
| `Script.Calculator.constructor` | script.js:2-9 | A new calculator is in the initial state: "0", '', no operation, not ready to reset, empty history. It satisfies the invariant. |
| `Script.Calculator.Clear` | script.js:11-16 | Updates only the three operand fields, as `Accumulator.Cleared`. |
| `Script.Calculator.ClearHistory` | script.js:18-21 | Updates only `history`, as `Accumulator.HistoryCleared`. |
| `Script.Calculator.Delete` | script.js:23-29 | Updates only `currentOperand`, as `Accumulator.Deleted`. |
| `Script.Calculator.AppendNumber` | script.js:31-38 | Updates only `currentOperand`, as `Accumulator.AppendNumber`. It reports the TypeError case and then leaves the state unchanged. |
| `Script.Calculator.ChooseOperation` | script.js:40-52 | New fields and error flag as `Accumulator.ChooseOperation`. It calls `Compute` for the fold, as the source does. |
| `Script.Calculator.Compute` | script.js:54-83 | New fields and error flag as `Accumulator.Compute`. It records the entry through `AddHistoryEntry`. |
| `Script.Calculator.AddHistoryEntry` | script.js:85-92 | Updates only `history`: unshift, then one pop past 20, as `History.Push`. The cap is kept. |
| `Script.Calculator.Press` | script.js:144-163 | New fields as `Accumulator.Press`. A throwing press changes nothing. A valid calculator never throws. With well-behaved numbers and keypad labels, every press keeps `Valid()`. |

## Left out

- Display rendering (`updateDisplay`, `updateHistoryDisplay`, the font-size thresholds at 9 and 18 characters): browser output only.
- `getDisplayNumber` and the history entry's text: they rely on `toLocaleString`. A history entry is the record of the values handed to `addHistoryEntry`, not its rendered string.
- `showError`: the "Error" text is display output, and the 1.5-second timer that calls `clear` is asynchronous. The "Error" text never stays visible: every click that calls `showError` (script.js:126) ends with `updateDisplay` (script.js:162), which overwrites it at once. The model returns an `errorCalled` flag and does not model the deferred `clear`. So it does not capture that the timer, never cancelled, wipes input typed within 1.5 seconds of the error.
- IEEE double arithmetic, `parseFloat`, `toString` and `toPrecision(12)`: floating-point. They are parameters. The proofs use only that `parseFloat('')` is NaN and that a number's text has at most one point, and only where stated.
- Accumulator.Compute: states the result only through the abstract operations. Facts about its value, such as the rounded sum of 5 and 3 being 8, are not modelled.
- Theme switching, `localStorage`, DOM element selection and listener wiring: browser plumbing. The clear-history button's listener (script.js:165-167) only calls `clearHistory`, which is modelled.
- Clicks that are not on a button are ignored by the handler. A button is modelled by the one data attribute that marks it. Buttons carrying several of `data-number`, `data-operator`, `data-action`, and attribute values that are empty strings, are not modelled.
- A thrown TypeError is modelled as a press that changes nothing. The display refresh that the throw skips is not modelled.
