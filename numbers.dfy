/** The JavaScript number facilities the calculator leans on, kept abstract.

    The calculator never looks inside a number: it parses operand text with
    `parseFloat`, tests the right operand against zero before dividing, applies
    one of four IEEE operations, rounds the result through
    `parseFloat(x.toPrecision(12))` and, when an operand holds a number rather
    than text, turns it back into text with `Number.prototype.toString`. All of
    these are fields of an `Arith` record over an arbitrary number domain `Num`,
    so that every fact proved here holds for whatever those builtins compute.
 */
module Numbers {

  datatype Option<+T> = None | Some(value: T)

  /** The number builtins, over a number domain `Num`. */
  datatype Arith<!Num> = Arith(
    parse: string -> Option<Num>,   // parseFloat; None is the NaN result that isNaN rejects
    toText: Num -> string,          // Number.prototype.toString
    add: (Num, Num) -> Num,         // +
    subtract: (Num, Num) -> Num,    // -
    multiply: (Num, Num) -> Num,    // *
    divide: (Num, Num) -> Num,      // /
    isZero: Num -> bool,            // x === 0
    round12: Num -> Num             // parseFloat(x.toPrecision(12))
  )

  /** The two facts of JavaScript numbers that the calculator's behaviour depends on:
      `parseFloat('')` is NaN, and a number's text form never holds more than one
      decimal point ("1.5", "1e+21", "1.5e-7"). */
  ghost predicate WellBehaved<Num(!new)>(a: Arith<Num>)
  {
    a.parse("").None? &&
    forall v :: multiset(a.toText(v))['.'] <= 1
  }
}
