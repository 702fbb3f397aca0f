/** The `Calculator` class of script.js and its click dispatcher: fields updated in
    place, one method per method of the source. Each method's postcondition ties
    the new fields to the matching transition function of module Accumulator,
    where the properties of those transitions are proved.
 */
module Script {
  import opened Numbers
  import opened Accumulator
  import History
  import Digits

  class Calculator<Num(!new)> {
    /** The number builtins this calculator computes with. */
    const arith: Arith<Num>

    var currentOperand: Operand<Num>
    var previousOperand: Operand<Num>
    var operation: Option<string>
    var readyToReset: bool
    /** Most recent first. */
    var history: seq<History.Entry<Num>>

    /** The fields as one value. */
    function Snapshot(): Accumulator.State<Num>
      reads this
    {
      Accumulator.State(currentOperand, previousOperand, operation, readyToReset, history)
    }

    /** The fields satisfy what every press of the keypad keeps. */
    ghost predicate Valid()
      reads this
    {
      Invariant(Snapshot())
    }

    /** script.js:2-9, without the display elements. */
    constructor (arith: Arith<Num>)
      ensures this.arith == arith
      ensures Snapshot() == Initial() && Valid()
    {
      this.arith := arith;
      history := [];
      readyToReset := false;
      new;
      Clear();
      InitialInvariant<Num>();
    }

    method Clear()
      modifies this`currentOperand, this`previousOperand, this`operation
      ensures Snapshot() == Cleared(old(Snapshot()))
    {
      currentOperand := Text("0");
      previousOperand := Text("");
      operation := None;
    }

    method ClearHistory()
      modifies this`history
      ensures Snapshot() == HistoryCleared(old(Snapshot()))
    {
      history := [];
    }

    method Delete()
      modifies this`currentOperand
      ensures Snapshot() == Deleted(arith, old(Snapshot()))
    {
      // a number has no length, so only text can pass the guard
      if currentOperand.Text? && |currentOperand.s| <= 1 {
        currentOperand := Text("0");
      } else {
        currentOperand := Text(Digits.DropLast(OperandText(arith, currentOperand)));
      }
    }

    /** Returns whether JavaScript would throw (a point typed onto a number). */
    method AppendNumber(token: string) returns (threw: bool)
      modifies this`currentOperand
      ensures threw <==> Accumulator.AppendNumber(arith, old(Snapshot()), token).None?
      ensures Snapshot() == if threw then old(Snapshot()) else Accumulator.AppendNumber(arith, old(Snapshot()), token).value
    {
      threw := false;
      if token == "." {
        if currentOperand.Computed? {
          threw := true;
          return;
        }
        if '.' in currentOperand.s {
          return;
        }
      }
      if currentOperand.Text? && currentOperand.s == "0" && token != "." {
        currentOperand := Text(token);
      } else {
        currentOperand := Text(OperandText(arith, currentOperand) + token);
      }
    }

    /** Returns whether the fold of a pending division by zero called `showError`. */
    method ChooseOperation(op: string) returns (errorCalled: bool)
      modifies this
      ensures Outcome(Snapshot(), errorCalled) == Accumulator.ChooseOperation(arith, old(Snapshot()), op)
    {
      errorCalled := false;
      if IsEmpty(currentOperand) && !IsEmpty(previousOperand) {
        operation := Some(op);
        return;
      }
      if IsEmpty(currentOperand) {
        return;
      }
      if !IsEmpty(previousOperand) {
        errorCalled := Compute();
      }
      operation := Some(op);
      previousOperand := currentOperand;
      currentOperand := Text("");
    }

    /** Returns whether `showError` was called. */
    method Compute() returns (errorCalled: bool)
      modifies this
      ensures Outcome(Snapshot(), errorCalled) == Accumulator.Compute(arith, old(Snapshot()))
    {
      errorCalled := false;
      var prev := ParseOperand(arith, previousOperand);
      var current := ParseOperand(arith, currentOperand);
      if prev.None? || current.None? {
        return;
      }
      var op := Recognise(operation);
      if op.None? {
        return;
      }
      if op.value == Divide && arith.isZero(current.value) {
        errorCalled := true;
        return;
      }
      var computation := Apply(arith, op.value, prev.value, current.value);
      AddHistoryEntry(prev.value, Symbol(op.value), current.value, computation);
      currentOperand := Computed(arith.round12(computation));
      operation := None;
      previousOperand := Text("");
      readyToReset := true;
    }

    method AddHistoryEntry(prev: Num, op: string, curr: Num, result: Num)
      modifies this`history
      ensures history == History.Push(old(history), History.Entry(prev, op, curr, result))
      ensures old(|history|) <= History.Capacity ==> |history| <= History.Capacity
    {
      history := [History.Entry(prev, op, curr, result)] + history;
      if |history| > History.Capacity {
        history := history[..|history| - 1];
      }
    }

    /** One click on the keypad (script.js:144-163). Returns whether the handler
        threw and whether `showError` was called; a valid calculator never throws. */
    method Press(key: Key) returns (threw: bool, errorCalled: bool)
      modifies this
      ensures Accumulator.Press(arith, old(Snapshot()), key) ==
        if threw then None else Some(Outcome(Snapshot(), errorCalled))
      ensures threw ==> Snapshot() == old(Snapshot())
      ensures old(Valid()) ==> !threw
      ensures old(Valid()) && WellBehaved(arith) && LabelTypesOnePoint(key) ==> Valid()
    {
      ghost var before := Snapshot();
      if Valid() && WellBehaved(arith) && LabelTypesOnePoint(key) {
        PressKeepsInvariant(arith, before, key);
      }
      threw, errorCalled := false, false;
      if readyToReset && !key.Operator? && !key.Action? {
        currentOperand := Text("0");
        readyToReset := false;
      }
      match key {
        case Number(text) =>
          threw := AppendNumber(text);
        case Operator(name) =>
          errorCalled := ChooseOperation(name);
        case Action(name) =>
          if name == "equals" {
            errorCalled := Compute();
          } else if name == "clear" {
            Clear();
            ClearHistory();
          } else if name == "delete" {
            Delete();
          }
        case Unmarked =>
      }
    }
  }

  /** A client that knows the calculator only by its contracts: 5 + 3 = on a
      fresh calculator records one entry and leaves the rounded sum. */
  method FivePlusThreeOnCalculator<Num(!new)>(a: Arith<Num>, five: Num, three: Num)
    requires a.parse("5") == Some(five) && a.parse("3") == Some(three)
  {
    var c := new Calculator(a);
    var threw, error := c.Press(Number("5"));
    assert c.Snapshot() == Initial().(current := Text("5"));
    threw, error := c.Press(Operator("add"));
    assert c.Snapshot() == Accumulator.State(Text(""), Text("5"), Some("add"), false, []);
    threw, error := c.Press(Number("3"));
    assert c.Snapshot() == Accumulator.State(Text("3"), Text("5"), Some("add"), false, []);
    assert Computes(a, c.Snapshot());
    threw, error := c.Press(Action("equals"));
    assert !threw && !error;
    assert c.history == [History.Entry(five, "+", three, a.add(five, three))];
    assert c.currentOperand == Computed(a.round12(a.add(five, three)));
  }
}
