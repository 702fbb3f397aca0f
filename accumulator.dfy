/** The calculator's input accumulator as a value: its operand state, the
    transitions that `clear`, `clearHistory`, `delete`, `appendNumber`,
    `chooseOperation` and `compute` make (script.js:11-92), and the click
    dispatcher that routes a button press to them (script.js:144-163).
    The class in module Script updates its fields exactly as these functions say.
 */
module Accumulator {
  import opened Numbers
  import Digits
  import History

  /** `currentOperand` and `previousOperand` hold text while a number is typed, but
      after a calculation `currentOperand` holds a number (script.js:79), which may
      then move into `previousOperand` (script.js:50). */
  datatype Operand<Num> = Text(s: string) | Computed(v: Num)

  /** The operations `compute` recognises. */
  datatype Op = Add | Subtract | Multiply | Divide

  datatype State<Num> = State(
    current: Operand<Num>,
    previous: Operand<Num>,
    operation: Option<string>,   // None is `undefined`
    readyToReset: bool,
    history: seq<History.Entry<Num>>)

  /** A new state, and whether `showError` was called (script.js:67). */
  datatype Outcome<Num> = Outcome(state: State<Num>, errorCalled: bool)

  /** A button of the keypad, by the data attribute that marks it: `data-number`
      (its label is what gets typed), `data-operator`, `data-action`, or none. */
  datatype Key = Number(text: string) | Operator(name: string) | Action(name: string) | Unmarked

  /** The state the constructor leaves (script.js:6-8). */
  function Initial<Num>(): State<Num>
  {
    State(Text("0"), Text(""), None, false, [])
  }

  /** `operand === ''`: only the empty text; a number is never equal to it. */
  predicate IsEmpty<Num>(o: Operand<Num>)
  {
    o.Text? && o.s == ""
  }

  /** The text `parseFloat` reads from an operand: a number is first turned into text. */
  function OperandText<Num>(a: Arith<Num>, o: Operand<Num>): string
  {
    match o
    case Text(s) => s
    case Computed(v) => a.toText(v)
  }

  function ParseOperand<Num>(a: Arith<Num>, o: Operand<Num>): Option<Num>
  {
    a.parse(OperandText(a, o))
  }

  /** The `switch` of script.js:61-75: any other value, `undefined` included, is
      the default case. */
  function Recognise(name: Option<string>): (r: Option<Op>)
    ensures r.Some? ==> name.Some?
  {
    match name
    case Some("add") => Some(Add)
    case Some("subtract") => Some(Subtract)
    case Some("multiply") => Some(Multiply)
    case Some("divide") => Some(Divide)
    case _ => None
  }

  function Symbol(op: Op): string
  {
    match op
    case Add => "+"
    case Subtract => "-"
    case Multiply => "×"
    case Divide => "÷"
  }

  function Apply<Num>(a: Arith<Num>, op: Op, x: Num, y: Num): Num
  {
    match op
    case Add => a.add(x, y)
    case Subtract => a.subtract(x, y)
    case Multiply => a.multiply(x, y)
    case Divide => a.divide(x, y)
  }

  // ---- clear and clearHistory (script.js:11-21) ----

  /** `clear`: back to the constructor's operands; the history and the reset flag stay. */
  function Cleared<Num>(s: State<Num>): (r: State<Num>)
    ensures r == Initial().(history := s.history, readyToReset := s.readyToReset)
  {
    s.(current := Text("0"), previous := Text(""), operation := None)
  }

  /** `clearHistory`: the history empties and nothing else changes. */
  function HistoryCleared<Num>(s: State<Num>): (r: State<Num>)
    ensures r.history == [] && r.(history := s.history) == s
  {
    s.(history := [])
  }

  // ---- delete (script.js:23-29) ----

  /** `delete`: text of length at most one becomes "0", longer text loses its last
      character. A number has no `length` in JavaScript, so the guard is false for
      it and its text form loses its last character. Only `currentOperand` changes. */
  function Deleted<Num>(a: Arith<Num>, s: State<Num>): (r: State<Num>)
    ensures r == s.(current := r.current) && r.current.Text?
    ensures s.current.Text? && |s.current.s| <= 1 ==> r.current == Text("0")
    ensures s.current.Text? && |s.current.s| > 1 ==>
      r.current.s + [s.current.s[|s.current.s| - 1]] == s.current.s
    ensures s.current.Computed? ==> var txt := OperandText(a, s.current);
      (txt == "" ==> r.current.s == "") && (txt != "" ==> r.current.s + [txt[|txt| - 1]] == txt)
  {
    match s.current
    case Text(t) => s.(current := if |t| <= 1 then Text("0") else Text(Digits.DropLast(t)))
    case Computed(v) => s.(current := Text(Digits.DropLast(a.toText(v))))
  }

  // ---- appendNumber (script.js:31-38) ----

  /** `appendNumber(token)`. None is the TypeError JavaScript throws when a point is
      typed onto a number (a number has no `includes`); nothing changes then. */
  function AppendNumber<Num>(a: Arith<Num>, s: State<Num>, token: string): (r: Option<State<Num>>)
    ensures r.None? <==> token == "." && s.current.Computed?
    ensures r.Some? ==> r.value == s.(current := r.value.current) && r.value.current.Text?
    ensures s.current.Text? && token == "." && '.' in s.current.s ==> r == Some(s)
    ensures s.current == Text("0") && token != "." ==> r == Some(s.(current := Text(token)))
    ensures s.current.Text? && !(token == "." && '.' in s.current.s) && !(s.current.s == "0" && token != ".") ==>
      r == Some(s.(current := Text(s.current.s + token)))
    ensures s.current.Computed? && token != "." ==>
      r == Some(s.(current := Text(a.toText(s.current.v) + token)))
  {
    match s.current
    case Text(t) => Some(s.(current := Text(Digits.AppendToken(t, token))))
    case Computed(v) => if token == "." then None else Some(s.(current := Text(a.toText(v) + token)))
  }

  // ---- compute (script.js:54-83) ----

  /** Both operands parse, a known operation is pending and it is not a division
      by zero: the guards of script.js:58, 65-68 and 73-74 all let `compute` through. */
  predicate Computes<Num>(a: Arith<Num>, s: State<Num>)
  {
    ParseOperand(a, s.previous).Some? && ParseOperand(a, s.current).Some? &&
    Recognise(s.operation).Some? &&
    !(Recognise(s.operation) == Some(Divide) && a.isZero(ParseOperand(a, s.current).value))
  }

  /** The history entry a successful `compute` records. */
  function EntryOf<Num>(a: Arith<Num>, s: State<Num>): History.Entry<Num>
    requires Computes(a, s)
  {
    var left, op, right := ParseOperand(a, s.previous).value, Recognise(s.operation).value, ParseOperand(a, s.current).value;
    History.Entry(left, Symbol(op), right, Apply(a, op, left, right))
  }

  /** `compute`: when the guards let it through, the result rounded to twelve
      significant digits becomes the current operand, the pending operation and
      the left operand are dropped, the next digit will start afresh, and the
      history gains the entry at its head; otherwise nothing changes, and
      `showError` is called exactly when the division guard was the one that stopped it. */
  function Compute<Num>(a: Arith<Num>, s: State<Num>): (r: Outcome<Num>)
    ensures !Computes(a, s) ==> r.state == s
    ensures r.errorCalled <==>
      ParseOperand(a, s.previous).Some? && ParseOperand(a, s.current).Some? &&
      Recognise(s.operation) == Some(Divide) && a.isZero(ParseOperand(a, s.current).value)
    ensures Computes(a, s) ==>
      r.state.current == Computed(a.round12(EntryOf(a, s).result)) &&
      r.state.previous == Text("") && r.state.operation == None && r.state.readyToReset
    ensures Computes(a, s) ==>
      0 < |r.state.history| <= |s.history| + 1 && r.state.history[0] == EntryOf(a, s) &&
      r.state.history[1..] == s.history[..|r.state.history| - 1]
    ensures Computes(a, s) ==> r.state.history == History.Push(s.history, EntryOf(a, s))
    ensures |s.history| <= History.Capacity ==> |r.state.history| <= History.Capacity
  {
    match (ParseOperand(a, s.previous), ParseOperand(a, s.current))
    case (Some(left), Some(right)) =>
      (match Recognise(s.operation)
       case None => Outcome(s, false)
       case Some(op) =>
         if op == Divide && a.isZero(right) then Outcome(s, true)
         else
           var result := Apply(a, op, left, right);
           var entry := History.Entry(left, Symbol(op), right, result);
           Outcome(s.(history := History.Push(s.history, entry),
                      current := Computed(a.round12(result)),
                      operation := None,
                      previous := Text(""),
                      readyToReset := true), false))
    case _ => Outcome(s, false)
  }

  // ---- chooseOperation (script.js:40-52) ----

  /** `chooseOperation(op)`: with no current operand it only re-stages the operator
      (or does nothing when there is no left operand either); otherwise it first
      folds a pending calculation, then moves the current operand to the left and
      stages the operator. */
  function ChooseOperation<Num>(a: Arith<Num>, s: State<Num>, op: string): (r: Outcome<Num>)
    ensures IsEmpty(s.current) && IsEmpty(s.previous) ==> r == Outcome(s, false)
    ensures IsEmpty(s.current) && !IsEmpty(s.previous) ==> r == Outcome(s.(operation := Some(op)), false)
    ensures !IsEmpty(s.current) && IsEmpty(s.previous) ==>
      r == Outcome(s.(previous := s.current, current := Text(""), operation := Some(op)), false)
    ensures !IsEmpty(s.current) ==>
      r.state.current == Text("") && r.state.operation == Some(op) && !IsEmpty(r.state.previous)
    ensures !IsEmpty(s.current) && !IsEmpty(s.previous) ==> r.errorCalled == Compute(a, s).errorCalled
    ensures |s.history| <= History.Capacity ==> |r.state.history| <= History.Capacity
  {
    if IsEmpty(s.current) && !IsEmpty(s.previous) then Outcome(s.(operation := Some(op)), false)
    else if IsEmpty(s.current) then Outcome(s, false)
    else
      var folded := if !IsEmpty(s.previous) then Compute(a, s) else Outcome(s, false);
      var t := folded.state;
      Outcome(t.(operation := Some(op), previous := t.current, current := Text("")), folded.errorCalled)
  }

  // ---- the click dispatcher (script.js:144-163) ----

  /** The pre-step of script.js:148-151: a press of a button that is neither an
      operator nor an action, right after a result, starts a fresh "0". */
  function ResetForEntry<Num>(s: State<Num>, key: Key): (r: State<Num>)
    ensures s.readyToReset && (key.Number? || key.Unmarked?) ==>
      r == s.(current := Text("0"), readyToReset := false)
    ensures !(s.readyToReset && (key.Number? || key.Unmarked?)) ==> r == s
  {
    if s.readyToReset && !key.Operator? && !key.Action? then s.(current := Text("0"), readyToReset := false)
    else s
  }

  /** One button press: the pre-step, then the routing of script.js:153-160. The
      all-clear button clears the history too. None is a press whose handler throws. */
  function Press<Num>(a: Arith<Num>, s: State<Num>, key: Key): (r: Option<Outcome<Num>>)
    ensures (s.current.Computed? ==> s.readyToReset) ==> r.Some?
    ensures key.Number? && s.readyToReset ==>
      r == Some(Outcome(s.(current := Text(Digits.AppendToken("0", key.text)), readyToReset := false), false))
    ensures key == Action("clear") ==>
      r == Some(Outcome(Initial().(readyToReset := s.readyToReset), false))
    ensures key.Number? && !s.readyToReset ==>
      r == match AppendNumber(a, s, key.text) case None => None case Some(u) => Some(Outcome(u, false))
    ensures key.Operator? ==> r == Some(ChooseOperation(a, s, key.name))
    ensures key == Action("equals") ==> r == Some(Compute(a, s))
    ensures key == Action("delete") ==> r == Some(Outcome(Deleted(a, s), false))
    ensures key.Action? && key.name !in {"equals", "clear", "delete"} ==> r == Some(Outcome(s, false))
    ensures key.Unmarked? ==> r == Some(Outcome(ResetForEntry(s, key), false))
  {
    var t := ResetForEntry(s, key);
    match key
    case Number(text) =>
      (match AppendNumber(a, t, text)
       case None => None
       case Some(u) => Some(Outcome(u, false)))
    case Operator(name) => Some(ChooseOperation(a, t, name))
    case Action(name) =>
      if name == "equals" then Some(Compute(a, t))
      else if name == "clear" then Some(Outcome(HistoryCleared(Cleared(t)), false))
      else if name == "delete" then Some(Outcome(Deleted(a, t), false))
      else Some(Outcome(t, false))
    case Unmarked => Some(Outcome(t, false))
  }

  /** The state after a run of presses; a press whose handler throws leaves the
      state as it was. */
  function Run<Num>(a: Arith<Num>, s: State<Num>, keys: seq<Key>): State<Num>
  {
    if keys == [] then s
    else
      var t := Run(a, s, keys[..|keys| - 1]);
      match Press(a, t, keys[|keys| - 1])
      case None => t
      case Some(o) => o.state
  }

  // ---- Invariants of the dispatcher ----

  /** What every reachable state satisfies: the history is within its capacity, a
      number in the current operand is always a fresh result, and current text
      holds at most one decimal point. */
  ghost predicate Invariant<Num>(s: State<Num>)
  {
    |s.history| <= History.Capacity &&
    (s.current.Computed? ==> s.readyToReset) &&
    (s.current.Text? ==> Digits.Points(s.current.s) <= 1)
  }

  /** A keypad label types at most one point, and only as the whole label. */
  predicate LabelTypesOnePoint(key: Key)
  {
    key.Number? ==> key.text == "." || '.' !in key.text
  }

  lemma InitialInvariant<Num>()
    ensures Invariant(Initial<Num>())
  {
  }

  /** Every press keeps the invariant, and so never reaches the TypeError. */
  lemma PressKeepsInvariant<Num(!new)>(a: Arith<Num>, s: State<Num>, key: Key)
    requires WellBehaved(a) && Invariant(s) && LabelTypesOnePoint(key)
    ensures Press(a, s, key).Some? && Invariant(Press(a, s, key).value.state)
  {
    var t := ResetForEntry(s, key);
    ZeroHasNoPoint();
    assert Invariant(t);
    match key {
      case Number(text) =>
        Digits.AppendKeepsOnePoint(t.current.s, text);
      case Operator(name) =>
        ChooseKeepsInvariant(a, t, name);
      case Action(name) =>
        if name == "equals" {
          ComputeKeepsInvariant(a, t);
        } else if name == "delete" {
          DeleteKeepsInvariant(a, t);
        }
      case Unmarked =>
    }
  }

  lemma ZeroHasNoPoint()
    ensures Digits.Points("0") == 0 && Digits.Points("") == 0
  {
    assert multiset("0") == multiset{'0'};
  }

  lemma ComputeKeepsInvariant<Num>(a: Arith<Num>, s: State<Num>)
    requires Invariant(s)
    ensures Invariant(Compute(a, s).state)
  {
  }

  lemma ChooseKeepsInvariant<Num>(a: Arith<Num>, s: State<Num>, op: string)
    requires Invariant(s)
    ensures Invariant(ChooseOperation(a, s, op).state)
  {
    ZeroHasNoPoint();
  }

  lemma DeleteKeepsInvariant<Num(!new)>(a: Arith<Num>, s: State<Num>)
    requires WellBehaved(a) && Invariant(s)
    ensures Invariant(Deleted(a, s))
  {
    ZeroHasNoPoint();
    if !(s.current.Text? && |s.current.s| <= 1) {
      var txt := OperandText(a, s.current);
      assert Digits.Points(txt) <= 1;
      Digits.DropLastAddsNoPoint(txt);
    }
  }

  /** Every run of presses from the constructor's state keeps the invariant. */
  lemma {:induction false} RunKeepsInvariant<Num(!new)>(a: Arith<Num>, keys: seq<Key>)
    requires WellBehaved(a)
    requires forall i :: 0 <= i < |keys| ==> LabelTypesOnePoint(keys[i])
    ensures Invariant(Run(a, Initial(), keys))
  {
    if keys != [] {
      var init := keys[..|keys| - 1];
      RunKeepsInvariant(a, init);
      PressKeepsInvariant(a, Run(a, Initial(), init), keys[|keys| - 1]);
    }
  }

  // ---- Partners: how the operations relate ----

  /** `delete` undoes the `appendNumber` of one character that was accepted onto
      non-empty text. */
  lemma DeleteUndoesAppend<Num>(a: Arith<Num>, s: State<Num>, k: char)
    requires s.current.Text? && s.current.s != ""
    requires !(k == '.' && '.' in s.current.s)
    ensures AppendNumber(a, s, [k]).Some?
    ensures Deleted(a, AppendNumber(a, s, [k]).value) == s
  {
    var t := s.current.s;
    if t == "0" && k != '.' {
      assert AppendNumber(a, s, [k]).value.current == Text([k]);
    } else {
      assert AppendNumber(a, s, [k]).value.current == Text(t + [k]);
      assert (t + [k])[..|t + [k]| - 1] == t;
    }
  }

  /** Choosing one operator and then another leaves the same state as choosing
      only the second: the second choice just re-stages the operator. */
  lemma ChooseTwiceLastWins<Num>(a: Arith<Num>, s: State<Num>, op1: string, op2: string)
    ensures ChooseOperation(a, ChooseOperation(a, s, op1).state, op2).state == ChooseOperation(a, s, op2).state
  {
  }

  /** Choosing an operator while a calculation is pending stages its rounded
      result as the new left operand, with the history entry recorded. */
  lemma FoldStagesResult<Num>(a: Arith<Num>, s: State<Num>, op: string)
    requires !IsEmpty(s.current) && !IsEmpty(s.previous) && Computes(a, s)
    ensures ChooseOperation(a, s, op) ==
      Outcome(Compute(a, s).state.(previous := Computed(a.round12(EntryOf(a, s).result)),
                                   current := Text(""), operation := Some(op)), false)
    ensures ChooseOperation(a, s, op).state.history[0] == EntryOf(a, s)
  {
  }

  /** When the pending calculation cannot be folded (an operand does not parse, the
      operation is unknown, or it divides by zero), choosing an operator still moves
      the current operand to the left: the old left operand is lost. */
  lemma FailedFoldDropsLeft<Num>(a: Arith<Num>, s: State<Num>, op: string)
    requires !IsEmpty(s.current) && !IsEmpty(s.previous) && !Computes(a, s)
    ensures ChooseOperation(a, s, op).state ==
      s.(previous := s.current, current := Text(""), operation := Some(op))
    ensures ChooseOperation(a, s, op).errorCalled == Compute(a, s).errorCalled
  {
  }

  /** `compute` twice in a row does what one `compute` does: after a result no left
      operand is left to parse. */
  lemma ComputeIdempotent<Num>(a: Arith<Num>, s: State<Num>)
    requires a.parse("").None?
    ensures Compute(a, Compute(a, s).state).state == Compute(a, s).state
    ensures Computes(a, s) ==> Compute(a, Compute(a, s).state) == Outcome(Compute(a, s).state, false)
  {
  }

  /** After `clear` there is nothing to compute. */
  lemma ClearedComputesNothing<Num>(a: Arith<Num>, s: State<Num>)
    requires a.parse("").None?
    ensures Compute(a, Cleared(s)) == Outcome(Cleared(s), false)
  {
  }

  /** A number in the current operand is not protected by `delete`'s length guard:
      a one-character result such as 8 leaves the empty text, not "0". */
  lemma DeleteOfShortResultLeavesEmpty<Num>(a: Arith<Num>, s: State<Num>)
    requires s.current.Computed? && |a.toText(s.current.v)| == 1
    ensures Deleted(a, s).current == Text("")
  {
  }

  /** Typing digits and points after a fresh "0" (or after choosing an operator)
      leaves the numeral of the keys: later points dropped, leading zeros
      suppressed, at most one point. */
  lemma TypingBuildsNumeral<Num>(a: Arith<Num>, s: State<Num>, keys: seq<char>)
    requires s.current == Text("0") || s.current == Text("")
    ensures TypeKeys(a, s, keys) == s.(current := Text(Digits.Numeral(s.current.s + keys)))
    ensures Digits.Points(TypeKeys(a, s, keys).current.s) <= 1
  {
    TypeKeysIsTyped(a, s, keys);
    Digits.TypedHasOnePointAtMost(s.current.s, keys);
  }

  /** The state after `appendNumber` of each key in turn onto text. */
  function TypeKeys<Num>(a: Arith<Num>, s: State<Num>, keys: seq<char>): (r: State<Num>)
    requires s.current.Text?
    ensures r.current.Text?
  {
    if keys == [] then s
    else AppendNumber(a, TypeKeys(a, s, keys[..|keys| - 1]), [keys[|keys| - 1]]).value
  }

  lemma {:induction false} TypeKeysIsTyped<Num>(a: Arith<Num>, s: State<Num>, keys: seq<char>)
    requires s.current.Text?
    ensures TypeKeys(a, s, keys) == s.(current := Text(Digits.Typed(s.current.s, keys)))
  {
    if keys != [] {
      TypeKeysIsTyped(a, s, keys[..|keys| - 1]);
    }
  }

  // ---- Worked examples ----

  lemma RunSnoc<Num>(a: Arith<Num>, s: State<Num>, keys: seq<Key>, k: Key)
    ensures Run(a, s, keys + [k]) ==
      match Press(a, Run(a, s, keys), k) case None => Run(a, s, keys) case Some(o) => o.state
  {
    assert (keys + [k])[..|keys|] == keys;
  }

  /** 5 + 3 = leaves the rounded sum as a number and one history entry. */
  lemma FivePlusThree<Num>(a: Arith<Num>, five: Num, three: Num)
    requires a.parse("5") == Some(five) && a.parse("3") == Some(three)
    ensures Run(a, Initial(), [Number("5"), Operator("add"), Number("3"), Action("equals")]) ==
      State(Computed(a.round12(a.add(five, three))), Text(""), None, true,
            [History.Entry(five, "+", three, a.add(five, three))])
  {
    var s0 := Initial<Num>();
    var s1 := s0.(current := Text("5"));
    var s2 := State(Text(""), Text("5"), Some("add"), false, []);
    var s3 := s2.(current := Text("3"));
    var s4 := State(Computed(a.round12(a.add(five, three))), Text(""), None, true,
                    [History.Entry(five, "+", three, a.add(five, three))]);
    assert Press(a, s0, Number("5")) == Some(Outcome(s1, false)) by {
      assert Digits.AppendToken("0", "5") == "5";
    }
    assert Press(a, s1, Operator("add")) == Some(Outcome(s2, false));
    assert Press(a, s2, Number("3")) == Some(Outcome(s3, false)) by {
      assert Digits.AppendToken("", "3") == "3";
    }
    assert Press(a, s3, Action("equals")) == Some(Outcome(s4, false)) by {
      assert Computes(a, s3) && EntryOf(a, s3) == History.Entry(five, "+", three, a.add(five, three));
      assert History.Push([], EntryOf(a, s3)) == [EntryOf(a, s3)];
    }
    RunSteps(a, s0, Number("5"), Operator("add"), Number("3"), Action("equals"));
  }

  /** The state after three and after four presses, one at a time. */
  lemma RunSteps<Num>(a: Arith<Num>, s: State<Num>, k1: Key, k2: Key, k3: Key, k4: Key)
    requires Press(a, s, k1).Some?
    requires Press(a, Press(a, s, k1).value.state, k2).Some?
    requires Press(a, Press(a, Press(a, s, k1).value.state, k2).value.state, k3).Some?
    ensures Run(a, s, [k1, k2, k3]) == Press(a, Press(a, Press(a, s, k1).value.state, k2).value.state, k3).value.state
    ensures Run(a, s, [k1, k2, k3, k4]) ==
      match Press(a, Run(a, s, [k1, k2, k3]), k4) case None => Run(a, s, [k1, k2, k3]) case Some(o) => o.state
  {
    RunSnoc(a, s, [], k1);
    assert [] + [k1] == [k1];
    RunSnoc(a, s, [k1], k2);
    assert [k1] + [k2] == [k1, k2];
    RunSnoc(a, s, [k1, k2], k3);
    assert [k1, k2] + [k3] == [k1, k2, k3];
    RunSnoc(a, s, [k1, k2, k3], k4);
    assert [k1, k2, k3] + [k4] == [k1, k2, k3, k4];
  }

  /** 7 ÷ 0 = calls `showError` and changes nothing. */
  lemma SevenDividedByZero<Num>(a: Arith<Num>, seven: Num, zero: Num)
    requires a.parse("7") == Some(seven) && a.parse("0") == Some(zero) && a.isZero(zero)
    ensures var s := Run(a, Initial(), [Number("7"), Operator("divide"), Number("0")]);
      s == State(Text("0"), Text("7"), Some("divide"), false, []) &&
      Press(a, s, Action("equals")) == Some(Outcome(s, true))
  {
    var s0 := Initial<Num>();
    var s1 := s0.(current := Text("7"));
    var s2 := State(Text(""), Text("7"), Some("divide"), false, []);
    var s3 := s2.(current := Text("0"));
    assert Press(a, s0, Number("7")) == Some(Outcome(s1, false)) by {
      assert Digits.AppendToken("0", "7") == "7";
    }
    assert Press(a, s1, Operator("divide")) == Some(Outcome(s2, false));
    assert Press(a, s2, Number("0")) == Some(Outcome(s3, false)) by {
      assert Digits.AppendToken("", "0") == "0";
    }
    assert Press(a, s3, Action("equals")) == Some(Outcome(s3, true)) by {
      assert ParseOperand(a, s3.previous) == Some(seven) && ParseOperand(a, s3.current) == Some(zero);
      assert Recognise(s3.operation) == Some(Divide);
    }
    RunSteps(a, s0, Number("7"), Operator("divide"), Number("0"), Action("equals"));
  }

  /** 1 . . types "1.": the second point is refused. */
  lemma SecondPointRefused<Num>(a: Arith<Num>)
    ensures Run(a, Initial(), [Number("1"), Number("."), Number(".")]).current == Text("1.")
  {
    var s0 := Initial<Num>();
    var s1 := s0.(current := Text("1"));
    var s2 := s0.(current := Text("1."));
    assert Press(a, s0, Number("1")) == Some(Outcome(s1, false)) by {
      assert Digits.AppendToken("0", "1") == "1";
    }
    assert Press(a, s1, Number(".")) == Some(Outcome(s2, false)) by {
      assert Digits.AppendToken("1", ".") == "1.";
    }
    assert Press(a, s2, Number(".")) == Some(Outcome(s2, false)) by {
      assert '.' in "1.";
    }
    RunSteps(a, s0, Number("1"), Number("."), Number("."), Unmarked);
  }
}
