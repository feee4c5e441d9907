/**
 * The Calculator app: the display string, the pending operand and operator,
 * the "waiting for operand" flag and the memory register.
 *
 * Numbers are exact reals here. `parseFloat` and `String` are not part of
 * this model: they are two functions given to the calculator when it is
 * made, and the only property required of `String` is that it writes at most one
 * '.'.
 */
module Calculator {
  import opened Wrappers
  import opened Decimal

  /** The four operator buttons, and '=' as `calculate` passes it. */
  datatype Op = Add | Sub | Mul | Div | Equals

  /** The number of '.' in a string. */
  function Dots(s: string): nat {
    if s == [] then 0 else Dots(s[..|s| - 1]) + (if s[|s| - 1] == '.' then 1 else 0)
  }

  lemma DotsSingle(s: string)
    requires |s| == 1
    ensures Dots(s) == if s[0] == '.' then 1 else 0
  {
    assert s[..0] == [];
  }

  lemma {:induction false} NoDots(s: string)
    ensures Dots(s) == 0 <==> '.' !in s
    decreases |s|
  {
    if s != [] {
      NoDots(s[..|s| - 1]);
      assert s == s[..|s| - 1] + [s[|s| - 1]];
      assert forall c :: c in s <==> c in s[..|s| - 1] || c == s[|s| - 1];
    }
  }

  /**
   * The text typed since an operator or a clear: a digit first, then digits
   * and at most one '.', and no leading zero except in front of the point.
   */
  predicate Numeral(s: string) {
    && |s| > 0
    && IsDigit(s[0])
    && (forall i :: 0 <= i < |s| ==> IsDigit(s[i]) || s[i] == '.')
    && Dots(s) <= 1
    && (s[0] == '0' && |s| > 1 ==> s[1] == '.')
  }

  /** `inputDigit` while not waiting: a lone '0' is replaced, anything else is extended. */
  function EnterDigit(display: string, digit: char): string {
    if display == "0" then [digit] else display + [digit]
  }

  /** `inputDecimal` while not waiting: a '.' is appended unless there already is one. */
  function EnterDecimal(display: string): string {
    if '.' in display then display else display + ['.']
  }

  /** Digit entry keeps the display a numeral. */
  lemma EnterDigitNumeral(display: string, digit: char)
    requires Numeral(display) && IsDigit(digit)
    ensures Numeral(EnterDigit(display, digit))
    ensures Dots(EnterDigit(display, digit)) == Dots(display)
  {
    DotsSingle([digit]);
    if display != "0" {
      assert (display + [digit])[..|display|] == display;
    }
  }

  /** Decimal entry keeps the display a numeral, and leaves it with exactly one '.'. */
  lemma EnterDecimalNumeral(display: string)
    requires Numeral(display)
    ensures Numeral(EnterDecimal(display))
    ensures Dots(EnterDecimal(display)) == 1
    ensures '.' in display ==> EnterDecimal(display) == display
  {
    NoDots(display);
    if '.' !in display {
      var s := display + ['.'];
      assert s[..|display|] == display;
      assert s[0] == display[0];
      assert |display| > 1 ==> display[1] in display;
    }
  }

  /** The entry keys: a digit button or the '.' button. */
  datatype Key = Digit(d: char) | Point

  predicate DigitKeys(keys: seq<Key>) {
    forall i :: 0 <= i < |keys| ==> keys[i].Digit? ==> IsDigit(keys[i].d)
  }

  /** The display after typing `keys` on top of `display`, with no operator in between. */
  function Typed(display: string, keys: seq<Key>): string
    decreases |keys|
  {
    if keys == [] then display
    else
      var last := keys[|keys| - 1];
      var before := Typed(display, keys[..|keys| - 1]);
      match last
      case Digit(d) => EnterDigit(before, d)
      case Point => EnterDecimal(before)
  }

  /**
   * However the digit and '.' buttons are pressed after a clear, the display
   * stays a numeral: in particular it never holds two '.'.
   */
  lemma {:induction false} TypedNumeral(display: string, keys: seq<Key>)
    requires Numeral(display) && DigitKeys(keys)
    ensures Numeral(Typed(display, keys))
    decreases |keys|
  {
    if keys != [] {
      var before := Typed(display, keys[..|keys| - 1]);
      TypedNumeral(display, keys[..|keys| - 1]);
      match keys[|keys| - 1]
      case Digit(d) => EnterDigitNumeral(before, d);
      case Point => EnterDecimalNumeral(before);
    }
  }

  /** The arithmetic of `performOperation`; division by zero gives 0, and '=' gives the input. */
  function Compute(op: Op, current: real, input: real): (result: real)
    ensures op == Add ==> result - input == current
    ensures op == Sub ==> result + input == current
    ensures op == Mul ==> result == current * input
    ensures op == Div && input != 0.0 ==> result * input == current
    ensures op == Div && input == 0.0 ==> result == 0.0
    ensures op == Equals ==> result == input
  {
    match op
    case Add => current + input
    case Sub => current - input
    case Mul => current * input
    case Div => if input != 0.0 then current / input else 0.0
    case Equals => input
  }

  class Calc {
    /** `parseFloat` and `String` on numbers. */
    const parse: string -> real
    const show: real -> string

    var display: string
    var previousValue: Option<real>
    var operation: Option<Op>
    var waitingForOperand: bool
    var memory: real

    /**
     * The display never holds two '.', and an operand is pending exactly
     * when an operator is (`calculate` clears both, so '=' is never left pending).
     */
    ghost predicate Valid()
      reads this
    {
      && (forall v :: Dots(show(v)) <= 1)
      && Dots(display) <= 1
      && (previousValue.Some? <==> operation.Some?)
      && operation != Some(Equals)
    }

    constructor(parse: string -> real, show: real -> string)
      requires forall v :: Dots(show(v)) <= 1
      ensures Valid()
      ensures this.parse == parse && this.show == show
      ensures display == "0" && previousValue == None && operation == None && !waitingForOperand && memory == 0.0
    {
      this.parse := parse;
      this.show := show;
      display := "0";
      previousValue := None;
      operation := None;
      waitingForOperand := false;
      memory := 0.0;
      new;
      DotsSingle("0");
    }

    /** `inputDigit`: a new operand starts with the digit; otherwise the digit is entered. */
    method InputDigit(digit: char)
      requires Valid() && IsDigit(digit)
      modifies this
      ensures Valid()
      ensures old(waitingForOperand) ==> display == [digit]
      ensures !old(waitingForOperand) ==> display == EnterDigit(old(display), digit)
      ensures !waitingForOperand
      ensures previousValue == old(previousValue) && operation == old(operation) && memory == old(memory)
    {
      DotsSingle([digit]);
      if waitingForOperand {
        display := [digit];
        waitingForOperand := false;
      } else {
        assert display != "0" ==> (display + [digit])[..|display|] == display;
        display := EnterDigit(display, digit);
      }
    }

    /** `inputDecimal`: a new operand starts as "0."; otherwise a '.' is added if there is none. */
    method InputDecimal()
      requires Valid()
      modifies this
      ensures Valid()
      ensures old(waitingForOperand) ==> display == "0." && !waitingForOperand
      ensures !old(waitingForOperand) ==> display == EnterDecimal(old(display)) && !waitingForOperand
      ensures previousValue == old(previousValue) && operation == old(operation) && memory == old(memory)
    {
      if waitingForOperand {
        display := "0.";
        assert display[..1] == "0";
        DotsSingle("0");
        waitingForOperand := false;
      } else {
        NoDots(display);
        if '.' !in display {
          assert (display + ['.'])[..|display|] == display;
        }
        display := EnterDecimal(display);
      }
    }

    /** `clear` (C): everything but the memory goes back to the start. */
    method Clear()
      requires Valid()
      modifies this
      ensures Valid()
      ensures display == "0" && previousValue == None && operation == None && !waitingForOperand
      ensures memory == old(memory)
    {
      DotsSingle("0");
      display := "0";
      previousValue := None;
      operation := None;
      waitingForOperand := false;
    }

    /** `clearEntry` (CE): only the display is reset. */
    method ClearEntry()
      requires Valid()
      modifies this
      ensures Valid()
      ensures display == "0"
      ensures previousValue == old(previousValue) && operation == old(operation)
      ensures waitingForOperand == old(waitingForOperand) && memory == old(memory)
    {
      DotsSingle("0");
      display := "0";
    }

    /**
     * `performOperation`: the first operator stores the display's value; a
     * later one applies the pending operator and shows the result. Either
     * way a new operand is awaited and `next` becomes the pending operator
     * (`calculate` passes '=' and then clears it).
     */
    method PerformOperation(next: Op)
      requires Valid()
      modifies this
      ensures next != Equals ==> Valid()
      ensures (forall v :: Dots(show(v)) <= 1) && Dots(display) <= 1
      ensures old(previousValue).None? ==> previousValue == Some(parse(old(display))) && display == old(display)
      ensures old(previousValue).Some? ==>
        var result := Compute(old(operation).value, old(previousValue).value, parse(old(display)));
        previousValue == Some(result) && display == show(result)
      ensures waitingForOperand && operation == Some(next) && memory == old(memory)
    {
      var inputValue := parse(display);
      if previousValue.None? {
        previousValue := Some(inputValue);
      } else if operation.Some? {
        var result := Compute(operation.value, previousValue.value, inputValue);
        display := show(result);
        previousValue := Some(result);
      }
      waitingForOperand := true;
      operation := Some(next);
    }

    /**
     * `calculate` (=): with an operator and an operand pending, the result is
     * shown and both are cleared; otherwise nothing happens.
     */
    method Calculate()
      requires Valid()
      modifies this
      ensures Valid()
      ensures old(operation).Some? && old(previousValue).Some? ==>
        && display == show(Compute(old(operation).value, old(previousValue).value, parse(old(display))))
        && previousValue == None && operation == None && waitingForOperand
      ensures old(operation).None? || old(previousValue).None? ==>
        display == old(display) && previousValue == old(previousValue) && operation == old(operation)
        && waitingForOperand == old(waitingForOperand)
      ensures memory == old(memory)
    {
      if operation.Some? && previousValue.Some? {
        PerformOperation(Equals);
        operation := None;
        previousValue := None;
      }
    }

    /** `toggleSign` (+/-). */
    method ToggleSign()
      requires Valid()
      modifies this
      ensures Valid()
      ensures display == show(-parse(old(display)))
      ensures previousValue == old(previousValue) && operation == old(operation)
      ensures waitingForOperand == old(waitingForOperand) && memory == old(memory)
    {
      display := show(-parse(display));
    }

    /** `percentage` (%). */
    method Percentage()
      requires Valid()
      modifies this
      ensures Valid()
      ensures display == show(parse(old(display)) / 100.0)
      ensures previousValue == old(previousValue) && operation == old(operation)
      ensures waitingForOperand == old(waitingForOperand) && memory == old(memory)
    {
      display := show(parse(display) / 100.0);
    }

    /** MC, MR, M+ and M-. */
    method MemoryClear()
      requires Valid()
      modifies this
      ensures Valid()
      ensures memory == 0.0 && display == old(display)
      ensures previousValue == old(previousValue) && operation == old(operation)
      ensures waitingForOperand == old(waitingForOperand)
    {
      memory := 0.0;
    }

    method MemoryRecall()
      requires Valid()
      modifies this
      ensures Valid()
      ensures display == show(memory) && memory == old(memory)
      ensures previousValue == old(previousValue) && operation == old(operation)
      ensures waitingForOperand == old(waitingForOperand)
    {
      display := show(memory);
    }

    method MemoryAdd()
      requires Valid()
      modifies this
      ensures Valid()
      ensures memory == old(memory) + parse(display) && display == old(display)
      ensures previousValue == old(previousValue) && operation == old(operation)
      ensures waitingForOperand == old(waitingForOperand)
    {
      memory := memory + parse(display);
    }

    method MemorySubtract()
      requires Valid()
      modifies this
      ensures Valid()
      ensures memory == old(memory) - parse(display) && display == old(display)
      ensures previousValue == old(previousValue) && operation == old(operation)
      ensures waitingForOperand == old(waitingForOperand)
    {
      memory := memory - parse(display);
    }
  }
}
