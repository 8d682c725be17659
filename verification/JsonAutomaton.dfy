// JSON texts (sections 2 to 7 of RFC 8259) as the texts a pushdown automaton accepts, reading one
// character at a time the way the JSON library's lexer and parser do. Unlike the grammar of the RFC
// the library also refuses unpaired surrogate escapes.
module JsonAutomaton {
  import opened Characters

  datatype Frame = InObject | InArray

  // Inside a string: ordinary text, after a backslash, or in a unicode escape. `low` says that the
  // escape must be the second half of a surrogate pair.
  datatype Escape = Plain | Backslash | Hex(left: nat, code: nat, low: bool) | LowBackslash | LowU

  datatype NumState = Minus | Zero | Digits | Point | Fraction | Exp | ExpSign | ExpDigits

  datatype Mode =
    | Value                          // a value must follow
    | ValueOrEnd                     // after '['
    | KeyOrEnd                       // after '{'
    | Key                            // after ',' in an object
    | Colon                          // after a key
    | After                          // after a complete value
    | Str(isKey: bool, esc: Escape)
    | Num(num: NumState)
    | Lit(rest: string)              // the rest of true, false or null
    | Bad

  datatype State = State(mode: Mode, stack: seq<Frame>)

  const INIT := State(Value, [])
  const FINAL := State(After, [])
  const BAD := State(Bad, [])

  predicate IsBlank(c: char) {
    c == ' ' || c == '\t' || c == '\n' || c == '\r'
  }

  // ---------- strings ----------

  // After the fourth digit of a unicode escape. None: not a valid escape.
  function EscapeDone(code: nat, low: bool): Mode {
    if low then (if 0xDC00 <= code <= 0xDFFF then Str(false, Plain) else Bad)
    else if 0xD800 <= code <= 0xDBFF then Str(false, LowBackslash)
    else if 0xDC00 <= code <= 0xDFFF then Bad
    else Str(false, Plain)
  }

  function OfString(isKey: bool, m: Mode): Mode {
    if m.Str? then Str(isKey, m.esc) else Bad
  }

  function StepString(isKey: bool, esc: Escape, c: char): Mode {
    match esc
    case Plain =>
      if c == '"' then (if isKey then Colon else After)
      else if c == '\\' then Str(isKey, Backslash)
      else if c < ' ' then Bad
      else Str(isKey, Plain)
    case Backslash =>
      if c == 'u' then Str(isKey, Hex(4, 0, false))
      else if c in {'"', '\\', '/', 'b', 'f', 'n', 'r', 't'} then Str(isKey, Plain)
      else Bad
    case Hex(left, code, low) =>
      if !IsHex(c) then Bad
      else if left <= 1 then OfString(isKey, EscapeDone(code * 16 + HexValue(c), low))
      else Str(isKey, Hex(left - 1, code * 16 + HexValue(c), low))
    case LowBackslash => if c == '\\' then Str(isKey, LowU) else Bad
    case LowU => if c == 'u' then Str(isKey, Hex(4, 0, true)) else Bad
  }

  // ---------- numbers ----------

  predicate Complete(n: NumState) {
    n.Zero? || n.Digits? || n.Fraction? || n.ExpDigits?
  }

  predicate IsExp(c: char) {
    c == 'e' || c == 'E'
  }

  // The next state inside a number. Bad when the number cannot go on with c.
  function StepNumber(n: NumState, c: char): Mode {
    match n
    case Minus => if c == '0' then Num(Zero) else if IsDigit(c) then Num(Digits) else Bad
    case Zero => if c == '.' then Num(Point) else if IsExp(c) then Num(Exp) else Bad
    case Digits =>
      if IsDigit(c) then Num(Digits) else if c == '.' then Num(Point) else if IsExp(c) then Num(Exp) else Bad
    case Point => if IsDigit(c) then Num(Fraction) else Bad
    case Fraction => if IsDigit(c) then Num(Fraction) else if IsExp(c) then Num(Exp) else Bad
    case Exp => if c == '+' || c == '-' then Num(ExpSign) else if IsDigit(c) then Num(ExpDigits) else Bad
    case ExpSign => if IsDigit(c) then Num(ExpDigits) else Bad
    case ExpDigits => if IsDigit(c) then Num(ExpDigits) else Bad
  }

  // ---------- between tokens ----------

  function Pop(stack: seq<Frame>, f: Frame): State {
    if stack != [] && stack[|stack| - 1] == f then State(After, stack[..|stack| - 1]) else BAD
  }

  // mode is where blanks lead: a value may be preceded by them.
  function StepValue(mode: Mode, stack: seq<Frame>, c: char): State {
    if IsBlank(c) then State(mode, stack)
    else if c == '{' then State(KeyOrEnd, stack + [InObject])
    else if c == '[' then State(ValueOrEnd, stack + [InArray])
    else if c == '"' then State(Str(false, Plain), stack)
    else if c == '-' then State(Num(Minus), stack)
    else if c == '0' then State(Num(Zero), stack)
    else if IsDigit(c) then State(Num(Digits), stack)
    else if c == 't' then State(Lit("rue"), stack)
    else if c == 'f' then State(Lit("alse"), stack)
    else if c == 'n' then State(Lit("ull"), stack)
    else BAD
  }

  function StepAfter(stack: seq<Frame>, c: char): State {
    if IsBlank(c) then State(After, stack)
    else if c == ',' then
      if stack == [] then BAD else State(if stack[|stack| - 1] == InObject then Key else Value, stack)
    else if c == '}' then Pop(stack, InObject)
    else if c == ']' then Pop(stack, InArray)
    else BAD
  }

  function Step(s: State, c: char): State {
    match s.mode
    case Value => StepValue(Value, s.stack, c)
    case ValueOrEnd => if c == ']' then Pop(s.stack, InArray) else StepValue(ValueOrEnd, s.stack, c)
    case KeyOrEnd =>
      if IsBlank(c) then s
      else if c == '"' then State(Str(true, Plain), s.stack)
      else if c == '}' then Pop(s.stack, InObject)
      else BAD
    case Key => if IsBlank(c) then s else if c == '"' then State(Str(true, Plain), s.stack) else BAD
    case Colon => if IsBlank(c) then s else if c == ':' then State(Value, s.stack) else BAD
    case After => StepAfter(s.stack, c)
    case Str(isKey, esc) => State(StepString(isKey, esc, c), s.stack)
    case Num(n) =>
      if StepNumber(n, c).Num? then State(StepNumber(n, c), s.stack)
      else if Complete(n) then StepAfter(s.stack, c)
      else BAD
    case Lit(rest) =>
      if rest != "" && c == rest[0] then State(if |rest| == 1 then After else Lit(rest[1..]), s.stack) else BAD
    case Bad => BAD
  }

  function Run(s: State, text: string): State
    decreases |text|
  {
    if text == "" then s else Run(Step(s, text[0]), text[1..])
  }

  // At the end of the text a complete number is a complete value.
  function AtEnd(s: State): State {
    if s.mode.Num? && Complete(s.mode.num) then State(After, s.stack) else s
  }

  predicate Accepts(text: string) {
    AtEnd(Run(INIT, text)) == FINAL
  }

  predicate TopIs(s: State, f: Frame) {
    s.stack != [] && s.stack[|s.stack| - 1] == f
  }

  // What the states reached from the start have in common.
  predicate Reachable(s: State) {
    match s.mode
    case Lit(rest) => rest in {"rue", "ue", "e", "alse", "lse", "se", "ull", "ll", "l"}
    case ValueOrEnd => TopIs(s, InArray)
    case KeyOrEnd => TopIs(s, InObject)
    case Key => TopIs(s, InObject)
    case Colon => TopIs(s, InObject)
    case Str(isKey, esc) => isKey ==> TopIs(s, InObject)
    case _ => true
  }

  lemma StepReachable(s: State, c: char)
    requires Reachable(s)
    ensures Reachable(Step(s, c))
  {
    if s.mode.Lit? {
      assert "rue"[1..] == "ue" && "ue"[1..] == "e" && "alse"[1..] == "lse" && "lse"[1..] == "se";
      assert "se"[1..] == "e" && "ull"[1..] == "ll" && "ll"[1..] == "l";
    }
  }

  lemma {:induction false} RunReachable(s: State, text: string)
    requires Reachable(s)
    ensures Reachable(Run(s, text))
    decreases |text|
  {
    if text != "" {
      StepReachable(s, text[0]);
      RunReachable(Step(s, text[0]), text[1..]);
    }
  }

  lemma {:induction false} RunConcat(s: State, a: string, b: string)
    ensures Run(s, a + b) == Run(Run(s, a), b)
    decreases |a|
  {
    if a == "" {
      assert a + b == b;
    } else {
      assert (a + b)[0] == a[0] && (a + b)[1..] == a[1..] + b;
      RunConcat(Step(s, a[0]), a[1..], b);
    }
  }

  lemma RunLast(s: State, text: string)
    requires text != ""
    ensures Run(s, text) == Step(Run(s, text[..|text| - 1]), text[|text| - 1])
  {
    var n := |text| - 1;
    assert text == text[..n] + [text[n]];
    RunConcat(s, text[..n], [text[n]]);
    assert [text[n]][1..] == "";
  }

  lemma {:induction false} RunBad(s: State, text: string)
    requires s.mode.Bad?
    ensures Run(s, text).mode.Bad?
    decreases |text|
  {
    if text != "" {
      RunBad(Step(s, text[0]), text[1..]);
    }
  }

  lemma Run1(s: State, a: char)
    ensures Run(s, [a]) == Step(s, a)
  {
    assert Run(Step(s, a), [a][1..]) == Step(s, a);
  }

  lemma Run2(s: State, a: char, b: char)
    ensures Run(s, [a, b]) == Step(Step(s, a), b)
  {
    assert [a, b][1..] == [b];
    Run1(Step(s, a), b);
  }

  lemma Run3(s: State, a: char, b: char, c: char)
    ensures Run(s, [a, b, c]) == Step(Step(Step(s, a), b), c)
  {
    assert [a, b, c][1..] == [b, c];
    Run2(Step(s, a), b, c);
  }

  // ---------- closing brackets ----------

  predicate Brackets(closing: string) {
    forall k :: 0 <= k < |closing| ==> closing[k] == '}' || closing[k] == ']'
  }

  // The brackets that close the open containers, innermost first.
  function Closing(stack: seq<Frame>): string {
    if stack == [] then "" else
      [if stack[|stack| - 1] == InObject then '}' else ']'] + Closing(stack[..|stack| - 1])
  }

  predicate Closes(s: State, closing: string) {
    AtEnd(Run(s, closing)) == FINAL
  }

  // From a complete value exactly the closing brackets of the open containers complete the text.
  lemma {:induction false} ClosingExact(stack: seq<Frame>, closing: string)
    requires Brackets(closing)
    ensures Closes(State(After, stack), closing) <==> closing == Closing(stack)
    decreases |closing|
  {
    if closing == "" {
      assert stack != [] ==> |Closing(stack)| > 0;
    } else {
      var s := Step(State(After, stack), closing[0]);
      if s.mode.Bad? {
        RunBad(s, closing[1..]);
      } else {
        ClosingExact(stack[..|stack| - 1], closing[1..]);
        assert closing == [closing[0]] + closing[1..];
        assert Closing(stack)[1..] == Closing(stack[..|stack| - 1]);
      }
    }
  }

  lemma {:induction false} ClosingIsBrackets(stack: seq<Frame>)
    ensures Brackets(Closing(stack)) && |Closing(stack)| == |stack|
    decreases |stack|
  {
    if stack != [] {
      ClosingIsBrackets(stack[..|stack| - 1]);
    }
  }

  // Different contexts close differently.
  lemma {:induction false} ClosingInjective(a: seq<Frame>, b: seq<Frame>)
    requires Closing(a) == Closing(b)
    ensures a == b
    decreases |a|
  {
    ClosingIsBrackets(a);
    ClosingIsBrackets(b);
    if a != [] {
      assert Closing(a)[1..] == Closing(a[..|a| - 1]) && Closing(b)[1..] == Closing(b[..|b| - 1]);
      assert Closing(a)[0] == Closing(b)[0];
      ClosingInjective(a[..|a| - 1], b[..|b| - 1]);
      assert a == a[..|a| - 1] + [a[|a| - 1]] && b == b[..|b| - 1] + [b[|b| - 1]];
    }
  }

  // Brackets never end a string.
  lemma {:induction false} StringNotClosed(s: State, closing: string)
    requires s.mode.Str? || s.mode.Bad?
    requires Brackets(closing)
    ensures !Closes(s, closing)
    decreases |closing|
  {
    if closing != "" {
      StringNotClosed(Step(s, closing[0]), closing[1..]);
    }
  }

  // The modes from which brackets can complete a text: they are as good as a complete value.
  predicate AsGoodAsAfter(m: Mode) {
    m.After? || m.KeyOrEnd? || m.ValueOrEnd? || (m.Num? && Complete(m.num))
  }

  lemma ClosedModes(s: State, closing: string)
    requires Reachable(s) && Brackets(closing) && Closes(s, closing)
    ensures AsGoodAsAfter(s.mode)
    ensures Closes(State(After, s.stack), closing)
  {
    if s.mode.Str? || s.mode.Bad? {
      StringNotClosed(s, closing);
    }
    if closing != "" {
      var t := Step(s, closing[0]);
      if t.mode.Bad? {
        StringNotClosed(t, closing[1..]);
      }
    }
  }

  // A complete number closes like a complete value.
  lemma NumberCloses(n: NumState, stack: seq<Frame>, closing: string)
    requires Complete(n) && Brackets(closing)
    ensures Closes(State(Num(n), stack), closing) <==> Closes(State(After, stack), closing)
  {
    if closing != "" {
      assert !StepNumber(n, closing[0]).Num?;
    }
  }
}
