// Healing of broken off JSON: the parse of common/json-partial.cpp:90-257, with the branches it
// tries in their order, the probes that guard them, and the cuts it falls back on.
module JsonHealing {
  import opened Characters
  import opened JsonAutomaton
  import opened JsonLocator
  import JsonParser

  // What is to be done with the text that is left: put the dump marker and the tail after all of it
  // (a probe showed this to be right), or after its first characters; or give up.
  datatype Plan =
    | Probed(dump: string, tail: string)
    | CutBack(keep: nat, dump: string, tail: string)
    | Lost

  datatype Outcome =
    | Parsed(end: nat)
    | Healed(kept: string, dump: string, tail: string, end: nat)
    | NotParsed
    | Throws

  // ---------- searching from the right ----------

  // The index of the last character that is not blank, or -1.
  function LastNonSpace(str: string): (p: int)
    ensures -1 <= p < |str|
    ensures p >= 0 ==> !IsBlank(str[p])
    decreases |str|
  {
    if str == "" then -1
    else if !IsBlank(str[|str| - 1]) then |str| - 1
    else LastNonSpace(str[..|str| - 1])
  }

  // The index of the last character that is one of chars, or -1.
  function LastOf(str: string, chars: string): (p: int)
    ensures -1 <= p < |str|
    ensures p >= 0 ==> str[p] in chars
    decreases |str|
  {
    if str == "" then -1
    else if str[|str| - 1] in chars then |str| - 1
    else LastOf(str[..|str| - 1], chars)
  }

  predicate WasMaybeNumber(str: string, last: char) {
    (str != "" ==> !IsSpace(str[|str| - 1])) && (IsDigit(last) || last in ".eE-")
  }

  predicate EndsWithBackslash(str: string) {
    str != "" && str[|str| - 1] == '\\'
  }

  // ---------- the branches ----------

  function CutAt(p: int, marker: string, closing: string): Plan {
    if p < 0 then Lost else CutBack(p as nat + 1, "\"" + marker, "\"" + closing)
  }

  // The innermost element is a key: the text breaks off before or in the value of an object.
  function HealKey(str: string, last: char, marker: string, closing: string): Plan {
    if last == ':' && Accepts(str + "1" + closing) then Probed("\"" + marker, "\"" + closing)
    else if Accepts(str + ": 1" + closing) then Probed(":\"" + marker, "\"" + closing)
    else if last == '{' && Accepts(str + "" + closing) then Probed("\"" + marker, "\": 1" + closing)
    else if Accepts(str + "\"" + closing) then Probed("" + marker, "\"" + closing)
    else if EndsWithBackslash(str) && Accepts(str + "\\\"" + closing) then Probed("\\" + marker, "\"" + closing)
    else CutAt(LastOf(str, ":"), marker, closing)
  }

  function HealArray(str: string, last: char, marker: string, closing: string): Plan {
    if (last == ',' || last == '[') && Accepts(str + "1" + closing) then Probed("\"" + marker, "\"" + closing)
    else if Accepts(str + "\"" + closing) then Probed("" + marker, "\"" + closing)
    else if EndsWithBackslash(str) && Accepts(str + "\\\"" + closing) then Probed("\\" + marker, "\"" + closing)
    else if !WasMaybeNumber(str, last) && Accepts(str + ", 1" + closing) then Probed(",\"" + marker, "\"" + closing)
    else CutAt(LastOf(str, "[,"), marker, closing)
  }

  function HealObject(str: string, last: char, marker: string, closing: string): Plan {
    if (last == '{' && Accepts(str + "" + closing)) || (last == ',' && Accepts(str + "\"\": 1" + closing))
    then Probed("\"" + marker, "\": 1" + closing)
    else if !WasMaybeNumber(str, last) && Accepts(str + ",\"\": 1" + closing)
    then Probed(",\"" + marker, "\": 1" + closing)
    else if Accepts(str + "\": 1" + closing) then Probed("" + marker, "\": 1" + closing)
    else if EndsWithBackslash(str) && Accepts(str + "\\\": 1" + closing) then Probed("\\" + marker, "\": 1" + closing)
    else CutAt(LastOf(str, ":"), marker, closing)
  }

  function Heal(str: string, top: Element, marker: string, closing: string): Plan
    requires LastNonSpace(str) >= 0
  {
    var last := str[LastNonSpace(str)];
    match top
    case KEY => HealKey(str, last, marker, closing)
    case ARRAY => HealArray(str, last, marker, closing)
    case OBJECT => HealObject(str, last, marker, closing)
  }

  // Throws stands for every exception that leaves the parse.
  function Parse(input: string, marker: string): Outcome {
    if Accepts(input) then Parsed(|input|)
    else
      var end := Reported(input);
      var str := input[..end];
      var stack := SaxStack(Broken(input));
      if Accepts(str) then Parsed(end)
      else if marker == "" || stack == [] then NotParsed
      else if LastNonSpace(str) < 0 then Throws
      else Carry(str, Heal(str, stack[|stack| - 1], marker, ClosingOf(stack)), end)
  }

  function Carry(str: string, plan: Plan, end: nat): Outcome {
    match plan
    case Probed(dump, tail) => if Accepts(str + dump + tail) then Healed(str, dump, tail, end) else Throws
    case CutBack(keep, dump, tail) =>
      if keep <= |str| && Accepts(str[..keep] + dump + tail) then Healed(str[..keep], dump, tail, end) else Throws
    case Lost => Throws
  }

  // The loop that derives the closing brackets, from the top of the stack down.
  method ClosingBrackets(stack: seq<Element>) returns (closing: string)
    ensures closing == ClosingOf(stack)
  {
    closing := "";
    var i := |stack|;
    assert stack[..i] == stack;
    while i > 0
      invariant 0 <= i <= |stack|
      invariant closing + ClosingOf(stack[..i]) == ClosingOf(stack)
    {
      assert stack[..i][..i - 1] == stack[..i - 1];
      match stack[i - 1] {
        case OBJECT => closing := closing + "}";
        case ARRAY => closing := closing + "]";
        case KEY =>
      }
      i := i - 1;
    }
  }

  method CommonJsonParse(input: string, marker: string) returns (out: Outcome)
    ensures out == Parse(input, marker)
  {
    hide Accepts, Heal, Carry, Reported, Broken, SaxStack, LastNonSpace;
    var locator := new JsonErrorLocator();
    JsonParser.SaxParse(input, locator);
    if !locator.foundError {
      return Parsed(|input|);
    }
    var end := locator.position;
    var str := input[..end];
    if Accepts(str) {
      return Parsed(end);
    }
    if marker == "" || locator.stack == [] {
      return NotParsed;
    }
    if LastNonSpace(str) < 0 {
      return Throws;
    }
    var closing := ClosingBrackets(locator.stack);
    out := Carry(str, Heal(str, locator.stack[|locator.stack| - 1], marker, closing), end);
  }

  // ---------- texts in parts ----------

  lemma AcceptsAfter(str: string, mid: string, closing: string)
    ensures Accepts(str + mid + closing) <==> Closes(Run(Run(INIT, str), mid), closing)
  {
    RunConcat(INIT, str + mid, closing);
    RunConcat(INIT, str, mid);
  }

  lemma Assemble(str: string, before: string, marker: string, after: string, closing: string)
    ensures Accepts(str + (before + marker) + (after + closing))
       <==> Closes(Run(Run(Run(Run(INIT, str), before), marker), after), closing)
  {
    AcceptsAfter(str, before + marker, after + closing);
    RunConcat(Run(INIT, str), before, marker);
    RunConcat(Run(Run(INIT, str), before + marker), after, closing);
  }

  lemma Run4(s: State, a: char, b: char, c: char, d: char)
    ensures Run(s, [a, b, c, d]) == Step(Step(Step(Step(s, a), b), c), d)
  {
    assert [a, b, c, d][1..] == [b, c, d];
    Run3(Step(s, a), b, c, d);
  }

  predicate Decimal(marker: string) {
    marker != "" && forall i :: 0 <= i < |marker| ==> IsDigit(marker[i])
  }

  lemma {:induction false} DigitsInString(s: State, marker: string)
    requires s.mode.Str? && s.mode.esc.Plain?
    requires forall i :: 0 <= i < |marker| ==> IsDigit(marker[i])
    ensures Run(s, marker) == s
    decreases |marker|
  {
    if marker != "" {
      assert IsDigit(marker[0]);
      DigitsInString(s, marker[1..]);
    }
  }

  // ---------- how the last characters tell the state ----------

  // The last character that is not blank, in each state.
  predicate EndsIn(s: State, c: char) {
    match s.mode
    case Value => c == (if TopIs(s, InArray) then ',' else ':')
    case ValueOrEnd => c == '['
    case KeyOrEnd => c == '{'
    case Key => c == ','
    case Colon => c == '"'
    case After => c in "}]\"el" || IsDigit(c)
    case Num(n) => IsDigit(c) || (!Complete(n) && c in ".+-eE")
    case _ => true
  }

  lemma EndsInStep(s: State, c: char)
    requires Reachable(s) && !IsBlank(c)
    ensures EndsIn(Step(s, c), c)
  {
  }

  lemma EndsInBlank(s: State, c: char, b: char)
    requires Reachable(s) && IsBlank(b) && EndsIn(s, c)
    ensures EndsIn(Step(s, b), c)
  {
  }

  lemma {:induction false} LastFits(str: string)
    requires LastNonSpace(str) >= 0
    ensures EndsIn(Run(INIT, str), str[LastNonSpace(str)])
    decreases |str|
  {
    var n := |str| - 1;
    RunLast(INIT, str);
    RunReachable(INIT, str[..n]);
    if IsBlank(str[n]) {
      LastFits(str[..n]);
      EndsInBlank(Run(INIT, str[..n]), str[LastNonSpace(str)], str[n]);
    } else {
      EndsInStep(Run(INIT, str[..n]), str[n]);
    }
  }

  lemma BackslashStep(s: State, c: char)
    requires Step(s, c).mode.Str? && Step(s, c).mode.esc.Backslash?
    ensures c == '\\'
  {
  }

  lemma LastOfEscape(str: string)
    requires Run(INIT, str).mode.Str? && Run(INIT, str).mode.esc.Backslash?
    ensures EndsWithBackslash(str)
  {
    RunLast(INIT, str);
    BackslashStep(Run(INIT, str[..|str| - 1]), str[|str| - 1]);
  }
}
