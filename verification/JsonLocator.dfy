// The SAX consumer that finds where a JSON text breaks off: its stack of open elements, its
// callbacks, and where the library reports an error (common/json-partial.cpp:43-115).
module JsonLocator {
  import opened JsonAutomaton

  datatype Element = OBJECT | KEY | ARRAY

  // ---------- the stack the callbacks should hold ----------

  // A value of an object is being awaited or read.
  predicate AwaitsValue(m: Mode) {
    m.Colon? || m.Value? || (m.Str? && !m.isKey) || m.Num? || m.Lit?
  }

  function Enclosing(stack: seq<Frame>): seq<Element>
    decreases |stack|
  {
    if stack == [] then [] else
      Enclosing(stack[..|stack| - 1]) + if stack[|stack| - 1] == InObject then [OBJECT, KEY] else [ARRAY]
  }

  // Every object around the innermost container is waiting for the value of a key. The innermost one
  // is if it is an object and stands between a key and the end of its value.
  function SaxStack(s: State): seq<Element> {
    if s.stack == [] then [] else
      Enclosing(s.stack[..|s.stack| - 1]) +
      if s.stack[|s.stack| - 1] == InArray then [ARRAY] else if AwaitsValue(s.mode) then [OBJECT, KEY] else [OBJECT]
  }

  // A number ends where c does not continue it; the parser delivers it before it looks at c.
  function Settle(s: State, c: char): State {
    if s.mode.Num? && Complete(s.mode.num) && !StepNumber(s.mode.num, c).Num? then State(After, s.stack) else s
  }

  lemma SettleSteps(s: State, c: char)
    ensures Step(Settle(s, c), c) == Step(s, c)
  {
  }

  // ---------- where the library reports an error ----------

  // The number of characters read before the text goes wrong.
  function Halt(s: State, text: string): (n: nat)
    ensures n <= |text|
    decreases |text|
  {
    if text == "" || Step(s, text[0]).mode.Bad? then 0 else 1 + Halt(Step(s, text[0]), text[1..])
  }

  lemma {:induction false} HaltAt(s: State, text: string, i: nat)
    requires i < |text| && i <= Halt(s, text)
    ensures i < Halt(s, text) <==> !Step(Run(s, text[..i]), text[i]).mode.Bad?
    decreases i
  {
    if i == 0 {
      assert text[..0] == "";
    } else {
      HaltAt(Step(s, text[0]), text[1..], i - 1);
      assert text[..i][1..] == text[1..][..i - 1] && text[..i][0] == text[0];
    }
  }

  predicate Between(m: Mode) {
    m.Value? || m.ValueOrEnd? || m.KeyOrEnd? || m.Key? || m.Colon? || m.After?
  }

  predicate InToken(m: Mode) {
    m.Str? || m.Num? || m.Lit?
  }

  predicate NumberDone(m: Mode) {
    m.Num? && Complete(m.num)
  }

  // s holds after reading a part of one token that ends before j. The index of the last character
  // the lexer has read when it is through with that token; the end of the text counts as a character.
  function LastOfToken(s: State, text: string, j: nat): (k: nat)
    requires 0 < j <= |text|
    ensures j - 1 <= k <= |text|
    decreases |text| - j
  {
    if !InToken(s.mode) then j - 1
    else if j < |text| && InToken(Step(s, text[j]).mode) then LastOfToken(Step(s, text[j]), text, j + 1)
    else if NumberDone(s.mode) then j - 1
    else j
  }

  // Inside a token the error is at the first character that does not fit; a token that does not fit
  // is read to its end first. The reported position counts that last character; one less is kept.
  function Reported(text: string): (p: nat)
    ensures Halt(INIT, text) <= p <= |text|
  {
    var i := Halt(INIT, text);
    var s := Run(INIT, text[..i]);
    if i == |text| || (InToken(s.mode) && !NumberDone(s.mode)) then i
    else LastOfToken(StepValue(Value, [], text[i]), text, i + 1)
  }

  // The parser's state when it reports the error.
  function Broken(text: string): State {
    var i := Halt(INIT, text);
    var s := Run(INIT, text[..i]);
    if i == |text| then AtEnd(s) else Settle(s, text[i])
  }

  lemma {:induction false} BadPrefix(s: State, text: string, i: nat)
    requires i <= |text| && Run(s, text[..i]).mode.Bad?
    ensures Run(s, text).mode.Bad?
  {
    assert text == text[..i] + text[i..];
    RunConcat(s, text[..i], text[i..]);
    RunBad(Run(s, text[..i]), text[i..]);
  }

  // ---------- the consumer ----------

  class JsonErrorLocator {
    var position: nat
    var foundError: bool
    var stack: seq<Element>

    constructor ()
      ensures position == 0 && !foundError && stack == []
    {
      position, foundError, stack := 0, false, [];
    }

    ghost predicate Holds(s: State)
      reads this
    {
      Reachable(s) && stack == SaxStack(s)
    }

    method ParseError(position: nat)
      requires position > 0
      modifies this
      ensures this.position == position - 1 && foundError && stack == old(stack)
    {
      this.position := position - 1;
      foundError := true;
    }

    method CloseValue()
      modifies this`stack
      ensures stack == if old(stack) != [] && old(stack)[|old(stack)| - 1] == KEY
                       then old(stack)[..|old(stack)| - 1] else old(stack)
    {
      if stack != [] && stack[|stack| - 1] == KEY {
        stack := stack[..|stack| - 1];
      }
    }

    // The callbacks for null, booleans, numbers and strings.
    method Scalar(ghost s: State)
      requires Holds(s) && (s.mode.Value? || s.mode.ValueOrEnd?)
      modifies this`stack
      ensures Holds(State(After, s.stack))
    {
      CloseValue();
    }

    method Key(ghost s: State)
      requires Holds(s) && (s.mode.KeyOrEnd? || s.mode.Key?)
      modifies this`stack
      ensures Holds(State(Colon, s.stack))
    {
      stack := stack + [KEY];
    }

    method StartObject(ghost s: State)
      requires Holds(s) && (s.mode.Value? || s.mode.ValueOrEnd?)
      modifies this`stack
      ensures Holds(State(KeyOrEnd, s.stack + [InObject]))
    {
      StartKeeps(s, InObject);
      stack := stack + [OBJECT];
    }

    method StartArray(ghost s: State)
      requires Holds(s) && (s.mode.Value? || s.mode.ValueOrEnd?)
      modifies this`stack
      ensures Holds(State(ValueOrEnd, s.stack + [InArray]))
    {
      StartKeeps(s, InArray);
      stack := stack + [ARRAY];
    }

    // The assertion of the source that the element on top is an object cannot fail.
    method EndObject(ghost s: State)
      requires Holds(s) && TopIs(s, InObject) && (s.mode.KeyOrEnd? || s.mode.After?)
      modifies this`stack
      ensures Holds(State(After, s.stack[..|s.stack| - 1]))
    {
      EndKeeps(s);
      assert stack != [] && stack[|stack| - 1] == OBJECT;
      stack := stack[..|stack| - 1];
      CloseValue();
    }

    method EndArray(ghost s: State)
      requires Holds(s) && TopIs(s, InArray) && (s.mode.ValueOrEnd? || s.mode.After?)
      modifies this`stack
      ensures Holds(State(After, s.stack[..|s.stack| - 1]))
    {
      EndKeeps(s);
      assert stack != [] && stack[|stack| - 1] == ARRAY;
      stack := stack[..|stack| - 1];
      CloseValue();
    }
  }

  lemma WentOn(text: string, i: nat)
    requires i < |text| && i <= Halt(INIT, text) && !Step(Run(INIT, text[..i]), text[i]).mode.Bad?
    ensures i + 1 <= Halt(INIT, text) && Run(INIT, text[..i + 1]) == Step(Run(INIT, text[..i]), text[i])
  {
    hide Run, Halt, Step;
    HaltAt(INIT, text, i);
    assert text[..i + 1][..i] == text[..i];
    RunLast(INIT, text[..i + 1]);
  }

  lemma Stopped(text: string, i: nat)
    requires i < |text| && i <= Halt(INIT, text) && Step(Run(INIT, text[..i]), text[i]).mode.Bad?
    ensures Halt(INIT, text) == i && Run(INIT, text).mode.Bad?
  {
    hide Run, Halt, Step;
    HaltAt(INIT, text, i);
    assert text[..i + 1][..i] == text[..i];
    RunLast(INIT, text[..i + 1]);
    BadPrefix(INIT, text, i + 1);
  }

  // Steps between states that call nothing back.
  lemma SameSaxStack(s: State, t: State)
    requires s.stack == t.stack && (TopIs(s, InObject) ==> (AwaitsValue(s.mode) <==> AwaitsValue(t.mode)))
    ensures SaxStack(s) == SaxStack(t)
  {
  }

  lemma StartKeeps(s: State, f: Frame)
    requires Reachable(s) && (s.mode.Value? || s.mode.ValueOrEnd?)
    ensures SaxStack(State(if f == InObject then KeyOrEnd else ValueOrEnd, s.stack + [f]))
         == SaxStack(s) + [if f == InObject then OBJECT else ARRAY]
  {
    assert (s.stack + [f])[..|s.stack|] == s.stack;
  }

  // A container that ends is the value its own container was waiting for.
  lemma EndKeeps(s: State)
    requires s.stack != [] && (s.mode.After? || s.mode.KeyOrEnd? || s.mode.ValueOrEnd?)
    ensures SaxStack(s) == Enclosing(s.stack[..|s.stack| - 1]) + [if TopIs(s, InObject) then OBJECT else ARRAY]
    ensures var outer := s.stack[..|s.stack| - 1];
            SaxStack(State(After, outer)) == if TopIs(State(After, outer), InObject)
                                             then Enclosing(outer)[..|Enclosing(outer)| - 1] else Enclosing(outer)
  {
  }

  // ---------- the closing brackets ----------

  // The brackets for the open elements, innermost first; keys need none.
  function ClosingOf(stack: seq<Element>): string
    decreases |stack|
  {
    if stack == [] then "" else
      match stack[|stack| - 1] {
        case OBJECT => "}" + ClosingOf(stack[..|stack| - 1])
        case ARRAY => "]" + ClosingOf(stack[..|stack| - 1])
        case KEY => ClosingOf(stack[..|stack| - 1])
      }
  }

  lemma {:induction false} EnclosingCloses(stack: seq<Frame>)
    ensures ClosingOf(Enclosing(stack)) == Closing(stack)
    decreases |stack|
  {
    if stack != [] {
      var outer := stack[..|stack| - 1];
      EnclosingCloses(outer);
      if stack[|stack| - 1] == InObject {
        assert Enclosing(stack)[..|Enclosing(stack)| - 1] == Enclosing(outer) + [OBJECT];
        assert (Enclosing(outer) + [OBJECT])[..|Enclosing(outer)|] == Enclosing(outer);
      } else {
        assert Enclosing(stack)[..|Enclosing(stack)| - 1] == Enclosing(outer);
      }
    }
  }

  // The brackets derived from the callbacks' stack are those of the open containers.
  lemma ClosingOfSaxStack(s: State)
    ensures ClosingOf(SaxStack(s)) == Closing(s.stack)
    ensures SaxStack(s) == [] <==> s.stack == []
  {
    if s.stack != [] {
      var outer := s.stack[..|s.stack| - 1];
      EnclosingCloses(outer);
      var e := Enclosing(outer);
      if SaxStack(s)[|SaxStack(s)| - 1] == KEY {
        assert SaxStack(s)[..|SaxStack(s)| - 1] == e + [OBJECT];
        assert (e + [OBJECT])[..|e|] == e;
      } else {
        assert SaxStack(s)[..|SaxStack(s)| - 1] == e;
      }
    }
  }
}
