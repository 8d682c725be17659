// Exactly when healing succeeds: what the cuts do, which broken off texts the probes catch, and the
// two kinds of text that can be lost: one that breaks off inside a unicode escape, and one that goes
// wrong with a token which is read to its end.
module JsonExactness {
  import opened Characters
  import opened JsonAutomaton
  import opened JsonLocator
  import opened JsonHealing
  import opened JsonSoundness

  predicate BeforeValue(s: State) {
    s.mode.Value? || s.mode.ValueOrEnd?
  }

  // ---------- the cuts ----------

  lemma AfterSeparator(s: State, c: char)
    requires Reachable(s) && c in ":[,"
    ensures var t := Step(s, c);
            t.mode.Value? || t.mode.ValueOrEnd? || t.mode.Key? || t.mode.Bad? || IsQuote(t, t.mode.Str? && t.mode.isKey)
  {
  }

  lemma QuoteAfterSeparator(t: State)
    requires t.mode.Key? || t.mode.Bad? || IsQuote(t, t.mode.Str? && t.mode.isKey)
    ensures var u := Step(t, '"'); u.mode.Bad? || IsQuote(u, true) || u.mode.After? || u.mode.Colon?
    ensures IsQuote(Step(t, '"'), true) ==> t.mode.Key?
  {
  }

  lemma DigitAfterQuote(t: State, d: char)
    requires IsDigit(d) && (t.mode.After? || t.mode.Colon? || t.mode.Bad?)
    ensures Step(t, d).mode.Bad?
  {
  }

  lemma {:induction false} MarkerInKey(t: State, marker: string, closing: string)
    requires IsQuote(t, true) && Reachable(t) && Brackets(closing) && Decimal(marker)
    ensures !Closes(Run(Run(t, marker), "\""), closing)
  {
    DigitsInString(t, marker);
    Run1(t, '"');
    if Closes(Step(t, '"'), closing) {
      StepReachable(t, '"');
      ClosedModes(Step(t, '"'), closing);
    }
  }

  lemma {:induction false} MarkerOutside(t: State, marker: string, rest: string, closing: string)
    requires t.mode.After? || t.mode.Colon? || t.mode.Bad?
    requires Decimal(marker) && Brackets(closing)
    ensures !Closes(Run(Run(t, marker), rest), closing)
  {
    assert IsDigit(marker[0]);
    DigitAfterQuote(t, marker[0]);
    assert Run(t, marker) == Run(Step(t, marker[0]), marker[1..]);
    RunBad(Step(t, marker[0]), marker[1..]);
    RunBad(Run(t, marker), rest);
    StringNotClosed(Run(Run(t, marker), rest), closing);
  }

  // A cut after a colon, an opening bracket or a comma is repaired if and only if that character is
  // not part of a string and its context is the one the closing brackets are for.
  lemma CutExact(kept: string, marker: string, closing: string)
    requires Decimal(marker) && Brackets(closing)
    requires kept != "" && kept[|kept| - 1] in ":[,"
    ensures var s := Run(INIT, kept);
            Accepts(kept + ("\"" + marker) + ("\"" + closing)) <==> BeforeValue(s) && closing == Closing(s.stack)
  {
    hide Step, Closes;
    var s := Run(INIT, kept);
    ClosingExact(s.stack, closing);
    if BeforeValue(s) {
      Assemble(kept, "\"", marker, "\"", closing);
      Run1(s, '"');
      QuoteBeforeValue(s);
      DigitsInString(Step(s, '"'), marker);
      Run1(Step(s, '"'), '"');
    } else {
      RunLast(INIT, kept);
      RunReachable(INIT, kept[..|kept| - 1]);
      AfterSeparator(Run(INIT, kept[..|kept| - 1]), kept[|kept| - 1]);
      QuoteAfterSeparator(s);
      Assemble(kept, "\"", marker, "\"", closing);
      Run1(s, '"');
      var t := Step(s, '"');
      if IsQuote(t, true) {
        RunReachable(INIT, kept);
        StepReachable(s, '"');
        MarkerInKey(t, marker, closing);
      } else {
        MarkerOutside(t, marker, "\"", closing);
      }
    }
  }

  lemma QuoteBeforeValue(s: State)
    requires BeforeValue(s)
    ensures Step(s, '"') == State(Str(false, Plain), s.stack)
    ensures Step(Step(s, '"'), '"') == State(After, s.stack)
  {
  }

  // ---------- the separator before a value ----------

  function SeparatorsOf(s: State): string {
    if TopIs(s, InArray) then "[," else ":"
  }

  predicate SameContext(str: string, s: State, p: int)
    requires -1 <= p < |str|
  {
    p >= 0 && BeforeValue(Run(INIT, str[..p + 1])) && Run(INIT, str[..p + 1]).stack == s.stack
  }

  // How a step leads to a place where a value starts, or further into a number or a literal.
  lemma SeparatorStep(s: State, c: char)
    requires Reachable(s)
    ensures var t := Step(s, c);
            BeforeValue(t) && t.stack != [] ==> c in SeparatorsOf(t) || (BeforeValue(s) && t.stack == s.stack && IsBlank(c))
    ensures var t := Step(s, c);
            t.mode.Num? || t.mode.Lit? ==>
              (BeforeValue(s) || s.mode.Num? || s.mode.Lit?) && t.stack == s.stack && c !in SeparatorsOf(t)
  {
  }

  lemma {:induction false} LastSeparator(str: string)
    requires var s := Run(INIT, str); s.stack != [] && (BeforeValue(s) || s.mode.Num? || s.mode.Lit?)
    ensures var s := Run(INIT, str); SameContext(str, s, LastOf(str, SeparatorsOf(s)))
    decreases |str|
  {
    hide Step;
    var n := |str| - 1;
    var s := Run(INIT, str);
    RunLast(INIT, str);
    RunReachable(INIT, str[..n]);
    SeparatorStep(Run(INIT, str[..n]), str[n]);
    if str[n] in SeparatorsOf(s) {
      assert str[..n + 1] == str;
    } else {
      LastSeparator(str[..n]);
      KeepContext(str, s, LastOf(str, SeparatorsOf(s)));
    }
  }

  lemma KeepContext(str: string, s: State, p: int)
    requires -1 <= p < |str| - 1
    ensures SameContext(str[..|str| - 1], s, p) <==> SameContext(str, s, p)
  {
    assert str[..|str| - 1][..p + 1] == str[..p + 1];
  }

  // A text whose last character may belong to a number although a value is complete ends in true or
  // false; the cut then drops that literal.
  lemma AfterStep(s: State, c: char)
    requires Reachable(s) && Step(s, c).mode.After? && !IsSpace(c) && (IsDigit(c) || c in ".eE-")
    ensures s.mode.Lit? && Step(s, c).stack == s.stack
  {
  }

  lemma AfterMaybeNumber(str: string)
    requires str != "" && LastNonSpace(str) >= 0 && WasMaybeNumber(str, str[LastNonSpace(str)])
    requires Run(INIT, str).mode.After? && Run(INIT, str).stack != []
    ensures var s := Run(INIT, str); SameContext(str, s, LastOf(str, SeparatorsOf(s)))
  {
    hide Step;
    var n := |str| - 1;
    var s := Run(INIT, str);
    RunLast(INIT, str);
    RunReachable(INIT, str[..n]);
    AfterStep(Run(INIT, str[..n]), str[n]);
    LastSeparator(str[..n]);
    KeepContext(str, s, LastOf(str, SeparatorsOf(s)));
  }

  // ---------- what the probes catch ----------

  predicate Escaping(m: Mode) {
    m.Str? && (m.esc.Hex? || m.esc.LowBackslash? || m.esc.LowU?)
  }

  // No probe parses: the text has gone wrong, or it breaks off inside a unicode escape.
  predicate BeyondProbes(m: Mode) {
    m.Bad? || Escaping(m)
  }

  lemma KeyTail(t: State)
    requires IsQuote(t, true)
    ensures Run(t, "\": 1") == State(Num(Digits), t.stack)
  {
    hide Run;
    Run4(t, '"', ':', ' ', '1');
    assert Step(t, '"') == State(Colon, t.stack);
    assert Step(State(Colon, t.stack), ':') == State(Value, t.stack) == Step(State(Value, t.stack), ' ');
  }

  lemma Succeeds(str: string, text: string)
    requires Run(Run(INIT, str), text).stack == Run(INIT, str).stack
    requires AsGoodAsAfter(Run(Run(INIT, str), text).mode) && Reachable(Run(Run(INIT, str), text))
    ensures Accepts(str + text + Closing(Run(INIT, str).stack))
  {
    var t := Run(Run(INIT, str), text);
    AcceptsAfter(str, text, Closing(t.stack));
    ClosingIsBrackets(t.stack);
    ClosingExact(t.stack, Closing(t.stack));
    if t.mode.Num? {
      NumberCloses(t.mode.num, t.stack, Closing(t.stack));
    }
  }

  lemma CatchValue(str: string)
    requires BeforeValue(Run(INIT, str))
    ensures Accepts(str + "1" + Closing(Run(INIT, str).stack))
  {
    Run1(Run(INIT, str), '1');
    Succeeds(str, "1");
  }

  lemma CatchColon(str: string)
    requires Run(INIT, str).mode.Colon?
    ensures Accepts(str + ": 1" + Closing(Run(INIT, str).stack))
  {
    Run3(Run(INIT, str), ':', ' ', '1');
    Succeeds(str, ": 1");
  }

  lemma CatchString(str: string)
    requires var m := Run(INIT, str).mode; m.Str? && !m.isKey && (m.esc.Plain? || m.esc.Backslash?)
    ensures if Run(INIT, str).mode.esc.Plain? then Accepts(str + "\"" + Closing(Run(INIT, str).stack))
            else EndsWithBackslash(str) && Accepts(str + "\\\"" + Closing(Run(INIT, str).stack))
  {
    var s := Run(INIT, str);
    if s.mode.esc.Plain? {
      Run1(s, '"');
      Succeeds(str, "\"");
    } else {
      LastOfEscape(str);
      Run2(s, '\\', '"');
      Succeeds(str, "\\\"");
    }
  }

  lemma CatchKeyString(str: string)
    requires var m := Run(INIT, str).mode; m.Str? && m.isKey && (m.esc.Plain? || m.esc.Backslash?)
    ensures if Run(INIT, str).mode.esc.Plain? then Accepts(str + "\": 1" + Closing(Run(INIT, str).stack))
            else EndsWithBackslash(str) && Accepts(str + "\\\": 1" + Closing(Run(INIT, str).stack))
  {
    var s := Run(INIT, str);
    if s.mode.esc.Plain? {
      KeyTail(s);
      Succeeds(str, "\": 1");
    } else {
      LastOfEscape(str);
      assert "\\\": 1" == "\\" + "\": 1";
      RunConcat(s, "\\", "\": 1");
      Run1(s, '\\');
      KeyTail(Step(s, '\\'));
      Succeeds(str, "\\\": 1");
    }
  }

  lemma CatchNextValue(str: string)
    requires Run(INIT, str).mode.After? && TopIs(Run(INIT, str), InArray)
    ensures Accepts(str + ", 1" + Closing(Run(INIT, str).stack))
  {
    Run3(Run(INIT, str), ',', ' ', '1');
    Succeeds(str, ", 1");
  }

  lemma CatchNextKey(str: string)
    requires Run(INIT, str).mode.After? && TopIs(Run(INIT, str), InObject)
    ensures Accepts(str + ",\"\": 1" + Closing(Run(INIT, str).stack))
  {
    var s := Run(INIT, str);
    assert ",\"\": 1" == ",\"" + "\": 1";
    RunConcat(s, ",\"", "\": 1");
    Run2(s, ',', '"');
    KeyTail(Step(Step(s, ','), '"'));
    Succeeds(str, ",\"\": 1");
  }

  lemma CatchKey(str: string)
    requires Run(INIT, str).mode.Key?
    ensures Accepts(str + "\"\": 1" + Closing(Run(INIT, str).stack))
  {
    var s := Run(INIT, str);
    RunReachable(INIT, str);
    assert "\"\": 1" == "\"" + "\": 1";
    RunConcat(s, "\"", "\": 1");
    Run1(s, '"');
    KeyTail(Step(s, '"'));
    Succeeds(str, "\"\": 1");
  }

  lemma CatchOpened(str: string)
    requires Run(INIT, str).mode.KeyOrEnd?
    ensures Accepts(str + "" + Closing(Run(INIT, str).stack))
  {
    var s := Run(INIT, str);
    RunReachable(INIT, str);
    AcceptsAfter(str, "", Closing(s.stack));
    ClosingIsBrackets(s.stack);
    ClosingExact(s.stack, Closing(s.stack));
    assert Closing(s.stack)[0] == '}' && Step(s, '}') == Step(State(After, s.stack), '}');
  }

  lemma ProbesFail(str: string, closing: string)
    requires BeyondProbes(Run(INIT, str).mode) && Brackets(closing)
    ensures !Accepts(str + "1" + closing) && !Accepts(str + ": 1" + closing) && !Accepts(str + "" + closing)
    ensures !Accepts(str + "\"" + closing) && !Accepts(str + "\\\"" + closing) && !Accepts(str + ", 1" + closing)
    ensures !EndsWithBackslash(str) ==> !Accepts(str + "\"\": 1" + closing)
    ensures !Accepts(str + ",\"\": 1" + closing) && !Accepts(str + "\": 1" + closing)
    ensures !Accepts(str + "\\\": 1" + closing)
  {
    hide Accepts, Closes;
    Run1(Run(INIT, str), '\\');
    if Accepts(str + "1" + closing) { ProbeValue(str, closing); }
    if Accepts(str + ": 1" + closing) { ProbeColon(str, closing); }
    if Accepts(str + "" + closing) { ProbeNothing(str, closing); }
    if Accepts(str + "\"" + closing) { ProbeQuote(str, closing); }
    if Accepts(str + "\\\"" + closing) { ProbeEscape(str, closing); }
    if Accepts(str + ", 1" + closing) { ProbeNextValue(str, closing); }
    if !EndsWithBackslash(str) && Accepts(str + "\"\": 1" + closing) { ProbeKey(str, closing); }
    if Accepts(str + ",\"\": 1" + closing) { ProbeNextKey(str, closing); }
    if Accepts(str + "\": 1" + closing) { ProbeKeyQuote(str, closing); }
    if Accepts(str + "\\\": 1" + closing) { ProbeKeyEscape(str, closing); }
  }

  // ---------- the theorem ----------

  // What Heal does with the text before an error that the parser found in state b: a probe opens a
  // branch, or the text is cut back. A cut that no probe could have saved need not be right.
  predicate Covered(str: string, b: State, marker: string, plan: Plan) {
    var p := LastOf(str, SeparatorsOf(b));
    && (!plan.Probed? ==> plan == CutAt(p, marker, Closing(b.stack)))
    && (if BeyondProbes(Run(INIT, str).mode) then !plan.Probed? else plan.Probed? || SameContext(str, b, p))
  }

  lemma KeyCovered(str: string, marker: string)
    requires var s := Run(INIT, str); TopIs(s, InObject) && AwaitsValue(s.mode) && !NumberDone(s.mode)
    requires LastNonSpace(str) >= 0
    ensures Covered(str, Run(INIT, str), marker, HealKey(str, str[LastNonSpace(str)], marker, Closing(Run(INIT, str).stack)))
  {
    hide Accepts, Run, SameContext;
    var s := Run(INIT, str);
    ClosingIsBrackets(s.stack);
    LastFits(str);
    if Escaping(s.mode) {
      ProbesFail(str, Closing(s.stack));
    } else if s.mode.Colon? {
      CatchColon(str);
    } else if s.mode.Value? {
      CatchValue(str);
    } else if s.mode.Str? {
      CatchString(str);
    } else {
      LastSeparator(str);
    }
  }

  lemma ArrayCovered(str: string, marker: string)
    requires var s := Run(INIT, str); TopIs(s, InArray) && Reachable(s) && !s.mode.Bad?
    requires LastNonSpace(str) >= 0
    ensures Covered(str, Run(INIT, str), marker, HealArray(str, str[LastNonSpace(str)], marker, Closing(Run(INIT, str).stack)))
  {
    hide Accepts, Run, SameContext;
    var s := Run(INIT, str);
    ClosingIsBrackets(s.stack);
    LastFits(str);
    if Escaping(s.mode) {
      ProbesFail(str, Closing(s.stack));
    } else if BeforeValue(s) {
      CatchValue(str);
    } else if s.mode.Str? {
      CatchString(str);
    } else if s.mode.After? {
      CatchNextValue(str);
      if WasMaybeNumber(str, str[LastNonSpace(str)]) {
        AfterMaybeNumber(str);
      }
    } else {
      LastSeparator(str);
    }
  }

  lemma ObjectCovered(str: string, marker: string)
    requires var s := Run(INIT, str); TopIs(s, InObject) && Reachable(s) && !s.mode.Bad? && !AwaitsValue(AtEnd(s).mode)
    requires LastNonSpace(str) >= 0
    ensures Covered(str, Run(INIT, str), marker, HealObject(str, str[LastNonSpace(str)], marker, Closing(Run(INIT, str).stack)))
  {
    hide Accepts, Run, SameContext;
    var s := Run(INIT, str);
    ClosingIsBrackets(s.stack);
    LastFits(str);
    if Escaping(s.mode) {
      ProbesFail(str, Closing(s.stack));
    } else if s.mode.Key? {
      CatchKey(str);
    } else if s.mode.KeyOrEnd? {
      CatchOpened(str);
    } else if s.mode.Str? {
      CatchKeyString(str);
    } else if s.mode.After? {
      CatchNextKey(str);
      if WasMaybeNumber(str, str[LastNonSpace(str)]) {
        AfterMaybeNumber(str);
      }
    } else {
      LastSeparator(str);
    }
  }

  // A text that can still become JSON and in which some container is open.
  predicate Truncated(input: string) {
    !Run(INIT, input).mode.Bad? && Run(INIT, input).stack != []
  }

  // The cut leaves the text where a value of the innermost open container starts.
  predicate CutIsStructural(str: string, b: State) {
    SameContext(str, b, LastOf(str, SeparatorsOf(b)))
  }

  lemma {:induction false} HaltsAtEnd(s: State, text: string)
    requires !Run(s, text).mode.Bad?
    ensures Halt(s, text) == |text|
    decreases |text|
  {
    if text != "" {
      if Step(s, text[0]).mode.Bad? {
        RunBad(Step(s, text[0]), text[1..]);
      }
      HaltsAtEnd(Step(s, text[0]), text[1..]);
    }
  }

  lemma {:induction false} OnlyBlanks(str: string)
    requires LastNonSpace(str) < 0
    ensures Run(INIT, str) == INIT
    decreases |str|
  {
    if str != "" {
      OnlyBlanks(str[..|str| - 1]);
      RunLast(INIT, str);
    }
  }

  lemma CutResult(str: string, b: State, marker: string, end: nat)
    requires Decimal(marker)
    ensures var p := LastOf(str, SeparatorsOf(b));
            var o := Carry(str, CutAt(p, marker, Closing(b.stack)), end);
            && (o.Healed? || o.Throws?)
            && (o.Healed? <==> SameContext(str, b, p))
  {
    var p := LastOf(str, SeparatorsOf(b));
    ClosingIsBrackets(b.stack);
    if p >= 0 {
      CutExact(str[..p + 1], marker, Closing(b.stack));
      var t := Run(INIT, str[..p + 1]);
      if Closing(b.stack) == Closing(t.stack) {
        ClosingInjective(b.stack, t.stack);
      }
    }
  }

  function TopOf(s: State): Element
    requires SaxStack(s) != []
  {
    SaxStack(s)[|SaxStack(s)| - 1]
  }

  lemma TopOfSaxStack(s: State)
    requires s.stack != []
    ensures SaxStack(s) != []
    ensures TopOf(s) == if TopIs(s, InArray) then ARRAY else if AwaitsValue(s.mode) then KEY else OBJECT
  {
  }

  lemma NotAccepted(input: string)
    requires Run(INIT, input).stack != []
    ensures !Accepts(input)
  {
  }

  lemma ParseOfTruncated(input: string, marker: string)
    requires Truncated(input) && Decimal(marker)
    ensures LastNonSpace(input) >= 0 && SaxStack(AtEnd(Run(INIT, input))) != []
    ensures var s := Run(INIT, input);
            Parse(input, marker) ==
              Carry(input, Heal(input, TopOf(AtEnd(s)), marker, Closing(s.stack)), |input|)
  {
    hide Accepts, Heal, Carry, SaxStack, Run, Reported, Broken, Closing, ClosingOf, LastNonSpace;
    var s := Run(INIT, input);
    BrokenAtEnd(input);
    NotAccepted(input);
    ClosingOfSaxStack(AtEnd(s));
    if LastNonSpace(input) < 0 {
      OnlyBlanks(input);
    }
  }

  lemma BrokenAtEnd(input: string)
    requires !Run(INIT, input).mode.Bad?
    ensures Broken(input) == AtEnd(Run(INIT, input)) && Reported(input) == |input| && input[..|input|] == input
  {
    hide Run, Halt, LastOfToken;
    HaltsAtEnd(INIT, input);
    assert input[..|input|] == input;
  }

  lemma HealCovered(str: string, marker: string)
    requires Truncated(str) && LastNonSpace(str) >= 0 && SaxStack(AtEnd(Run(INIT, str))) != []
    ensures var s := Run(INIT, str); Covered(str, s, marker, Heal(str, TopOf(AtEnd(s)), marker, Closing(s.stack)))
  {
    hide Accepts, HealKey, HealArray, HealObject, Run, Covered;
    var s := Run(INIT, str);
    RunReachable(INIT, str);
    TopOfSaxStack(AtEnd(s));
    if TopIs(s, InArray) {
      ArrayCovered(str, marker);
    } else if AwaitsValue(AtEnd(s).mode) {
      KeyCovered(str, marker);
    } else {
      ObjectCovered(str, marker);
    }
  }

  // A token that is wrong is read to its end, so that the text before the error may hold it.
  lemma BadCovered(str: string, b: State, marker: string)
    requires Run(INIT, str).mode.Bad? && LastNonSpace(str) >= 0 && SaxStack(b) != [] && b.stack != []
    ensures Covered(str, b, marker, Heal(str, TopOf(b), marker, Closing(b.stack)))
  {
    hide Accepts, Run, SameContext, SaxStack;
    ClosingIsBrackets(b.stack);
    ProbesFail(str, Closing(b.stack));
    TopOfSaxStack(b);
  }

  // Where the parser stands when it reports an error, seen from the text before the reported position.
  lemma BrokenPlace(input: string)
    ensures var s := Run(INIT, input[..Reported(input)]);
            s.mode.Bad? || (Broken(input).stack == s.stack && SaxStack(Broken(input)) == SaxStack(AtEnd(s)))
  {
    hide LastOfToken, SaxStack, Step;
    var i := Halt(INIT, input);
    var s := Run(INIT, input[..i]);
    if i < |input| {
      HaltAt(INIT, input, i);
      if Reported(input) == i {
        SettlesAtEnd(s, input[i]);
      } else {
        var str := input[..Reported(input)];
        assert str[..i + 1][..i] == input[..i];
        RunLast(INIT, str[..i + 1]);
        BadPrefix(INIT, str, i + 1);
      }
    }
  }

  lemma SettlesAtEnd(s: State, c: char)
    requires Step(s, c).mode.Bad?
    ensures Settle(s, c) == AtEnd(s)
  {
  }

  lemma HealedAsCovered(str: string, b: State, top: Element, marker: string, end: nat)
    requires Decimal(marker) && LastNonSpace(str) >= 0
    requires Covered(str, b, marker, Heal(str, top, marker, Closing(b.stack)))
    ensures var o := Carry(str, Heal(str, top, marker, Closing(b.stack)), end);
            && (o.Healed? || o.Throws?)
            && (o.Healed? ==> o.end == end)
            && (o.Healed? <==> !BeyondProbes(Run(INIT, str).mode) || CutIsStructural(str, b))
  {
    hide Accepts, Heal, Run, Brackets;
    CutResult(str, b, marker, end);
    ClosingIsBrackets(b.stack);
    GuardedHealingIsSound(str, top, marker, Closing(b.stack));
  }

  // The parse of any text. Let str be the text before the reported position and b the state in which
  // the parser found the error. A complete str is parsed; an error outside every container gives no
  // value; otherwise the text heals, to the reported position, unless str has gone wrong before its
  // end or breaks off inside a unicode escape, and then it heals exactly if the cut is right.
  lemma HealingExact(input: string, marker: string)
    requires Decimal(marker)
    ensures var end := Reported(input);
            var str := input[..end];
            var b := Broken(input);
            var o := Parse(input, marker);
            if Accepts(input) then o == Parsed(|input|)
            else if Accepts(str) then o == Parsed(end)
            else if b.stack == [] then o == NotParsed
            else
              && (o.Healed? || o.Throws?)
              && (o.Healed? ==> o.end == end)
              && (o.Healed? <==> !BeyondProbes(Run(INIT, str).mode) || CutIsStructural(str, b))
  {
    hide Accepts, Heal, Carry, SaxStack, Run, Reported, Broken, Closing, ClosingOf, LastNonSpace, CutIsStructural;
    var str := input[..Reported(input)];
    var b := Broken(input);
    var s := Run(INIT, str);
    ClosingOfSaxStack(b);
    if !Accepts(input) && !Accepts(str) && b.stack != [] {
      BrokenPlace(input);
      if LastNonSpace(str) < 0 {
        OnlyBlanks(str);
      }
      if s.mode.Bad? {
        BadCovered(str, b, marker);
      } else {
        HealCovered(str, marker);
        CoveredByStack(str, s, b, marker, Heal(str, TopOf(AtEnd(s)), marker, Closing(s.stack)));
      }
      HealedAsCovered(str, b, TopOf(b), marker, Reported(input));
    }
  }

  lemma CoveredByStack(str: string, s: State, b: State, marker: string, plan: Plan)
    requires Covered(str, s, marker, plan) && s.stack == b.stack
    ensures Covered(str, b, marker, plan)
  {
  }

  // Every truncated text heals, to its very end, unless it breaks off inside a unicode escape; and
  // such a text heals exactly if the cut finds the start of a value of the innermost open container.
  lemma TruncatedHealing(input: string, marker: string)
    requires Truncated(input) && Decimal(marker)
    ensures var o := Parse(input, marker);
            && (o.Healed? || o.Throws?)
            && (o.Healed? <==> !Escaping(Run(INIT, input).mode) || CutIsStructural(input, Run(INIT, input)))
            && (o.Healed? ==> o.end == |input|)
  {
    hide Parse, Run, Reported, Broken;
    BrokenAtEnd(input);
    NotAccepted(input);
    HealingExact(input, marker);
  }

  // A text that heals although it breaks off in an escape, and one that does not.
  lemma EscapeCanFail()
    ensures Parse("[\"\\u", "7").Healed?
    ensures Parse("[\",\\u", "7") == Throws
  {
    hide Parse;
    var a, b := "[\"\\u", "[\",\\u";
    assert Run(INIT, a) == State(Str(false, Hex(4, 0, false)), [InArray]);
    assert Run(INIT, b) == State(Str(false, Hex(4, 0, false)), [InArray]);
    assert a[..3] == "[\"\\" && a[..3][..2] == "[\"" && a[..3][..2][..1] == "[" == a[..1];
    assert LastOf("[", "[,") == 0 && LastOf("[\"", "[,") == 0 && LastOf("[\"\\", "[,") == 0 && LastOf(a, "[,") == 0;
    assert b[..4] == "[\",\\" && b[..4][..3] == "[\"," == b[..3];
    assert LastOf("[\",", "[,") == 2 && LastOf("[\",\\", "[,") == 2 && LastOf(b, "[,") == 2;
    assert Run(INIT, "[") == State(ValueOrEnd, [InArray]);
    assert Run(INIT, "[\",") == State(Str(false, Plain), [InArray]);
    TruncatedHealing(a, "7");
    TruncatedHealing(b, "7");
  }

  // A text that goes wrong with a string it has no place for, which is read to its end: one that heals
  // by dropping the string, and one in which the cut is misled by the comma in it.
  lemma BrokenTokenCanFail()
    ensures Parse("[1 \"", "7").Healed?
    ensures Parse("[1 \",", "7") == Throws
  {
    hide Parse, Accepts, Reported, Broken, Run, CutIsStructural;
    BrokenToken("[1 \"");
    BrokenToken("[1 \",");
    MisledCut();
    HealingExact("[1 \"", "7");
    HealingExact("[1 \",", "7");
  }

  lemma MisledCut()
    ensures CutIsStructural("[1 \"", State(After, [InArray]))
    ensures Run(INIT, "[1 \",").mode.Bad? ==> !CutIsStructural("[1 \",", State(After, [InArray]))
  {
    var a, b := "[1 \"", "[1 \",";
    assert a[..3] == "[1 " && a[..3][..2] == "[1" && a[..3][..2][..1] == "[" == a[..1];
    assert LastOf("[", "[,") == 0 && LastOf("[1", "[,") == 0 && LastOf("[1 ", "[,") == 0 && LastOf(a, "[,") == 0;
    assert LastOf(b, "[,") == 4 && b[..5] == b;
    Run1(INIT, '[');
    assert Step(INIT, '[') == State(ValueOrEnd, [InArray]);
  }

  lemma HaltsAtQuote(text: string)
    requires text == "[1 \"" || text == "[1 \","
    ensures Halt(INIT, text) == 3 && Run(INIT, text[..3]) == State(After, [InArray]) && Run(INIT, text).mode.Bad?
  {
    hide Halt, Step, Run, BAD;
    assert text[..3] == "[1 ";
    Run1(INIT, '[');
    Run2(INIT, '[', '1');
    Run3(INIT, '[', '1', ' ');
    FirstSteps();
    RunNothing(INIT);
    HaltPast(text, "", '[');
    HaltPast(text, "[", '1');
    HaltPast(text, "[1", ' ');
    HaltAt(INIT, text, 3);
    assert text[..4] == "[1 \"" && text[..4][..3] == "[1 ";
    RunLast(INIT, text[..4]);
    BadPrefix(INIT, text, 4);
  }

  lemma HaltPast(text: string, head: string, c: char)
    requires head + [c] <= text && |head| <= Halt(INIT, text) && !Step(Run(INIT, head), c).mode.Bad?
    ensures |head| + 1 <= Halt(INIT, text)
  {
    assert text[..|head|] == head && text[|head|] == c;
    HaltAt(INIT, text, |head|);
  }

  lemma BrokenToken(text: string)
    requires text == "[1 \"" || text == "[1 \","
    ensures Reported(text) == |text| && Run(INIT, text).mode.Bad? && Broken(text) == State(After, [InArray])
    ensures !Accepts(text) && text[..|text|] == text
  {
    hide Halt, Step, Run;
    HaltsAtQuote(text);
    FirstSteps();
    var t := State(Str(false, Plain), []);
    assert LastOfToken(t, text, |text|) == |text|;
    assert LastOfToken(t, text, 4) == |text|;
    assert text[..|text|] == text;
  }

  lemma FirstSteps()
    ensures var s := Step(INIT, '['); !s.mode.Bad? && !Step(s, '1').mode.Bad?
    ensures Step(Step(Step(INIT, '['), '1'), ' ') == State(After, [InArray])
    ensures Step(State(After, [InArray]), '"').mode.Bad?
    ensures var t := State(Str(false, Plain), []); Step(t, ',') == t == StepValue(Value, [], '"')
  {
  }
}
