// Every repair whose branch a probe opened yields a text the grammar accepts.
module JsonSoundness {
  import opened JsonAutomaton
  import opened JsonLocator
  import opened JsonHealing

  predicate IsQuote(s: State, isKey: bool) {
    s.mode.Str? && s.mode.esc.Plain? && s.mode.isKey == isKey
  }

  // ---------- putting the marker in ----------

  // Where a value may start, the quoted marker is one.
  lemma ValueHeals(str: string, marker: string, closing: string)
    requires Decimal(marker) && Brackets(closing)
    requires var s := Run(INIT, str); (s.mode.Value? || s.mode.ValueOrEnd?) && Closes(State(After, s.stack), closing)
    ensures Accepts(str + ("\"" + marker) + ("\"" + closing))
  {
    var s := Run(INIT, str);
    Assemble(str, "\"", marker, "\"", closing);
    Run1(s, '"');
    DigitsInString(Step(s, '"'), marker);
    Run1(Step(s, '"'), '"');
  }

  // Where a key may start, the quoted marker is one, with 1 for its value.
  lemma KeyHeals(str: string, marker: string, closing: string)
    requires Decimal(marker) && Brackets(closing)
    requires var s := Run(INIT, str); (s.mode.Key? || s.mode.KeyOrEnd?) && Closes(State(After, s.stack), closing)
    ensures Accepts(str + ("\"" + marker) + ("\": 1" + closing))
  {
    var s := Run(INIT, str);
    Assemble(str, "\"", marker, "\": 1", closing);
    Run1(s, '"');
    DigitsInString(Step(s, '"'), marker);
    Run4(Step(s, '"'), '"', ':', ' ', '1');
    NumberCloses(Digits, s.stack, closing);
  }

  // Inside the string of a value, or after a backslash in it.
  lemma StringHeals(str: string, before: string, marker: string, closing: string)
    requires Decimal(marker) && Brackets(closing)
    requires IsQuote(Run(Run(INIT, str), before), false)
    requires Closes(State(After, Run(Run(INIT, str), before).stack), closing)
    ensures Accepts(str + (before + marker) + ("\"" + closing))
  {
    var t := Run(Run(INIT, str), before);
    Assemble(str, before, marker, "\"", closing);
    DigitsInString(t, marker);
    Run1(t, '"');
  }

  lemma KeyStringHeals(str: string, before: string, marker: string, closing: string)
    requires Decimal(marker) && Brackets(closing)
    requires IsQuote(Run(Run(INIT, str), before), true)
    requires Closes(State(After, Run(Run(INIT, str), before).stack), closing)
    ensures Accepts(str + (before + marker) + ("\": 1" + closing))
  {
    var t := Run(Run(INIT, str), before);
    Assemble(str, before, marker, "\": 1", closing);
    DigitsInString(t, marker);
    Run4(t, '"', ':', ' ', '1');
    NumberCloses(Digits, t.stack, closing);
  }

  // After a complete value in an array, and in an object.
  lemma NextValueHeals(str: string, marker: string, closing: string)
    requires Decimal(marker) && Brackets(closing)
    requires var s := Run(INIT, str);
             (s.mode.After? || NumberDone(s.mode)) && TopIs(s, InArray) && Closes(State(After, s.stack), closing)
    ensures Accepts(str + (",\"" + marker) + ("\"" + closing))
  {
    var s := Run(INIT, str);
    Run2(s, ',', '"');
    StringHeals(str, ",\"", marker, closing);
  }

  lemma NextKeyHeals(str: string, marker: string, closing: string)
    requires Decimal(marker) && Brackets(closing)
    requires var s := Run(INIT, str);
             (s.mode.After? || NumberDone(s.mode)) && TopIs(s, InObject) && Closes(State(After, s.stack), closing)
    ensures Accepts(str + (",\"" + marker) + ("\": 1" + closing))
  {
    var s := Run(INIT, str);
    Run2(s, ',', '"');
    KeyStringHeals(str, ",\"", marker, closing);
  }

  // After a key.
  lemma ColonHeals(str: string, marker: string, closing: string)
    requires Decimal(marker) && Brackets(closing)
    requires var s := Run(INIT, str); s.mode.Colon? && Closes(State(After, s.stack), closing)
    ensures Accepts(str + (":\"" + marker) + ("\"" + closing))
  {
    var s := Run(INIT, str);
    Run2(s, ':', '"');
    StringHeals(str, ":\"", marker, closing);
  }

  // ---------- which states a character can have come from ----------

  lemma BeforeDigit(s: State)
    requires Reachable(s) && AsGoodAsAfter(Step(s, '1').mode)
    ensures (s.mode.Value? || s.mode.ValueOrEnd? || s.mode.Num?) && Step(s, '1').stack == s.stack
  {
  }

  lemma BeforeBlank(s: State)
    requires Reachable(s) && (Step(s, ' ').mode.Value? || Step(s, ' ').mode.ValueOrEnd? || Step(s, ' ').mode.Num?)
    ensures (s.mode.Value? || s.mode.ValueOrEnd?) && Step(s, ' ').stack == s.stack
  {
  }

  lemma BeforeColon(s: State)
    requires Reachable(s) && (Step(s, ':').mode.Value? || Step(s, ':').mode.ValueOrEnd?)
    ensures s.mode.Colon? && Step(s, ':').stack == s.stack
  {
  }

  lemma BeforeComma(s: State)
    requires Reachable(s)
    ensures var t := Step(s, ',');
            t.mode.Value? || t.mode.ValueOrEnd? || t.mode.Key? || t.mode.KeyOrEnd? ==>
              && (s.mode.After? || NumberDone(s.mode)) && t.stack == s.stack
              && (t.mode.Key? || t.mode.KeyOrEnd? <==> TopIs(s, InObject))
              && (t.mode.Value? || t.mode.ValueOrEnd? <==> TopIs(s, InArray))
    ensures var t := Step(s, ','); !(t.mode.Str? && t.mode.esc.Backslash?)
  {
  }

  lemma BeforeQuote(s: State)
    requires Reachable(s)
    ensures var t := Step(s, '"');
            && (AsGoodAsAfter(t.mode) ==> IsQuote(s, false) && t.stack == s.stack)
            && (t.mode.Colon? ==> IsQuote(s, true) && t.stack == s.stack)
            && (IsQuote(t, true) ==> t.stack == s.stack)
            && (IsQuote(t, true) ==> s.mode.Key? || s.mode.KeyOrEnd? || (s.mode.Str? && s.mode.esc.Backslash?))
  {
  }

  lemma BeforeKeyTail(s: State)
    requires Reachable(s) && AsGoodAsAfter(Run(s, ": 1").mode)
    ensures s.mode.Colon? && Run(s, ": 1").stack == s.stack
  {
    hide Step;
    Run3(s, ':', ' ', '1');
    StepReachable(s, ':');
    StepReachable(Step(s, ':'), ' ');
    BeforeDigit(Step(Step(s, ':'), ' '));
    BeforeBlank(Step(s, ':'));
    BeforeColon(s);
  }

  lemma BeforeQuotedTail(s: State)
    requires Reachable(s) && AsGoodAsAfter(Run(s, "\": 1").mode)
    ensures IsQuote(s, true) && Run(s, "\": 1").stack == s.stack
  {
    hide Step;
    assert "\": 1" == "\"" + ": 1";
    RunConcat(s, "\"", ": 1");
    Run1(s, '"');
    StepReachable(s, '"');
    BeforeKeyTail(Step(s, '"'));
    BeforeQuote(s);
  }

  // ---------- what a probe that parses tells ----------

  lemma Probe(str: string, text: string, closing: string)
    requires Brackets(closing) && Accepts(str + text + closing)
    ensures var t := Run(Run(INIT, str), text); AsGoodAsAfter(t.mode) && Closes(State(After, t.stack), closing)
    ensures Reachable(Run(INIT, str))
  {
    AcceptsAfter(str, text, closing);
    RunReachable(INIT, str);
    RunReachable(Run(INIT, str), text);
    ClosedModes(Run(Run(INIT, str), text), closing);
  }

  lemma ProbeValue(str: string, closing: string)
    requires Brackets(closing) && Accepts(str + "1" + closing)
    ensures var s := Run(INIT, str);
            (s.mode.Value? || s.mode.ValueOrEnd? || s.mode.Num?) && Closes(State(After, s.stack), closing)
  {
    hide Step;
    Probe(str, "1", closing);
    Run1(Run(INIT, str), '1');
    BeforeDigit(Run(INIT, str));
  }

  lemma ProbeColon(str: string, closing: string)
    requires Brackets(closing) && Accepts(str + ": 1" + closing)
    ensures var s := Run(INIT, str); s.mode.Colon? && Closes(State(After, s.stack), closing)
  {
    Probe(str, ": 1", closing);
    BeforeKeyTail(Run(INIT, str));
  }

  lemma ProbeNothing(str: string, closing: string)
    requires Brackets(closing) && Accepts(str + "" + closing)
    ensures var s := Run(INIT, str); AsGoodAsAfter(s.mode) && Closes(State(After, s.stack), closing)
  {
    Probe(str, "", closing);
  }

  lemma ProbeQuote(str: string, closing: string)
    requires Brackets(closing) && Accepts(str + "\"" + closing)
    ensures var s := Run(INIT, str); IsQuote(s, false) && Closes(State(After, s.stack), closing)
  {
    hide Step;
    Probe(str, "\"", closing);
    Run1(Run(INIT, str), '"');
    BeforeQuote(Run(INIT, str));
  }

  lemma ProbeEscape(str: string, closing: string)
    requires Brackets(closing) && Accepts(str + "\\\"" + closing)
    ensures var t := Run(Run(INIT, str), "\\"); IsQuote(t, false) && Closes(State(After, t.stack), closing)
  {
    hide Step;
    var s := Run(INIT, str);
    Probe(str, "\\\"", closing);
    Run1(s, '\\');
    Run2(s, '\\', '"');
    StepReachable(s, '\\');
    BeforeQuote(Step(s, '\\'));
  }

  lemma ProbeNextValue(str: string, closing: string)
    requires Brackets(closing) && Accepts(str + ", 1" + closing)
    ensures var s := Run(INIT, str);
            (s.mode.After? || NumberDone(s.mode)) && TopIs(s, InArray) && Closes(State(After, s.stack), closing)
  {
    hide Step;
    var s := Run(INIT, str);
    Probe(str, ", 1", closing);
    Run3(s, ',', ' ', '1');
    StepReachable(s, ',');
    StepReachable(Step(s, ','), ' ');
    BeforeDigit(Step(Step(s, ','), ' '));
    BeforeBlank(Step(s, ','));
    BeforeComma(s);
  }

  lemma ProbeKey(str: string, closing: string)
    requires Brackets(closing) && Accepts(str + "\"\": 1" + closing)
    requires !EndsWithBackslash(str)
    ensures var s := Run(INIT, str); (s.mode.Key? || s.mode.KeyOrEnd?) && Closes(State(After, s.stack), closing)
  {
    hide Step;
    var s := Run(INIT, str);
    Probe(str, "\"\": 1", closing);
    assert "\"\": 1" == "\"" + "\": 1";
    RunConcat(s, "\"", "\": 1");
    Run1(s, '"');
    StepReachable(s, '"');
    BeforeQuotedTail(Step(s, '"'));
    BeforeQuote(s);
    if s.mode.Str? && s.mode.esc.Backslash? {
      LastOfEscape(str);
    }
  }

  lemma ProbeNextKey(str: string, closing: string)
    requires Brackets(closing) && Accepts(str + ",\"\": 1" + closing)
    ensures var s := Run(INIT, str);
            (s.mode.After? || NumberDone(s.mode)) && TopIs(s, InObject) && Closes(State(After, s.stack), closing)
  {
    hide Step;
    var s := Run(INIT, str);
    Probe(str, ",\"\": 1", closing);
    assert ",\"\": 1" == ",\"" + "\": 1";
    RunConcat(s, ",\"", "\": 1");
    Run2(s, ',', '"');
    StepReachable(s, ',');
    StepReachable(Step(s, ','), '"');
    BeforeQuotedTail(Step(Step(s, ','), '"'));
    BeforeQuote(Step(s, ','));
    BeforeComma(s);
  }

  lemma ProbeKeyQuote(str: string, closing: string)
    requires Brackets(closing) && Accepts(str + "\": 1" + closing)
    ensures var s := Run(INIT, str); IsQuote(s, true) && Closes(State(After, s.stack), closing)
  {
    Probe(str, "\": 1", closing);
    BeforeQuotedTail(Run(INIT, str));
  }

  lemma ProbeKeyEscape(str: string, closing: string)
    requires Brackets(closing) && Accepts(str + "\\\": 1" + closing)
    ensures var t := Run(Run(INIT, str), "\\"); IsQuote(t, true) && Closes(State(After, t.stack), closing)
  {
    hide Step;
    var s := Run(INIT, str);
    Probe(str, "\\\": 1", closing);
    assert "\\\": 1" == "\\" + "\": 1";
    RunConcat(s, "\\", "\": 1");
    RunReachable(s, "\\");
    BeforeQuotedTail(Run(s, "\\"));
  }

  // ---------- the theorem, container by container ----------

  lemma HealKeySound(str: string, marker: string, closing: string)
    requires Decimal(marker) && Brackets(closing) && LastNonSpace(str) >= 0
    ensures var p := HealKey(str, str[LastNonSpace(str)], marker, closing);
            p.Probed? ==> Accepts(str + p.dump + p.tail)
  {
    hide Closes, Accepts, Run;
    var last := str[LastNonSpace(str)];
    LastFits(str);
    if last == ':' && Accepts(str + "1" + closing) {
      ProbeValue(str, closing);
      ValueHeals(str, marker, closing);
    } else if Accepts(str + ": 1" + closing) {
      ProbeColon(str, closing);
      ColonHeals(str, marker, closing);
    } else if last == '{' && Accepts(str + "" + closing) {
      ProbeNothing(str, closing);
      KeyHeals(str, marker, closing);
    } else if Accepts(str + "\"" + closing) {
      ProbeQuote(str, closing);
      RunNothing(Run(INIT, str));
      StringHeals(str, "", marker, closing);
    } else if EndsWithBackslash(str) && Accepts(str + "\\\"" + closing) {
      ProbeEscape(str, closing);
      StringHeals(str, "\\", marker, closing);
    }
  }

  lemma HealArraySound(str: string, marker: string, closing: string)
    requires Decimal(marker) && Brackets(closing) && LastNonSpace(str) >= 0
    ensures var p := HealArray(str, str[LastNonSpace(str)], marker, closing);
            p.Probed? ==> Accepts(str + p.dump + p.tail)
  {
    hide Closes, Accepts, Run;
    var last := str[LastNonSpace(str)];
    LastFits(str);
    if (last == ',' || last == '[') && Accepts(str + "1" + closing) {
      ProbeValue(str, closing);
      ValueHeals(str, marker, closing);
    } else if Accepts(str + "\"" + closing) {
      ProbeQuote(str, closing);
      RunNothing(Run(INIT, str));
      StringHeals(str, "", marker, closing);
    } else if EndsWithBackslash(str) && Accepts(str + "\\\"" + closing) {
      ProbeEscape(str, closing);
      StringHeals(str, "\\", marker, closing);
    } else if !WasMaybeNumber(str, last) && Accepts(str + ", 1" + closing) {
      ProbeNextValue(str, closing);
      NextValueHeals(str, marker, closing);
    }
  }

  lemma RunNothing(s: State)
    ensures Run(s, "") == s
  {
  }

  lemma HealObjectSound(str: string, marker: string, closing: string)
    requires Decimal(marker) && Brackets(closing) && LastNonSpace(str) >= 0
    ensures var p := HealObject(str, str[LastNonSpace(str)], marker, closing);
            p.Probed? ==> Accepts(str + p.dump + p.tail)
  {
    hide Closes, Accepts, Run;
    var last := str[LastNonSpace(str)];
    LastFits(str);
    if last == '{' && Accepts(str + "" + closing) {
      ProbeNothing(str, closing);
      KeyHeals(str, marker, closing);
    } else if last == ',' && Accepts(str + "\"\": 1" + closing) {
      ProbeKey(str, closing);
      KeyHeals(str, marker, closing);
    } else if !WasMaybeNumber(str, last) && Accepts(str + ",\"\": 1" + closing) {
      ProbeNextKey(str, closing);
      NextKeyHeals(str, marker, closing);
    } else if Accepts(str + "\": 1" + closing) {
      ProbeKeyQuote(str, closing);
      RunNothing(Run(INIT, str));
      KeyStringHeals(str, "", marker, closing);
    } else if EndsWithBackslash(str) && Accepts(str + "\\\": 1" + closing) {
      ProbeKeyEscape(str, closing);
      KeyStringHeals(str, "\\", marker, closing);
    }
  }

  // For every text, however it breaks off, and any closing brackets: in each branch that a probe
  // opened the marker's text parses where the probe's did.
  lemma GuardedHealingIsSound(str: string, top: Element, marker: string, closing: string)
    requires Decimal(marker) && Brackets(closing) && LastNonSpace(str) >= 0
    ensures var p := Heal(str, top, marker, closing);
            p.Probed? ==> Accepts(str + p.dump + p.tail)
  {
    match top
    case KEY => HealKeySound(str, marker, closing);
    case ARRAY => HealArraySound(str, marker, closing);
    case OBJECT => HealObjectSound(str, marker, closing);
  }
}
