// The dump marker in the printed value of a healed text: cutting there gives back the input without
// the blanks between its tokens, and cleaning the value removes all that the healing put in.
module DumpMarker {
  import opened Outcomes
  import opened Characters
  import opened ChatText
  import opened JsonAutomaton
  import opened JsonLocator
  import opened JsonHealing
  import opened JsonExactness
  import opened JsonMarker
  import opened JsonCleaner
  import opened JsonValues
  import opened CleanerSoundness

  // ---------- the parts of a healed text ----------

  function HealedText(o: Outcome): string
    requires o.Healed?
  {
    o.kept + o.dump + o.tail
  }

  predicate Quoted(tail: string, closing: string) {
    closing != "" && Brackets(closing) && (tail == "\"" + closing || tail == "\": 1" + closing)
  }

  predicate Parts(o: Outcome, lead: string, closing: string, marker: string)
    requires o.Healed?
  {
    o.dump == lead + marker && lead in {"", "\"", ":\"", ",\""} && Quoted(o.tail, closing)
  }

  lemma NoBackslash(str: string)
    requires '\\' !in str
    ensures !EndsWithBackslash(str)
  {
  }

  lemma PlanParts(str: string, top: Element, marker: string, closing: string) returns (lead: string)
    requires LastNonSpace(str) >= 0 && '\\' !in str && closing != "" && Brackets(closing)
    ensures lead in {"", "\"", ":\"", ",\""}
    ensures var p := Heal(str, top, marker, closing); p.Lost? || (p.dump == lead + marker && Quoted(p.tail, closing))
  {
    hide Accepts;
    NoBackslash(str);
    var p := Heal(str, top, marker, closing);
    lead := if p.Lost? then "" else p.dump[..|p.dump| - |marker|];
    assert "" + marker == marker;
  }

  lemma HealedParts(input: string, marker: string) returns (lead: string, closing: string)
    requires Parse(input, marker).Healed? && '\\' !in input
    ensures var o := Parse(input, marker); Parts(o, lead, closing, marker) && Accepts(HealedText(o)) && o.kept <= input
    ensures '\\' !in Parse(input, marker).kept
  {
    hide Accepts, Heal, LastNonSpace, ClosingOf, SaxStack, Reported, Broken;
    var str := input[..Reported(input)];
    var b := Broken(input);
    ClosingOfSaxStack(b);
    ClosingIsBrackets(b.stack);
    closing := ClosingOf(SaxStack(b));
    var stack := SaxStack(b);
    lead := PlanParts(str, stack[|stack| - 1], marker, closing);
  }

  lemma {:induction false} NothingDropped(s: State, text: string)
    requires forall i | 0 <= i < |text| :: !IsBlank(text[i])
    ensures Squeeze(s, text) == text
    decreases |text|
  {
    if text != "" {
      NothingDropped(Step(s, text[0]), text[1..]);
      assert text == [text[0]] + text[1..];
    }
  }

  // The tail without its blank.
  function Tight(tail: string, closing: string): string {
    if tail == "\"" + closing then tail else "\":1" + closing
  }

  lemma SqueezedTail(s: State, tail: string, closing: string)
    requires Quoted(tail, closing) && s.mode.Str? && s.mode.esc.Plain?
    ensures Squeeze(s, tail) == Tight(tail, closing)
  {
    hide Step, Run, Squeeze;
    if tail == "\"" + closing {
      NothingDropped(s, tail);
    } else {
      var rest := "1" + closing;
      assert tail == "\":" + (" " + rest);
      SqueezeConcat(s, "\":", " " + rest);
      NothingDropped(s, "\":");
      AfterKey(s);
      BlankDropped(Run(s, "\":"), rest);
      assert "\":" + rest == "\":1" + closing;
    }
  }

  lemma BlankDropped(s: State, rest: string)
    requires !s.mode.Str? && forall i | 0 <= i < |rest| :: !IsBlank(rest[i])
    ensures Squeeze(s, " " + rest) == rest
  {
    hide Step;
    assert (" " + rest)[1..] == rest && (" " + rest)[0] == ' ';
    NothingDropped(Step(s, ' '), rest);
    assert "" + rest == rest;
  }

  lemma AfterKey(s: State)
    requires s.mode.Str? && s.mode.esc.Plain?
    ensures !Run(s, "\":").mode.Str?
  {
    Run2(s, '"', ':');
  }

  lemma {:induction false} NoEscape(s: State, text: string)
    requires '\\' !in text && (s.mode.Str? ==> s.mode.esc.Plain?)
    ensures Run(s, text).mode.Str? ==> Run(s, text).mode.esc.Plain?
    decreases |text|
  {
    if text != "" {
      StepNoEscape(s, text[0]);
      hide Step;
      NoEscape(Step(s, text[0]), text[1..]);
    }
  }

  lemma StepNoEscape(s: State, c: char)
    requires c != '\\' && (s.mode.Str? ==> s.mode.esc.Plain?)
    ensures Step(s, c).mode.Str? ==> Step(s, c).mode.esc.Plain?
  {
  }

  // A quote that starts a string cannot be the end of what was healed.
  lemma TailInString(s: State, tail: string, closing: string)
    requires Quoted(tail, closing) && Closes(s, tail) && Reachable(s)
    ensures s.mode.Str?
  {
    hide Closes, Step;
    if !s.mode.Str? {
      QuoteOpens(s);
      var t := Step(s, '"');
      if tail == "\"" + closing {
        assert tail[1..] == closing;
        StringNotClosed(t, closing);
        ClosesTail(s, tail);
      } else {
        assert tail[1..] == ": 1" + closing;
        RunConcat(t, ": 1", closing);
        StaysOpen(t);
        StringNotClosed(Run(t, ": 1"), closing);
        ClosesTail(s, tail);
        ClosesConcat(t, ": 1", closing);
      }
      assert false;
    }
  }

  lemma ClosesTail(s: State, tail: string)
    requires tail != ""
    ensures Closes(s, tail) <==> Closes(Step(s, tail[0]), tail[1..])
  {
  }

  lemma ClosesConcat(s: State, a: string, b: string)
    ensures Closes(s, a + b) <==> Closes(Run(s, a), b)
  {
    RunConcat(s, a, b);
  }

  lemma QuoteOpens(s: State)
    requires !s.mode.Str? && Reachable(s)
    ensures var t := Step(s, '"'); t.mode.Bad? || (t.mode.Str? && t.mode.esc.Plain?)
  {
  }

  lemma StaysOpen(t: State)
    requires t.mode.Bad? || (t.mode.Str? && t.mode.esc.Plain?)
    ensures Run(t, ": 1").mode.Bad? || Run(t, ": 1").mode.Str?
  {
    Run3(t, ':', ' ', '1');
  }

  lemma {:induction false} AcceptedIsNotBad(a: string, b: string)
    requires Accepts(a + b)
    ensures !Run(INIT, a).mode.Bad? && Closes(Run(INIT, a), b)
  {
    RunConcat(INIT, a, b);
    if Run(INIT, a).mode.Bad? {
      RunBad(Run(INIT, a), b);
    }
  }

  // Printing drops blanks of the kept text and of the tail, and nothing at the place of healing.
  lemma SqueezedParts(o: Outcome, lead: string, closing: string, marker: string)
    requires o.Healed? && Parts(o, lead, closing, marker) && Decimal(marker) && '\\' !in o.kept && Accepts(HealedText(o))
    ensures Squeeze(INIT, HealedText(o)) == Squeeze(INIT, o.kept) + o.dump + Tight(o.tail, closing)
    ensures '\\' !in HealedText(o)
  {
    hide Accepts, Closes, Run, Squeeze, Brackets;
    var s, s' := Run(INIT, o.kept), Run(INIT, o.kept + o.dump);
    SqueezeConcat(INIT, o.kept + o.dump, o.tail);
    SqueezeConcat(INIT, o.kept, o.dump);
    DumpChars(o, lead, closing, marker);
    NothingDropped(s, o.dump);
    AcceptedIsNotBad(o.kept + o.dump, o.tail);
    RunReachable(INIT, o.kept + o.dump);
    TailInString(s', o.tail, closing);
    NoEscape(INIT, o.kept + o.dump);
    SqueezedTail(s', o.tail, closing);
  }

  lemma DumpChars(o: Outcome, lead: string, closing: string, marker: string)
    requires o.Healed? && Parts(o, lead, closing, marker) && Decimal(marker)
    ensures forall i | 0 <= i < |o.dump| :: !IsBlank(o.dump[i]) && o.dump[i] != '\\'
    ensures '\\' !in o.dump && '\\' !in o.tail
  {
    forall i | 0 <= i < |o.dump|
      ensures !IsBlank(o.dump[i]) && o.dump[i] != '\\'
    {
      if i >= |lead| {
        assert IsDigit(marker[i - |lead|]) && o.dump[i] == marker[i - |lead|];
      }
    }
  }

  // ---------- the marker is not made by dropping blanks ----------

  lemma SqueezeLast(text: string)
    requires text != ""
    ensures var n := |text| - 1;
            Squeeze(INIT, text) == Squeeze(INIT, text[..n]) + if Drops(Run(INIT, text[..n]), text[n]) then "" else [text[n]]
  {
    hide Step;
    var n := |text| - 1;
    assert text == text[..n] + [text[n]];
    SqueezeConcat(INIT, text[..n], [text[n]]);
    var s := Run(INIT, text[..n]);
    assert [text[n]][1..] == "" && Squeeze(Step(s, text[n]), "") == "";
    var more := if Drops(s, text[n]) then "" else [text[n]];
    assert more + "" == more;
  }

  lemma BlankStep(s: State, c: char)
    requires IsBlank(c) && !Step(s, c).mode.Bad? && Reachable(s)
    ensures s.mode.Str? <==> Step(s, c).mode.Str?
  {
  }

  // Outside strings the last character that is left is the last one that is not blank.
  lemma {:induction false} LastLeft(text: string)
    requires !Run(INIT, text).mode.Bad? && !Run(INIT, text).mode.Str? && Squeeze(INIT, text) != ""
    ensures var t := Squeeze(INIT, text); LastNonSpace(text) >= 0 && t[|t| - 1] == text[LastNonSpace(text)]
    decreases |text|
  {
    hide Step, Run, Squeeze;
    if text == "" {
      NoText();
    } else {
      var n := |text| - 1;
      RunLast(INIT, text);
      SqueezeLast(text);
      if IsBlank(text[n]) {
        AcceptedPart(text, n);
        RunReachable(INIT, text[..n]);
        BlankStep(Run(INIT, text[..n]), text[n]);
        assert Squeeze(INIT, text[..n]) + "" == Squeeze(INIT, text[..n]);
        LastLeft(text[..n]);
      }
    }
  }

  lemma NoText()
    ensures Squeeze(INIT, "") == ""
  {
  }

  lemma AcceptedPart(text: string, n: nat)
    requires n <= |text| && !Run(INIT, text).mode.Bad?
    ensures !Run(INIT, text[..n]).mode.Bad?
  {
    if Run(INIT, text[..n]).mode.Bad? {
      BadPrefix(INIT, text, n);
    }
  }

  lemma DigitAfterBlank(s: State, b: char, c: char)
    requires Reachable(s) && Drops(s, b) && IsDigit(c) && !Step(Step(s, b), c).mode.Bad?
    ensures Step(s, b).mode.Value? || Step(s, b).mode.ValueOrEnd?
  {
  }

  // No blank is dropped between two digits.
  lemma NoGap(text: string, c: char)
    requires text != "" && IsDigit(c) && !Step(Run(INIT, text), c).mode.Bad? && Squeeze(INIT, text) != ""
    requires var t := Squeeze(INIT, text); IsDigit(t[|t| - 1])
    ensures var n := |text| - 1; !Drops(Run(INIT, text[..n]), text[n])
  {
    hide Step, Run, Squeeze;
    var n := |text| - 1;
    var s := Run(INIT, text[..n]);
    if Drops(s, text[n]) {
      RunLast(INIT, text);
      RunReachable(INIT, text[..n]);
      DigitAfterBlank(s, text[n], c);
      LastLeft(text);
      LastFits(text);
    }
  }

  // Digits at the end of what is left are the end of the text.
  lemma {:induction false} DigitsAtEnd(text: string, d: string)
    requires !Run(INIT, text).mode.Bad? && Decimal(d) && text != ""
    requires !Drops(Run(INIT, text[..|text| - 1]), text[|text| - 1])
    requires var t := Squeeze(INIT, text); |d| <= |t| && t[|t| - |d|..] == d
    ensures |d| <= |text| && text[|text| - |d|..] == d
    decreases |d|
  {
    hide Step, Run, Squeeze, Drops;
    var n, k := |text| - 1, |d| - 1;
    var t, t' := Squeeze(INIT, text), Squeeze(INIT, text[..n]);
    SqueezeLast(text);
    assert t == t' + [text[n]];
    assert d[k] == t[|t| - 1] == text[n];
    assert d == d[..k] + [d[k]];
    if k > 0 {
      assert t'[|t'| - k..] == d[..k];
      assert IsDigit(d[k]) && IsDigit(d[..k][k - 1]);
      assert t'[|t'| - 1] == d[..k][k - 1];
      NoText();
      RunLast(INIT, text);
      AcceptedPart(text, n);
      NoGap(text[..n], d[k]);
      DigitsAtEnd(text[..n], d[..k]);
      assert text[|text| - |d|..] == text[..n][n - k..] + [text[n]];
    } else {
      assert text[n..] == [text[n]];
    }
  }

  lemma {:induction false} NotMade(text: string, m: string, i: nat)
    requires !Run(INIT, text).mode.Bad? && Decimal(m) && OccursAt(Squeeze(INIT, text), m, i)
    ensures Contains(text, m)
    decreases |text|
  {
    hide Step, Run, Squeeze, Drops, Contains, Decimal;
    assert m != "" by { Filled(m); }
    if text == "" {
      NoText();
      assert false;
    } else {
      var n := |text| - 1;
      var t, t' := Squeeze(INIT, text), Squeeze(INIT, text[..n]);
      SqueezeLast(text);
      AcceptedPart(text, n);
      if i + |m| <= |t'| {
        assert t'[i..i + |m|] == t[i..i + |m|];
        NotMade(text[..n], m, i);
        ContainsPart("", text[..n], [text[n]], m);
        assert text == "" + text[..n] + [text[n]];
      } else {
        assert t[|t| - |m|..] == m;
        DigitsAtEnd(text, m);
        var k := |text| - |m|;
        assert text[k..k + |m|] == m;
        Occurs(text, m, k);
      }
    }
  }

  lemma Filled(m: string)
    requires Decimal(m)
    ensures m != ""
  {
  }

  lemma SqueezedAbsent(text: string, m: string)
    requires !Run(INIT, text).mode.Bad? && Decimal(m) && Absent(text, m)
    ensures Absent(Squeeze(INIT, text), m)
  {
    hide Squeeze, Run;
    var f := Find(Squeeze(INIT, text), m, 0);
    if f.Some? {
      NotMade(text, m, f.value);
    }
  }

  // ---------- the cut in the printed value ----------

  // The cut at the dump marker gives the kept text without the blanks between its tokens.
  predicate CutsDump(input: string, marker: string) {
    var o := Parse(input, marker);
    o.Healed? ==>
      && ValueOf(HealedText(o)).Some?
      && Find(Dump(ValueOf(HealedText(o)).value), o.dump, 0) == Some(|Squeeze(INIT, o.kept)|)
      && Squeeze(INIT, o.kept) <= Dump(ValueOf(HealedText(o)).value)
  }

  // Neither escapes nor a key that an object gets twice.
  predicate SameFormat(input: string, marker: string) {
    var o := Parse(input, marker);
    '\\' !in input && (o.Healed? ==> !Built(HealedText(o)).twice)
  }

  lemma DumpOfHealed(input: string, marker: string) returns (lead: string, closing: string)
    requires Decimal(marker) && Absent(input, marker) && SameFormat(input, marker) && Parse(input, marker).Healed?
    ensures var o := Parse(input, marker);
            && Parts(o, lead, closing, marker) && Accepts(HealedText(o)) && '\\' !in HealedText(o)
            && ValueOf(HealedText(o)).Some? && Absent(Squeeze(INIT, o.kept), marker)
            && Dump(ValueOf(HealedText(o)).value) == Squeeze(INIT, o.kept) + (lead + marker) + Tight(o.tail, closing)
  {
    hide Parse, Squeeze, Run, Built, Accepts, Absent, Parts, Dump, ValueOf, Tight, Closes;
    var o := Parse(input, marker);
    lead, closing := HealedParts(input, marker);
    SqueezedParts(o, lead, closing, marker);
    DumpOfParsed(HealedText(o));
    AbsentInPrefix(input, o.kept, marker);
    assert HealedText(o) == o.kept + (o.dump + o.tail);
    AcceptedIsNotBad(o.kept, o.dump + o.tail);
    SqueezedAbsent(o.kept, marker);
    PartsDump(o, lead, closing, marker);
  }

  lemma PartsDump(o: Outcome, lead: string, closing: string, marker: string)
    requires o.Healed? && Parts(o, lead, closing, marker)
    ensures o.dump == lead + marker
  {
  }

  // The cut in the printed value: wherever the marker got a lead, and in strings if it has no border.
  lemma DumpCut(input: string, marker: string)
    requires Decimal(marker) && Absent(input, marker) && SameFormat(input, marker) && Parse(input, marker).Healed?
    ensures Parse(input, marker).dump != marker || !HasBorder(marker) ==> CutsDump(input, marker)
  {
    hide Parse, HasBorder, Squeeze, Dump, ValueOf, SameFormat, Absent, Tight, Accepts;
    var o := Parse(input, marker);
    var lead, closing := DumpOfHealed(input, marker);
    var k, tail := Squeeze(INIT, o.kept), Tight(o.tail, closing);
    if lead != "" {
      FoundAfterLead(k, lead, marker, tail);
    } else {
      assert lead + marker == marker;
      if !HasBorder(marker) {
        FoundInString(k, marker, tail);
      }
    }
  }

  // ---------- a marker with a border ----------

  predicate NoObjects(b: Build) {
    !b.twice && forall k | 0 <= k < |b.open| :: b.open[k].OfArray?
  }

  lemma PutNoObjects(b: Build, v: Json)
    requires NoObjects(b)
    ensures NoObjects(PutValue(b, v)) && NoObjects(Close(b)) && SetKey(b) == b
  {
  }

  lemma StepNoObjects(s: State, b: Build, c: char)
    requires NoObjects(b) && c != '{'
    ensures NoObjects(Feed(s, b, c))
  {
    PutNoObjects(b, Number(b.token));
    TakeNoObjects(Settle(s, c), if Settle(s, c) == s then b else PutValue(b, Number(b.token)), c);
    hide Take, PutValue;
  }

  lemma TakeNoObjects(s: State, b: Build, c: char)
    requires NoObjects(b) && c != '{'
    ensures NoObjects(Take(s, b, c))
  {
    PutNoObjects(b, String(b.token));
    PutNoObjects(b, Literal(b.token + [c]));
    hide PutValue, Close, SetKey;
  }

  lemma {:induction false} RunNoObjects(s: State, b: Build, text: string)
    requires NoObjects(b) && '{' !in text
    ensures NoObjects(BuildRun(s, b, text))
    decreases |text|
  {
    hide Feed, Step, NoObjects;
    if text != "" {
      StepNoObjects(s, b, text[0]);
      RunNoObjects(Step(s, text[0]), Feed(s, b, text[0]), text[1..]);
    }
  }

  lemma NothingTwice(text: string)
    requires '{' !in text
    ensures !Built(text).twice
  {
    hide BuildRun, Run;
    RunNoObjects(INIT, START, text);
  }

  // A text that breaks off in the first string of an array with the start of the marker.
  lemma CutInString(part: string, marker: string)
    requires Decimal(marker) && part < marker && part != ""
    ensures var input, text := "[\"" + part, "[\"" + part + marker + "\"]";
            && Parse(input, marker) == Healed(input, marker, "\"]", |input|) && SameFormat(input, marker)
            && ValueOf(text).Some? && Dump(ValueOf(text).value) == text && Squeeze(INIT, input) == input
  {
    hide Parse, Squeeze, Dump, ValueOf, Built, Run, Accepts, Closes;
    var input, text := "[\"" + part, "[\"" + part + marker + "\"]";
    InputInString(part, marker);
    DigitsOnly(part, marker);
    NothingTwice(text);
    var lead, closing := HealedParts(input, marker);
    DumpOfParsed(text);
    NothingDropped(INIT, text);
    NothingDropped(INIT, input);
  }

  lemma BorderBreaksDump(marker: string, b: nat)
    requires Decimal(marker) && BorderOf(marker, b)
    ensures var input := "[\"" + marker[..|marker| - b];
            Absent(input, marker) && SameFormat(input, marker) && Parse(input, marker).Healed? && !CutsDump(input, marker)
  {
    hide Parse, Squeeze, Dump, ValueOf, SameFormat, Absent;
    var part := marker[..|marker| - b];
    CutInString(part, marker);
    ShorterIsAbsent(part, marker);
    TooEarly(part, marker, b);
  }

  lemma TooEarly(part: string, marker: string, b: nat)
    requires BorderOf(marker, b) && part == marker[..|marker| - b]
    ensures Find("[\"" + part + marker + "\"]", marker, 0) != Some(2 + |part|)
  {
    hide OccursAt;
    var pre, head, rest, tail := "[\"", marker[..b], marker[b..], "\"]";
    assert part + head == marker && head + rest == marker;
    Regrouped(pre, part, head, rest, tail);
    Occurrence(pre, marker, rest + tail);
    var f := Find(pre + part + marker + tail, marker, 0);
    assert f.value <= 2;
  }

  lemma Regrouped(pre: string, part: string, head: string, rest: string, tail: string)
    ensures pre + part + (head + rest) + tail == pre + (part + head) + (rest + tail)
  {
  }

  lemma DigitsOnly(part: string, marker: string)
    requires Decimal(marker) && part <= marker
    ensures var text := "[\"" + part + marker + "\"]";
            forall i | 0 <= i < |text| :: !IsBlank(text[i]) && text[i] != '{' && text[i] != '\\'
    ensures var text := "[\"" + part; '\\' !in text && forall i | 0 <= i < |text| :: !IsBlank(text[i])
  {
    var text := "[\"" + part + marker + "\"]";
    forall i | 0 <= i < |text|
      ensures !IsBlank(text[i]) && text[i] != '{' && text[i] != '\\'
    {
      if 2 <= i < 2 + |part| {
        assert text[i] == part[i - 2] == marker[i - 2];
      } else if 2 + |part| <= i < 2 + |part| + |marker| {
        assert text[i] == marker[i - 2 - |part|];
      }
    }
    var front := "[\"" + part;
    assert forall i | 0 <= i < |front| :: front[i] == text[i];
  }

  // The cut in the printed value is exact for every input of the same format if and only if the
  // marker has no border.
  lemma DumpCutExactly(marker: string)
    requires Decimal(marker)
    ensures (forall input: string | Absent(input, marker) && SameFormat(input, marker) :: CutsDump(input, marker))
       <==> !HasBorder(marker)
  {
    hide CutsDump, Absent, SameFormat;
    if HasBorder(marker) {
      var b: nat :| BorderOf(marker, b);
      BorderBreaksDump(marker, b);
    } else {
      forall input: string | Absent(input, marker) && SameFormat(input, marker)
        ensures CutsDump(input, marker)
      {
        NothingToCut(input, marker);
        if Parse(input, marker).Healed? {
          DumpCut(input, marker);
        }
      }
    }
  }

  lemma NothingToCut(input: string, marker: string)
    ensures !Parse(input, marker).Healed? ==> CutsDump(input, marker)
  {
    hide Parse;
  }

  // ---------- the one place of the marker ----------

  lemma TightAbsent(tail: string, closing: string, marker: string)
    requires Quoted(tail, closing) && Decimal(marker) && marker != "1"
    ensures Absent(Tight(tail, closing), marker) && Tight(tail, closing) != "" && Tight(tail, closing)[0] == '"'
  {
    var t := Tight(tail, closing);
    if !Absent(t, marker) {
      OnlyDigit(tail, closing, marker, Find(t, marker, 0).value);
    }
  }

  lemma OnlyDigit(tail: string, closing: string, marker: string, i: nat)
    requires Quoted(tail, closing) && Decimal(marker) && OccursAt(Tight(tail, closing), marker, i)
    ensures marker == "1"
  {
    var t := Tight(tail, closing);
    if tail == "\"" + closing || i != 2 {
      NotOver(t, marker, i, i);
    } else {
      NotOver(t, marker, i, 3);
      OccursChar(t, marker, i, 0);
      assert marker == [marker[0]];
    }
  }

  lemma OnlyPlace(k: string, lead: string, marker: string, tail: string, i: nat)
    requires Decimal(marker) && lead in {"", "\"", ":\"", ",\""} && (lead == "" ==> !HasBorder(marker))
    requires Absent(k, marker) && Absent(tail, marker) && tail != "" && tail[0] == '"'
    requires OccursAt(k + (lead + marker) + tail, marker, i)
    ensures i == |k| + |lead|
  {
    hide HasBorder, Absent;
    var text := k + (lead + marker) + tail;
    var p := |k| + |lead|;
    assert text[p + |marker|] == tail[0];
    NotOver(text, marker, i, p + |marker|);
    if i > p {
      InRest(k + (lead + marker), tail, marker, i);
      AbsentAt(tail, marker, i - p - |marker|);
    } else if i + |marker| <= |k| {
      assert text == k + ((lead + marker) + tail);
      InFirst(k, (lead + marker) + tail, marker, i);
      AbsentAt(k, marker, i);
    } else if lead != "" {
      assert text[|k|] == lead[0] && text[p - 1] == lead[|lead| - 1];
      NotOver(text, marker, i, |k|);
      NotOver(text, marker, i, p - 1);
    } else if i < |k| {
      assert lead + marker == marker;
      NotBefore(k, marker, tail, i);
    }
  }

  // No occurrence of digits runs over a character that is none.
  lemma NotOver(text: string, m: string, i: nat, j: nat)
    requires Decimal(m) && OccursAt(text, m, i) && j < |text| && !IsDigit(text[j])
    ensures i + |m| <= j || i > j
  {
    if i <= j < i + |m| {
      OccursChar(text, m, i, j - i);
    }
  }

  lemma InFirst(a: string, b: string, m: string, i: nat)
    requires i + |m| <= |a| && OccursAt(a + b, m, i)
    ensures OccursAt(a, m, i)
  {
    assert a[i..i + |m|] == (a + b)[i..i + |m|];
  }

  lemma InRest(a: string, b: string, m: string, i: nat)
    requires i >= |a| && OccursAt(a + b, m, i)
    ensures OccursAt(b, m, i - |a|)
  {
    assert b[i - |a|..i - |a| + |m|] == (a + b)[i..i + |m|];
  }

  lemma SpottedParts(k: string, lead: string, marker: string, tail: string)
    requires Decimal(marker) && lead in {"", "\"", ":\"", ",\""} && (lead == "" ==> !HasBorder(marker))
    requires Absent(k, marker) && Absent(tail, marker) && tail != "" && tail[0] == '"'
    ensures SpotAt(k + (lead + marker) + tail, marker, lead, |k| + |lead|)
  {
    hide HasBorder, Absent;
    var text := k + (lead + marker) + tail;
    forall i: nat | i <= |text| && OccursAt(text, marker, i)
      ensures i == |k| + |lead|
    {
      OnlyPlace(k, lead, marker, tail, i);
    }
    assert text == k + lead + (marker + tail) && text == (k + lead) + marker + tail;
    Occurrence(k, lead, marker + tail);
    Occurrence(k + lead, marker, tail);
  }

  // ---------- it is in a key or a string ----------

  // The marker, and a quote right behind it.
  predicate QuotedAt(text: string, m: string, i: nat) {
    OccursAt(text, m, i) && i + |m| < |text| && text[i + |m|] == '"'
  }

  predicate Stops(rest: string) {
    rest != "" && rest[0] != '"' && !IsDigit(rest[0])
  }

  // Of two parts behind a character that is no digit, one has it.
  lemma Apart(a: char, p: string, rest: string, m: string, i: nat)
    requires Decimal(m) && !IsDigit(a) && Stops(rest) && QuotedAt([a] + p + rest, m, i)
    ensures (i > 0 && QuotedAt(p, m, i - 1)) || (i > |p| && QuotedAt(rest, m, i - 1 - |p|))
  {
    var text := [a] + p + rest;
    assert text[0] == a && text[1 + |p|] == rest[0];
    NotOver(text, m, i, 0);
    NotOver(text, m, i, 1 + |p|);
    if i > 1 + |p| {
      InRest([a] + p, rest, m, i);
    } else {
      assert text == [a] + (p + rest);
      InRest([a], p + rest, m, i);
      InFirst(p, rest, m, i - 1);
    }
  }

  lemma InString(text: string, m: string, i: nat)
    requires Decimal(m) && PlainText(text) && QuotedAt(Quote(text), m, i)
    ensures Contains(text, m)
  {
    PlainEscaped(text);
    NotOver(Quote(text), m, i, 0);
    assert Quote(text) == "\"" + (text + "\"");
    InRest("\"", text + "\"", m, i);
    InFirst(text, "\"", m, i - 1);
    Occurs(text, m, i - 1);
  }

  lemma NotInWord(text: string, m: string, i: nat)
    requires Decimal(m) && (text in {"null", "true", "false"} || PlainText(text))
    ensures !QuotedAt(text, m, i)
  {
    if QuotedAt(text, m, i) && text in {"null", "true", "false"} {
      NotOver(text, m, i, i);
    }
  }

  lemma {:induction false} QuotedIsMarked(j: Json, m: string, i: nat)
    requires Decimal(m) && PlainJson(j) && QuotedAt(Dump(j), m, i)
    ensures !MarkFree(j, m)
    decreases j, 0
  {
    hide Contains, QuotedAt, Decimal;
    match j
    case String(text) => InString(text, m, i);
    case Array(items) => ItemsMarked(j, 0, m, i);
    case Object(fields) => FieldsMarked(j, 0, m, i);
    case Null => NotInWord("null", m, i);
    case Bool(b) => NotInWord(if b then "true" else "false", m, i);
    case Number(digits) => NotInWord(digits, m, i);
  }

  lemma {:induction false} ItemsMarked(j: Json, n: nat, m: string, i: nat)
    requires Decimal(m) && j.Array? && PlainJson(j) && n <= |j.items| && QuotedAt(DumpItems(j, n), m, i)
    ensures !ItemsFree(j, n, m)
    decreases j, 0, |j.items| - n
  {
    hide Contains, QuotedAt, Decimal, Dump;
    if n == |j.items| {
      NotInBrackets(DumpItems(j, n), m, i);
      assert false;
    } else {
      var a := if n == 0 then '[' else ',';
      var p, rest := Dump(j.items[n]), DumpItems(j, n + 1);
      assert DumpItems(j, n) == [a] + p + rest;
      ItemsStop(j, n + 1);
      Apart(a, p, rest, m, i);
      if i > 0 && QuotedAt(p, m, i - 1) {
        QuotedIsMarked(j.items[n], m, i - 1);
      } else {
        ItemsMarked(j, n + 1, m, i - 1 - |p|);
      }
    }
  }

  lemma NotInBrackets(text: string, m: string, i: nat)
    requires Decimal(m) && text in {"[]", "]", "{}", "}"}
    ensures !QuotedAt(text, m, i)
  {
  }

  lemma ItemsStop(j: Json, n: nat)
    requires j.Array? && n <= |j.items|
    ensures Stops(DumpItems(j, n))
  {
    hide Dump;
  }

  lemma FieldsStop(j: Json, n: nat)
    requires j.Object? && n <= |j.fields|
    ensures Stops(DumpFields(j, n))
  {
    hide Dump, Quote;
  }

  lemma FieldPieces(j: Json, n: nat)
    requires j.Object? && n < |j.fields|
    ensures var v, rest := Dump(j.fields[n].value), DumpFields(j, n + 1);
            && DumpFields(j, n) == [if n == 0 then '{' else ','] + Quote(j.fields[n].key) + ([':'] + v + rest)
            && Stops([':'] + v + rest)
  {
    hide Dump, Quote;
  }

  lemma {:induction false} FieldsMarked(j: Json, n: nat, m: string, i: nat)
    requires Decimal(m) && j.Object? && PlainJson(j) && n <= |j.fields| && QuotedAt(DumpFields(j, n), m, i)
    ensures !FieldsFree(j, n, m)
    decreases j, 0, |j.fields| - n
  {
    hide Contains, QuotedAt, Decimal, Dump, Quote, DumpFields;
    if n == |j.fields| {
      NoMoreFields(j);
      NotInBrackets(DumpFields(j, n), m, i);
      assert false;
    } else {
      var key, v, rest := j.fields[n].key, Dump(j.fields[n].value), DumpFields(j, n + 1);
      FieldPieces(j, n);
      FieldsStop(j, n + 1);
      Apart(if n == 0 then '{' else ',', Quote(key), [':'] + v + rest, m, i);
      if i > 0 && QuotedAt(Quote(key), m, i - 1) {
        InString(key, m, i - 1);
      } else {
        var i' := i - 1 - |Quote(key)|;
        Apart(':', v, rest, m, i');
        if i' > 0 && QuotedAt(v, m, i' - 1) {
          QuotedIsMarked(j.fields[n].value, m, i' - 1);
        } else {
          FieldsMarked(j, n + 1, m, i' - 1 - |v|);
        }
      }
    }
  }

  lemma NoMoreFields(j: Json)
    requires j.Object?
    ensures DumpFields(j, |j.fields|) in {"{}", "}"}
  {
  }

  // ---------- from the text to the cleaned value ----------

  lemma LastOfHealed(o: Outcome, lead: string, closing: string, marker: string)
    requires o.Healed? && Parts(o, lead, closing, marker)
    ensures var text := HealedText(o); text != "" && text[|text| - 1] in "]}"
  {
    var text := HealedText(o);
    assert text[|text| - 1] == closing[|closing| - 1];
  }

  // The value of a healed text has the marker at one place of what is printed, right behind the lead,
  // and in a key or a string.
  lemma HealedIsSpotted(input: string, marker: string) returns (lead: string)
    requires Decimal(marker) && marker != "1" && Absent(input, marker) && SameFormat(input, marker)
    requires Parse(input, marker).Healed? && (Parse(input, marker).dump != marker || !HasBorder(marker))
    ensures var o := Parse(input, marker);
            && o.dump == lead + marker && (IsLead(lead) || lead == "") && ValueOf(HealedText(o)).Some?
            && (var j := ValueOf(HealedText(o)).value;
                (j.Array? || j.Object?) && Spotted(Dump(j), marker, lead) && !MarkFree(j, marker))
  {
    hide Parse, HasBorder, Squeeze, Dump, ValueOf, SameFormat, Absent, Tight, Accepts, SpotAt;
    var o := Parse(input, marker);
    var closing;
    lead, closing := DumpOfHealed(input, marker);
    var k, tail := Squeeze(INIT, o.kept), Tight(o.tail, closing);
    TightAbsent(o.tail, closing, marker);
    assert lead == "" ==> lead + marker == marker;
    SpottedParts(k, lead, marker, tail);
    LastOfHealed(o, lead, closing, marker);
    ContainerAtEnd(HealedText(o));
    ValueIsPlain(HealedText(o));
    var j := ValueOf(HealedText(o)).value;
    SpotQuoted(k, lead, marker, tail);
    QuotedIsMarked(j, marker, |k| + |lead|);
  }

  lemma SpotQuoted(k: string, lead: string, marker: string, tail: string)
    requires tail != "" && tail[0] == '"'
    ensures QuotedAt(k + (lead + marker) + tail, marker, |k| + |lead|)
  {
    assert k + (lead + marker) + tail == (k + lead) + marker + tail;
    Occurrence(k + lead, marker, tail);
  }

  // From the text of the model to what is sent on: parsing heals it, the value is built, and cleaning
  // that value, if it returns, leaves neither a key nor a string with the marker and says so.
  lemma HealedIsCleaned(input: string, c: Config)
    requires c.partial && Decimal(c.marker) && c.marker != "1" && Absent(input, c.marker) && SameFormat(input, c.marker)
    requires var o := Parse(input, c.marker);
             o.Healed? && (o.dump != c.marker || !HasBorder(c.marker)) && c.healing == Some(o.dump)
    ensures var o := Parse(input, c.marker);
            && ValueOf(HealedText(o)).Some?
            && (var r := ConsumeWithDumpedArgs(c, ValueOf(HealedText(o)).value);
                r.Some? ==> MarkFree(r.value.0, c.marker) && r.value.1)
  {
    hide Parse, HasBorder, SameFormat, Absent, ValueOf, Clean, MarkFree, Spotted, Dump;
    var lead := HealedIsSpotted(input, c.marker);
    CleanedIsPartial(c, lead, ValueOf(HealedText(Parse(input, c.marker))).value);
  }
}
