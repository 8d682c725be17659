// Finding the place of healing again: the first occurrence of the dump marker in a healed text is
// where the text was repaired, for every marker without a border and only for those.
module JsonMarker {
  import opened Outcomes
  import opened ChatText
  import opened Characters
  import opened JsonAutomaton
  import opened JsonLocator
  import opened JsonHealing
  import opened JsonSoundness
  import opened JsonExactness

  // A proper prefix that is also a suffix.
  predicate BorderOf(marker: string, b: nat) {
    0 < b < |marker| && marker[..b] == marker[|marker| - b..]
  }

  ghost predicate HasBorder(marker: string) {
    exists b: nat :: BorderOf(marker, b)
  }

  predicate Absent(text: string, marker: string) {
    Find(text, marker, 0).None?
  }

  predicate IsLead(lead: string) {
    lead == "\"" || lead == ":\"" || lead == ",\"" || lead == "\\"
  }

  // Every branch puts the marker after one of these leads, or after nothing.
  ghost predicate Shape(dump: string, marker: string) {
    dump == marker || exists lead: string | IsLead(lead) :: dump == lead + marker
  }

  lemma HealShape(str: string, top: Element, marker: string, closing: string)
    requires LastNonSpace(str) >= 0
    ensures var p := Heal(str, top, marker, closing); p.Lost? || Shape(p.dump, marker)
  {
    hide Accepts;
    var p := Heal(str, top, marker, closing);
    assert "" + marker == marker;
    assert IsLead("\"") && IsLead(":\"") && IsLead(",\"") && IsLead("\\");
  }

  lemma ParseShape(input: string, marker: string)
    requires Parse(input, marker).Healed?
    ensures var o := Parse(input, marker); Shape(o.dump, marker) && o.kept <= input
  {
    hide Accepts, Heal;
    var end := Reported(input);
    var stack := SaxStack(Broken(input));
    HealShape(input[..end], stack[|stack| - 1], marker, ClosingOf(stack));
  }

  lemma AbsentAt(text: string, marker: string, i: nat)
    requires Absent(text, marker)
    ensures !OccursAt(text, marker, i)
  {
  }

  lemma AbsentInPrefix(text: string, part: string, marker: string)
    requires Absent(text, marker) && part <= text
    ensures Absent(part, marker)
  {
    var f := Find(part, marker, 0);
    if f.Some? {
      assert part[f.value..f.value + |marker|] == text[f.value..f.value + |marker|];
      AbsentAt(text, marker, f.value);
    }
  }

  // ---------- a marker after a lead ----------

  lemma OccursChar(text: string, lit: string, j: nat, i: nat)
    requires OccursAt(text, lit, j) && i < |lit|
    ensures text[j + i] == lit[i]
  {
    assert text[j..j + |lit|][i] == lit[i];
  }

  // An occurrence that ends inside the first part is an occurrence of the end of what was sought.
  lemma OccursInPart(part: string, rest: string, lead: string, marker: string, j: nat)
    requires j + |lead| + |marker| <= |part|
    ensures OccursAt(part + rest, lead + marker, j) ==> OccursAt(part, marker, j + |lead|)
  {
    if OccursAt(part + rest, lead + marker, j) {
      forall i | 0 <= i < |marker|
        ensures part[j + |lead| + i] == marker[i]
      {
        OccursChar(part + rest, lead + marker, j, |lead| + i);
      }
    }
  }

  // An occurrence that runs across the place of healing makes a border.
  lemma Straddles(kept: string, dump: string, tail: string, j: nat)
    requires j < |kept| < j + |dump|
    ensures OccursAt(kept + dump + tail, dump, j) ==> BorderOf(dump, |dump| - (|kept| - j))
  {
    var text := kept + dump + tail;
    var d := |kept| - j;
    if OccursAt(text, dump, j) {
      forall i | 0 <= i < |dump| - d
        ensures dump[..|dump| - d][i] == dump[d..][i]
      {
        OccursChar(text, dump, j, d + i);
      }
    }
  }

  lemma LeadHasNoBorder(lead: string, marker: string, b: nat)
    requires Decimal(marker) && IsLead(lead)
    ensures !BorderOf(lead + marker, b)
  {
    var dump := lead + marker;
    if 0 < b < |dump| {
      var d := |dump| - b;
      assert d >= |lead| ==> IsDigit(marker[d - |lead|]) && dump[d] == marker[d - |lead|];
      assert dump[..b][0] == lead[0] && dump[d..][0] == dump[d];
    }
  }

  lemma NotBeforeLead(kept: string, lead: string, marker: string, tail: string, j: nat)
    requires Decimal(marker) && IsLead(lead) && Absent(kept, marker) && j < |kept|
    ensures !OccursAt(kept + (lead + marker) + tail, lead + marker, j)
  {
    var dump := lead + marker;
    if j + |dump| <= |kept| {
      assert kept + dump + tail == kept + (dump + tail);
      OccursInPart(kept, dump + tail, lead, marker, j);
      AbsentAt(kept, marker, j + |lead|);
    } else {
      Straddles(kept, dump, tail, j);
      LeadHasNoBorder(lead, marker, |dump| - (|kept| - j));
    }
  }

  lemma FoundAfterLead(kept: string, lead: string, marker: string, tail: string)
    requires Decimal(marker) && IsLead(lead) && Absent(kept, marker)
    ensures Find(kept + (lead + marker) + tail, lead + marker, 0) == Some(|kept|)
  {
    hide OccursAt;
    var text := kept + (lead + marker) + tail;
    assert OccursAt(text, lead + marker, |kept|) by { Occurrence(kept, lead + marker, tail); }
    var f := Find(text, lead + marker, 0);
    if f.value < |kept| {
      NotBeforeLead(kept, lead, marker, tail, f.value);
    }
  }

  lemma Occurrence(kept: string, dump: string, tail: string)
    ensures OccursAt(kept + dump + tail, dump, |kept|)
  {
  }

  // ---------- a marker inside a string ----------

  lemma NotBefore(kept: string, marker: string, tail: string, j: nat)
    requires Absent(kept, marker) && j < |kept| && !HasBorder(marker)
    ensures !OccursAt(kept + marker + tail, marker, j)
  {
    if j + |marker| <= |kept| {
      assert kept + marker + tail == kept + (marker + tail) && "" + marker == marker;
      OccursInPart(kept, marker + tail, "", marker, j);
      AbsentAt(kept, marker, j);
    } else {
      Straddles(kept, marker, tail, j);
    }
  }

  lemma FoundInString(kept: string, marker: string, tail: string)
    requires Decimal(marker) && Absent(kept, marker) && !HasBorder(marker)
    ensures Find(kept + marker + tail, marker, 0) == Some(|kept|)
  {
    hide OccursAt, HasBorder;
    var text := kept + marker + tail;
    Occurrence(kept, marker, tail);
    var f := Find(text, marker, 0);
    if f.value < |kept| {
      NotBefore(kept, marker, tail, f.value);
    }
  }

  // ---------- the theorem ----------

  // The cut at the dump marker gives back exactly what the healed text kept of the input.
  predicate CutsExactly(input: string, marker: string) {
    var o := Parse(input, marker);
    o.Healed? ==> Find(o.kept + o.dump + o.tail, o.dump, 0) == Some(|o.kept|)
  }

  // It does wherever the marker got a lead, and inside strings if the marker has no border.
  lemma MarkerCut(input: string, marker: string)
    requires Decimal(marker) && Absent(input, marker)
    requires Parse(input, marker).Healed?
    ensures Parse(input, marker).dump != marker || !HasBorder(marker) ==> CutsExactly(input, marker)
  {
    hide Parse, HasBorder;
    var o := Parse(input, marker);
    ParseShape(input, marker);
    AbsentInPrefix(input, o.kept, marker);
    if o.dump != marker {
      var lead :| IsLead(lead) && o.dump == lead + marker;
      FoundAfterLead(o.kept, lead, marker, o.tail);
    } else if !HasBorder(marker) {
      FoundInString(o.kept, marker, o.tail);
    }
  }

  // ---------- a marker with a border ----------

  lemma StateInString(part: string)
    requires forall i :: 0 <= i < |part| ==> IsDigit(part[i])
    ensures Run(INIT, "[\"" + part) == State(Str(false, Plain), [InArray])
  {
    RunConcat(INIT, "[\"", part);
    Run2(INIT, '[', '"');
    assert [] + [InArray] == [InArray];
    DigitsInString(State(Str(false, Plain), [InArray]), part);
  }

  lemma ClosingOfArray()
    ensures Closing([InArray]) == "]"
  {
    assert [InArray][..0] == [];
  }

  lemma HealInString(input: string, marker: string)
    requires LastNonSpace(input) >= 0 && IsDigit(input[LastNonSpace(input)]) && Accepts(input + "\"" + "]")
    ensures HealArray(input, input[LastNonSpace(input)], marker, "]") == Probed(marker, "\"]")
  {
    assert "" + marker == marker && "\"" + "]" == "\"]";
  }

  lemma InputInString(part: string, marker: string)
    requires Decimal(marker) && part < marker && part != ""
    ensures var input := "[\"" + part; Parse(input, marker) == Healed(input, marker, "\"]", |input|)
  {
    hide Accepts, Parse, SaxStack, Run, HealArray, Closing;
    var input := "[\"" + part;
    assert forall i :: 0 <= i < |part| ==> part[i] == marker[i];
    StateInString(part);
    var s := Run(INIT, input);
    ClosingOfArray();
    ParseOfTruncated(input, marker);
    TopOfSaxStack(s);
    CatchString(input);
    assert IsDigit(input[|input| - 1]) && LastNonSpace(input) == |input| - 1;
    HealInString(input, marker);
    GuardedHealingIsSound(input, ARRAY, marker, "]");
  }

  lemma ShorterIsAbsent(part: string, marker: string)
    requires Decimal(marker) && part < marker
    ensures Absent("[\"" + part, marker)
  {
    var input := "[\"" + part;
    var f := Find(input, marker, 0);
    assert IsDigit(marker[0]);
    if f.Some? {
      OccursChar(input, marker, f.value, 0);
    }
  }

  // The text ends with the start of the marker: the cut is made too early.
  lemma BorderBreaks(marker: string, b: nat)
    requires Decimal(marker) && BorderOf(marker, b)
    ensures var input := "[\"" + marker[..|marker| - b];
            Absent(input, marker) && Parse(input, marker).Healed? && !CutsExactly(input, marker)
  {
    hide Parse;
    var part := marker[..|marker| - b];
    var input := "[\"" + part;
    InputInString(part, marker);
    ShorterIsAbsent(part, marker);
    var text := input + marker + "\"]";
    assert text[2..2 + |marker|] == part + marker[..b];
    assert part + marker[..b] == marker;
    assert OccursAt(text, marker, 2);
  }

  // The cut is exact for every input that heals if and only if the marker has no border.
  lemma MarkerCutExactly(marker: string)
    requires Decimal(marker)
    ensures (forall input: string | Absent(input, marker) :: CutsExactly(input, marker)) <==> !HasBorder(marker)
  {
    hide CutsExactly, Absent;
    if HasBorder(marker) {
      var b: nat :| BorderOf(marker, b);
      BorderBreaks(marker, b);
    } else {
      forall input: string | Absent(input, marker)
        ensures CutsExactly(input, marker)
      {
        Unhealed(input, marker);
        if Parse(input, marker).Healed? {
          MarkerCut(input, marker);
        }
      }
    }
  }

  lemma Unhealed(input: string, marker: string)
    ensures !Parse(input, marker).Healed? ==> CutsExactly(input, marker)
  {
    hide Parse;
  }
}
