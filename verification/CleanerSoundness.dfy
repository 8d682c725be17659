// What cleaning a healed value achieves: no key and no string of the result contains the marker, and
// the value is reported as partial, wherever the argument and content paths lead.
module CleanerSoundness {
  import opened Outcomes
  import opened ChatText
  import opened Characters
  import opened JsonAutomaton
  import opened JsonHealing
  import opened JsonMarker
  import opened JsonCleaner

  // No key and no string in the value contains the marker.
  predicate MarkFree(j: Json, m: string)
    decreases j
  {
    match j
    case String(text) => !Contains(text, m)
    case Array(items) => forall i | 0 <= i < |items| :: MarkFree(items[i], m)
    case Object(fields) => forall i | 0 <= i < |fields| :: !Contains(fields[i].key, m) && MarkFree(fields[i].value, m)
    case _ => true
  }

  predicate ItemsFree(j: Json, i: nat, m: string)
    requires j.Array?
  {
    forall k | i <= k < |j.items| :: MarkFree(j.items[k], m)
  }

  predicate FieldsFree(j: Json, i: nat, m: string)
    requires j.Object?
  {
    forall k | i <= k < |j.fields| :: !Contains(j.fields[k].key, m) && MarkFree(j.fields[k].value, m)
  }

  // ---------- occurrences in parts of a text ----------

  lemma Occurs(text: string, m: string, i: nat)
    requires OccursAt(text, m, i)
    ensures Contains(text, m)
  {
  }

  lemma InPart(a: string, part: string, b: string, m: string, i: nat)
    requires OccursAt(part, m, i)
    ensures OccursAt(a + part + b, m, |a| + i)
  {
    assert (a + part + b)[|a| + i..|a| + i + |m|] == part[i..i + |m|];
  }

  lemma ContainsPart(a: string, part: string, b: string, m: string)
    ensures Contains(part, m) ==> Contains(a + part + b, m)
  {
    var f := Find(part, m, 0);
    if f.Some? {
      InPart(a, part, b, m, f.value);
    }
  }

  // The marker is in the text at one place only, right after the lead.
  predicate SpotAt(text: string, m: string, lead: string, k: nat) {
    && |lead| <= k && OccursAt(text, m, k) && OccursAt(text, lead, k - |lead|)
    && forall i: nat | i <= |text| && OccursAt(text, m, i) :: i == k
  }

  predicate Spotted(text: string, m: string, lead: string) {
    exists k: nat | k <= |text| :: SpotAt(text, m, lead, k)
  }

  predicate Delimited(text: string) {
    text != "" && text[0] in "{[,]}"
  }

  lemma OnlyOne(text: string, m: string, lead: string, k: nat, i: nat)
    requires SpotAt(text, m, lead, k) && OccursAt(text, m, i)
    ensures i == k
  {
  }

  // The lead belongs to every part that has the marker and starts at a delimiter.
  lemma Inherit(a: string, part: string, b: string, m: string, lead: string)
    requires Decimal(m) && (IsLead(lead) || lead == "")
    requires Spotted(a + part + b, m, lead) && Contains(part, m)
    requires Delimited(part) || lead == ""
    ensures Spotted(part, m, lead)
  {
    hide Contains, Delimited;
    var text := a + part + b;
    var k: nat :| k <= |text| && SpotAt(text, m, lead, k);
    var q := Place(part, m);
    InPart(a, part, b, m, q);
    OnlyOne(text, m, lead, k, |a| + q);
    LeadInPart(a, part, b, m, lead, q);
    forall i: nat | i <= |part| && OccursAt(part, m, i)
      ensures i == q
    {
      InPart(a, part, b, m, i);
      OnlyOne(text, m, lead, k, |a| + i);
    }
    assert SpotAt(part, m, lead, q);
  }

  lemma Place(text: string, m: string) returns (i: nat)
    requires Contains(text, m)
    ensures OccursAt(text, m, i) && i <= |text|
  {
    i := Find(text, m, 0).value;
  }

  lemma LeadInPart(a: string, part: string, b: string, m: string, lead: string, q: nat)
    requires Decimal(m) && (IsLead(lead) || lead == "") && (Delimited(part) || lead == "")
    requires OccursAt(part, m, q) && |lead| <= |a| + q && OccursAt(a + part + b, lead, |a| + q - |lead|)
    ensures q >= |lead| && OccursAt(part, lead, q - |lead|)
  {
    var text := a + part + b;
    OccursChar(part, m, q, 0);
    assert IsDigit(m[0]);
    if lead != "" {
      assert q >= 1;
      OccursChar(text, lead, |a| + q - |lead|, |lead| - 1);
      assert part[q - 1] == lead[|lead| - 1];
      assert part[0] != '"';
      assert q >= |lead|;
    }
    forall i | 0 <= i < |lead|
      ensures part[q - |lead| + i] == lead[i]
    {
      OccursChar(text, lead, |a| + q - |lead|, i);
    }
  }

  lemma NotBoth(a: string, p: string, q: string, m: string, lead: string)
    requires Decimal(m) && Spotted(a + p + q, m, lead)
    ensures !(Contains(p, m) && Contains(q, m))
  {
    hide SpotAt;
    var text := a + p + q;
    if Contains(p, m) && Contains(q, m) {
      var k: nat :| k <= |text| && SpotAt(text, m, lead, k);
      var i, i' := Find(p, m, 0).value, Find(q, m, 0).value;
      InPart(a, p, q, m, i);
      InPart(a + p, q, "", m, i');
      assert text == (a + p) + q + "";
      OnlyOne(text, m, lead, k, |a| + i);
      OnlyOne(text, m, lead, k, |a| + |p| + i');
    }
  }

  // A printed value without the marker, or one that has it at one place, in a key or a string.
  predicate Fits(text: string, free: bool, m: string, lead: string) {
    !Contains(text, m) || (Spotted(text, m, lead) && !free)
  }

  lemma Split(a: string, p: string, q: string, m: string, lead: string, pFree: bool, qFree: bool)
    requires Decimal(m) && (IsLead(lead) || lead == "")
    requires Fits(a + p + q, pFree && qFree, m, lead)
    requires (!pFree ==> Contains(p, m)) && (!qFree ==> Contains(q, m))
    requires !pFree ==> Delimited(p) || lead == ""
    requires Delimited(q)
    ensures Fits(p, pFree, m, lead) && Fits(q, qFree, m, lead)
  {
    hide Contains, Spotted;
    ContainsPart(a, p, q, m);
    ContainsPart(a + p, q, "", m);
    assert a + p + q == (a + p) + q + "";
    if Contains(a + p + q, m) {
      NotBoth(a, p, q, m, lead);
      if !pFree {
        Inherit(a, p, q, m, lead);
      }
      if !qFree {
        Inherit(a + p, q, "", m, lead);
      }
    }
  }

  // ---------- printing keeps the marker ----------

  lemma {:induction false} EscapeConcat(a: string, b: string)
    ensures Escaped(a + b) == Escaped(a) + Escaped(b)
    decreases |a|
  {
    if a == "" {
      assert a + b == b;
    } else {
      assert (a + b)[0] == a[0] && (a + b)[1..] == a[1..] + b;
      EscapeConcat(a[1..], b);
    }
  }

  lemma {:induction false} EscapeDigits(m: string)
    requires forall i :: 0 <= i < |m| ==> IsDigit(m[i])
    ensures Escaped(m) == m
    decreases |m|
  {
    if m != "" {
      assert IsDigit(m[0]);
      EscapeDigits(m[1..]);
      assert m == [m[0]] + m[1..];
    }
  }

  lemma Around(s: string, m: string) returns (a: string, b: string)
    requires Contains(s, m)
    ensures s == a + m + b
  {
    var f := Find(s, m, 0).value;
    a, b := s[..f], s[f + |m|..];
  }

  lemma QuoteContains(s: string, m: string)
    requires Decimal(m)
    ensures Contains(s, m) ==> Contains(Quote(s), m)
  {
    hide Contains, Decimal, Escaped;
    if Contains(s, m) {
      var a, b := Around(s, m);
      EscapeConcat(a + m, b);
      EscapeConcat(a, m);
      MarkerPrinted(m);
      assert Quote(s) == ("\"" + Escaped(a)) + m + (Escaped(b) + "\"");
      ContainsPart("\"" + Escaped(a), m, Escaped(b) + "\"", m);
    }
  }

  lemma MarkerPrinted(m: string)
    requires Decimal(m)
    ensures Escaped(m) == m && Contains(m, m)
  {
    EscapeDigits(m);
    Occurs(m, m, 0);
  }

  lemma {:induction false} DumpContains(j: Json, m: string)
    requires Decimal(m)
    ensures !MarkFree(j, m) ==> Contains(Dump(j), m)
    decreases j, 0
  {
    hide Contains;
    if j.String? {
      QuoteContains(j.text, m);
    } else if j.Array? {
      ItemsContain(j, 0, m);
    } else if j.Object? {
      FieldsContain(j, 0, m);
    }
  }

  lemma {:induction false} ItemsContain(j: Json, i: nat, m: string)
    requires Decimal(m) && j.Array? && i <= |j.items|
    ensures !ItemsFree(j, i, m) ==> Contains(DumpItems(j, i), m)
    ensures Delimited(DumpItems(j, i))
    decreases j, 0, |j.items| - i
  {
    hide Contains;
    if i < |j.items| {
      DumpContains(j.items[i], m);
      ItemsContain(j, i + 1, m);
      var a := if i == 0 then "[" else ",";
      ContainsPart(a, Dump(j.items[i]), DumpItems(j, i + 1), m);
      ContainsPart(a + Dump(j.items[i]), DumpItems(j, i + 1), "", m);
      assert DumpItems(j, i) == a + Dump(j.items[i]) + DumpItems(j, i + 1) + "";
    }
  }

  function BeforeField(j: Json, i: nat): string
    requires j.Object? && i < |j.fields|
  {
    (if i == 0 then "{" else ",") + Quote(j.fields[i].key) + ":"
  }

  lemma FieldParts(j: Json, i: nat)
    requires j.Object? && i < |j.fields|
    ensures DumpFields(j, i) == BeforeField(j, i) + Dump(j.fields[i].value) + DumpFields(j, i + 1)
    ensures DumpFields(j, i) == (if i == 0 then "{" else ",") + Quote(j.fields[i].key)
                                + (":" + Dump(j.fields[i].value) + DumpFields(j, i + 1))
    ensures DumpFields(j, i) == (BeforeField(j, i) + Dump(j.fields[i].value)) + DumpFields(j, i + 1) + ""
  {
    hide Quote, Dump;
  }

  lemma FieldsDelimited(j: Json, i: nat)
    requires j.Object? && i <= |j.fields|
    ensures Delimited(DumpFields(j, i))
  {
    hide Dump, Quote;
  }

  lemma NoFieldsLeft(j: Json, i: nat, m: string)
    requires j.Object?
    ensures i == |j.fields| ==> FieldsFree(j, i, m)
  {
  }

  lemma {:induction false} FieldsContain(j: Json, i: nat, m: string)
    requires Decimal(m) && j.Object? && i <= |j.fields|
    ensures !FieldsFree(j, i, m) ==> Contains(DumpFields(j, i), m)
    ensures Delimited(DumpFields(j, i))
    decreases j, 0, |j.fields| - i
  {
    hide Contains, Dump, DumpFields, Quote, BeforeField, MarkFree, FieldsFree, Delimited;
    FieldsDelimited(j, i);
    NoFieldsLeft(j, i, m);
    if i < |j.fields| {
      var key, value, rest := j.fields[i].key, Dump(j.fields[i].value), DumpFields(j, i + 1);
      DumpContains(j.fields[i].value, m);
      FieldsContain(j, i + 1, m);
      QuoteContains(key, m);
      FieldParts(j, i);
      FieldsFreeStep(j, i, m);
      ContainsPart(if i == 0 then "{" else ",", Quote(key), ":" + value + rest, m);
      ContainsPart(BeforeField(j, i), value, rest, m);
      ContainsPart(BeforeField(j, i) + value, rest, "", m);
    }
  }

  // ---------- the two cuts ----------

  // A healed parse of a partial message: the dump marker is the marker after a lead.
  predicate Healing(c: Config, lead: string) {
    && c.partial && Decimal(c.marker) && (IsLead(lead) || lead == "")
    && c.healing == Some(lead + c.marker)
  }

  lemma PrefixFree(text: string, m: string, k: nat, n: nat)
    requires n <= k <= |text| && m != ""
    requires forall i: nat | i < k :: !OccursAt(text, m, i)
    ensures !Contains(text[..n], m)
  {
    var f := Find(text[..n], m, 0);
    if f.Some? {
      assert text == "" + text[..n] + text[n..];
      InPart("", text[..n], text[n..], m, f.value);
    }
  }

  lemma LeadAndMarker(text: string, m: string, lead: string, i: nat)
    ensures OccursAt(text, lead + m, i) <==> OccursAt(text, lead, i) && OccursAt(text, m, i + |lead|)
  {
    if i + |lead| + |m| <= |text| {
      var all := text[i..i + |lead| + |m|];
      assert all == text[i..i + |lead|] + text[i + |lead|..i + |lead| + |m|];
      assert all == lead + m ==> all[..|lead|] == lead && all[|lead|..] == m;
    }
  }

  // The dump marker is found exactly if the marker is there, and before it there is none.
  lemma DumpMarkerFound(text: string, m: string, lead: string)
    requires Decimal(m) && (Spotted(text, m, lead) || !Contains(text, m))
    ensures Find(text, lead + m, 0).Some? <==> Contains(text, m)
    ensures var f := Find(text, lead + m, 0); f.Some? ==> !Contains(text[..f.value], m)
  {
    var f := Find(text, lead + m, 0);
    if f.Some? {
      LeadAndMarker(text, m, lead, f.value);
      Occurs(text, m, f.value + |lead|);
      var k: nat :| k <= |text| && SpotAt(text, m, lead, k);
      PrefixFree(text, m, k, f.value);
    } else if Contains(text, m) {
      var k: nat :| k <= |text| && SpotAt(text, m, lead, k);
      LeadAndMarker(text, m, lead, k - |lead|);
    }
  }

  lemma ArgumentsCut(c: Config, lead: string, text: string, free: bool)
    requires Healing(c, lead) && Fits(text, free, c.marker, lead)
    requires !free ==> Contains(text, c.marker)
    ensures !Contains(CutArguments(c, text).0, c.marker)
    ensures CutArguments(c, text).1 == !free
  {
    hide Contains, Spotted, Find;
    assert c.DumpMarker() == lead + c.marker && c.PartialMarker() == c.marker;
    DumpMarkerFound(text, c.marker, lead);
    NoQuote(c.marker);
  }

  lemma NoQuote(m: string)
    requires m != ""
    ensures !Contains("", m)
  {
  }

  lemma ContentCut(text: string, m: string)
    requires m != ""
    ensures var f := Find(text, m, 0); f.Some? ==> !Contains(text[..f.value], m)
  {
    var f := Find(text, m, 0);
    if f.Some? {
      PrefixFree(text, m, f.value, f.value);
    }
  }

  // ---------- the theorem ----------

  lemma {:induction false} PutFree(fields: seq<Field>, key: string, value: Json, m: string)
    requires MarkFree(Object(fields), m) && !Contains(key, m) && MarkFree(value, m)
    ensures MarkFree(Object(Put(fields, key, value)), m)
    decreases |fields|
  {
    if fields != [] && fields[0].key != key {
      assert Object(fields).fields == fields && Object(fields[1..]).fields == fields[1..];
      PutFree(fields[1..], key, value, m);
    }
  }

  predicate Sound(r: Cleaned, free: bool, path: seq<string>, found: bool, m: string) {
    r.Done? ==> MarkFree(r.json, m) && r.found == (found || !free) && (free ==> r.path == path)
  }

  lemma {:induction false} CleanSound(c: Config, lead: string, j: Json, path: seq<string>, found: bool)
    requires Healing(c, lead) && Fits(Dump(j), MarkFree(j, c.marker), c.marker, lead)
    requires j.String? && Contains(j.text, c.marker) ==> path in c.contentPaths
    ensures Sound(Clean(c, j, path, found), MarkFree(j, c.marker), path, found, c.marker)
    decreases j, 0
  {
    hide Contains, Fits, CutArguments, Healing;
    var m := c.marker;
    HealedMarkers(c, lead);
    if path in c.argsPaths {
      DumpContains(j, m);
      ArgumentsCut(c, lead, Dump(j), MarkFree(j, m));
    } else if path in c.contentPaths {
      if j.String? {
        ContentCut(j.text, m);
        ContainsIsFound(j.text, m);
      }
    } else if j.Object? {
      FieldsSound(c, lead, j, 0, [], path, found);
    } else if j.Array? {
      ItemsSound(c, lead, j, 0, [], path, found);
    }
  }

  lemma HealedMarkers(c: Config, lead: string)
    requires Healing(c, lead)
    ensures c.PartialMarker() == c.marker && c.marker != "" && c.DumpMarker() == lead + c.marker
    ensures Decimal(c.marker) && (IsLead(lead) || lead == "")
    ensures c.PartialMarker() == c.DumpMarker() ==> lead == ""
  {
  }

  lemma ContainsIsFound(text: string, m: string)
    ensures Contains(text, m) <==> Find(text, m, 0).Some?
  {
  }

  // A value at field i fits, and so does the rest after it.
  lemma FieldFits(c: Config, lead: string, j: Json, i: nat)
    requires Healing(c, lead) && j.Object? && i < |j.fields|
    requires Fits(DumpFields(j, i), FieldsFree(j, i, c.marker), c.marker, lead)
    requires !Contains(j.fields[i].key, c.marker)
    requires var v := j.fields[i].value; v.String? && Contains(v.text, c.marker) ==> lead == ""
    ensures Fits(Dump(j.fields[i].value), MarkFree(j.fields[i].value, c.marker), c.marker, lead)
    ensures Fits(DumpFields(j, i + 1), FieldsFree(j, i + 1, c.marker), c.marker, lead)
    ensures FieldsFree(j, i, c.marker) <==> MarkFree(j.fields[i].value, c.marker) && FieldsFree(j, i + 1, c.marker)
  {
    hide Contains, Fits, Dump, DumpFields, MarkFree, FieldsFree, BeforeField, Quote, Delimited, IsLead;
    var m, v := c.marker, j.fields[i].value;
    FieldParts(j, i);
    DumpContains(v, m);
    FieldsContain(j, i + 1, m);
    ContainerDelimited(v, m);
    FieldsFreeStep(j, i, m);
    Split(BeforeField(j, i), Dump(v), DumpFields(j, i + 1), m, lead, MarkFree(v, m), FieldsFree(j, i + 1, m));
  }

  lemma FieldsFreeStep(j: Json, i: nat, m: string)
    requires j.Object? && i < |j.fields|
    ensures FieldsFree(j, i, m) <==>
            !Contains(j.fields[i].key, m) && MarkFree(j.fields[i].value, m) && FieldsFree(j, i + 1, m)
  {
  }

  lemma ContainerDelimited(v: Json, m: string)
    ensures !MarkFree(v, m) ==> Delimited(Dump(v)) || (v.String? && Contains(v.text, m))
  {
  }

  lemma {:induction false} FieldsSound(c: Config, lead: string, j: Json, i: nat, obj: seq<Field>,
                                       path: seq<string>, found: bool)
    requires Healing(c, lead) && j.Object? && i <= |j.fields| && MarkFree(Object(obj), c.marker)
    requires Fits(DumpFields(j, i), FieldsFree(j, i, c.marker), c.marker, lead)
    ensures Sound(CleanFields(c, j, i, obj, path, found), FieldsFree(j, i, c.marker), path, found, c.marker)
    decreases j, 0, |j.fields| - i
  {
    hide Contains, Fits, Healing, DumpFields, Dump, Put;
    var m := c.marker;
    if i < |j.fields| && !Contains(j.fields[i].key, m) {
      var key, v := j.fields[i].key, j.fields[i].value;
      var inner := path + [key];
      HealedMarkers(c, lead);
      FieldsFreeStep(j, i, m);
      if v.String? && Contains(v.text, m) {
        if inner in c.contentPaths && c.PartialMarker() == c.DumpMarker() {
          FieldFits(c, lead, j, i);
          CleanSound(c, lead, v, inner, true);
          var r := Clean(c, v, inner, true);
          if r.Done? {
            PutFree(obj, key, r.json, m);
          }
        }
      } else {
        FieldFits(c, lead, j, i);
        if v.String? {
          PutFree(obj, key, v, m);
          FieldsSound(c, lead, j, i + 1, Put(obj, key, v), path, found);
        } else {
          CleanSound(c, lead, v, inner, found);
          var r := Clean(c, v, inner, found);
          if r.Done? {
            PutFree(obj, key, r.json, m);
            FieldsSound(c, lead, j, i + 1, Put(obj, key, r.json), r.path[..|r.path| - 1], r.found);
          }
        }
      }
    }
  }

  lemma ItemFits(c: Config, lead: string, j: Json, i: nat)
    requires Healing(c, lead) && j.Array? && i < |j.items|
    requires Fits(DumpItems(j, i), ItemsFree(j, i, c.marker), c.marker, lead)
    requires var v := j.items[i]; !(v.String? && Contains(v.text, c.marker))
    ensures Fits(Dump(j.items[i]), MarkFree(j.items[i], c.marker), c.marker, lead)
    ensures Fits(DumpItems(j, i + 1), ItemsFree(j, i + 1, c.marker), c.marker, lead)
    ensures ItemsFree(j, i, c.marker) <==> MarkFree(j.items[i], c.marker) && ItemsFree(j, i + 1, c.marker)
  {
    hide Contains, Fits, Dump, MarkFree, Delimited, IsLead;
    var m, v := c.marker, j.items[i];
    DumpContains(v, m);
    ItemsContain(j, i + 1, m);
    ContainerDelimited(v, m);
    Split(if i == 0 then "[" else ",", Dump(v), DumpItems(j, i + 1), m, lead, MarkFree(v, m), ItemsFree(j, i + 1, m));
  }

  lemma {:induction false} ItemsSound(c: Config, lead: string, j: Json, i: nat, arr: seq<Json>,
                                      path: seq<string>, found: bool)
    requires Healing(c, lead) && j.Array? && i <= |j.items| && MarkFree(Array(arr), c.marker)
    requires Fits(DumpItems(j, i), ItemsFree(j, i, c.marker), c.marker, lead)
    ensures Sound(CleanItems(c, j, i, arr, path, found), ItemsFree(j, i, c.marker), path, found, c.marker)
    decreases j, 0, |j.items| - i
  {
    hide Contains, Fits, Healing, DumpItems, Dump;
    if i < |j.items| {
      var v := j.items[i];
      if !(v.String? && Contains(v.text, c.marker)) {
        ItemFits(c, lead, j, i);
        CleanSound(c, lead, v, path, found);
        var r := Clean(c, v, path, found);
        if r.Done? {
          ItemsSound(c, lead, j, i + 1, arr + [r.json], r.path, r.found);
        }
      }
    }
  }

  // For every value whose printed form has the marker at one place, in a key or a string and behind
  // the lead of the healing: if the cleaning returns, the marker is gone and the value is partial.
  lemma CleanedIsPartial(c: Config, lead: string, j: Json)
    requires Healing(c, lead) && (j.Object? || j.Array?)
    requires Spotted(Dump(j), c.marker, lead) && !MarkFree(j, c.marker)
    ensures var r := Clean(c, j, [], false); r.Done? ==> MarkFree(r.json, c.marker) && r.found
  {
    CleanSound(c, lead, j, [], false);
  }

  // ---------- complete values ----------

  // What the parser returns: the value, or the printed value if all of it is arguments.
  function ConsumeWithDumpedArgs(c: Config, j: Json): Option<(Json, bool)> {
    if c.healing.None? && c.argsPaths == [] then Some((j, false))
    else if c.healing.None? && [] in c.argsPaths then Some((String(Dump(j)), false))
    else
      var r := Clean(c, j, [], false);
      if r.Done? then Some((r.json, r.found)) else None
  }

  lemma {:induction false} CleanComplete(c: Config, j: Json, path: seq<string>, found: bool)
    requires c.healing.None? && MarkFree(j, c.marker) && !(j.String? && path in c.contentPaths)
    ensures var r := Clean(c, j, path, found); r.Done? ==> r.path == path && r.found == found
    decreases j, 0
  {
    hide Dump, Contains;
    if path !in c.argsPaths && path !in c.contentPaths {
      if j.Object? {
        FieldsComplete(c, j, 0, [], path, found);
      } else if j.Array? {
        ItemsComplete(c, j, 0, [], path, found);
      }
    }
  }

  lemma {:induction false} FieldsComplete(c: Config, j: Json, i: nat, obj: seq<Field>, path: seq<string>, found: bool)
    requires c.healing.None? && j.Object? && i <= |j.fields| && MarkFree(j, c.marker)
    ensures var r := CleanFields(c, j, i, obj, path, found); r.Done? ==> r.path == path && r.found == found
    decreases j, 0, |j.fields| - i
  {
    hide Contains, Put;
    if i < |j.fields| {
      var key, v := j.fields[i].key, j.fields[i].value;
      if v.String? {
        FieldsComplete(c, j, i + 1, Put(obj, key, v), path, found);
      } else {
        CleanComplete(c, v, path + [key], found);
        var r := Clean(c, v, path + [key], found);
        if r.Done? {
          FieldsComplete(c, j, i + 1, Put(obj, key, r.json), path, found);
          assert r.path[..|r.path| - 1] == path;
        }
      }
    }
  }

  lemma {:induction false} ItemsComplete(c: Config, j: Json, i: nat, arr: seq<Json>, path: seq<string>, found: bool)
    requires c.healing.None? && j.Array? && i <= |j.items| && MarkFree(j, c.marker) && path !in c.contentPaths
    ensures var r := CleanItems(c, j, i, arr, path, found); r.Done? ==> r.path == path && r.found == found
    decreases j, 0, |j.items| - i
  {
    hide Contains;
    if i < |j.items| {
      CleanComplete(c, j.items[i], path, found);
      var r := Clean(c, j.items[i], path, found);
      if r.Done? {
        ItemsComplete(c, j, i + 1, arr + [r.json], path, found);
      }
    }
  }

  // A complete object or array whose keys and strings do not have the marker is never reported as
  // partial. A complete string can be: it is cut to nothing when the root is a content path.
  lemma CompleteIsNotPartial(c: Config, j: Json)
    requires c.healing.None? && MarkFree(j, c.marker)
    ensures var r := ConsumeWithDumpedArgs(c, j);
            && (r.Some? ==> (r.value.1 <==> j.String? && [] in c.contentPaths && [] !in c.argsPaths && c.argsPaths != []))
            && (j.String? && [] in c.contentPaths && [] !in c.argsPaths && c.argsPaths != [] ==> r == Some((String(""), true)))
  {
    if !(j.String? && [] in c.contentPaths) {
      CleanComplete(c, j, [], false);
    }
  }

  // ---------- nothing else is changed ----------

  // No object has a key twice.
  predicate DistinctKeys(j: Json)
    decreases j
  {
    match j
    case Array(items) => forall i | 0 <= i < |items| :: DistinctKeys(items[i])
    case Object(fields) =>
      && (forall i | 0 <= i < |fields| :: DistinctKeys(fields[i].value))
      && forall i, k | 0 <= i < k < |fields| :: fields[i].key != fields[k].key
    case _ => true
  }

  lemma {:induction false} FieldsUnchanged(c: Config, j: Json, i: nat, path: seq<string>, found: bool)
    requires c.argsPaths == [] && c.contentPaths == [] && MarkFree(j, c.marker) && DistinctKeys(j)
    requires j.Object? && i <= |j.fields|
    ensures CleanFields(c, j, i, j.fields[..i], path, found) == Done(j, path, found)
    decreases j, 0, |j.fields| - i
  {
    hide Contains, Put;
    if i == |j.fields| {
      assert j.fields[..i] == j.fields;
    } else {
      var key, v := j.fields[i].key, j.fields[i].value;
      PutNew(j.fields[..i], key, v);
      assert j.fields[..i] + [Field(key, v)] == j.fields[..i + 1];
      FieldsUnchanged(c, j, i + 1, path, found);
      if !v.String? {
        Unchanged(c, v, path + [key], found);
        assert (path + [key])[..|path|] == path;
      }
    }
  }

  lemma {:induction false} ItemsUnchanged(c: Config, j: Json, i: nat, path: seq<string>, found: bool)
    requires c.argsPaths == [] && c.contentPaths == [] && MarkFree(j, c.marker) && DistinctKeys(j)
    requires j.Array? && i <= |j.items|
    ensures CleanItems(c, j, i, j.items[..i], path, found) == Done(j, path, found)
    decreases j, 0, |j.items| - i
  {
    hide Contains;
    if i == |j.items| {
      assert j.items[..i] == j.items;
    } else {
      Unchanged(c, j.items[i], path, found);
      assert j.items[..i] + [j.items[i]] == j.items[..i + 1];
      ItemsUnchanged(c, j, i + 1, path, found);
    }
  }

  // Without paths a value in which the marker does not occur comes out as it went in, with the path
  // and the flag.
  lemma {:induction false} Unchanged(c: Config, j: Json, path: seq<string>, found: bool)
    requires c.argsPaths == [] && c.contentPaths == [] && MarkFree(j, c.marker) && DistinctKeys(j)
    ensures Clean(c, j, path, found) == Done(j, path, found)
    decreases j, 0
  {
    hide Contains;
    if j.Object? {
      assert j.fields[..0] == [];
      FieldsUnchanged(c, j, 0, path, found);
    } else if j.Array? {
      assert j.items[..0] == [];
      ItemsUnchanged(c, j, 0, path, found);
    }
  }
}
