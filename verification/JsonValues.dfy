// From an accepted JSON text to its value, as the library's consumer builds it, and back: printing the
// value gives the text without the blanks between its tokens.
module JsonValues {
  import opened Outcomes
  import opened Characters
  import opened JsonAutomaton
  import opened JsonLocator
  import opened JsonCleaner

  // ---------- the consumer that builds values ----------

  // An open container: its complete members, and in an object the key whose value comes next.
  datatype Holder = OfArray(items: seq<Json>) | OfObject(fields: seq<Field>, key: string)

  // The open containers, the token being read (with escapes resolved), the first half of a surrogate
  // pair, the value when it is complete, and whether some object got a key twice.
  datatype Build = Build(open: seq<Holder>, token: string, high: nat, root: Option<Json>, twice: bool)

  const START := Build([], "", 0, None, false)

  predicate HasKey(fields: seq<Field>, key: string) {
    exists i | 0 <= i < |fields| :: fields[i].key == key
  }

  function Add(h: Holder, v: Json): Holder {
    match h
    case OfArray(items) => OfArray(items + [v])
    case OfObject(fields, key) => OfObject(Put(fields, key, v), key)
  }

  function PutValue(b: Build, v: Json): Build {
    if b.open == [] then b.(root := Some(v), token := "")
    else
      var n := |b.open| - 1;
      var h := b.open[n];
      b.(open := b.open[..n] + [Add(h, v)], token := "", twice := b.twice || (h.OfObject? && HasKey(h.fields, h.key)))
  }

  function Whole(h: Holder): Json {
    match h
    case OfArray(items) => Array(items)
    case OfObject(fields, _) => Object(fields)
  }

  function Close(b: Build): Build {
    if b.open == [] then b else
      var n := |b.open| - 1;
      PutValue(b.(open := b.open[..n]), Whole(b.open[n]))
  }

  function SetKey(b: Build): Build {
    if b.open == [] || b.open[|b.open| - 1].OfArray? then b else
      var n := |b.open| - 1;
      b.(open := b.open[..n] + [b.open[n].(key := b.token)], token := "")
  }

  function Literal(text: string): Json {
    if text == "true" then Bool(true) else if text == "false" then Bool(false) else Null
  }

  function Unescaped(c: char): char {
    match c
    case 'b' => 8 as char
    case 'f' => 12 as char
    case 'n' => '\n'
    case 'r' => '\r'
    case 't' => '\t'
    case _ => c
  }

  function CodePoint(v: nat): string {
    if v < 0xD800 || 0xE000 <= v < 0x11_0000 then [v as char] else ""
  }

  function TakeString(isKey: bool, esc: Escape, b: Build, c: char): Build {
    match esc
    case Plain =>
      if c == '"' then (if isKey then SetKey(b) else PutValue(b, String(b.token)))
      else if c == '\\' then b
      else b.(token := b.token + [c])
    case Backslash => if c == 'u' then b else b.(token := b.token + [Unescaped(c)])
    case Hex(left, code, low) =>
      if left > 1 || !IsHex(c) then b
      else
        var v := code * 16 + HexValue(c);
        if low then b.(token := b.token + CodePoint(0x1_0000 + 0x400 * (b.high % 0x400) + v % 0x400))
        else if 0xD800 <= v <= 0xDBFF then b.(high := v)
        else b.(token := b.token + CodePoint(v))
    case LowBackslash => b
    case LowU => b
  }

  function Take(s: State, b: Build, c: char): Build {
    match s.mode
    case Str(isKey, esc) => TakeString(isKey, esc, b, c)
    case Num(_) => b.(token := b.token + [c])
    case Lit(rest) =>
      if |rest| <= 1 then PutValue(b, Literal(b.token + [c])) else b.(token := b.token + [c])
    case _ =>
      if IsBlank(c) || c == ',' || c == ':' then b
      else if c == '{' then b.(open := b.open + [OfObject([], "")])
      else if c == '[' then b.(open := b.open + [OfArray([])])
      else if c == '}' || c == ']' then Close(b)
      else if c == '"' then b.(token := "")
      else b.(token := [c])
  }

  // A number is complete when a character does not continue it.
  function Feed(s: State, b: Build, c: char): Build {
    Take(Settle(s, c), if Settle(s, c) == s then b else PutValue(b, Number(b.token)), c)
  }

  function BuildRun(s: State, b: Build, text: string): Build
    decreases |text|
  {
    if text == "" then b else BuildRun(Step(s, text[0]), Feed(s, b, text[0]), text[1..])
  }

  function Ended(s: State, b: Build): Build {
    if NumberDone(s.mode) then PutValue(b, Number(b.token)) else b
  }

  function Built(text: string): Build {
    Ended(Run(INIT, text), BuildRun(INIT, START, text))
  }

  function ValueOf(text: string): Option<Json> {
    if Accepts(text) then Built(text).root else None
  }

  // ---------- the text without blanks between tokens ----------

  predicate Drops(s: State, c: char) {
    IsBlank(c) && !s.mode.Str?
  }

  function Squeeze(s: State, text: string): string
    decreases |text|
  {
    if text == "" then "" else
      (if Drops(s, text[0]) then "" else [text[0]]) + Squeeze(Step(s, text[0]), text[1..])
  }

  lemma {:induction false} SqueezeConcat(s: State, a: string, b: string)
    ensures Squeeze(s, a + b) == Squeeze(s, a) + Squeeze(Run(s, a), b)
    decreases |a|
  {
    if a == "" {
      assert a + b == b;
    } else {
      assert (a + b)[0] == a[0] && (a + b)[1..] == a[1..] + b;
      SqueezeConcat(Step(s, a[0]), a[1..], b);
    }
  }

  // ---------- what has been printed of the containers so far ----------

  function ItemsText(items: seq<Json>): string
    decreases |items|
  {
    if items == [] then "" else
      ItemsText(items[..|items| - 1]) + (if |items| == 1 then "[" else ",") + Dump(items[|items| - 1])
  }

  function FieldsText(fields: seq<Field>): string
    decreases |fields|
  {
    if fields == [] then "" else
      var f := fields[|fields| - 1];
      FieldsText(fields[..|fields| - 1]) + (if |fields| == 1 then "{" else ",") + Quote(f.key) + ":" + Dump(f.value)
  }

  lemma ItemsTextLast(items: seq<Json>, v: Json)
    ensures ItemsText(items + [v]) == ItemsText(items) + (if items == [] then "[" else ",") + Dump(v)
  {
    hide Dump;
    assert (items + [v])[..|items|] == items;
  }

  lemma FieldsTextLast(fields: seq<Field>, f: Field)
    ensures FieldsText(fields + [f]) ==
              FieldsText(fields) + (if fields == [] then "{" else ",") + Quote(f.key) + ":" + Dump(f.value)
  {
    hide Dump, Quote;
    assert (fields + [f])[..|fields|] == fields;
  }

  lemma {:induction false} ItemsDumped(j: Json, i: nat)
    requires j.Array? && i <= |j.items|
    ensures ItemsText(j.items[..i]) + DumpItems(j, i) == ItemsText(j.items) + if j.items == [] then "[]" else "]"
    decreases |j.items| - i
  {
    hide Dump, ItemsText;
    if i == |j.items| {
      assert j.items[..i] == j.items;
    } else {
      ItemsTextLast(j.items[..i], j.items[i]);
      assert j.items[..i + 1] == j.items[..i] + [j.items[i]];
      ItemsDumped(j, i + 1);
    }
  }

  lemma {:induction false} FieldsDumped(j: Json, i: nat)
    requires j.Object? && i <= |j.fields|
    ensures FieldsText(j.fields[..i]) + DumpFields(j, i) == FieldsText(j.fields) + if j.fields == [] then "{}" else "}"
    decreases |j.fields| - i
  {
    hide Dump, Quote, FieldsText;
    if i == |j.fields| {
      assert j.fields[..i] == j.fields;
    } else {
      FieldsTextLast(j.fields[..i], j.fields[i]);
      assert j.fields[..i + 1] == j.fields[..i] + [j.fields[i]];
      FieldsDumped(j, i + 1);
    }
  }

  function Front(h: Holder): string {
    match h
    case OfArray(items) => ItemsText(items)
    case OfObject(fields, _) => FieldsText(fields)
  }

  predicate IsEmpty(h: Holder) {
    match h
    case OfArray(items) => items == []
    case OfObject(fields, _) => fields == []
  }

  function Sep(h: Holder): string {
    if !IsEmpty(h) then "," else if h.OfArray? then "[" else "{"
  }

  function KeyText(h: Holder): string {
    match h
    case OfArray(_) => ""
    case OfObject(_, key) => Quote(key)
  }

  // Up to where the next value comes.
  function Waiting(h: Holder): string {
    Front(h) + Sep(h) + KeyText(h) + if h.OfArray? then "" else ":"
  }

  function Outer(open: seq<Holder>): string
    decreases |open|
  {
    if open == [] then "" else Outer(open[..|open| - 1]) + Waiting(open[|open| - 1])
  }

  lemma WholeDumped(h: Holder)
    ensures Dump(Whole(h)) == if IsEmpty(h) then (if h.OfArray? then "[]" else "{}")
                              else Front(h) + (if h.OfArray? then "]" else "}")
  {
    if h.OfArray? {
      ArrayDumped(h.items);
    } else {
      ObjectDumped(h.fields);
    }
  }

  lemma ArrayDumped(items: seq<Json>)
    ensures Dump(Array(items)) == if items == [] then "[]" else ItemsText(items) + "]"
  {
    hide DumpItems, ItemsText;
    var j := Array(items);
    ItemsDumped(j, 0);
    NoMembers();
    assert items[..0] == [] && "" + DumpItems(j, 0) == DumpItems(j, 0) && "" + "[]" == "[]";
  }

  lemma ObjectDumped(fields: seq<Field>)
    ensures Dump(Object(fields)) == if fields == [] then "{}" else FieldsText(fields) + "}"
  {
    hide DumpFields, FieldsText;
    var j := Object(fields);
    FieldsDumped(j, 0);
    NoMembers();
    assert fields[..0] == [] && "" + DumpFields(j, 0) == DumpFields(j, 0) && "" + "{}" == "{}";
  }

  lemma NoMembers()
    ensures ItemsText([]) == "" && FieldsText([]) == ""
  {
  }

  lemma NotHad(fields: seq<Field>, key: string)
    requires !HasKey(fields, key)
    ensures forall i | 0 <= i < |fields| :: fields[i].key != key
  {
  }

  lemma Added(h: Holder, v: Json)
    requires h.OfObject? ==> !HasKey(h.fields, h.key)
    ensures Front(Add(h, v)) == Waiting(h) + Dump(v) && !IsEmpty(Add(h, v)) && (Add(h, v).OfArray? <==> h.OfArray?)
  {
    hide Dump, Quote, ItemsText, FieldsText, Put;
    if h.OfArray? {
      ItemsTextLast(h.items, v);
      var w := Front(h) + Sep(h);
      assert w + "" + "" == w;
    } else {
      NotHad(h.fields, h.key);
      PutNew(h.fields, h.key, v);
      FieldsTextLast(h.fields, Field(h.key, v));
    }
  }

  // ---------- the invariant ----------

  function Inner(m: Mode, h: Holder): string {
    if m.After? then Front(h)
    else if m.KeyOrEnd? || m.Key? || (m.Str? && m.isKey) then Front(h) + Sep(h)
    else if m.Colon? then Front(h) + Sep(h) + KeyText(h)
    else Waiting(h)
  }

  function TokenText(m: Mode, token: string): string {
    if m.Str? then "\"" + token else if m.Num? || m.Lit? then token else ""
  }

  function OpenText(m: Mode, open: seq<Holder>): string {
    if open == [] then "" else Outer(open[..|open| - 1]) + Inner(m, open[|open| - 1])
  }

  function Printed(s: State, b: Build): string {
    OpenText(s.mode, b.open) + (if b.root.Some? then Dump(b.root.value) else "") + TokenText(s.mode, b.token)
  }

  predicate PlainChar(c: char) {
    c >= ' ' && c != '"' && c != '\\'
  }

  predicate TokenFits(m: Mode, token: string) {
    match m
    case Str(_, esc) => esc.Plain? && forall i | 0 <= i < |token| :: PlainChar(token[i])
    case Lit(rest) => rest != "" && token + rest in {"true", "false", "null"}
    case _ => true
  }

  predicate MembersFit(m: Mode, h: Holder) {
    match m
    case After => !IsEmpty(h)
    case ValueOrEnd => IsEmpty(h)
    case KeyOrEnd => IsEmpty(h)
    case _ => true
  }

  predicate SameKinds(stack: seq<Frame>, open: seq<Holder>) {
    |open| == |stack| && forall k :: 0 <= k < |stack| ==> (open[k].OfArray? <==> stack[k] == InArray)
  }

  predicate Matches(s: State, b: Build) {
    && SameKinds(s.stack, b.open)
    && (b.open != [] ==> MembersFit(s.mode, b.open[|b.open| - 1]))
    && (b.root.Some? <==> s.mode.After? && s.stack == [])
    && TokenFits(s.mode, b.token)
  }

  lemma OuterLast(open: seq<Holder>)
    ensures open != [] ==> Outer(open) == Outer(open[..|open| - 1]) + Waiting(open[|open| - 1])
    ensures open == [] ==> Outer(open) == ""
  {
  }

  // Where a value is awaited or read.
  lemma WaitingText(s: State, b: Build)
    requires Matches(s, b) && !s.mode.After? && !s.mode.KeyOrEnd? && !s.mode.Key? && !s.mode.Colon? && !(s.mode.Str? && s.mode.isKey)
    ensures Printed(s, b) == Outer(b.open) + TokenText(s.mode, b.token)
  {
    OuterLast(b.open);
    hide Outer, Waiting;
    assert Outer(b.open) + "" + TokenText(s.mode, b.token) == Outer(b.open) + TokenText(s.mode, b.token);
  }

  // A complete value where one is awaited.
  lemma Placed(stack: seq<Frame>, b: Build, v: Json)
    requires SameKinds(stack, b.open) && b.root.None? && !PutValue(b, v).twice
    ensures Matches(State(After, stack), PutValue(b, v))
    ensures Printed(State(After, stack), PutValue(b, v)) == Outer(b.open) + Dump(v)
  {
    hide Dump, Quote, Front, Waiting, Add;
    if b.open != [] {
      var n := |b.open| - 1;
      Added(b.open[n], v);
      var p := PutValue(b, v);
      assert p.open[..n] == b.open[..n] && p.open[n] == Add(b.open[n], v);
      PlacedText(Outer(b.open[..n]), Waiting(b.open[n]), Dump(v));
    } else {
      PlacedText("", "", Dump(v));
      OuterLast(b.open);
    }
  }

  lemma PlacedText(out: string, waiting: string, v: string)
    ensures out + (waiting + v) + "" + "" == out + waiting + v
    ensures "" + v + "" == v && "" + v == v
  {
  }

  // ---------- one character ----------

  // What one character adds to the printed text.
  predicate Prints(s: State, b: Build, s': State, b': Build, more: string) {
    Matches(s', b') && Printed(s', b') == Printed(s, b) + more
  }

  lemma Settled(s: State, b: Build)
    requires Matches(s, b) && s.mode.Num? && !PutValue(b, Number(b.token)).twice
    ensures Prints(s, b, State(After, s.stack), PutValue(b, Number(b.token)), "")
  {
    hide PutValue, Outer, Printed;
    WaitingText(s, b);
    Placed(s.stack, b, Number(b.token));
  }

  lemma {:induction false} PlainEscaped(text: string)
    requires forall i | 0 <= i < |text| :: PlainChar(text[i])
    ensures Escaped(text) == text
    decreases |text|
  {
    if text != "" {
      assert PlainChar(text[0]);
      PlainEscaped(text[1..]);
    }
  }

  lemma StringCharacter(s: State, b: Build, c: char)
    requires Matches(s, b) && s.mode.Str? && c != '\\' && !Step(s, c).mode.Bad? && c != '"'
    ensures Prints(s, b, Step(s, c), Take(s, b, c), [c])
  {
    hide Outer, Inner;
    assert Step(s, c) == s && PlainChar(c);
    var before := OpenText(s.mode, b.open) + "";
    assert before + ("\"" + (b.token + [c])) == before + ("\"" + b.token) + [c];
  }

  lemma StringEnds(s: State, b: Build)
    requires Matches(s, b) && s.mode.Str? && !s.mode.isKey && !PutValue(b, String(b.token)).twice
    ensures Prints(s, b, State(After, s.stack), PutValue(b, String(b.token)), "\"")
  {
    hide PutValue, Outer, Printed;
    WaitingText(s, b);
    PlainEscaped(b.token);
    Placed(s.stack, b, String(b.token));
    assert Outer(b.open) + ("\"" + b.token) + "\"" == Outer(b.open) + Quote(b.token);
  }

  lemma KeyEnds(s: State, b: Build)
    requires Matches(s, b) && s.mode.Str? && s.mode.isKey && TopIs(s, InObject)
    ensures Prints(s, b, State(Colon, s.stack), SetKey(b), "\"")
  {
    hide Outer, FieldsText;
    PlainEscaped(b.token);
    var n := |b.open| - 1;
    var h := b.open[n];
    var h' := h.(key := b.token);
    assert SetKey(b).open[..n] == b.open[..n] && SetKey(b).open[n] == h';
    assert Outer(b.open[..n]) + (Front(h) + Sep(h)) + "" + ("\"" + b.token) + "\""
        == Outer(b.open[..n]) + (Front(h) + Sep(h) + ("\"" + b.token + "\"")) + "" + "";
  }

  lemma NumberGoesOn(s: State, b: Build, c: char)
    requires Matches(s, b) && s.mode.Num? && StepNumber(s.mode.num, c).Num?
    ensures Prints(s, b, Step(s, c), Take(s, b, c), [c])
  {
    hide Outer, Inner;
    WaitingText(s, b);
    WaitingText(Step(s, c), Take(s, b, c));
    assert Outer(b.open) + (b.token + [c]) == Outer(b.open) + b.token + [c];
  }

  lemma LiteralGoesOn(s: State, b: Build, c: char)
    requires Matches(s, b) && s.mode.Lit? && !Step(s, c).mode.Bad? && !Take(s, b, c).twice
    ensures Prints(s, b, Step(s, c), Take(s, b, c), [c])
  {
    hide Outer, Inner, PutValue, Printed;
    WaitingText(s, b);
    var rest := s.mode.rest;
    assert rest == [c] + rest[1..];
    assert b.token + rest == (b.token + [c]) + rest[1..];
    assert Outer(b.open) + (b.token + [c]) == Outer(b.open) + b.token + [c];
    if |rest| == 1 {
      assert b.token + rest == b.token + [c];
      Placed(s.stack, b, Literal(b.token + [c]));
    } else {
      WaitingText(Step(s, c), Take(s, b, c));
    }
  }

  // ---------- between tokens ----------

  lemma BlankBetween(s: State, b: Build, c: char)
    requires Matches(s, b) && Between(s.mode) && IsBlank(c)
    ensures Prints(s, b, Step(s, c), Take(s, b, c), "")
  {
    hide Outer, Inner;
    assert Step(s, c) == s && Take(s, b, c) == b;
    assert Printed(s, b) + "" == Printed(s, b);
  }

  lemma Comma(s: State, b: Build)
    requires Matches(s, b) && s.mode.After? && s.stack != []
    ensures Prints(s, b, Step(s, ','), b, ",")
  {
    hide Outer, Front;
    var h := b.open[|b.open| - 1];
    var out := Outer(b.open[..|b.open| - 1]);
    assert out + (Front(h) + ",") + "" + "" == out + Front(h) + "" + "" + ",";
    assert Front(h) + "," + "" + "" == Front(h) + ",";
  }

  lemma ColonBetween(s: State, b: Build)
    requires Matches(s, b) && s.mode.Colon? && TopIs(s, InObject)
    ensures Prints(s, b, State(Value, s.stack), b, ":")
  {
    hide Outer, Front;
    var h := b.open[|b.open| - 1];
    var out := Outer(b.open[..|b.open| - 1]);
    var k := Front(h) + Sep(h) + KeyText(h);
    assert out + (k + ":") + "" + "" == out + k + "" + "" + ":";
  }

  lemma Opens(s: State, b: Build, h: Holder, m: Mode, f: Frame)
    requires Matches(s, b) && (s.mode.Value? || s.mode.ValueOrEnd?)
    requires (h == OfObject([], "") && m == KeyOrEnd && f == InObject) || (h == OfArray([]) && m == ValueOrEnd && f == InArray)
    ensures Prints(s, b, State(m, s.stack + [f]), b.(open := b.open + [h]), Sep(h))
  {
    hide Outer, Front, Inner;
    WaitingText(s, b);
    InnerOpened(h, m);
    var open := b.open + [h];
    assert open[..|b.open|] == b.open && open[|b.open|] == h;
    OpenedText(Outer(b.open), Sep(h));
  }

  lemma InnerOpened(h: Holder, m: Mode)
    requires (h == OfObject([], "") && m == KeyOrEnd) || (h == OfArray([]) && m == ValueOrEnd)
    ensures Inner(m, h) == Sep(h)
  {
    hide Front;
    NothingInFront(h);
    NothingAround(Sep(h));
  }

  lemma NothingAround(c: string)
    ensures "" + c == c && "" + c + "" + "" == c
  {
  }

  lemma OpenedText(out: string, c: string)
    ensures out + c + "" + "" == out + "" + c
  {
  }

  lemma Closed(s: State, b: Build)
    requires Matches(s, b) && Reachable(s) && s.stack != []
    requires s.mode.After? || (if TopIs(s, InArray) then s.mode.ValueOrEnd? else s.mode.KeyOrEnd?)
    requires !Close(b).twice
    ensures Prints(s, b, State(After, s.stack[..|s.stack| - 1]), Close(b), if TopIs(s, InArray) then "]" else "}")
  {
    hide Outer, PutValue, Front, Dump;
    var n := |b.open| - 1;
    var h, b' := b.open[n], b.(open := b.open[..n]);
    WholeDumped(h);
    Placed(s.stack[..n], b', Whole(h));
    ClosedText(s, b);
    ClosingParts(Outer(b.open[..n]), Front(h), Sep(h), if h.OfArray? then "]" else "}");
    NothingInFront(h);
  }

  lemma NothingInFront(h: Holder)
    ensures IsEmpty(h) ==> Front(h) == ""
  {
    NoMembers();
  }

  lemma ClosingParts(out: string, front: string, sep: string, close: string)
    ensures out + (front + close) == out + front + close
    ensures out + ("" + sep) + close == out + (sep + close)
  {
  }

  // What stands before a closing bracket.
  lemma ClosedText(s: State, b: Build)
    requires Matches(s, b) && Reachable(s) && s.stack != []
    requires s.mode.After? || (if TopIs(s, InArray) then s.mode.ValueOrEnd? else s.mode.KeyOrEnd?)
    ensures var n := |b.open| - 1;
            var h := b.open[n];
            && Printed(s, b) == Outer(b.open[..n]) + (if s.mode.After? then Front(h) else "" + Sep(h))
            && (IsEmpty(h) <==> !s.mode.After?) && (h.OfArray? <==> TopIs(s, InArray))
  {
    hide Outer, Front;
    var h := b.open[|b.open| - 1];
    NothingInFront(h);
    assert "" + Sep(h) + "" + "" == "" + Sep(h);
  }

  lemma StringStarts(s: State, b: Build)
    requires Matches(s, b) && Reachable(s) && (s.mode.Value? || s.mode.ValueOrEnd? || s.mode.KeyOrEnd? || s.mode.Key?)
    ensures Prints(s, b, State(Str(s.mode.KeyOrEnd? || s.mode.Key?, Plain), s.stack), b.(token := ""), "\"")
  {
    hide Outer, Front;
    assert "\"" + "" == "\"";
    var before := OpenText(s.mode, b.open) + "";
    assert before + "" + "\"" == before + ("\"" + "");
  }

  lemma TokenStarts(s: State, b: Build, c: char, m: Mode)
    requires Matches(s, b) && (s.mode.Value? || s.mode.ValueOrEnd?)
    requires m.Num? || (m.Lit? && m.rest != "" && [c] + m.rest in {"true", "false", "null"})
    ensures Prints(s, b, State(m, s.stack), b.(token := [c]), [c])
  {
    hide Outer, Inner, Printed;
    WaitingText(s, b);
    WaitingText(State(m, s.stack), b.(token := [c]));
    assert Outer(b.open) + "" + [c] == Outer(b.open) + [c];
  }

  lemma LiteralStarts(s: State, c: char)
    ensures var m := Step(s, c).mode;
            (s.mode.Value? || s.mode.ValueOrEnd?) && m.Lit? ==> m.rest != "" && [c] + m.rest in {"true", "false", "null"}
  {
    assert ['t'] + "rue" == "true" && ['f'] + "alse" == "false" && ['n'] + "ull" == "null";
  }

  lemma BetweenPrints(s: State, b: Build, c: char)
    requires Matches(s, b) && Reachable(s) && Between(s.mode) && !Step(s, c).mode.Bad? && !Take(s, b, c).twice
    ensures Prints(s, b, Step(s, c), Take(s, b, c), if Drops(s, c) then "" else [c])
  {
    hide Prints, Matches, Close;
    if IsBlank(c) {
      BlankBetween(s, b, c);
    } else if c == ',' {
      Comma(s, b);
    } else if c == ':' {
      ColonBetween(s, b);
    } else if c == '{' {
      Opens(s, b, OfObject([], ""), KeyOrEnd, InObject);
    } else if c == '[' {
      Opens(s, b, OfArray([]), ValueOrEnd, InArray);
    } else if c == '}' || c == ']' {
      Closed(s, b);
    } else if c == '"' {
      StringStarts(s, b);
    } else {
      LiteralStarts(s, c);
      TokenStarts(s, b, c, Step(s, c).mode);
    }
  }

  lemma TwiceStays(b: Build, v: Json)
    ensures b.twice ==> PutValue(b, v).twice && Close(b).twice && SetKey(b).twice
  {
  }

  lemma TakePrints(s: State, b: Build, c: char)
    requires Matches(s, b) && Reachable(s) && c != '\\' && !Step(s, c).mode.Bad? && Settle(s, c) == s && !Take(s, b, c).twice
    ensures Prints(s, b, Step(s, c), Take(s, b, c), if Drops(s, c) then "" else [c])
  {
    hide Prints, Close, PutValue, SetKey;
    if s.mode.Str? {
      if c != '"' {
        StringCharacter(s, b, c);
      } else if s.mode.isKey {
        KeyEnds(s, b);
      } else {
        StringEnds(s, b);
      }
    } else if s.mode.Num? {
      NumberGoesOn(s, b, c);
    } else if s.mode.Lit? {
      LiteralGoesOn(s, b, c);
    } else {
      BetweenPrints(s, b, c);
    }
  }

  lemma StepPrints(s: State, b: Build, c: char)
    requires Matches(s, b) && Reachable(s) && c != '\\' && !Step(s, c).mode.Bad? && !Feed(s, b, c).twice
    ensures Prints(s, b, Step(s, c), Feed(s, b, c), if Drops(s, c) then "" else [c])
  {
    hide Close, PutValue, Printed, Step, Matches;
    SettleSteps(s, c);
    if Settle(s, c) == s {
      TakePrints(s, b, c);
    } else {
      var b' := PutValue(b, Number(b.token));
      TakeKeepsTwice(Settle(s, c), b', c);
      Settled(s, b);
      TakePrints(Settle(s, c), b', c);
      NothingBefore(Printed(s, b), if Drops(s, c) then "" else [c]);
    }
  }

  lemma NothingBefore(a: string, c: string)
    ensures a + "" + c == a + c
  {
  }

  lemma TakeKeepsTwice(s: State, b: Build, c: char)
    ensures b.twice ==> Take(s, b, c).twice
  {
    if s.mode.Lit? {
      TwiceStays(b, Literal(b.token + [c]));
    } else {
      TwiceStays(b, String(b.token));
    }
    hide PutValue, Close, SetKey;
  }

  lemma {:induction false} RunKeepsTwice(s: State, b: Build, text: string)
    ensures b.twice ==> BuildRun(s, b, text).twice
    decreases |text|
  {
    hide Take, PutValue;
    if text != "" {
      TwiceStays(b, Number(b.token));
      TakeKeepsTwice(Settle(s, text[0]), if Settle(s, text[0]) == s then b else PutValue(b, Number(b.token)), text[0]);
      RunKeepsTwice(Step(s, text[0]), Feed(s, b, text[0]), text[1..]);
    }
  }

  lemma {:induction false} RunPrints(s: State, b: Build, text: string)
    requires Matches(s, b) && Reachable(s) && '\\' !in text && !Run(s, text).mode.Bad? && !BuildRun(s, b, text).twice
    ensures Prints(s, b, Run(s, text), BuildRun(s, b, text), Squeeze(s, text))
    decreases |text|
  {
    hide Feed, Step, Printed, Matches, Reachable;
    if text == "" {
      assert Printed(s, b) + "" == Printed(s, b);
    } else {
      var s', b' := Step(s, text[0]), Feed(s, b, text[0]);
      if s'.mode.Bad? {
        RunBad(s', text[1..]);
      }
      RunKeepsTwice(s', b', text[1..]);
      StepPrints(s, b, text[0]);
      StepReachable(s, text[0]);
      RunPrints(s', b', text[1..]);
      var more := if Drops(s, text[0]) then "" else [text[0]];
      assert Printed(s, b) + more + Squeeze(s', text[1..]) == Printed(s, b) + (more + Squeeze(s', text[1..]));
    }
  }

  // Printing the value of a text gives the text back, without the blanks between its tokens, if it
  // has no escapes and no object has a key twice.
  lemma DumpOfParsed(text: string)
    requires Accepts(text) && '\\' !in text && !Built(text).twice
    ensures ValueOf(text).Some? && Dump(ValueOf(text).value) == Squeeze(INIT, text)
  {
    hide Printed, PutValue, BuildRun, Run, Squeeze;
    var s, b := Run(INIT, text), BuildRun(INIT, START, text);
    TwiceStays(b, Number(b.token));
    StartPrinted();
    RunPrints(INIT, START, text);
    assert "" + Squeeze(INIT, text) == Squeeze(INIT, text);
    if NumberDone(s.mode) {
      Settled(s, b);
      assert Printed(s, b) + "" == Printed(s, b);
    }
    FinalPrinted(Built(text));
  }

  lemma StartPrinted()
    ensures Matches(INIT, START) && Printed(INIT, START) == "" && Reachable(INIT)
  {
  }

  lemma FinalPrinted(b: Build)
    requires Matches(FINAL, b)
    ensures b.root.Some? && Printed(FINAL, b) == Dump(b.root.value)
  {
    hide Dump;
    assert "" + Dump(b.root.value) + "" == Dump(b.root.value);
  }

  // ---------- every accepted text has a value ----------

  predicate InStep(s: State, b: Build) {
    SameKinds(s.stack, b.open) && (b.root.Some? <==> s.mode.After? && s.stack == [])
  }

  lemma PutInStep(stack: seq<Frame>, b: Build, v: Json)
    requires SameKinds(stack, b.open) && b.root.None?
    ensures InStep(State(After, stack), PutValue(b, v))
  {
  }

  lemma ClosedInStep(s: State, b: Build)
    requires InStep(s, b) && s.stack != []
    ensures InStep(State(After, s.stack[..|s.stack| - 1]), Close(b))
  {
    PutInStep(s.stack[..|s.stack| - 1], b.(open := b.open[..|b.open| - 1]), Whole(b.open[|b.open| - 1]));
  }

  lemma StringInStep(s: State, b: Build, c: char)
    requires InStep(s, b) && Reachable(s) && s.mode.Str? && !Step(s, c).mode.Bad?
    ensures InStep(Step(s, c), Take(s, b, c))
  {
    hide PutValue;
    if s.mode.esc.Plain? && c == '"' && !s.mode.isKey {
      PutInStep(s.stack, b, String(b.token));
    }
  }

  lemma LiteralInStep(s: State, b: Build, c: char)
    requires InStep(s, b) && s.mode.Lit? && !Step(s, c).mode.Bad?
    ensures InStep(Step(s, c), Take(s, b, c))
  {
    hide PutValue;
    if |s.mode.rest| <= 1 {
      PutInStep(s.stack, b, Literal(b.token + [c]));
    }
  }

  lemma TakeInStep(s: State, b: Build, c: char)
    requires InStep(s, b) && Reachable(s) && !Step(s, c).mode.Bad? && Settle(s, c) == s
    ensures InStep(Step(s, c), Take(s, b, c))
  {
    hide PutValue, Close, TakeString, StepString;
    if s.mode.Str? {
      StringInStep(s, b, c);
    } else if s.mode.Lit? {
      LiteralInStep(s, b, c);
    } else if c == '}' || c == ']' {
      ClosedInStep(s, b);
    }
  }

  lemma {:induction false} RunInStep(s: State, b: Build, text: string)
    requires InStep(s, b) && Reachable(s) && !Run(s, text).mode.Bad?
    ensures InStep(Run(s, text), BuildRun(s, b, text))
    decreases |text|
  {
    hide Take, PutValue, Step, Reachable;
    if text != "" {
      var c := text[0];
      if Step(s, c).mode.Bad? {
        RunBad(Step(s, c), text[1..]);
      }
      SettleSteps(s, c);
      StepReachable(s, c);
      FeedInStep(s, b, c);
      RunInStep(Step(s, c), Feed(s, b, c), text[1..]);
    }
  }

  lemma FeedInStep(s: State, b: Build, c: char)
    requires InStep(s, b) && Reachable(s) && !Step(s, c).mode.Bad?
    ensures InStep(Step(s, c), Feed(s, b, c))
  {
    hide Take, PutValue, Step;
    SettleSteps(s, c);
    if Settle(s, c) != s {
      PutInStep(s.stack, b, Number(b.token));
      TakeInStep(Settle(s, c), PutValue(b, Number(b.token)), c);
    } else {
      TakeInStep(s, b, c);
    }
  }

  lemma AcceptedHasValue(text: string)
    ensures Accepts(text) <==> ValueOf(text).Some?
  {
    hide PutValue, BuildRun, Run;
    if Accepts(text) {
      var s, b := Run(INIT, text), BuildRun(INIT, START, text);
      RunInStep(INIT, START, text);
      if NumberDone(s.mode) {
        PutInStep(s.stack, b, Number(b.token));
      }
    }
  }

  // ---------- values of texts without escapes ----------

  predicate PlainText(text: string) {
    forall i | 0 <= i < |text| :: PlainChar(text[i])
  }

  // Keys, strings and numbers that are printed as they are.
  predicate PlainJson(j: Json)
    decreases j
  {
    match j
    case Number(digits) => PlainText(digits)
    case String(text) => PlainText(text)
    case Array(items) => forall i | 0 <= i < |items| :: PlainJson(items[i])
    case Object(fields) => forall i | 0 <= i < |fields| :: PlainText(fields[i].key) && PlainJson(fields[i].value)
    case _ => true
  }

  predicate PlainHolder(h: Holder) {
    PlainJson(Whole(h)) && (h.OfObject? ==> PlainText(h.key))
  }

  predicate PlainBuild(s: State, b: Build) {
    && (forall k | 0 <= k < |b.open| :: PlainHolder(b.open[k]))
    && (b.root.Some? ==> PlainJson(b.root.value))
    && (s.mode.Str? || s.mode.Num? ==> PlainText(b.token))
    && (s.mode.Str? ==> s.mode.esc.Plain?)
  }

  lemma {:induction false} PutPlain(fields: seq<Field>, key: string, v: Json)
    requires PlainJson(Object(fields)) && PlainText(key) && PlainJson(v)
    ensures PlainJson(Object(Put(fields, key, v)))
    decreases |fields|
  {
    if fields != [] && fields[0].key != key {
      assert Object(fields).fields == fields && Object(fields[1..]).fields == fields[1..];
      PutPlain(fields[1..], key, v);
    }
  }

  lemma AddPlain(h: Holder, v: Json)
    requires PlainHolder(h) && PlainJson(v)
    ensures PlainHolder(Add(h, v))
  {
    if h.OfObject? {
      PutPlain(h.fields, h.key, v);
    }
  }

  lemma ValuePlain(s: State, b: Build, v: Json, m: Mode, stack: seq<Frame>)
    requires PlainBuild(s, b) && PlainJson(v) && !m.Str? && !m.Num?
    ensures PlainBuild(State(m, stack), PutValue(b, v))
  {
    hide PlainHolder, PlainJson, Add;
    if b.open != [] {
      AddPlain(b.open[|b.open| - 1], v);
    }
  }

  lemma CloseIsPlain(s: State, b: Build, m: Mode, stack: seq<Frame>)
    requires PlainBuild(s, b) && !m.Str? && !m.Num?
    ensures PlainBuild(State(m, stack), Close(b))
  {
    hide PlainJson, Whole, PutValue;
    if b.open != [] {
      var n := |b.open| - 1;
      assert PlainHolder(b.open[n]);
      ValuePlain(s, b.(open := b.open[..n]), Whole(b.open[n]), m, stack);
    }
  }

  lemma StringPlain(s: State, b: Build, c: char)
    requires PlainBuild(s, b) && s.mode.Str? && c != '\\' && !Step(s, c).mode.Bad?
    ensures PlainBuild(Step(s, c), Take(s, b, c))
  {
    hide PutValue;
    if c == '"' && !s.mode.isKey {
      ValuePlain(s, b, String(b.token), After, s.stack);
    }
  }

  lemma LiteralPlain(s: State, b: Build, c: char)
    requires PlainBuild(s, b) && s.mode.Lit? && !Step(s, c).mode.Bad?
    ensures PlainBuild(Step(s, c), Take(s, b, c))
  {
    hide PutValue;
    if |s.mode.rest| <= 1 {
      ValuePlain(s, b, Literal(b.token + [c]), After, s.stack);
    }
  }

  lemma BetweenPlain(s: State, b: Build, c: char)
    requires PlainBuild(s, b) && Between(s.mode) && !Step(s, c).mode.Bad?
    ensures PlainBuild(Step(s, c), Take(s, b, c))
  {
    hide Close;
    if c == '}' || c == ']' {
      CloseIsPlain(s, b, After, Step(s, c).stack);
    }
  }

  lemma FeedPlain(s: State, b: Build, c: char)
    requires PlainBuild(s, b) && c != '\\' && !Step(s, c).mode.Bad?
    ensures PlainBuild(Step(s, c), Feed(s, b, c))
  {
    hide PutValue, Close, SetKey, PlainHolder;
    SettleSteps(s, c);
    if s.mode.Str? {
      StringPlain(s, b, c);
    } else if s.mode.Lit? {
      LiteralPlain(s, b, c);
    } else if Settle(s, c) != s {
      ValuePlain(s, b, Number(b.token), After, s.stack);
      BetweenPlain(Settle(s, c), PutValue(b, Number(b.token)), c);
    } else if !s.mode.Num? {
      BetweenPlain(s, b, c);
    }
  }

  lemma {:induction false} RunPlain(s: State, b: Build, text: string)
    requires PlainBuild(s, b) && '\\' !in text && !Run(s, text).mode.Bad?
    ensures PlainBuild(Run(s, text), BuildRun(s, b, text))
    decreases |text|
  {
    hide Feed, Step, PlainBuild;
    if text != "" {
      if Step(s, text[0]).mode.Bad? {
        RunBad(Step(s, text[0]), text[1..]);
      }
      FeedPlain(s, b, text[0]);
      RunPlain(Step(s, text[0]), Feed(s, b, text[0]), text[1..]);
    }
  }

  lemma ValueIsPlain(text: string)
    requires Accepts(text) && '\\' !in text
    ensures ValueOf(text).Some? && PlainJson(ValueOf(text).value)
  {
    hide PutValue, BuildRun, Run, PlainJson;
    AcceptedHasValue(text);
    RunPlain(INIT, START, text);
    var s, b := Run(INIT, text), BuildRun(INIT, START, text);
    if NumberDone(s.mode) {
      assert PlainJson(Number(b.token)) by { NumberPlain(b.token); }
      ValuePlain(s, b, Number(b.token), After, s.stack);
    }
  }

  lemma NumberPlain(digits: string)
    ensures PlainText(digits) ==> PlainJson(Number(digits))
  {
  }

  // ---------- a text that ends with a bracket ----------

  lemma {:induction false} BuildConcat(s: State, b: Build, x: string, y: string)
    ensures BuildRun(s, b, x + y) == BuildRun(Run(s, x), BuildRun(s, b, x), y)
    decreases |x|
  {
    hide Feed, Step;
    if x == "" {
      assert x + y == y;
    } else {
      assert (x + y)[0] == x[0] && (x + y)[1..] == x[1..] + y;
      BuildConcat(Step(s, x[0]), Feed(s, b, x[0]), x[1..], y);
    }
  }

  lemma LastFeed(text: string)
    requires text != ""
    ensures var n := |text| - 1;
            BuildRun(INIT, START, text) == Feed(Run(INIT, text[..n]), BuildRun(INIT, START, text[..n]), text[n])
  {
    hide Feed, Step;
    var n := |text| - 1;
    assert text == text[..n] + [text[n]];
    BuildConcat(INIT, START, text[..n], [text[n]]);
    var s, b := Run(INIT, text[..n]), BuildRun(INIT, START, text[..n]);
    assert [text[n]][1..] == "" && BuildRun(Step(s, text[n]), Feed(s, b, text[n]), "") == Feed(s, b, text[n]);
  }

  lemma CloseLast(s: State, b: Build, c: char)
    requires (c == ']' || c == '}') && Step(s, c) == FINAL && Settle(s, c) == s && InStep(s, b) && Reachable(s)
    ensures var r := Take(s, b, c).root; r.Some? && (r.value.Array? || r.value.Object?)
  {
    assert s.stack != [] && s.stack[..|s.stack| - 1] == [];
  }

  lemma BracketCloses(s: State, b: Build, c: char)
    requires (c == ']' || c == '}') && Step(s, c) == FINAL && InStep(s, b) && Reachable(s)
    ensures var r := Feed(s, b, c).root; r.Some? && (r.value.Array? || r.value.Object?)
  {
    hide Take, PutValue, Step;
    SettleSteps(s, c);
    if Settle(s, c) != s {
      PutInStep(s.stack, b, Number(b.token));
      CloseLast(Settle(s, c), PutValue(b, Number(b.token)), c);
    } else {
      CloseLast(s, b, c);
    }
  }

  lemma ContainerAtEnd(text: string)
    requires Accepts(text) && text != "" && text[|text| - 1] in "]}"
    ensures ValueOf(text).Some? && (ValueOf(text).value.Array? || ValueOf(text).value.Object?)
  {
    hide Feed, Run, BuildRun, Step;
    var n := |text| - 1;
    var s, b := Run(INIT, text[..n]), BuildRun(INIT, START, text[..n]);
    LastFeed(text);
    RunLast(INIT, text);
    BracketEnds(s, text[n]);
    if s.mode.Bad? {
      assert text == text[..n] + [text[n]];
      BadStays(s, text[n]);
    }
    RunReachable(INIT, text[..n]);
    RunInStep(INIT, START, text[..n]);
    BracketCloses(s, b, text[n]);
  }

  lemma BracketEnds(s: State, c: char)
    ensures c in "]}" ==> !Step(s, c).mode.Num?
  {
  }

  lemma BadStays(s: State, c: char)
    ensures s.mode.Bad? ==> Step(s, c).mode.Bad?
  {
  }
}
