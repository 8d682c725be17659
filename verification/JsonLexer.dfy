// The JSON library's lexer (vendor/nlohmann/json.hpp:7183-7330, 7992-8340, 8362-8426, 8519-8626): its
// counter of characters read, with characters that are taken back, and its scanning of one token. A
// byte-order mark, NUL characters and comments are not part of this model.
module JsonLexer {
  import opened Outcomes
  import opened Characters
  import opened JsonAutomaton
  import opened JsonLocator

  datatype Token =
    | BeginObject | EndObject | BeginArray | EndArray | NameSeparator | ValueSeparator
    | StringToken
    | ScalarToken                    // a literal or a number
    | ParseError
    | EndOfInput

  // ---------- the token that stands at a position ----------

  function CharAt(text: string, k: nat): Option<char> {
    if k < |text| then Some(text[k]) else None
  }

  function SkipBlanks(text: string, i: nat): (j: nat)
    requires i <= |text|
    ensures i <= j <= |text| && (forall k :: i <= k < j ==> IsBlank(text[k])) && (j < |text| ==> !IsBlank(text[j]))
    decreases |text| - i
  {
    if i < |text| && IsBlank(text[i]) then SkipBlanks(text, i + 1) else i
  }

  // Whether the token that has been read up to j in state t is completed.
  predicate Completes(t: State, text: string, j: nat)
    requires j <= |text|
    decreases |text| - j
  {
    if j < |text| && InToken(Step(t, text[j]).mode) then Completes(Step(t, text[j]), text, j + 1)
    else if t.mode.Num? then NumberDone(t.mode)
    else j < |text| && !Step(t, text[j]).mode.Bad?
  }

  function Structural(c: char): (r: Option<Token>)
    ensures r.Some? ==> r.value in {BeginObject, EndObject, BeginArray, EndArray, NameSeparator, ValueSeparator}
  {
    match c
    case '{' => Some(BeginObject)
    case '}' => Some(EndObject)
    case '[' => Some(BeginArray)
    case ']' => Some(EndArray)
    case ':' => Some(NameSeparator)
    case ',' => Some(ValueSeparator)
    case _ => None
  }

  // The state of a token after its first character.
  function FirstOf(c: char): State {
    StepValue(Value, [], c)
  }

  // The token after position i and the number of characters read when the lexer is through with it.
  function Lexed(text: string, i: nat): (r: (Token, nat))
    requires i <= |text|
    ensures i < r.1 <= |text| + 1
  {
    var j := SkipBlanks(text, i);
    if j == |text| then (EndOfInput, j + 1)
    else if Structural(text[j]).Some? then (Structural(text[j]).value, j + 1)
    else
      var t := FirstOf(text[j]);
      var read := LastOfToken(t, text, j + 1) + 1;
      if !InToken(t.mode) || !Completes(t, text, j + 1) then (ParseError, read)
      else if t.mode.Str? then (StringToken, read)
      else (ScalarToken, read)
  }

  // ---------- the lexer ----------

  // Both ways to go on from here end alike.
  predicate Same(text: string, t: State, j: nat, t': State, j': nat)
    requires 0 < j <= |text| && 0 < j' <= |text|
  {
    LastOfToken(t, text, j) == LastOfToken(t', text, j') && (Completes(t, text, j) <==> Completes(t', text, j'))
  }

  predicate Ends(text: string, t: State, j: nat, read: nat, ok: bool)
    requires 0 < j <= |text|
  {
    read == LastOfToken(t, text, j) + 1 && (ok <==> Completes(t, text, j))
  }

  lemma Continues(text: string, t: State, j: nat)
    requires 0 < j < |text| && InToken(t.mode) && InToken(Step(t, text[j]).mode)
    ensures Same(text, t, j, Step(t, text[j]), j + 1)
  {
  }

  lemma EndsHere(text: string, t: State, j: nat)
    requires 0 < j <= |text| && InToken(t.mode) && (j < |text| ==> !InToken(Step(t, text[j]).mode))
    ensures t.mode.Num? ==> Ends(text, t, j, if NumberDone(t.mode) then j else j + 1, NumberDone(t.mode))
    ensures !t.mode.Num? ==> Ends(text, t, j, j + 1, j < |text| && !Step(t, text[j]).mode.Bad?)
  {
  }

  function InString(esc: Escape): State {
    State(Str(false, esc), [])
  }

  class Lexer {
    const text: string
    var at: nat                      // calls of the input adapter
    var current: Option<char>
    var nextUnget: bool
    var charsRead: nat

    constructor (text: string)
      ensures this.text == text && Valid() && charsRead == 0
    {
      this.text := text;
      at, current, nextUnget, charsRead := 0, None, false, 0;
    }

    ghost predicate Valid()
      reads this
    {
      && charsRead + (if nextUnget then 1 else 0) == at
      && (at > 0 ==> current == CharAt(text, at - 1))
    }

    method Get()
      requires Valid()
      modifies this
      ensures Valid() && charsRead == old(charsRead) + 1 && current == CharAt(text, charsRead - 1) && !nextUnget
    {
      charsRead := charsRead + 1;
      if nextUnget {
        nextUnget := false;
      } else {
        current := if at < |text| then Some(text[at]) else None;
        at := at + 1;
      }
    }

    method Unget()
      requires Valid() && charsRead > 0 && !nextUnget
      modifies this
      ensures Valid() && charsRead == old(charsRead) - 1
    {
      nextUnget := true;
      charsRead := charsRead - 1;
    }

    // The four digits of a unicode escape; None if one is missing.
    method GetCodepoint(low: bool) returns (codepoint: Option<nat>)
      requires Valid() && 0 < charsRead <= |text|
      modifies this
      ensures Valid() && (codepoint.Some? ==> !nextUnget)
      ensures var t := InString(Hex(4, 0, low));
              if codepoint.Some? && EscapeDone(codepoint.value, low).Str? then
                charsRead <= |text| && charsRead > old(charsRead)
                && Same(text, t, old(charsRead), State(EscapeDone(codepoint.value, low), []), charsRead)
              else Ends(text, t, old(charsRead), charsRead, false)
    {
      hide LastOfToken, Completes;
      ghost var start := charsRead;
      var code: nat, left: nat := 0, 4;
      while left > 0
        invariant left <= 4 && Valid() && 0 < start <= charsRead <= |text| && (left < 4 ==> !nextUnget && charsRead > start)
        invariant left > 0 ==> Same(text, InString(Hex(4, 0, low)), start, InString(Hex(left, code, low)), charsRead)
        invariant left == 0 && EscapeDone(code, low).Str? ==>
                    Same(text, InString(Hex(4, 0, low)), start, State(EscapeDone(code, low), []), charsRead)
        invariant left == 0 && !EscapeDone(code, low).Str? ==> Ends(text, InString(Hex(4, 0, low)), start, charsRead, false)
        decreases left
      {
        ghost var t, j := InString(Hex(left, code, low)), charsRead;
        Get();
        if current.None? || !IsHex(current.value) {
          EndsHere(text, t, j);
          return None;
        }
        if InToken(Step(t, text[j]).mode) {
          Continues(text, t, j);
        } else {
          EndsHere(text, t, j);
        }
        code := code * 16 + HexValue(current.value);
        left := left - 1;
      }
      codepoint := Some(code);
    }

    // The second half of a surrogate pair.
    method ScanLowSurrogate() returns (ok: bool)
      requires Valid() && 0 < charsRead <= |text|
      modifies this
      ensures Valid()
      ensures if ok then !nextUnget && old(charsRead) < charsRead <= |text|
                         && Same(text, InString(LowBackslash), old(charsRead), InString(Plain), charsRead)
              else Ends(text, InString(LowBackslash), old(charsRead), charsRead, false)
    {
      hide LastOfToken, Completes;
      ghost var j := charsRead;
      Get();
      if current != Some('\\') {
        EndsHere(text, InString(LowBackslash), j);
        return false;
      }
      Continues(text, InString(LowBackslash), j);
      Get();
      if current != Some('u') {
        EndsHere(text, InString(LowU), j + 1);
        return false;
      }
      Continues(text, InString(LowU), j + 1);
      var codepoint2 := GetCodepoint(true);
      ok := codepoint2.Some? && 0xDC00 <= codepoint2.value <= 0xDFFF;
    }

    // After the backslash and the u of an escape; true if it is right.
    method ScanUnicode() returns (ok: bool)
      requires Valid() && 0 < charsRead <= |text|
      modifies this
      ensures Valid()
      ensures if ok then !nextUnget && old(charsRead) < charsRead <= |text|
                         && Same(text, InString(Hex(4, 0, false)), old(charsRead), InString(Plain), charsRead)
              else Ends(text, InString(Hex(4, 0, false)), old(charsRead), charsRead, false)
    {
      hide LastOfToken, Completes, Step;
      var codepoint1 := GetCodepoint(false);
      if codepoint1.None? {
        return false;
      }
      if 0xD800 <= codepoint1.value <= 0xDBFF {
        ok := ScanLowSurrogate();
      } else {
        ok := !(0xDC00 <= codepoint1.value <= 0xDFFF);
      }
    }

    // After a backslash; true if the escape is right.
    method ScanEscape() returns (ok: bool)
      requires Valid() && 0 < charsRead <= |text|
      modifies this
      ensures Valid()
      ensures if ok then !nextUnget && old(charsRead) < charsRead <= |text|
                         && Same(text, InString(Backslash), old(charsRead), InString(Plain), charsRead)
              else Ends(text, InString(Backslash), old(charsRead), charsRead, false)
    {
      hide LastOfToken, Completes;
      ghost var j := charsRead;
      Get();
      if current == Some('u') {
        Continues(text, InString(Backslash), j);
        ok := ScanUnicode();
      } else if current.Some? && current.value in {'"', '\\', '/', 'b', 'f', 'n', 'r', 't'} {
        Continues(text, InString(Backslash), j);
        ok := true;
      } else {
        EndsHere(text, InString(Backslash), j);
        ok := false;
      }
    }

    method ScanString() returns (token: Token)
      requires Valid() && 0 < charsRead <= |text| && !nextUnget
      modifies this
      ensures Valid() && (token == StringToken || token == ParseError)
      ensures Ends(text, InString(Plain), old(charsRead), charsRead, token == StringToken)
    {
      hide LastOfToken, Completes;
      while true
        invariant Valid() && 0 < old(charsRead) <= charsRead <= |text|
        invariant Same(text, InString(Plain), old(charsRead), InString(Plain), charsRead)
        decreases |text| - charsRead
      {
        ghost var j := charsRead;
        Get();
        if current.None? || current.value == '"' || current.value < ' ' {
          EndsHere(text, InString(Plain), j);
          return if current == Some('"') then StringToken else ParseError;
        }
        Continues(text, InString(Plain), j);
        if current.value == '\\' {
          var ok := ScanEscape();
          if !ok {
            return ParseError;
          }
        }
      }
    }

    // The source jumps between the states of the number; place is the one it is in.
    method ScanNumber() returns (token: Token)
      requires Valid() && 0 < charsRead <= |text| && !nextUnget && current.Some? && FirstOf(current.value).mode.Num?
      modifies this
      ensures Valid() && (token == ScalarToken || token == ParseError)
      ensures Ends(text, FirstOf(old(current).value), old(charsRead), charsRead, token == ScalarToken)
    {
      hide LastOfToken, Completes;
      var place := if current == Some('-') then Minus else if current == Some('0') then Zero else Digits;
      while true
        invariant Valid() && 0 < old(charsRead) <= charsRead <= |text|
        invariant Same(text, FirstOf(old(current).value), old(charsRead), State(Num(place), []), charsRead)
        decreases |text| - charsRead
      {
        ghost var j := charsRead;
        Get();
        if current.Some? && StepNumber(place, current.value).Num? {
          Continues(text, State(Num(place), []), j);
          place := StepNumber(place, current.value).num;
        } else {
          EndsHere(text, State(Num(place), []), j);
          if !Complete(place) {
            return ParseError;
          }
          Unget();
          return ScalarToken;
        }
      }
    }

    method ScanLiteral(literal: string) returns (token: Token)
      requires Valid() && 0 < charsRead <= |text| && literal in {"true", "false", "null"}
      modifies this
      ensures Valid() && (token == ScalarToken || token == ParseError)
      ensures Ends(text, State(Lit(literal[1..]), []), old(charsRead), charsRead, token == ScalarToken)
    {
      hide LastOfToken, Completes;
      ghost var start := charsRead;
      for i := 1 to |literal|
        invariant Valid() && 0 < start <= charsRead && charsRead == start + (i - 1)
        invariant i < |literal| ==> charsRead <= |text| && Same(text, State(Lit(literal[1..]), []), start, State(Lit(literal[i..]), []), charsRead)
        invariant i == |literal| ==> Ends(text, State(Lit(literal[1..]), []), start, charsRead, true)
      {
        ghost var t, j := State(Lit(literal[i..]), []), charsRead;
        Get();
        if current != Some(literal[i]) {
          EndsHere(text, t, j);
          return ParseError;
        }
        assert literal[i..][1..] == literal[i + 1..];
        if i + 1 < |literal| {
          Continues(text, t, j);
        } else {
          EndsHere(text, t, j);
        }
      }
      token := ScalarToken;
    }

    method SkipWhitespace()
      requires Valid() && charsRead <= |text|
      modifies this
      ensures Valid() && charsRead == SkipBlanks(text, old(charsRead)) + 1 && current == CharAt(text, charsRead - 1) && !nextUnget
    {
      Get();
      while current.Some? && IsBlank(current.value)
        invariant Valid() && old(charsRead) < charsRead <= |text| + 1 && current == CharAt(text, charsRead - 1) && !nextUnget
        invariant SkipBlanks(text, charsRead - 1) == SkipBlanks(text, old(charsRead))
        decreases |text| + 1 - charsRead
      {
        Get();
      }
    }

    method Scan() returns (token: Token)
      requires Valid() && charsRead <= |text|
      modifies this
      ensures Valid() && (token, charsRead) == Lexed(text, old(charsRead))
    {
      hide LastOfToken, Completes, Lexed, Structural, FirstOf, Ends, SkipBlanks;
      if charsRead == 0 {
        Get();
        Unget();
      }
      ghost var i := charsRead;
      SkipWhitespace();
      if current.None? {
        NothingLeft(text, i);
        return EndOfInput;
      }
      var c := current.value;
      ghost var j := charsRead;
      Starts(c);
      match c {
        case '[' => token := BeginArray;
        case ']' => token := EndArray;
        case '{' => token := BeginObject;
        case '}' => token := EndObject;
        case ':' => token := NameSeparator;
        case ',' => token := ValueSeparator;
        case 't' => token := ScanLiteral("true");
        case 'f' => token := ScanLiteral("false");
        case 'n' => token := ScanLiteral("null");
        case '"' => token := ScanString();
        case _ =>
          if c == '-' || IsDigit(c) {
            token := ScanNumber();
          } else {
            token := ParseError;
          }
      }
      LexedToken(text, i, charsRead, token);
    }
  }

  lemma NothingLeft(text: string, i: nat)
    requires i <= |text| && SkipBlanks(text, i) == |text|
    ensures Lexed(text, i) == (EndOfInput, |text| + 1)
  {
  }

  lemma Starts(c: char)
    ensures FirstOf('"') == InString(Plain)
    ensures FirstOf('t') == State(Lit("true"[1..]), []) && FirstOf('f') == State(Lit("false"[1..]), [])
    ensures FirstOf('n') == State(Lit("null"[1..]), [])
    ensures (c == '-' || IsDigit(c)) && Structural(c).None? <==> FirstOf(c).mode.Num?
    ensures c in {'[', ']', '{', '}', ':', ','} <==> Structural(c).Some?
    ensures c in {'"', 't', 'f', 'n', '-'} || IsDigit(c) <==> InToken(FirstOf(c).mode)
    ensures FirstOf(c).mode.Str? <==> c == '"'
    ensures Structural('[') == Some(BeginArray) && Structural(']') == Some(EndArray)
    ensures Structural('{') == Some(BeginObject) && Structural('}') == Some(EndObject)
    ensures Structural(':') == Some(NameSeparator) && Structural(',') == Some(ValueSeparator)
  {
    assert "true"[1..] == "rue" && "false"[1..] == "alse" && "null"[1..] == "ull";
  }

  // What the branches of the scan come to.
  lemma LexedToken(text: string, i: nat, read: nat, token: Token)
    requires i <= |text| && SkipBlanks(text, i) < |text|
    requires var j := SkipBlanks(text, i);
             var c := text[j];
             if Structural(c).Some? then token == Structural(c).value && read == j + 1
             else if InToken(FirstOf(c).mode) then
               && (token == ParseError || token == if c == '"' then StringToken else ScalarToken)
               && Ends(text, FirstOf(c), j + 1, read, token != ParseError)
             else token == ParseError && read == j + 1
    ensures Lexed(text, i) == (token, read)
  {
    hide LastOfToken, Completes;
    var j := SkipBlanks(text, i);
    Starts(text[j]);
    if !InToken(FirstOf(text[j]).mode) {
      NoToken(text, j + 1);
    }
  }

  lemma NoToken(text: string, j: nat)
    requires 0 < j <= |text| && !InToken(FirstOf(text[j - 1]).mode)
    ensures LastOfToken(FirstOf(text[j - 1]), text, j) == j - 1
  {
  }
}
