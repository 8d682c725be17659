// The JSON library's parser over tokens (vendor/nlohmann/json.hpp:13019-13330), driving the consumer
// that locates errors. What it finds is what the automaton finds one character at a time.
module JsonParser {
  import opened Outcomes
  import opened Characters
  import opened JsonAutomaton
  import opened JsonLocator
  import opened JsonLexer

  // ---------- tokens and the automaton ----------

  predicate AwaitsHere(m: Mode) {
    m.Value? || m.ValueOrEnd?
  }

  // The tokens that may come in a state between tokens.
  predicate Fits(s: State, token: Token) {
    match token
    case BeginObject => AwaitsHere(s.mode)
    case BeginArray => AwaitsHere(s.mode)
    case ScalarToken => AwaitsHere(s.mode)
    case StringToken => AwaitsHere(s.mode) || s.mode.KeyOrEnd? || s.mode.Key?
    case EndObject => TopIs(s, InObject) && (s.mode.KeyOrEnd? || s.mode.After?)
    case EndArray => TopIs(s, InArray) && (s.mode.ValueOrEnd? || s.mode.After?)
    case NameSeparator => s.mode.Colon?
    case ValueSeparator => s.mode.After? && s.stack != []
    case EndOfInput => s == FINAL
    case ParseError => false
  }

  function Next(s: State, token: Token): State
    requires Fits(s, token)
  {
    match token
    case BeginObject => State(KeyOrEnd, s.stack + [InObject])
    case BeginArray => State(ValueOrEnd, s.stack + [InArray])
    case ScalarToken => State(After, s.stack)
    case StringToken => State(if AwaitsHere(s.mode) then After else Colon, s.stack)
    case EndObject => State(After, s.stack[..|s.stack| - 1])
    case EndArray => State(After, s.stack[..|s.stack| - 1])
    case NameSeparator => State(Value, s.stack)
    case ValueSeparator => State(if TopIs(s, InObject) then Key else Value, s.stack)
    case EndOfInput => s
  }

  // The automaton between the tokens at i; a number before i is complete if nothing continues it.
  function Seen(text: string, i: nat): State
    requires i <= |text|
  {
    var s := Run(INIT, text[..i]);
    if i < |text| then Settle(s, text[i]) else AtEnd(s)
  }

  predicate Here(text: string, i: nat, s: State) {
    i <= |text| && i <= Halt(INIT, text) && Between(s.mode) && Reachable(s) && Seen(text, i) == s
  }

  lemma SeenStep(text: string, i: nat, s: State)
    requires i < |text| && Here(text, i, s)
    ensures if Step(s, text[i]).mode.Bad? then Halt(INIT, text) == i && Run(INIT, text).mode.Bad?
            else i + 1 <= Halt(INIT, text) && Run(INIT, text[..i + 1]) == Step(s, text[i])
    ensures Reachable(Step(s, text[i]))
  {
    hide Step, Halt, Run;
    SettleSteps(Run(INIT, text[..i]), text[i]);
    StepReachable(s, text[i]);
    if Step(s, text[i]).mode.Bad? {
      Stopped(text, i);
    } else {
      WentOn(text, i);
    }
  }

  lemma Settles(text: string, i: nat, s: State)
    requires i <= |text| && i <= Halt(INIT, text) && Between(s.mode) && Reachable(s) && Run(INIT, text[..i]) == s
    ensures Here(text, i, s)
  {
    hide Run, Halt;
  }

  lemma {:induction false} OverBlanks(text: string, i: nat, s: State)
    requires Here(text, i, s)
    ensures Here(text, SkipBlanks(text, i), s)
    decreases |text| - i
  {
    hide Here;
    InText(text, i, s);
    if i < |text| && IsBlank(text[i]) {
      SeenStep(text, i, s);
      BlankStays(s, text[i]);
      Settles(text, i + 1, s);
      OverBlanks(text, i + 1, s);
    }
  }

  lemma InText(text: string, i: nat, s: State)
    requires Here(text, i, s)
    ensures i <= |text| && Between(s.mode) && Reachable(s)
  {
  }

  lemma BlankStays(s: State, c: char)
    requires Between(s.mode) && IsBlank(c)
    ensures Step(s, c) == s
  {
  }

  // ---------- inside a token ----------

  // The automaton in a token that the lexer reads in state t.
  predicate Reads(t: State, u: State, key: bool, stack: seq<Frame>) {
    InToken(t.mode) && Reachable(u) && u == State(if t.mode.Str? then Str(key, t.mode.esc) else t.mode, stack)
  }

  lemma ReadsOn(t: State, u: State, key: bool, stack: seq<Frame>, c: char)
    requires Reads(t, u, key, stack)
    ensures InToken(Step(t, c).mode) ==> !Step(u, c).mode.Bad? && Reads(Step(t, c), Step(u, c), key, stack)
    ensures !InToken(Step(t, c).mode) && !t.mode.Num? && Step(t, c).mode.Bad? ==> Step(u, c).mode.Bad?
    ensures !InToken(Step(t, c).mode) && !t.mode.Num? && !Step(t, c).mode.Bad? ==>
              Step(u, c) == State(if t.mode.Str? && key then Colon else After, stack)
    ensures !InToken(Step(t, c).mode) && t.mode.Num? ==>
              if NumberDone(t.mode) then Settle(u, c) == State(After, stack) else Step(u, c).mode.Bad?
  {
    StepReachable(u, c);
  }

  // A token that is completed leaves the automaton behind it.
  lemma {:induction false} TokenCompleted(text: string, t: State, u: State, key: bool, stack: seq<Frame>, j: nat)
    requires 0 < j <= |text| && j <= Halt(INIT, text) && Reads(t, u, key, stack) && Run(INIT, text[..j]) == u
    requires Completes(t, text, j) && (key ==> t.mode.Str?)
    ensures var r := LastOfToken(t, text, j) + 1; r <= |text| && Here(text, r, State(if key then Colon else After, stack))
    decreases |text| - j
  {
    hide Run, Halt, Step;
    if j < |text| {
      ReadsOn(t, u, key, stack, text[j]);
      HaltAt(INIT, text, j);
      StepReachable(u, text[j]);
      if InToken(Step(t, text[j]).mode) {
        WentOn(text, j);
        StillKey(t, text[j]);
        TokenCompleted(text, Step(t, text[j]), Step(u, text[j]), key, stack, j + 1);
      } else if !t.mode.Num? {
        WentOn(text, j);
        Settles(text, j + 1, Step(u, text[j]));
      }
    }
  }

  lemma StillKey(t: State, c: char)
    ensures t.mode.Str? && InToken(Step(t, c).mode) ==> Step(t, c).mode.Str?
  {
  }

  // What the consumer must be told when the token at i cannot be read or does not fit.
  predicate Fails(text: string, read: nat, s: State) {
    && !Accepts(text) && read == Reported(text) + 1
    && Reachable(Broken(text)) && SaxStack(Broken(text)) == SaxStack(s)
  }

  // An error inside a token is found at the character that does not continue it.
  lemma FailsInside(text: string, u: State, j: nat)
    requires j <= |text| && j <= Halt(INIT, text) && Run(INIT, text[..j]) == u && Reachable(u)
    requires InToken(u.mode) && !NumberDone(u.mode) && (j < |text| ==> Step(u, text[j]).mode.Bad?)
    ensures Fails(text, j + 1, u)
  {
    hide Run, Halt, Step, LastOfToken, SaxStack;
    if j < |text| {
      Stopped(text, j);
      Run1(u, text[j]);
      SameAsSettled(u, text[j]);
    } else {
      assert text[..j] == text;
    }
  }

  lemma SameAsSettled(u: State, c: char)
    requires !NumberDone(u.mode)
    ensures Settle(u, c) == u
  {
  }

  lemma {:induction false} TokenBroken(text: string, t: State, u: State, key: bool, stack: seq<Frame>, j: nat)
    requires 0 < j <= |text| && j <= Halt(INIT, text) && Reads(t, u, key, stack) && Run(INIT, text[..j]) == u
    requires !Completes(t, text, j) && (key ==> t.mode.Str?)
    ensures Fails(text, LastOfToken(t, text, j) + 1, u)
    decreases |text| - j
  {
    hide Run, Halt, Step, Fails;
    if j < |text| {
      ReadsOn(t, u, key, stack, text[j]);
      if InToken(Step(t, text[j]).mode) {
        WentOn(text, j);
        StillKey(t, text[j]);
        SameAwaiting(u, Step(u, text[j]));
        TokenBroken(text, Step(t, text[j]), Step(u, text[j]), key, stack, j + 1);
        SameFailure(text, LastOfToken(t, text, j) + 1, Step(u, text[j]), u);
      } else {
        FailsInside(text, u, j);
      }
    } else {
      FailsInside(text, u, j);
    }
  }

  // Inside one token the consumer's stack stays as it is.
  lemma SameAwaiting(u: State, u': State)
    requires InToken(u.mode) && InToken(u'.mode) && u.stack == u'.stack
    requires (u.mode.Str? && u.mode.isKey) <==> (u'.mode.Str? && u'.mode.isKey)
    ensures SaxStack(u) == SaxStack(u')
  {
    SameSaxStack(u, u');
  }

  lemma SameFailure(text: string, read: nat, u: State, u': State)
    requires Fails(text, read, u) && SaxStack(u) == SaxStack(u')
    ensures Fails(text, read, u')
  {
  }

  // ---------- the two cases of a token ----------

  lemma NoFinalStep(text: string)
    requires Run(INIT, text).mode.Bad?
    ensures !Accepts(text)
  {
  }

  // The token starts with a character that may not come.
  lemma FailsBetween(text: string, j: nat, s: State)
    requires j < |text| && Here(text, j, s) && Step(s, text[j]).mode.Bad? && !IsBlank(text[j])
    ensures Fails(text, LastOfToken(FirstOf(text[j]), text, j + 1) + 1, s)
  {
    hide Run, Halt, Step, LastOfToken, SaxStack;
    SeenStep(text, j, s);
    NoFinalStep(text);
    Unsettled(Run(INIT, text[..j]), text[j]);
  }

  lemma Unsettled(s: State, c: char)
    requires Between(Settle(s, c).mode)
    ensures InToken(s.mode) ==> NumberDone(s.mode)
  {
  }

  lemma FailsAtEnd(text: string, s: State)
    requires Here(text, |text|, s) && s != FINAL
    ensures Fails(text, |text| + 1, s)
  {
    hide Run, Halt, Step, LastOfToken, SaxStack;
    assert text[..|text|] == text;
  }

  lemma AcceptedAtEnd(text: string)
    requires Here(text, |text|, FINAL)
    ensures Accepts(text) && Broken(text) == FINAL
  {
    hide Run, Halt;
    assert text[..|text|] == text;
  }

  // The first characters of tokens, in the automaton and on their own.
  lemma StructuralCharacter(s: State, c: char)
    requires Between(s.mode) && Reachable(s) && Structural(c).Some?
    ensures if Fits(s, Structural(c).value) then Step(s, c) == Next(s, Structural(c).value) else Step(s, c).mode.Bad?
    ensures !InToken(FirstOf(c).mode)
  {
  }

  function TokenOf(c: char): Token {
    if c == '"' then StringToken else ScalarToken
  }

  lemma TokenCharacter(s: State, c: char)
    requires Between(s.mode) && Reachable(s) && InToken(FirstOf(c).mode)
    ensures Structural(c).None? && (FirstOf(c).mode.Str? <==> c == '"')
    ensures if !Fits(s, TokenOf(c)) then Step(s, c).mode.Bad?
            else Reads(FirstOf(c), Step(s, c), !AwaitsHere(s.mode), s.stack) && (!AwaitsHere(s.mode) ==> c == '"')
  {
    StepReachable(s, c);
  }

  lemma TokenKeepsStack(s: State, c: char)
    requires Between(s.mode) && Reachable(s) && InToken(FirstOf(c).mode) && Fits(s, TokenOf(c))
    ensures SaxStack(Step(s, c)) == SaxStack(s)
  {
    TokenCharacter(s, c);
    SameSaxStack(s, Step(s, c));
    hide SaxStack;
  }

  lemma NoCharacter(s: State, c: char)
    requires Between(s.mode) && Reachable(s) && Structural(c).None? && !InToken(FirstOf(c).mode) && !IsBlank(c)
    ensures Step(s, c).mode.Bad?
  {
  }

  lemma NextIsBetween(s: State, token: Token)
    requires Fits(s, token) && Reachable(s) && Between(s.mode)
    ensures Between(Next(s, token).mode) && Reachable(Next(s, token))
  {
  }

  // A token that fits takes the automaton to the next place between tokens.
  lemma Fitting(text: string, i: nat, s: State)
    requires Here(text, i, s) && Fits(s, Lexed(text, i).0)
    ensures var (token, read) := Lexed(text, i);
            if token.EndOfInput? then Accepts(text) && Broken(text) == FINAL
            else read <= |text| && Here(text, read, Next(s, token))
  {
    hide Here, Run, Halt, Step, LastOfToken, Completes, Structural, FirstOf, Accepts, Broken, Fits, Next;
    InText(text, i, s);
    var j := SkipBlanks(text, i);
    OverBlanks(text, i, s);
    if j == |text| {
      OnlyFinal(s);
      AcceptedAtEnd(text);
    } else {
      var c := text[j];
      SeenStep(text, j, s);
      NextIsBetween(s, Lexed(text, i).0);
      if Structural(c).Some? {
        StructuralCharacter(s, c);
        Settles(text, j + 1, Step(s, c));
      } else {
        NoErrorFits(s);
        TokenCharacter(s, c);
        AfterToken(s, c);
        TokenCompleted(text, FirstOf(c), Step(s, c), !AwaitsHere(s.mode), s.stack, j + 1);
      }
    }
  }

  lemma OnlyFinal(s: State)
    ensures Fits(s, EndOfInput) ==> s == FINAL
  {
  }

  lemma NoErrorFits(s: State)
    ensures !Fits(s, ParseError)
  {
  }

  lemma AfterToken(s: State, c: char)
    requires Between(s.mode) && Reachable(s) && InToken(FirstOf(c).mode) && Fits(s, TokenOf(c))
    ensures !Step(s, c).mode.Bad?
    ensures Next(s, TokenOf(c)) == State(if !AwaitsHere(s.mode) then Colon else After, s.stack)
  {
  }

  // One that does not, or cannot be read, is the error that the automaton finds.
  lemma Refused(text: string, i: nat, s: State)
    requires Here(text, i, s) && !Fits(s, Lexed(text, i).0)
    ensures Fails(text, Lexed(text, i).1, s)
  {
    hide Here, Run, Halt, Step, LastOfToken, Completes, Structural, FirstOf, Fails, SaxStack, Fits;
    InText(text, i, s);
    var j := SkipBlanks(text, i);
    OverBlanks(text, i, s);
    if j == |text| {
      FinalFits(s);
      FailsAtEnd(text, s);
    } else {
      var c := text[j];
      SeenStep(text, j, s);
      if Structural(c).Some? {
        StructuralCharacter(s, c);
        FailsBetween(text, j, s);
        NoToken(text, j + 1);
      } else if !InToken(FirstOf(c).mode) {
        NoCharacter(s, c);
        FailsBetween(text, j, s);
        NoToken(text, j + 1);
      } else {
        TokenCharacter(s, c);
        if Fits(s, TokenOf(c)) {
          AfterToken(s, c);
          TokenKeepsStack(s, c);
          TokenBroken(text, FirstOf(c), Step(s, c), !AwaitsHere(s.mode), s.stack, j + 1);
          SameFailure(text, Lexed(text, i).1, Step(s, c), s);
        } else {
          FailsBetween(text, j, s);
        }
      }
    }
  }

  lemma FinalFits(s: State)
    ensures s == FINAL ==> Fits(s, EndOfInput)
  {
  }

  // ---------- the parser ----------

  // Open containers, true for arrays.
  predicate SameStates(states: seq<bool>, stack: seq<Frame>) {
    |states| == |stack| && forall k :: 0 <= k < |stack| ==> states[k] == (stack[k] == InArray)
  }

  lemma Punctuation(s: State, token: Token)
    requires Reachable(s) && Fits(s, token) && (token.NameSeparator? || token.ValueSeparator?)
    ensures SaxStack(Next(s, token)) == SaxStack(s) && Reachable(Next(s, token))
  {
    SameSaxStack(s, Next(s, token));
  }

  class Parser {
    const text: string
    const lexer: Lexer
    const sax: JsonErrorLocator
    var lastToken: Token

    constructor (text: string, sax: JsonErrorLocator)
      ensures this.text == text && this.sax == sax && fresh(lexer)
      ensures Valid() && (lastToken, lexer.charsRead) == Lexed(text, 0)
    {
      this.text, this.sax := text, sax;
      lexer := new Lexer(text);
      lastToken := EndOfInput;
      new;
      GetToken();
    }

    ghost predicate Valid()
      reads lexer
    {
      lexer.text == text && lexer.Valid()
    }

    // The automaton is at i, in state s, and the token behind i has been read.
    ghost predicate Ahead(i: nat, s: State)
      reads this, lexer, sax
    {
      Valid() && Here(text, i, s) && (lastToken, lexer.charsRead) == Lexed(text, i) && sax.Holds(s) && !sax.foundError
    }

    // No token has been read behind the place where the automaton is.
    ghost predicate Reached(s: State)
      reads this, lexer, sax
    {
      Valid() && Here(text, lexer.charsRead, s) && sax.Holds(s) && !sax.foundError
    }

    ghost predicate Failed()
      reads sax
    {
      && sax.foundError && !Accepts(text) && sax.position == Reported(text)
      && Reachable(Broken(text)) && sax.stack == SaxStack(Broken(text))
    }

    method GetToken()
      requires Valid() && lexer.charsRead <= |text|
      modifies this, lexer
      ensures Valid() && (lastToken, lexer.charsRead) == Lexed(text, old(lexer.charsRead))
      ensures old(lexer.charsRead) < lexer.charsRead <= |text| + 1
    {
      lastToken := lexer.Scan();
    }

    method ReadAhead(ghost s: State)
      requires Reached(s)
      modifies this, lexer
      ensures Ahead(old(lexer.charsRead), s) && old(lexer.charsRead) < lexer.charsRead <= |text| + 1
    {
      InText(text, lexer.charsRead, s);
      GetToken();
    }

    method Fail(ghost i: nat, ghost s: State)
      requires Ahead(i, s) && !Fits(s, lastToken)
      modifies sax
      ensures Failed()
    {
      hide Here, Fits, Lexed, Reported, Broken, Accepts;
      InText(text, i, s);
      Refused(text, i, s);
      sax.ParseError(lexer.charsRead);
    }

    // A key and its colon, up to the token behind them; the key's token has been read.
    method ParseKey(ghost i: nat, ghost s: State) returns (ok: bool)
      requires Ahead(i, s) && (s.mode.Key? || (s.mode.KeyOrEnd? && lastToken != EndObject))
      modifies this, lexer, sax
      ensures ok ==> (exists i' :: Ahead(i', State(Value, s.stack))) && lexer.charsRead > old(lexer.charsRead)
      ensures !ok ==> Failed()
    {
      hide Here, Lexed, Reported, Broken, Accepts, SaxStack, Reachable;
      if lastToken != StringToken {
        Fail(i, s);
        return false;
      }
      Fitting(text, i, s);
      sax.Key(s);
      ghost var s1, i1 := State(Colon, s.stack), lexer.charsRead;
      ReadAhead(s1);
      if lastToken != NameSeparator {
        Fail(i1, s1);
        return false;
      }
      Fitting(text, i1, s1);
      InText(text, i1, s1);
      Punctuation(s1, NameSeparator);
      ghost var i2 := lexer.charsRead;
      ReadAhead(State(Value, s.stack));
      assert Ahead(i2, State(Value, s.stack));
      ok := true;
    }

    // A value has been read: what follows in its container, up to the token of the next value or to
    // the end of the container.
    method AfterValue(states: seq<bool>, ghost s: State) returns (ok: bool, closed: bool, ghost s': State)
      requires Reached(s) && s.mode.After? && SameStates(states, s.stack) && states != []
      modifies this, lexer, sax
      ensures !ok ==> Failed()
      ensures ok ==> lexer.charsRead > old(lexer.charsRead)
      ensures ok && closed ==> Reached(s') && s' == State(After, s.stack[..|s.stack| - 1])
      ensures ok && !closed ==> s' == State(Value, s.stack) && exists i' :: Ahead(i', s')
    {
      hide Here, Lexed, Reported, Broken, Accepts, SaxStack, Reachable;
      ghost var i := lexer.charsRead;
      InText(text, i, s);
      ReadAhead(s);
      var inArray := states[|states| - 1];
      s', closed := s, false;
      if lastToken == ValueSeparator {
        Fitting(text, i, s);
        Punctuation(s, ValueSeparator);
        s' := State(Value, s.stack);
        ghost var i' := lexer.charsRead;
        ReadAhead(Next(s, ValueSeparator));
        if inArray {
          assert Ahead(i', s');
          ok := true;
        } else {
          ok := ParseKey(i', State(Key, s.stack));
        }
      } else if lastToken == (if inArray then EndArray else EndObject) {
        Fitting(text, i, s);
        if inArray {
          sax.EndArray(s);
        } else {
          sax.EndObject(s);
        }
        s' := State(After, s.stack[..|s.stack| - 1]);
        ok, closed := true, true;
      } else {
        Fail(i, s);
        ok := false;
      }
    }

    // The token of a value has been read, and it is not the end of an empty array.
    ghost predicate AtValue(i: nat, s: State)
      reads this, lexer, sax
    {
      Ahead(i, s) && AwaitsHere(s.mode) && (s.mode.ValueOrEnd? ==> lastToken != EndArray)
    }

    // A value is read, or the container that it is is opened up to the token of its first value.
    method StartValue(states: seq<bool>, ghost i: nat, ghost s: State)
      returns (ok: bool, complete: bool, states': seq<bool>, ghost s': State)
      requires AtValue(i, s) && SameStates(states, s.stack)
      modifies this, lexer, sax
      ensures !ok ==> Failed()
      ensures ok ==> SameStates(states', s'.stack) && lexer.charsRead >= old(lexer.charsRead)
      ensures ok && complete ==> Reached(s') && s'.mode.After?
      ensures ok && !complete ==> (exists i' :: AtValue(i', s')) && lexer.charsRead > old(lexer.charsRead)
    {
      hide Here, Lexed, Reported, Broken, Accepts, SaxStack, Reachable;
      states', s', complete := states, State(After, s.stack), true;
      match lastToken {
        case BeginObject =>
          Fitting(text, i, s);
          sax.StartObject(s);
          ghost var s1, i1 := State(KeyOrEnd, s.stack + [InObject]), lexer.charsRead;
          ReadAhead(s1);
          if lastToken == EndObject {
            Fitting(text, i1, s1);
            sax.EndObject(s1);
            ok := true;
          } else {
            ok := ParseKey(i1, s1);
            states', s', complete := states + [false], State(Value, s1.stack), false;
            if ok {
              ghost var i' :| Ahead(i', s');
              assert AtValue(i', s');
            }
          }
        case BeginArray =>
          Fitting(text, i, s);
          sax.StartArray(s);
          ghost var s1, i1 := State(ValueOrEnd, s.stack + [InArray]), lexer.charsRead;
          ReadAhead(s1);
          ok := true;
          if lastToken == EndArray {
            Fitting(text, i1, s1);
            sax.EndArray(s1);
          } else {
            states', s', complete := states + [true], s1, false;
            assert AtValue(i1, s');
          }
        case ScalarToken =>
          Fitting(text, i, s);
          sax.Scalar(s);
          ok := true;
        case StringToken =>
          Fitting(text, i, s);
          sax.Scalar(s);
          ok := true;
        case _ =>
          Fail(i, s);
          ok := false;
      }
    }

    method SaxParseInternal() returns (result: bool)
      requires AtValue(0, INIT)
      modifies this, lexer, sax
      ensures if result then Reached(FINAL) else Failed()
    {
      hide Here, Lexed, Reported, Broken, Accepts, SaxStack, Reachable;
      var states: seq<bool> := [];
      var skipToStateEvaluation := false;
      ghost var s, i: nat := INIT, 0;
      while true
        invariant SameStates(states, s.stack)
        invariant skipToStateEvaluation ==> Reached(s) && s.mode.After?
        invariant !skipToStateEvaluation ==> AtValue(i, s)
        invariant lexer.charsRead <= |text| + 1
        decreases |text| + 1 - lexer.charsRead
      {
        if !skipToStateEvaluation {
          var ok, complete, states', s' := StartValue(states, i, s);
          if !ok {
            return false;
          }
          states, s := states', s';
          if !complete {
            i :| AtValue(i, s);
            InText(text, i, s);
            continue;
          }
        }
        if states == [] {
          return true;
        }
        var ok, closed, s' := AfterValue(states, s);
        if !ok {
          return false;
        }
        s := s';
        skipToStateEvaluation := closed;
        if closed {
          states := states[..|states| - 1];
          InText(text, lexer.charsRead, s);
        } else {
          i :| Ahead(i, s);
          InText(text, i, s);
        }
      }
    }
  }

  method SaxParse(text: string, sax: JsonErrorLocator)
    requires !sax.foundError && sax.stack == []
    modifies sax
    ensures sax.foundError == !Accepts(text)
    ensures sax.foundError ==> sax.position == Reported(text)
    ensures Reachable(Broken(text)) && sax.stack == SaxStack(Broken(text))
  {
    hide Here, Lexed, Reported, Accepts;
    var parser := new Parser(text, sax);
    StartsHere(text);
    assert parser.AtValue(0, INIT);
    var result := parser.SaxParseInternal();
    if result {
      ghost var i := parser.lexer.charsRead;
      parser.ReadAhead(FINAL);
      if parser.lastToken != EndOfInput {
        parser.Fail(i, FINAL);
      } else {
        Fitting(text, i, FINAL);
      }
    }
  }

  lemma StartsHere(text: string)
    ensures Here(text, 0, INIT)
  {
  }
}
