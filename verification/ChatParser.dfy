// The cursor that parses a generated chat message, and the message it reads from a text when the
// format is DeepSeek R1 (tool parsing off) or plain content.
module ChatParser {
  import opened Outcomes
  import opened Characters
  import opened ChatText

  datatype ReasoningFormat = NoReasoning | DeepSeekLegacy | DeepSeek

  datatype Format = ContentOnly | DeepSeekR1

  datatype Syntax = Syntax(format: Format, reasoningFormat: ReasoningFormat, reasoningInContent: bool,
                           thinkingForcedOpen: bool)

  datatype ToolCall = ToolCall(name: string, arguments: string, id: string)

  datatype Message = Message(content: string, reasoning: string, toolCalls: seq<ToolCall>) {
    predicate Empty() {
      content == "" && reasoning == "" && toolCalls == []
    }
  }

  const NO_MESSAGE := Message("", "", [])

  // ---------- what each operation of the cursor does, on values ----------

  datatype Cursor = Cursor(pos: nat, result: Message)

  function HandleReasoning(syn: Syntax, startThink: string, endThink: string, m: Message, reasoning: string,
                           closed: bool): Message {
    var stripped := Strip(reasoning);
    if stripped == "" then m
    else if syn.reasoningInContent then
      var opening := if syn.reasoningFormat.DeepSeek? then "<think>" else startThink;
      var closing := if syn.reasoningFormat.DeepSeek? then "</think>" else endThink;
      m.(content := m.content + opening + stripped + if closed then closing else "")
    else m.(reasoning := m.reasoning + stripped)
  }

  // The text before a literal, and the position after it. In a partial text the literal may be cut
  // off by the end of the text.
  function FindLiteral(input: string, isPartial: bool, lit: string, pos: nat): (r: Option<(string, nat)>)
    requires pos <= |input|
    ensures r.Some? ==> pos <= r.value.1 <= |input|
  {
    var idx := Find(input, lit, pos);
    if idx.Some? then Some((input[pos..idx.value], idx.value + |lit|))
    else
      var cut := PartialStop(input, lit);
      if isPartial && cut.Some? && pos <= cut.value <= |input| then Some((input[pos..cut.value], |input|))
      else None
  }

  function ParseReasoning(input: string, isPartial: bool, syn: Syntax, startThink: string, endThink: string,
                          c: Cursor): (r: (bool, Cursor))
    requires c.pos <= |input|
    ensures c.pos <= r.1.pos <= |input|
  {
    if syn.reasoningFormat.NoReasoning? then (false, c)
    else
      var entered := syn.thinkingForcedOpen || OccursAt(input, startThink, c.pos);
      if !entered then (false, c) else
        var from := if syn.thinkingForcedOpen then c.pos else c.pos + |startThink|;
        match FindLiteral(input, isPartial, endThink, from)
        case Some((prelude, after)) =>
          (true, Cursor(SkipSpaces(input, after), HandleReasoning(syn, startThink, endThink, c.result, prelude, true)))
        case None =>
          var rest := input[from..];
          (true, Cursor(|input|, if rest == "" then c.result
                                 else HandleReasoning(syn, startThink, endThink, c.result, rest, !isPartial)))
  }

  const START_THINK := "<think>"
  const END_THINK := "</think>"

  function ParseDeepSeekR1(input: string, isPartial: bool, syn: Syntax): Message {
    var c := ParseReasoning(input, isPartial, syn, START_THINK, END_THINK, Cursor(0, NO_MESSAGE)).1;
    c.result.(content := c.result.content + input[c.pos..])
  }

  function Parse(input: string, isPartial: bool, syn: Syntax): Message {
    match syn.format
    case ContentOnly => NO_MESSAGE.(content := input)
    case DeepSeekR1 => ParseDeepSeekR1(input, isPartial, syn)
  }

  lemma NotHere(input: string, lit: string, p: nat, i: nat)
    requires i < |lit| && p + i < |input| && input[p + i] != lit[i]
    ensures !OccursAt(input, lit, p)
  {
    if p + |lit| <= |input| {
      assert input[p..p + |lit|][i] == input[p + i];
    }
  }

  // ---------- the cursor ----------

  class ChatMsgParser {
    const input: string
    const isPartial: bool
    const syntax: Syntax
    var pos: nat
    var result: Message

    constructor (input: string, isPartial: bool, syntax: Syntax)
      ensures this.input == input && this.isPartial == isPartial && this.syntax == syntax
      ensures Valid() && At() == Cursor(0, NO_MESSAGE)
    {
      this.input, this.isPartial, this.syntax := input, isPartial, syntax;
      pos, result := 0, NO_MESSAGE;
    }

    ghost predicate Valid()
      reads this
    {
      pos <= |input|
    }

    ghost function At(): Cursor
      reads this
    {
      Cursor(pos, result)
    }

    // The position changes only when it stays inside the text.
    method MoveTo(p: nat) returns (ok: bool)
      requires Valid()
      modifies this`pos
      ensures Valid() && ok == (p <= |input|) && pos == if ok then p else old(pos)
    {
      ok := p <= |input|;
      if ok {
        pos := p;
      }
    }

    method MoveBack(n: nat) returns (ok: bool)
      requires Valid()
      modifies this`pos
      ensures Valid() && ok == (n <= old(pos)) && pos == if ok then old(pos) - n else old(pos)
    {
      ok := n <= pos;
      if ok {
        pos := pos - n;
      }
    }

    method AddContent(content: string)
      requires Valid()
      modifies this`result
      ensures Valid() && result == old(result).(content := old(result).content + content)
    {
      result := result.(content := result.content + content);
    }

    method AddReasoningContent(reasoning: string)
      requires Valid()
      modifies this`result
      ensures Valid() && result == old(result).(reasoning := old(result).reasoning + reasoning)
    {
      result := result.(reasoning := result.reasoning + reasoning);
    }

    method ConsumeSpaces() returns (consumed: bool)
      requires Valid()
      modifies this`pos
      ensures Valid() && pos == SkipSpaces(input, old(pos)) && consumed == (pos > old(pos))
    {
      consumed := false;
      while pos < |input| && IsSpace(input[pos])
        invariant old(pos) <= pos <= |input| && SkipSpaces(input, old(pos)) == SkipSpaces(input, pos)
        invariant consumed == (pos > old(pos))
      {
        pos := pos + 1;
        consumed := true;
      }
    }

    // A literal is consumed whole or not at all.
    method TryConsumeLiteral(lit: string) returns (ok: bool)
      requires Valid()
      modifies this`pos
      ensures Valid() && ok == OccursAt(input, lit, old(pos))
      ensures pos == if ok then old(pos) + |lit| else old(pos)
    {
      var p := pos;
      for i := 0 to |lit|
        invariant p == pos + i <= |input| && pos == old(pos)
        invariant input[pos..pos + i] == lit[..i]
      {
        if p >= |input| {
          return false;
        }
        if input[p] != lit[i] {
          NotHere(input, lit, pos, i);
          return false;
        }
        p := p + 1;
      }
      pos := p;
      ok := true;
    }

    method TryFindLiteral(lit: string) returns (prelude: Option<string>)
      requires Valid()
      modifies this`pos
      ensures Valid()
      ensures var r := FindLiteral(input, isPartial, lit, old(pos));
              && (prelude.Some? <==> r.Some?)
              && (r.Some? ==> prelude.value == r.value.0 && pos == r.value.1)
              && (r.None? ==> pos == old(pos))
    {
      var idx := Find(input, lit, pos);
      if idx.Some? {
        prelude := Some(input[pos..idx.value]);
        var moved := MoveTo(idx.value + |lit|);
        return;
      }
      if isPartial {
        var cut := StringFindPartialStop(input, lit);
        if cut.Some? && cut.value >= pos {
          PartialStopLongest(input, lit);
          prelude := Some(input[pos..cut.value]);
          var moved := MoveTo(|input|);
          return;
        }
      }
      prelude := None;
    }

    method ConsumeRest() returns (rest: string)
      requires Valid()
      modifies this`pos
      ensures Valid() && rest == input[old(pos)..] && pos == |input|
    {
      rest := input[pos..];
      pos := |input|;
    }

    method HandleReasoningText(reasoning: string, closed: bool, startThink: string, endThink: string)
      requires Valid()
      modifies this`result
      ensures Valid() && result == HandleReasoning(syntax, startThink, endThink, old(result), reasoning, closed)
    {
      var stripped := StringStrip(reasoning);
      if stripped == "" {
        return;
      }
      if syntax.reasoningInContent {
        AddContent(if syntax.reasoningFormat.DeepSeek? then "<think>" else startThink);
        AddContent(stripped);
        if closed {
          AddContent(if syntax.reasoningFormat.DeepSeek? then "</think>" else endThink);
        }
      } else {
        AddReasoningContent(stripped);
      }
    }

    method TryParseReasoning(startThink: string, endThink: string) returns (parsed: bool)
      requires Valid()
      modifies this
      ensures Valid() && (parsed, At()) == ParseReasoning(input, isPartial, syntax, startThink, endThink, old(At()))
    {
      hide FindLiteral, HandleReasoning, OccursAt, SkipSpaces;
      if !syntax.reasoningFormat.NoReasoning? {
        var entered := syntax.thinkingForcedOpen;
        if !entered {
          entered := TryConsumeLiteral(startThink);
        }
        if entered {
          var prelude := TryFindLiteral(endThink);
          if prelude.Some? {
            HandleReasoningText(prelude.value, true, startThink, endThink);
            var consumed := ConsumeSpaces();
            return true;
          }
          var rest := ConsumeRest();
          if rest != "" {
            HandleReasoningText(rest, !isPartial, startThink, endThink);
          }
          return true;
        }
      }
      parsed := false;
    }

    // finish raises if the text of a final message was not read to its end.
    method Finish() returns (ok: bool)
      requires Valid()
      ensures ok == (isPartial || pos == |input|)
    {
      ok := isPartial || pos == |input|;
    }

    method RunDeepSeekR1()
      requires Valid() && At() == Cursor(0, NO_MESSAGE)
      modifies this
      ensures Valid() && pos == |input| && result == ParseDeepSeekR1(input, isPartial, syntax)
    {
      var parsed := TryParseReasoning(START_THINK, END_THINK);
      var rest := ConsumeRest();
      AddContent(rest);
    }

    method RunContentOnly()
      requires Valid() && At() == Cursor(0, NO_MESSAGE)
      modifies this
      ensures Valid() && pos == |input| && result == NO_MESSAGE.(content := input)
    {
      var rest := ConsumeRest();
      AddContent(rest);
    }
  }

  // common_chat_parse: it never raises on these formats.
  method CommonChatParse(input: string, isPartial: bool, syntax: Syntax) returns (r: Result<Message>)
    ensures r == Ok(Parse(input, isPartial, syntax))
  {
    var builder := new ChatMsgParser(input, isPartial, syntax);
    match syntax.format {
      case ContentOnly => builder.RunContentOnly();
      case DeepSeekR1 => builder.RunDeepSeekR1();
    }
    var ok := builder.Finish();
    r := if ok then Ok(builder.result) else Raised;
  }
}
