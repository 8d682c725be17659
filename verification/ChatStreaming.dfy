// What a longer text can do to the message read from a shorter one. A text is safe when nothing
// that may follow takes back what was already read from it.
module ChatStreaming {
  import opened Outcomes
  import opened Characters
  import opened ChatText
  import opened ChatParser

  ghost predicate Extends(m: Message, n: Message) {
    m.reasoning <= n.reasoning && m.content <= n.content
  }

  // ---------- where the reasoning ends ----------

  // The parser looks for the end of the reasoning from position `from` on.
  predicate Enters(x: string, syn: Syntax) {
    !syn.reasoningFormat.NoReasoning? && (syn.thinkingForcedOpen || OccursAt(x, START_THINK, 0))
  }

  function From(syn: Syntax): nat {
    if syn.thinkingForcedOpen then 0 else |START_THINK|
  }

  datatype End =
    | Closed(at: nat)      // the end tag stands at this position
    | Closing(at: nat)     // the text ends with a beginning of the end tag at this position
    | Open                 // neither

  function EndOf(x: string, isPartial: bool, from: nat): (r: End)
    requires from <= |x|
    ensures r.Closed? ==> from <= r.at <= |x|
    ensures r.Closing? ==> from <= r.at <= |x|
  {
    var idx := Find(x, END_THINK, from);
    if idx.Some? then Closed(idx.value)
    else
      var cut := PartialStop(x, END_THINK);
      if isPartial && cut.Some? && from <= cut.value <= |x| then Closing(cut.value) else Open
  }

  function EndPos(x: string, isPartial: bool, from: nat): (r: nat)
    requires from <= |x|
    ensures from <= r <= |x|
  {
    match EndOf(x, isPartial, from)
    case Closed(at) => at
    case Closing(at) => at
    case Open => |x|
  }

  // A tag that starts inside x and ends outside it leaves a beginning of the tag at the end of x.
  lemma StraddlingTag(x: string, y: string, i: nat)
    requires x <= y && i < |x| && (OccursAt(y, END_THINK, i) || MayBegin(y, END_THINK, i))
    requires i + |END_THINK| > |x| || y == x
    requires y == x ==> MayBegin(y, END_THINK, i)
    ensures MayBegin(x, END_THINK, i)
  {
    assert x[i..] == y[i..][..|x| - i];
    if OccursAt(y, END_THINK, i) && y != x {
      assert x[i..] == y[i..i + |END_THINK|][..|x| - i];
    }
  }

  lemma OccursInLonger(x: string, y: string, i: nat)
    requires x <= y && i + |END_THINK| <= |x|
    ensures OccursAt(x, END_THINK, i) <==> OccursAt(y, END_THINK, i)
  {
    assert x[i..i + |END_THINK|] == y[i..i + |END_THINK|];
  }

  lemma StartCharacters(x: string)
    requires OccursAt(x, START_THINK, 0)
    ensures |x| >= 7 && x[1] == 't' && forall i :: 1 <= i < 7 ==> x[i] != '<'
  {
    var s := x[0..|START_THINK|];
    assert s[1] == 't' && s[2] == 'h' && s[3] == 'i' && s[4] == 'n' && s[5] == 'k' && s[6] == '>';
    assert x[1] == s[1] && x[2] == s[2] && x[3] == s[3] && x[4] == s[4] && x[5] == s[5] && x[6] == s[6];
  }

  lemma TagCharacters(x: string, i: nat)
    requires MayBegin(x, END_THINK, i)
    ensures x[i] == '<' && (i + 1 < |x| ==> x[i + 1] == '/')
  {
    var s := x[i..];
    assert s[0] == END_THINK[0] && x[i] == s[0];
    if i + 1 < |x| {
      assert s[1] == END_THINK[1] && x[i + 1] == s[1];
    }
  }

  // After "<think>" no beginning of "</think>" starts inside it.
  lemma NoTagInsideStart(x: string, syn: Syntax, i: nat)
    requires Enters(x, syn) && MayBegin(x, END_THINK, i)
    ensures From(syn) <= i
  {
    TagCharacters(x, i);
    if !syn.thinkingForcedOpen {
      StartCharacters(x);
    }
  }

  lemma EntersLonger(x: string, y: string, syn: Syntax)
    requires x <= y && Enters(x, syn)
    ensures Enters(y, syn) && From(syn) <= |x|
  {
    if !syn.thinkingForcedOpen {
      assert x[0..|START_THINK|] == y[0..|START_THINK|];
    }
  }

  lemma SameClosed(x: string, y: string, isPartial: bool, from: nat)
    requires x <= y && from <= |x| && EndOf(x, true, from).Closed?
    ensures EndOf(y, isPartial, from) == EndOf(x, true, from)
  {
    var at := EndOf(x, true, from).at;
    OccursInLonger(x, y, at);
    var r := Find(y, END_THINK, from);
    if r.value < at {
      OccursInLonger(x, y, r.value);
    }
  }

  // What y has as an end of the reasoning inside x is a beginning of the tag at the end of x.
  lemma EndInside(x: string, y: string, isPartial: bool, from: nat)
    requires x <= y && from <= |x| && !EndOf(x, true, from).Closed? && EndPos(y, isPartial, from) < |x|
    ensures MayBegin(x, END_THINK, EndPos(y, isPartial, from))
  {
    hide PartialStop, MayBegin;
    var e := EndPos(y, isPartial, from);
    PartialStopLongest(y, END_THINK);
    match EndOf(y, isPartial, from)
    case Closed(at) =>
      if e + |END_THINK| <= |x| {
        OccursInLonger(x, y, e);
      } else {
        StraddlingTag(x, y, e);
      }
    case Closing(at) =>
      BeginningIsShort(y, e);
      StraddlingTag(x, y, e);
  }

  lemma BeginningIsShort(y: string, i: nat)
    requires MayBegin(y, END_THINK, i)
    ensures |y| <= i + |END_THINK|
  {
  }

  // While the end tag has not arrived, a longer text moves the end of the reasoning only forward.
  lemma EndPosMonotone(x: string, y: string, isPartial: bool, syn: Syntax)
    requires x <= y && Enters(x, syn)
    ensures From(syn) <= |x| && EndPos(x, true, From(syn)) <= EndPos(y, isPartial, From(syn))
  {
    EntersLonger(x, y, syn);
    var from := From(syn);
    if EndOf(x, true, from).Closed? {
      SameClosed(x, y, isPartial, from);
    } else if EndPos(y, isPartial, from) < |x| {
      EndInside(x, y, isPartial, from);
      PartialStopLongest(x, END_THINK);
      NoTagInsideStart(x, syn, PartialStop(x, END_THINK).value);
    }
  }

  // ---------- the message as a function of where the reasoning ends ----------

  function Marked(syn: Syntax, stripped: string, closed: bool): string {
    if stripped == "" || !syn.reasoningInContent then ""
    else START_THINK + stripped + if closed then END_THINK else ""
  }

  function Answer(x: string, isPartial: bool, from: nat): string
    requires from <= |x|
  {
    match EndOf(x, isPartial, from)
    case Closed(at) => if at + |END_THINK| <= |x| then StripLeft(x[at + |END_THINK|..]) else ""
    case _ => ""
  }

  // What the parser makes of the reasoning it found.
  lemma HandledReasoning(syn: Syntax, text: string, closed: bool)
    ensures HandleReasoning(syn, START_THINK, END_THINK, NO_MESSAGE, text, closed)
         == Message(Marked(syn, Strip(text), closed), if syn.reasoningInContent then "" else Strip(text), [])
  {
    hide Strip;
    assert forall t: string :: "" + t == t;
  }

  lemma {:induction false} SkipSpacesIn(x: string, a: nat, i: nat)
    requires a + i <= |x|
    ensures SkipSpaces(x, a + i) == a + SkipSpaces(x[a..], i)
    decreases |x| - i
  {
    if a + i < |x| && IsSpace(x[a + i]) {
      SkipSpacesIn(x, a, i + 1);
    }
  }

  function Thought(x: string, isPartial: bool, from: nat): string
    requires from <= |x|
  {
    Strip(x[from..EndPos(x, isPartial, from)])
  }

  function Told(x: string, isPartial: bool, syn: Syntax): Message
    requires From(syn) <= |x|
  {
    var from := From(syn);
    var thought := Thought(x, isPartial, from);
    Message(Marked(syn, thought, !EndOf(x, isPartial, from).Open? || !isPartial) + Answer(x, isPartial, from),
            if syn.reasoningInContent then "" else thought, [])
  }

  lemma AnswerAfter(x: string, after: nat)
    requires after <= |x|
    ensures x[SkipSpaces(x, after)..] == StripLeft(x[after..])
  {
    SkipSpacesIn(x, after, 0);
    assert x[SkipSpaces(x, after)..] == x[after..][SkipSpaces(x[after..], 0)..];
  }

  lemma FoundLiteral(x: string, isPartial: bool, from: nat)
    requires from <= |x|
    ensures var r := FindLiteral(x, isPartial, END_THINK, from);
            match EndOf(x, isPartial, from)
            case Closed(at) => at + |END_THINK| <= |x| && r == Some((x[from..at], at + |END_THINK|))
            case Closing(at) => r == Some((x[from..at], |x|))
            case Open => r == None
  {
  }

  // The message once the end tag, or a beginning of it, was found.
  lemma ParsedAfter(x: string, isPartial: bool, syn: Syntax, prelude: string, after: nat)
    requires Enters(x, syn) && From(syn) <= |x| && after <= |x|
    requires FindLiteral(x, isPartial, END_THINK, From(syn)) == Some((prelude, after))
    ensures var m := HandleReasoning(syn, START_THINK, END_THINK, NO_MESSAGE, prelude, true);
            ParseDeepSeekR1(x, isPartial, syn) == m.(content := m.content + x[SkipSpaces(x, after)..])
  {
    hide HandleReasoning, OccursAt, FindLiteral, SkipSpaces;
  }

  lemma FoundMessage(x: string, isPartial: bool, syn: Syntax)
    requires Enters(x, syn) && From(syn) <= |x| && !EndOf(x, isPartial, From(syn)).Open?
    ensures ParseDeepSeekR1(x, isPartial, syn) == Told(x, isPartial, syn)
  {
    hide HandleReasoning, Marked, Strip, Find, PartialStop, OccursAt, EndOf, FindLiteral, StripLeft, ParseDeepSeekR1,
         Enters, SkipSpaces;
    var from := From(syn);
    FoundLiteral(x, isPartial, from);
    var prelude := x[from..EndPos(x, isPartial, from)];
    HandledReasoning(syn, prelude, true);
    match EndOf(x, isPartial, from)
    case Closed(at) =>
      ParsedAfter(x, isPartial, syn, prelude, at + |END_THINK|);
      AnswerAfter(x, at + |END_THINK|);
    case Closing(at) =>
      ParsedAfter(x, isPartial, syn, prelude, |x|);
      NothingToSkip(x);
  }

  lemma NothingToSkip(x: string)
    ensures x[SkipSpaces(x, |x|)..] == ""
  {
  }

  lemma OpenMessage(x: string, isPartial: bool, syn: Syntax)
    requires Enters(x, syn) && From(syn) <= |x| && EndOf(x, isPartial, From(syn)).Open?
    ensures ParseDeepSeekR1(x, isPartial, syn) == Told(x, isPartial, syn)
  {
    hide HandleReasoning, Marked, Strip, Find, PartialStop, OccursAt, EndOf, FindLiteral, StripLeft;
    var from := From(syn);
    FoundLiteral(x, isPartial, from);
    HandledReasoning(syn, x[from..], !isPartial);
    assert x[from..|x|] == x[from..] && x[|x|..] == "";
    EmptyThought(syn, isPartial);
  }

  lemma EnteredMessage(x: string, isPartial: bool, syn: Syntax)
    requires Enters(x, syn)
    ensures From(syn) <= |x| && ParseDeepSeekR1(x, isPartial, syn) == Told(x, isPartial, syn)
  {
    hide Told, ParseDeepSeekR1, EndOf;
    EntersLonger(x, x, syn);
    if EndOf(x, isPartial, From(syn)).Open? {
      OpenMessage(x, isPartial, syn);
    } else {
      FoundMessage(x, isPartial, syn);
    }
  }

  lemma EmptyThought(syn: Syntax, isPartial: bool)
    ensures Strip("") == "" && Marked(syn, "", !isPartial) == ""
  {
  }

  lemma PlainMessage(x: string, isPartial: bool, syn: Syntax)
    requires !Enters(x, syn)
    ensures ParseDeepSeekR1(x, isPartial, syn) == Message(x, "", [])
  {
    assert "" + x[0..] == x;
  }

  // ---------- when more text takes nothing back ----------

  // Text that takes nothing back: it is no beginning of the start tag that may become one, and,
  // when the reasoning is inlined in the content, it does not end in the middle of the end tag
  // after some reasoning (the closing mark has then been emitted already).
  predicate Safe(syn: Syntax, x: string) {
    syn.reasoningFormat.NoReasoning?
    || ( && (syn.thinkingForcedOpen || x == "" || !(x < START_THINK))
         && (Enters(x, syn) && syn.reasoningInContent && From(syn) <= |x| ==>
               !EndOf(x, true, From(syn)).Closing? || Thought(x, true, From(syn)) == ""))
  }

  lemma ThoughtMonotone(x: string, y: string, isPartial: bool, syn: Syntax)
    requires x <= y && Enters(x, syn) && From(syn) <= |x|
    ensures Thought(x, true, From(syn)) <= Thought(y, isPartial, From(syn))
  {
    hide Strip, EndPos;
    EndPosMonotone(x, y, isPartial, syn);
    var from := From(syn);
    var e, e' := EndPos(x, true, from), EndPos(y, isPartial, from);
    assert x[from..e] == y[from..e'][..e - from];
    StripMonotone(x[from..e], y[from..e']);
  }

  lemma AnswerMonotone(x: string, y: string, isPartial: bool, syn: Syntax)
    requires x <= y && Enters(x, syn) && From(syn) <= |x|
    ensures Answer(x, true, From(syn)) <= Answer(y, isPartial, From(syn))
  {
    hide StripLeft, EndOf;
    var from := From(syn);
    if EndOf(x, true, from).Closed? {
      SameClosed(x, y, isPartial, from);
      var a := EndOf(x, true, from).at + |END_THINK|;
      if a <= |x| {
        assert x[a..] == y[a..][..|x| - a];
        StripLeftMonotone(x[a..], y[a..]);
      }
    }
  }

  lemma EnteredExtends(x: string, y: string, isPartial: bool, syn: Syntax)
    requires Safe(syn, x) && x <= y && Enters(x, syn) && Enters(y, syn) && From(syn) <= |x|
    ensures Extends(Told(x, true, syn), Told(y, isPartial, syn))
  {
    assert !syn.reasoningFormat.NoReasoning?;
    hide Strip, EndOf, Enters, Thought, Answer;
    ThoughtMonotone(x, y, isPartial, syn);
    AnswerMonotone(x, y, isPartial, syn);
    var from := From(syn);
    var t, t' := Thought(x, true, from), Thought(y, isPartial, from);
    var a, a' := Answer(x, true, from), Answer(y, isPartial, from);
    if EndOf(x, true, from).Closed? {
      SameClosed(x, y, isPartial, from);
      SameThought(x, y, isPartial, from);
      PrefixAfter(Marked(syn, t, true), a, a');
    } else {
      NoAnswer(x, from);
      if syn.reasoningInContent && t != "" {
        var closed := !EndOf(y, isPartial, from).Open? || !isPartial;
        assert EndOf(x, true, from).Open?;
        MarkedExtends(syn, t, t', closed, a');
      }
    }
  }

  lemma SameThought(x: string, y: string, isPartial: bool, from: nat)
    requires x <= y && from <= |x| && EndOf(x, true, from).Closed?
    requires EndOf(y, isPartial, from) == EndOf(x, true, from)
    ensures Thought(x, true, from) == Thought(y, isPartial, from)
  {
    hide EndOf, Strip;
    var e := EndPos(x, true, from);
    assert x[from..e] == y[from..e];
  }

  lemma NoAnswer(x: string, from: nat)
    requires from <= |x| && !EndOf(x, true, from).Closed?
    ensures Answer(x, true, from) == ""
  {
  }

  lemma PrefixAfter(m: string, a: string, b: string)
    requires a <= b
    ensures m + a <= m + b
  {
  }

  lemma MarkedExtends(syn: Syntax, t: string, t': string, closed: bool, more: string)
    requires syn.reasoningInContent && t != "" && t <= t'
    ensures Marked(syn, t, false) + "" <= Marked(syn, t', closed) + more
  {
    var rest := (if closed then END_THINK else "") + more;
    assert Marked(syn, t, false) + "" == START_THINK + t;
    assert Marked(syn, t', closed) + more == START_THINK + t' + rest;
    assert START_THINK + t <= START_THINK + t' + rest;
  }

  // Nothing is taken back from a safe text, whatever follows, in this chunk or in the final text.
  lemma SafeNeverRetracts(x: string, y: string, isPartial: bool, syn: Syntax)
    requires Safe(syn, x) && x <= y
    ensures Extends(ParseDeepSeekR1(x, true, syn), ParseDeepSeekR1(y, isPartial, syn))
  {
    hide ParseDeepSeekR1, Told;
    if Enters(x, syn) {
      EntersLonger(x, y, syn);
      EnteredMessage(x, true, syn);
      EnteredMessage(y, isPartial, syn);
      EnteredExtends(x, y, isPartial, syn);
    } else {
      PlainMessage(x, true, syn);
      if Enters(y, syn) {
        LateStart(x, y, syn);
      } else {
        PlainMessage(y, isPartial, syn);
      }
    }
  }

  // If only the longer text starts with the start tag, the shorter one is a beginning of it.
  lemma LateStart(x: string, y: string, syn: Syntax)
    requires x <= y && !Enters(x, syn) && Enters(y, syn)
    ensures !syn.thinkingForcedOpen && x < START_THINK
  {
    StartInLonger(x, y);
    if |x| < |START_THINK| {
      assert x == y[0..|START_THINK|][..|x|];
    }
  }

  lemma StartInLonger(x: string, y: string)
    requires x <= y
    ensures |x| >= |START_THINK| ==> (OccursAt(x, START_THINK, 0) <==> OccursAt(y, START_THINK, 0))
  {
    if |x| >= |START_THINK| {
      assert x[0..|START_THINK|] == y[0..|START_THINK|];
    }
  }

  // ---------- and when it does not ----------

  // A beginning of "<think>" is content until the rest of the tag arrives.
  lemma CutStartRetracts(x: string, syn: Syntax)
    requires !syn.reasoningFormat.NoReasoning? && !syn.thinkingForcedOpen && x != "" && x < START_THINK
    ensures x <= START_THINK
    ensures !Extends(ParseDeepSeekR1(x, true, syn), ParseDeepSeekR1(START_THINK, false, syn))
  {
    hide ParseDeepSeekR1;
    assert !Enters(x, syn);
    PlainMessage(x, true, syn);
    var y := START_THINK;
    assert y[0..|START_THINK|] == START_THINK;
    assert Enters(y, syn);
    EnteredMessage(y, false, syn);
    NoTagAtEnd(y);
    assert EndOf(y, false, |y|) == Open;
    assert y[|y|..|y|] == "";
    EmptyThought(syn, false);
  }

  lemma NoTagAtEnd(y: string)
    ensures Find(y, END_THINK, |y|) == None
  {
  }

  // A character that is no part of the tag, after a beginning of the tag, ends the tag.
  lemma BrokenTag(x: string, syn: Syntax, k: nat)
    requires Enters(x, syn) && From(syn) <= |x| && EndOf(x, true, From(syn)) == Closing(k)
    ensures EndOf(x + "!", true, From(syn)) == Open
  {
    var y, from := x + "!", From(syn);
    PartialStopLongest(y, END_THINK);
    assert y[|x|] == '!';
    forall i: nat | from <= i ensures !OccursAt(y, END_THINK, i) {
      LastOfTag(y, i);
      if i + |END_THINK| <= |x| {
        OccursInLonger(x, y, i);
      }
    }
    forall i: nat | i < |y| ensures !MayBegin(y, END_THINK, i) {
      NoExclamation(y, i);
    }
  }

  lemma LastOfTag(y: string, i: nat)
    ensures OccursAt(y, END_THINK, i) ==> y[i + 7] == '>'
  {
    if OccursAt(y, END_THINK, i) {
      assert y[i..i + |END_THINK|][7] == END_THINK[7];
    }
  }

  lemma NoExclamation(y: string, i: nat)
    requires i < |y| && y[|y| - 1] == '!'
    ensures !MayBegin(y, END_THINK, i)
  {
    var s := y[i..];
    assert s[|s| - 1] == '!';
    assert END_THINK[0] == '<' && END_THINK[1] == '/' && END_THINK[2] == 't' && END_THINK[3] == 'h'
        && END_THINK[4] == 'i' && END_THINK[5] == 'n' && END_THINK[6] == 'k' && END_THINK[7] == '>';
  }

  // Inlined reasoning: the end tag emitted for a beginning of the tag is wrong when the tag breaks off.
  lemma BrokenTagRetracts(x: string, syn: Syntax, k: nat)
    requires Enters(x, syn) && syn.reasoningInContent && From(syn) <= |x|
    requires EndOf(x, true, From(syn)) == Closing(k) && Thought(x, true, From(syn)) != ""
    ensures !Extends(ParseDeepSeekR1(x, true, syn), ParseDeepSeekR1(x + "!", true, syn))
  {
    hide ParseDeepSeekR1, Thought, EndOf, Enters;
    var y, from := x + "!", From(syn);
    EntersLonger(x, y, syn);
    EnteredMessage(x, true, syn);
    EnteredMessage(y, true, syn);
    BrokenTag(x, syn, k);
    NoAnswer(x, from);
    NoAnswer(y, from);
    var t, t' := Thought(x, true, from), Thought(y, true, from);
    ThoughtMonotone(x, y, true, syn);
    NotTheTag(x, syn, k, t, t');
    assert Told(x, true, syn).content == START_THINK + t + END_THINK + "";
    assert Told(y, true, syn).content == START_THINK + t' + "" + "";
    PrefixCancel(START_THINK, t + END_THINK, t');
    assert START_THINK + (t + END_THINK) == START_THINK + t + END_THINK + "";
    assert START_THINK + t' == START_THINK + t' + "" + "";
  }

  lemma PrefixCancel(m: string, a: string, b: string)
    ensures m + a <= m + b ==> a <= b
  {
    if m + a <= m + b {
      assert a == (m + a)[|m|..] && b == (m + b)[|m|..];
      assert b[..|a|] == (m + b)[..|m + a|][|m|..];
    }
  }

  // More text after some that is not all spaces.
  lemma StripSplit(u: string, v: string) returns (j: nat)
    requires Strip(u) != "" && v != "" && !IsSpace(v[|v| - 1])
    ensures j <= |u| && forall k :: j <= k < |u| ==> IsSpace(u[k])
    ensures Strip(u + v) == Strip(u) + (u[j..] + v)
  {
    var i := SkipSpaces(u, 0);
    j := DropSpaces(u, i, |u|);
    var w := u + v;
    assert w[i] == u[i];
    assert w[|w| - 1] == v[|v| - 1];
    StripMeaning(w, i, |w|);
    assert w[i..|w|] == u[i..j] + (u[j..] + v);
  }

  lemma NotTheTag(x: string, syn: Syntax, k: nat, t: string, t': string)
    requires Enters(x, syn) && From(syn) <= |x| && EndOf(x, true, From(syn)) == Closing(k)
    requires t == Thought(x, true, From(syn)) != "" && t' == Thought(x + "!", true, From(syn))
    requires EndOf(x + "!", true, From(syn)) == Open
    ensures !(t + END_THINK <= t')
  {
    hide Strip, Find, PartialStop;
    var from, y := From(syn), x + "!";
    var u, v := x[from..k], x[k..] + "!";
    assert y[from..|y|] == u + v;
    var j := StripSplit(u, v);
    PrefixCancel(t, END_THINK, u[j..] + v);
    CutTag(x, from, k);
    TagIsNot(u[j..], x[k..]);
  }

  lemma CutTag(x: string, from: nat, k: nat)
    requires from <= |x| && EndOf(x, true, from) == Closing(k)
    ensures MayBegin(x, END_THINK, k) && |x[k..]| < |END_THINK|
  {
    PartialStopLongest(x, END_THINK);
    assert !OccursAt(x, END_THINK, k);
    assert x[k..] == x[k..k + |x[k..]|];
  }

  lemma TagIsNot(spaces: string, w: string)
    requires (forall k :: 0 <= k < |spaces| ==> IsSpace(spaces[k])) && |w| < |END_THINK|
    ensures !(END_THINK <= spaces + (w + "!"))
  {
    var s := spaces + (w + "!");
    assert END_THINK[0] == '<' && END_THINK[7] == '>';
    if spaces == "" {
      assert s == w + "!";
      assert |w| == 7 ==> s[7] == '!';
    } else {
      assert s[0] == spaces[0];
    }
  }

  // Exactly the safe texts are never taken back.
  lemma SafeExact(x: string, syn: Syntax)
    ensures (forall y, isPartial: bool :: x <= y ==>
               Extends(ParseDeepSeekR1(x, true, syn), ParseDeepSeekR1(y, isPartial, syn)))
       <==> Safe(syn, x)
  {
    hide ParseDeepSeekR1, Extends;
    if Safe(syn, x) {
      forall y, isPartial: bool | x <= y
        ensures Extends(ParseDeepSeekR1(x, true, syn), ParseDeepSeekR1(y, isPartial, syn))
      {
        SafeNeverRetracts(x, y, isPartial, syn);
      }
    } else if !syn.thinkingForcedOpen && x != "" && x < START_THINK {
      CutStartRetracts(x, syn);
    } else {
      BrokenTagRetracts(x, syn, EndOf(x, true, From(syn)).at);
      assert x <= x + "!";
    }
  }
}
