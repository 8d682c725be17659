// The server slot that reparses the generated text after every chunk and sends only differences.
module ChatSlot {
  import opened Outcomes
  import opened ChatText
  import opened ChatParser
  import opened ChatStreaming
  import opened ChatDiffs

  // ---------- ids of tool calls ----------

  // The cached ids after a version of the message with these calls; a call without an id gets the
  // next generated one.
  function CacheIds(calls: seq<ToolCall>, cache: seq<string>, gen: nat -> string): (r: seq<string>)
    ensures |r| == if |calls| > |cache| then |calls| else |cache|
    ensures cache <= r
    decreases |calls| - |cache|
  {
    if |calls| <= |cache| then cache else
      var call := calls[|cache|];
      CacheIds(calls, cache + [if call.id == "" then gen(|cache|) else call.id], gen)
  }

  function WithIds(calls: seq<ToolCall>, ids: seq<string>): (r: seq<ToolCall>)
    requires |calls| <= |ids|
    ensures |r| == |calls|
    ensures forall i :: 0 <= i < |calls| ==> r[i] == calls[i].(id := ids[i])
  {
    seq(|calls|, i requires 0 <= i < |calls| => calls[i].(id := ids[i]))
  }

  method EnsureToolCallIds(calls: seq<ToolCall>, cache: seq<string>, gen: nat -> string)
    returns (calls': seq<ToolCall>, cache': seq<string>)
    ensures cache' == CacheIds(calls, cache, gen) && calls' == WithIds(calls, cache')
  {
    calls', cache' := calls, cache;
    for i := 0 to |calls|
      invariant |calls'| == |calls| && i <= |cache'| && CacheIds(calls, cache', gen) == CacheIds(calls, cache, gen)
      invariant |cache'| > i ==> cache' == cache
      invariant forall k :: 0 <= k < i ==> calls'[k] == calls[k].(id := cache'[k])
      invariant forall k :: i <= k < |calls| ==> calls'[k] == calls[k]
    {
      if |cache'| <= i {
        var id := calls'[i].id;
        if id == "" {
          id := gen(i);
        }
        cache' := cache' + [id];
      }
      calls' := calls'[i := calls'[i].(id := cache'[i])];
    }
  }

  // Once sent, an id stays: whatever calls the next version of the message has, in whatever state.
  lemma IdsAreStable(calls: seq<ToolCall>, calls': seq<ToolCall>, cache: seq<string>, gen: nat -> string, i: nat)
    requires i < |calls| && i < |calls'|
    ensures var ids := CacheIds(calls, cache, gen);
            var ids' := CacheIds(calls', ids, gen);
            WithIds(calls', ids')[i].id == WithIds(calls, ids)[i].id
  {
    var ids := CacheIds(calls, cache, gen);
    assert CacheIds(calls', ids, gen)[..|ids|] == ids;
  }

  // ---------- one update ----------

  datatype State = State(chatMsg: Message, ids: seq<string>)

  function Identified(m: Message, ids: seq<string>): Message
    requires |m.toolCalls| <= |ids|
  {
    m.(toolCalls := WithIds(m.toolCalls, ids))
  }

  // The state after a parsed version of the message, and the differences sent.
  function Apply(st: State, parsed: Message, gen: nat -> string): (State, Result<seq<Diff>>) {
    if parsed.Empty() then (st, Ok([])) else
      var ids := CacheIds(parsed.toolCalls, st.ids, gen);
      var msg := Identified(parsed, ids);
      (State(msg, ids), ComputeDiffs(st.chatMsg, msg))
  }

  function Update(st: State, text: string, isPartial: bool, syn: Syntax, gen: nat -> string): (State, Result<seq<Diff>>) {
    Apply(st, Parse(text, isPartial, syn), gen)
  }

  class Slot {
    var generatedText: string
    var chatMsg: Message
    var toolCallIds: seq<string>
    const syntax: Syntax

    constructor (syntax: Syntax)
      ensures generatedText == "" && Now() == State(NO_MESSAGE, []) && this.syntax == syntax
    {
      generatedText, chatMsg, toolCallIds, this.syntax := "", NO_MESSAGE, [], syntax;
    }

    ghost function Now(): State
      reads this
    {
      State(chatMsg, toolCallIds)
    }

    method UpdateChatMsg(stoppedAtEos: bool, gen: nat -> string) returns (diffs: Result<seq<Diff>>)
      modifies this`chatMsg, this`toolCallIds
      ensures (Now(), diffs) == Update(old(Now()), generatedText, !stoppedAtEos, syntax, gen)
    {
      var previous := chatMsg;
      var parsed := CommonChatParse(generatedText, !stoppedAtEos, syntax);
      diffs := Ok([]);
      if !parsed.value.Empty() {
        var calls, ids := EnsureToolCallIds(parsed.value.toolCalls, toolCallIds, gen);
        toolCallIds := ids;
        chatMsg := parsed.value.(toolCalls := calls);
        diffs := ComputeMessageDiffs(previous, chatMsg);
      }
    }
  }

  // ---------- a run of versions ----------

  // The states and differences of a run of parsed versions.
  function ApplyAll(st: State, ms: seq<Message>, gen: nat -> string): (State, Result<seq<Diff>>)
    decreases |ms|
  {
    if ms == [] then (st, Ok([])) else
      var (st1, d1) := Apply(st, ms[0], gen);
      var (st2, d2) := ApplyAll(st1, ms[1..], gen);
      (st2, if d1.Raised? || d2.Raised? then Raised else Ok(d1.value + d2.value))
  }

  // What may happen to a parsed message, whatever ids the parser gives its calls.
  ghost predicate GrowsButIds(p: Message, n: Message) {
    && Extends(p, n)
    && |p.toolCalls| <= |n.toolCalls|
    && (forall i :: 0 <= i < |p.toolCalls| ==> n.toolCalls[i].name == p.toolCalls[i].name)
    && (forall i :: 0 <= i < |p.toolCalls| - 1 ==> n.toolCalls[i].arguments == p.toolCalls[i].arguments)
    && (p.toolCalls != [] ==> p.toolCalls[|p.toolCalls| - 1].arguments <= n.toolCalls[|p.toolCalls| - 1].arguments)
  }

  // Cached ids make such a growing message one whose differences rebuild it, and only such.
  lemma IdentifiedGrows(p: Message, n: Message, ids: seq<string>, gen: nat -> string)
    requires |p.toolCalls| <= |ids| && |p.toolCalls| <= |n.toolCalls|
    ensures Grows(Identified(p, ids), Identified(n, CacheIds(n.toolCalls, ids, gen))) <==> GrowsButIds(p, n)
  {
    hide CacheIds;
    var p', n' := Identified(p, ids), Identified(n, CacheIds(n.toolCalls, ids, gen));
    var ids' := CacheIds(n.toolCalls, ids, gen);
    assert forall i :: 0 <= i < |ids| ==> ids'[i] == ids[i];
    GrowsByParts(p, n, p', n');
  }

  // Two messages as they were parsed, and with the same ids for their common calls.
  lemma GrowsByParts(p: Message, n: Message, p': Message, n': Message)
    requires |p.toolCalls| == |p'.toolCalls| <= |n.toolCalls| == |n'.toolCalls|
    requires p' == p.(toolCalls := p'.toolCalls) && n' == n.(toolCalls := n'.toolCalls)
    requires forall i :: 0 <= i < |p.toolCalls| ==> p'.toolCalls[i] == p.toolCalls[i].(id := p'.toolCalls[i].id)
    requires forall i :: 0 <= i < |p.toolCalls| ==> n'.toolCalls[i] == n.toolCalls[i].(id := p'.toolCalls[i].id)
    ensures Grows(p', n') <==> GrowsButIds(p, n)
  {
    if GrowsButIds(p, n) {
      forall i | 0 <= i < |p.toolCalls| - 1 ensures n'.toolCalls[i] == p'.toolCalls[i] {
      }
    }
    if Grows(p', n') {
      forall i | 0 <= i < |p.toolCalls|
        ensures n.toolCalls[i].name == p.toolCalls[i].name
        ensures i < |p.toolCalls| - 1 ==> n.toolCalls[i].arguments == p.toolCalls[i].arguments
      {
        assert n'.toolCalls[i].name == p'.toolCalls[i].name;
      }
    }
  }

  // The state after version m, each call with its cached id.
  predicate Holds(st: State, m: Message) {
    |st.ids| == |m.toolCalls| && st.chatMsg == Identified(m, st.ids)
  }

  // One update from a version to one that grows from it.
  lemma UpdateGrows(st: State, m: Message, n: Message, gen: nat -> string)
    requires Holds(st, m) && GrowsButIds(m, n)
    ensures var (st', d) := Apply(st, n, gen);
            Holds(st', n) && st.ids <= st'.ids && d.Ok? && MergeAll(st.chatMsg, d.value) == st'.chatMsg
  {
    hide ComputeDiffs, CacheIds, Grows;
    if n.Empty() {
      assert m == n;
    } else {
      IdentifiedGrows(m, n, st.ids, gen);
      DiffsRebuildExact(st.chatMsg, Identified(n, CacheIds(n.toolCalls, st.ids, gen)));
    }
  }

  ghost predicate GrowingButIds(ms: seq<Message>) {
    forall i :: 0 <= i < |ms| - 1 ==> GrowsButIds(ms[i], ms[i + 1])
  }

  // A run of growing versions, calls included: no update raises, ids stay as they were sent, and the
  // differences rebuild the last version with its cached ids.
  lemma {:induction false} RunConserves(st: State, m: Message, ms: seq<Message>, gen: nat -> string)
    requires Holds(st, m) && GrowingButIds([m] + ms)
    ensures var (st', ds) := ApplyAll(st, ms, gen);
            && Holds(st', ([m] + ms)[|ms|]) && st.ids <= st'.ids
            && ds.Ok? && MergeAll(st.chatMsg, ds.value) == st'.chatMsg
    decreases |ms|
  {
    hide Apply, GrowsButIds, Holds;
    if ms != [] {
      assert ([m] + ms)[0] == m && ([m] + ms)[1] == ms[0];
      UpdateGrows(st, m, ms[0], gen);
      var (st1, d1) := Apply(st, ms[0], gen);
      var rest := ms[1..];
      assert [ms[0]] + rest == ms;
      forall i | 0 <= i < |ms| - 1 ensures GrowsButIds(ms[i], ms[i + 1]) {
        assert ([m] + ms)[i + 1] == ms[i] && ([m] + ms)[i + 2] == ms[i + 1];
      }
      RunConserves(st1, ms[0], rest, gen);
      MergeConcat(st.chatMsg, d1.value, ApplyAll(st1, rest, gen).1.value);
    }
  }

  // ---------- a whole stream ----------

  // The versions parsed from growing texts; the last one may be final.
  function Versions(texts: seq<string>, lastIsPartial: bool, syn: Syntax): (ms: seq<Message>)
    ensures |ms| == |texts|
  {
    seq(|texts|, i requires 0 <= i < |texts| => Parse(texts[i], lastIsPartial || i + 1 < |texts|, syn))
  }

  function Stream(texts: seq<string>, lastIsPartial: bool, syn: Syntax, gen: nat -> string): (State, Result<seq<Diff>>) {
    ApplyAll(State(NO_MESSAGE, []), Versions(texts, lastIsPartial, syn), gen)
  }

  ghost predicate Growing(texts: seq<string>) {
    forall i :: 0 <= i < |texts| - 1 ==> texts[i] <= texts[i + 1]
  }

  predicate SafeText(syn: Syntax, x: string) {
    syn.format.ContentOnly? || Safe(syn, x)
  }

  function Reasonings(ds: seq<Diff>): string {
    if ds == [] then "" else ds[0].reasoning + Reasonings(ds[1..])
  }

  function Contents(ds: seq<Diff>): string {
    if ds == [] then "" else ds[0].content + Contents(ds[1..])
  }

  lemma {:induction false} MergedTexts(m: Message, ds: seq<Diff>)
    ensures MergeAll(m, ds).reasoning == m.reasoning + Reasonings(ds)
    ensures MergeAll(m, ds).content == m.content + Contents(ds)
    decreases |ds|
  {
    if ds == [] {
      assert m.reasoning + "" == m.reasoning && m.content + "" == m.content;
    } else {
      MergedTexts(Merge(m, ds[0]), ds[1..]);
      assert m.reasoning + ds[0].reasoning + Reasonings(ds[1..]) == m.reasoning + Reasonings(ds);
      assert m.content + ds[0].content + Contents(ds[1..]) == m.content + Contents(ds);
    }
  }

  lemma NoCalls(x: string, isPartial: bool, syn: Syntax)
    ensures Parse(x, isPartial, syn).toolCalls == []
  {
    hide ParseDeepSeekR1, Told;
    if syn.format.DeepSeekR1? {
      if Enters(x, syn) {
        EnteredMessage(x, isPartial, syn);
        CallsOfTold(x, isPartial, syn);
      } else {
        PlainMessage(x, isPartial, syn);
      }
    }
  }

  lemma CallsOfTold(x: string, isPartial: bool, syn: Syntax)
    requires From(syn) <= |x|
    ensures Told(x, isPartial, syn).toolCalls == []
  {
  }

  lemma SafeExtends(x: string, y: string, isPartial: bool, syn: Syntax)
    requires SafeText(syn, x) && x <= y
    ensures Extends(Parse(x, true, syn), Parse(y, isPartial, syn))
  {
    hide ParseDeepSeekR1, Safe;
    if syn.format.DeepSeekR1? {
      SafeNeverRetracts(x, y, isPartial, syn);
    }
  }

  lemma SafeVersionsGrow(texts: seq<string>, lastIsPartial: bool, syn: Syntax)
    requires Growing(texts) && forall i :: 0 <= i < |texts| - 1 ==> SafeText(syn, texts[i])
    ensures GrowingButIds([NO_MESSAGE] + Versions(texts, lastIsPartial, syn))
  {
    hide Parse, SafeText;
    var ms := [NO_MESSAGE] + Versions(texts, lastIsPartial, syn);
    forall i | 0 <= i < |texts|
      ensures GrowsButIds(ms[i], ms[i + 1])
    {
      if i > 0 {
        assert texts[i - 1] <= texts[i - 1 + 1];
        NoCalls(texts[i - 1], true, syn);
        SafeExtends(texts[i - 1], texts[i], lastIsPartial || i + 1 < |texts|, syn);
      }
    }
  }

  // Whole-stream conservation: when every text but the last is safe, no update raises, the last
  // message is the one read from the last text alone, and the differences add up to its two texts.
  lemma StreamConserves(texts: seq<string>, lastIsPartial: bool, syn: Syntax, gen: nat -> string)
    requires texts != [] && Growing(texts) && forall i :: 0 <= i < |texts| - 1 ==> SafeText(syn, texts[i])
    ensures var (st, ds) := Stream(texts, lastIsPartial, syn, gen);
            && st.chatMsg == Parse(texts[|texts| - 1], lastIsPartial, syn)
            && ds.Ok? && Reasonings(ds.value) == st.chatMsg.reasoning && Contents(ds.value) == st.chatMsg.content
  {
    hide Parse, SafeText, ApplyAll, GrowingButIds;
    var ms := Versions(texts, lastIsPartial, syn);
    SafeVersionsGrow(texts, lastIsPartial, syn);
    RunConserves(State(NO_MESSAGE, []), NO_MESSAGE, ms, gen);
    assert ([NO_MESSAGE] + ms)[|ms|] == Parse(texts[|texts| - 1], lastIsPartial, syn);
    NoCalls(texts[|texts| - 1], lastIsPartial, syn);
    var ds := Stream(texts, lastIsPartial, syn, gen).1.value;
    MergedTexts(NO_MESSAGE, ds);
    assert "" + Reasonings(ds) == Reasonings(ds) && "" + Contents(ds) == Contents(ds);
  }

  // With thinking forced open and reasoning kept apart every text is safe.
  lemma ForcedOpenIsSafe(syn: Syntax, x: string)
    requires syn.thinkingForcedOpen && !syn.reasoningInContent
    ensures Safe(syn, x)
  {
  }

  ghost predicate Rebuilds(p: Message, n: Message) {
    ComputeDiffs(p, n).Ok? && MergeAll(p, ComputeDiffs(p, n).value) == n
  }

  // Exactly after a safe text do the differences rebuild every next version of the message.
  lemma SafeTextExact(x: string, syn: Syntax)
    ensures (forall y, isPartial: bool :: x <= y ==> Rebuilds(Parse(x, true, syn), Parse(y, isPartial, syn)))
       <==> SafeText(syn, x)
  {
    hide ParseDeepSeekR1, ComputeDiffs, MergeAll, Safe, Rebuilds, Extends;
    forall y, isPartial: bool | x <= y
      ensures Rebuilds(Parse(x, true, syn), Parse(y, isPartial, syn))
         <==> Extends(Parse(x, true, syn), Parse(y, isPartial, syn))
    {
      ExtendsRebuilds(x, y, isPartial, syn);
    }
    if syn.format.DeepSeekR1? {
      SafeExact(x, syn);
      if !SafeText(syn, x) {
        var y, isPartial: bool :| x <= y && !Extends(ParseDeepSeekR1(x, true, syn), ParseDeepSeekR1(y, isPartial, syn));
        assert !Rebuilds(Parse(x, true, syn), Parse(y, isPartial, syn));
      }
    } else {
      forall y, isPartial: bool | x <= y ensures Rebuilds(Parse(x, true, syn), Parse(y, isPartial, syn)) {
        SafeExtends(x, y, isPartial, syn);
      }
    }
  }

  lemma ExtendsRebuilds(x: string, y: string, isPartial: bool, syn: Syntax)
    ensures Rebuilds(Parse(x, true, syn), Parse(y, isPartial, syn))
       <==> Extends(Parse(x, true, syn), Parse(y, isPartial, syn))
  {
    hide Parse, ComputeDiffs, MergeAll;
    NoCalls(x, true, syn);
    NoCalls(y, isPartial, syn);
    DiffsRebuildExact(Parse(x, true, syn), Parse(y, isPartial, syn));
  }
}
