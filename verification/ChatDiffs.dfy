// The differences between two versions of a message, and what a client makes of them.
module ChatDiffs {
  import opened Outcomes
  import opened ChatParser
  import opened ChatStreaming

  // Field index is None when the difference concerns no tool call.
  datatype Diff = Diff(reasoning: string, content: string, index: Option<nat>, call: ToolCall)

  const NO_CALL := ToolCall("", "", "")

  function StringDiff(last: string, current: string): Result<string> {
    if last == "" then Ok(current)
    else if !(last <= current) then
      if current <= last then Ok("") else Raised
    else Ok(current[|last|..])
  }

  // ---------- compute_diffs ----------

  function ReasoningDiffs(p: Message, n: Message): Result<seq<Diff>> {
    if p.reasoning == n.reasoning then Ok([]) else
      var d :- StringDiff(p.reasoning, n.reasoning);
      Ok([Diff(d, "", None, NO_CALL)])
  }

  function ContentDiffs(p: Message, n: Message): Result<seq<Diff>> {
    if p.content == n.content then Ok([]) else
      var d :- StringDiff(p.content, n.content);
      Ok([Diff("", d, None, NO_CALL)])
  }

  function TextDiffs(p: Message, n: Message): Result<seq<Diff>> {
    var r :- ReasoningDiffs(p, n);
    var c :- ContentDiffs(p, n);
    Ok(r + c)
  }

  function LastCallDiffs(p: Message, n: Message): Result<seq<Diff>>
    requires |p.toolCalls| <= |n.toolCalls|
  {
    if p.toolCalls == [] then Ok([]) else
      var i := |p.toolCalls| - 1;
      var pc, nc := p.toolCalls[i], n.toolCalls[i];
      if pc.name != nc.name then Raised else
        var args :- StringDiff(pc.arguments, nc.arguments);
        if args != "" || pc.id != nc.id then
          Ok([Diff("", "", Some(i), if pc.id != nc.id then ToolCall(nc.name, args, nc.id) else ToolCall("", args, ""))])
        else Ok([])
  }

  // The calls from position i on, each as one difference.
  function NewCallDiffs(calls: seq<ToolCall>, i: nat): (r: seq<Diff>)
    requires i <= |calls|
    decreases |calls| - i
  {
    if i == |calls| then [] else [Diff("", "", Some(i), calls[i])] + NewCallDiffs(calls, i + 1)
  }

  function ComputeDiffs(p: Message, n: Message): Result<seq<Diff>> {
    var texts :- TextDiffs(p, n);
    if |n.toolCalls| < |p.toolCalls| then Raised else
      var last :- LastCallDiffs(p, n);
      Ok(texts + last + NewCallDiffs(n.toolCalls, |p.toolCalls|))
  }

  method ComputeMessageDiffs(p: Message, n: Message) returns (r: Result<seq<Diff>>)
    ensures r == ComputeDiffs(p, n)
  {
    var diffs: seq<Diff> := [];
    if p.reasoning != n.reasoning {
      var d := StringDiff(p.reasoning, n.reasoning);
      if d.Raised? {
        return Raised;
      }
      diffs := diffs + [Diff(d.value, "", None, NO_CALL)];
    }
    assert ReasoningDiffs(p, n).Ok? && diffs == ReasoningDiffs(p, n).value;
    ghost var r' := diffs;
    if p.content != n.content {
      var d := StringDiff(p.content, n.content);
      if d.Raised? {
        return Raised;
      }
      diffs := diffs + [Diff("", d.value, None, NO_CALL)];
    }
    assert diffs == r' + ContentDiffs(p, n).value;
    if |n.toolCalls| < |p.toolCalls| {
      return Raised;
    }
    ghost var texts := diffs;
    if p.toolCalls != [] {
      var i := |p.toolCalls| - 1;
      var pc, nc := p.toolCalls[i], n.toolCalls[i];
      if pc.name != nc.name {
        return Raised;
      }
      var args := StringDiff(pc.arguments, nc.arguments);
      if args.Raised? {
        return Raised;
      }
      if args.value != "" || pc.id != nc.id {
        var call := NO_CALL;
        if pc.id != nc.id {
          call := call.(id := nc.id, name := nc.name);
        }
        diffs := diffs + [Diff("", "", Some(i), call.(arguments := args.value))];
      }
    }
    ghost var last := LastCallDiffs(p, n).value;
    assert diffs == texts + last;
    var i := |p.toolCalls|;
    while i < |n.toolCalls|
      invariant |p.toolCalls| <= i <= |n.toolCalls|
      invariant diffs + NewCallDiffs(n.toolCalls, i) == texts + last + NewCallDiffs(n.toolCalls, |p.toolCalls|)
    {
      ghost var before := diffs;
      diffs := diffs + [Diff("", "", Some(i), n.toolCalls[i])];
      i := i + 1;
      assert diffs + NewCallDiffs(n.toolCalls, i) == before + NewCallDiffs(n.toolCalls, i - 1);
    }
    assert NewCallDiffs(n.toolCalls, i) == [] && diffs + [] == diffs;
    assert TextDiffs(p, n) == Ok(texts);
    r := Ok(diffs);
  }

  // ---------- the client ----------

  // A client appends texts and arguments, adds a call under the next index, and sets the id and
  // the name of a known call when they are sent.
  function Merge(m: Message, d: Diff): Message {
    var texts := m.(reasoning := m.reasoning + d.reasoning, content := m.content + d.content);
    match d.index
    case None => texts
    case Some(i) =>
      if i < |m.toolCalls| then
        var c := m.toolCalls[i];
        texts.(toolCalls := m.toolCalls[i := ToolCall(if d.call.name != "" then d.call.name else c.name,
                                                      c.arguments + d.call.arguments,
                                                      if d.call.id != "" then d.call.id else c.id)])
      else texts.(toolCalls := m.toolCalls + [d.call])
  }

  function MergeAll(m: Message, ds: seq<Diff>): Message
    decreases |ds|
  {
    if ds == [] then m else MergeAll(Merge(m, ds[0]), ds[1..])
  }

  // What may happen to a message from one version to the next.
  ghost predicate Grows(p: Message, n: Message) {
    && Extends(p, n)
    && |p.toolCalls| <= |n.toolCalls|
    && (forall i :: 0 <= i < |p.toolCalls| - 1 ==> n.toolCalls[i] == p.toolCalls[i])
    && (p.toolCalls != [] ==>
          var i := |p.toolCalls| - 1;
          && n.toolCalls[i].name == p.toolCalls[i].name
          && p.toolCalls[i].arguments <= n.toolCalls[i].arguments
          && (n.toolCalls[i].id == p.toolCalls[i].id || n.toolCalls[i].id != ""))
  }

  lemma {:induction false} MergeConcat(m: Message, a: seq<Diff>, b: seq<Diff>)
    ensures MergeAll(m, a + b) == MergeAll(MergeAll(m, a), b)
    decreases |a|
  {
    if a == [] {
      assert a + b == b;
    } else {
      assert (a + b)[1..] == a[1..] + b;
      MergeConcat(Merge(m, a[0]), a[1..], b);
    }
  }

  lemma StringDiffMeaning(last: string, current: string)
    ensures StringDiff(last, current).Raised? <==> !(last <= current) && !(current <= last)
    ensures StringDiff(last, current).Ok? ==>
              (last + StringDiff(last, current).value == current <==> last <= current)
    ensures current <= last ==> StringDiff(last, current) == Ok("")
  {
    if last <= current {
      assert last + current[|last|..] == current;
    } else if current <= last {
      assert last + "" == last;
    }
  }

  lemma MergeTexts(p: Message, n: Message)
    requires TextDiffs(p, n).Ok?
    ensures MergeAll(p, TextDiffs(p, n).value)
         == Message(if p.content == n.content then p.content else p.content + StringDiff(p.content, n.content).value,
                    if p.reasoning == n.reasoning then p.reasoning
                    else p.reasoning + StringDiff(p.reasoning, n.reasoning).value,
                    p.toolCalls)
  {
    var r, c := ReasoningDiffs(p, n).value, ContentDiffs(p, n).value;
    MergeConcat(p, r, c);
    assert p.content + "" == p.content && p.reasoning + "" == p.reasoning;
    var m := MergeAll(p, r);
    assert r != [] ==> r[1..] == [] && m == Merge(p, r[0]);
    assert m.content == p.content;
    assert m.reasoning + "" == m.reasoning;
    assert c != [] ==> c[1..] == [] && MergeAll(m, c) == Merge(m, c[0]);
  }

  // The calls a client has after the differences for new calls.
  lemma {:induction false} MergeNewCalls(m: Message, calls: seq<ToolCall>, i: nat)
    requires i == |m.toolCalls| <= |calls|
    ensures MergeAll(m, NewCallDiffs(calls, i)) == m.(toolCalls := m.toolCalls + calls[i..])
    decreases |calls| - i
  {
    assert m.content + "" == m.content && m.reasoning + "" == m.reasoning;
    if i < |calls| {
      var ds := NewCallDiffs(calls, i);
      assert ds[1..] == NewCallDiffs(calls, i + 1);
      MergeNewCalls(Merge(m, ds[0]), calls, i + 1);
      assert m.toolCalls + [calls[i]] + calls[i + 1..] == m.toolCalls + calls[i..];
    } else {
      assert m.toolCalls + calls[i..] == m.toolCalls;
    }
  }

  // The last known call after its difference.
  function MergedLast(p: Message, n: Message): ToolCall
    requires 0 < |p.toolCalls| <= |n.toolCalls| && LastCallDiffs(p, n).Ok?
  {
    var i := |p.toolCalls| - 1;
    var pc, nc := p.toolCalls[i], n.toolCalls[i];
    ToolCall(pc.name, pc.arguments + StringDiff(pc.arguments, nc.arguments).value,
             if pc.id != nc.id && nc.id != "" then nc.id else pc.id)
  }

  lemma MergeLast(m: Message, p: Message, n: Message)
    requires 0 < |p.toolCalls| <= |n.toolCalls| && LastCallDiffs(p, n).Ok? && m.toolCalls == p.toolCalls
    ensures MergeAll(m, LastCallDiffs(p, n).value)
         == m.(toolCalls := p.toolCalls[|p.toolCalls| - 1 := MergedLast(p, n)])
  {
    var ds := LastCallDiffs(p, n).value;
    assert m.content + "" == m.content && m.reasoning + "" == m.reasoning;
    if ds == [] {
      var pc := p.toolCalls[|p.toolCalls| - 1];
      assert pc.arguments + "" == pc.arguments;
      assert MergedLast(p, n) == pc;
      assert p.toolCalls[|p.toolCalls| - 1 := pc] == p.toolCalls;
    } else {
      assert ds[1..] == [];
    }
  }

  lemma MergedMessage(p: Message, n: Message)
    requires ComputeDiffs(p, n).Ok?
    ensures |p.toolCalls| <= |n.toolCalls| && TextDiffs(p, n).Ok? && LastCallDiffs(p, n).Ok?
    ensures MergeAll(p, ComputeDiffs(p, n).value)
         == MergeAll(p, TextDiffs(p, n).value).(toolCalls :=
              (if p.toolCalls == [] then [] else p.toolCalls[|p.toolCalls| - 1 := MergedLast(p, n)])
              + n.toolCalls[|p.toolCalls|..])
  {
    var texts, last, calls := TextDiffs(p, n).value, LastCallDiffs(p, n).value, NewCallDiffs(n.toolCalls, |p.toolCalls|);
    MergeConcat(p, texts + last, calls);
    MergeConcat(p, texts, last);
    MergeTexts(p, n);
    var m := MergeAll(p, texts);
    if p.toolCalls != [] {
      MergeLast(m, p, n);
    }
    MergeNewCalls(MergeAll(m, last), n.toolCalls, |p.toolCalls|);
  }

  // Merging the differences gives the new message exactly when it grows from the previous one, and
  // then computing them does not raise.
  lemma DiffsRebuildExact(p: Message, n: Message)
    ensures ComputeDiffs(p, n).Ok? && MergeAll(p, ComputeDiffs(p, n).value) == n <==> Grows(p, n)
  {
    StringDiffMeaning(p.reasoning, n.reasoning);
    StringDiffMeaning(p.content, n.content);
    if p.toolCalls != [] && |p.toolCalls| <= |n.toolCalls| {
      var i := |p.toolCalls| - 1;
      StringDiffMeaning(p.toolCalls[i].arguments, n.toolCalls[i].arguments);
    }
    if ComputeDiffs(p, n).Ok? {
      MergedMessage(p, n);
      MergeTexts(p, n);
      CallsRebuilt(p, n);
    }
  }

  lemma CallsRebuilt(p: Message, n: Message)
    requires |p.toolCalls| <= |n.toolCalls| && LastCallDiffs(p, n).Ok?
    ensures (if p.toolCalls == [] then [] else p.toolCalls[|p.toolCalls| - 1 := MergedLast(p, n)])
            + n.toolCalls[|p.toolCalls|..] == n.toolCalls
       <==> (p.toolCalls != [] ==> MergedLast(p, n) == n.toolCalls[|p.toolCalls| - 1])
            && forall i :: 0 <= i < |p.toolCalls| - 1 ==> n.toolCalls[i] == p.toolCalls[i]
  {
    var k := |p.toolCalls|;
    var front := if p.toolCalls == [] then [] else p.toolCalls[k - 1 := MergedLast(p, n)];
    var all := front + n.toolCalls[k..];
    assert |all| == |n.toolCalls|;
    assert forall i :: k <= i < |all| ==> all[i] == n.toolCalls[i];
    assert forall i :: 0 <= i < k ==> all[i] == front[i];
    if all == n.toolCalls && k > 0 {
      assert all[k - 1] == n.toolCalls[k - 1];
    }
  }

  // ---------- whole runs ----------

  ghost predicate GrowingRun(ms: seq<Message>) {
    forall i :: 0 <= i < |ms| - 1 ==> Grows(ms[i], ms[i + 1])
  }

  // All differences of a run, in the order they are sent.
  function RunDiffs(ms: seq<Message>): Result<seq<Diff>> {
    if |ms| < 2 then Ok([]) else
      var first :- ComputeDiffs(ms[0], ms[1]);
      var rest :- RunDiffs(ms[1..]);
      Ok(first + rest)
  }

  // Over any growing run nothing raises and the differences rebuild the last message from the first.
  lemma {:induction false} RunRebuilds(ms: seq<Message>)
    requires ms != [] && GrowingRun(ms)
    ensures RunDiffs(ms).Ok? && MergeAll(ms[0], RunDiffs(ms).value) == ms[|ms| - 1]
  {
    if |ms| >= 2 {
      assert Grows(ms[0], ms[1]);
      DiffsRebuildExact(ms[0], ms[1]);
      forall i | 0 <= i < |ms[1..]| - 1 ensures Grows(ms[1..][i], ms[1..][i + 1]) {
        assert Grows(ms[i + 1], ms[i + 2]);
      }
      RunRebuilds(ms[1..]);
      MergeConcat(ms[0], ComputeDiffs(ms[0], ms[1]).value, RunDiffs(ms[1..]).value);
    }
  }
}
