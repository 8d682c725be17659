// The string helpers of the chat parser: stripping spaces, finding a literal, and finding the
// longest end of a text that may be the beginning of a literal still being generated.
module ChatText {
  import opened Outcomes
  import opened Characters

  function SkipSpaces(s: string, i: nat): (r: nat)
    requires i <= |s|
    ensures i <= r <= |s|
    ensures forall k :: i <= k < r ==> IsSpace(s[k])
    ensures r < |s| ==> !IsSpace(s[r])
    decreases |s| - i
  {
    if i < |s| && IsSpace(s[i]) then SkipSpaces(s, i + 1) else i
  }

  function DropSpaces(s: string, start: nat, end: nat): (r: nat)
    requires start <= end <= |s|
    ensures start <= r <= end
    ensures forall k :: r <= k < end ==> IsSpace(s[k])
    ensures r > start ==> !IsSpace(s[r - 1])
  {
    if end > start && IsSpace(s[end - 1]) then DropSpaces(s, start, end - 1) else end
  }

  // The text without its leading and trailing spaces.
  function Strip(s: string): string {
    var start := SkipSpaces(s, 0);
    s[start..DropSpaces(s, start, |s|)]
  }

  // The text without its leading spaces.
  function StripLeft(s: string): string {
    s[SkipSpaces(s, 0)..]
  }

  method StringStrip(s: string) returns (r: string)
    ensures r == Strip(s)
  {
    var start, end := 0, |s|;
    while start < end && IsSpace(s[start])
      invariant 0 <= start <= end == |s|
      invariant SkipSpaces(s, 0) == SkipSpaces(s, start)
    {
      start := start + 1;
    }
    while end > start && IsSpace(s[end - 1])
      invariant start <= end <= |s|
      invariant DropSpaces(s, start, |s|) == DropSpaces(s, start, end)
    {
      end := end - 1;
    }
    r := s[start..end];
  }

  // What Strip returns does not depend on how it is computed: it is the part of the text between
  // its first and its last character that is no space.
  lemma StripMeaning(s: string, i: nat, j: nat)
    requires i < j <= |s| && !IsSpace(s[i]) && !IsSpace(s[j - 1])
    requires forall k :: 0 <= k < i || j <= k < |s| ==> IsSpace(s[k])
    ensures Strip(s) == s[i..j]
  {
    var start := SkipSpaces(s, 0);
    assert start == i;
    var end := DropSpaces(s, start, |s|);
    assert end == j;
  }

  lemma StripOfSpaces(s: string)
    requires forall k :: 0 <= k < |s| ==> IsSpace(s[k])
    ensures Strip(s) == ""
  {
  }

  // Strip is monotone: more text never takes back what was there.
  lemma StripMonotone(s: string, t: string)
    requires s <= t
    ensures Strip(s) <= Strip(t)
  {
    var i, i' := SkipSpaces(s, 0), SkipSpaces(t, 0);
    SameCharacters(s, t);
    if i < |s| {
      assert !IsSpace(t[i]);
      assert i == i';
      var j, j' := DropSpaces(s, i, |s|), DropSpaces(t, i, |t|);
      assert !IsSpace(s[j - 1]) && !IsSpace(t[j - 1]);
      assert i < j <= j';
      PartOfPrefix(s, t, i, j, j');
    } else {
      StripOfSpaces(s);
    }
  }

  lemma SameCharacters(s: string, t: string)
    requires s <= t
    ensures forall k :: 0 <= k < |s| ==> t[k] == s[k]
  {
  }

  lemma PartOfPrefix(s: string, t: string, i: nat, j: nat, j': nat)
    requires s <= t && i <= j <= j' <= |t| && j <= |s|
    ensures s[i..j] <= t[i..j']
  {
    assert s[i..j] == t[i..j'][..j - i];
  }

  lemma StripLeftMonotone(s: string, t: string)
    requires s <= t
    ensures StripLeft(s) <= StripLeft(t)
  {
    var i, i' := SkipSpaces(s, 0), SkipSpaces(t, 0);
    assert forall k :: 0 <= k < |s| ==> t[k] == s[k];
    if i < |s| {
      assert !IsSpace(t[i]);
      assert i == i';
    }
  }

  // ---------- finding a literal ----------

  predicate OccursAt(s: string, lit: string, i: nat) {
    i + |lit| <= |s| && s[i..i + |lit|] == lit
  }

  // std::string::find from a position.
  function Find(s: string, lit: string, from: nat): (r: Option<nat>)
    requires from <= |s|
    ensures r.Some? ==> from <= r.value && OccursAt(s, lit, r.value)
    ensures forall i :: from <= i && (r.Some? ==> i < r.value) ==> !OccursAt(s, lit, i)
    decreases |s| - from
  {
    if OccursAt(s, lit, from) then Some(from)
    else if from == |s| then None
    else Find(s, lit, from + 1)
  }

  // ---------- a literal still being generated ----------

  // The longest nonempty prefix of stop, of length at most n, that ends s.
  function PartialStopUpTo(s: string, stop: string, n: nat): Option<nat>
    requires n <= |stop|
  {
    if n == 0 then None
    else if n <= |s| && s[|s| - n..] == stop[..n] then Some(|s| - n)
    else PartialStopUpTo(s, stop, n - 1)
  }

  function PartialStop(s: string, stop: string): Option<nat> {
    PartialStopUpTo(s, stop, |stop|)
  }

  // s ends, from position i on, with a nonempty prefix of stop.
  predicate MayBegin(s: string, stop: string, i: nat) {
    i < |s| && s[i..] <= stop
  }

  lemma {:induction false} PartialStopUpToMeaning(s: string, stop: string, n: nat)
    requires n <= |stop|
    ensures var r := PartialStopUpTo(s, stop, n);
            && (r.Some? ==> MayBegin(s, stop, r.value) && |s| - r.value <= n)
            && forall i: nat :: MayBegin(s, stop, i) && |s| - i <= n ==> r.Some? && r.value <= i
  {
    if n > 0 {
      PartialStopUpToMeaning(s, stop, n - 1);
      if n <= |s| && s[|s| - n..] == stop[..n] {
        assert MayBegin(s, stop, |s| - n);
      } else {
        forall i: nat | MayBegin(s, stop, i) && |s| - i <= n
          ensures |s| - i <= n - 1
        {
        }
      }
    }
  }

  // It is the longest end of s that is a prefix of stop, if there is a nonempty one.
  lemma PartialStopLongest(s: string, stop: string)
    ensures var r := PartialStop(s, stop);
            && (r.Some? <==> exists i: nat :: MayBegin(s, stop, i))
            && (r.Some? ==> MayBegin(s, stop, r.value))
            && forall i: nat :: MayBegin(s, stop, i) ==> r.value <= i
  {
    PartialStopUpToMeaning(s, stop, |stop|);
    forall i: nat | MayBegin(s, stop, i) ensures |s| - i <= |stop| {
    }
  }

  lemma LastCharacterDiffers(s: string, stop: string, k: nat)
    requires s != "" && k < |stop| && stop[k] != s[|s| - 1]
    ensures PartialStopUpTo(s, stop, k + 1) == PartialStopUpTo(s, stop, k)
  {
    if k + 1 <= |s| {
      assert s[|s| - (k + 1)..][k] == s[|s| - 1];
      assert stop[..k + 1][k] == stop[k];
    }
  }

  predicate EndsWith(s: string, suffix: string) {
    |s| >= |suffix| && s[|s| - |suffix|..] == suffix
  }

  lemma EndIsPartialStop(s: string, stop: string, n: nat)
    requires 0 < n <= |stop| && EndsWith(s, stop[..n])
    ensures PartialStopUpTo(s, stop, n) == Some(|s| - n)
  {
  }

  lemma EndIsNoPartialStop(s: string, stop: string, n: nat)
    requires 0 < n <= |stop| && !EndsWith(s, stop[..n])
    ensures PartialStopUpTo(s, stop, n) == PartialStopUpTo(s, stop, n - 1)
  {
  }

  method StringFindPartialStop(s: string, stop: string) returns (r: Option<nat>)
    ensures r == PartialStop(s, stop)
  {
    hide PartialStopUpTo, EndsWith;
    if s != "" && stop != "" {
      var last := s[|s| - 1];
      var charIndex := |stop| - 1;
      while charIndex >= 0
        invariant -1 <= charIndex < |stop|
        invariant PartialStop(s, stop) == PartialStopUpTo(s, stop, charIndex + 1)
      {
        if stop[charIndex] == last {
          var partial := stop[..charIndex + 1];
          if EndsWith(s, partial) {
            EndIsPartialStop(s, stop, charIndex + 1);
            return Some(|s| - charIndex - 1);
          }
          EndIsNoPartialStop(s, stop, charIndex + 1);
        } else {
          LastCharacterDiffers(s, stop, charIndex);
        }
        charIndex := charIndex - 1;
      }
      NothingLeft(s, stop);
    } else {
      NoPartialStop(s, stop);
    }
    r := None;
  }

  lemma NothingLeft(s: string, stop: string)
    ensures PartialStopUpTo(s, stop, 0) == None
  {
  }

  lemma NoPartialStop(s: string, stop: string)
    requires s == "" || stop == ""
    ensures PartialStop(s, stop) == None
  {
    PartialStopLongest(s, stop);
  }
}
