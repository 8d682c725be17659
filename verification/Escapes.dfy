// Escape sequences replaced in the buffer they stand in (common/common.cpp:602-637). A char stands
// for a byte.
module Escapes {
  import opened Outcomes
  import opened Characters

  // ---------- two characters of strtol ----------

  // The number strtol reads from two characters in base 16, if it reads both: two digits, or one digit
  // after a space or a sign. The prefix 0x has no digit after it, so only its 0 is read.
  function Strtol(a: char, b: char): (v: Option<int>)
    ensures v.Some? ==> -15 <= v.value < 256
  {
    if !IsHex(b) then None
    else if IsHex(a) then Some(16 * HexValue(a) + HexValue(b))
    else if IsSpace(a) || a == '+' then Some(HexValue(b))
    else if a == '-' then Some(-(HexValue(b) as int))
    else None
  }

  // The conversion of a long to a char.
  function ToChar(val: int): (c: char)
    requires -15 <= val < 256
  {
    ((val + 256) % 256) as char
  }

  // ---------- the text that is meant ----------

  // What one escape sequence stands for, and how long it is.
  datatype Sequence = Replaced(sign: char, length: nat) | Kept

  function SequenceAt(s: string): (q: Sequence)
    requires |s| >= 2 && s[0] == '\\'
    ensures q.Replaced? ==> 2 <= q.length <= |s|
  {
    match s[1]
    case 'n' => Replaced('\n', 2)
    case 'r' => Replaced('\r', 2)
    case 't' => Replaced('\t', 2)
    case '\'' => Replaced('\'', 2)
    case '"' => Replaced('"', 2)
    case '\\' => Replaced('\\', 2)
    case 'x' =>
      if |s| >= 4 && Strtol(s[2], s[3]).Some? then Replaced(ToChar(Strtol(s[2], s[3]).value), 4) else Kept
    case _ => Kept
  }

  function Unescape(s: string): string
    decreases |s|
  {
    if |s| < 2 then s
    else if s[0] != '\\' then [s[0]] + Unescape(s[1..])
    else match SequenceAt(s)
      case Replaced(sign, length) => [sign] + Unescape(s[length..])
      case Kept => ['\\', s[1]] + Unescape(s[2..])
  }

  // The escapes of a single letter.
  function Simple(c: char): Option<char> {
    match c
    case 'n' => Some('\n')
    case 'r' => Some('\r')
    case 't' => Some('\t')
    case '\'' => Some('\'')
    case '"' => Some('"')
    case '\\' => Some('\\')
    case _ => None
  }

  // What has been written, once what stands for text[start..next] is added to it.
  lemma Continues(text: string, start: nat, done: string, add: string, next: nat)
    requires start < next <= |text|
    requires Unescape(text[start..]) == add + Unescape(text[next..])
    requires done + Unescape(text[start..]) == Unescape(text)
    ensures done + add + Unescape(text[next..]) == Unescape(text)
  {
    hide Unescape;
    assert done + (add + Unescape(text[next..])) == done + add + Unescape(text[next..]);
  }

  lemma PlainStep(text: string, start: nat)
    requires start < |text| && (text[start] != '\\' || start + 1 == |text|)
    ensures Unescape(text[start..]) == [text[start]] + Unescape(text[start + 1..])
  {
    assert text[start..][1..] == text[start + 1..];
  }

  lemma EscapeStep(text: string, start: nat, sign: Option<char>, next: nat)
    requires start + 1 < next <= |text| && text[start] == '\\'
    requires SequenceAt(text[start..]) == (if sign.Some? then Replaced(sign.value, next - start) else Kept)
    requires sign.None? ==> next == start + 2
    ensures Unescape(text[start..]) ==
              (if sign.Some? then [sign.value] else ['\\', text[start + 1]]) + Unescape(text[next..])
  {
    assert text[start..][next - start..] == text[next..];
  }

  lemma NothingLeft()
    ensures Unescape("") == ""
  {
  }

  // The switch on the character after a backslash at start: what is to be written instead, if
  // anything, and the index of the last character used up.
  method ReadSequence(input: array<char>, start: nat) returns (sign: Option<char>, last: nat)
    requires start + 1 < input.Length && input[start] == '\\'
    ensures start < last < input.Length && (sign.None? ==> last == start + 1)
    ensures SequenceAt(input[start..]) == if sign.Some? then Replaced(sign.value, last + 1 - start) else Kept
  {
    last := start + 1;
    sign := Simple(input[last]);
    if input[last] == 'x' && last + 2 < input.Length {
      var val := Strtol(input[last + 1], input[last + 2]);
      if val.Some? {
        last := last + 2;
        sign := Some(ToChar(val.value));
      }
    }
  }

  // input[outputIdx] = c
  method Write(input: array<char>, outputIdx: nat, c: char)
    requires outputIdx < input.Length
    modifies input
    ensures input[..outputIdx + 1] == old(input[..outputIdx]) + [c]
    ensures forall k :: outputIdx < k < input.Length ==> input[k] == old(input[k])
  {
    input[outputIdx] := c;
  }

  method ProcessEscapes(input: array<char>) returns (length: nat)
    modifies input
    ensures length <= input.Length && input[..length] == Unescape(old(input[..]))
    ensures input[length..] == old(input[..])[length..]
  {
    hide Unescape, Strtol, Simple, SequenceAt;
    ghost var text := input[..];
    assert input[..0] == "" && text[0..] == text && "" + Unescape(text) == Unescape(text);
    var outputIdx, inputIdx := 0, 0;
    while inputIdx < input.Length
      invariant outputIdx <= inputIdx <= input.Length
      invariant forall k :: outputIdx <= k < input.Length ==> input[k] == text[k]
      invariant input[..outputIdx] + Unescape(text[inputIdx..]) == Unescape(text)
    {
      ghost var done, start := input[..outputIdx], inputIdx;
      if input[inputIdx] == '\\' && inputIdx + 1 < input.Length {
        var sign, last := ReadSequence(input, inputIdx);
        assert input[start..] == text[start..];
        EscapeStep(text, start, sign, last + 1);
        inputIdx := last;
        if sign.Some? {
          Continues(text, start, done, [sign.value], inputIdx + 1);
          Write(input, outputIdx, sign.value);
          outputIdx := outputIdx + 1;
        } else {
          Continues(text, start, done, ['\\', text[inputIdx]], inputIdx + 1);
          Write(input, outputIdx, '\\');
          outputIdx := outputIdx + 1;
          Write(input, outputIdx, input[inputIdx]);
          outputIdx := outputIdx + 1;
          assert input[..outputIdx] == done + ['\\', text[inputIdx]];
        }
      } else {
        PlainStep(text, start);
        Continues(text, start, done, [text[start]], inputIdx + 1);
        Write(input, outputIdx, input[inputIdx]);
        outputIdx := outputIdx + 1;
      }
      inputIdx := inputIdx + 1;
    }
    NothingLeft();
    assert text[inputIdx..] == "" && input[..outputIdx] + "" == input[..outputIdx];
    length := outputIdx;
  }

  // ---------- properties ----------

  lemma {:induction false} NeverLonger(s: string)
    ensures |Unescape(s)| <= |s|
    ensures |Unescape(s)| == |s| ==> Unescape(s) == s
    decreases |s|
  {
    if |s| >= 2 {
      if s[0] != '\\' {
        NeverLonger(s[1..]);
        assert s == [s[0]] + s[1..];
      } else if SequenceAt(s).Replaced? {
        NeverLonger(s[SequenceAt(s).length..]);
      } else {
        NeverLonger(s[2..]);
        assert s == ['\\', s[1]] + s[2..];
      }
    }
  }

  function DoubleBackslashes(s: string): string {
    if s == "" then "" else (if s[0] == '\\' then "\\\\" else [s[0]]) + DoubleBackslashes(s[1..])
  }

  // Doubling the backslashes of any text protects all of it.
  lemma {:induction false} UndoesDoubling(s: string)
    ensures Unescape(DoubleBackslashes(s)) == s
    decreases |s|
  {
    if s != "" {
      var d := DoubleBackslashes(s);
      UndoesDoubling(s[1..]);
      assert s == [s[0]] + s[1..];
      if s[0] == '\\' {
        assert d[2..] == DoubleBackslashes(s[1..]);
      } else {
        assert d[1..] == DoubleBackslashes(s[1..]);
        assert |d| < 2 ==> s[1..] == "";
      }
    }
  }

  // ---------- an escaper that uses every sequence ----------

  function EscapeChar(c: char): string {
    match c
    case '\n' => "\\n"
    case '\r' => "\\r"
    case '\t' => "\\t"
    case '\'' => "\\\'"
    case '"' => "\\\""
    case '\\' => "\\\\"
    case _ => if ' ' <= c <= '~' || c as int >= 256 then [c] else ['\\', 'x', HexDigit(c as int / 16), HexDigit(c as int % 16)]
  }

  function EscapeAll(s: string): string {
    if s == "" then "" else EscapeChar(s[0]) + EscapeAll(s[1..])
  }

  // A character that is written out in hexadecimal.
  lemma HexSequence(c: char, t: string)
    requires c as int < 256 && |t| >= 4 && t[..4] == ['\\', 'x', HexDigit(c as int / 16), HexDigit(c as int % 16)]
    ensures SequenceAt(t) == Replaced(c, 4)
  {
    hide IsHex, HexValue;
    assert t[0] == t[..4][0] && t[1] == t[..4][1] && t[2] == t[..4][2] && t[3] == t[..4][3];
    assert 16 * (c as int / 16) + c as int % 16 == c as int;
  }

  lemma EscapedFirst(c: char, rest: string)
    ensures Unescape(EscapeChar(c) + rest) == [c] + Unescape(rest)
  {
    hide Strtol, HexDigit;
    var e := EscapeChar(c);
    var t := e + rest;
    assert t[|e|..] == rest && t[..|e|] == e;
    if |e| == 1 {
      assert |t| < 2 ==> rest == "";
    } else {
      assert t[0] == e[0] && t[1] == e[1];
      if |e| == 4 {
        HexSequence(c, t);
      }
      assert SequenceAt(t) == Replaced(c, |e|);
    }
  }

  // Line breaks, tabs, quotes, backslashes and all other unprintable bytes come back.
  lemma {:induction false} UndoesEscaping(s: string)
    ensures Unescape(EscapeAll(s)) == s
    decreases |s|
  {
    if s != "" {
      UndoesEscaping(s[1..]);
      EscapedFirst(s[0], EscapeAll(s[1..]));
      assert s == [s[0]] + s[1..];
    }
  }
}
