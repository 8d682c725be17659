// Base64 (sections 4 and 5 of RFC 4648) over bytes, as in common/base64.hpp: encoding, decoding with
// the alphabet given or detected, decoding in place, and the two size formulas.
module Base64 {
  import opened Outcomes

  type Bytes = seq<bv8>

  datatype Alphabet = Auto | Standard | UrlFilenameSafe
  datatype Behavior = Moderate | Loose

  const PAD: bv8 := 0x3D
  const PLUS: bv8 := 0x2B
  const SLASH: bv8 := 0x2F
  const MINUS: bv8 := 0x2D
  const UNDERSCORE: bv8 := 0x5F

  // ---------- characters ----------

  // The character for six bits: A to Z, a to z, 0 to 9, and two that depend on the alphabet.
  function Alpha(alphabet: Alphabet, v: bv8): bv8
    requires v < 64
  {
    if v < 26 then 0x41 + v
    else if v < 52 then 0x61 + (v - 26)
    else if v < 62 then 0x30 + (v - 52)
    else if v == 62 then (if alphabet == UrlFilenameSafe then MINUS else PLUS)
    else if alphabet == UrlFilenameSafe then UNDERSCORE else SLASH
  }

  // The six bits of a character and the alphabet from there on.
  function Value(alphabet: Alphabet, c: bv8): Option<(bv8, Alphabet)> {
    if 0x41 <= c <= 0x5A then Some((c - 0x41, alphabet))
    else if 0x61 <= c <= 0x7A then Some((c - 0x61 + 26, alphabet))
    else if 0x30 <= c <= 0x39 then Some((c - 0x30 + 52, alphabet))
    else if c == PLUS && alphabet != UrlFilenameSafe then Some((62, Standard))
    else if c == SLASH && alphabet != UrlFilenameSafe then Some((63, Standard))
    else if c == MINUS && alphabet != Standard then Some((62, UrlFilenameSafe))
    else if c == UNDERSCORE && alphabet != Standard then Some((63, UrlFilenameSafe))
    else None
  }

  // ---------- encoding ----------

  // The four groups of six bits of three bytes. The second or the third can be the last of a text.
  function Six0(i0: bv8): (v: bv8)
    ensures v < 64
  {
    (i0 >> 2) & 0x3f
  }

  function Six1(i0: bv8, i1: bv8): (v: bv8)
    ensures v < 64
  {
    ((i0 & 0x3) << 4) | ((i1 >> 4) & 0x0f)
  }

  function Six1Last(i0: bv8): (v: bv8)
    ensures v < 64
  {
    (i0 & 0x3) << 4
  }

  function Six2(i1: bv8, i2: bv8): (v: bv8)
    ensures v < 64
  {
    ((i1 & 0xf) << 2) | ((i2 >> 6) & 0x03)
  }

  function Six2Last(i1: bv8): (v: bv8)
    ensures v < 64
  {
    (i1 & 0xf) << 2
  }

  function Six3(i2: bv8): (v: bv8)
    ensures v < 64
  {
    i2 & 0x3f
  }

  function Encode(data: Bytes, alphabet: Alphabet): Bytes
    decreases |data|
  {
    if |data| == 0 then []
    else if |data| == 1 then
      [Alpha(alphabet, Six0(data[0])), Alpha(alphabet, Six1Last(data[0])), PAD, PAD]
    else if |data| == 2 then
      [Alpha(alphabet, Six0(data[0])), Alpha(alphabet, Six1(data[0], data[1])),
       Alpha(alphabet, Six2Last(data[1])), PAD]
    else
      [Alpha(alphabet, Six0(data[0])), Alpha(alphabet, Six1(data[0], data[1])),
       Alpha(alphabet, Six2(data[1], data[2])), Alpha(alphabet, Six3(data[2]))]
      + Encode(data[3..], alphabet)
  }

  lemma PushFour(out: Bytes, a: bv8, b: bv8, c: bv8, d: bv8, rest: Bytes)
    ensures out + [a] + [b] + [c] + [d] + rest == out + ([a, b, c, d] + rest)
  {
  }

  // The characters of the next group of up to three bytes, and the rest of the encoding.
  lemma EncodeRest(rest: Bytes, alphabet: Alphabet, a: bv8, b: bv8, c: bv8, d: bv8)
    requires |rest| > 0 && a == Alpha(alphabet, Six0(rest[0]))
    requires b == Alpha(alphabet, if |rest| == 1 then Six1Last(rest[0]) else Six1(rest[0], rest[1]))
    requires c == if |rest| == 1 then PAD else Alpha(alphabet, if |rest| == 2 then Six2Last(rest[1]) else Six2(rest[1], rest[2]))
    requires d == if |rest| <= 2 then PAD else Alpha(alphabet, Six3(rest[2]))
    ensures Encode(rest, alphabet) == [a, b, c, d] + if |rest| <= 3 then [] else Encode(rest[3..], alphabet)
  {
    hide Alpha, Six0, Six1, Six1Last, Six2, Six2Last, Six3;
    assert |rest| == 3 ==> rest[3..] == [];
  }

  lemma EncodeNothing(rest: Bytes, alphabet: Alphabet)
    ensures rest == [] ==> Encode(rest, alphabet) == []
  {
  }

  method EncodeBytes(data: Bytes, alphabet: Alphabet) returns (out: Bytes)
    ensures out == Encode(data, alphabet)
  {
    hide Alpha, Six0, Six1, Six1Last, Six2, Six2Last, Six3, Encode;
    assert data[0..] == data && [] + Encode(data, alphabet) == Encode(data, alphabet);
    out := [];
    var i := 0;
    while i < |data|
      invariant i <= |data|
      invariant out + Encode(data[i..], alphabet) == Encode(data, alphabet)
    {
      ghost var rest, before := data[i..], out;
      var i0 := data[i];
      i := i + 1;
      var a := Alpha(alphabet, Six0(i0));
      out := out + [a];
      if i == |data| {
        var b := Alpha(alphabet, Six1Last(i0));
        out := out + [b];
        out := out + [PAD];
        out := out + [PAD];
        EncodeRest(rest, alphabet, a, b, PAD, PAD);
        PushFour(before, a, b, PAD, PAD, []);
        return;
      }
      var i1 := data[i];
      i := i + 1;
      var b := Alpha(alphabet, Six1(i0, i1));
      out := out + [b];
      if i == |data| {
        var c := Alpha(alphabet, Six2Last(i1));
        out := out + [c];
        out := out + [PAD];
        EncodeRest(rest, alphabet, a, b, c, PAD);
        PushFour(before, a, b, c, PAD, []);
        return;
      }
      var i2 := data[i];
      i := i + 1;
      var c := Alpha(alphabet, Six2(i1, i2));
      out := out + [c];
      var d := Alpha(alphabet, Six3(i2));
      out := out + [d];
      assert |rest| > 3 ==> rest[3..] == data[i..];
      EncodeRest(rest, alphabet, a, b, c, d);
      EncodeNothing(data[i..], alphabet);
      PushFour(before, a, b, c, d, Encode(data[i..], alphabet));
    }
    EncodeNothing(data[i..], alphabet);
    assert out + [] == out;
  }

  function RequiredEncodeSize(size: nat): nat {
    (size / 3 + if size % 3 != 0 then 1 else 0) * 4
  }

  function MaxDecodeSize(size: nat): nat {
    (size / 4 + if size % 4 != 0 then 1 else 0) * 3
  }

  lemma {:induction false} EncodedSize(data: Bytes, alphabet: Alphabet)
    ensures |Encode(data, alphabet)| == RequiredEncodeSize(|data|)
    decreases |data|
  {
    if |data| >= 3 {
      EncodedSize(data[3..], alphabet);
    }
  }

  // ---------- decoding ----------

  predicate Bits(bits: nat) {
    bits == 0 || bits == 2 || bits == 4 || bits == 6
  }

  // The byte from the rest of the last six bits and the beginning of the next.
  function Joined(bits: nat, last: bv8, part: bv8): bv8
    requires Bits(bits) && bits != 0
  {
    match bits
    case 2 => (last << 6) | part
    case 4 => (last << 4) | (part >> 2)
    case 6 => (last << 2) | (part >> 4)
  }

  predicate OnlyPadding(text: Bytes) {
    forall i :: 0 <= i < |text| ==> text[i] == PAD
  }

  // What comes after the part that is decoded already.
  function Prepend(done: Bytes, r: Result<Bytes>): Result<Bytes> {
    if r.Ok? then Ok(done + r.value) else Raised
  }

  lemma PrependNothing(r: Result<Bytes>)
    ensures Prepend([], r) == r
  {
    assert r.Ok? ==> [] + r.value == r.value;
  }

  lemma PrependTwice(done: Bytes, more: Bytes, r: Result<Bytes>)
    ensures Prepend(done + more, r) == Prepend(done, Prepend(more, r))
  {
    assert r.Ok? ==> done + more + r.value == done + (more + r.value);
  }

  predicate PaddingIn(text: Bytes, lo: nat, hi: nat)
    requires hi <= |text|
  {
    forall k :: lo <= k < hi ==> text[k] == PAD
  }

  lemma NoPadding(text: Bytes, lo: nat)
    requires lo <= |text|
    ensures PaddingIn(text, lo, lo)
  {
  }

  lemma PaddingStep(text: Bytes, lo: nat, i: nat)
    requires lo <= i < |text|
    ensures PaddingIn(text, lo, i) && text[i] == PAD ==> PaddingIn(text, lo, i + 1)
    ensures text[i] != PAD ==> !PaddingIn(text, lo, |text|)
  {
  }

  lemma PaddingFrom(text: Bytes, lo: nat)
    requires lo <= |text|
    ensures OnlyPadding(text[lo..]) <==> PaddingIn(text, lo, |text|)
  {
    assert forall k :: 0 <= k < |text| - lo ==> text[lo..][k] == text[lo + k];
    if OnlyPadding(text[lo..]) {
      assert forall k :: lo <= k < |text| ==> text[lo..][k - lo] == text[k];
    }
  }

  // bits of last are still to be used.
  function DecodeFrom(text: Bytes, bits: nat, last: bv8, alphabet: Alphabet, behavior: Behavior): Result<Bytes>
    requires Bits(bits)
    decreases |text|
  {
    if text == [] then Ok([])
    else if text[0] == PAD then (if behavior == Loose || OnlyPadding(text[1..]) then Ok([]) else Raised)
    else
      var v := Value(alphabet, text[0]);
      if v.None? then Raised
      else if bits == 0 then DecodeFrom(text[1..], 6, v.value.0, v.value.1, behavior)
      else Prepend([Joined(bits, last, v.value.0)], DecodeFrom(text[1..], bits - 2, v.value.0, v.value.1, behavior))
  }

  function Decode(text: Bytes, alphabet: Alphabet, behavior: Behavior): Result<Bytes> {
    DecodeFrom(text, 0, 0, alphabet, behavior)
  }

  // What the characters from i on mean.
  lemma DecodePad(text: Bytes, i: nat, bits: nat, last: bv8, alphabet: Alphabet, behavior: Behavior)
    requires i < |text| && Bits(bits) && text[i] == PAD
    ensures DecodeFrom(text[i..], bits, last, alphabet, behavior)
         == if behavior == Loose || PaddingIn(text, i + 1, |text|) then Ok([]) else Raised
  {
    PaddingFrom(text, i + 1);
    assert text[i..][1..] == text[i + 1..];
  }

  lemma DecodeNext(text: Bytes, i: nat, bits: nat, last: bv8, alphabet: Alphabet, behavior: Behavior)
    requires i < |text| && Bits(bits) && text[i] != PAD
    ensures var r := DecodeFrom(text[i..], bits, last, alphabet, behavior);
            var v := Value(alphabet, text[i]);
            if v.None? then r.Raised?
            else if bits == 0 then r == DecodeFrom(text[i + 1..], 6, v.value.0, v.value.1, behavior)
            else r == Prepend([Joined(bits, last, v.value.0)], DecodeFrom(text[i + 1..], bits - 2, v.value.0, v.value.1, behavior))
  {
    hide Joined, Value;
    assert text[i..][1..] == text[i + 1..];
  }

  lemma PrependEnd(done: Bytes)
    ensures Prepend(done, Ok([])) == Ok(done) && Prepend(done, Raised) == Raised
  {
    assert done + [] == done;
  }

  method DecodeBytes(text: Bytes, alphabet: Alphabet, behavior: Behavior) returns (r: Result<Bytes>)
    ensures r == Decode(text, alphabet, behavior)
  {
    hide Joined, Value, DecodeFrom, Prepend, PaddingIn;
    var out: Bytes := [];
    var bits: nat, last: bv8, alpha, i := 0, 0, alphabet, 0;
    PrependNothing(Decode(text, alphabet, behavior));
    assert text[0..] == text;
    while i < |text|
      invariant i <= |text| && Bits(bits)
      invariant Prepend(out, DecodeFrom(text[i..], bits, last, alpha, behavior)) == Decode(text, alphabet, behavior)
    {
      var c := text[i];
      if c == PAD {
        DecodePad(text, i, bits, last, alpha, behavior);
      } else {
        DecodeNext(text, i, bits, last, alpha, behavior);
      }
      PrependEnd(out);
      i := i + 1;
      if c == PAD {
        if behavior != Loose {
          ghost var padding := i;
          NoPadding(text, i);
          while i < |text|
            invariant padding <= i <= |text|
            invariant PaddingIn(text, padding, i)
          {
            PaddingStep(text, padding, i);
            if text[i] != PAD {
              return Raised;
            }
            i := i + 1;
          }
        }
        return Ok(out);
      }
      var v := Value(alpha, c);
      if v.None? {
        return Raised;
      }
      var part := v.value.0;
      alpha := v.value.1;
      if bits + 6 >= 8 {
        ghost var rest := DecodeFrom(text[i..], bits - 2, part, alpha, behavior);
        PrependTwice(out, [Joined(bits, last, part)], rest);
        out := out + [Joined(bits, last, part)];
        bits := bits - 2;
      } else {
        bits := bits + 6;
      }
      last := part;
    }
    PrependEnd(out);
    DecodeNothing(text[i..], bits, last, alpha, behavior);
    r := Ok(out);
  }

  lemma DecodeNothing(text: Bytes, bits: nat, last: bv8, alphabet: Alphabet, behavior: Behavior)
    requires text == [] && Bits(bits)
    ensures DecodeFrom(text, bits, last, alphabet, behavior) == Ok([])
  {
  }

  // Reading and writing the same buffer. Nothing is written where the text has not been read.
  method DecodeInplace(str: array<bv8>, alphabet: Alphabet, behavior: Behavior) returns (r: Result<nat>)
    modifies str
    ensures r.Ok? ==> r.value <= str.Length && Decode(old(str[..]), alphabet, behavior) == Ok(str[..r.value])
    ensures r.Ok? ==> str[r.value..] == old(str[..])[r.value..]
    ensures r.Raised? ==> Decode(old(str[..]), alphabet, behavior).Raised?
  {
    hide Joined, Value, DecodeFrom, Prepend, PaddingIn;
    ghost var text := str[..];
    PrependNothing(Decode(text, alphabet, behavior));
    assert str[..0] == [] && text[0..] == text;
    var bits: nat, last: bv8, alpha, i, out := 0, 0, alphabet, 0, 0;
    while i < str.Length
      invariant out <= i <= str.Length && Bits(bits)
      invariant forall k :: out <= k < str.Length ==> str[k] == text[k]
      invariant Prepend(str[..out], DecodeFrom(text[i..], bits, last, alpha, behavior)) == Decode(text, alphabet, behavior)
    {
      var c := str[i];
      if c == PAD {
        DecodePad(text, i, bits, last, alpha, behavior);
      } else {
        DecodeNext(text, i, bits, last, alpha, behavior);
      }
      PrependEnd(str[..out]);
      i := i + 1;
      if c == PAD {
        if behavior != Loose {
          ghost var padding := i;
          NoPadding(text, i);
          ghost var now := str[..];
          while i < str.Length
            invariant padding <= i <= str.Length && str[..] == now
            invariant PaddingIn(text, padding, i)
          {
            assert str[i] == now[i] == text[i];
            PaddingStep(text, padding, i);
            if str[i] != PAD {
              return Raised;
            }
            i := i + 1;
          }
        }
        return Ok(out);
      }
      var v := Value(alpha, c);
      if v.None? {
        return Raised;
      }
      var part := v.value.0;
      alpha := v.value.1;
      if bits + 6 >= 8 {
        ghost var before := str[..out];
        ghost var rest := DecodeFrom(text[i..], bits - 2, part, alpha, behavior);
        PrependTwice(before, [Joined(bits, last, part)], rest);
        str[out] := Joined(bits, last, part);
        out := out + 1;
        assert str[..out] == before + [Joined(bits, last, part)];
        bits := bits - 2;
      } else {
        bits := bits + 6;
      }
      last := part;
    }
    PrependEnd(str[..out]);
    DecodeNothing(text[i..], bits, last, alpha, behavior);
    r := Ok(out);
  }

  // ---------- sizes ----------

  lemma {:induction false} DecodedSizeFrom(text: Bytes, bits: nat, last: bv8, alphabet: Alphabet, behavior: Behavior)
    requires Bits(bits)
    ensures var r := DecodeFrom(text, bits, last, alphabet, behavior); r.Ok? ==> |r.value| <= (6 * |text| + bits) / 8
    decreases |text|
  {
    hide Joined;
    if text != [] && text[0] != PAD && Value(alphabet, text[0]).Some? {
      var v := Value(alphabet, text[0]).value;
      DecodedSizeFrom(text[1..], if bits == 0 then 6 else bits - 2, v.0, v.1, behavior);
    }
  }

  lemma DecodedSize(text: Bytes, alphabet: Alphabet, behavior: Behavior)
    ensures var r := Decode(text, alphabet, behavior); r.Ok? ==> |r.value| <= MaxDecodeSize(|text|)
  {
    DecodedSizeFrom(text, 0, 0, alphabet, behavior);
  }

  // ---------- round trips ----------

  // The alphabet with which a text of the encoder can be read.
  predicate Reads(alphabet: Alphabet, encoder: Alphabet) {
    alphabet == Auto || (alphabet == UrlFilenameSafe <==> encoder == UrlFilenameSafe)
  }

  lemma ValueOfAlpha(alphabet: Alphabet, encoder: Alphabet, v: bv8)
    requires v < 64 && Reads(alphabet, encoder)
    ensures Alpha(encoder, v) != PAD
    ensures var r := Value(alphabet, Alpha(encoder, v)); r.Some? && r.value.0 == v && Reads(r.value.1, encoder)
  {
  }

  lemma JoinedBytes(i0: bv8, i1: bv8, i2: bv8)
    ensures Joined(6, Six0(i0), Six1(i0, i1)) == i0
    ensures Joined(4, Six1(i0, i1), Six2(i1, i2)) == i1
    ensures Joined(2, Six2(i1, i2), Six3(i2)) == i2
    ensures Joined(6, Six0(i0), Six1Last(i0)) == i0
    ensures Joined(4, Six1(i0, i1), Six2Last(i1)) == i1
  {
  }

  // One character of an encoding.
  lemma DecodeAlpha(v: bv8, rest: Bytes, bits: nat, last: bv8, alphabet: Alphabet, encoder: Alphabet, behavior: Behavior)
      returns (next: Alphabet)
    requires v < 64 && Reads(alphabet, encoder) && Bits(bits)
    ensures Reads(next, encoder)
    ensures DecodeFrom([Alpha(encoder, v)] + rest, bits, last, alphabet, behavior)
         == if bits == 0 then DecodeFrom(rest, 6, v, next, behavior)
            else Prepend([Joined(bits, last, v)], DecodeFrom(rest, bits - 2, v, next, behavior))
  {
    hide Joined;
    ValueOfAlpha(alphabet, encoder, v);
    next := Value(alphabet, Alpha(encoder, v)).value.1;
    assert ([Alpha(encoder, v)] + rest)[1..] == rest;
  }

  lemma DecodeOne(i0: bv8, last: bv8, alphabet: Alphabet, encoder: Alphabet, behavior: Behavior)
    requires Reads(alphabet, encoder)
    ensures DecodeFrom(Encode([i0], encoder), 0, last, alphabet, behavior) == Ok([i0])
  {
    hide Joined, Value, Alpha, Reads, Six0, Six1, Six1Last, Six2, Six2Last, Six3;
    JoinedBytes(i0, 0, 0);
    var a, b := Six0(i0), Six1Last(i0);
    assert Encode([i0], encoder) == [Alpha(encoder, a)] + ([Alpha(encoder, b)] + [PAD, PAD]);
    var n1 := DecodeAlpha(a, [Alpha(encoder, b)] + [PAD, PAD], 0, last, alphabet, encoder, behavior);
    var n2 := DecodeAlpha(b, [PAD, PAD], 6, a, n1, encoder, behavior);
    assert [i0] == [i0] + [];
  }

  lemma DecodeTwo(i0: bv8, i1: bv8, last: bv8, alphabet: Alphabet, encoder: Alphabet, behavior: Behavior)
    requires Reads(alphabet, encoder)
    ensures DecodeFrom(Encode([i0, i1], encoder), 0, last, alphabet, behavior) == Ok([i0, i1])
  {
    hide Joined, Value, Alpha, Reads, Six0, Six1, Six1Last, Six2, Six2Last, Six3;
    JoinedBytes(i0, i1, 0);
    var a, b, c := Six0(i0), Six1(i0, i1), Six2Last(i1);
    var rest := [Alpha(encoder, c)] + [PAD];
    assert Encode([i0, i1], encoder) == [Alpha(encoder, a)] + ([Alpha(encoder, b)] + rest);
    var n1 := DecodeAlpha(a, [Alpha(encoder, b)] + rest, 0, last, alphabet, encoder, behavior);
    var n2 := DecodeAlpha(b, rest, 6, a, n1, encoder, behavior);
    var n3 := DecodeAlpha(c, [PAD], 4, b, n2, encoder, behavior);
    assert [i0, i1] == [i0] + ([i1] + []);
  }

  // A group of three bytes: what remains to be decoded after it.
  lemma DecodeGroup(i0: bv8, i1: bv8, i2: bv8, rest: Bytes, last: bv8, alphabet: Alphabet, encoder: Alphabet,
                    behavior: Behavior) returns (next: Alphabet)
    requires Reads(alphabet, encoder)
    ensures Reads(next, encoder)
    ensures DecodeFrom([Alpha(encoder, Six0(i0))] + ([Alpha(encoder, Six1(i0, i1))] +
                         ([Alpha(encoder, Six2(i1, i2))] + ([Alpha(encoder, Six3(i2))] + rest))), 0, last, alphabet, behavior)
         == Prepend([i0], Prepend([i1], Prepend([i2], DecodeFrom(rest, 0, Six3(i2), next, behavior))))
  {
    hide Joined, Value, Alpha, Reads, Six0, Six1, Six1Last, Six2, Six2Last, Six3, DecodeFrom, Prepend;
    JoinedBytes(i0, i1, i2);
    var rest3 := [Alpha(encoder, Six3(i2))] + rest;
    var rest2 := [Alpha(encoder, Six2(i1, i2))] + rest3;
    var n1 := DecodeAlpha(Six0(i0), [Alpha(encoder, Six1(i0, i1))] + rest2, 0, last, alphabet, encoder, behavior);
    var n2 := DecodeAlpha(Six1(i0, i1), rest2, 6, Six0(i0), n1, encoder, behavior);
    var n3 := DecodeAlpha(Six2(i1, i2), rest3, 4, Six1(i0, i1), n2, encoder, behavior);
    next := DecodeAlpha(Six3(i2), rest, 2, Six2(i1, i2), n3, encoder, behavior);
  }

  lemma {:induction false} DecodeOfEncode(data: Bytes, last: bv8, alphabet: Alphabet, encoder: Alphabet, behavior: Behavior)
    requires Reads(alphabet, encoder)
    ensures DecodeFrom(Encode(data, encoder), 0, last, alphabet, behavior) == Ok(data)
    decreases |data|
  {
    hide Joined, Value, Alpha, Reads, Six0, Six1, Six1Last, Six2, Six2Last, Six3, Encode, DecodeFrom;
    if data == [] {
      EncodeNothing(data, encoder);
      DecodeNothing(data, 0, last, alphabet, behavior);
    } else if |data| == 1 {
      DecodeOne(data[0], last, alphabet, encoder, behavior);
      assert data == [data[0]];
    } else if |data| == 2 {
      DecodeTwo(data[0], data[1], last, alphabet, encoder, behavior);
      assert data == [data[0], data[1]];
    } else {
      var rest := Encode(data[3..], encoder);
      var next := DecodeGroup(data[0], data[1], data[2], rest, last, alphabet, encoder, behavior);
      DecodeOfEncode(data[3..], Six3(data[2]), next, encoder, behavior);
      EncodedGroup(data, encoder);
      assert data == [data[0]] + ([data[1]] + ([data[2]] + data[3..]));
    }
  }

  lemma EncodedGroup(data: Bytes, encoder: Alphabet)
    requires |data| >= 3
    ensures Encode(data, encoder) ==
              [Alpha(encoder, Six0(data[0]))] + ([Alpha(encoder, Six1(data[0], data[1]))] +
                ([Alpha(encoder, Six2(data[1], data[2]))] + ([Alpha(encoder, Six3(data[2]))] + Encode(data[3..], encoder))))
  {
    hide Alpha, Six0, Six1, Six2, Six3;
  }

  // Every byte string comes back, whether the alphabet is given or detected.
  lemma RoundTrip(data: Bytes, alphabet: Alphabet, encoder: Alphabet, behavior: Behavior)
    requires Reads(alphabet, encoder)
    ensures Decode(Encode(data, encoder), alphabet, behavior) == Ok(data)
  {
    DecodeOfEncode(data, 0, alphabet, encoder, behavior);
  }

  // ---------- padding and detection ----------

  // Padding at the end is neither needed nor counted.
  lemma {:induction false} PaddingIsOptional(text: Bytes, pads: Bytes, bits: nat, last: bv8, alphabet: Alphabet, behavior: Behavior)
    requires Bits(bits) && PAD !in text && OnlyPadding(pads)
    ensures DecodeFrom(text + pads, bits, last, alphabet, behavior) == DecodeFrom(text, bits, last, alphabet, behavior)
    decreases |text|
  {
    hide Joined, Value;
    if text == [] {
      assert text + pads == pads;
    } else {
      assert (text + pads)[0] == text[0] && (text + pads)[1..] == text[1..] + pads;
      var v := Value(alphabet, text[0]);
      if v.Some? {
        PaddingIsOptional(text[1..], pads, if bits == 0 then 6 else bits - 2, v.value.0, v.value.1, behavior);
      }
    }
  }

  // The characters that only one of the alphabets has.
  predicate Foreign(alphabet: Alphabet, c: bv8) {
    (alphabet == Standard && (c == MINUS || c == UNDERSCORE)) || (alphabet == UrlFilenameSafe && (c == PLUS || c == SLASH))
  }

  lemma TailBefore(text: Bytes, i: nat)
    requires i < |text| && PAD !in text[..i]
    ensures i > 0 ==> text[0] != PAD && PAD !in text[1..][..i - 1]
  {
    if i > 0 {
      assert text[..i][0] == text[0];
      assert text[1..][..i - 1] == text[..i][1..];
    }
  }

  lemma {:induction false} ForeignRaises(text: Bytes, i: nat, bits: nat, last: bv8, alphabet: Alphabet, behavior: Behavior)
    requires Bits(bits) && i < |text| && PAD !in text[..i] && Foreign(alphabet, text[i])
    ensures DecodeFrom(text, bits, last, alphabet, behavior).Raised?
    decreases i
  {
    hide Joined;
    var v := Value(alphabet, text[0]);
    if i > 0 && v.Some? {
      TailBefore(text, i);
      ForeignRaises(text[1..], i - 1, if bits == 0 then 6 else bits - 2, v.value.0, v.value.1, behavior);
    }
  }

  // A text with characters of both alphabets before any padding is refused, even when the alphabet is
  // detected.
  lemma {:induction false} MixedRaises(text: Bytes, i: nat, k: nat, bits: nat, last: bv8, alphabet: Alphabet, behavior: Behavior)
    requires Bits(bits) && i < |text| && k < |text| && PAD !in text[..i] && PAD !in text[..k]
    requires Foreign(Standard, text[i]) && Foreign(UrlFilenameSafe, text[k])
    ensures DecodeFrom(text, bits, last, alphabet, behavior).Raised?
    decreases |text|
  {
    hide Joined;
    var v := Value(alphabet, text[0]);
    if alphabet == Standard {
      ForeignRaises(text, i, bits, last, alphabet, behavior);
    } else if alphabet == UrlFilenameSafe {
      ForeignRaises(text, k, bits, last, alphabet, behavior);
    } else if v.Some? {
      var next := if bits == 0 then 6 else bits - 2;
      TailBefore(text, i);
      TailBefore(text, k);
      if i == 0 {
        ForeignRaises(text[1..], k - 1, next, v.value.0, v.value.1, behavior);
      } else if k == 0 {
        ForeignRaises(text[1..], i - 1, next, v.value.0, v.value.1, behavior);
      } else {
        MixedRaises(text[1..], i - 1, k - 1, next, v.value.0, v.value.1, behavior);
      }
    }
  }
}
