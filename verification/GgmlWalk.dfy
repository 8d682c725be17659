// The walk over a legacy GGML file: the vocabulary, then one tensor record after another until the end
// of the file (convert_llama_ggml_to_gguf.py:78-131, 180-194). Offsets and sizes are numpy's 64-bit
// integers, which wrap around.
module GgmlWalk {
  import opened Outcomes
  import Tensors

  type Byte = x: int | 0 <= x < 256
  type Bytes = seq<Byte>

  datatype Format = GGML | GGMF | GGJT

  // ---------- reading ----------

  // data[from:to] in Python. A negative bound counts from the end.
  function Slice(data: Bytes, from: int, to: int): (r: Bytes)
    ensures 0 <= from <= to <= |data| ==> r == data[from..to]
    ensures to - from >= 0 ==> |r| <= |data|
  {
    var lo, hi := Tensors.Clamp(from, |data|), Tensors.Clamp(to, |data|);
    if lo < hi then data[lo..hi] else []
  }

  function U32(b: Bytes, k: nat): (v: nat)
    requires k + 4 <= |b|
    ensures v < 0x1_0000_0000
  {
    (b[k] as int) + 256 * (b[k + 1] as int) + 65536 * (b[k + 2] as int) + 16777216 * (b[k + 3] as int)
  }

  function U32s(b: Bytes, n: nat): (r: seq<nat>)
    requires |b| == 4 * n
    ensures |r| == n
  {
    seq(n, i requires 0 <= i < n => U32(b, 4 * i))
  }

  const TWO_63: int := 0x8000_0000_0000_0000
  const TWO_64: int := 0x1_0000_0000_0000_0000

  // The value a 64-bit integer takes.
  function Wrap(x: int): (r: int)
    ensures -TWO_63 <= r < TWO_63
    ensures -TWO_63 <= x < TWO_63 ==> r == x
  {
    (x + TWO_63) % TWO_64 - TWO_63
  }

  // Elements per block and bytes per block.
  datatype Size = Size(block: nat, bytes: nat)

  // By type number; a QK_K block has 256 elements.
  function SizeOf(kind: nat): (s: Option<Size>)
    ensures s.Some? ==> 1 <= s.value.block <= 256 && 1 <= s.value.bytes < 512
  {
    match kind
    case 0 => Some(Size(1, 4))
    case 1 => Some(Size(1, 2))
    case 2 => Some(Size(32, 18))
    case 3 => Some(Size(32, 20))
    case 6 => Some(Size(32, 22))
    case 7 => Some(Size(32, 24))
    case 8 => Some(Size(32, 34))
    case 9 => Some(Size(32, 40))
    case 10 => Some(Size(256, 84))
    case 11 => Some(Size(256, 110))
    case 12 => Some(Size(256, 144))
    case 13 => Some(Size(256, 176))
    case 14 => Some(Size(256, 210))
    case 15 => Some(Size(256, 292))
    case 16 => Some(Size(256, 66))
    case 17 => Some(Size(256, 74))
    case 18 => Some(Size(256, 98))
    case 19 => Some(Size(256, 50))
    case 20 => Some(Size(32, 18))
    case 21 => Some(Size(256, 110))
    case 22 => Some(Size(256, 82))
    case 23 => Some(Size(256, 136))
    case 24 => Some(Size(1, 1))
    case 25 => Some(Size(1, 2))
    case 26 => Some(Size(1, 4))
    case 27 => Some(Size(1, 8))
    case 28 => Some(Size(1, 8))
    case 29 => Some(Size(256, 56))
    case 30 => Some(Size(1, 2))
    case 34 => Some(Size(256, 54))
    case 35 => Some(Size(256, 66))
    case _ => None
  }

  // ---------- the vocabulary ----------

  datatype Item = Item(text: Bytes, score: Bytes)

  datatype Vocabulary = Vocabulary(items: seq<Item>, end: nat)

  function LoadItem(data: Bytes, offset: nat, scores: bool): Result<Vocabulary> {
    var head := Slice(data, offset, offset + 4);
    if |head| != 4 || U32(head, 0) >= 4096 then Raised
    else
      var n := U32(head, 0);
      var text := Slice(data, offset + 4, offset + 4 + n);
      if !scores then Ok(Vocabulary([Item(text, [])], offset + 4 + n))
      else
        var score := Slice(data, offset + 4 + n, offset + 8 + n);
        if |score| != 4 then Raised else Ok(Vocabulary([Item(text, score)], offset + 8 + n))
  }

  function LoadItems(data: Bytes, offset: nat, n: nat, scores: bool): Result<Vocabulary> {
    if n == 0 then Ok(Vocabulary([], offset))
    else
      var v :- LoadItems(data, offset, n - 1, scores);
      var i :- LoadItem(data, v.end, scores);
      Ok(Vocabulary(v.items + i.items, i.end))
  }

  class Vocab {
    var items: seq<Item>
    const loadScores: bool

    constructor (loadScores: bool)
      ensures items == [] && this.loadScores == loadScores
    {
      this.loadScores, items := loadScores, [];
    }

    method Load(data: Bytes, offset: nat, nVocab: nat) returns (r: Result<nat>)
      requires items == []
      modifies this
      ensures var v := LoadItems(data, offset, nVocab, loadScores);
              if v.Ok? then r == Ok(v.value.end - offset) && items == v.value.items else r.Raised?
    {
      hide Slice, U32, LoadItems;
      NoItems(data, offset, loadScores);
      var at, k := offset, 0;
      while k < nVocab
        invariant k <= nVocab && at >= offset
        invariant LoadItems(data, offset, k, loadScores) == Ok(Vocabulary(items, at))
        decreases nVocab - k
      {
        FailsLater(data, offset, k + 1, nVocab, loadScores);
        NextItem(data, offset, k, loadScores);
        var head := Slice(data, at, at + 4);
        if |head| != 4 {
          return Raised;
        }
        var itemlen := U32(head, 0);
        if itemlen >= 4096 {
          return Raised;
        }
        at := at + 4;
        var text := Slice(data, at, at + itemlen);
        at := at + itemlen;
        var score: Bytes := [];
        if loadScores {
          score := Slice(data, at, at + 4);
          if |score| != 4 {
            return Raised;
          }
          at := at + 4;
        }
        items := items + [Item(text, score)];
        k := k + 1;
      }
      r := Ok(at - offset);
    }
  }

  lemma NoItems(data: Bytes, offset: nat, scores: bool)
    ensures LoadItems(data, offset, 0, scores) == Ok(Vocabulary([], offset))
  {
  }

  lemma NextItem(data: Bytes, offset: nat, k: nat, scores: bool)
    requires LoadItems(data, offset, k, scores).Ok?
    ensures var v := LoadItems(data, offset, k, scores).value;
            var i := LoadItem(data, v.end, scores);
            LoadItems(data, offset, k + 1, scores) ==
              if i.Ok? then Ok(Vocabulary(v.items + i.value.items, i.value.end)) else Raised
  {
    hide LoadItem;
  }

  lemma {:induction false} FailsLater(data: Bytes, offset: nat, k: nat, n: nat, scores: bool)
    requires k <= n
    ensures LoadItems(data, offset, k, scores).Raised? ==> LoadItems(data, offset, n, scores).Raised?
    decreases n - k
  {
    if k < n {
      FailsLater(data, offset, k + 1, n, scores);
    }
  }

  // How such a file writes a number and an item with a score.
  function Le32(n: nat): (b: Bytes)
    requires n < 0x1_0000_0000
    ensures |b| == 4
  {
    [n % 256, n / 256 % 256, n / 65536 % 256, n / 16777216]
  }

  function Written(items: seq<Item>): Bytes
    requires forall i: nat | i < |items| :: |items[i].text| < 4096
    decreases |items|
  {
    if items == [] then [] else
      Written(items[..|items| - 1]) + Le32(|items[|items| - 1].text|) + items[|items| - 1].text + items[|items| - 1].score
  }

  lemma Le32OfU32(b: Bytes)
    requires |b| == 4
    ensures Le32(U32(b, 0)) == b
  {
    var b0: int, b1: int, b2: int, b3: int := b[0], b[1], b[2], b[3];
    Digits256(b0, b1, b2, b3);
    assert Le32(U32(b, 0)) == [b[0], b[1], b[2], b[3]] == b;
  }

  lemma Digits256(b0: int, b1: int, b2: int, b3: int)
    requires 0 <= b0 < 256 && 0 <= b1 < 256 && 0 <= b2 < 256 && 0 <= b3
    ensures var v := b0 + 256 * b1 + 65536 * b2 + 16777216 * b3;
            v % 256 == b0 && v / 256 % 256 == b1 && v / 65536 % 256 == b2 && v / 16777216 == b3
  {
    var v := b0 + 256 * b1 + 65536 * b2 + 16777216 * b3;
    assert v / 256 == b1 + 256 * b2 + 65536 * b3;
    assert v / 65536 == b2 + 256 * b3;
  }

  lemma ItemRoundTrip(data: Bytes, offset: nat)
    requires LoadItem(data, offset, true).Ok? && offset <= |data|
    ensures var v := LoadItem(data, offset, true).value;
            && |v.items| == 1 && |v.items[0].text| < 4096 && offset <= v.end <= |data|
            && data[offset..v.end] == Le32(|v.items[0].text|) + v.items[0].text + v.items[0].score
  {
    hide U32, Le32;
    var head := Slice(data, offset, offset + 4);
    Le32OfU32(head);
    var n := U32(head, 0);
    assert offset + 8 + n <= |data|;
    assert data[offset..offset + 8 + n] == data[offset..offset + 4] + data[offset + 4..offset + 4 + n] + data[offset + 4 + n..offset + 8 + n];
  }

  // A vocabulary with scores that loads takes up exactly the bytes that writing its items would give.
  lemma {:induction false} VocabRoundTrip(data: Bytes, offset: nat, n: nat)
    requires LoadItems(data, offset, n, true).Ok? && offset <= |data|
    ensures var v := LoadItems(data, offset, n, true).value;
            && |v.items| == n && offset <= v.end <= |data| && (forall i: nat | i < n :: |v.items[i].text| < 4096)
            && data[offset..v.end] == Written(v.items)
    decreases n
  {
    hide LoadItem, Le32;
    if n > 0 {
      VocabRoundTrip(data, offset, n - 1);
      var before, v := LoadItems(data, offset, n - 1, true).value, LoadItems(data, offset, n, true).value;
      ItemRoundTrip(data, before.end);
      assert v.items[..n - 1] == before.items;
      assert data[offset..v.end] == data[offset..before.end] + data[before.end..v.end];
    }
  }

  // ---------- one record ----------

  datatype Record = Record(start: int, dims: seq<nat>, kind: nat, name: Bytes, header: int, payload: int, bytes: int, next: int)

  // (offset + 31) & ~31
  function Align(offset: int): (r: int)
    ensures r % 32 == 0 && offset <= r < offset + 32
  {
    (offset + 31) / 32 * 32
  }

  function LoadTensor(data: Bytes, offset: int, padded: bool): Result<Record> {
    var head := Slice(data, offset, offset + 12);
    if |head| != 12 then Raised
    else
      var nDims, nameLen, kind := U32(head, 0), U32(head, 4), U32(head, 8);
      if nDims > 4 || nameLen >= 4096 || SizeOf(kind).None? then Raised
      else
        var dimBytes := Slice(data, offset + 12, offset + 12 + 4 * nDims);
        if |dimBytes| != 4 * nDims then Raised
        else
          var dims := U32s(dimBytes, nDims);
          var afterDims := offset + 12 + 4 * nDims;
          var name := Slice(data, afterDims, afterDims + nameLen);
          var header := afterDims + nameLen;
          var payload := if padded then Align(header) else header;
          var bytes := Wrap(Wrap(Tensors.Prod(dims)) * SizeOf(kind).value.bytes) / SizeOf(kind).value.block;
          Ok(Record(offset, dims, kind, name, header, payload, bytes, Wrap(payload + bytes)))
  }

  // The header of a record as a file has it.
  function Dimensions(dims: seq<nat>): (b: Bytes)
    requires forall i: nat | i < |dims| :: dims[i] < 0x1_0000_0000
    ensures |b| == 4 * |dims|
    decreases |dims|
  {
    if dims == [] then [] else Dimensions(dims[..|dims| - 1]) + Le32(dims[|dims| - 1])
  }

  function Header(dims: seq<nat>, name: Bytes, kind: nat): (b: Bytes)
    requires |dims| <= 4 && |name| < 4096 && kind < 0x1_0000_0000
    requires forall i: nat | i < |dims| :: dims[i] < 0x1_0000_0000
    ensures |b| == 12 + 4 * |dims| + |name|
  {
    Le32(|dims|) + Le32(|name|) + Le32(kind) + Dimensions(dims) + name
  }

  lemma U32OfLe32(n: nat, b: Bytes, k: nat)
    requires n < 0x1_0000_0000 && k + 4 <= |b| && b[k..k + 4] == Le32(n)
    ensures U32(b, k) == n
  {
    var d := Le32(n);
    assert b[k] == b[k..k + 4][0] && b[k + 1] == b[k..k + 4][1] && b[k + 2] == b[k..k + 4][2] && b[k + 3] == b[k..k + 4][3];
    Sum256(n);
  }

  lemma Sum256(n: int)
    requires 0 <= n
    ensures n % 256 + 256 * (n / 256 % 256) + 65536 * (n / 65536 % 256) + 16777216 * (n / 16777216) == n
  {
    assert n / 65536 == n / 256 / 256 && n / 16777216 == n / 65536 / 256;
  }

  lemma {:induction false} DimensionAt(dims: seq<nat>, i: nat)
    requires (forall k: nat | k < |dims| :: dims[k] < 0x1_0000_0000) && i < |dims|
    ensures Dimensions(dims)[4 * i..4 * i + 4] == Le32(dims[i])
    decreases |dims|
  {
    hide Le32;
    var n := |dims| - 1;
    if i < n {
      DimensionAt(dims[..n], i);
      assert Dimensions(dims)[4 * i..4 * i + 4] == Dimensions(dims[..n])[4 * i..4 * i + 4];
    }
  }

  lemma DimensionsRead(dims: seq<nat>)
    requires forall i: nat | i < |dims| :: dims[i] < 0x1_0000_0000
    ensures U32s(Dimensions(dims), |dims|) == dims
  {
    hide Le32, U32, Dimensions;
    forall i: nat | i < |dims|
      ensures U32(Dimensions(dims), 4 * i) == dims[i]
    {
      DimensionAt(dims, i);
      U32OfLe32(dims[i], Dimensions(dims), 4 * i);
    }
  }

  lemma PartAt(data: Bytes, offset: nat, h: Bytes, lo: nat, hi: nat)
    requires offset + |h| <= |data| && data[offset..offset + |h|] == h && lo <= hi <= |h|
    ensures data[offset + lo..offset + hi] == h[lo..hi]
  {
    var part := data[offset + lo..offset + hi];
    forall k | 0 <= k < hi - lo
      ensures part[k] == h[lo..hi][k]
    {
      assert data[offset..offset + |h|][lo + k] == h[lo + k];
    }
    assert part == h[lo..hi];
  }

  // A number in the first 12 bytes.
  lemma HeadNumber(data: Bytes, offset: nat, k: nat, n: nat)
    requires n < 0x1_0000_0000 && k <= 8 && offset + 12 <= |data|
    requires data[offset + k..offset + k + 4] == Le32(n)
    ensures U32(data[offset..offset + 12], k) == n
  {
    hide Le32;
    var head := data[offset..offset + 12];
    forall i | 0 <= i < 4
      ensures head[k..k + 4][i] == Le32(n)[i]
    {
      assert data[offset + k..offset + k + 4][i] == Le32(n)[i];
    }
    U32OfLe32(n, head, k);
  }

  lemma FivePieces(a: Bytes, b: Bytes, c: Bytes, d: Bytes, e: Bytes)
    requires |a| == |b| == |c| == 4
    ensures var h := a + b + c + d + e;
            && h[0..4] == a && h[4..8] == b && h[8..12] == c
            && h[12..12 + |d|] == d && h[12 + |d|..12 + |d| + |e|] == e
  {
  }

  lemma HeaderPieces(dims: seq<nat>, name: Bytes, kind: nat)
    requires |dims| <= 4 && |name| < 4096 && kind < 0x1_0000_0000
    requires forall i: nat | i < |dims| :: dims[i] < 0x1_0000_0000
    ensures var h, n := Header(dims, name, kind), 4 * |dims|;
            && h[0..4] == Le32(|dims|) && h[4..8] == Le32(|name|) && h[8..12] == Le32(kind)
            && h[12..12 + n] == Dimensions(dims) && h[12 + n..12 + n + |name|] == name
  {
    hide Le32, Dimensions;
    FivePieces(Le32(|dims|), Le32(|name|), Le32(kind), Dimensions(dims), name);
  }

  predicate Stands(data: Bytes, offset: nat, dims: seq<nat>, name: Bytes, kind: nat) {
    && |dims| <= 4 && |name| < 4096 && kind < 0x1_0000_0000
    && (forall i: nat | i < |dims| :: dims[i] < 0x1_0000_0000)
    && offset + 12 + 4 * |dims| + |name| <= |data|
    && data[offset..offset + 12 + 4 * |dims| + |name|] == Header(dims, name, kind)
  }

  lemma HeadRead(data: Bytes, offset: nat, dims: seq<nat>, name: Bytes, kind: nat)
    requires Stands(data, offset, dims, name, kind)
    ensures var head := data[offset..offset + 12]; U32(head, 0) == |dims| && U32(head, 4) == |name| && U32(head, 8) == kind
  {
    hide Le32, U32, Dimensions, Header;
    var h := Header(dims, name, kind);
    HeaderPieces(dims, name, kind);
    PartAt(data, offset, h, 0, 4);
    HeadNumber(data, offset, 0, |dims|);
    PartAt(data, offset, h, 4, 8);
    HeadNumber(data, offset, 4, |name|);
    PartAt(data, offset, h, 8, 12);
    HeadNumber(data, offset, 8, kind);
  }

  lemma PieceAt(data: Bytes, offset: nat, h: Bytes, lo: nat, piece: Bytes, from: nat, to: nat)
    requires offset + |h| <= |data| && data[offset..offset + |h|] == h
    requires lo + |piece| <= |h| && h[lo..lo + |piece|] == piece && from == offset + lo && to == from + |piece|
    ensures data[from..to] == piece
  {
    PartAt(data, offset, h, lo, lo + |piece|);
  }

  lemma DimensionsStand(data: Bytes, offset: nat, dims: seq<nat>, name: Bytes, kind: nat)
    requires Stands(data, offset, dims, name, kind)
    ensures data[offset + 12..offset + 12 + 4 * |dims|] == Dimensions(dims)
  {
    hide Dimensions, Le32, Header, Stands;
    StandsWhole(data, offset, dims, name, kind);
    var d, h := Dimensions(dims), Header(dims, name, kind);
    PieceAt(data, offset, h, 12, d, offset + 12, offset + 12 + 4 * |dims|);
  }

  lemma StandsWhole(data: Bytes, offset: nat, dims: seq<nat>, name: Bytes, kind: nat)
    requires Stands(data, offset, dims, name, kind)
    ensures |dims| <= 4 && |name| < 4096 && kind < 0x1_0000_0000
    ensures forall i: nat | i < |dims| :: dims[i] < 0x1_0000_0000
    ensures var h := Header(dims, name, kind);
            offset + |h| <= |data| && data[offset..offset + |h|] == h && h[12..12 + |Dimensions(dims)|] == Dimensions(dims)
  {
    hide Dimensions, Le32, Header;
    HeaderPieces(dims, name, kind);
  }

  lemma NameStands(data: Bytes, offset: nat, dims: seq<nat>, name: Bytes, kind: nat)
    requires Stands(data, offset, dims, name, kind)
    ensures var from := offset + 12 + 4 * |dims|; data[from..from + |name|] == name
  {
    hide Dimensions, Le32, Header;
    HeaderPieces(dims, name, kind);
    var h := Header(dims, name, kind);
    PieceAt(data, offset, h, 12 + 4 * |dims|, name, offset + 12 + 4 * |dims|, offset + 12 + 4 * |dims| + |name|);
  }

  // A header that was written with these dimensions, name and type is read back, wherever it stands.
  lemma HeaderRoundTrip(data: Bytes, offset: nat, dims: seq<nat>, name: Bytes, kind: nat, padded: bool)
    requires Stands(data, offset, dims, name, kind) && SizeOf(kind).Some?
    ensures var r := LoadTensor(data, offset, padded);
            r.Ok? && r.value.dims == dims && r.value.name == name && r.value.kind == kind
            && r.value.header == offset + 12 + 4 * |dims| + |name|
  {
    hide U32, U32s, Dimensions, Header, SizeOf, Tensors.Prod, Wrap, Align;
    HeadRead(data, offset, dims, name, kind);
    DimensionsStand(data, offset, dims, name, kind);
    NameStands(data, offset, dims, name, kind);
    DimensionsRead(dims);
  }

  // ---------- the walk ----------

  // Running: the records loaded so far did not reach the end of the file.
  datatype Walk = Done(records: seq<Record>, end: int) | Failed | Running

  function WalkFrom(data: Bytes, offset: int, padded: bool, steps: nat): Walk
    decreases steps
  {
    if offset >= |data| then Done([], offset)
    else if steps == 0 then Running
    else
      var r := LoadTensor(data, offset, padded);
      if r.Raised? then Failed
      else
        var rest := WalkFrom(data, r.value.next, padded, steps - 1);
        if rest.Done? then Done([r.value] + rest.records, rest.end) else rest
  }

  class GgmlModel {
    var tensors: seq<Record>
    var tensorMap: map<Bytes, nat>

    constructor ()
      ensures tensors == [] && tensorMap == map[]
    {
      tensors, tensorMap := [], map[];
    }

    // Every name leads to its last record.
    ghost predicate Valid()
      reads this
    {
      && (forall i: nat | i < |tensors| :: tensors[i].name in tensorMap)
      && (forall name | name in tensorMap ::
            tensorMap[name] < |tensors| && tensors[tensorMap[name]].name == name &&
            forall i: nat | tensorMap[name] < i < |tensors| :: tensors[i].name != name)
    }

    // The loop of the source, stopped after a number of records.
    method Load(data: Bytes, start: int, padded: bool, steps: nat) returns (w: Walk)
      requires tensors == [] && tensorMap == map[]
      modifies this
      ensures w == WalkFrom(data, start, padded, steps)
      ensures Valid()
      ensures w.Done? ==> tensors == w.records
    {
      hide LoadTensor;
      var offset, k: nat := start, steps;
      while offset < |data|
        invariant Valid() && k <= steps
        invariant WalkFrom(data, start, padded, steps) == After(tensors, WalkFrom(data, offset, padded, k))
        decreases k
      {
        if k == 0 {
          return Running;
        }
        var r := LoadTensor(data, offset, padded);
        if r.Raised? {
          return Failed;
        }
        tensorMap := tensorMap[r.value.name := |tensors|];
        AfterOne(tensors, r.value, WalkFrom(data, r.value.next, padded, k - 1));
        tensors := tensors + [r.value];
        offset := r.value.next;
        k := k - 1;
      }
      w := Done(tensors, offset);
    }
  }

  function After(records: seq<Record>, w: Walk): Walk {
    if w.Done? then Done(records + w.records, w.end) else w
  }

  lemma AfterOne(records: seq<Record>, r: Record, w: Walk)
    ensures After(records + [r], w) == After(records, After([r], w))
  {
    assert w.Done? ==> records + [r] + w.records == records + ([r] + w.records);
  }

  // ---------- where it ends ----------

  // The offset after k records, if the walk gets that far and there is more of the file.
  function OffsetAt(data: Bytes, start: int, padded: bool, k: nat): Option<int> {
    if k == 0 then (if start < |data| then Some(start) else None)
    else
      var o := OffsetAt(data, start, padded, k - 1);
      if o.None? then None
      else
        var r := LoadTensor(data, o.value, padded);
        if r.Ok? && r.value.next < |data| then Some(r.value.next) else None
  }

  lemma {:induction false} OffsetAfter(data: Bytes, start: int, padded: bool, k: nat)
    ensures OffsetAt(data, start, padded, k + 1) ==
              if start < |data| && LoadTensor(data, start, padded).Ok?
              then OffsetAt(data, LoadTensor(data, start, padded).value.next, padded, k) else None
    decreases k
  {
    hide LoadTensor;
    if k > 0 {
      OffsetAfter(data, start, padded, k - 1);
    }
  }

  lemma {:induction false} RunningIsOffset(data: Bytes, start: int, padded: bool, steps: nat)
    ensures WalkFrom(data, start, padded, steps).Running? <==> OffsetAt(data, start, padded, steps).Some?
    decreases steps
  {
    hide LoadTensor;
    if start < |data| && steps > 0 {
      OffsetAfter(data, start, padded, steps - 1);
      var r := LoadTensor(data, start, padded);
      if r.Ok? {
        RunningIsOffset(data, r.value.next, padded, steps - 1);
      }
    } else if steps > 0 {
      OffsetAfter(data, start, padded, steps - 1);
    }
  }

  // The walk comes to the same offset twice.
  predicate Returns(data: Bytes, start: int, padded: bool, i: nat, k: nat) {
    i < k && OffsetAt(data, start, padded, k).Some? && OffsetAt(data, start, padded, i) == OffsetAt(data, start, padded, k)
  }

  lemma {:induction false} Earlier(data: Bytes, start: int, padded: bool, i: nat, k: nat)
    requires i <= k && OffsetAt(data, start, padded, k).Some?
    ensures OffsetAt(data, start, padded, i).Some?
    decreases k - i
  {
    hide LoadTensor;
    if i < k {
      Earlier(data, start, padded, i, k - 1);
    }
  }

  lemma {:induction false} ReturnsForever(data: Bytes, start: int, padded: bool, i: nat, k: nat, n: nat)
    requires Returns(data, start, padded, i, k)
    ensures OffsetAt(data, start, padded, n).Some?
    ensures n >= k ==> OffsetAt(data, start, padded, n) == OffsetAt(data, start, padded, n - (k - i))
    decreases n
  {
    hide LoadTensor;
    if n <= k {
      Earlier(data, start, padded, n, k);
    } else {
      ReturnsForever(data, start, padded, i, k, n - 1);
      ReturnsForever(data, start, padded, i, k, n - (k - i));
    }
  }

  // A record starts inside the file, where a negative offset counts from its end.
  lemma StartInFile(data: Bytes, offset: int, padded: bool)
    requires LoadTensor(data, offset, padded).Ok? && offset < |data|
    ensures -|data| <= offset
  {
  }

  lemma {:induction false} Pigeons(s: seq<int>, lo: int, hi: int)
    requires lo <= hi && |s| > hi - lo && forall k: nat | k < |s| :: lo <= s[k] < hi
    ensures exists i: nat, k: nat :: i < k < |s| && s[i] == s[k]
  {
    if forall i: nat, k: nat :: i < k < |s| ==> s[i] != s[k] {
      Distinct(s, lo, hi);
    }
  }

  lemma {:induction false} Distinct(s: seq<int>, lo: int, hi: int)
    requires lo <= hi && (forall k: nat | k < |s| :: lo <= s[k] < hi)
    requires forall i: nat, k: nat :: i < k < |s| ==> s[i] != s[k]
    ensures |s| <= hi - lo
  {
    var values := set k: nat | k < |s| :: s[k];
    SetOfDistinct(s);
    RangeSize(lo, hi);
    assert values <= Range(lo, hi);
    assert Range(lo, hi) == values + (Range(lo, hi) - values);
  }

  lemma {:induction false} SetOfDistinct(s: seq<int>)
    requires forall i: nat, k: nat :: i < k < |s| ==> s[i] != s[k]
    ensures |set k: nat | k < |s| :: s[k]| == |s|
    decreases |s|
  {
    if s != [] {
      var m := |s| - 1;
      SetOfDistinct(s[..m]);
      assert forall k: nat | k < m :: s[..m][k] == s[k];
      assert (set k: nat | k < |s| :: s[k]) == (set k: nat | k < m :: s[..m][k]) + {s[m]};
    }
  }

  function Range(lo: int, hi: int): (r: set<int>)
    requires lo <= hi
    ensures forall x: int :: x in r <==> lo <= x < hi
    decreases hi - lo
  {
    if lo == hi then {} else Range(lo, hi - 1) + {hi - 1}
  }

  lemma {:induction false} RangeSize(lo: int, hi: int)
    requires lo <= hi
    ensures |Range(lo, hi)| == hi - lo
    decreases hi - lo
  {
    if lo < hi {
      RangeSize(lo, hi - 1);
    }
  }

  // More records than places in the file: some offset has come twice.
  lemma LongWalkReturns(data: Bytes, start: int, padded: bool) returns (i: nat, k: nat)
    requires OffsetAt(data, start, padded, 2 * |data| + 1).Some?
    ensures Returns(data, start, padded, i, k)
  {
    hide LoadTensor;
    var n := 2 * |data| + 1;
    forall j: nat | j < n
      ensures OffsetAt(data, start, padded, j).Some?
      ensures -|data| <= OffsetAt(data, start, padded, j).value < |data|
    {
      Earlier(data, start, padded, j, n);
      Earlier(data, start, padded, j + 1, n);
      StartInFile(data, OffsetAt(data, start, padded, j).value, padded);
    }
    var s := seq(n, j requires 0 <= j < n => OffsetAt(data, start, padded, j).value);
    Pigeons(s, -|data|, |data|);
    i, k :| i < k < |s| && s[i] == s[k];
  }

  // The walk ends if and only if it never comes to an offset twice; and if it ends, it does within
  // twice as many records as the file has bytes.
  lemma TerminationExact(data: Bytes, start: int, padded: bool)
    ensures (exists steps: nat :: !WalkFrom(data, start, padded, steps).Running?) <==>
            !exists i: nat, k: nat :: Returns(data, start, padded, i, k)
    ensures (exists steps: nat :: !WalkFrom(data, start, padded, steps).Running?) <==>
            !WalkFrom(data, start, padded, 2 * |data| + 1).Running?
  {
    hide WalkFrom, OffsetAt;
    var n := 2 * |data| + 1;
    RunningIsOffset(data, start, padded, n);
    if WalkFrom(data, start, padded, n).Running? {
      var i, k := LongWalkReturns(data, start, padded);
      forall steps: nat
        ensures WalkFrom(data, start, padded, steps).Running?
      {
        ReturnsForever(data, start, padded, i, k, steps);
        RunningIsOffset(data, start, padded, steps);
      }
    } else if i: nat, k: nat :| Returns(data, start, padded, i, k) {
      ReturnsForever(data, start, padded, i, k, n);
    }
  }

  // ---------- what a finished walk has found ----------

  // The size of the record is not negative and its end is a 64-bit number.
  predicate EndsInRange(r: Record) {
    0 <= r.bytes && r.payload + r.bytes < TWO_63
  }

  lemma ProductBelow(n: nat, bytes: nat)
    requires bytes >= 1 && n * bytes < TWO_63
    ensures n < TWO_63
  {
    assert n * bytes >= n;
  }

  // What one record says about its place, whether its sizes wrap around or not.
  lemma RecordPlace(data: Bytes, offset: int, padded: bool)
    requires LoadTensor(data, offset, padded).Ok?
    ensures var r := LoadTensor(data, offset, padded).value;
            && r.start == offset && offset + 12 <= r.header <= r.payload < r.header + 32
            && (if padded then r.payload % 32 == 0 else r.payload == r.header)
            && r.next == Wrap(r.payload + r.bytes) && SizeOf(r.kind).Some?
  {
    hide Wrap, Tensors.Prod, Slice, U32, U32s, SizeOf, Align;
  }

  lemma RecordBytes(data: Bytes, offset: int, padded: bool)
    requires LoadTensor(data, offset, padded).Ok?
    ensures var r := LoadTensor(data, offset, padded).value;
            SizeOf(r.kind).Some? &&
            r.bytes == Wrap(Wrap(Tensors.Prod(r.dims)) * SizeOf(r.kind).value.bytes) / SizeOf(r.kind).value.block
  {
    hide Wrap, Tensors.Prod, SizeOf, Slice, U32, U32s, Align;
  }

  lemma DivNotNegative(x: nat, d: nat)
    requires d >= 1
    ensures x / d >= 0
  {
  }

  lemma NoWrap(n: nat, size: Size)
    requires size.bytes >= 1 && size.block >= 1 && n * size.bytes < TWO_63
    ensures Wrap(Wrap(n) * size.bytes) == n * size.bytes && n * size.bytes / size.block >= 0
  {
    hide Wrap;
    ProductBelow(n, size.bytes);
    var x := n * size.bytes;
    assert Wrap(n) == n && Wrap(x) == x;
    DivNotNegative(x, size.block);
  }

  lemma WrapIsCongruent(x: int) returns (q: int)
    ensures Wrap(x) == x - TWO_64 * q
  {
    q := (x + TWO_63) / TWO_64;
  }

  lemma WrapsOver(n: nat, size: Size)
    requires size.bytes >= 1 && 1 <= size.block <= 256 && n * size.bytes >= TWO_63
    ensures Wrap(Wrap(n) * size.bytes) / size.block < n * size.bytes / size.block
  {
    hide Wrap;
    var x := Wrap(Wrap(n) * size.bytes);
    var q := WrapIsCongruent(n);
    var p := WrapIsCongruent(Wrap(n) * size.bytes);
    assert Wrap(n) * size.bytes == n * size.bytes - TWO_64 * (q * size.bytes);
    OneTurn(n * size.bytes, x, q * size.bytes + p);
    DivideApart(x, n * size.bytes, size.block);
  }

  lemma OneTurn(y: int, x: int, q: int)
    requires y >= TWO_63 > x && x == y - TWO_64 * q
    ensures x + TWO_64 <= y
  {
  }

  lemma DivideApart(x: int, y: int, d: int)
    requires 1 <= d <= 256 && x + 256 <= y
    ensures x / d < y / d
  {
    var m := x / d + 1;
    assert d * m == d * (x / d) + d <= x + d <= y;
    AtLeast(y, d, m);
  }

  lemma AtLeast(y: int, d: int, m: int)
    requires d >= 1 && d * m <= y
    ensures m <= y / d
  {
    var q := y / d;
    assert y < d * q + d;
    assert (q + 1 - m) * d == d * q + d - d * m > 0;
    PositiveFactor(q + 1 - m, d);
  }

  lemma PositiveFactor(a: int, d: int)
    requires d >= 1 && a * d > 0
    ensures a > 0
  {
  }

  // The size of a record is that of its elements if and only if it does not wrap around.
  lemma BytesExact(data: Bytes, offset: int, padded: bool)
    requires LoadTensor(data, offset, padded).Ok?
    ensures var r := LoadTensor(data, offset, padded).value;
            && SizeOf(r.kind).Some?
            && (var size := Tensors.Prod(r.dims) * SizeOf(r.kind).value.bytes;
                && (size < TWO_63 ==> r.bytes >= 0)
                && (r.bytes == size / SizeOf(r.kind).value.block <==> size < TWO_63))
  {
    hide LoadTensor, Tensors.Prod, Wrap, SizeOf;
    RecordBytes(data, offset, padded);
    var r := LoadTensor(data, offset, padded).value;
    var n, s := Tensors.Prod(r.dims), SizeOf(r.kind).value;
    if n * s.bytes < TWO_63 {
      NoWrap(n, s);
    } else {
      WrapsOver(n, s);
    }
  }

  // The record ends with its payload if and only if this holds of its header.
  lemma RecordEnd(data: Bytes, offset: int, padded: bool)
    requires offset >= 0 && LoadTensor(data, offset, padded).Ok?
    ensures var r := LoadTensor(data, offset, padded).value;
            && (EndsInRange(r) <==> r.bytes >= 0 && r.next == r.payload + r.bytes)
            && (EndsInRange(r) ==> r.next >= r.start + 12)
  {
    hide LoadTensor, Wrap;
    RecordPlace(data, offset, padded);
  }

  predicate Tiled(records: seq<Record>, start: int, end: int)
    decreases |records|
  {
    if records == [] then end == start
    else records[0].start == start && Tiled(records[1..], records[0].next, end)
  }

  // The records of a finished walk follow one another without a gap, from its start to its end, which
  // is at or behind the end of the file.
  lemma {:induction false} WalkTiles(data: Bytes, start: int, padded: bool, steps: nat)
    requires WalkFrom(data, start, padded, steps).Done?
    ensures var w := WalkFrom(data, start, padded, steps);
            && Tiled(w.records, start, w.end) && w.end >= |data|
            && forall i: nat | i < |w.records| ::
                 w.records[i].start < |data| && LoadTensor(data, w.records[i].start, padded) == Ok(w.records[i])
    decreases steps
  {
    hide LoadTensor;
    if start < |data| {
      RecordStart(data, start, padded);
      var r := LoadTensor(data, start, padded).value;
      WalkTiles(data, r.next, padded, steps - 1);
      var rest := WalkFrom(data, r.next, padded, steps - 1);
      assert WalkFrom(data, start, padded, steps).records[1..] == rest.records;
      assert forall i: nat | 0 < i < |rest.records| + 1 :: ([r] + rest.records)[i] == rest.records[i - 1];
    }
  }

  lemma RecordStart(data: Bytes, offset: int, padded: bool)
    requires LoadTensor(data, offset, padded).Ok?
    ensures LoadTensor(data, offset, padded).value.start == offset
  {
    RecordPlace(data, offset, padded);
  }

  predicate AllInRange(records: seq<Record>) {
    forall i: nat | i < |records| :: EndsInRange(records[i])
  }

  predicate Loaded(data: Bytes, padded: bool, records: seq<Record>) {
    forall i: nat | i < |records| :: LoadTensor(data, records[i].start, padded) == Ok(records[i])
  }

  lemma FirstOfTiled(data: Bytes, padded: bool, records: seq<Record>, start: int, end: int)
    requires start >= 0 && Tiled(records, start, end) && AllInRange(records) && Loaded(data, padded, records)
    requires records != []
    ensures var r, rest := records[0], records[1..];
            && r.start == start && r.next == r.payload + r.bytes && start + 12 <= r.next
            && Tiled(rest, r.next, end) && AllInRange(rest) && Loaded(data, padded, rest)
  {
    hide LoadTensor, EndsInRange;
    assert EndsInRange(records[0]) && LoadTensor(data, records[0].start, padded) == Ok(records[0]);
    RecordEnd(data, start, padded);
    assert forall k: nat | k < |records| - 1 :: records[1..][k] == records[k + 1];
  }

  lemma {:induction false} TiledPlaces(data: Bytes, padded: bool, records: seq<Record>, start: int, end: int, i: nat)
    requires start >= 0 && Tiled(records, start, end) && AllInRange(records) && Loaded(data, padded, records)
    requires i < |records|
    ensures start <= records[i].start && records[i].next == records[i].payload + records[i].bytes
    decreases |records|
  {
    hide LoadTensor, EndsInRange, AllInRange, Loaded;
    FirstOfTiled(data, padded, records, start, end);
    if i > 0 {
      TiledPlaces(data, padded, records[1..], records[0].next, end, i - 1);
    }
  }

  lemma {:induction false} TiledOrder(data: Bytes, padded: bool, records: seq<Record>, start: int, end: int, i: nat, k: nat)
    requires start >= 0 && Tiled(records, start, end) && AllInRange(records) && Loaded(data, padded, records)
    requires i < k < |records|
    ensures records[i].next <= records[k].start
    decreases |records|
  {
    hide LoadTensor, EndsInRange, AllInRange, Loaded;
    FirstOfTiled(data, padded, records, start, end);
    if i > 0 {
      TiledOrder(data, padded, records[1..], records[0].next, end, i - 1, k - 1);
    } else {
      TiledPlaces(data, padded, records[1..], records[0].next, end, k - 1);
    }
  }

  // Every record ends where its payload does, and no payload reaches into a later record.
  predicate Ascending(records: seq<Record>) {
    && (forall i: nat | i < |records| :: records[i].bytes >= 0 && records[i].next == records[i].payload + records[i].bytes)
    && (forall i: nat, k: nat | i < k < |records| ::
          records[i].payload + records[i].bytes <= records[k].start < records[k].payload)
  }

  // A walk that finishes finds ascending payloads that do not overlap if and only if the size and the
  // end of every record are in range. In a GGJT file the payloads are aligned in any case.
  lemma PayloadsAscend(data: Bytes, start: nat, format: Format, steps: nat)
    requires WalkFrom(data, start, format == GGJT, steps).Done?
    ensures var rs := WalkFrom(data, start, format == GGJT, steps).records;
            && (Ascending(rs) <==> AllInRange(rs))
            && (format == GGJT ==> forall i: nat | i < |rs| :: rs[i].payload % 32 == 0)
  {
    hide LoadTensor, WalkFrom;
    var padded := format == GGJT;
    var w := WalkFrom(data, start, padded, steps);
    var rs := w.records;
    WalkTiles(data, start, padded, steps);
    assert Loaded(data, padded, rs);
    forall i: nat | i < |rs|
      ensures rs[i].start < rs[i].payload && (padded ==> rs[i].payload % 32 == 0)
      ensures rs[i].next < TWO_63
    {
      RecordPlace(data, rs[i].start, padded);
    }
    if AllInRange(rs) {
      forall i: nat | i < |rs|
        ensures rs[i].next == rs[i].payload + rs[i].bytes
      {
        TiledPlaces(data, padded, rs, start, w.end, i);
      }
      forall i: nat, k: nat | i < k < |rs|
        ensures rs[i].next <= rs[k].start
      {
        TiledOrder(data, padded, rs, start, w.end, i, k);
      }
    }
  }

  // Records that end in range make progress, so a walk over them ends within as many records as the
  // file has bytes.
  lemma {:induction false} WalkInRangeEnds(data: Bytes, start: nat, padded: bool, steps: nat)
    requires steps + start >= |data|
    requires forall k: nat | OffsetAt(data, start, padded, k).Some? && LoadTensor(data, OffsetAt(data, start, padded, k).value, padded).Ok? ::
               EndsInRange(LoadTensor(data, OffsetAt(data, start, padded, k).value, padded).value)
    ensures !WalkFrom(data, start, padded, steps).Running?
    decreases steps
  {
    hide LoadTensor, EndsInRange;
    if start < |data| && LoadTensor(data, start, padded).Ok? {
      assert OffsetAt(data, start, padded, 0) == Some(start);
      RecordEnd(data, start, padded);
      RecordStart(data, start, padded);
      var next := LoadTensor(data, start, padded).value.next;
      forall k: nat | OffsetAt(data, next, padded, k).Some? && LoadTensor(data, OffsetAt(data, next, padded, k).value, padded).Ok?
        ensures EndsInRange(LoadTensor(data, OffsetAt(data, next, padded, k).value, padded).value)
      {
        OffsetAfter(data, start, padded, k);
      }
      WalkInRangeEnds(data, next, padded, steps - 1);
    }
  }

  // ---------- two files that lead the walk back ----------

  // Two dimensions whose size in bytes, of four to an element, wraps around to -32.
  const OVERFLOWING: seq<nat> := [2290087800, 4027518961]

  lemma OverflowingSize()
    ensures Tensors.Prod(OVERFLOWING) == 9223372036854775800
    ensures Wrap(Wrap(9223372036854775800) * 4) / 1 == -32
  {
    assert OVERFLOWING[..1] == [2290087800] && OVERFLOWING[..1][..0] == [];
    assert Tensors.Prod([2290087800]) == 2290087800;
  }

  // Where a record with a written header of a type of four bytes an element ends.
  lemma WrittenRecord(data: Bytes, offset: nat, dims: seq<nat>, name: Bytes)
    requires Stands(data, offset, dims, name, 0)
    ensures var r := LoadTensor(data, offset, false);
            && r.Ok? && r.value.start == offset && r.value.payload == offset + 12 + 4 * |dims| + |name|
            && r.value.bytes == Wrap(Wrap(Tensors.Prod(dims)) * 4) / 1
            && r.value.next == Wrap(r.value.payload + r.value.bytes)
  {
    hide LoadTensor, Stands, Tensors.Prod, Wrap;
    HeaderRoundTrip(data, offset, dims, name, 0, false);
    RecordPlace(data, offset, false);
    RecordBytes(data, offset, false);
  }

  lemma StandsIn(prefix: Bytes, dims: seq<nat>, name: Bytes, rest: Bytes)
    requires |dims| <= 4 && |name| < 4096 && forall i: nat | i < |dims| :: dims[i] < 0x1_0000_0000
    ensures Stands(prefix + Header(dims, name, 0) + rest, |prefix|, dims, name, 0)
  {
    hide Header;
    var h := Header(dims, name, 0);
    assert (prefix + h + rest)[|prefix|..|prefix| + |h|] == h;
  }

  // After whatever the loader has read before, a record of these dimensions and a name of twelve bytes
  // ends where it starts: the walk does not move.
  lemma WalkCanBeStuck(prefix: Bytes, name: Bytes, rest: Bytes, steps: nat)
    requires |name| == 12 && |prefix| < 0x1000_0000_0000
    ensures WalkFrom(prefix + Header(OVERFLOWING, name, 0) + rest, |prefix|, false, steps).Running?
  {
    hide LoadTensor, Header, Stands, Tensors.Prod;
    var data, at := prefix + Header(OVERFLOWING, name, 0) + rest, |prefix|;
    OverflowingSize();
    StandsIn(prefix, OVERFLOWING, name, rest);
    WrittenRecord(data, at, OVERFLOWING, name);
    assert OffsetAt(data, at, false, 0) == Some(at) == OffsetAt(data, at, false, 1);
    assert Returns(data, at, false, 0, 1);
    ReturnsForever(data, at, false, 0, 1, steps);
    RunningIsOffset(data, at, false, steps);
  }

  // A record without dimensions or a name, and the four bytes of its one element.
  const SCALAR: Bytes := Header([], [], 0) + [0, 0, 0, 0]

  lemma ScalarRecord(prefix: Bytes, rest: Bytes)
    requires |prefix| < 0x1000_0000_1000
    ensures var r := LoadTensor(prefix + SCALAR + rest, |prefix|, false);
            r.Ok? && r.value.payload == |prefix| + 12 && r.value.bytes == 4 && r.value.next == |prefix| + 16
  {
    hide LoadTensor, Header, Stands;
    assert prefix + SCALAR + rest == prefix + Header([], [], 0) + ([0, 0, 0, 0] + rest);
    StandsIn(prefix, [], [], [0, 0, 0, 0] + rest);
    WrittenRecord(prefix + SCALAR + rest, |prefix|, [], []);
    assert Tensors.Prod([]) == 1;
  }

  // The same dimensions with a name that holds two records of its own. The walk goes back to the start
  // of the name, reads those, and finishes: the first payload lies behind the second.
  lemma WalkCanGoBack(prefix: Bytes)
    requires |prefix| < 0x1000_0000_0000
    ensures var w := WalkFrom(prefix + Header(OVERFLOWING, SCALAR + SCALAR, 0), |prefix|, false, 3);
            && w.Done? && |w.records| == 3 && w.records[0].payload == |prefix| + 52 > w.records[1].payload == |prefix| + 32
            && !Ascending(w.records)
  {
    hide LoadTensor, Stands, Tensors.Prod, Header;
    var data, at := prefix + Header(OVERFLOWING, SCALAR + SCALAR, 0), |prefix|;
    var head := Header(OVERFLOWING, SCALAR + SCALAR, 0)[..20];
    OverflowingSize();
    StandsIn(prefix, OVERFLOWING, SCALAR + SCALAR, []);
    assert data + [] == data;
    WrittenRecord(data, at, OVERFLOWING, SCALAR + SCALAR);
    HeaderSplit(OVERFLOWING, SCALAR + SCALAR);
    assert data == (prefix + head) + SCALAR + SCALAR;
    ScalarRecord(prefix + head, SCALAR);
    assert data == (prefix + head + SCALAR) + SCALAR + [];
    ScalarRecord(prefix + head + SCALAR, []);
    var r0, r1, r2 := LoadTensor(data, at, false).value, LoadTensor(data, at + 20, false).value, LoadTensor(data, at + 36, false).value;
    assert WalkFrom(data, at + 52, false, 0) == Done([], at + 52);
    assert WalkFrom(data, at + 36, false, 1) == Done([r2], at + 52);
    assert WalkFrom(data, at + 20, false, 2) == Done([r1, r2], at + 52);
    assert WalkFrom(data, at, false, 3) == Done([r0, r1, r2], at + 52);
  }

  lemma HeaderSplit(dims: seq<nat>, name: Bytes)
    requires |dims| == 2 && |name| < 4096 && forall i: nat | i < |dims| :: dims[i] < 0x1_0000_0000
    ensures Header(dims, name, 0) == Header(dims, name, 0)[..20] + name
  {
  }
}
