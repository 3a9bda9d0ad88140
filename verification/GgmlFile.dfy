/** The legacy GGML, GGMF and GGJT layouts, as convert_llama_ggml_to_gguf.py reads them. */
module GgmlFile {
  import opened Wrappers
  import opened GgmlBytes

  // ---------- what is read

  datatype Format = GGML | GGMF | GGJT

  datatype Header = Header(format: Format, version: nat)

  datatype Hparams = Hparams(nVocab: U32, nEmbd: U32, nMult: U32, nHead: U32, nLayer: U32, nRot: U32, ftype: U32)

  /** A vocabulary entry; the score is a float by its bits, and 0.0 when the format has none. */
  datatype Item = Item(text: seq<Byte>, score: U32)

  datatype TensorInfo = TensorInfo(name: seq<Byte>, dims: seq<U32>, dtype: U32, start: nat, len: nat)

  datatype Model = Model(header: Header, hp: Hparams, items: seq<Item>, tensors: seq<TensorInfo>,
                         index: map<seq<Byte>, nat>, nFf: U32)

  const GGUF_MAGIC: seq<Byte> := [71, 71, 85, 70]
  const GGML_MAGIC: seq<Byte> := [108, 109, 103, 103]
  const GGMF_MAGIC: seq<Byte> := [102, 109, 103, 103]
  const GGJT_MAGIC: seq<Byte> := [116, 106, 103, 103]

  /** layers.0.feed_forward.w1.weight */
  const FF_NAME: seq<Byte> :=
    [108, 97, 121, 101, 114, 115, 46, 48, 46, 102, 101, 101, 100, 95, 102, 111, 114, 119, 97, 114, 100, 46,
     119, 49, 46, 119, 101, 105, 103, 104, 116]

  predicate HasScores(h: Header) {
    h.format != GGML
  }

  predicate UsesPadding(h: Header) {
    h.format == GGJT
  }

  predicate ValidFtype(ftype: U32) {
    ftype <= 4 || 7 <= ftype <= 18
  }

  const QK_K: nat := 256

  /** Elements in a block and bytes of a block, for each tensor type. */
  function QuantSize(dtype: U32): (r: Option<(nat, nat)>)
    ensures r.Some? ==> r.value.0 > 0
  {
    match dtype
    case 0 => Some((1, 4))
    case 1 => Some((1, 2))
    case 2 => Some((32, 2 + 16))
    case 3 => Some((32, 2 + 2 + 16))
    case 6 => Some((32, 2 + 4 + 16))
    case 7 => Some((32, 2 + 2 + 4 + 16))
    case 8 => Some((32, 2 + 32))
    case 9 => Some((32, 4 + 4 + 32))
    case 10 => Some((256, 2 + 2 + QK_K / 16 + QK_K / 4))
    case 11 => Some((256, 2 + QK_K / 4 + QK_K / 8 + 12))
    case 12 => Some((256, 2 + 2 + QK_K / 2 + 12))
    case 13 => Some((256, 2 + 2 + QK_K / 2 + QK_K / 8 + 12))
    case 14 => Some((256, 2 + QK_K / 2 + QK_K / 4 + QK_K / 16))
    case 15 => Some((256, 4 + QK_K + QK_K / 8))
    case 16 => Some((256, 2 + QK_K / 4))
    case 17 => Some((256, 2 + QK_K / 4 + QK_K / 32))
    case 18 => Some((256, 2 + QK_K / 4 + QK_K / 8))
    case 19 => Some((256, 2 + QK_K / 8 + QK_K / 16))
    case 20 => Some((32, 2 + 16))
    case 21 => Some((256, 2 + QK_K / 4 + QK_K / 8 + QK_K / 32 + 4))
    case 22 => Some((256, 2 + QK_K / 4 + QK_K / 16))
    case 23 => Some((256, 2 + 2 + QK_K / 2 + QK_K / 64))
    case 24 => Some((1, 1))
    case 25 => Some((1, 2))
    case 26 => Some((1, 4))
    case 27 => Some((1, 8))
    case 28 => Some((1, 8))
    case 29 => Some((256, QK_K / 8 + QK_K / 16 + QK_K / 32))
    case 30 => Some((1, 2))
    case 34 => Some((256, 2 + 4 * 13))
    case 35 => Some((256, 2 + 64))
    case 39 => Some((32, 1 + 16))
    case 40 => Some((64, 4 + 32))
    case 41 => Some((128, 2 + 16))
    case 42 => Some((64, 2 + 16))
    case _ => None
  }

  function Product(dims: seq<U32>): nat {
    if dims == [] then 1 else dims[0] * Product(dims[1..])
  }

  function ByteCount(dims: seq<U32>, size: (nat, nat)): nat
    requires size.0 > 0
  {
    Product(dims) * size.1 / size.0
  }

  /** (offset + 31) & ~31 */
  function AlignUp(offset: nat): (r: nat)
    ensures offset <= r < offset + 32 && r % 32 == 0
  {
    (offset + 31) / 32 * 32
  }

  // ---------- reading

  function ReadHeader(data: seq<Byte>, offset: nat): Result<(Header, nat), Error> {
    var magic := Slice(data, offset, 4);
    if magic == GGUF_MAGIC then Err(AlreadyGguf)
    else if magic == GGML_MAGIC then Ok((Header(GGML, 1), offset + 4))
    else
      var version :- Read32(data, offset + 4);
      if magic == GGMF_MAGIC then
        if version != 1 then Err(BadVersion) else Ok((Header(GGMF, version), offset + 8))
      else if magic == GGJT_MAGIC then
        if version < 1 || version > 3 then Err(BadVersion) else Ok((Header(GGJT, version), offset + 8))
      else Err(BadMagic)
  }

  function ReadHparams(data: seq<Byte>, offset: nat): Result<(Hparams, nat), Error> {
    var v :- ReadMany(data, offset, 7);
    if ValidFtype(v[6]) then Ok((Hparams(v[0], v[1], v[2], v[3], v[4], v[5], v[6]), offset + 28))
    else Err(InvalidFtype)
  }

  /** Whether a file of this version and ftype can be converted: quantisations changed in GGJT 2 and 3. */
  predicate Convertible(h: Header, ftype: U32) {
    if h.format != GGJT || h.version < 2 then ftype <= 1
    else if h.version == 2 then ftype !in {2, 3, 4, 7}
    else true
  }

  function ReadItem(data: seq<Byte>, offset: nat, scores: bool): Result<(Item, nat), Error> {
    var len :- Read32(data, offset);
    if len >= 4096 then Err(AbsurdItem)
    else
      var text := Slice(data, offset + 4, len);
      if !scores then Ok((Item(text, 0), offset + 4 + len))
      else
        var score :- Read32(data, offset + 4 + len);
        Ok((Item(text, score), offset + 8 + len))
  }

  function ReadItems(data: seq<Byte>, offset: nat, n: nat, scores: bool): Result<(seq<Item>, nat), Error>
    decreases n
  {
    if n == 0 then Ok(([], offset))
    else
      var first :- ReadItem(data, offset, scores);
      var rest :- ReadItems(data, first.1, n - 1, scores);
      Ok(([first.0] + rest.0, rest.1))
  }

  function ReadTensor(data: seq<Byte>, offset: nat, padding: bool): (r: Result<(TensorInfo, nat), Error>)
    ensures r.Ok? ==> offset + 12 <= r.value.0.start && r.value.1 == r.value.0.start + r.value.0.len
  {
    var head :- ReadMany(data, offset, 3);
    if head[0] > 4 then Err(BadDims)
    else if head[1] >= 4096 then Err(AbsurdName)
    else if QuantSize(head[2]).None? then Err(UnknownType)
    else
      var dims :- ReadMany(data, offset + 12, head[0]);
      var name := Slice(data, offset + 12 + 4 * head[0], head[1]);
      var here := offset + 12 + 4 * head[0] + head[1];
      var start := if padding then AlignUp(here) else here;
      var len := ByteCount(dims, QuantSize(head[2]).value);
      Ok((TensorInfo(name, dims, head[2], start, len), start + len))
  }

  function ReadTensors(data: seq<Byte>, offset: nat, padding: bool): Result<(seq<TensorInfo>, nat), Error>
    decreases |data| - offset
  {
    if offset >= |data| then Ok(([], offset))
    else
      var first :- ReadTensor(data, offset, padding);
      var rest :- ReadTensors(data, first.1, padding);
      Ok(([first.0] + rest.0, rest.1))
  }

  /** Position of the last tensor of each name. */
  function Index(tensors: seq<TensorInfo>): (r: map<seq<Byte>, nat>)
    ensures forall name :: name in r ==> r[name] < |tensors|
    decreases |tensors|
  {
    if tensors == [] then map[]
    else
      var n := |tensors| - 1;
      Index(tensors[..n])[tensors[n].name := n]
  }

  lemma {:induction false} IndexIsLast(tensors: seq<TensorInfo>, name: seq<Byte>)
    ensures name in Index(tensors) <==> exists k :: 0 <= k < |tensors| && tensors[k].name == name
    ensures name in Index(tensors) ==> LastNamed(tensors, name, Index(tensors)[name])
    decreases |tensors|
  {
    if tensors != [] {
      var n := |tensors| - 1;
      var front := tensors[..n];
      assert forall k :: 0 <= k < n ==> front[k] == tensors[k];
      IndexIsLast(front, name);
      if name in Index(tensors) && tensors[n].name != name {
        var k := Index(front)[name];
        assert tensors[k] == front[k];
      }
      assert tensors[n].name == name ==> name in Index(tensors);
    }
  }

  predicate LastNamed(tensors: seq<TensorInfo>, name: seq<Byte>, k: nat) {
    k < |tensors| && tensors[k].name == name && forall j :: k < j < |tensors| ==> tensors[j].name != name
  }

  function FeedForward(tensors: seq<TensorInfo>, index: map<seq<Byte>, nat>): Result<U32, Error>
    requires forall name :: name in index ==> index[name] < |tensors|
  {
    if FF_NAME !in index then Err(NoFeedForward)
    else if |tensors[index[FF_NAME]].dims| < 2 then Err(NoSecondDim)
    else Ok(tensors[index[FF_NAME]].dims[1])
  }

  datatype Parts = Parts(header: Header, hp: Hparams, items: seq<Item>, tensors: seq<TensorInfo>)

  function ReadParts(data: seq<Byte>, offset: nat): Result<(Parts, nat), Error> {
    var h :- ReadHeader(data, offset);
    var hp :- ReadHparams(data, h.1);
    if !Convertible(h.0, hp.0.ftype) then Err(NotConvertible)
    else
      var items :- ReadItems(data, hp.1, hp.0.nVocab, HasScores(h.0));
      var tensors :- ReadTensors(data, items.1, UsesPadding(h.0));
      Ok((Parts(h.0, hp.0, items.0, tensors.0), tensors.1))
  }

  function ReadModel(data: seq<Byte>, offset: nat): Result<(Model, nat), Error> {
    var r :- ReadParts(data, offset);
    var (p, end) := r;
    var nFf :- FeedForward(p.tensors, Index(p.tensors));
    Ok((Model(p.header, p.hp, p.items, p.tensors, Index(p.tensors), nFf), end))
  }

  // ---------- writing

  /** A tensor with its data, as it would be put into a file. */
  datatype Tensor = Tensor(name: seq<Byte>, dims: seq<U32>, dtype: U32, data: seq<Byte>)

  datatype Source = Source(header: Header, hp: Hparams, items: seq<Item>, tensors: seq<Tensor>)

  predicate ValidHeader(h: Header) {
    match h.format
    case GGJT => 1 <= h.version <= 3
    case _ => h.version == 1
  }

  predicate ValidItem(item: Item, scores: bool) {
    |item.text| < 4096 && (scores || item.score == 0)
  }

  predicate ValidTensor(t: Tensor) {
    && |t.name| < 4096 && |t.dims| <= 4
    && QuantSize(t.dtype).Some? && |t.data| == ByteCount(t.dims, QuantSize(t.dtype).value)
  }

  function Magic(format: Format): (r: seq<Byte>)
    ensures |r| == 4
  {
    match format
    case GGML => GGML_MAGIC
    case GGMF => GGMF_MAGIC
    case GGJT => GGJT_MAGIC
  }

  function WriteHeader(h: Header): seq<Byte>
    requires ValidHeader(h)
  {
    Magic(h.format) + if h.format == GGML then [] else Le32(h.version)
  }

  function Fields(hp: Hparams): seq<U32> {
    [hp.nVocab, hp.nEmbd, hp.nMult, hp.nHead, hp.nLayer, hp.nRot, hp.ftype]
  }

  function WriteItem(item: Item, scores: bool): seq<Byte>
    requires ValidItem(item, scores)
  {
    Le32(|item.text|) + (item.text + if scores then Le32(item.score) else [])
  }

  function WriteItems(items: seq<Item>, scores: bool): seq<Byte>
    requires forall k :: 0 <= k < |items| ==> ValidItem(items[k], scores)
  {
    if items == [] then [] else WriteItem(items[0], scores) + WriteItems(items[1..], scores)
  }

  function DataStart(t: Tensor, offset: nat, padding: bool): nat {
    var here := offset + 12 + 4 * |t.dims| + |t.name|;
    if padding then AlignUp(here) else here
  }

  function Zeros(n: nat): (r: seq<Byte>)
    ensures |r| == n
  {
    seq(n, _ => 0)
  }

  function TensorHead(t: Tensor): (r: seq<Byte>)
    requires ValidTensor(t)
    ensures |r| == 12
  {
    WriteMany([|t.dims|, |t.name|, t.dtype])
  }

  function WriteTensor(t: Tensor, offset: nat, padding: bool): (r: seq<Byte>)
    requires ValidTensor(t)
    ensures offset + |r| == DataStart(t, offset, padding) + |t.data|
  {
    var here := offset + 12 + 4 * |t.dims| + |t.name|;
    TensorHead(t) + (WriteMany(t.dims) + (t.name + (Zeros(DataStart(t, offset, padding) - here) + t.data)))
  }

  function WriteTensors(ts: seq<Tensor>, offset: nat, padding: bool): seq<Byte>
    requires forall k :: 0 <= k < |ts| ==> ValidTensor(ts[k])
  {
    if ts == [] then []
    else
      var w := WriteTensor(ts[0], offset, padding);
      w + WriteTensors(ts[1..], offset + |w|, padding)
  }

  function InfoOf(t: Tensor, offset: nat, padding: bool): TensorInfo {
    TensorInfo(t.name, t.dims, t.dtype, DataStart(t, offset, padding), |t.data|)
  }

  /** Where each tensor of the list comes to lie. */
  function InfosOf(ts: seq<Tensor>, offset: nat, padding: bool): (r: seq<TensorInfo>)
    ensures |r| == |ts|
    ensures forall k :: 0 <= k < |ts| ==>
      r[k].name == ts[k].name && r[k].dims == ts[k].dims && r[k].dtype == ts[k].dtype && r[k].len == |ts[k].data|
  {
    if ts == [] then []
    else [InfoOf(ts[0], offset, padding)] + InfosOf(ts[1..], DataStart(ts[0], offset, padding) + |ts[0].data|, padding)
  }

  // ---------- reading back

  lemma HeaderReadsBack(data: seq<Byte>, offset: nat, h: Header)
    requires ValidHeader(h) && At(data, offset, WriteHeader(h))
    ensures ReadHeader(data, offset) == Ok((h, offset + |WriteHeader(h)|))
  {
    hide At, Read32, Le32, Slice;
    var m := Magic(h.format);
    assert GGML_MAGIC != GGUF_MAGIC && GGMF_MAGIC != GGUF_MAGIC && GGJT_MAGIC != GGUF_MAGIC by {
      assert GGML_MAGIC[0] != GGUF_MAGIC[0] && GGMF_MAGIC[0] != GGUF_MAGIC[0] && GGJT_MAGIC[0] != GGUF_MAGIC[0];
    }
    assert GGMF_MAGIC != GGML_MAGIC && GGJT_MAGIC != GGML_MAGIC && GGJT_MAGIC != GGMF_MAGIC by {
      assert GGMF_MAGIC[0] != GGML_MAGIC[0] && GGJT_MAGIC[0] != GGML_MAGIC[0] && GGJT_MAGIC[0] != GGMF_MAGIC[0];
    }
    if h.format == GGML {
      assert WriteHeader(h) == m;
      AtEnds(data, offset, m);
    } else {
      AtSplit(data, offset, m, Le32(h.version));
      AtEnds(data, offset, m);
      ReadBack32(data, offset + 4, h.version);
    }
  }

  lemma HparamsReadBack(data: seq<Byte>, offset: nat, hp: Hparams)
    requires ValidFtype(hp.ftype) && At(data, offset, WriteMany(Fields(hp)))
    ensures ReadHparams(data, offset) == Ok((hp, offset + 28))
  {
    hide At, WriteMany, ReadMany;
    ReadBackMany(data, offset, Fields(hp));
  }

  lemma ItemReadsBack(data: seq<Byte>, offset: nat, item: Item, scores: bool)
    requires ValidItem(item, scores) && At(data, offset, WriteItem(item, scores))
    ensures ReadItem(data, offset, scores) == Ok((item, offset + |WriteItem(item, scores)|))
  {
    hide At, Read32, Le32, Slice;
    var tail := if scores then Le32(item.score) else [];
    AtSplit(data, offset, Le32(|item.text|), item.text + tail);
    AtSplit(data, offset + 4, item.text, tail);
    ReadBack32(data, offset, |item.text|);
    AtEnds(data, offset + 4, item.text);
    if scores {
      ReadBack32(data, offset + 4 + |item.text|, item.score);
    }
  }

  lemma {:induction false} ItemsReadBack(data: seq<Byte>, offset: nat, items: seq<Item>, scores: bool)
    requires forall k :: 0 <= k < |items| ==> ValidItem(items[k], scores)
    requires At(data, offset, WriteItems(items, scores))
    ensures ReadItems(data, offset, |items|, scores) == Ok((items, offset + |WriteItems(items, scores)|))
    decreases |items|
  {
    hide At, WriteItem, ReadItem, ValidItem;
    if items != [] {
      var w := WriteItem(items[0], scores);
      AtSplit(data, offset, w, WriteItems(items[1..], scores));
      ItemReadsBack(data, offset, items[0], scores);
      ItemsReadBack(data, offset + |w|, items[1..], scores);
      assert items == [items[0]] + items[1..];
    }
  }

  /** The file holds the data of t where info says. */
  predicate HoldsData(data: seq<Byte>, info: TensorInfo, t: Tensor) {
    info.len == |t.data| && At(data, info.start, t.data)
  }

  /** All of a record before the padding and the data. */
  function RecordHead(t: Tensor): (r: seq<Byte>)
    requires ValidTensor(t)
    ensures |r| == 12 + 4 * |t.dims| + |t.name|
  {
    TensorHead(t) + (WriteMany(t.dims) + t.name)
  }

  lemma RecordSplits(t: Tensor, offset: nat, padding: bool)
    requires ValidTensor(t)
    ensures var here := offset + |RecordHead(t)|;
      DataStart(t, offset, padding) >= here &&
      WriteTensor(t, offset, padding) == RecordHead(t) + (Zeros(DataStart(t, offset, padding) - here) + t.data)
  {
    hide TensorHead, WriteMany, AlignUp, Zeros;
    var here := offset + 12 + 4 * |t.dims| + |t.name|;
    var rest := Zeros(DataStart(t, offset, padding) - here) + t.data;
    assert TensorHead(t) + (WriteMany(t.dims) + (t.name + rest)) == TensorHead(t) + (WriteMany(t.dims) + t.name) + rest;
  }

  /** Reading a record needs its head alone: the data is not looked at. */
  lemma HeadReadsBack(data: seq<Byte>, offset: nat, t: Tensor, padding: bool)
    requires ValidTensor(t) && At(data, offset, RecordHead(t))
    ensures ReadTensor(data, offset, padding) ==
            Ok((InfoOf(t, offset, padding), offset + |WriteTensor(t, offset, padding)|))
  {
    hide At, WriteMany, ReadMany, Slice, QuantSize, AlignUp, ByteCount;
    var dimsAt := offset + 12;
    var nameAt := dimsAt + 4 * |t.dims|;
    var head := [|t.dims|, |t.name|, t.dtype];
    AtSplit(data, offset, WriteMany(head), WriteMany(t.dims) + t.name);
    AtSplit(data, dimsAt, WriteMany(t.dims), t.name);
    ReadBackMany(data, offset, head);
    ReadBackMany(data, dimsAt, t.dims);
    AtEnds(data, nameAt, t.name);
  }

  lemma TensorReadsBack(data: seq<Byte>, offset: nat, t: Tensor, padding: bool)
    requires ValidTensor(t) && At(data, offset, WriteTensor(t, offset, padding))
    ensures ReadTensor(data, offset, padding) ==
            Ok((InfoOf(t, offset, padding), offset + |WriteTensor(t, offset, padding)|))
    ensures HoldsData(data, InfoOf(t, offset, padding), t)
  {
    hide At, WriteTensor, RecordHead, ReadTensor, ValidTensor, DataStart;
    RecordSplits(t, offset, padding);
    var here := offset + |RecordHead(t)|;
    var zeros := Zeros(DataStart(t, offset, padding) - here);
    AtSplit(data, offset, RecordHead(t), zeros + t.data);
    AtSplit(data, here, zeros, t.data);
    HeadReadsBack(data, offset, t, padding);
  }

  lemma {:induction false} TensorsReadBack(data: seq<Byte>, offset: nat, ts: seq<Tensor>, padding: bool)
    requires forall k :: 0 <= k < |ts| ==> ValidTensor(ts[k])
    requires At(data, offset, WriteTensors(ts, offset, padding))
    requires offset + |WriteTensors(ts, offset, padding)| == |data|
    ensures ReadTensors(data, offset, padding) == Ok((InfosOf(ts, offset, padding), |data|))
    ensures forall k :: 0 <= k < |ts| ==> HoldsData(data, InfosOf(ts, offset, padding)[k], ts[k])
    decreases |ts|
  {
    hide At, WriteTensor, ReadTensor, ValidTensor, HoldsData, DataStart;
    if ts != [] {
      var t := ts[0];
      var w := WriteTensor(t, offset, padding);
      var next := offset + |w|;
      AtSplit(data, offset, w, WriteTensors(ts[1..], next, padding));
      TensorReadsBack(data, offset, t, padding);
      TensorNotEmpty(t, offset, padding);
      TensorsReadBack(data, next, ts[1..], padding);
      forall k | 0 <= k < |ts| ensures HoldsData(data, InfosOf(ts, offset, padding)[k], ts[k]) {
        if k > 0 {
          assert HoldsData(data, InfosOf(ts[1..], next, padding)[k - 1], ts[1..][k - 1]);
        }
      }
    }
  }

  lemma TensorNotEmpty(t: Tensor, offset: nat, padding: bool)
    requires ValidTensor(t)
    ensures |WriteTensor(t, offset, padding)| >= 12
  {
  }

  ghost predicate ValidSource(s: Source) {
    && ValidHeader(s.header) && ValidFtype(s.hp.ftype) && Convertible(s.header, s.hp.ftype)
    && |s.items| == s.hp.nVocab
    && (forall k :: 0 <= k < |s.items| ==> ValidItem(s.items[k], HasScores(s.header)))
    && (forall k :: 0 <= k < |s.tensors| ==> ValidTensor(s.tensors[k]))
    && (exists k :: 0 <= k < |s.tensors| && GivesFeedForward(s.tensors, k))
  }

  /** The last tensor under the feed-forward name, which must have a second dimension. */
  predicate GivesFeedForward(ts: seq<Tensor>, k: nat)
    requires k < |ts|
  {
    ts[k].name == FF_NAME && |ts[k].dims| >= 2 && forall j :: k < j < |ts| ==> ts[j].name != FF_NAME
  }

  function TensorsAt(s: Source): nat
    requires ValidSource(s)
  {
    |WriteHeader(s.header)| + 28 + |WriteItems(s.items, HasScores(s.header))|
  }

  function WriteSource(s: Source): seq<Byte>
    requires ValidSource(s)
  {
    WriteHeader(s.header) + (WriteMany(Fields(s.hp)) + (WriteItems(s.items, HasScores(s.header)) +
      WriteTensors(s.tensors, TensorsAt(s), UsesPadding(s.header))))
  }

  /** Loading a written file gives back everything that was written, and stops at its last byte. */
  lemma LoadInvertsWrite(s: Source) returns (m: Model)
    requires ValidSource(s)
    ensures ReadModel(WriteSource(s), 0) == Ok((m, |WriteSource(s)|))
    ensures m.header == s.header && m.hp == s.hp && m.items == s.items && |m.tensors| == |s.tensors|
    ensures forall k :: 0 <= k < |s.tensors| ==>
      && m.tensors[k].name == s.tensors[k].name && m.tensors[k].dims == s.tensors[k].dims
      && m.tensors[k].dtype == s.tensors[k].dtype
      && HoldsData(WriteSource(s), m.tensors[k], s.tensors[k])
    ensures m.index == Index(m.tensors)
    ensures exists k :: 0 <= k < |s.tensors| && GivesFeedForward(s.tensors, k) && m.nFf == s.tensors[k].dims[1]
  {
    hide At, WriteTensors, ReadTensors, WriteItems, ReadItems, WriteMany, ReadHeader, ReadHparams, WriteHeader,
      ValidItem, ValidTensor, HoldsData, Convertible, FF_NAME, Index, GivesFeedForward;
    var data, scores, padding := WriteSource(s), HasScores(s.header), UsesPadding(s.header);
    var h, hp, items := WriteHeader(s.header), WriteMany(Fields(s.hp)), WriteItems(s.items, scores);
    var at := TensorsAt(s);
    var ts := WriteTensors(s.tensors, at, padding);
    WholeIsAt(data);
    AtSplit(data, 0, h, hp + (items + ts));
    AtSplit(data, |h|, hp, items + ts);
    AtSplit(data, |h| + 28, items, ts);
    HeaderReadsBack(data, 0, s.header);
    HparamsReadBack(data, |h|, s.hp);
    ItemsReadBack(data, |h| + 28, s.items, scores);
    TensorsReadBack(data, at, s.tensors, padding);
    var infos := InfosOf(s.tensors, at, padding);
    var k := FeedForwardFound(s.tensors, infos);
    m := Model(s.header, s.hp, s.items, infos, Index(infos), s.tensors[k].dims[1]);
  }

  lemma WholeIsAt(data: seq<Byte>)
    ensures At(data, 0, data)
  {
    assert data[0..|data|] == data;
  }

  lemma FeedForwardFound(ts: seq<Tensor>, infos: seq<TensorInfo>) returns (k: nat)
    requires |infos| == |ts|
    requires forall k :: 0 <= k < |ts| ==> infos[k].name == ts[k].name && infos[k].dims == ts[k].dims
    requires exists k :: 0 <= k < |ts| && GivesFeedForward(ts, k)
    ensures k < |ts| && GivesFeedForward(ts, k) && |ts[k].dims| >= 2
    ensures FeedForward(infos, Index(infos)) == Ok(ts[k].dims[1])
  {
    hide FF_NAME;
    k :| 0 <= k < |ts| && GivesFeedForward(ts, k);
    assert infos[k].name == FF_NAME;
    IndexIsLast(infos, FF_NAME);
    var i := Index(infos)[FF_NAME];
    assert i == k;
  }

  // ---------- every file that loads

  /** Records follow one another without overlap, each head before its data, and data aligned when padded. */
  ghost predicate LaidOut(tensors: seq<TensorInfo>, offset: nat, end: nat, padding: bool) {
    && (forall k :: 0 <= k < |tensors| ==> offset + 12 <= tensors[k].start && tensors[k].start + tensors[k].len <= end)
    && (forall j, k :: 0 <= j < k < |tensors| ==> tensors[j].start + tensors[j].len + 12 <= tensors[k].start)
    && (padding ==> forall k :: 0 <= k < |tensors| ==> tensors[k].start % 32 == 0)
    && (tensors != [] ==> Ends(tensors[|tensors| - 1]) == end)
  }

  function Ends(t: TensorInfo): nat {
    t.start + t.len
  }

  lemma {:induction false} RecordsLaidOut(data: seq<Byte>, offset: nat, padding: bool)
    requires ReadTensors(data, offset, padding).Ok?
    ensures var r := ReadTensors(data, offset, padding).value;
      && (offset >= |data| ==> r == ([], offset)) && r.1 >= offset
      && LaidOut(r.0, offset, r.1, padding)
      && r.1 >= |data| && (r.0 == [] <==> offset >= |data|)
      && (r.0 != [] ==> 12 * (|r.0| - 1) < |data| - offset)
    decreases |data| - offset
  {
    hide ReadTensor;
    if offset < |data| {
      var first := ReadTensor(data, offset, padding).value;
      TensorAligned(data, offset, padding);
      RecordsLaidOut(data, first.1, padding);
      var rest := ReadTensors(data, first.1, padding).value;
      LaidOutLed(first.0, rest.0, offset, first.1, rest.1, padding);
    }
  }

  lemma LaidOutLed(first: TensorInfo, rest: seq<TensorInfo>, offset: nat, next: nat, end: nat, padding: bool)
    requires offset + 12 <= first.start && next == Ends(first) <= end && (padding ==> first.start % 32 == 0)
    requires LaidOut(rest, next, end, padding) && (rest == [] ==> end == next)
    ensures LaidOut([first] + rest, offset, end, padding)
  {
    var all := [first] + rest;
    forall k | 0 <= k < |all|
      ensures offset + 12 <= all[k].start && Ends(all[k]) <= end && (padding ==> all[k].start % 32 == 0)
    {
      assert k > 0 ==> all[k] == rest[k - 1];
    }
    forall j, k | 0 <= j < k < |all| ensures Ends(all[j]) + 12 <= all[k].start {
      assert all[k] == rest[k - 1];
      assert j > 0 ==> all[j] == rest[j - 1];
    }
  }

  lemma TensorAligned(data: seq<Byte>, offset: nat, padding: bool)
    requires ReadTensor(data, offset, padding).Ok?
    ensures padding ==> ReadTensor(data, offset, padding).value.0.start % 32 == 0
  {
    hide ReadMany, Slice, QuantSize, ByteCount;
  }

  predicate Inside(tensors: seq<TensorInfo>, n: nat) {
    forall k :: 0 <= k < |tensors| ==> Ends(tensors[k]) <= n
  }

  /** A load succeeds past the last byte: a short last tensor is not noticed. Stopping exactly there tells them apart. */
  lemma StopsAtEndExactlyWhenWhole(data: seq<Byte>, offset: nat)
    requires ReadModel(data, offset).Ok?
    ensures var (m, end) := ReadModel(data, offset).value;
      && LaidOut(m.tensors, offset, end, UsesPadding(m.header))
      && end >= |data|
      && (end == |data| <==> Inside(m.tensors, |data|))
      && m.index == Index(m.tensors)
  {
    hide ReadTensors, ReadItems, ReadHeader, ReadHparams, Index;
    var h := ReadHeader(data, offset).value;
    var hp := ReadHparams(data, h.1).value;
    var items := ReadItems(data, hp.1, hp.0.nVocab, HasScores(h.0)).value;
    var tensors := ReadTensors(data, items.1, UsesPadding(h.0)).value;
    RecordsLaidOut(data, items.1, UsesPadding(h.0));
    HeadersAdvance(data, offset);
    HeadersAdvance(data, h.1);
    ItemsAdvance(data, hp.1, hp.0.nVocab, HasScores(h.0));
    assert tensors.0 != [] by {
      IndexNames(tensors.0, FF_NAME);
    }
    LaidOutFrom(tensors.0, items.1, offset, tensors.1, UsesPadding(h.0));
    if Inside(tensors.0, |data|) {
      assert Ends(tensors.0[|tensors.0| - 1]) <= |data|;
    }
  }

  lemma LaidOutFrom(tensors: seq<TensorInfo>, start: nat, offset: nat, end: nat, padding: bool)
    requires LaidOut(tensors, start, end, padding) && offset <= start
    ensures LaidOut(tensors, offset, end, padding)
  {
  }

  lemma IndexNames(tensors: seq<TensorInfo>, name: seq<Byte>)
    ensures name in Index(tensors) ==> tensors != []
  {
  }

  lemma HeadersAdvance(data: seq<Byte>, offset: nat)
    ensures ReadHeader(data, offset).Ok? ==> ReadHeader(data, offset).value.1 >= offset
    ensures ReadHparams(data, offset).Ok? ==> ReadHparams(data, offset).value.1 >= offset
    ensures forall scores :: ReadItem(data, offset, scores).Ok? ==> ReadItem(data, offset, scores).value.1 >= offset
  {
    hide Slice, ReadMany;
  }

  lemma {:induction false} ItemsAdvance(data: seq<Byte>, offset: nat, n: nat, scores: bool)
    requires ReadItems(data, offset, n, scores).Ok?
    ensures ReadItems(data, offset, n, scores).value.1 >= offset
    decreases n
  {
    hide ReadItem;
    if n > 0 {
      HeadersAdvance(data, offset);
      ItemsAdvance(data, ReadItem(data, offset, scores).value.1, n - 1, scores);
    }
  }

  // ---------- a file that is cut short

  lemma AtInPrefix(data: seq<Byte>, full: seq<Byte>, offset: nat, w: seq<Byte>)
    requires data <= full && At(full, offset, w) && offset + |w| <= |data|
    ensures At(data, offset, w)
  {
    assert data[offset..offset + |w|] == full[offset..offset + |w|];
  }

  lemma {:induction false} CutTensorsRead(data: seq<Byte>, full: seq<Byte>, offset: nat, ts: seq<Tensor>, padding: bool)
    requires (forall k :: 0 <= k < |ts| ==> ValidTensor(ts[k])) && ts != [] && ts[|ts| - 1].data != []
    requires data <= full && |full| == |data| + 1
    requires At(full, offset, WriteTensors(ts, offset, padding))
    requires offset + |WriteTensors(ts, offset, padding)| == |full|
    ensures ReadTensors(data, offset, padding) == Ok((InfosOf(ts, offset, padding), |data| + 1))
    decreases |ts|
  {
    hide At, WriteTensor, ReadTensor, ValidTensor, RecordHead, ReadTensors, InfosOf;
    var t := ts[0];
    var w := WriteTensor(t, offset, padding);
    var next := offset + |w|;
    AtSplit(full, offset, w, WriteTensors(ts[1..], next, padding));
    TensorNotEmpty(t, offset, padding);
    if |ts| > 1 {
      TensorNotEmpty(ts[1], next, padding);
      assert ts[1..][0] == ts[1] && ts[1..][|ts| - 2] == ts[|ts| - 1];
      CutHeadReads(data, full, offset, t, padding);
      CutTensorsRead(data, full, next, ts[1..], padding);
    } else {
      assert ts[1..] == [];
      CutHeadReads(data, full, offset, t, padding);
      NothingReads(data, next, padding);
    }
    FirstReads(data, offset, ts, padding, next, |data| + 1);
  }

  lemma NothingReads(data: seq<Byte>, offset: nat, padding: bool)
    requires offset >= |data|
    ensures ReadTensors(data, offset, padding) == Ok((InfosOf([], offset, padding), offset))
  {
  }

  lemma FirstReads(data: seq<Byte>, offset: nat, ts: seq<Tensor>, padding: bool, next: nat, end: nat)
    requires ts != [] && offset < |data| && ValidTensor(ts[0]) && next == offset + |WriteTensor(ts[0], offset, padding)|
    requires ReadTensor(data, offset, padding) == Ok((InfoOf(ts[0], offset, padding), next))
    requires ReadTensors(data, next, padding) == Ok((InfosOf(ts[1..], next, padding), end))
    ensures ReadTensors(data, offset, padding) == Ok((InfosOf(ts, offset, padding), end))
  {
    hide ReadTensor, ValidTensor, DataStart, WriteTensor;
    RecordSplits(ts[0], offset, padding);
  }

  /** A record is read although bytes of its data are missing. */
  lemma CutHeadReads(data: seq<Byte>, full: seq<Byte>, offset: nat, t: Tensor, padding: bool)
    requires ValidTensor(t) && data <= full && |full| == |data| + 1
    requires At(full, offset, WriteTensor(t, offset, padding))
    requires offset + |WriteTensor(t, offset, padding)| <= |data| || t.data != []
    ensures ReadTensor(data, offset, padding) == Ok((InfoOf(t, offset, padding), offset + |WriteTensor(t, offset, padding)|))
  {
    hide At, WriteTensor, ReadTensor, ValidTensor, DataStart, RecordHead;
    var w := WriteTensor(t, offset, padding);
    AtEnds(full, offset, w);
    RecordSplits(t, offset, padding);
    AtSplit(full, offset, RecordHead(t), w[|RecordHead(t)|..]);
    assert w == RecordHead(t) + w[|RecordHead(t)|..];
    AtInPrefix(data, full, offset, RecordHead(t));
    HeadReadsBack(data, offset, t, padding);
  }

  /** data is full without its last byte. */
  predicate CutOf(data: seq<Byte>, full: seq<Byte>) {
    |full| == |data| + 1 && data <= full
  }

  /** Where the parts of a written file stand. */
  ghost predicate Begins(data: seq<Byte>, s: Source)
    requires ValidSource(s)
  {
    var h, hp := WriteHeader(s.header), WriteMany(Fields(s.hp));
    At(data, 0, h) && At(data, |h|, hp) && At(data, |h| + 28, WriteItems(s.items, HasScores(s.header)))
  }

  lemma SourceBegins(s: Source)
    requires ValidSource(s)
    ensures var full, at, padding := WriteSource(s), TensorsAt(s), UsesPadding(s.header);
      && Begins(full, s) && At(full, at, WriteTensors(s.tensors, at, padding))
      && at + |WriteTensors(s.tensors, at, padding)| == |full|
  {
    hide At, WriteTensors, WriteItems, WriteMany, WriteHeader, ValidItem, ValidTensor, Convertible, FF_NAME,
      GivesFeedForward;
    var full, padding := WriteSource(s), UsesPadding(s.header);
    var h, hp, items := WriteHeader(s.header), WriteMany(Fields(s.hp)), WriteItems(s.items, HasScores(s.header));
    var ts := WriteTensors(s.tensors, TensorsAt(s), padding);
    WholeIsAt(full);
    AtSplit(full, 0, h, hp + (items + ts));
    AtSplit(full, |h|, hp, items + ts);
    AtSplit(full, |h| + 28, items, ts);
  }

  /** What is loaded from a file that begins as s was written, given its records. */
  lemma PartsRead(data: seq<Byte>, s: Source, infos: seq<TensorInfo>, end: nat)
    requires ValidSource(s) && Begins(data, s)
    requires ReadTensors(data, TensorsAt(s), UsesPadding(s.header)) == Ok((infos, end))
    ensures ReadParts(data, 0) == Ok((Parts(s.header, s.hp, s.items, infos), end))
  {
    hide At, ReadTensors, WriteItems, ReadItems, WriteMany, ReadHeader, ReadHparams, WriteHeader, ValidItem,
      ValidTensor, Convertible, FF_NAME, GivesFeedForward;
    var h := WriteHeader(s.header);
    HeaderReadsBack(data, 0, s.header);
    HparamsReadBack(data, |h|, s.hp);
    ItemsReadBack(data, |h| + 28, s.items, HasScores(s.header));
  }

  lemma BeginsInPrefix(data: seq<Byte>, full: seq<Byte>, s: Source)
    requires ValidSource(s) && Begins(full, s) && data <= full && TensorsAt(s) <= |data|
    ensures Begins(data, s)
  {
    hide At, WriteItems, WriteMany, WriteHeader, ValidItem, ValidTensor, Convertible, FF_NAME, GivesFeedForward;
    var h, hp := WriteHeader(s.header), WriteMany(Fields(s.hp));
    AtInPrefix(data, full, 0, h);
    AtInPrefix(data, full, |h|, hp);
    AtInPrefix(data, full, |h| + 28, WriteItems(s.items, HasScores(s.header)));
  }

  /** Without its last data byte a file still loads, with the same result; the load stops past the end of the data. */
  lemma CutFileLoads(s: Source, data: seq<Byte>) returns (m: Model)
    requires ValidSource(s) && s.tensors[|s.tensors| - 1].data != [] && CutOf(data, WriteSource(s))
    ensures ReadModel(WriteSource(s), 0) == Ok((m, |data| + 1))
    ensures ReadModel(data, 0) == Ok((m, |data| + 1))
  {
    hide At, Begins, WriteTensors, ReadTensors, ReadParts, WriteSource, TensorsAt, ValidTensor, HoldsData, FF_NAME,
      Index, GivesFeedForward, FeedForward, ValidItem, Convertible;
    m := LoadInvertsWrite(s);
    var full, at, padding := WriteSource(s), TensorsAt(s), UsesPadding(s.header);
    SourceBegins(s);
    TensorsNotEmpty(s.tensors, at, padding);
    BeginsInPrefix(data, full, s);
    CutTensorsRead(data, full, at, s.tensors, padding);
    TensorsReadBack(full, at, s.tensors, padding);
    var infos := InfosOf(s.tensors, at, padding);
    PartsRead(data, s, infos, |full|);
    PartsRead(full, s, infos, |full|);
  }

  lemma TensorsNotEmpty(ts: seq<Tensor>, offset: nat, padding: bool)
    requires ts != [] && forall k :: 0 <= k < |ts| ==> ValidTensor(ts[k])
    ensures |WriteTensors(ts, offset, padding)| >= 12
  {
    hide WriteTensor;
    TensorNotEmpty(ts[0], offset, padding);
  }

  /** One float under the feed-forward name, and nothing else. */
  function SmallestSource(): Source {
    Source(Header(GGML, 1), Hparams(0, 0, 0, 0, 0, 0, 0), [], [Tensor(FF_NAME, [1, 1], 0, [0, 0, 0, 0])])
  }

  lemma SmallestIsValid()
    ensures ValidSource(SmallestSource())
  {
    assert Product([1, 1]) == 1 by {
      assert [1, 1][1..] == [1] && [1][1..] == [];
    }
    var s := SmallestSource();
    assert ValidTensor(s.tensors[0]);
    assert GivesFeedForward(s.tensors, 0);
  }

  /** A file that is one byte short, and loads. */
  lemma SmallestFileIsCut() returns (m: Model, data: seq<Byte>)
    ensures ValidSource(SmallestSource()) && CutOf(data, WriteSource(SmallestSource()))
    ensures ReadModel(data, 0) == Ok((m, |data| + 1))
  {
    hide WriteSource, ReadModel, ValidSource;
    SmallestIsValid();
    var full := WriteSource(SmallestSource());
    SourceNotEmpty(SmallestSource());
    data := full[..|full| - 1];
    m := CutFileLoads(SmallestSource(), data);
  }

  lemma SourceNotEmpty(s: Source)
    requires ValidSource(s)
    ensures s.tensors != [] && |WriteSource(s)| > 0
  {
    hide WriteTensors, WriteItems, WriteMany, ValidItem, ValidTensor, Convertible, FF_NAME, GivesFeedForward;
  }
}
