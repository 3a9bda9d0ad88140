/** The loader objects of convert_llama_ggml_to_gguf.py, proved against the functions of GgmlFile. */
module GgmlLoader {
  import opened Wrappers
  import opened GgmlBytes
  import opened GgmlFile

  type Loaded = Result<nat, Error>

  class Hyperparameters {
    var nVocab: U32
    var nEmbd: U32
    var nMult: U32
    var nHead: U32
    var nLayer: U32
    var nRot: U32
    var nFf: U32
    var ftype: U32

    constructor ()
      ensures Value() == Hparams(0, 0, 0, 0, 0, 0, 0) && nFf == 0
    {
      nVocab, nEmbd, nMult, nHead := 0, 0, 0, 0;
      nLayer, nRot, nFf, ftype := 0, 0, 0, 0;
    }

    function Value(): Hparams
      reads this
    {
      Hparams(nVocab, nEmbd, nMult, nHead, nLayer, nRot, ftype)
    }

    /** The offset grows by the 28 bytes read; n_ff is left for later. */
    method Load(data: seq<Byte>, offset: nat) returns (r: Loaded)
      modifies this
      ensures nFf == old(nFf)
      ensures match ReadHparams(data, offset)
              case Ok((hp, next)) => r == Ok(next - offset) && Value() == hp
              case Err(e) => r == Err(e)
    {
      hide ReadMany, ValidFtype;
      var v :- ReadMany(data, offset, 7);
      nVocab, nEmbd, nMult, nHead, nLayer, nRot := v[0], v[1], v[2], v[3], v[4], v[5];
      if !ValidFtype(v[6]) {
        return Err(InvalidFtype);
      }
      ftype := v[6];
      return Ok(28);
    }

    /** n_ff is the second dimension of the tensor under the feed-forward name. */
    method SetNFf(model: GGMLModel, ghost infos: seq<TensorInfo>) returns (failure: Option<Error>)
      requires Shows(model.tensors, infos) && model.tensorMap == Index(infos)
      modifies this`nFf
      ensures match FeedForward(infos, Index(infos))
              case Ok(n) => failure == None && nFf == n
              case Err(e) => failure == Some(e) && nFf == old(nFf)
    {
      hide FF_NAME;
      if FF_NAME !in model.tensorMap {
        return Some(NoFeedForward);
      }
      var ffTensor := model.tensors[model.tensorMap[FF_NAME]];
      assert ffTensor.Value() == infos[model.tensorMap[FF_NAME]];
      if |ffTensor.dims| < 2 {
        return Some(NoSecondDim);
      }
      nFf := ffTensor.dims[1];
      return None;
    }
  }

  /** A reading result with what was read before it put in front. */
  function Led<T>(front: seq<T>, r: Result<(seq<T>, nat), Error>): Result<(seq<T>, nat), Error> {
    match r
    case Ok((rest, end)) => Ok((front + rest, end))
    case Err(e) => Err(e)
  }

  lemma LedNothing<T>(r: Result<(seq<T>, nat), Error>)
    ensures Led([], r) == r
  {
    if r.Ok? {
      assert [] + r.value.0 == r.value.0;
    }
  }

  lemma LedTwice<T>(front: seq<T>, x: T, r: Result<(seq<T>, nat), Error>)
    ensures Led(front, Led([x], r)) == Led(front + [x], r)
  {
    if r.Ok? {
      assert front + ([x] + r.value.0) == front + [x] + r.value.0;
    }
  }

  lemma ItemsStep(data: seq<Byte>, at: nat, n: nat, scores: bool, read: seq<Item>)
    requires n > 0
    ensures Led(read, ReadItems(data, at, n, scores)) ==
      match ReadItem(data, at, scores)
      case Ok((item, next)) => Led(read + [item], ReadItems(data, next, n - 1, scores))
      case Err(e) => Err(e)
  {
    hide ReadItem;
    if ReadItem(data, at, scores).Ok? {
      var (item, next) := ReadItem(data, at, scores).value;
      LedTwice(read, item, ReadItems(data, next, n - 1, scores));
    }
  }

  class Vocab {
    var items: seq<Item>
    const loadScores: bool

    constructor (loadScores: bool)
      ensures items == [] && this.loadScores == loadScores
    {
      items := [];
      this.loadScores := loadScores;
    }

    /** Appends the entries read; those already there stay. */
    method Load(data: seq<Byte>, offset: nat, nVocab: nat) returns (r: Loaded)
      modifies this
      ensures match ReadItems(data, offset, nVocab, loadScores)
              case Ok((more, next)) => next >= offset && r == Ok(next - offset) && items == old(items) + more
              case Err(e) => r == Err(e)
    {
      hide ReadItems, Read32, Slice;
      ghost var before := items;
      ghost var read: seq<Item> := [];
      var at: nat := offset;
      var k: nat := 0;
      LedNothing(ReadItems(data, offset, nVocab, loadScores));
      while k < nVocab
        invariant k <= nVocab && at >= offset
        invariant items == before + read
        invariant ReadItems(data, offset, nVocab, loadScores) ==
                  Led(read, ReadItems(data, at, nVocab - k, loadScores))
      {
        ItemsStep(data, at, nVocab - k, loadScores, read);
        var len :- Read32(data, at);
        if len >= 4096 {
          return Err(AbsurdItem);
        }
        var text := Slice(data, at + 4, len);
        var score: U32 := 0;
        var next: nat := at + 4 + len;
        if loadScores {
          score :- Read32(data, next);
          next := next + 4;
        }
        assert ReadItem(data, at, loadScores) == Ok((Item(text, score), next));
        items := items + [Item(text, score)];
        read := read + [Item(text, score)];
        at := next;
        k := k + 1;
      }
      NoMoreItems(data, at, loadScores);
      return Ok(at - offset);
    }
  }

  lemma NoMoreItems(data: seq<Byte>, at: nat, scores: bool)
    ensures ReadItems(data, at, 0, scores) == Ok(([], at))
  {
  }

  class TensorRecord {
    var name: seq<Byte>
    var dims: seq<U32>
    var dtype: U32
    var startOffset: nat
    var lenBytes: nat
    const usePadding: bool

    constructor (usePadding: bool)
      ensures this.usePadding == usePadding && Value() == TensorInfo([], [], 0, 0, 0)
    {
      name, dims, dtype, startOffset, lenBytes := [], [], 0, 0, 0;
      this.usePadding := usePadding;
    }

    function Value(): TensorInfo
      reads this
    {
      TensorInfo(name, dims, dtype, startOffset, lenBytes)
    }

    method Load(data: seq<Byte>, offset: nat) returns (r: Loaded)
      modifies this
      ensures match ReadTensor(data, offset, usePadding)
              case Ok((t, next)) => next >= offset + 12 && r == Ok(next - offset) && Value() == t
              case Err(e) => r == Err(e)
    {
      hide ReadMany, Slice, QuantSize, ByteCount;
      var at: nat := offset;
      var head :- ReadMany(data, at, 3);
      if head[0] > 4 {
        return Err(BadDims);
      }
      if head[1] >= 4096 {
        return Err(AbsurdName);
      }
      var quant := QuantSize(head[2]);
      if quant.None? {
        return Err(UnknownType);
      }
      dtype := head[2];
      at := at + 12;
      dims :- ReadMany(data, at, head[0]);
      at := at + 4 * head[0];
      name := Slice(data, at, head[1]);
      at := at + head[1];
      if usePadding {
        at := AlignUp(at);
      }
      startOffset := at;
      lenBytes := ByteCount(dims, quant.value);
      at := at + lenBytes;
      return Ok(at - offset);
    }
  }

  lemma TensorsStep(data: seq<Byte>, at: nat, padding: bool, read: seq<TensorInfo>)
    requires at < |data|
    ensures Led(read, ReadTensors(data, at, padding)) ==
      match ReadTensor(data, at, padding)
      case Ok((t, next)) => Led(read + [t], ReadTensors(data, next, padding))
      case Err(e) => Err(e)
  {
    hide ReadTensor;
    if ReadTensor(data, at, padding).Ok? {
      var (t, next) := ReadTensor(data, at, padding).value;
      LedTwice(read, t, ReadTensors(data, next, padding));
    }
  }

  lemma NoMoreTensors(data: seq<Byte>, at: nat, padding: bool)
    requires at >= |data|
    ensures ReadTensors(data, at, padding) == Ok(([], at))
  {
  }

  lemma NoIndex()
    ensures Index([]) == map[]
  {
  }

  lemma IndexPush(read: seq<TensorInfo>, t: TensorInfo)
    ensures Index(read + [t]) == Index(read)[t.name := |read|]
  {
    assert (read + [t])[..|read|] == read;
  }

  /** Errors found only after the new parts are in place. */
  predicate Late(e: Error) {
    e == NoFeedForward || e == NoSecondDim
  }

  lemma FeedForwardIsLate(infos: seq<TensorInfo>)
    ensures FeedForward(infos, Index(infos)).Err? ==> Late(FeedForward(infos, Index(infos)).error)
  {
  }

  /** The loaded objects show the values read so far. */
  ghost predicate Shows(tensors: seq<TensorRecord>, read: seq<TensorInfo>)
    reads tensors
  {
    |tensors| == |read| && forall k :: 0 <= k < |tensors| ==> tensors[k].Value() == read[k]
  }

  class GGMLModel {
    var fileFormat: Format
    var formatVersion: nat
    var hyperparameters: Hyperparameters?
    var vocab: Vocab?
    var tensorMap: map<seq<Byte>, nat>
    var tensors: seq<TensorRecord>

    constructor ()
      ensures hyperparameters == null && vocab == null && tensorMap == map[] && tensors == []
    {
      hyperparameters, vocab, tensorMap, tensors := null, null, map[], [];
    }

    method ValidateHeader(data: seq<Byte>, offset: nat) returns (r: Loaded)
      modifies this`fileFormat, this`formatVersion
      ensures match ReadHeader(data, offset)
              case Ok((h, next)) =>
                next >= offset && r == Ok(next - offset) && Header(fileFormat, formatVersion) == h
              case Err(e) =>
                r == Err(e) && fileFormat == old(fileFormat) && formatVersion == old(formatVersion)
    {
      hide Slice, Read32;
      var magic := Slice(data, offset, 4);
      if magic == GGUF_MAGIC {
        return Err(AlreadyGguf);
      }
      if magic == GGML_MAGIC {
        fileFormat, formatVersion := GGML, 1;
        return Ok(4);
      }
      var version :- Read32(data, offset + 4);
      if magic == GGMF_MAGIC {
        if version != 1 {
          return Err(BadVersion);
        }
        fileFormat, formatVersion := GGMF, version;
        return Ok(8);
      }
      if magic == GGJT_MAGIC {
        if version < 1 || version > 3 {
          return Err(BadVersion);
        }
        fileFormat, formatVersion := GGJT, version;
        return Ok(8);
      }
      return Err(BadMagic);
    }

    /** The record loop: every record is a new object, and a later one of the same name takes over its index. */
    method LoadTensors(data: seq<Byte>, offset: nat, padding: bool)
      returns (r: Result<(seq<TensorRecord>, map<seq<Byte>, nat>, nat), Error>)
      ensures match ReadTensors(data, offset, padding)
              case Ok((infos, end)) =>
                && r.Ok? && Shows(r.value.0, infos) && fresh(r.value.0)
                && r.value.1 == Index(infos) && r.value.2 == end >= offset
              case Err(e) => r == Err(e)
    {
      hide ReadTensors, ReadTensor, Index;
      var records: seq<TensorRecord> := [];
      var index: map<seq<Byte>, nat> := map[];
      ghost var read: seq<TensorInfo> := [];
      var at: nat := offset;
      LedNothing(ReadTensors(data, offset, padding));
      NoIndex();
      while at < |data|
        invariant at >= offset
        invariant Shows(records, read) && fresh(records)
        invariant index == Index(read)
        invariant ReadTensors(data, offset, padding) == Led(read, ReadTensors(data, at, padding))
        decreases |data| - at
      {
        TensorsStep(data, at, padding, read);
        var tensor := new TensorRecord(padding);
        var used :- tensor.Load(data, at);
        at := at + used;
        IndexPush(read, tensor.Value());
        index := index[tensor.name := |records|];
        records := records + [tensor];
        read := read + [tensor.Value()];
      }
      NoMoreTensors(data, at, padding);
      assert read + [] == read;
      return Ok((records, index, at));
    }

    /** The fields hold what a load read, in objects of its own. */
    ghost predicate Holds(m: Model)
      reads this, hyperparameters, vocab, tensors
    {
      && Header(fileFormat, formatVersion) == m.header
      && hyperparameters != null && hyperparameters.Value() == m.hp && hyperparameters.nFf == m.nFf
      && vocab != null && vocab.items == m.items
      && Shows(tensors, m.tensors) && tensorMap == m.index
    }

    /** The first half of load: everything up to the last record is read into new objects. */
    method LoadParts(data: seq<Byte>, offset: nat)
      returns (r: Result<(Hyperparameters, Vocab, seq<TensorRecord>, map<seq<Byte>, nat>, nat), Error>)
      modifies this`fileFormat, this`formatVersion
      ensures match ReadParts(data, offset)
              case Ok((p, end)) =>
                && r.Ok? && var (hp, voc, records, index, at) := r.value;
                && Header(fileFormat, formatVersion) == p.header
                && hp.Value() == p.hp && fresh(hp)
                && voc.items == p.items && fresh(voc)
                && Shows(records, p.tensors) && fresh(records) && index == Index(p.tensors) && at == end
              case Err(e) => r == Err(e)
    {
      hide ReadHeader, ReadHparams, ReadItems, ReadTensors, Index, Convertible, Led, Shows;
      var at: nat := offset;
      var used :- ValidateHeader(data, at);
      at := at + used;
      var hp := new Hyperparameters();
      used :- hp.Load(data, at);
      at := at + used;
      if !Convertible(Header(fileFormat, formatVersion), hp.ftype) {
        return Err(NotConvertible);
      }
      var voc := new Vocab(fileFormat != GGML);
      used :- voc.Load(data, at, hp.nVocab);
      at := at + used;
      var loaded :- LoadTensors(data, at, fileFormat == GGJT);
      return Ok((hp, voc, loaded.0, loaded.1, loaded.2));
    }

    /** load: the new parts are put in place, then n_ff is looked up among them. */
    method Load(data: seq<Byte>, offset: nat) returns (r: Loaded)
      modifies this
      ensures match ReadModel(data, offset)
              case Ok((m, end)) =>
                r == Ok(end) && Holds(m) && fresh(hyperparameters) && fresh(vocab) && fresh(tensors)
              case Err(e) =>
                && r == Err(e)
                && (!Late(e) ==> hyperparameters == old(hyperparameters) && vocab == old(vocab)
                                 && tensors == old(tensors) && tensorMap == old(tensorMap))
    {
      hide ReadParts, Index, FeedForward, FF_NAME, Late;
      ghost var parts := ReadParts(data, offset);
      var loaded :- LoadParts(data, offset);
      FeedForwardIsLate(parts.value.0.tensors);
      hyperparameters, vocab, tensors, tensorMap := loaded.0, loaded.1, loaded.2, loaded.3;
      var failure := loaded.0.SetNFf(this, parts.value.0.tensors);
      if failure.Some? {
        return Err(failure.value);
      }
      return Ok(loaded.4);
    }
  }
}
