/** What the loader refuses, with which error, and the numbers of the formats. */
module GgmlRefusals {
  import opened Wrappers
  import opened GgmlBytes
  import opened GgmlFile

  /** The bytes of ASCII text. */
  function Ascii(s: string): (r: seq<Byte>)
    requires forall i :: 0 <= i < |s| ==> s[i] < 128 as char
    ensures |r| == |s| && forall i :: 0 <= i < |s| ==> r[i] == s[i] as int
  {
    seq(|s|, i requires 0 <= i < |s| => s[i] as int)
  }

  lemma Names()
    ensures GGUF_MAGIC == Ascii("GGUF") && GGML_MAGIC == Ascii("lmgg")
    ensures GGMF_MAGIC == Ascii("fmgg") && GGJT_MAGIC == Ascii("tjgg")
    ensures FF_NAME == Ascii("layers.0.feed_forward.w1.weight")
  {
  }

  /** The little-endian number of four bytes. */
  predicate Spells(data: seq<Byte>, offset: nat, x: U32) {
    && offset + 4 <= |data|
    && var b0: int, b1: int, b2: int, b3: int := data[offset], data[offset + 1], data[offset + 2], data[offset + 3];
       x == b0 + b1 * 0x100 + b2 * 0x1_0000 + b3 * 0x100_0000
  }

  lemma Read32Means(data: seq<Byte>, offset: nat, x: U32)
    ensures Read32(data, offset) == Ok(x) <==> Spells(data, offset, x)
    ensures Read32(data, offset) == Err(Truncated) <==> offset + 4 > |data|
  {
  }

  lemma {:induction false} ReadManyMeans(data: seq<Byte>, offset: nat, n: nat)
    ensures ReadMany(data, offset, n).Ok? ==>
              forall i :: 0 <= i < n ==> Read32(data, offset + 4 * i) == Ok(ReadMany(data, offset, n).value[i])
    decreases n
  {
    hide Read32;
    if n > 0 { ReadManyMeans(data, offset, n - 1); }
  }

  /** Four bytes of magic, then for all but the oldest format a version. */
  lemma HeaderExactly(data: seq<Byte>, offset: nat)
    ensures var r, magic := ReadHeader(data, offset), Slice(data, offset, 4);
      && (r == Err(AlreadyGguf) <==> magic == Ascii("GGUF"))
      && (magic == Ascii("lmgg") ==> r == Ok((Header(GGML, 1), offset + 4)))
      && (magic != Ascii("GGUF") && magic != Ascii("lmgg") ==>
            && (r == Err(Truncated) <==> offset + 8 > |data|)
            && (offset + 8 <= |data| ==>
                  var version := Read32(data, offset + 4).value;
                  r == if magic == Ascii("fmgg") then (if version == 1 then Ok((Header(GGMF, 1), offset + 8)) else Err(BadVersion))
                       else if magic == Ascii("tjgg") then
                         (if version == 1 || version == 2 || version == 3 then Ok((Header(GGJT, version), offset + 8)) else Err(BadVersion))
                       else Err(BadMagic)))
  {
    hide Word;
    Names();
    MagicsDiffer();
  }

  lemma MagicsDiffer()
    ensures Ascii("fmgg") != Ascii("tjgg") && Ascii("fmgg") != Ascii("GGUF") && Ascii("tjgg") != Ascii("GGUF")
    ensures Ascii("lmgg") != Ascii("GGUF") && Ascii("lmgg") != Ascii("fmgg") && Ascii("lmgg") != Ascii("tjgg")
  {
    assert Ascii("fmgg")[0] != Ascii("tjgg")[0] && Ascii("fmgg")[0] != Ascii("GGUF")[0] && Ascii("tjgg")[0] != Ascii("GGUF")[0];
    assert Ascii("lmgg")[0] != Ascii("GGUF")[0] && Ascii("lmgg")[0] != Ascii("fmgg")[0] && Ascii("lmgg")[0] != Ascii("tjgg")[0];
  }

  /** Seven integers, the last a file type that exists: 5 and 6 never did. */
  lemma HparamsExactly(data: seq<Byte>, offset: nat)
    ensures var r := ReadHparams(data, offset);
      && (r == Err(Truncated) <==> offset + 28 > |data|)
      && (offset + 28 <= |data| ==>
            var ftype := Read32(data, offset + 24).value;
            r.Ok? <==> ftype in {0, 1, 2, 3, 4, 7, 8, 9, 10, 11, 12, 13, 14, 15, 16, 17, 18})
      && (r.Err? ==> r.error == Truncated || r.error == InvalidFtype)
      && (r.Ok? ==> r.value.1 == offset + 28
                    && Fields(r.value.0) == seq(7, i requires 0 <= i < 7 => Read32(data, offset + 4 * i).value))
  {
    hide Read32;
    ReadManyMeans(data, offset, 7);
  }

  /** Quantised files older than GGJT 3 cannot be converted, but for those whose layout has not changed. */
  lemma ConvertibleExactly(h: Header, ftype: U32)
    requires ValidHeader(h)
    ensures Convertible(h, ftype) <==>
              || ftype == 0 || ftype == 1
              || (h.format == GGJT && h.version == 3)
              || (h.format == GGJT && h.version == 2 && ftype != 2 && ftype != 3 && ftype != 4 && ftype != 7)
  {
  }

  /** An entry: its length, its text (cut short at the end of the data), and a score where the format has one. */
  lemma ItemExactly(data: seq<Byte>, offset: nat, scores: bool)
    ensures var r := ReadItem(data, offset, scores);
      if offset + 4 > |data| then r == Err(Truncated)
      else
        var len := Read32(data, offset).value;
        if len >= 4096 then r == Err(AbsurdItem)
        else if scores && offset + 8 + len > |data| then r == Err(Truncated)
        else
          && r.Ok? && r.value.0.text == Slice(data, offset + 4, len)
          && r.value.0.score == (if scores then Read32(data, offset + 4 + len).value else 0)
          && r.value.1 == offset + 4 + len + (if scores then 4 else 0)
  {
    hide Word;
  }

  /** A record: counts of dimensions and of name bytes and a type, each within its bounds, then those. */
  lemma TensorExactly(data: seq<Byte>, offset: nat, padding: bool)
    ensures var r := ReadTensor(data, offset, padding);
      if offset + 12 > |data| then r == Err(Truncated)
      else
        var nDims, nName, dtype := Read32(data, offset).value, Read32(data, offset + 4).value, Read32(data, offset + 8).value;
        if nDims > 4 then r == Err(BadDims)
        else if nName >= 4096 then r == Err(AbsurdName)
        else if QuantSize(dtype).None? then r == Err(UnknownType)
        else if nDims > 0 && offset + 12 + 4 * nDims > |data| then r == Err(Truncated)
        else r.Ok? && RecordIs(data, offset, padding, nDims, nName, dtype, r.value.0) && r.value.1 == r.value.0.start + r.value.0.len
  {
    hide Read32, ReadMany, Product, QuantSize, AlignUp, Slice;
    ReadManyMeans(data, offset, 3);
    Read32Total(data, offset);
    if offset + 12 <= |data| {
      var head := ReadMany(data, offset, 3).value;
      assert Read32(data, offset + 4 * 0) == Ok(head[0]) && Read32(data, offset + 4 * 1) == Ok(head[1]);
      assert Read32(data, offset + 4 * 2) == Ok(head[2]);
      ReadManyMeans(data, offset + 12, head[0]);
    }
  }

  ghost predicate RecordIs(data: seq<Byte>, offset: nat, padding: bool, nDims: nat, nName: nat, dtype: U32, t: TensorInfo)
    requires QuantSize(dtype).Some?
  {
    var here := offset + 12 + 4 * nDims + nName;
    var (elements, bytes) := QuantSize(dtype).value;
    && |t.dims| == nDims
    && (forall i :: 0 <= i < nDims ==> Read32(data, offset + 12 + 4 * i) == Ok(t.dims[i]))
    && t.name == Slice(data, offset + 12 + 4 * nDims, nName)
    && t.dtype == dtype
    && (if padding then t.start % 32 == 0 && 0 <= t.start - here < 32 else t.start == here)
    && t.len == Product(t.dims) * bytes / elements
  }

  lemma Read32Total(data: seq<Byte>, offset: nat)
    ensures Read32(data, offset).Ok? <==> offset + 4 <= |data|
  {
  }
}
