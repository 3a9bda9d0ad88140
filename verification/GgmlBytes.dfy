/** Little-endian integers and slices of a byte string, as struct.unpack and Python slices read them. */
module GgmlBytes {
  import opened Wrappers

  type Byte = x: int | 0 <= x < 256

  type U32 = x: int | 0 <= x < 0x1_0000_0000

  datatype Error =
    | Truncated | InvalidFtype | AbsurdItem | BadDims | AbsurdName | UnknownType
    | AlreadyGguf | BadVersion | BadMagic | NotConvertible
    | NoFeedForward | NoSecondDim

  function Le32(x: U32): (r: seq<Byte>)
    ensures |r| == 4
  {
    [x % 256, x / 256 % 256, x / 65536 % 256, x / 16777216]
  }

  function Word(b0: Byte, b1: Byte, b2: Byte, b3: Byte): U32 {
    var i0: int, i1: int, i2: int, i3: int := b0, b1, b2, b3;
    i0 + 256 * i1 + 65536 * i2 + 16777216 * i3
  }

  /** struct.unpack of one unsigned integer; a short slice is an error. */
  function Read32(data: seq<Byte>, offset: nat): Result<U32, Error> {
    if offset + 4 <= |data| then Ok(Word(data[offset], data[offset + 1], data[offset + 2], data[offset + 3]))
    else Err(Truncated)
  }

  /** struct.unpack of n unsigned integers. */
  function ReadMany(data: seq<Byte>, offset: nat, n: nat): (r: Result<seq<U32>, Error>)
    ensures r.Ok? <==> n == 0 || offset + 4 * n <= |data|
    ensures r.Ok? ==> |r.value| == n
    ensures r.Err? ==> r.error == Truncated
    decreases n
  {
    if n == 0 then Ok([])
    else
      var rest := ReadMany(data, offset, n - 1);
      var last := Read32(data, offset + 4 * (n - 1));
      if rest.Ok? && last.Ok? then Ok(rest.value + [last.value]) else Err(Truncated)
  }

  function WriteMany(xs: seq<U32>): (r: seq<Byte>)
    ensures |r| == 4 * |xs|
    decreases |xs|
  {
    if xs == [] then [] else WriteMany(xs[..|xs| - 1]) + Le32(xs[|xs| - 1])
  }

  /** data[offset:offset + n], which stops at the end of the data. */
  function Slice(data: seq<Byte>, offset: nat, n: nat): (r: seq<Byte>)
    ensures offset + n <= |data| ==> r == data[offset..offset + n]
  {
    if offset >= |data| then [] else if offset + n >= |data| then data[offset..] else data[offset..offset + n]
  }

  /** The bytes w stand at offset. */
  predicate At(data: seq<Byte>, offset: nat, w: seq<Byte>) {
    offset + |w| <= |data| && data[offset..offset + |w|] == w
  }

  lemma AtSplit(data: seq<Byte>, offset: nat, a: seq<Byte>, b: seq<Byte>)
    ensures At(data, offset, a + b) <==> At(data, offset, a) && At(data, offset + |a|, b)
  {
    if offset + |a| + |b| <= |data| {
      assert data[offset..offset + |a + b|] ==
             data[offset..offset + |a|] + data[offset + |a|..offset + |a| + |b|];
      assert (a + b)[..|a|] == a && (a + b)[|a|..] == b;
    }
  }

  lemma ReadBack32(data: seq<Byte>, offset: nat, x: U32)
    requires At(data, offset, Le32(x))
    ensures Read32(data, offset) == Ok(x)
  {
    hide Word, Le32;
    var w := data[offset..offset + 4];
    assert w == Le32(x);
    assert w[0] == data[offset] && w[1] == data[offset + 1] && w[2] == data[offset + 2] && w[3] == data[offset + 3];
    WordOf(x);
  }

  lemma WordOf(x: U32)
    ensures var w := Le32(x); Word(w[0], w[1], w[2], w[3]) == x
  {
    var y: int := x;
    assert y == y % 256 + 256 * (y / 256);
    assert y / 256 == y / 256 % 256 + 256 * (y / 65536);
    assert y / 65536 == y / 65536 % 256 + 256 * (y / 16777216);
  }

  lemma {:induction false} ReadBackMany(data: seq<Byte>, offset: nat, xs: seq<U32>)
    requires At(data, offset, WriteMany(xs))
    ensures ReadMany(data, offset, |xs|) == Ok(xs)
    decreases |xs|
  {
    hide Le32, Read32, At;
    if xs == [] {
    } else {
      var n := |xs| - 1;
      var front, last := xs[..n], xs[n];
      AtSplit(data, offset, WriteMany(front), Le32(last));
      ReadBackMany(data, offset, front);
      ReadBack32(data, offset + 4 * n, last);
      AtEnds(data, offset, WriteMany(xs));
      assert xs == front + [last];
    }
  }

  lemma AtEnds(data: seq<Byte>, offset: nat, w: seq<Byte>)
    requires At(data, offset, w)
    ensures offset + |w| <= |data| && Slice(data, offset, |w|) == w
  {
  }
}
