/** Base64 with the two alphabets of sections 4 and 5 of RFC 4648, over byte buffers. */
module Base64 {
  import opened Wrappers

  type Byte = b: int | 0 <= b < 256

  datatype Alphabet = Auto | Standard | UrlSafe

  datatype Behavior = Moderate | Loose

  datatype Base64Error = InvalidCharacter

  const PAD: Byte := '=' as int

  /** The character of a six-bit value; without a choice the standard alphabet is used. */
  function CharOf(v: nat, a: Alphabet): (c: Byte)
    requires v < 64
    ensures c != PAD
  {
    if v < 26 then 'A' as int + v
    else if v < 52 then 'a' as int + (v - 26)
    else if v < 62 then '0' as int + (v - 52)
    else if v == 62 then (if a == UrlSafe then '-' as int else '+' as int)
    else (if a == UrlSafe then '_' as int else '/' as int)
  }

  /** _base64_value: the value of a character, and the alphabet once it gives itself away. */
  function ValueOf(a: Alphabet, c: Byte): (r: Result<(nat, Alphabet), Base64Error>)
    ensures r.Ok? ==> r.value.0 < 64
  {
    if 'A' as int <= c <= 'Z' as int then Ok((c - 'A' as int, a))
    else if 'a' as int <= c <= 'z' as int then Ok((c - 'a' as int + 26, a))
    else if '0' as int <= c <= '9' as int then Ok((c - '0' as int + 52, a))
    else if c == '+' as int && a != UrlSafe then Ok((62, Standard))
    else if c == '/' as int && a != UrlSafe then Ok((63, Standard))
    else if c == '-' as int && a != Standard then Ok((62, UrlSafe))
    else if c == '_' as int && a != Standard then Ok((63, UrlSafe))
    else Err(InvalidCharacter)
  }

  // ----- encoding -----

  function EncodeOf(x: seq<Byte>, a: Alphabet): seq<Byte> {
    if |x| == 0 then []
    else if |x| == 1 then [CharOf(x[0] / 4, a), CharOf(x[0] % 4 * 16, a), PAD, PAD]
    else if |x| == 2 then
      [CharOf(x[0] / 4, a), CharOf(x[0] % 4 * 16 + x[1] / 16, a), CharOf(x[1] % 16 * 4, a), PAD]
    else
      [CharOf(x[0] / 4, a), CharOf(x[0] % 4 * 16 + x[1] / 16, a),
       CharOf(x[1] % 16 * 4 + x[2] / 64, a), CharOf(x[2] % 64, a)] + EncodeOf(x[3..], a)
  }

  /** One turn of the loop: up to three bytes in, four characters out. */
  method EncodeGroup(x: seq<Byte>, start: nat, a: Alphabet) returns (chunk: seq<Byte>, i: nat)
    requires start < |x|
    ensures start < i <= |x| && EncodeOf(x[start..], a) == chunk + EncodeOf(x[i..], a)
  {
    hide CharOf;
    i := start;
    var i0 := x[i];
    i := i + 1;
    chunk := [CharOf(i0 / 4, a)];
    if i == |x| { return chunk + [CharOf(i0 % 4 * 16, a), PAD, PAD], i; }
    var i1 := x[i];
    i := i + 1;
    chunk := chunk + [CharOf(i0 % 4 * 16 + i1 / 16, a)];
    if i == |x| { return chunk + [CharOf(i1 % 16 * 4, a), PAD], i; }
    var i2 := x[i];
    i := i + 1;
    assert x[start..][3..] == x[i..];
    chunk := chunk + [CharOf(i1 % 16 * 4 + i2 / 64, a), CharOf(i2 % 64, a)];
  }

  /** encode: the loop over the input; shifts and masks are written as division and remainder. */
  method Encode(x: seq<Byte>, a: Alphabet) returns (out: seq<Byte>)
    ensures out == EncodeOf(x, a)
  {
    hide EncodeOf;
    out := [];
    var i := 0;
    assert x[0..] == x;
    while i < |x|
      invariant i <= |x|
      invariant EncodeOf(x, a) == out + EncodeOf(x[i..], a)
      decreases |x| - i
    {
      var chunk;
      chunk, i := EncodeGroup(x, i, a);
      Regroup(out, chunk, EncodeOf(x[i..], a));
      out := out + chunk;
    }
    EncodeNothing(x[i..], a);
  }

  lemma EncodeNothing(x: seq<Byte>, a: Alphabet)
    requires x == []
    ensures EncodeOf(x, a) == []
  {
  }

  lemma Regroup(a: seq<Byte>, b: seq<Byte>, c: seq<Byte>)
    ensures a + (b + c) == a + b + c
  {
  }

  function RequiredEncodeSize(size: nat): nat {
    (size / 3 + (if size % 3 != 0 then 1 else 0)) * 4
  }

  function MaxDecodeSize(size: nat): nat {
    (size / 4 + (if size % 4 != 0 then 1 else 0)) * 3
  }

  lemma {:induction false} EncodeSize(x: seq<Byte>, a: Alphabet)
    ensures |EncodeOf(x, a)| == RequiredEncodeSize(|x|)
  {
    hide CharOf;
    if |x| > 2 {
      EncodeSize(x[3..], a);
      GroupSize(|x|);
    }
  }

  lemma GroupSize(n: nat)
    requires n >= 3
    ensures RequiredEncodeSize(n) == 4 + RequiredEncodeSize(n - 3)
  {
  }

  // ----- decoding -----

  /** The byte made of the bits left over from `last` and the first ones of `part`. */
  function JoinBits(last: nat, part: nat, bits: nat): Byte
    requires last < 64 && part < 64 && (bits == 2 || bits == 4 || bits == 6)
  {
    if bits == 2 then last * 64 % 256 + part
    else if bits == 4 then last * 16 % 256 + part / 4
    else last * 4 % 256 + part / 16
  }

  predicate AllPad(s: seq<Byte>) {
    forall i :: 0 <= i < |s| ==> s[i] == PAD
  }

  predicate Bits(bits: nat) {
    bits == 0 || bits == 2 || bits == 4 || bits == 6
  }

  /** Decoding the rest of the input, with `bits` bits of `last` still to be used. */
  function DecodeFrom(s: seq<Byte>, a: Alphabet, last: nat, bits: nat, b: Behavior): Result<seq<Byte>, Base64Error>
    requires last < 64 && Bits(bits)
    decreases |s|
  {
    if s == [] then Ok([])
    else if s[0] == PAD then
      if b == Loose || AllPad(s[1..]) then Ok([]) else Err(InvalidCharacter)
    else
      match ValueOf(a, s[0])
      case Err(e) => Err(e)
      case Ok((part, a')) =>
        if bits == 0 then DecodeFrom(s[1..], a', part, 6, b)
        else
          var rest :- DecodeFrom(s[1..], a', part, bits - 2, b);
          Ok([JoinBits(last, part, bits)] + rest)
  }

  function Decode(s: seq<Byte>, a: Alphabet, b: Behavior): Result<seq<Byte>, Base64Error> {
    DecodeFrom(s, a, 0, 0, b)
  }

  // ----- round trip -----

  /** The alphabet a decoder may be in while reading text written with `a`. */
  predicate Reads(b: Alphabet, a: Alphabet) {
    b == Auto || b == (if a == UrlSafe then UrlSafe else Standard)
  }

  lemma CharReadsBack(v: nat, a: Alphabet, b: Alphabet)
    requires v < 64 && Reads(b, a)
    ensures ValueOf(b, CharOf(v, a)).Ok? && ValueOf(b, CharOf(v, a)).value.0 == v
    ensures Reads(ValueOf(b, CharOf(v, a)).value.1, a)
  {
  }

  function Seen(v: nat, a: Alphabet, b: Alphabet): Alphabet
    requires v < 64 && Reads(b, a)
  {
    CharReadsBack(v, a, b);
    ValueOf(b, CharOf(v, a)).value.1
  }

  lemma ReadOne(v: nat, a: Alphabet, b: Alphabet, last: nat, bits: nat, beh: Behavior, rest: seq<Byte>)
    requires v < 64 && Reads(b, a) && last < 64 && Bits(bits)
    ensures Reads(Seen(v, a, b), a)
    ensures var inner := DecodeFrom(rest, Seen(v, a, b), v, if bits == 0 then 6 else bits - 2, beh);
            DecodeFrom([CharOf(v, a)] + rest, b, last, bits, beh)
            == (if inner.Err? || bits == 0 then inner else Ok([JoinBits(last, v, bits)] + inner.value))
  {
    CharReadsBack(v, a, b);
    assert ([CharOf(v, a)] + rest)[1..] == rest;
  }

  lemma Join6(x: Byte, low: nat)
    requires low < 16
    ensures JoinBits(x / 4, x % 4 * 16 + low, 6) == x
  {
    assert (x % 4 * 16 + low) / 16 == x % 4;
  }

  lemma Join4(high: nat, x: Byte, low: nat)
    requires high < 4 && low < 4
    ensures JoinBits(high * 16 + x / 16, x % 16 * 4 + low, 4) == x
  {
    assert (x % 16 * 4 + low) / 4 == x % 16;
    assert (high * 16 + x / 16) * 16 == high * 256 + x / 16 * 16;
  }

  lemma Join2(high: nat, x: Byte)
    requires high < 16
    ensures JoinBits(high * 4 + x / 64, x % 64, 2) == x
  {
    assert (high * 4 + x / 64) * 64 == high * 256 + x / 64 * 64;
  }

  lemma ReadPadding(b: Alphabet, last: nat, bits: nat, beh: Behavior)
    requires last < 64 && Bits(bits)
    ensures DecodeFrom([PAD, PAD], b, last, bits, beh) == Ok([]) && DecodeFrom([PAD], b, last, bits, beh) == Ok([])
  {
  }

  lemma ReadOneByte(x: seq<Byte>, a: Alphabet, b: Alphabet, last: nat, beh: Behavior)
    requires |x| == 1 && Reads(b, a) && last < 64
    ensures DecodeFrom(EncodeOf(x, a), b, last, 0, beh) == Ok(x)
  {
    hide CharOf, ValueOf, JoinBits, Seen, Reads, DecodeFrom;
    var s := EncodeOf(x, a);
    var v0, v1 := x[0] / 4, x[0] % 4 * 16;
    Join6(x[0], 0);
    assert s == [CharOf(v0, a)] + s[1..] && s[1..] == [CharOf(v1, a)] + s[2..] && s[2..] == [PAD, PAD];
    ReadOne(v0, a, b, last, 0, beh, s[1..]);
    ReadOne(v1, a, Seen(v0, a, b), v0, 6, beh, s[2..]);
    ReadPadding(Seen(v1, a, Seen(v0, a, b)), v1, 4, beh);
    assert x == [x[0]] + [];
  }

  /** Three characters carry two bytes, and two bits that stay behind. */
  lemma ReadThree(x0: Byte, x1: Byte, low: nat, a: Alphabet, b: Alphabet, last: nat, beh: Behavior, rest: seq<Byte>)
    returns (b': Alphabet)
    requires Reads(b, a) && last < 64 && low < 4
    ensures Reads(b', a)
    ensures var v0, v1, v2 := x0 / 4, x0 % 4 * 16 + x1 / 16, x1 % 16 * 4 + low;
            var inner := DecodeFrom(rest, b', v2, 2, beh);
            inner.Ok? ==>
            DecodeFrom([CharOf(v0, a)] + ([CharOf(v1, a)] + ([CharOf(v2, a)] + rest)), b, last, 0, beh)
            == Ok([x0] + ([x1] + inner.value))
  {
    hide CharOf, ValueOf, JoinBits, Seen, Reads, DecodeFrom;
    var v0, v1, v2 := x0 / 4, x0 % 4 * 16 + x1 / 16, x1 % 16 * 4 + low;
    Join6(x0, x1 / 16);
    Join4(x0 % 4, x1, low);
    var b1 := Seen(v0, a, b);
    ReadOne(v0, a, b, last, 0, beh, [CharOf(v1, a)] + ([CharOf(v2, a)] + rest));
    var b2 := Seen(v1, a, b1);
    ReadOne(v1, a, b1, v0, 6, beh, [CharOf(v2, a)] + rest);
    ReadOne(v2, a, b2, v1, 4, beh, rest);
    b' := Seen(v2, a, b2);
  }

  lemma ReadTwoBytes(x: seq<Byte>, a: Alphabet, b: Alphabet, last: nat, beh: Behavior)
    requires |x| == 2 && Reads(b, a) && last < 64
    ensures DecodeFrom(EncodeOf(x, a), b, last, 0, beh) == Ok(x)
  {
    hide CharOf, JoinBits, Reads, DecodeFrom;
    var b' := ReadThree(x[0], x[1], 0, a, b, last, beh, [PAD]);
    ReadPadding(b', x[1] % 16 * 4, 2, beh);
    var v0, v1, v2 := x[0] / 4, x[0] % 4 * 16 + x[1] / 16, x[1] % 16 * 4;
    assert EncodeOf(x, a) == [CharOf(v0, a)] + ([CharOf(v1, a)] + ([CharOf(v2, a)] + [PAD]));
    assert x == [x[0]] + ([x[1]] + []);
  }

  /** Decoding an encoding gives the bytes back, with the alphabet given or detected. */
  lemma {:induction false} RoundTripFrom(x: seq<Byte>, a: Alphabet, b: Alphabet, last: nat, beh: Behavior)
    requires Reads(b, a) && last < 64
    ensures DecodeFrom(EncodeOf(x, a), b, last, 0, beh) == Ok(x)
    decreases |x|
  {
    hide CharOf, JoinBits, Reads, DecodeFrom, ValueOf, EncodeOf;
    if |x| == 0 {
      EncodeNothing(x, a);
      DecodeNothing(b, last, 0, beh);
    } else if |x| == 1 {
      ReadOneByte(x, a, b, last, beh);
    } else if |x| == 2 {
      ReadTwoBytes(x, a, b, last, beh);
    } else {
      var b', v := ReadGroup(x, a, b, last, beh);
      RoundTripFrom(x[3..], a, b', v, beh);
    }
  }

  /** Three bytes and their four characters, before whatever follows. */
  lemma ReadGroup(x: seq<Byte>, a: Alphabet, b: Alphabet, last: nat, beh: Behavior) returns (b': Alphabet, v: nat)
    requires |x| > 2 && Reads(b, a) && last < 64
    ensures Reads(b', a) && v < 64
    ensures DecodeFrom(EncodeOf(x[3..], a), b', v, 0, beh) == Ok(x[3..]) ==>
              DecodeFrom(EncodeOf(x, a), b, last, 0, beh) == Ok(x)
  {
    hide CharOf, JoinBits, Reads, DecodeFrom, ValueOf, Seen, EncodeOf;
    var v2, v3 := x[1] % 16 * 4 + x[2] / 64, x[2] % 64;
    var tail := EncodeOf(x[3..], a);
    var b2 := ReadThree(x[0], x[1], x[2] / 64, a, b, last, beh, [CharOf(v3, a)] + tail);
    Join2(x[1] % 16, x[2]);
    ReadOne(v3, a, b2, v2, 2, beh, tail);
    b', v := Seen(v3, a, b2), v3;
    GroupOf(x, a);
    assert x == [x[0]] + ([x[1]] + ([x[2]] + x[3..]));
  }

  lemma GroupOf(x: seq<Byte>, a: Alphabet)
    requires |x| > 2
    ensures EncodeOf(x, a) ==
      [CharOf(x[0] / 4, a)] + ([CharOf(x[0] % 4 * 16 + x[1] / 16, a)] +
        ([CharOf(x[1] % 16 * 4 + x[2] / 64, a)] + ([CharOf(x[2] % 64, a)] + EncodeOf(x[3..], a))))
  {
    hide CharOf;
  }

  lemma DecodeNothing(b: Alphabet, last: nat, bits: nat, beh: Behavior)
    requires last < 64 && Bits(bits)
    ensures DecodeFrom([], b, last, bits, beh) == Ok([])
  {
  }

  lemma RoundTrip(x: seq<Byte>, a: Alphabet, b: Alphabet, beh: Behavior)
    requires b == Auto || b == a || (a == Auto && b == Standard)
    ensures Decode(EncodeOf(x, a), b, beh) == Ok(x)
  {
    RoundTripFrom(x, a, b, 0, beh);
  }

  // ----- what decoding accepts and how much it writes -----

  /** Number of characters before the first pad. */
  function DataLen(s: seq<Byte>): (n: nat)
    ensures n <= |s| && (forall i :: 0 <= i < n ==> s[i] != PAD) && (n < |s| ==> s[n] == PAD)
  {
    if s == [] || s[0] == PAD then 0 else 1 + DataLen(s[1..])
  }

  /** Every character before the padding belongs to one alphabet. */
  predicate AllIn(s: seq<Byte>, a: Alphabet) {
    forall i :: 0 <= i < DataLen(s) ==> ValueOf(a, s[i]).Ok?
  }

  /** The alphabets that may still turn out to be the one in use. */
  predicate OneAlphabet(s: seq<Byte>, a: Alphabet) {
    if a == Auto then AllIn(s, Standard) || AllIn(s, UrlSafe) else AllIn(s, a)
  }

  predicate TailOk(s: seq<Byte>, b: Behavior) {
    b == Loose || AllPad(s[DataLen(s)..])
  }

  lemma AllInStep(s: seq<Byte>, a: Alphabet)
    requires s != [] && s[0] != PAD
    ensures AllIn(s, a) <==> ValueOf(a, s[0]).Ok? && AllIn(s[1..], a)
  {
    assert DataLen(s) == 1 + DataLen(s[1..]);
    if ValueOf(a, s[0]).Ok? && AllIn(s[1..], a) {
      forall i | 0 <= i < DataLen(s) ensures ValueOf(a, s[i]).Ok? {
        if i > 0 { assert s[i] == s[1..][i - 1]; }
      }
    }
    if AllIn(s, a) {
      assert 0 < DataLen(s);
      forall i | 0 <= i < DataLen(s[1..]) ensures ValueOf(a, s[1..][i]).Ok? {
        assert s[1..][i] == s[i + 1];
      }
    }
  }

  /**
   Decoding succeeds exactly when the characters before the padding are all of one alphabet
   (the given one, or any when detecting) and nothing but padding follows; it then writes
   six bits a character, dropping an incomplete byte.
   */
  lemma {:induction false} DecodeExactlyWhen(s: seq<Byte>, a: Alphabet, last: nat, bits: nat, b: Behavior)
    requires last < 64 && Bits(bits)
    ensures DecodeFrom(s, a, last, bits, b).Ok? <==> OneAlphabet(s, a) && TailOk(s, b)
    ensures DecodeFrom(s, a, last, bits, b).Ok? ==>
              var n := |DecodeFrom(s, a, last, bits, b).value|;
              8 * n <= 6 * DataLen(s) + bits < 8 * n + 8
    decreases |s|
  {
    hide JoinBits, AllIn, AllPad, OneAlphabet, TailOk, DataLen, ValueOf;
    if s == [] || s[0] == PAD {
      DecodesNothing(s, a, last, bits, b);
    } else {
      var v := ValueOf(a, s[0]);
      BadCharacter(s, a);
      if v.Ok? {
        AlphabetStep(s, a);
        TailStep(s, b);
        DecodeExactlyWhen(s[1..], v.value.1, v.value.0, if bits == 0 then 6 else bits - 2, b);
      }
    }
  }

  lemma DecodesNothing(s: seq<Byte>, a: Alphabet, last: nat, bits: nat, b: Behavior)
    requires last < 64 && Bits(bits) && (s == [] || s[0] == PAD)
    ensures DecodeFrom(s, a, last, bits, b).Ok? <==> OneAlphabet(s, a) && TailOk(s, b)
    ensures DecodeFrom(s, a, last, bits, b).Ok? ==> DecodeFrom(s, a, last, bits, b) == Ok([])
    ensures DataLen(s) == 0
  {
    hide JoinBits, ValueOf;
    assert s[0..] == s;
    if s != [] {
      PadStep(s);
    }
  }

  lemma TailStep(s: seq<Byte>, b: Behavior)
    requires s != [] && s[0] != PAD
    ensures TailOk(s, b) <==> TailOk(s[1..], b)
    ensures DataLen(s) == 1 + DataLen(s[1..])
  {
    hide AllPad;
    assert s[DataLen(s)..] == s[1..][DataLen(s[1..])..];
  }

  lemma BadCharacter(s: seq<Byte>, a: Alphabet)
    requires s != [] && s[0] != PAD
    ensures ValueOf(a, s[0]).Err? ==> !OneAlphabet(s, a)
  {
    hide AllIn;
    AllInStep(s, Standard);
    AllInStep(s, UrlSafe);
  }

  lemma PadStep(s: seq<Byte>)
    requires s != [] && s[0] == PAD
    ensures AllPad(s) <==> AllPad(s[1..])
  {
    if AllPad(s[1..]) {
      forall i | 0 <= i < |s| ensures s[i] == PAD {
        if i > 0 { assert s[i] == s[1..][i - 1]; }
      }
    }
  }

  lemma AlphabetStep(s: seq<Byte>, a: Alphabet)
    requires s != [] && s[0] != PAD && ValueOf(a, s[0]).Ok?
    ensures OneAlphabet(s, a) <==> OneAlphabet(s[1..], ValueOf(a, s[0]).value.1)
  {
    hide AllIn;
    AllInStep(s, Standard);
    AllInStep(s, UrlSafe);
  }

  /** n characters give floor(3n/4) bytes, and never more than max_decode_size. */
  lemma DecodedSize(s: seq<Byte>, a: Alphabet, b: Behavior)
    requires Decode(s, a, b).Ok?
    ensures |Decode(s, a, b).value| == 3 * DataLen(s) / 4 <= MaxDecodeSize(|s|)
  {
    DecodeExactlyWhen(s, a, 0, 0, b);
  }

  /** Detection never accepts text that mixes the two alphabets. */
  lemma NeverMixed(s: seq<Byte>, b: Behavior, i: nat, j: nat)
    requires Decode(s, Auto, b).Ok? && i < DataLen(s) && j < DataLen(s)
    ensures !((s[i] == '+' as int || s[i] == '/' as int) && (s[j] == '-' as int || s[j] == '_' as int))
  {
    DecodeExactlyWhen(s, Auto, 0, 0, b);
  }

  // ----- decoding in place -----

  /** decode with input and output the same buffer: returns how many bytes were written. */
  method DecodeInPlace(buf: array<Byte>, alphabet: Alphabet, behavior: Behavior)
    returns (r: Result<nat, Base64Error>)
    modifies buf
    ensures r.Ok? <==> Decode(old(buf[..]), alphabet, behavior).Ok?
    ensures r.Ok? ==> r.value <= buf.Length && Ok(buf[..r.value]) == Decode(old(buf[..]), alphabet, behavior)
    ensures r.Ok? ==> buf[r.value..] == old(buf[..])[r.value..]
  {
    hide DecodeFrom, JoinBits, ValueOf, AllPad, Written;
    ghost var s := buf[..];
    ghost var goal := Decode(s, alphabet, behavior);
    var a := alphabet;
    var last: nat, bits: nat, i: nat, out: nat := 0, 0, 0, 0;
    assert s[0..] == s && buf[..0] == [];
    WrittenNothing(goal);
    while i < buf.Length
      invariant i <= buf.Length && Bits(bits) && last < 64
      invariant 8 * out + bits == 6 * i
      invariant buf[out..] == s[out..]
      invariant Written(buf[..out], DecodeFrom(s[i..], a, last, bits, behavior)) == goal
      decreases buf.Length - i
    {
      assert buf[i] == buf[out..][i - out] == s[i];
      DecodeStep(s, i, a, last, bits, behavior);
      var c := buf[i];
      i := i + 1;
      if c == PAD {
        if behavior != Loose {
          var rest := FindNonPad(buf, i);
          assert buf[i..] == buf[out..][i - out..] && s[i..] == s[out..][i - out..];
          if rest {
            WrittenError(buf[..out], InvalidCharacter);
            return Err(InvalidCharacter);
          }
        }
        WrittenEnd(buf[..out]);
        return Ok(out);
      }
      var part := ValueOf(a, c);
      if part.Err? {
        WrittenError(buf[..out], part.error);
        return Err(part.error);
      }
      if bits + 6 >= 8 {
        ghost var before, behind := buf[..out], buf[out..];
        var x := JoinBits(last, part.value.0, bits);
        buf[out] := x;
        assert buf[..out + 1] == before + [x];
        assert buf[out + 1..] == behind[1..] == s[out + 1..];
        WrittenOne(before, x, DecodeFrom(s[i..], part.value.1, part.value.0, bits - 2, behavior));
        out := out + 1;
        bits := bits - 2;
      } else {
        bits := bits + 6;
      }
      last := part.value.0;
      a := part.value.1;
    }
    assert s[|s|..] == [];
    DecodeNothing(a, last, bits, behavior);
    WrittenEnd(buf[..out]);
    return Ok(out);
  }

  /** One turn of the decoding loop, at position i. */
  lemma DecodeStep(s: seq<Byte>, i: nat, a: Alphabet, last: nat, bits: nat, b: Behavior)
    requires i < |s| && last < 64 && Bits(bits)
    ensures var r := DecodeFrom(s[i..], a, last, bits, b);
      if s[i] == PAD then r == if b == Loose || AllPad(s[i + 1..]) then Ok([]) else Err(InvalidCharacter)
      else
        match ValueOf(a, s[i])
        case Err(e) => r == Err(e)
        case Ok((part, a')) =>
          if bits == 0 then r == DecodeFrom(s[i + 1..], a', part, 6, b)
          else
            var rest := DecodeFrom(s[i + 1..], a', part, bits - 2, b);
            r == if rest.Ok? then Ok([JoinBits(last, part, bits)] + rest.value) else rest
  {
    hide JoinBits, ValueOf, AllPad;
    assert s[i..][1..] == s[i + 1..];
  }

  lemma WrittenError(done: seq<Byte>, e: Base64Error)
    ensures Written(done, Err(e)) == Err(e)
  {
  }

  lemma WrittenEnd(done: seq<Byte>)
    ensures Written(done, Ok([])) == Ok(done)
  {
    assert done + [] == done;
  }

  function Written(done: seq<Byte>, rest: Result<seq<Byte>, Base64Error>): Result<seq<Byte>, Base64Error> {
    if rest.Ok? then Ok(done + rest.value) else rest
  }

  lemma WrittenNothing(rest: Result<seq<Byte>, Base64Error>)
    ensures Written([], rest) == rest
  {
    if rest.Ok? { assert [] + rest.value == rest.value; }
  }

  lemma WrittenOne(done: seq<Byte>, x: Byte, rest: Result<seq<Byte>, Base64Error>)
    ensures Written(done + [x], rest) == Written(done, if rest.Ok? then Ok([x] + rest.value) else rest)
  {
    if rest.Ok? { Regroup(done, [x], rest.value); }
  }

  /** Whether anything but padding follows. */
  method FindNonPad(buf: array<Byte>, start: nat) returns (found: bool)
    requires start <= buf.Length
    ensures found <==> !AllPad(buf[start..])
  {
    var i := start;
    while i < buf.Length
      invariant start <= i <= buf.Length
      invariant forall k :: start <= k < i ==> buf[k] == PAD
    {
      if buf[i] != PAD {
        assert buf[start..][i - start] != PAD;
        return true;
      }
      i := i + 1;
    }
    return false;
  }

  /** decode into a separate output. */
  method DecodeOutOfPlace(s: seq<Byte>, alphabet: Alphabet, behavior: Behavior)
    returns (r: Result<seq<Byte>, Base64Error>)
    ensures r == Decode(s, alphabet, behavior)
  {
    hide DecodeFrom, JoinBits, ValueOf, AllPad, Written;
    var out: seq<Byte> := [];
    var a := alphabet;
    var last: nat, bits: nat, i: nat := 0, 0, 0;
    assert s[0..] == s;
    WrittenNothing(Decode(s, alphabet, behavior));
    while i < |s|
      invariant i <= |s| && Bits(bits) && last < 64
      invariant Written(out, DecodeFrom(s[i..], a, last, bits, behavior)) == Decode(s, alphabet, behavior)
    {
      DecodeStep(s, i, a, last, bits, behavior);
      var c := s[i];
      i := i + 1;
      if c == PAD {
        ghost var rest := i;
        if behavior != Loose {
          while i < |s|
            invariant rest <= i <= |s| && (AllPad(s[rest..]) <==> AllPad(s[i..]))
          {
            PadHead(s, i);
            if s[i] != PAD {
              WrittenError(out, InvalidCharacter);
              return Err(InvalidCharacter);
            }
            i := i + 1;
          }
          NoPad(s);
        }
        WrittenEnd(out);
        return Ok(out);
      }
      var part := ValueOf(a, c);
      if part.Err? {
        WrittenError(out, part.error);
        return Err(part.error);
      }
      if bits + 6 >= 8 {
        WrittenOne(out, JoinBits(last, part.value.0, bits),
                   DecodeFrom(s[i..], part.value.1, part.value.0, bits - 2, behavior));
        out := out + [JoinBits(last, part.value.0, bits)];
        bits := bits - 2;
      } else {
        bits := bits + 6;
      }
      last := part.value.0;
      a := part.value.1;
    }
    assert s[|s|..] == [];
    DecodeNothing(a, last, bits, behavior);
    WrittenEnd(out);
    return Ok(out);
  }

  lemma PadHead(s: seq<Byte>, i: nat)
    requires i < |s|
    ensures AllPad(s[i..]) <==> s[i] == PAD && AllPad(s[i + 1..])
  {
    assert s[i..][1..] == s[i + 1..];
    assert s[i..][0] == s[i];
    if s[i] == PAD {
      PadStep(s[i..]);
    }
  }

  lemma NoPad(s: seq<Byte>)
    ensures AllPad(s[|s|..])
  {
  }
}
