/** Base64 as sections 4 and 5 of RFC 4648 describe it: bytes and characters carry the same bits. */
module Base64Laws {
  import opened Wrappers
  import opened Base64
  import opened Masks

  const UPPER := "ABCDEFGHIJKLMNOPQRSTUVWXYZ"
  const LOWER := "abcdefghijklmnopqrstuvwxyz"
  const DIGITS := "0123456789"
  const STANDARD := UPPER + LOWER + DIGITS + "+/"
  const URL_SAFE := UPPER + LOWER + DIGITS + "-_"

  predicate Stands(table: string, c: Byte, v: nat) {
    v < |table| && table[v] == c as char
  }

  lemma Ranges(i: nat)
    ensures i < 26 ==> UPPER[i] == (65 + i) as char && LOWER[i] == (97 + i) as char
    ensures i < 10 ==> DIGITS[i] == (48 + i) as char
  {
  }

  lemma CharMeans(v: nat, a: Alphabet)
    requires v < 64
    ensures Stands(if a == UrlSafe then URL_SAFE else STANDARD, CharOf(v, a), v)
  {
    Ranges(if v < 26 then v else if v < 52 then v - 26 else if v < 62 then v - 52 else 0);
    Lengths();
    hide UPPER, LOWER, DIGITS;
  }

  lemma Lengths()
    ensures |UPPER| == 26 && |LOWER| == 26 && |DIGITS| == 10
  {
  }

  /** A character has its place in the table of the alphabet, and detection takes either table. */
  lemma ValueMeans(a: Alphabet, c: Byte, v: nat)
    requires v < 64
    ensures (ValueOf(a, c).Ok? && ValueOf(a, c).value.0 == v) <==>
              || (a != UrlSafe && Stands(STANDARD, c, v))
              || (a != Standard && Stands(URL_SAFE, c, v))
  {
    CharMeans(v, Standard);
    CharMeans(v, UrlSafe);
    StandsOnce(v, c);
    hide Stands;
  }

  lemma StandsOnce(v: nat, c: Byte)
    requires v < 64
    ensures Stands(STANDARD, c, v) <==> c == CharOf(v, Standard)
    ensures Stands(URL_SAFE, c, v) <==> c == CharOf(v, UrlSafe)
  {
    CharMeans(v, Standard);
    CharMeans(v, UrlSafe);
    hide CharOf;
  }

  // ----- bits, the most significant first -----

  function BitsOf(v: nat, width: nat): (r: seq<nat>)
    ensures |r| == width
  {
    if width == 0 then [] else BitsOf(v / 2, width - 1) + [v % 2]
  }

  lemma {:induction false} BitsJoin(high: nat, width: nat, low: nat, k: nat)
    requires low < Pow2(k)
    ensures BitsOf(high * Pow2(k) + low, width + k) == BitsOf(high, width) + BitsOf(low, k)
  {
    if k > 0 {
      var p := Pow2(k - 1);
      assert high * Pow2(k) == 2 * (high * p);
      BitsJoin(high, width, low / 2, k - 1);
      var v := high * Pow2(k) + low;
      assert v / 2 == high * p + low / 2 && v % 2 == low % 2;
      assert width + k - 1 == width + (k - 1);
    }
  }

  /** The bits of the numbers of a list, each with the same width. */
  function AllBits(vs: seq<nat>, width: nat): (r: seq<nat>)
    ensures |r| == width * |vs|
  {
    if vs == [] then [] else
      assert width * |vs| == width + width * |vs[1..]|;
      BitsOf(vs[0], width) + AllBits(vs[1..], width)
  }

  lemma Powers()
    ensures Pow2(0) == 1 && Pow2(2) == 4 && Pow2(4) == 16 && Pow2(6) == 64
  {
    assert Pow2(1) == 2;
    assert Pow2(3) == 8;
    assert Pow2(5) == 32;
  }

  /** The text is data characters with the values vs, then pads or whatever is not data. */
  ghost predicate Carries(s: seq<Byte>, vs: seq<nat>) {
    && |vs| == DataLen(s)
    && forall i :: 0 <= i < |vs| ==> Stands(STANDARD, s[i], vs[i]) || Stands(URL_SAFE, s[i], vs[i])
  }

  // ----- decoding -----

  /** The byte that JoinBits makes has the bits left over, and then the first ones of the next value. */
  lemma JoinMeans(last: nat, part: nat, bits: nat)
    requires last < 64 && part < 64 && (bits == 2 || bits == 4 || bits == 6)
    ensures BitsOf(last % Pow2(bits), bits) + BitsOf(part, 6)
         == BitsOf(JoinBits(last, part, bits), 8) + BitsOf(part % Pow2(bits - 2), bits - 2)
  {
    hide BitsOf, Pow2, JoinBits;
    Powers();
    if bits == 2 {
      JoinTwo(last, part);
    } else if bits == 4 {
      JoinFour(last, part);
    } else {
      JoinSix(last, part);
    }
  }

  lemma JoinTwo(last: nat, part: nat)
    requires last < 64 && part < 64
    ensures BitsOf(last % 4, 2) + BitsOf(part, 6) == BitsOf(JoinBits(last, part, 2), 8) + BitsOf(part % 1, 0)
  {
    hide BitsOf, Pow2;
    Powers();
    assert last * 64 % 256 == last % 4 * 64;
    BitsJoin(last % 4, 2, part, 6);
    assert BitsOf(part % 1, 0) == [];
  }

  lemma JoinFour(last: nat, part: nat)
    requires last < 64 && part < 64
    ensures BitsOf(last % 16, 4) + BitsOf(part, 6) == BitsOf(JoinBits(last, part, 4), 8) + BitsOf(part % 4, 2)
  {
    hide BitsOf, Pow2;
    Powers();
    assert last * 16 % 256 == last % 16 * 16;
    BitsJoin(last % 16, 4, part / 4, 4);
    BitsJoin(part / 4, 4, part % 4, 2);
  }

  lemma JoinSix(last: nat, part: nat)
    requires last < 64 && part < 64
    ensures BitsOf(last % 64, 6) + BitsOf(part, 6) == BitsOf(JoinBits(last, part, 6), 8) + BitsOf(part % 16, 4)
  {
    hide BitsOf, Pow2;
    Powers();
    var high, low := part / 16, part % 16;
    assert part == high * 16 + low && high < 4 && last % 64 == last;
    assert JoinBits(last, part, 6) == last * 4 + high;
    BitsJoin(last, 6, high, 2);
    BitsJoin(high, 2, low, 4);
  }

  lemma {:induction false} DecodesBits(s: seq<Byte>, a: Alphabet, last: nat, bits: nat, b: Behavior, vs: seq<nat>)
    requires last < 64 && Bits(bits) && Carries(s, vs) && DecodeFrom(s, a, last, bits, b).Ok?
    ensures var r := DecodeFrom(s, a, last, bits, b).value;
            AllBits(r, 8) <= BitsOf(last % Pow2(bits), bits) + AllBits(vs, 6)
    decreases |s|
  {
    hide JoinBits, Stands, BitsOf, ValueOf;
    if s != [] && s[0] != PAD {
      var v := ValueOf(a, s[0]).value;
      OneValue(a, s[0], vs[0]);
      CarriesRest(s, vs);
      var left := if bits == 0 then 6 else bits - 2;
      DecodesBits(s[1..], v.1, v.0, left, b, vs[1..]);
      var rest := DecodeFrom(s[1..], v.1, v.0, left, b).value;
      if bits == 0 {
        Powers();
        assert BitsOf(last % Pow2(0), 0) == [];
      } else {
        JoinMeans(last, v.0, bits);
        Prefixed(BitsOf(last % Pow2(bits), bits), BitsOf(v.0, 6), AllBits(vs[1..], 6),
                 BitsOf(JoinBits(last, v.0, bits), 8), BitsOf(v.0 % Pow2(left), left), AllBits(rest, 8));
      }
    }
  }

  lemma Prefixed<T>(a: seq<T>, b: seq<T>, c: seq<T>, d: seq<T>, e: seq<T>, f: seq<T>)
    requires a + b == d + e && f <= e + c
    ensures d + f <= a + (b + c)
  {
    assert a + (b + c) == (a + b) + c == d + (e + c);
  }

  lemma OneValue(a: Alphabet, c: Byte, v: nat)
    requires ValueOf(a, c).Ok? && (Stands(STANDARD, c, v) || Stands(URL_SAFE, c, v))
    ensures ValueOf(a, c).value.0 == v
  {
    assert |STANDARD| == 64 && |URL_SAFE| == 64;
    ValueMeans(Auto, c, v);
  }

  lemma CarriesRest(s: seq<Byte>, vs: seq<nat>)
    requires Carries(s, vs) && s != [] && s[0] != PAD
    ensures vs != [] && Carries(s[1..], vs[1..])
    ensures Stands(STANDARD, s[0], vs[0]) || Stands(URL_SAFE, s[0], vs[0])
  {
    hide Stands;
    assert DataLen(s) == 1 + DataLen(s[1..]);
    forall i | 0 <= i < |vs[1..]| ensures Stands(STANDARD, s[1..][i], vs[1..][i]) || Stands(URL_SAFE, s[1..][i], vs[1..][i]) {
      assert s[1..][i] == s[i + 1] && vs[1..][i] == vs[i + 1];
    }
  }

  /** Decoding gives the bits of the data characters, but for the last ones that make no whole byte. */
  lemma DecodeMeans(s: seq<Byte>, a: Alphabet, b: Behavior, vs: seq<nat>)
    requires Carries(s, vs) && Decode(s, a, b).Ok?
    ensures var r := Decode(s, a, b).value;
            AllBits(r, 8) <= AllBits(vs, 6) && |AllBits(vs, 6)| < |AllBits(r, 8)| + 8
  {
    DecodesBits(s, a, 0, 0, b, vs);
    DecodeExactlyWhen(s, a, 0, 0, b);
    assert BitsOf(0 % Pow2(0), 0) == [];
  }

  // ----- encoding -----

  /** Data characters of the alphabet, pads up to a multiple of four, and only zeros after the bits of x. */
  ghost predicate Encodes(s: seq<Byte>, x: seq<Byte>, a: Alphabet, vs: seq<nat>) {
    && |s| % 4 == 0 && |vs| <= |s| < |vs| + 4
    && (forall i :: 0 <= i < |vs| ==> Stands(if a == UrlSafe then URL_SAFE else STANDARD, s[i], vs[i]))
    && AllPad(s[|vs|..])
    && 0 <= 6 * |vs| - 8 * |x| < 6 && AllBits(x, 8) <= AllBits(vs, 6)
    && (x != [] ==> vs != [] && vs[|vs| - 1] % Pow2(6 * |vs| - 8 * |x|) == 0)
  }

  ghost predicate Shaped(s: seq<Byte>, n: nat, a: Alphabet, vs: seq<nat>) {
    && |s| % 4 == 0 && |vs| <= |s| < |vs| + 4
    && (forall i :: 0 <= i < |vs| ==> vs[i] < 64 && s[i] == CharOf(vs[i], a))
    && AllPad(s[|vs|..])
    && 0 <= 6 * |vs| - 8 * n < 6
    && (n > 0 ==> vs != [] && vs[|vs| - 1] % Pow2(6 * |vs| - 8 * n) == 0)
  }

  lemma {:induction false} EncodeShaped(x: seq<Byte>, a: Alphabet) returns (vs: seq<nat>)
    ensures Shaped(EncodeOf(x, a), |x|, a, vs)
  {
    hide CharOf, Pow2, EncodeOf, Shaped;
    if |x| < 3 {
      vs := TailShaped(x, a);
    } else {
      var four := [x[0] / 4, x[0] % 4 * 16 + x[1] / 16, x[1] % 16 * 4 + x[2] / 64, x[2] % 64];
      var rest := EncodeShaped(x[3..], a);
      vs := four + rest;
      GroupOf(x, a);
      ShapedMore(EncodeOf(x[3..], a), |x| - 3, a, rest, four);
    }
  }

  lemma TailShaped(x: seq<Byte>, a: Alphabet) returns (vs: seq<nat>)
    requires |x| < 3
    ensures Shaped(EncodeOf(x, a), |x|, a, vs)
  {
    hide CharOf, Pow2;
    Powers();
    if |x| == 0 {
      vs := [];
    } else if |x| == 1 {
      vs := [x[0] / 4, x[0] % 4 * 16];
      TailOf([x[0] / 4], x[0] % 4 * 16, [PAD, PAD], 1, a);
    } else {
      vs := [x[0] / 4, x[0] % 4 * 16 + x[1] / 16, x[1] % 16 * 4];
      TailOf([x[0] / 4, x[0] % 4 * 16 + x[1] / 16], x[1] % 16 * 4, [PAD], 2, a);
    }
  }

  lemma TailOf(front: seq<nat>, last: nat, pads: seq<Byte>, n: nat, a: Alphabet)
    requires forall i :: 0 <= i < |front| ==> front[i] < 64
    requires (n == 1 && |front| == 1 && last < 64 && last % 16 == 0 && pads == [PAD, PAD])
          || (n == 2 && |front| == 2 && last < 64 && last % 4 == 0 && pads == [PAD])
    ensures Shaped((if n == 1 then [CharOf(front[0], a)] else [CharOf(front[0], a), CharOf(front[1], a)]) + [CharOf(last, a)] + pads,
                   n, a, front + [last])
  {
    hide CharOf, Pow2;
    Powers();
  }

  lemma ShapedMore(s: seq<Byte>, n: nat, a: Alphabet, vs: seq<nat>, four: seq<nat>)
    requires Shaped(s, n, a, vs) && |four| == 4 && forall i :: 0 <= i < 4 ==> four[i] < 64
    ensures Shaped([CharOf(four[0], a)] + ([CharOf(four[1], a)] + ([CharOf(four[2], a)] + ([CharOf(four[3], a)] + s))), n + 3, a, four + vs)
  {
    hide CharOf, Pow2, AllPad;
    Powers();
    var t, ws := [CharOf(four[0], a)] + ([CharOf(four[1], a)] + ([CharOf(four[2], a)] + ([CharOf(four[3], a)] + s))), four + vs;
    assert t[|ws|..] == s[|vs|..];
    forall i | 0 <= i < |ws| ensures ws[i] < 64 && t[i] == CharOf(ws[i], a) {
      if i >= 4 { assert ws[i] == vs[i - 4] && t[i] == s[i - 4]; }
    }
    assert 6 * |ws| - 8 * (n + 3) == 6 * |vs| - 8 * n;
    if vs == [] { assert n == 0; }
    else { assert ws[|ws| - 1] == vs[|vs| - 1]; }
  }

  /** The text of every encoding. */
  lemma EncodeMeans(x: seq<Byte>, a: Alphabet) returns (vs: seq<nat>)
    ensures Encodes(EncodeOf(x, a), x, a, vs)
  {
    hide CharOf, Pow2, EncodeOf, Stands, DecodeFrom, AllBits;
    vs := EncodeShaped(x, a);
    var s := EncodeOf(x, a);
    forall i | 0 <= i < |vs| ensures Stands(if a == UrlSafe then URL_SAFE else STANDARD, s[i], vs[i]) {
      CharMeans(vs[i], a);
    }
    assert DataLen(s) == |vs| by { assert |vs| < |s| ==> s[|vs|] == s[|vs|..][0]; }
    RoundTrip(x, a, a, Moderate);
    DecodeMeans(s, a, Moderate, vs);
  }
}
