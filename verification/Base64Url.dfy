/**
 The base64url decoder of `coold/src/grpc/host_jwt.rs` and the encoder of its tests: section 5 of
 RFC 4648, without padding. Both keep their pending bits in a 32-bit buffer that is never masked,
 so bits that were already written out are shifted away at the top.
 */
module Base64Url {
  import opened Text
  import opened Ipv4

  type Byte = n: nat | n < 256

  const WORD: nat := 0x1_0000_0000

  // ----- bits, most significant first -----

  function Bits(v: nat, k: nat): (r: seq<bool>)
    ensures |r| == k
  {
    if k == 0 then [] else Bits(v / 2, k - 1) + [v % 2 == 1]
  }

  /** All the bits of a list of `width`-bit digits. */
  function Stream(digits: seq<nat>, width: nat): (r: seq<bool>)
    ensures |r| == width * |digits|
  {
    if digits == [] then []
    else Stream(digits[..|digits| - 1], width) + Bits(digits[|digits| - 1], width)
  }

  lemma StreamSnoc(digits: seq<nat>, d: nat, width: nat)
    ensures Stream(digits + [d], width) == Stream(digits, width) + Bits(d, width)
  {
    assert (digits + [d])[..|digits|] == digits;
  }

  /** The shift to the right. */
  function Shr(x: nat, k: nat): nat { if k == 0 then x else Shr(x / 2, k - 1) }

  /** A number's bits are those of its high part and then those of its low part. */
  lemma {:induction false} BitsSplit(x: nat, j: nat, k: nat)
    ensures Bits(x, j + k) == Bits(Shr(x, k), j) + Bits(x, k)
  {
    if k > 0 { BitsSplit(x / 2, j, k - 1); }
  }

  lemma {:induction false} ShrUndoes(x: nat, k: nat, low: nat)
    requires low < Pow2(k)
    ensures Shr(x * Pow2(k) + low, k) == x
  {
    if k > 0 {
      var half := x * Pow2(k - 1);
      assert x * Pow2(k) == 2 * half;
      assert (2 * half + low) / 2 == half + low / 2;
      ShrUndoes(x, k - 1, low / 2);
    }
  }

  /** Only a number modulo 2^k shows in its low k bits. */
  lemma {:induction false} BitsLow(x: nat, c: nat, k: nat)
    ensures Bits(x + c * Pow2(k), k) == Bits(x, k)
  {
    if k > 0 {
      assert c * Pow2(k) == 2 * (c * Pow2(k - 1));
      BitsLow(x / 2, c, k - 1);
      assert (x + 2 * (c * Pow2(k - 1))) / 2 == x / 2 + c * Pow2(k - 1);
    }
  }

  lemma {:induction false} BitsInjective(a: nat, b: nat, k: nat)
    requires a < Pow2(k) && b < Pow2(k) && Bits(a, k) == Bits(b, k)
    ensures a == b
  {
    if k > 0 {
      var x, y := Bits(a, k), Bits(b, k);
      assert x[..k - 1] == Bits(a / 2, k - 1) && y[..k - 1] == Bits(b / 2, k - 1);
      assert x[k - 1] == (a % 2 == 1) && y[k - 1] == (b % 2 == 1);
      BitsInjective(a / 2, b / 2, k - 1);
    }
  }

  lemma Cancel(p: seq<bool>, q: seq<bool>, r: seq<bool>, s: seq<bool>)
    requires p + q == r + s && |q| == |s|
    ensures p == r && q == s
  {
    assert |p| == |r|;
    assert p == (p + q)[..|p|] && r == (r + s)[..|p|];
    assert q == (p + q)[|p|..] && s == (r + s)[|p|..];
  }

  lemma {:induction false} StreamInjective(a: seq<nat>, b: seq<nat>, width: nat)
    requires |a| == |b| && Stream(a, width) == Stream(b, width)
    requires forall i :: 0 <= i < |a| ==> a[i] < Pow2(width) && b[i] < Pow2(width)
    ensures a == b
  {
    hide Bits, Pow2;
    if a != [] {
      var n := |a| - 1;
      Cancel(Stream(a[..n], width), Bits(a[n], width), Stream(b[..n], width), Bits(b[n], width));
      StreamInjective(a[..n], b[..n], width);
      BitsInjective(a[n], b[n], width);
      assert a == a[..n] + [a[n]] && b == b[..n] + [b[n]];
    }
  }

  // ----- the buffer -----

  lemma SmallPowers()
    ensures Pow2(0) == 1 && Pow2(1) == 2 && Pow2(2) == 4 && Pow2(3) == 8 && Pow2(4) == 16 && Pow2(5) == 32
    ensures Pow2(6) == 64 && Pow2(8) == 256
  {
  }

  /** What a shift to the left by `w` and an or with a `w`-bit digit leave in a 32-bit buffer. */
  function Push(buffer: U32, w: nat, digit: nat): U32
    requires w <= 8 && digit < Pow2(w)
  {
    ModBounds(buffer * Pow2(w) + digit, WORD);
    (buffer * Pow2(w) + digit) % WORD
  }

  /** The bits pending in the buffer are followed by those of the digit, though the buffer wraps. */
  lemma PushBits(buffer: U32, bits: nat, w: nat, digit: nat)
    requires w <= 8 && digit < Pow2(w) && bits + w <= 32
    ensures Bits(Push(buffer, w, digit), bits + w) == Bits(buffer, bits) + Bits(digit, w)
  {
    hide Bits, Pow2, Shr;
    var x := buffer * Pow2(w) + digit;
    WrapBits(x, bits + w);
    BitsSplit(x, bits, w);
    ShrUndoes(buffer, w, digit);
    BitsLow(digit, buffer, w);
  }

  lemma WrapBits(x: nat, k: nat)
    requires k <= 32
    ensures Bits(x % WORD, k) == Bits(x, k)
  {
    Pow2Whole();
    Pow2Add(32 - k, k);
    var q := x / WORD;
    assert x == x % WORD + q * WORD;
    assert q * WORD == (q * Pow2(32 - k)) * Pow2(k) by { MulAssoc(q, Pow2(32 - k), Pow2(k)); }
    BitsLow(x % WORD, q * Pow2(32 - k), k);
  }

  /** A digit taken from the top of the pending bits, the high part of the buffer cut off. */
  function Top(buffer: U32, bits: nat, w: nat): (d: nat)
    requires w <= bits
    ensures d < Pow2(w)
  {
    Remainder(Shr(buffer, bits - w), Pow2(w));
    Shr(buffer, bits - w) % Pow2(w)
  }

  lemma Remainder(x: nat, m: nat)
    requires m > 0
    ensures 0 <= x % m < m && x / m >= 0 && x == x % m + x / m * m
  {
  }

  lemma TopBits(buffer: U32, bits: nat, w: nat)
    requires w <= bits
    ensures Bits(buffer, bits) == Bits(Top(buffer, bits, w), w) + Bits(buffer, bits - w)
  {
    var y := Shr(buffer, bits - w);
    BitsSplit(buffer, w, bits - w);
    Remainder(y, Pow2(w));
    BitsLow(Top(buffer, bits, w), y / Pow2(w), w);
  }

  // ----- the alphabet -----

  function Sextet(b: Byte): (r: Option<nat>)
    ensures r.Some? ==> r.value < 64
  {
    if 65 <= b <= 90 then Some(b - 65)
    else if 97 <= b <= 122 then Some(b - 97 + 26)
    else if 48 <= b <= 57 then Some(b - 48 + 52)
    else if b == 45 then Some(62)
    else if b == 95 then Some(63)
    else None
  }

  function Letter(v: nat): (b: Byte)
    requires v < 64
    ensures Sextet(b) == Some(v)
  {
    if v < 26 then v + 65 else if v < 52 then v - 26 + 97 else if v < 62 then v - 52 + 48
    else if v == 62 then 45 else 95
  }

  /** The URL and filename safe alphabet: Table 2 of RFC 4648, values 0 to 63. */
  const ALPHABET: string :=
    ("ABCDEFGH" + "IJKLMNOP" + "QRSTUVWX" + "YZabcdef") + ("ghijklmn" + "opqrstuv" + "wxyz0123" + "456789-_")

  predicate InAlphabet(input: seq<Byte>) { forall i :: 0 <= i < |input| ==> input[i] as char in ALPHABET }

  /** Where each byte stands in the alphabet. */
  function Positions(input: seq<Byte>): (r: seq<nat>)
    ensures |r| == |input|
  {
    seq(|input|, i requires 0 <= i < |input| => IndexOf(ALPHABET, input[i] as char))
  }

  /** Eight letters, given one by one. */
  lemma RowIs(row: string, v: nat, a: char, b: char, c: char, d: char, e: char, f: char, g: char, h: char)
    requires row == [a, b, c, d, e, f, g, h] && v < 8
    ensures row[v] == if v == 0 then a else if v == 1 then b else if v == 2 then c else if v == 3 then d
                      else if v == 4 then e else if v == 5 then f else if v == 6 then g else h
  {
  }

  lemma HalvesAre(v: nat)
    requires v < 64
    ensures |ALPHABET| == 64
    ensures ALPHABET[v] == if v < 32 then ("ABCDEFGH" + "IJKLMNOP" + "QRSTUVWX" + "YZabcdef")[v]
                           else ("ghijklmn" + "opqrstuv" + "wxyz0123" + "456789-_")[v - 32]
  {
  }

  lemma FourRows(p: string, q: string, r: string, s: string, v: nat)
    requires |p| == |q| == |r| == |s| == 8 && v < 32
    ensures (p + q + r + s)[v] == if v < 8 then p[v] else if v < 16 then q[v - 8] else if v < 24 then r[v - 16] else s[v - 24]
  {
  }

  lemma LetterIs(v: nat)
    requires v < 64
    ensures |ALPHABET| == 64 && ALPHABET[v] as int == Letter(v)
  {
    HalvesAre(v);
    if v < 32 {
      FourRows("ABCDEFGH", "IJKLMNOP", "QRSTUVWX", "YZabcdef", v);
    } else {
      FourRows("ghijklmn", "opqrstuv", "wxyz0123", "456789-_", v - 32);
    }
    if v < 8 { RowIs("ABCDEFGH", v, 'A', 'B', 'C', 'D', 'E', 'F', 'G', 'H'); }
    if 8 <= v < 16 { RowIs("IJKLMNOP", v - 8, 'I', 'J', 'K', 'L', 'M', 'N', 'O', 'P'); }
    if 16 <= v < 24 { RowIs("QRSTUVWX", v - 16, 'Q', 'R', 'S', 'T', 'U', 'V', 'W', 'X'); }
    if 24 <= v < 32 { RowIs("YZabcdef", v - 24, 'Y', 'Z', 'a', 'b', 'c', 'd', 'e', 'f'); }
    if 32 <= v < 40 { RowIs("ghijklmn", v - 32, 'g', 'h', 'i', 'j', 'k', 'l', 'm', 'n'); }
    if 40 <= v < 48 { RowIs("opqrstuv", v - 40, 'o', 'p', 'q', 'r', 's', 't', 'u', 'v'); }
    if 48 <= v < 56 { RowIs("wxyz0123", v - 48, 'w', 'x', 'y', 'z', '0', '1', '2', '3'); }
    if 56 <= v < 64 { RowIs("456789-_", v - 56, '4', '5', '6', '7', '8', '9', '-', '_'); }
  }

  /** The decoder's arithmetic gives a byte's position in the alphabet, and nothing for other bytes. */
  lemma SextetIsPosition(b: Byte)
    ensures Sextet(b) == if b as char in ALPHABET then Some(IndexOf(ALPHABET, b as char)) else None
  {
    hide IndexOf, Letter, ALPHABET;
    LetterIs(0);
    if Sextet(b).Some? {
      LetterIs(Sextet(b).value);
    }
    if b as char in ALPHABET {
      LetterIs(IndexOf(ALPHABET, b as char));
    }
  }

  lemma PositionsSnoc(input: seq<Byte>, b: Byte)
    ensures InAlphabet(input) && Sextet(b).Some? ==> InAlphabet(input + [b]) && Positions(input + [b]) == Positions(input) + [Sextet(b).value]
    ensures Sextet(b).None? ==> !InAlphabet(input + [b])
  {
    hide Sextet;
    SextetIsPosition(b);
    assert (input + [b])[|input|] == b;
  }

  lemma NothingOutside()
    ensures InAlphabet([]) && Positions([]) == []
    ensures Stream([], 8) == [] && Stream([], 6) == []
  {
  }

  lemma NotAllInAlphabet(input: seq<Byte>, n: nat)
    requires n <= |input| && !InAlphabet(input[..n])
    ensures !InAlphabet(input)
  {
    var i :| 0 <= i < n && input[..n][i] as char !in ALPHABET;
    assert input[i] == input[..n][i];
  }

  // ----- what decoding and encoding mean -----

  /** No result for text outside the alphabet; else as many whole bytes as the text's bits make up,
      holding exactly those bits. */
  ghost predicate IsDecoded(input: seq<Byte>, r: Option<seq<Byte>>) {
    if !InAlphabet(input) then r == None
    else
      && r.Some? && |r.value| == 6 * |input| / 8
      && Stream(r.value, 8) == Stream(Positions(input), 6)[..8 * |r.value|]
  }

  function Zeros(n: nat): (r: seq<bool>)
    ensures |r| == n
  {
    seq(n, _ => false)
  }

  /** The bytes' bits, filled up with zeros to whole digits. */
  ghost predicate IsEncoded(bytes: seq<Byte>, text: seq<Byte>) {
    && InAlphabet(text) && |text| == (8 * |bytes| + 5) / 6
    && Stream(Positions(text), 6) == Stream(bytes, 8) + Zeros(6 * |text| - 8 * |bytes|)
  }

  /** The meaning of decoding leaves one result. */
  lemma DecodedUnique(input: seq<Byte>, r: Option<seq<Byte>>, r': Option<seq<Byte>>)
    requires IsDecoded(input, r) && IsDecoded(input, r')
    ensures r == r'
  {
    if InAlphabet(input) {
      SmallPowers();
      StreamInjective(r.value, r'.value, 8);
    }
  }

  /** Decoding what encodes some bytes gives those bytes, for every byte string. */
  lemma RoundTrip(bytes: seq<Byte>, text: seq<Byte>, r: Option<seq<Byte>>)
    requires IsEncoded(bytes, text) && IsDecoded(text, r)
    ensures r == Some(bytes)
  {
    SmallPowers();
    assert |r.value| == |bytes|;
    StreamInjective(r.value, bytes, 8);
  }

  // ----- the loops -----

  lemma Regroup(a: seq<bool>, b: seq<bool>, c: seq<bool>)
    ensures (a + b) + c == a + (b + c)
  {
  }

  method Decode(input: seq<Byte>) returns (r: Option<seq<Byte>>)
    ensures IsDecoded(input, r)
  {
    hide Bits, Stream, Push, Top, Positions, Shr, Pow2, Sextet, InAlphabet, ALPHABET;
    NothingOutside();
    assert input[..0] == [];
    var out: seq<Byte>, buffer: U32, bits: nat := [], 0, 0;
    for i := 0 to |input|
      invariant InAlphabet(input[..i])
      invariant bits < 8 && bits + 8 * |out| == 6 * i
      invariant Stream(out, 8) + Bits(buffer, bits) == Stream(Positions(input[..i]), 6)
    {
      var v := Sextet(input[i]);
      assert input[..i + 1] == input[..i] + [input[i]];
      PositionsSnoc(input[..i], input[i]);
      if v.None? {
        NotAllInAlphabet(input, i + 1);
        return None;
      }
      SmallPowers();
      StreamSnoc(Positions(input[..i]), v.value, 6);
      PushBits(buffer, bits, 6, v.value);
      Regroup(Stream(out, 8), Bits(buffer, bits), Bits(v.value, 6));
      buffer := Push(buffer, 6, v.value);
      bits := bits + 6;
      if bits >= 8 {
        TopBits(buffer, bits, 8);
        StreamSnoc(out, Top(buffer, bits, 8), 8);
        Regroup(Stream(out, 8), Bits(Top(buffer, bits, 8), 8), Bits(buffer, bits - 8));
        out := out + [Top(buffer, bits, 8)];
        bits := bits - 8;
      }
    }
    assert input[..|input|] == input;
    return Some(out);
  }

  method Encode(bytes: seq<Byte>) returns (text: seq<Byte>)
    ensures IsEncoded(bytes, text)
  {
    hide Bits, Stream, Push, Top, Positions, Shr, Pow2, Sextet, Letter, InAlphabet, ALPHABET;
    NothingOutside();
    var buffer: U32, bits: nat := 0, 0;
    text := [];
    SmallPowers();
    for i := 0 to |bytes|
      invariant InAlphabet(text)
      invariant bits < 6 && bits + 6 * |text| == 8 * i
      invariant Stream(Positions(text), 6) + Bits(buffer, bits) == Stream(bytes[..i], 8)
    {
      assert bytes[..i + 1] == bytes[..i] + [bytes[i]];
      StreamSnoc(bytes[..i], bytes[i], 8);
      PushBits(buffer, bits, 8, bytes[i]);
      Regroup(Stream(Positions(text), 6), Bits(buffer, bits), Bits(bytes[i], 8));
      buffer := Push(buffer, 8, bytes[i]);
      bits := bits + 8;
      while bits >= 6
        invariant InAlphabet(text)
        invariant bits < 14 && bits + 6 * |text| == 8 * (i + 1)
        invariant Stream(Positions(text), 6) + Bits(buffer, bits) == Stream(bytes[..i + 1], 8)
      {
        var v := Top(buffer, bits, 6);
        TopBits(buffer, bits, 6);
        PositionsSnoc(text, Letter(v));
        StreamSnoc(Positions(text), v, 6);
        Regroup(Stream(Positions(text), 6), Bits(v, 6), Bits(buffer, bits - 6));
        bits := bits - 6;
        text := text + [Letter(v)];
      }
    }
    assert bytes[..|bytes|] == bytes;
    if bits > 0 {
      var v := Top(Push(buffer, 6 - bits, 0), 6, 6);
      PushBits(buffer, bits, 6 - bits, 0);
      TopBits(Push(buffer, 6 - bits, 0), 6, 6);
      ZeroBits(6 - bits);
      PositionsSnoc(text, Letter(v));
      StreamSnoc(Positions(text), v, 6);
      Regroup(Stream(Positions(text), 6), Bits(buffer, bits), Zeros(6 - bits));
      text := text + [Letter(v)];
    }
  }

  lemma ZeroBits(k: nat)
    ensures Bits(0, k) == Zeros(k)
  {
    if k > 0 { ZeroBits(k - 1); }
  }

  /** The decoder undoes the encoder. */
  method EncodeThenDecode(bytes: seq<Byte>) returns (r: Option<seq<Byte>>)
    ensures r == Some(bytes)
  {
    var text := Encode(bytes);
    r := Decode(text);
    RoundTrip(bytes, text, r);
  }
}
