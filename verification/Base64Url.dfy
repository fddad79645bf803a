/** Shifts and masks on bytes, read as arithmetic. */
module BitOps {

  lemma AsBits(x: int)
    requires 0 <= x < 256
    ensures (x as bv8) as int == x
  {
  }

  lemma OrIsSum4(x: bv8, y: bv8)
    requires x & 0x0F == 0 && y & 0xF0 == 0
    ensures (x | y) as int == x as int + y as int
  {
  }

  lemma OrIsSum2(x: bv8, y: bv8)
    requires x & 0x03 == 0 && y & 0xFC == 0
    ensures (x | y) as int == x as int + y as int
  {
  }

  lemma TopSix(a: bv8)
    ensures (a >> 2) as int == a as int / 4
  {
  }

  lemma LowTwo(a: bv8)
    ensures ((a & 3) << 4) as int == (a as int % 4) * 16 && ((a & 3) << 4) & 0x0F == 0
  {
  }

  lemma TopFour(b: bv8)
    ensures (b >> 4) as int == b as int / 16 && (b >> 4) & 0xF0 == 0
  {
  }

  lemma LowFour(b: bv8)
    ensures ((b & 15) << 2) as int == (b as int % 16) * 4 && ((b & 15) << 2) & 0x03 == 0
  {
  }

  lemma TopTwo(c: bv8)
    ensures (c >> 6) as int == c as int / 64 && (c >> 6) & 0xFC == 0
  {
  }

  lemma LowSix(c: bv8)
    ensures (c & 63) as int == c as int % 64
  {
  }

  method FirstSextet(x: int) returns (i: int)
    requires 0 <= x < 256
    ensures i == x / 4
  {
    var a := x as bv8;
    AsBits(x);
    TopSix(a);
    i := (a >> 2) as int;
  }

  method SecondSextet(x: int, y: int) returns (i: int)
    requires 0 <= x < 256 && 0 <= y < 256
    ensures i == x % 4 * 16 + y / 16
  {
    var a, b := x as bv8, y as bv8;
    AsBits(x);
    AsBits(y);
    LowTwo(a);
    TopFour(b);
    OrIsSum4((a & 3) << 4, b >> 4);
    i := (((a & 3) << 4) | (b >> 4)) as int;
  }

  method ThirdSextet(x: int, y: int) returns (i: int)
    requires 0 <= x < 256 && 0 <= y < 256
    ensures i == x % 16 * 4 + y / 64
  {
    var b, c := x as bv8, y as bv8;
    AsBits(x);
    AsBits(y);
    LowFour(b);
    TopTwo(c);
    OrIsSum2((b & 15) << 2, c >> 6);
    i := (((b & 15) << 2) | (c >> 6)) as int;
  }

  method FourthSextet(x: int) returns (i: int)
    requires 0 <= x < 256
    ensures i == x % 64
  {
    var c := x as bv8;
    AsBits(x);
    LowSix(c);
    i := (c & 63) as int;
  }
}

/** The encoding of session and participant ids in relay paths: base64url without padding,
    section 5 of RFC 4648, against the standard's own description by groups of bits. */
module Base64Url {
  import opened Values
  import opened BitOps

  const UPPER := "ABCDEFGHIJKLMNOPQRSTUVWXYZ"
  const LOWER := "abcdefghijklmnopqrstuvwxyz"
  const DIGITS := "0123456789"

  /** The URL-safe alphabet, table 2 of RFC 4648. */
  const ALPHABET := UPPER + LOWER + DIGITS + "-_"

  /** The position of a letter in the alphabet. */
  function LetterValue(c: char): Option<nat> {
    if 'A' <= c <= 'Z' then Some(c as int - 'A' as int)
    else if 'a' <= c <= 'z' then Some(c as int - 'a' as int + 26)
    else if '0' <= c <= '9' then Some(c as int - '0' as int + 52)
    else if c == '-' then Some(62)
    else if c == '_' then Some(63)
    else None
  }

  lemma UpperValue(i: nat)
    requires i < 26
    ensures LetterValue(UPPER[i]) == Some(i)
  {
  }

  lemma LowerValue(i: nat)
    requires i < 26
    ensures LetterValue(LOWER[i]) == Some(i + 26)
  {
  }

  lemma DigitValue(i: nat)
    requires i < 10
    ensures LetterValue(DIGITS[i]) == Some(i + 52)
  {
  }

  lemma AlphabetValue(i: nat)
    requires i < 64
    ensures |ALPHABET| == 64 && LetterValue(ALPHABET[i]) == Some(i) && ALPHABET[i] != '/'
  {
    if i < 26 {
      UpperValue(i);
    } else if i < 52 {
      LowerValue(i - 26);
    } else if i < 62 {
      DigitValue(i - 52);
    }
  }

  // ----- bits -----

  function Pow2(n: nat): (r: nat)
    ensures r > 0
  {
    if n == 0 then 1 else 2 * Pow2(n - 1)
  }

  function BitAt(x: nat, k: nat): bool
    decreases k
  {
    if k == 0 then x % 2 == 1 else BitAt(x / 2, k - 1)
  }

  /** The `width` lowest bits of a number, most significant first. */
  function Bits(x: nat, width: nat): (r: seq<bool>)
    ensures |r| == width
  {
    seq(width, i requires 0 <= i < width => BitAt(x, width - 1 - i))
  }

  lemma BitsStep(x: nat, width: nat)
    requires width > 0
    ensures Bits(x, width) == Bits(x / 2, width - 1) + [x % 2 == 1]
  {
    forall i | 0 <= i < width ensures Bits(x, width)[i] == (Bits(x / 2, width - 1) + [x % 2 == 1])[i] {
      if i < width - 1 {
        assert Bits(x, width)[i] == BitAt(x, width - 1 - i) == BitAt(x / 2, width - 2 - i);
        assert Bits(x / 2, width - 1)[i] == BitAt(x / 2, width - 2 - i);
      } else {
        assert Bits(x, width)[i] == BitAt(x, 0);
      }
    }
  }

  lemma Reassociate<T>(a: seq<T>, b: seq<T>, c: seq<T>)
    ensures a + (b + c) == a + b + c
  {
  }

  function Number(bits: seq<bool>): nat {
    if bits == [] then 0 else 2 * Number(bits[..|bits| - 1]) + (if bits[|bits| - 1] then 1 else 0)
  }

  lemma {:induction false} NumberOfBits(x: nat, width: nat)
    requires x < Pow2(width)
    ensures Number(Bits(x, width)) == x
    decreases width
  {
    if width > 0 {
      NumberOfBits(x / 2, width - 1);
      BitsStep(x, width);
      assert Bits(x, width)[..width - 1] == Bits(x / 2, width - 1);
    }
  }

  /** Bits of two numbers side by side are the bits of one. */
  lemma {:induction false} BitsJoin(x: nat, n: nat, y: nat, m: nat)
    requires y < Pow2(m)
    ensures Bits(x, n) + Bits(y, m) == Bits(x * Pow2(m) + y, n + m)
    decreases m
  {
    if m == 0 {
      assert Bits(x, n) + [] == Bits(x, n);
    } else {
      BitsJoin(x, n, y / 2, m - 1);
      var z := x * Pow2(m) + y;
      assert x * Pow2(m) == 2 * (x * Pow2(m - 1));
      assert z / 2 == x * Pow2(m - 1) + y / 2 && z % 2 == y % 2;
      BitsStep(y, m);
      BitsStep(z, n + m);
      assert Bits(x, n) + Bits(y, m) == (Bits(x, n) + Bits(y / 2, m - 1)) + [y % 2 == 1];
    }
  }

  function ByteBits(s: seq<byte>): (r: seq<bool>)
    ensures |r| == 8 * |s|
  {
    if s == [] then [] else Bits(s[0] as nat, 8) + ByteBits(s[1..])
  }

  /** The bits of a string of sextets. */
  function SextetBits(v: seq<nat>): (r: seq<bool>)
    ensures |r| == 6 * |v|
  {
    if v == [] then [] else Bits(v[0], 6) + SextetBits(v[1..])
  }

  /** Bytes as numbers. */
  function Codes(s: seq<byte>): (r: seq<nat>)
    ensures |r| == |s|
  {
    seq(|s|, i requires 0 <= i < |s| => s[i] as nat)
  }

  predicate InAlphabet(s: string) {
    forall i | 0 <= i < |s| :: LetterValue(s[i]).Some?
  }

  function LetterValues(s: string): (r: seq<nat>)
    requires InAlphabet(s)
    ensures |r| == |s|
  {
    seq(|s|, i requires 0 <= i < |s| => LetterValue(s[i]).value)
  }

  function Zeros(n: nat): (r: seq<bool>)
    ensures |r| == n
  {
    seq(n, i => false)
  }

  /** Whole bytes read off a string of bits; what is left over is dropped. */
  function BytesOf(bits: seq<bool>): seq<nat>
    decreases |bits|
  {
    if |bits| < 8 then [] else [Number(bits[..8])] + BytesOf(bits[8..])
  }

  /** The byte values a string of letters stands for. */
  function Decode(s: string): Option<seq<nat>> {
    if InAlphabet(s) then Some(BytesOf(SextetBits(LetterValues(s)))) else None
  }

  // ----- the encoder -----

  predicate AllSextets(v: seq<nat>) {
    forall i | 0 <= i < |v| :: v[i] < 64
  }

  /** Each sextet looked up in a table of 64 letters. */
  function Letters(table: string, v: seq<nat>): (r: string)
    requires AllSextets(v) && |table| == 64
    ensures |r| == |v|
  {
    seq(|v|, i requires 0 <= i < |v| => table[v[i]])
  }

  /** Byte `i`, zero beyond the end. */
  function At(s: seq<byte>, i: nat): nat {
    if i < |s| then s[i] as nat else 0
  }

  function Least(m: nat, n: nat): nat {
    if m < n then m else n
  }

  /** Three bytes as four sextets. */
  function Regroup(a: nat, b: nat, c: nat): (r: seq<nat>)
    requires a < 256 && b < 256 && c < 256
    ensures |r| == 4 && AllSextets(r)
  {
    [a / 4, a % 4 * 16 + b / 16, b % 16 * 4 + c / 64, c % 64]
  }

  /** The sextets of a string of bytes: one more than the bytes of each group of up to three. */
  function Sextets(s: seq<byte>): (r: seq<nat>)
    ensures AllSextets(r)
  {
    if s == [] then []
    else Regroup(At(s, 0), At(s, 1), At(s, 2))[..Least(|s|, 3) + 1] + Sextets(s[Least(|s|, 3)..])
  }

  function Encode(s: seq<byte>): string {
    Letters(ALPHABET, Sextets(s))
  }

  /** One turn of the loop: `n` bytes are there, the missing ones are zero. */
  method EncodeGroup(table: string, x: byte, y: byte, z: byte, n: nat) returns (letters: string)
    requires 1 <= n <= 3 && |table| == 64
    ensures letters == Letters(table, Regroup(x as nat, y as nat, z as nat)[..n + 1])
  {
    ghost var v := Regroup(x as nat, y as nat, z as nat);
    var i := FirstSextet(x as int);
    assert i == v[0];
    letters := [table[i]];
    i := SecondSextet(x as int, y as int);
    assert i == v[1];
    letters := letters + [table[i]];
    if n > 1 {
      i := ThirdSextet(y as int, z as int);
      assert i == v[2];
      letters := letters + [table[i]];
    }
    if n > 2 {
      i := FourthSextet(z as int);
      assert i == v[3];
      letters := letters + [table[i]];
    }
  }

  lemma LettersConcat(table: string, v: seq<nat>, w: seq<nat>)
    requires AllSextets(v) && AllSextets(w) && |table| == 64
    ensures AllSextets(v + w) && Letters(table, v + w) == Letters(table, v) + Letters(table, w)
  {
  }

  /** The loop of encodeId, three bytes at a time. */
  method EncodeWith(table: string, value: seq<byte>) returns (result: string)
    requires |table| == 64
    ensures result == Letters(table, Sextets(value))
  {
    result := "";
    var i := 0;
    assert value[0..] == value;
    while i < |value|
      invariant result + Letters(table, Sextets(value[Least(i, |value|)..])) == Letters(table, Sextets(value))
    {
      var x := value[i];
      var y := if i + 1 < |value| then value[i + 1] else 0;
      var z := if i + 2 < |value| then value[i + 2] else 0;
      var letters := EncodeGroup(table, x, y, z, Least(|value| - i, 3));
      EncodeStep(table, value, i);
      result := result + letters;
      i := i + 3;
    }
  }

  lemma EncodeStep(table: string, value: seq<byte>, i: nat)
    requires i < |value| && |table| == 64
    ensures var g := Regroup(At(value, i), At(value, i + 1), At(value, i + 2))[..Least(|value| - i, 3) + 1];
            Letters(table, Sextets(value[i..]))
            == Letters(table, g) + Letters(table, Sextets(value[Least(i + 3, |value|)..]))
  {
    var rest := value[i..];
    assert rest[Least(|rest|, 3)..] == value[Least(i + 3, |value|)..];
    LettersConcat(table, Regroup(At(rest, 0), At(rest, 1), At(rest, 2))[..Least(|rest|, 3) + 1],
                  Sextets(rest[Least(|rest|, 3)..]));
  }

  method EncodeId(value: seq<byte>) returns (result: string)
    ensures result == Encode(value)
  {
    result := EncodeWith(ALPHABET, value);
  }

  // ----- it is the standard's encoding -----

  lemma {:induction false} ZeroBit(k: nat)
    ensures !BitAt(0, k)
  {
    if k > 0 {
      ZeroBit(k - 1);
    }
  }

  lemma ZeroBits(n: nat)
    ensures Bits(0, n) == Zeros(n)
  {
    forall i | 0 <= i < n ensures !Bits(0, n)[i] {
      ZeroBit(n - 1 - i);
    }
  }

  lemma Append6(x: nat, n: nat, y: nat)
    requires y < 64
    ensures Bits(x, n) + Bits(y, 6) == Bits(x * 64 + y, n + 6)
  {
    assert Pow2(6) == 64 by { assert Pow2(3) == 8; }
    BitsJoin(x, n, y, 6);
  }

  lemma Append8(x: nat, n: nat, y: nat)
    requires y < 256
    ensures Bits(x, n) + Bits(y, 8) == Bits(x * 256 + y, n + 8)
  {
    assert Pow2(8) == 256 by { assert Pow2(4) == 16; }
    BitsJoin(x, n, y, 8);
  }

  lemma SameNumber(a: nat, b: nat, c: nat)
    requires a < 256 && b < 256 && c < 256
    ensures var v := Regroup(a, b, c); (a * 256 + b) * 256 + c == ((v[0] * 64 + v[1]) * 64 + v[2]) * 64 + v[3]
  {
    assert a == 4 * (a / 4) + a % 4 && b == 16 * (b / 16) + b % 16 && c == 64 * (c / 64) + c % 64;
  }

  /** Twenty-four bits, cut in eights or in sixes. */
  lemma RegroupKeepsBits(a: nat, b: nat, c: nat)
    requires a < 256 && b < 256 && c < 256
    ensures SextetBits(Regroup(a, b, c)) == Bits(a, 8) + Bits(b, 8) + Bits(c, 8)
  {
    var v := Regroup(a, b, c);
    SameNumber(a, b, c);
    CutEitherWay(a, b, c, v);
  }

  lemma CutEitherWay(a: nat, b: nat, c: nat, v: seq<nat>)
    requires b < 256 && c < 256 && |v| == 4 && AllSextets(v)
    requires (a * 256 + b) * 256 + c == ((v[0] * 64 + v[1]) * 64 + v[2]) * 64 + v[3]
    ensures SextetBits(v) == Bits(a, 8) + Bits(b, 8) + Bits(c, 8)
  {
    FourSextets(v[0], v[1], v[2], v[3]);
    assert v == [v[0], v[1], v[2], v[3]];
    ThreeBytes(a, b, c);
  }

  lemma ThreeBytes(a: nat, b: nat, c: nat)
    requires b < 256 && c < 256
    ensures Bits(a, 8) + Bits(b, 8) + Bits(c, 8) == Bits((a * 256 + b) * 256 + c, 24)
  {
    Append8(a, 8, b);
    Append8(a * 256 + b, 16, c);
  }

  lemma FourSextets(p: nat, q: nat, r: nat, t: nat)
    requires p < 64 && q < 64 && r < 64 && t < 64
    ensures SextetBits([p, q, r, t]) == Bits(((p * 64 + q) * 64 + r) * 64 + t, 24)
  {
    SextetBitsConcat([p, q, r], [t]);
    SextetBitsConcat([p, q], [r]);
    SextetBitsConcat([p], [q]);
    OneSextet(p);
    OneSextet(q);
    OneSextet(r);
    OneSextet(t);
    assert [p, q, r] + [t] == [p, q, r, t] && [p, q] + [r] == [p, q, r] && [p] + [q] == [p, q];
    Append6(p, 6, q);
    Append6(p * 64 + q, 12, r);
    Append6((p * 64 + q) * 64 + r, 18, t);
  }

  lemma OneSextet(p: nat)
    ensures SextetBits([p]) == Bits(p, 6)
  {
    assert [p][1..] == [];
  }

  lemma {:induction false} SextetPrefix(v: seq<nat>, k: nat)
    requires k <= |v|
    ensures SextetBits(v[..k]) == SextetBits(v)[..6 * k]
    decreases k
  {
    if k > 0 {
      SextetPrefix(v[1..], k - 1);
      assert v[..k][1..] == v[1..][..k - 1];
    }
  }

  lemma {:induction false} SextetBitsConcat(v: seq<nat>, w: seq<nat>)
    ensures SextetBits(v + w) == SextetBits(v) + SextetBits(w)
  {
    if v == [] {
      assert v + w == w;
    } else {
      SextetBitsConcat(v[1..], w);
      assert (v + w)[1..] == v[1..] + w;
      Reassociate(Bits(v[0], 6), SextetBits(v[1..]), SextetBits(w));
    }
  }

  lemma {:induction false} ByteBitsConcat(s: seq<byte>, t: seq<byte>)
    ensures ByteBits(s + t) == ByteBits(s) + ByteBits(t)
  {
    if s == [] {
      assert s + t == t;
    } else {
      ByteBitsConcat(s[1..], t);
      assert (s + t)[1..] == s[1..] + t;
      Reassociate(Bits(s[0] as nat, 8), ByteBits(s[1..]), ByteBits(t));
    }
  }

  lemma OneByte(x: byte)
    ensures ByteBits([x]) == Bits(x as nat, 8)
  {
    assert [x][1..] == [];
  }

  lemma PaddedBytes(s: seq<byte>)
    requires 1 <= |s| <= 3
    ensures Bits(At(s, 0), 8) + Bits(At(s, 1), 8) + Bits(At(s, 2), 8) == ByteBits(s) + Zeros(24 - 8 * |s|)
  {
    ZeroBits(8);
    OneByte(s[0]);
    if |s| == 1 {
      assert s == [s[0]] && Zeros(8) + Zeros(8) == Zeros(16);
    } else {
      OneByte(s[1]);
      ByteBitsConcat([s[0]], [s[1]]);
      if |s| == 2 {
        assert s == [s[0]] + [s[1]];
      } else {
        OneByte(s[2]);
        ByteBitsConcat([s[0]] + [s[1]], [s[2]]);
        assert s == [s[0]] + [s[1]] + [s[2]] && ByteBits(s) + Zeros(0) == ByteBits(s);
      }
    }
  }

  lemma CutZeros(b: seq<bool>, m: nat, k: nat)
    requires |b| <= k <= |b| + m
    ensures (b + Zeros(m))[..k] == b + Zeros(k - |b|)
  {
  }

  /** The bits of one group: those of its bytes, filled up with zeros. */
  lemma GroupBits(s: seq<byte>)
    requires 1 <= |s| <= 3
    ensures Sextets(s) == Regroup(At(s, 0), At(s, 1), At(s, 2))[..|s| + 1]
    ensures SextetBits(Sextets(s)) == ByteBits(s) + Zeros(6 - 2 * |s|)
  {
    var v := Regroup(At(s, 0), At(s, 1), At(s, 2));
    assert Sextets(s) == v[..|s| + 1] by {
      assert s[|s|..] == [] && v[..|s| + 1] + [] == v[..|s| + 1];
    }
    SextetPrefix(v, |s| + 1);
    RegroupKeepsBits(At(s, 0), At(s, 1), At(s, 2));
    PaddedBytes(s);
    CutZeros(ByteBits(s), 24 - 8 * |s|, 6 * (|s| + 1));
  }

  lemma {:induction false} SextetsFollowBits(s: seq<byte>)
    ensures |Sextets(s)| == (4 * |s| + 2) / 3
    ensures SextetBits(Sextets(s)) == ByteBits(s) + Zeros(6 * |Sextets(s)| - 8 * |s|)
    decreases |s|
  {
    if s == [] {
      assert [] + Zeros(0) == [];
    } else if |s| <= 3 {
      GroupBits(s);
    } else {
      var group, rest := s[..3], s[3..];
      assert s == group + rest;
      GroupBits(group);
      SextetsFollowBits(rest);
      assert Sextets(s) == Sextets(group) + Sextets(rest);
      SextetBitsConcat(Sextets(group), Sextets(rest));
      ByteBitsConcat(group, rest);
      assert ByteBits(group) + Zeros(0) == ByteBits(group);
      Reassociate(ByteBits(group), ByteBits(rest), Zeros(6 * |Sextets(rest)| - 8 * |rest|));
    }
  }

  lemma LettersReadBack(v: seq<nat>)
    requires AllSextets(v)
    ensures InAlphabet(Letters(ALPHABET, v)) && LetterValues(Letters(ALPHABET, v)) == v && '/' !in Letters(ALPHABET, v)
  {
    forall i | 0 <= i < |v| ensures LetterValue(Letters(ALPHABET, v)[i]) == Some(v[i]) && Letters(ALPHABET, v)[i] != '/' {
      AlphabetValue(v[i]);
    }
  }

  /** Sections 4 and 5 of RFC 4648: the letters are those of the alphabet, their bits are the bits
      of the input followed by as few zeros as fill the last letter, and no padding follows. */
  lemma EncodesAsTheStandardSays(s: seq<byte>)
    ensures InAlphabet(Encode(s)) && |Encode(s)| == (4 * |s| + 2) / 3
    ensures SextetBits(LetterValues(Encode(s))) == ByteBits(s) + Zeros(6 * |Encode(s)| - 8 * |s|)
  {
    SextetsFollowBits(s);
    LettersReadBack(Sextets(s));
  }

  lemma {:induction false} BytesReadBack(s: seq<byte>, extra: seq<bool>)
    requires |extra| < 8
    ensures BytesOf(ByteBits(s) + extra) == Codes(s)
  {
    if s == [] {
      assert ByteBits(s) + extra == extra;
    } else {
      var bits := ByteBits(s) + extra;
      BytesReadBack(s[1..], extra);
      assert bits[..8] == Bits(s[0] as nat, 8) && bits[8..] == ByteBits(s[1..]) + extra;
      assert Pow2(8) == 256 by { assert Pow2(4) == 16; }
      NumberOfBits(s[0] as nat, 8);
      assert Codes(s) == [s[0] as nat] + Codes(s[1..]);
    }
  }

  /** Decoding an encoded id gives it back, for every length. */
  lemma RoundTrip(s: seq<byte>)
    ensures Decode(Encode(s)) == Some(Codes(s))
  {
    EncodesAsTheStandardSays(s);
    BytesReadBack(s, Zeros(6 * |Encode(s)| - 8 * |s|));
  }

  lemma EncodeIsInjective(s: seq<byte>, t: seq<byte>)
    requires Encode(s) == Encode(t)
    ensures s == t
  {
    RoundTrip(s);
    RoundTrip(t);
    forall i | 0 <= i < |s| ensures s[i] == t[i] {
      assert Codes(s)[i] == Codes(t)[i];
    }
  }

  // ----- relay paths -----

  function PeerUrl(base: string, session: seq<byte>, peer: seq<byte>): string {
    base + "/sessions/" + Encode(session) + "/peers/" + Encode(peer)
  }

  lemma NoSlash(s: seq<byte>)
    ensures '/' !in Encode(s)
  {
    LettersReadBack(Sextets(s));
  }

  lemma SlashIsLater(x: string, u: string, y: string, v: string)
    requires '/' !in y && u != "" && u[0] == '/' && |x| < |y|
    ensures x + u != y + v
  {
    assert (x + u)[|x|] == '/' && (y + v)[|x|] == y[|x|];
  }

  /** What precedes the first slash is determined by the whole. */
  lemma FirstSlash(x: string, y: string, u: string, v: string)
    requires '/' !in x && '/' !in y && u != "" && v != "" && u[0] == '/' && v[0] == '/'
    requires x + u == y + v
    ensures x == y && u == v
  {
    if |x| < |y| {
      SlashIsLater(x, u, y, v);
    } else if |y| < |x| {
      SlashIsLater(y, v, x, u);
    } else {
      assert x == (x + u)[..|x|] && y == (y + v)[..|y|];
      assert u == (x + u)[|x|..] && v == (y + v)[|y|..];
    }
  }

  /** Different sessions or participants never share a path on the relay. */
  lemma PathsAreDistinct(base: string, session: seq<byte>, peer: seq<byte>, session': seq<byte>, peer': seq<byte>)
    requires PeerUrl(base, session, peer) == PeerUrl(base, session', peer')
    ensures session == session' && peer == peer'
  {
    var head := base + "/sessions/";
    var u, v := "/peers/" + Encode(peer), "/peers/" + Encode(peer');
    Reassociate(head, Encode(session), u);
    Reassociate(head, Encode(session'), v);
    Reassociate(head + Encode(session), "/peers/", Encode(peer));
    Reassociate(head + Encode(session'), "/peers/", Encode(peer'));
    SameTail(head, Encode(session) + u, Encode(session') + v);
    NoSlash(session);
    NoSlash(session');
    FirstSlash(Encode(session), Encode(session'), u, v);
    SameTail("/peers/", Encode(peer), Encode(peer'));
    EncodeIsInjective(session, session');
    EncodeIsInjective(peer, peer');
  }

  lemma SameTail(head: string, x: string, y: string)
    requires head + x == head + y
    ensures x == y
  {
    assert x == (head + x)[|head|..] && y == (head + y)[|head|..];
  }
}
