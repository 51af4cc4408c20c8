/**
 Base32 (section 6 of RFC 4648) over a 32-bit accumulator that is never masked: the two loops of the
 TOTP service, the bit strings they compute, and their round trip.
 */
module Base32 {

  const ALPHABET := "ABCDEFGHIJKLMNOPQRSTUVWXYZ234567"
  const WORD := 0x1_0000_0000

  type Byte = b: int | 0 <= b < 256

  // ----- bit strings -----------------------------------------------------------------------

  function Pow2(n: nat): (p: nat)
    ensures p > 0
  {
    if n == 0 then 1 else 2 * Pow2(n - 1)
  }

  /** The low `n` bits of `v`, most significant first. */
  function Bits(v: nat, n: nat): (p: seq<bool>)
    ensures |p| == n
  {
    if n == 0 then [] else Bits(v / 2, n - 1) + [v % 2 == 1]
  }

  function Value(p: seq<bool>): (v: nat)
    ensures v < Pow2(|p|)
  {
    if p == [] then 0 else 2 * Value(p[..|p| - 1]) + if p[|p| - 1] then 1 else 0
  }

  function Zeros(n: nat): (p: seq<bool>)
    ensures |p| == n
  {
    if n == 0 then [] else [false] + Zeros(n - 1)
  }

  lemma {:induction false} ValueOfBits(v: nat, n: nat)
    requires v < Pow2(n)
    ensures Value(Bits(v, n)) == v
    decreases n
  {
    if n > 0 {
      ValueOfBits(v / 2, n - 1);
      assert Bits(v, n)[..n - 1] == Bits(v / 2, n - 1);
    }
  }

  lemma {:induction false} BitsOfValue(p: seq<bool>)
    ensures Bits(Value(p), |p|) == p
    decreases |p|
  {
    if p != [] {
      BitsOfValue(p[..|p| - 1]);
      assert p == p[..|p| - 1] + [p[|p| - 1]];
    }
  }

  /** Shifting `w` in behind `v` appends its bits. */
  lemma {:induction false} BitsAppend(v: nat, n: nat, w: nat, m: nat)
    requires w < Pow2(m)
    ensures Bits(v * Pow2(m) + w, n + m) == Bits(v, n) + Bits(w, m)
    decreases m
  {
    if m == 0 {
      assert Bits(v, n) + [] == Bits(v, n);
    } else {
      var x := v * Pow2(m) + w;
      assert x == 2 * (v * Pow2(m - 1)) + w;
      assert x / 2 == v * Pow2(m - 1) + w / 2 && x % 2 == w % 2;
      BitsAppend(v, n, w / 2, m - 1);
    }
  }

  // ----- what the loops compute, on bit strings ----------------------------------------------

  function AllBits(buf: seq<Byte>): seq<bool> {
    if buf == [] then [] else Bits(buf[0], 8) + AllBits(buf[1..])
  }

  function Letter(p: seq<bool>): char
    requires |p| == 5
  {
    assert Pow2(5) == 32;
    ALPHABET[Value(p)]
  }

  /** Groups of five bits, the last one padded with zeros on the right. */
  function Encoded(p: seq<bool>): string
    decreases |p|
  {
    if p == [] then ""
    else if |p| < 5 then [Letter(p + Zeros(5 - |p|))]
    else [Letter(p[..5])] + Encoded(p[5..])
  }

  /** Groups of eight bits; fewer than eight left over are dropped. */
  function Octets(p: seq<bool>): seq<Byte>
    decreases |p|
  {
    if |p| < 8 then []
    else
      assert Pow2(8) == 256;
      [Value(p[..8])] + Octets(p[8..])
  }

  predicate IsLetter(c: char) {
    c in ALPHABET
  }

  function IndexFrom(c: char, i: nat): int
    requires i <= 32
    decreases 32 - i
  {
    if i == 32 then -1 else if ALPHABET[i] == c then i else IndexFrom(c, i + 1)
  }

  /** `indexOf`. */
  function Index(c: char): (i: int)
    ensures -1 <= i < 32
    ensures i >= 0 ==> ALPHABET[i] == c
    ensures i < 0 <==> !IsLetter(c)
  {
    IndexBounds(c, 0);
    IndexFrom(c, 0)
  }

  lemma IndexBounds(c: char, i: nat)
    requires i <= 32
    ensures -1 <= IndexFrom(c, i) < 32
    ensures IndexFrom(c, i) >= 0 ==> ALPHABET[IndexFrom(c, i)] == c
    ensures IndexFrom(c, i) < 0 ==> c !in ALPHABET[i..]
    decreases 32 - i
  {
    if i < 32 {
      IndexBounds(c, i + 1);
      assert ALPHABET[i..] == [ALPHABET[i]] + ALPHABET[i + 1..];
    }
  }

  function LetterBits(c: char): seq<bool> {
    if Index(c) < 0 then [] else Bits(Index(c), 5)
  }

  /** The bits of the alphabet characters of a text; every other character contributes none. */
  function TextBits(t: string): seq<bool> {
    if t == "" then [] else LetterBits(t[0]) + TextBits(t[1..])
  }

  // ----- 32-bit words --------------------------------------------------------------------------

  /** `(val << k) | x` for an `x` of at most `k` bits: what leaves the top of the word is lost. */
  function ShiftIn(val: nat, k: nat, x: nat): nat {
    (val * Pow2(k)) % WORD + x
  }

  /** `(val >>> k) & mask` for a mask of `m` one bits. */
  function Field(val: nat, k: nat, m: nat): nat {
    (val / Pow2(k)) % Pow2(m)
  }

  /** The bits not yet emitted are the low `bits` bits of the accumulator. */
  function Pending(val: nat, bits: nat): seq<bool> {
    Bits(val % Pow2(bits), bits)
  }

  lemma Powers()
    ensures Pow2(0) == 1 && Pow2(1) == 2 && Pow2(2) == 4 && Pow2(3) == 8 && Pow2(4) == 16 && Pow2(5) == 32
    ensures Pow2(6) == 64 && Pow2(7) == 128 && Pow2(8) == 256 && Pow2(9) == 512 && Pow2(10) == 1024
    ensures Pow2(11) == 2048 && Pow2(12) == 4096
  {
  }

  /** Overflow never reaches the pending bits. */
  lemma ShiftInPending(val: nat, bits: nat, k: nat, x: nat)
    requires (k == 8 && bits <= 4) || (k == 5 && bits <= 7)
    requires x < Pow2(k)
    ensures Pending(ShiftIn(val, k, x), bits + k) == Pending(val, bits) + Bits(x, k)
  {
    Powers();
    var w := val % Pow2(bits);
    assert ShiftIn(val, k, x) % Pow2(bits + k) == w * Pow2(k) + x by { hide Bits; ShiftInMod(val, bits, k, x); }
    BitsAppend(w, bits, x, k);
  }

  lemma MulFar(d: int, m: nat)
    ensures d >= 1 ==> d * m >= m
    ensures d <= -1 ==> d * m + m <= 0
  {
  }

  lemma DivMod(a: int, m: int, q: int, r: int)
    requires 0 <= r < m && a == q * m + r
    ensures a / m == q && a % m == r
  {
    var d := q - a / m;
    assert d * m == a % m - r;
    MulFar(d, m);
  }

  /** Reducing first by a multiple of the modulus changes nothing. */
  lemma ModMod(a: nat, m: nat, n: nat)
    requires m > 0 && n > 0
    ensures m * n > 0 && (a % (m * n)) % m == a % m
  {
    assert m * n > 0;
    var w, q := a % (m * n), a / (m * n);
    assert a == (m * n) * q + w;
    assert (m * n) * q == (n * q) * m;
    assert w == m * (w / m) + w % m;
    assert a == (n * q + w / m) * m + w % m;
    DivMod(a, m, n * q + w / m, w % m);
  }

  lemma ShiftArith(val: nat, b: nat, p: nat, x: nat, n: nat)
    requires b > 0 && x < p && n > 0
    ensures b * p > 0 && b * p * n > 0
    ensures ((val * p) % (b * p * n) + x) % (b * p) == (val % b) * p + x
  {
    var m, q, r := b * p, val / b, val % b;
    QuotientRemainder(val, b);
    Expand(q, b, r, p);
    Below(r, b, p, x);
    ShiftedMod(val, b, p, m, q, r, x);
    ModMod(val * p, m, n);
    AddBelow((val * p) % (m * n), m, r * p, x);
  }

  lemma ShiftedMod(val: nat, b: nat, p: nat, m: nat, q: nat, r: nat, x: nat)
    requires m == b * p && m > 0 && val == q * b + r && (q * b + r) * p == q * m + r * p
    requires r * p + x < m
    ensures (val * p) % m == r * p
  {
    DivMod(val * p, m, q, r * p);
  }

  lemma AddBelow(w: nat, m: nat, r: nat, x: nat)
    requires m > 0 && w % m == r && r + x < m
    ensures (w + x) % m == r + x
  {
    QuotientRemainder(w, m);
    DivMod(w + x, m, w / m, r + x);
  }

  lemma ShiftInMod(val: nat, bits: nat, k: nat, x: nat)
    requires bits + k <= 32 && x < Pow2(k)
    ensures ShiftIn(val, k, x) % Pow2(bits + k) == (val % Pow2(bits)) * Pow2(k) + x
  {
    assert Pow2(32) == WORD by { Powers(); PowAdd(12, 12); PowAdd(24, 8); }
    hide Pow2;
    PowAdd(bits, k);
    PowAdd(bits + k, 32 - bits - k);
    ShiftArith(val, Pow2(bits), Pow2(k), x, Pow2(32 - bits - k));
  }

  lemma Expand(q: nat, b: nat, r: nat, p: nat)
    ensures (q * b + r) * p == q * (b * p) + r * p
  {
  }

  lemma Below(r: nat, b: nat, p: nat, x: nat)
    requires r < b && x < p
    ensures r * p + x < b * p
  {
    assert (r + 1) * p <= b * p;
  }

  lemma PowAdd(m: nat, n: nat)
    ensures Pow2(m + n) == Pow2(m) * Pow2(n)
  {
    if n > 0 { PowAdd(m, n - 1); }
  }

  /** The emitted field is the first `m` pending bits; the rest stay pending. */
  lemma FieldPending(val: nat, bits: nat, m: nat)
    requires m in {5, 8} && m <= bits <= 12
    ensures Field(val, bits - m, m) < Pow2(m)
    ensures Pending(val, bits) == Bits(Field(val, bits - m, m), m) + Pending(val, bits - m)
  {
    Powers();
    var f, r := Field(val, bits - m, m), val % Pow2(bits - m);
    assert val % Pow2(bits) == f * Pow2(bits - m) + r by { hide Bits; FieldMod(val, bits, m); }
    BitsAppend(f, m, r, bits - m);
  }

  lemma NestedMod(val: nat, d: nat, q: nat, h: nat, f: nat, l: nat, r: nat)
    requires f < h && r < l && d == q * h + f && val == d * l + r
    ensures h * l > 0 && val % (h * l) == f * l + r
  {
    Expand(q, h, f, l);
    Below(f, h, l, r);
    DivMod(val, h * l, q, f * l + r);
  }

  lemma QuotientRemainder(n: nat, k: nat)
    requires k > 0
    ensures n == n / k * k + n % k && n % k < k && n / k >= 0
  {
  }

  lemma FieldArith(val: nat, l: nat, h: nat)
    requires l > 0 && h > 0
    ensures h * l > 0 && val % (h * l) == ((val / l) % h) * l + val % l
  {
    var d := val / l;
    QuotientRemainder(val, l);
    QuotientRemainder(d, h);
    NestedMod(val, d, d / h, h, d % h, l, val % l);
  }

  lemma FieldMod(val: nat, bits: nat, m: nat)
    requires m <= bits
    ensures val % Pow2(bits) == Field(val, bits - m, m) * Pow2(bits - m) + val % Pow2(bits - m)
  {
    hide Pow2;
    PowAdd(m, bits - m);
    FieldArith(val, Pow2(bits - m), Pow2(m));
  }

  // ----- the two loops -------------------------------------------------------------------------

  lemma AllBitsStep(buf: seq<Byte>, n: nat)
    requires n < |buf|
    ensures AllBits(buf[n..]) == Bits(buf[n], 8) + AllBits(buf[n + 1..])
  {
    assert buf[n..][1..] == buf[n + 1..];
  }

  lemma EncodedStep(p: seq<bool>, q: seq<bool>)
    requires |p| == 5
    ensures Encoded(p + q) == [Letter(p)] + Encoded(q)
  {
    assert (p + q)[..5] == p && (p + q)[5..] == q;
  }

  lemma AssocBits(a: seq<bool>, b: seq<bool>, c: seq<bool>)
    ensures a + b + c == a + (b + c)
  {
  }

  lemma AssocText(a: string, b: string, c: string)
    ensures a + b + c == a + (b + c)
  {
  }

  lemma LetterOfField(val: nat, bits: nat)
    requires 5 <= bits <= 12
    ensures Field(val, bits - 5, 5) < 32
    ensures Pending(val, bits) == Bits(Field(val, bits - 5, 5), 5) + Pending(val, bits - 5)
    ensures Letter(Bits(Field(val, bits - 5, 5), 5)) == ALPHABET[Field(val, bits - 5, 5)]
  {
    Powers();
    FieldPending(val, bits, 5);
    ValueOfBits(Field(val, bits - 5, 5), 5);
  }

  /** The last group: shifting left by `5 - bits` pads with zeros. */
  lemma LastLetter(val: nat, bits: nat)
    requires 0 < bits < 5
    ensures var f := ShiftIn(val, 5 - bits, 0) % 32;
            Encoded(Pending(val, bits)) == [ALPHABET[f]]
  {
    Powers();
    var k := 5 - bits;
    ShiftInMod(val, bits, k, 0);
    var w, f := val % Pow2(bits), ShiftIn(val, k, 0) % 32;
    assert f == w * Pow2(k);
    BitsAppend(w, bits, 0, k);
    BitsOfZero(k);
    ValueOfBits(f, 5);
    var p := Pending(val, bits);
    assert p + Zeros(k) == Bits(f, 5);
    assert p != [] && |p| < 5;
  }

  lemma BitsOfZero(n: nat)
    ensures Bits(0, n) == Zeros(n)
  {
    if n > 0 {
      BitsOfZero(n - 1);
      ZerosSnoc(n - 1);
    }
  }

  lemma ZerosSnoc(n: nat)
    ensures Zeros(n) + [false] == Zeros(n + 1)
  {
    if n > 0 {
      ZerosSnoc(n - 1);
      assert Zeros(n) + [false] == [false] + (Zeros(n - 1) + [false]);
    }
  }

  /** `base32Encode`. */
  method Encode(buf: seq<Byte>) returns (out: string)
    ensures out == Encoded(AllBits(buf))
  {
    hide Encoded, Pending, ShiftIn, Field, AllBits, Letter;
    var bits, val := 0, 0;
    out := "";
    Empty(val);
    assert buf[0..] == buf;
    for n := 0 to |buf|
      invariant 0 <= bits < 5 && val >= 0
      invariant out + Encoded(Pending(val, bits) + AllBits(buf[n..])) == Encoded(AllBits(buf))
    {
      var b := buf[n];
      AllBitsStep(buf, n);
      Powers();
      ShiftInPending(val, bits, 8, b);
      AssocBits(Pending(val, bits), Bits(b, 8), AllBits(buf[n + 1..]));
      val := ShiftIn(val, 8, b);
      bits := bits + 8;
      while bits >= 5
        invariant 0 <= bits <= 12
        invariant out + Encoded(Pending(val, bits) + AllBits(buf[n + 1..])) == Encoded(AllBits(buf))
      {
        LetterOfField(val, bits);
        var f := Field(val, bits - 5, 5);
        AssocBits(Bits(f, 5), Pending(val, bits - 5), AllBits(buf[n + 1..]));
        EncodedStep(Bits(f, 5), Pending(val, bits - 5) + AllBits(buf[n + 1..]));
        AssocText(out, [ALPHABET[f]], Encoded(Pending(val, bits - 5) + AllBits(buf[n + 1..])));
        out := out + [ALPHABET[f]];
        bits := bits - 5;
      }
    }
    assert buf[|buf|..] == [];
    Finish(val, bits);
    if bits > 0 {
      out := out + [ALPHABET[ShiftIn(val, 5 - bits, 0) % 32]];
    }
  }

  lemma Empty(val: nat)
    ensures Pending(val, 0) == [] && AllBits([]) == [] && Encoded([]) == ""
    ensures forall p: seq<bool> :: [] + p == p
  {
  }

  lemma Finish(val: nat, bits: nat)
    requires bits < 5
    ensures Encoded(Pending(val, bits) + AllBits([])) ==
            if bits > 0 then [ALPHABET[ShiftIn(val, 5 - bits, 0) % 32]] else ""
  {
    assert Pending(val, bits) + AllBits([]) == Pending(val, bits);
    if bits > 0 { LastLetter(val, bits); }
  }

  // ----- decoding ------------------------------------------------------------------------------

  /** `toUpperCase`, one code point at a time; some code points become several letters. */
  type Upper = char -> string

  /** On ASCII it is the usual map. Nothing is assumed about other characters. */
  ghost predicate AsciiUpper(upper: Upper) {
    forall c: char {:trigger upper(c)} ::
      c < 128 as char ==> upper(c) == if 'a' <= c <= 'z' then [c - 32 as char] else [c]
  }

  function UpperAll(upper: Upper, s: string): string {
    if s == "" then "" else upper(s[0]) + UpperAll(upper, s[1..])
  }

  /** `replace(/=+$/, '')`. */
  function StripPad(s: string): string {
    if s != "" && s[|s| - 1] == '=' then StripPad(s[..|s| - 1]) else s
  }

  function Decoded(upper: Upper, s: string): seq<Byte> {
    Octets(TextBits(UpperAll(upper, StripPad(s))))
  }

  lemma OctetsStep(p: seq<bool>, q: seq<bool>)
    requires |p| == 8
    ensures Value(p) < 256 && Octets(p + q) == [Value(p)] + Octets(q)
  {
    Powers();
    assert (p + q)[..8] == p && (p + q)[8..] == q;
  }

  lemma OctetOfField(val: nat, bits: nat)
    requires 8 <= bits <= 12
    ensures Field(val, bits - 8, 8) < 256
    ensures Pending(val, bits) == Bits(Field(val, bits - 8, 8), 8) + Pending(val, bits - 8)
    ensures Value(Bits(Field(val, bits - 8, 8), 8)) == Field(val, bits - 8, 8)
  {
    Powers();
    FieldPending(val, bits, 8);
    ValueOfBits(Field(val, bits - 8, 8), 8);
  }

  lemma TextBitsStep(t: string, n: nat)
    requires n < |t|
    ensures TextBits(t[n..]) == LetterBits(t[n]) + TextBits(t[n + 1..])
  {
    assert t[n..][1..] == t[n + 1..];
  }

  lemma AssocBytes(a: seq<Byte>, b: seq<Byte>, c: seq<Byte>)
    ensures a + b + c == a + (b + c)
  {
  }

  /** `base32Decode`. */
  method Decode(upper: Upper, s: string) returns (out: seq<Byte>)
    ensures out == Decoded(upper, s)
  {
    hide Octets, Pending, ShiftIn, Field, Index, Value, Pow2, UpperAll, StripPad, Bits, TextBits, IsLetter;
    var clean := UpperAll(upper, StripPad(s));
    var bits, val := 0, 0;
    out := [];
    Empty(val);
    assert clean[0..] == clean;
    for n := 0 to |clean|
      invariant 0 <= bits < 8 && val >= 0
      invariant out + Octets(Pending(val, bits) + TextBits(clean[n..])) == Decoded(upper, s)
    {
      var idx := Index(clean[n]);
      TextBitsStep(clean, n);
      if idx < 0 {
        Empty(val);
        continue;
      }
      Powers();
      ShiftInPending(val, bits, 5, idx);
      AssocBits(Pending(val, bits), Bits(idx, 5), TextBits(clean[n + 1..]));
      val := ShiftIn(val, 5, idx);
      bits := bits + 5;
      if bits >= 8 {
        OctetOfField(val, bits);
        var f: Byte := Field(val, bits - 8, 8);
        AssocBits(Bits(f, 8), Pending(val, bits - 8), TextBits(clean[n + 1..]));
        OctetsStep(Bits(f, 8), Pending(val, bits - 8) + TextBits(clean[n + 1..]));
        AssocBytes(out, [f], Octets(Pending(val, bits - 8) + TextBits(clean[n + 1..])));
        out := out + [f];
        bits := bits - 8;
      }
    }
    NothingLeft(val, bits);
    assert clean[|clean|..] == "";
  }

  lemma NothingLeft(val: nat, bits: nat)
    requires bits < 8
    ensures Octets(Pending(val, bits) + TextBits("")) == []
  {
  }

  // ----- the round trip ------------------------------------------------------------------------

  /** The alphabet is read back by its index. */
  lemma IndexOfLetter(i: nat)
    requires i < 32
    ensures Index(ALPHABET[i]) == i
  {
    AlphabetInjective(i, Index(ALPHABET[i]));
  }

  lemma LetterAt(i: nat)
    requires i < 32
    ensures ALPHABET[i] == if i < 26 then 'A' + i as char else '2' + (i - 26) as char
    ensures IsLetter(ALPHABET[i])
  {
    assert ALPHABET[i] in ALPHABET;
  }

  lemma AlphabetInjective(i: nat, j: int)
    requires i < 32 && -1 <= j < 32 && (j >= 0 ==> ALPHABET[i] == ALPHABET[j]) && (j < 0 ==> !IsLetter(ALPHABET[i]))
    ensures i == j
  {
    LetterAt(i);
    if j >= 0 { LetterAt(j); }
  }

  lemma LetterBitsOfLetter(p: seq<bool>)
    requires |p| == 5
    ensures LetterBits(Letter(p)) == p
  {
    Powers();
    IndexOfLetter(Value(p));
    BitsOfValue(p);
  }

  function Padding(n: nat): nat {
    (5 - n % 5) % 5
  }

  lemma TextBitsCons(c: char, t: string)
    ensures TextBits([c] + t) == LetterBits(c) + TextBits(t)
  {
    assert ([c] + t)[1..] == t;
  }

  lemma PaddingSteps(n: nat)
    ensures Padding(0) == 0
    ensures 0 < n < 5 ==> Padding(n) == 5 - n
    ensures n >= 5 ==> Padding(n) == Padding(n - 5)
  {
  }

  lemma {:induction false} EncodedLength(p: seq<bool>)
    ensures |Encoded(p)| == (|p| + 4) / 5
    decreases |p|
  {
    hide Letter;
    if |p| >= 5 { EncodedLength(p[5..]); }
  }

  /** Reading the encoded text gives the bits back, followed by fewer than five zeros. */
  lemma {:induction false} TextBitsOfEncoded(p: seq<bool>)
    ensures TextBits(Encoded(p)) == p + Zeros(Padding(|p|))
    decreases |p|
  {
    hide LetterBits, Letter, TextBits, Zeros, Padding;
    PaddingSteps(|p|);
    if p == [] {
      assert TextBits("") == [] by { Empty(0); EmptyText(); }
    } else if |p| < 5 {
      var q := p + Zeros(5 - |p|);
      LetterBitsOfLetter(q);
      TextBitsCons(Letter(q), "");
      EmptyText();
      assert [Letter(q)] + "" == [Letter(q)] && q + [] == q;
    } else {
      LetterBitsOfLetter(p[..5]);
      TextBitsOfEncoded(p[5..]);
      TextBitsCons(Letter(p[..5]), Encoded(p[5..]));
      AssocBits(p[..5], p[5..], Zeros(Padding(|p|)));
      assert p[..5] + p[5..] == p;
    }
  }

  lemma EmptyText()
    ensures TextBits("") == [] && Zeros(0) == []
  {
  }

  lemma {:induction false} OctetsOfAllBits(buf: seq<Byte>, rest: seq<bool>)
    requires |rest| < 8
    ensures Octets(AllBits(buf) + rest) == buf
    decreases |buf|
  {
    hide Bits, Value;
    if buf == [] {
      assert AllBits(buf) + rest == rest;
    } else {
      Powers();
      ValueOfBits(buf[0], 8);
      AssocBits(Bits(buf[0], 8), AllBits(buf[1..]), rest);
      OctetsStep(Bits(buf[0], 8), AllBits(buf[1..]) + rest);
      OctetsOfAllBits(buf[1..], rest);
    }
  }

  lemma AllBitsLength(buf: seq<Byte>)
    ensures |AllBits(buf)| == 8 * |buf|
  {
  }

  /** The alphabet characters a text contributes, once upper-cased. */
  function Letters(upper: Upper, s: string): string {
    OnlyLetters(UpperAll(upper, s))
  }

  function OnlyLetters(t: string): string {
    if t == "" then "" else (if IsLetter(t[0]) then [t[0]] else "") + OnlyLetters(t[1..])
  }

  lemma {:induction false} TextBitsOfLetters(t: string)
    ensures TextBits(OnlyLetters(t)) == TextBits(t)
    decreases |t|
  {
    hide IsLetter;
    if t != "" {
      TextBitsOfLetters(t[1..]);
      if IsLetter(t[0]) {
        assert OnlyLetters(t)[1..] == OnlyLetters(t[1..]);
      } else {
        assert Index(t[0]) < 0;
        assert OnlyLetters(t) == OnlyLetters(t[1..]);
      }
    }
  }

  lemma OnlyLettersAppend(s: string, t: string)
    ensures OnlyLetters(s + t) == OnlyLetters(s) + OnlyLetters(t)
  {
    hide IsLetter;
    if s == "" {
      assert s + t == t;
    } else {
      assert (s + t)[1..] == s[1..] + t;
      OnlyLettersAppend(s[1..], t);
      AssocText(if IsLetter(s[0]) then [s[0]] else "", OnlyLetters(s[1..]), OnlyLetters(t));
    }
  }

  lemma UpperAppend(upper: Upper, s: string, t: string)
    ensures UpperAll(upper, s + t) == UpperAll(upper, s) + UpperAll(upper, t)
  {
    if s == "" {
      assert s + t == t;
    } else {
      assert (s + t)[1..] == s[1..] + t;
      UpperAppend(upper, s[1..], t);
      AssocText(upper(s[0]), UpperAll(upper, s[1..]), UpperAll(upper, t));
    }
  }

  lemma LettersAppend(upper: Upper, s: string, t: string)
    ensures Letters(upper, s + t) == Letters(upper, s) + Letters(upper, t)
  {
    UpperAppend(upper, s, t);
    OnlyLettersAppend(UpperAll(upper, s), UpperAll(upper, t));
  }

  lemma PaddingIsNoLetter(upper: Upper)
    requires AsciiUpper(upper)
    ensures Letters(upper, "=") == ""
  {
    assert upper('=') == "=";
    hide AsciiUpper, IsLetter;
    EqualsSignIsNoLetter();
    assert UpperAll(upper, "=") == "=";
  }

  lemma EqualsSignIsNoLetter()
    ensures !IsLetter('=')
  {
  }

  /** Trailing padding contributes no letters. */
  lemma {:induction false} LettersOfStripped(upper: Upper, s: string)
    requires AsciiUpper(upper)
    ensures Letters(upper, StripPad(s)) == Letters(upper, s)
    decreases |s|
  {
    if s != "" && s[|s| - 1] == '=' {
      var h := s[..|s| - 1];
      LettersOfStripped(upper, h);
      assert s == h + "=";
      LettersAppend(upper, h, "=");
      PaddingIsNoLetter(upper);
    }
  }

  lemma DecodedFromLetters(upper: Upper, s: string)
    requires AsciiUpper(upper)
    ensures Decoded(upper, s) == Octets(TextBits(Letters(upper, s)))
  {
    TextBitsOfLetters(UpperAll(upper, StripPad(s)));
    LettersOfStripped(upper, s);
  }

  /**
   Decoding inverts encoding, however the text is then spelt: any text with the same letters - in lower
   case, padded, or spread with other characters - decodes to the encoded bytes.
   */
  lemma DecodeInvertsEncode(upper: Upper, buf: seq<Byte>, spelt: string)
    requires AsciiUpper(upper) && Letters(upper, spelt) == Encoded(AllBits(buf))
    ensures Decoded(upper, spelt) == buf
  {
    DecodedFromLetters(upper, spelt);
    TextBitsOfEncoded(AllBits(buf));
    AllBitsLength(buf);
    OctetsOfAllBits(buf, Zeros(Padding(|AllBits(buf)|)));
  }

  function Lower(s: string): string {
    if s == "" then "" else [LowerChar(s[0])] + Lower(s[1..])
  }

  predicate AllLetters(t: string) {
    forall i | 0 <= i < |t| :: IsLetter(t[i])
  }

  function LowerChar(c: char): char {
    if 'A' <= c <= 'Z' then c + 32 as char else c
  }

  lemma UpperOfLetter(upper: Upper, c: char)
    requires AsciiUpper(upper) && IsLetter(c)
    ensures upper(c) == [c] && upper(LowerChar(c)) == [c]
  {
    LetterRange(c);
    var l := LowerChar(c);
    assert l < 128 as char;
    assert l == c || l - 32 as char == c;
  }

  lemma LetterRange(c: char)
    requires IsLetter(c)
    ensures 'A' <= c <= 'Z' || '2' <= c <= '7'
  {
    var i :| 0 <= i < 32 && ALPHABET[i] == c;
    LetterAt(i);
  }

  lemma LettersCons(upper: Upper, c: char, s: string, d: char)
    requires upper(c) == [d] && IsLetter(d)
    ensures Letters(upper, [c] + s) == [d] + Letters(upper, s)
  {
    assert ([c] + s)[1..] == s;
    var u := UpperAll(upper, s);
    assert UpperAll(upper, [c] + s) == [d] + u;
    assert ([d] + u)[1..] == u;
  }

  lemma {:induction false} LettersOfAlphabetText(upper: Upper, t: string)
    requires AsciiUpper(upper) && AllLetters(t)
    ensures Letters(upper, t) == t && Letters(upper, Lower(t)) == t
    decreases |t|
  {
    if t != "" {
      hide Letters, AsciiUpper;
      LettersOfAlphabetText(upper, t[1..]);
      UpperOfLetter(upper, t[0]);
      LettersCons(upper, t[0], t[1..], t[0]);
      LettersCons(upper, LowerChar(t[0]), Lower(t[1..]), t[0]);
      assert t == [t[0]] + t[1..];
    }
  }

  lemma EncodedIsLetters(p: seq<bool>)
    ensures AllLetters(Encoded(p))
    decreases |p|
  {
    if |p| >= 5 { EncodedIsLetters(p[5..]); }
  }

  /** The plain round trip, its lower-case form, and the length of the text. */
  lemma RoundTrip(upper: Upper, buf: seq<Byte>)
    requires AsciiUpper(upper)
    ensures var t := Encoded(AllBits(buf));
            && Decoded(upper, t) == buf && Decoded(upper, Lower(t)) == buf
            && |t| == (8 * |buf| + 4) / 5
  {
    var t := Encoded(AllBits(buf));
    EncodedIsLetters(AllBits(buf));
    LettersOfAlphabetText(upper, t);
    DecodeInvertsEncode(upper, buf, t);
    DecodeInvertsEncode(upper, buf, Lower(t));
    EncodedLength(AllBits(buf));
    AllBitsLength(buf);
  }

  lemma OctetsLength(p: seq<bool>)
    ensures |Octets(p)| == |p| / 8
    decreases |p|
  {
  }

  lemma {:induction false} TextBitsLength(t: string)
    requires AllLetters(t)
    ensures |TextBits(t)| == 5 * |t|
    decreases |t|
  {
    if t != "" {
      assert IsLetter(t[0]);
      TextBitsLength(t[1..]);
    }
  }

  lemma OnlyLettersAreLetters(t: string)
    ensures AllLetters(OnlyLetters(t))
  {
  }

  lemma NoLetterIgnored(upper: Upper, c: char, s: string, t: string)
    requires AsciiUpper(upper) && Letters(upper, [c]) == ""
    ensures Decoded(upper, s + [c] + t) == Decoded(upper, s + t)
  {
    hide Letters, AsciiUpper, Decoded;
    LettersAppend(upper, s + [c], t);
    LettersAppend(upper, s, [c]);
    LettersAppend(upper, s, t);
    assert Letters(upper, s) + "" == Letters(upper, s);
    DecodedFromLetters(upper, s + [c] + t);
    DecodedFromLetters(upper, s + t);
  }

  lemma DecodedLength(upper: Upper, s: string)
    requires AsciiUpper(upper)
    ensures |Decoded(upper, s)| == 5 * |Letters(upper, s)| / 8
  {
    DecodedFromLetters(upper, s);
    OnlyLettersAreLetters(UpperAll(upper, s));
    TextBitsLength(Letters(upper, s));
    OctetsLength(TextBits(Letters(upper, s)));
  }

  lemma SevenLetters()
    ensures AllLetters("AAAAAAA")
  {
    assert IsLetter(ALPHABET[0]);
  }

  /** Seven letters decode to four bytes; more letters make at least five. */
  lemma LetterNotIgnored(upper: Upper, c: char)
    requires AsciiUpper(upper) && Letters(upper, [c]) != ""
    ensures Decoded(upper, "" + [c] + "AAAAAAA") != Decoded(upper, "" + "AAAAAAA")
  {
    hide Letters, AsciiUpper, Decoded, AllLetters;
    var t := "AAAAAAA";
    SevenLetters();
    LettersOfAlphabetText(upper, t);
    LettersAppend(upper, [c], t);
    assert "" + [c] + t == [c] + t && "" + t == t;
    DecodedLength(upper, [c] + t);
    DecodedLength(upper, t);
  }

  /**
   A character may be inserted anywhere without changing what is decoded exactly when upper-casing it
   yields no alphabet character. (Upper-casing can: sharp s becomes two letters.)
   */
  lemma IgnoredExactlyWhenNoLetter(upper: Upper, c: char)
    requires AsciiUpper(upper)
    ensures (forall s, t :: Decoded(upper, s + [c] + t) == Decoded(upper, s + t)) <==> Letters(upper, [c]) == ""
  {
    if Letters(upper, [c]) == "" {
      forall s, t ensures Decoded(upper, s + [c] + t) == Decoded(upper, s + t) {
        NoLetterIgnored(upper, c, s, t);
      }
    } else {
      LetterNotIgnored(upper, c);
    }
  }
}
