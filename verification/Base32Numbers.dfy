/**
 Base32 as arithmetic: the letters are the digits, in base 32, of the number the bytes are in base 256.
 */
module Base32Numbers {
  import opened Base32

  /** The bytes as one number, the first byte the most significant. */
  function BytesNumber(buf: seq<Byte>): nat {
    if buf == [] then 0 else 256 * BytesNumber(buf[..|buf| - 1]) + buf[|buf| - 1]
  }

  /** A to Z count 0 to 25, and 2 to 7 count 26 to 31. */
  function Digit(c: char): nat {
    if 'A' <= c <= 'Z' then c as int - 'A' as int
    else if '2' <= c <= '7' then c as int - '2' as int + 26
    else 0
  }

  predicate IsDigit(c: char) {
    'A' <= c <= 'Z' || '2' <= c <= '7'
  }

  function TextNumber(t: string): nat {
    if t == "" then 0 else 32 * TextNumber(t[..|t| - 1]) + Digit(t[|t| - 1])
  }

  lemma AlphabetDigits(i: nat)
    requires i < 32
    ensures IsDigit(ALPHABET[i]) && Digit(ALPHABET[i]) == i
  {
    var a := ALPHABET;
    assert a[..26] == "ABCDEFGHIJKLMNOPQRSTUVWXYZ" && a[26..] == "234567";
    if i < 26 { assert a[i] == a[..26][i]; } else { assert a[i] == a[26..][i - 26]; }
  }

  lemma Doubled(v: nat, p: nat)
    ensures v * (2 * p) == 2 * (v * p)
  {
  }

  lemma {:induction false} ValueAppend(p: seq<bool>, q: seq<bool>)
    ensures Value(p + q) == Value(p) * Pow2(|q|) + Value(q)
    decreases |q|
  {
    if q == [] {
      assert p + q == p;
    } else {
      var n, all := |q| - 1, p + q;
      assert all[..|all| - 1] == p + q[..n] && all[|all| - 1] == q[n];
      ValueAppend(p, q[..n]);
      var v, w, b := Value(p), Value(q[..n]), if q[n] then 1 else 0;
      assert Value(all) == 2 * Value(p + q[..n]) + b && Value(q) == 2 * w + b && Pow2(n + 1) == 2 * Pow2(n);
      hide Value, Pow2;
      Doubled(v, Pow2(n));
    }
  }

  lemma {:induction false} ValueOfZeros(n: nat)
    ensures Value(Zeros(n)) == 0
    decreases n
  {
    if n > 0 {
      ValueOfZeros(n - 1);
      ValueAppend([false], Zeros(n - 1));
      assert [false][..0] == [];
    }
  }

  lemma {:induction false} AllBitsSnoc(buf: seq<Byte>, b: Byte)
    ensures AllBits(buf + [b]) == AllBits(buf) + Bits(b, 8)
    decreases |buf|
  {
    hide Bits;
    if buf == [] {
      assert AllBits([b]) == Bits(b, 8) + AllBits([b][1..]);
    } else {
      assert (buf + [b])[1..] == buf[1..] + [b];
      AllBitsSnoc(buf[1..], b);
    }
  }

  lemma {:induction false} BitsNumber(buf: seq<Byte>)
    ensures Value(AllBits(buf)) == BytesNumber(buf)
    decreases |buf|
  {
    if buf != [] {
      var n := |buf| - 1;
      assert buf == buf[..n] + [buf[n]];
      BitsNumber(buf[..n]);
      AllBitsSnoc(buf[..n], buf[n]);
      ValueAppend(AllBits(buf[..n]), Bits(buf[n], 8));
      assert Pow2(8) == 256;
      ValueOfBits(buf[n], 8);
    }
  }

  lemma {:induction false} TextBitsSnoc(t: string, c: char)
    ensures TextBits(t + [c]) == TextBits(t) + LetterBits(c)
    decreases |t|
  {
    hide LetterBits;
    if t == "" {
      assert TextBits([c]) == LetterBits(c) + TextBits([c][1..]);
    } else {
      assert (t + [c])[1..] == t[1..] + [c];
      TextBitsSnoc(t[1..], c);
    }
  }

  /** A letter's five bits are its digit. */
  lemma LetterBitsNumber(c: char)
    requires IsLetter(c)
    ensures |LetterBits(c)| == 5 && Value(LetterBits(c)) == Digit(c) && IsDigit(c)
  {
    hide IsLetter;
    var i := Index(c);
    AlphabetDigits(i);
    assert Pow2(5) == 32;
    ValueOfBits(i, 5);
  }

  lemma {:induction false} TextBitsNumber(t: string)
    requires AllLetters(t)
    ensures Value(TextBits(t)) == TextNumber(t) && forall k | 0 <= k < |t| :: IsDigit(t[k])
    decreases |t|
  {
    hide IsLetter, LetterBits, Digit, IsDigit;
    if t != "" {
      var n := |t| - 1;
      assert t == t[..n] + [t[n]];
      TextBitsNumber(t[..n]);
      LetterBitsNumber(t[n]);
      TextBitsSnoc(t[..n], t[n]);
      ValueAppend(TextBits(t[..n]), LetterBits(t[n]));
      assert Pow2(5) == 32;
      forall k | 0 <= k < |t| ensures IsDigit(t[k]) {
        if k < n { assert t[k] == t[..n][k]; }
      }
    }
  }

  /**
   The encoding of any bytes, as arithmetic: only A to Z and 2 to 7, five bits a letter, the least number of
   letters; read as digits in base 32 they are the bytes' number, followed by the padding's zero bits.
   */
  lemma EncodingIsTheNumber(buf: seq<Byte>)
    ensures var t := Encoded(AllBits(buf));
            && (forall k | 0 <= k < |t| :: IsDigit(t[k]))
            && 5 * |t| - 5 < 8 * |buf| <= 5 * |t|
    ensures var t := Encoded(AllBits(buf));
            8 * |buf| <= 5 * |t| && TextNumber(t) == BytesNumber(buf) * Pow2(5 * |t| - 8 * |buf|)
  {
    var p := AllBits(buf);
    var t := Encoded(p);
    hide Encoded, TextBits, AllBits, TextNumber, BytesNumber, IsDigit, AllLetters, Pow2;
    EncodedIsLetters(p);
    EncodedLength(p);
    AllBitsLength(buf);
    TextBitsNumber(t);
    TextBitsOfEncoded(p);
    BitsNumber(buf);
    PaddingIs(|p|, |t|);
    hide Padding;
    ValueAppend(p, Zeros(Padding(|p|)));
    ValueOfZeros(Padding(|p|));
  }

  lemma PaddingIs(bits: nat, letters: nat)
    requires letters == (bits + 4) / 5
    ensures Padding(bits) == 5 * letters - bits && (bits > 0 ==> 5 * letters - 5 < bits)
  {
  }
}
