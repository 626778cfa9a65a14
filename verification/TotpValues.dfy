/** Secrets and codes as numbers: what the text of a secret stands for, and which digits a code has. */
module TotpValues {
  import opened Arithmetic
  import opened Common
  import opened Text
  import opened Base32
  import opened TotpCodes

  // ---- Secrets in base 32 ----------------------------------------------------------------------

  /** The bytes as one number, most significant first. */
  function BigEndian(bytes: seq<Byte>): nat {
    if bytes == [] then 0 else 256 * BigEndian(bytes[..|bytes| - 1]) + bytes[|bytes| - 1]
  }

  /** The letters A to Z stand for 0 to 25, the digits 2 to 7 for 26 to 31. */
  function LetterValue(c: char): int {
    if 'A' <= c <= 'Z' then c as int - 'A' as int else c as int - '2' as int + 26
  }

  function Base32Number(text: string): int {
    if text == [] then 0 else 32 * Base32Number(text[..|text| - 1]) + LetterValue(text[|text| - 1])
  }

  lemma {:induction false} Pow2Add(a: nat, b: nat)
    ensures Pow2(a + b) == Pow2(a) * Pow2(b)
  {
    if b > 0 {
      Pow2Add(a, b - 1);
    }
  }

  lemma {:induction false} BitValueConcat(a: string, b: string)
    ensures BitValue(a + b) == BitValue(a) * Pow2(|b|) + BitValue(b)
  {
    if b == [] {
      assert a + b == a;
    } else {
      var init := b[..|b| - 1];
      assert (a + b)[..|a + b| - 1] == a + init && (a + b)[|a + b| - 1] == b[|b| - 1];
      BitValueConcat(a, init);
      DoubleProduct(BitValue(a), Pow2(|init|), BitValue(init));
    }
  }

  lemma DoubleProduct(a: nat, p: nat, b: nat)
    ensures 2 * (a * p + b) == a * (2 * p) + 2 * b
  {
  }

  lemma {:induction false} BitValueOfZeros(n: nat)
    ensures BitValue(Zeros(n)) == 0
  {
    if n > 0 {
      BitValueOfZeros(n - 1);
      assert Zeros(n)[..n - 1] == Zeros(n - 1);
    }
  }

  lemma {:induction false} BitsAreTheNumber(bytes: seq<Byte>)
    ensures BitValue(BitsOf(bytes)) == BigEndian(bytes)
  {
    hide Fixed, BitsOf;
    if bytes == [] {
      NoBits();
    } else {
      var init, last := bytes[..|bytes| - 1], bytes[|bytes| - 1];
      assert bytes == init + [last];
      BitsAreTheNumber(init);
      BitsOfAppend(init, last);
      BitValueConcat(BitsOf(init), Fixed(last, 8));
      assert Pow2(8) == 256;
      ValueOfFixed(last, 8);
    }
  }

  lemma LetterStandsFor(chunk: string)
    requires 0 < |chunk| <= 5 && AllBits(chunk)
    ensures LetterValue(Letter(chunk)) == BitValue(chunk) * Pow2(5 - |chunk|)
  {
    ChunkFits(chunk);
    LetterAt(BitValue(PadEnd5(chunk)));
    BitValueConcat(chunk, Zeros(5 - |chunk|));
    BitValueOfZeros(5 - |chunk|);
    hide BitValue, Pow2;
  }

  lemma {:induction false} NumberOfMore(c: char, text: string)
    ensures Base32Number([c] + text) == LetterValue(c) * Pow2(5 * |text|) + Base32Number(text)
  {
    hide LetterValue;
    if text == [] {
      assert [c] + text == [c] && [c][..0] == [];
    } else {
      var init, last := text[..|text| - 1], text[|text| - 1];
      assert ([c] + text)[..|text|] == [c] + init;
      NumberOfMore(c, init);
      Pow2Add(5 * |init|, 5);
      assert Pow2(5) == 32;
      var p := Pow2(5 * |init|);
      assert Pow2(5 * |text|) == p * 32;
      assert 32 * (LetterValue(c) * p) == LetterValue(c) * (p * 32);
    }
  }

  /** The text has just the letters that `width` bits need, and is the number, shifted to fill the last of them. */
  ghost predicate StandsFor(text: string, number: nat, width: nat) {
    width <= 5 * |text| < width + 5 && Base32Number(text) == number * Pow2(5 * |text| - width)
  }

  lemma {:induction false} EncodedBits(bits: string)
    requires AllBits(bits)
    ensures StandsFor(EncodeBits(bits), BitValue(bits), |bits|)
  {
    hide BitValue, Base32Number, Letter, LetterValue;
    if bits == [] {
      assert Base32Number([]) == 0 && BitValue([]) == 0 by { NoNumbers(); }
    } else if |bits| <= 5 {
      LetterStandsFor(bits);
      OneLetter(Letter(bits));
    } else {
      var first, rest := bits[..5], bits[5..];
      assert bits == first + rest;
      EncodedBits(rest);
      LetterStandsFor(first);
      NumberOfMore(Letter(first), EncodeBits(rest));
      BitValueConcat(first, rest);
      var n := |EncodeBits(rest)|;
      Pow2Add(|rest|, 5 * n - |rest|);
      Rearrange(BitValue(first), BitValue(rest), Pow2(|rest|), Pow2(5 * n - |rest|));
    }
  }

  lemma NoNumbers()
    ensures Base32Number([]) == 0 && BitValue([]) == 0
  {
  }

  lemma OneLetter(c: char)
    ensures Base32Number([c]) == LetterValue(c)
  {
    assert [c][..0] == [];
  }

  lemma Rearrange(a: nat, b: nat, p: nat, q: nat)
    ensures (a * p + b) * q == a * (p * q) + b * q
  {
  }

  /**
   * The text of a secret is its bytes as one number, written in base 32 with as few letters as hold all bits, the last
   * letter filled up with zero bits (section 6 of RFC 4648).
   */
  lemma EncodeIsBase32(bytes: seq<Byte>)
    ensures StandsFor(Encode(bytes), BigEndian(bytes), 8 * |bytes|)
  {
    var bits := BitsOf(bytes);
    assert Encode(bytes) == EncodeBits(bits) && |bits| == 8 * |bytes|;
    hide *;
    BitsAreTheNumber(bytes);
    EncodedBits(bits);
  }

  // ---- Codes -----------------------------------------------------------------------------------------

  /** The four bytes that the low half of the last byte points at, as one number without its top bit. */
  lemma TruncateIs(mac: seq<Byte>)
    requires |mac| == 20
    ensures var at := mac[19] % 16; Truncate(mac) == BigEndian(mac[at..at + 4]) % 0x8000_0000
  {
    var at := mac[19] % 16;
    var four := mac[at..at + 4];
    assert four[..3][..2][..1][..0] == [];
    assert BigEndian(four[..3][..2][..1]) == four[0] as int;
    assert BigEndian(four[..3][..2]) == 256 * four[0] as int + four[1] as int;
    assert BigEndian(four[..3]) == 256 * (256 * four[0] as int + four[1] as int) + four[2] as int;
    hide BigEndian;
    var high := four[0] / 128;
    assert four[0] == 128 * high + four[0] % 128;
    assert BigEndian(four) == high * 0x8000_0000 + Truncate(mac);
  }

  /**
   * A counter has a code exactly when the secret decodes and the counter is from 0 to 2^64 - 1; the code is the last
   * digits, padded with zeros, of those four bytes of the keyed hash (section 5.3 of RFC 4226).
   */
  lemma CodeIs(env: Env, secret: string, counter: int, digits: nat)
    requires env.Valid() && digits > 0
    ensures var key, code := Decode(env.upper, secret), CodeAt(env, secret, counter, digits);
            && (code.Some? <==> key.Some? && 0 <= counter < 0x1_0000_0000_0000_0000)
            && (code.Some? ==>
                  var mac := env.hmac(key.value, counter);
                  var at := mac[19] % 16;
                  && |mac| == 20 && |code.value| == digits && AllDigits(code.value)
                  && Parse(code.value) == BigEndian(mac[at..at + 4]) % 0x8000_0000 % Pow10(digits))
  {
    hide Decode, BigEndian, Decimal, Parse;
    var key := Decode(env.upper, secret);
    if key.Some? && 0 <= counter < COUNTER_LIMIT {
      var mac := env.hmac(key.value, counter);
      TruncateIs(mac);
      hide Truncate;
      var n := Truncate(mac) % Pow10(digits);
      DecimalFits(n, digits);
      DecimalParses(n);
      if |Decimal(n)| < digits {
        ZerosParse(digits - |Decimal(n)|, Decimal(n));
      }
    }
  }

  /** The worked example of section 5.4 of RFC 4226. */
  lemma Rfc4226Example()
    ensures var mac: seq<Byte> := [0x1f, 0x86, 0x98, 0x69, 0x0e, 0x02, 0xca, 0x16, 0x61, 0x85,
                                   0x50, 0xef, 0x7f, 0x19, 0xda, 0x8e, 0x94, 0x5b, 0x55, 0x5a];
            Truncate(mac) == 0x50ef_7f19 && Truncate(mac) % Pow10(6) == 872_921
  {
    assert Pow10(3) == 1000;
    assert Pow10(6) == 1_000_000;
  }

  // ---- Time ----------------------------------------------------------------------------------------------

  /** Counter c stands for the times from c periods of `period` seconds on, and before c + 1 of them. */
  lemma CounterIs(t: nat, period: nat)
    requires period > 0
    ensures var c := Counter(t, period); c * (1000 * period) <= t < (c + 1) * (1000 * period)
  {
    var p := 1000 * period;
    var c := Counter(t, period);
    assert c == t / p;
    DivBounds(t, p);
    Distribute(c, p);
    hide Counter, Quotient;
  }

  /** More than `window` periods away, in either direction, the counter of a code is not looked at any more. */
  lemma CodesExpire(t: nat, now: nat, window: nat, period: nat)
    requires period > 0
    ensures now >= t + (window + 1) * (1000 * period) ==> Counter(t, period) < Counter(now, period) - window
    ensures t >= now + (window + 1) * (1000 * period) ==> Counter(t, period) > Counter(now, period) + window
  {
    if now >= t + (window + 1) * (1000 * period) {
      CountersApart(t, now, window + 1, period);
    }
    if t >= now + (window + 1) * (1000 * period) {
      CountersApart(now, t, window + 1, period);
    }
  }

  lemma CountersApart(a: nat, b: nat, n: nat, period: nat)
    requires period > 0 && b >= a + n * (1000 * period)
    ensures Counter(b, period) >= Counter(a, period) + n
  {
    var p, ca, cb := 1000 * period, Counter(a, period), Counter(b, period);
    CounterIs(a, period);
    CounterIs(b, period);
    hide Counter;
    assert (ca + n) * p == ca * p + n * p;
    LessIffFactorLess(ca + n, cb + 1, p);
  }
}
