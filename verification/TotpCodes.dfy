/** The loops of the one-time-password service, and which codes its time window accepts. */
module TotpCodes {
  import opened Arithmetic
  import opened Common
  import opened Text
  import opened Base32

  // ---- Secrets --------------------------------------------------------------------------------

  lemma {:induction false} BitsOfAppend(bytes: seq<Byte>, b: Byte)
    ensures BitsOf(bytes + [b]) == BitsOf(bytes) + Fixed(b, 8)
  {
    hide Fixed;
    if bytes == [] {
      assert [b][1..] == [] && bytes + [b] == [b];
      assert BitsOf([]) == [];
    } else {
      BitsOfAppend(bytes[1..], b);
      assert (bytes + [b])[1..] == bytes[1..] + [b];
    }
  }

  /** The bits of the bytes, padded to eight each, then one letter for every five of them. */
  method GenerateTotpSecret(bytes: seq<Byte>) returns (secret: string)
    ensures secret == Encode(bytes)
  {
    hide Fixed, BitsOf, EncodeBits, Binary, BitValue;
    var bits := "";
    assert BitsOf([]) == [] by { NoBits(); }
    for i := 0 to |bytes|
      invariant bits == BitsOf(bytes[..i])
    {
      assert Pow2(8) == 256;
      PaddedBinaryIsFixed(bytes[i], 8);
      BitsOfAppend(bytes[..i], bytes[i]);
      assert bytes[..i + 1] == bytes[..i] + [bytes[i]];
      bits := bits + PadStart(Binary(bytes[i]), 8);
    }
    assert bytes[..|bytes|] == bytes;
    secret := "";
    var i := 0;
    while i < |bits|
      invariant i <= |bits| && secret + EncodeBits(bits[i..]) == EncodeBits(bits)
    {
      var n := Min(5, |bits| - i);
      EncodeStep(bits[i..]);
      assert bits[i..][..n] == bits[i..i + n] && bits[i..][n..] == bits[i + n..];
      ChunkFits(bits[i..i + n]);
      secret := secret + [ALPHABET[BitValue(PadEnd5(bits[i..i + n]))]];
      i := i + n;
    }
    assert bits[i..] == [] && EncodeBits([]) == [] by { NoBits(); }
  }

  lemma NoBits()
    ensures BitsOf([]) == [] && EncodeBits([]) == []
  {
  }

  function Prefixed(bits: string, rest: Option<string>): Option<string> {
    if rest.None? then None else Some(bits + rest.value)
  }

  lemma NoPrefix(rest: Option<string>)
    ensures Prefixed([], rest) == rest
  {
    if rest.Some? {
      assert [] + rest.value == rest.value;
    }
  }

  lemma DecodeStep(clean: string, i: nat, bits: string)
    requires i < |clean| && DecodeBits(clean) == Prefixed(bits, DecodeBits(clean[i..]))
    ensures IndexOf(clean[i]) == -1 ==> DecodeBits(clean) == None
    ensures IndexOf(clean[i]) != -1 ==>
              DecodeBits(clean) == Prefixed(bits + Fixed(IndexOf(clean[i]), 5), DecodeBits(clean[i + 1..]))
  {
    hide Fixed, IndexOf;
    var rest := DecodeBits(clean[i + 1..]);
    assert clean[i..][1..] == clean[i + 1..];
    if IndexOf(clean[i]) != -1 && rest.Some? {
      var five := Fixed(IndexOf(clean[i]), 5);
      assert DecodeBits(clean[i..]) == Some(five + rest.value);
      assert bits + (five + rest.value) == (bits + five) + rest.value;
    }
  }

  /** The bits of every character, then the whole bytes; None for a character outside the alphabet. */
  method Base32Decode(upper: string -> string, input: string) returns (bytes: Option<seq<Byte>>)
    ensures bytes == Decode(upper, input)
  {
    hide Fixed, IndexOf, DecodeBits, BytesOf, Binary, BitValue, Clean;
    var clean := Clean(upper, input);
    var bits := "";
    assert clean[0..] == clean;
    assert Prefixed(bits, DecodeBits(clean)) == DecodeBits(clean) by { NoPrefix(DecodeBits(clean)); }
    for i := 0 to |clean|
      invariant AllBits(bits) && DecodeBits(clean) == Prefixed(bits, DecodeBits(clean[i..]))
    {
      var index := IndexOf(clean[i]);
      DecodeStep(clean, i, bits);
      if index == -1 {
        return None;
      }
      assert Pow2(5) == 32;
      PaddedBinaryIsFixed(index, 5);
      bits := bits + PadStart(Binary(index), 5);
    }
    assert clean[|clean|..] == [];
    DecodeNothing();
    assert bits + [] == bits;
    var out: seq<Byte> := [];
    var i := 0;
    while i + 8 <= |bits|
      invariant i <= |bits| && out + BytesOf(bits[i..]) == BytesOf(bits)
    {
      BytesStep(bits[i..]);
      assert bits[i..][..8] == bits[i..i + 8] && bits[i..][8..] == bits[i + 8..];
      out := out + [BitValue(bits[i..i + 8])];
      i := i + 8;
    }
    FewBits(bits[i..]);
    assert out == out + [] == BytesOf(bits);
    assert DecodeBits(clean) == Some(bits);
    return Some(out);
  }

  lemma FewBits(bits: string)
    requires AllBits(bits) && |bits| < 8
    ensures BytesOf(bits) == []
  {
  }

  // ---- Codes --------------------------------------------------------------------------------------

  /** Upper-casing, and the twenty bytes of the keyed hash of a counter. */
  datatype Env = Env(upper: string -> string, hmac: (seq<Byte>, nat) -> seq<Byte>) {
    ghost predicate Valid() {
      KeepsUpper(upper) && forall key, c :: |hmac(key, c)| == 20
    }
  }

  /** Four bytes at the offset that the low half of the last byte names, without the top bit. */
  function Truncate(mac: seq<Byte>): (code: nat)
    requires |mac| == 20
    ensures code < 0x8000_0000
  {
    var offset := mac[19] as int % 16;
    (mac[offset] as int % 128) * 0x100_0000 + mac[offset + 1] as int * 0x1_0000 + mac[offset + 2] as int * 0x100
    + mac[offset + 3] as int
  }

  const COUNTER_LIMIT: nat := 0x1_0000_0000_0000_0000

  /** The printed code of a counter; None when the secret does not decode or the counter does not fit eight bytes. */
  function CodeAt(env: Env, secret: string, counter: int, digits: nat): Option<string>
    requires env.Valid()
  {
    var key := Decode(env.upper, secret);
    if key.None? || counter < 0 || counter >= COUNTER_LIMIT then None
    else Some(PadStart(Decimal(Truncate(env.hmac(key.value, counter)) % Pow10(digits)), digits))
  }

  /** Steps of `period` seconds since the epoch, for a time in milliseconds. */
  function Counter(timestamp: nat, period: nat): nat
    requires period > 0
  {
    Quotient(timestamp, 1000 * period)
  }

  function Quotient(a: nat, b: nat): nat
    requires b > 0
  {
    a / b
  }

  /** A code is exactly `digits` decimal digits. */
  lemma CodeIsDigits(env: Env, secret: string, counter: int, digits: nat)
    requires env.Valid() && digits > 0
    ensures var code := CodeAt(env, secret, counter, digits);
            code.Some? ==> |code.value| == digits && AllDigits(code.value)
  {
    var code := CodeAt(env, secret, counter, digits);
    if code.Some? {
      var n := Truncate(env.hmac(Decode(env.upper, secret).value, counter)) % Pow10(digits);
      DecimalFits(n, digits);
      DecimalParses(n);
    }
  }

  /** Tries the steps from `-window` up; None when one of them throws before a match. */
  method VerifyTotp(env: Env, secret: string, code: string, now: nat, digits: nat, window: nat, period: nat)
    returns (ok: Option<bool>)
    requires env.Valid() && period > 0
    ensures var c := Counter(now, period);
            && (ok == Some(true) ==> Matches(env, secret, code, c - window, c + window + 1, digits))
            && (ok == Some(false) ==> !Matches(env, secret, code, c - window, c + window + 1, digits))
            && (ok.None? <==> Throws(env, secret, code, c - window, c + window + 1, digits))
  {
    hide CodeAt;
    var c := Counter(now, period);
    for i: int := 0 - window to window + 1
      invariant !Matches(env, secret, code, c - window, c + i, digits)
      invariant !Throws(env, secret, code, c - window, c + i, digits)
    {
      var candidate := CodeAt(env, secret, c + i, digits);
      if candidate.None? {
        return None;
      }
      if candidate.value == code {
        return Some(true);
      }
    }
    return Some(false);
  }

  /** Some counter from `lo` below `hi` prints the code. */
  ghost predicate Matches(env: Env, secret: string, code: string, lo: int, hi: int, digits: nat)
    requires env.Valid()
  {
    exists c :: lo <= c < hi && CodeAt(env, secret, c, digits) == Some(code)
  }

  /** Some counter from `lo` below `hi` has no code, and none before it prints the given one. */
  ghost predicate Throws(env: Env, secret: string, code: string, lo: int, hi: int, digits: nat)
    requires env.Valid()
  {
    exists c :: lo <= c < hi && CodeAt(env, secret, c, digits) == None && !Matches(env, secret, code, lo, c, digits)
  }

  lemma CountersAreClose(t: nat, now: nat, window: nat, period: nat)
    requires period > 0 && now <= t + window * (1000 * period) && t <= now + window * (1000 * period)
    ensures Counter(t, period) - window <= Counter(now, period) <= Counter(t, period) + window
  {
    var p := 1000 * period;
    QuotientGrows(t, now, window, p);
    QuotientGrows(now, t, window, p);
  }

  lemma QuotientGrows(a: nat, b: nat, n: nat, p: nat)
    requires p > 0 && b <= a + n * p
    ensures Quotient(b, p) <= Quotient(a, p) + n
  {
    DivBounds(a, p);
    DivBounds(b, p);
    var q := Quotient(a, p);
    LessIffFactorLess(Quotient(b, p), q + n + 1, p);
    assert (q + n + 1) * p == q * p + n * p + p;
  }

  /**
   * A code shown at `t` is what the check at `now` looks for when the two are at most `window` periods apart, in either
   * direction; so with the default window a clock may be half a minute off.
   */
  lemma CodesAreAcceptedWithinDrift(env: Env, secret: string, t: nat, now: nat, digits: nat, window: nat, period: nat)
    requires env.Valid() && period > 0
    requires now <= t + window * (1000 * period) && t <= now + window * (1000 * period)
    requires CodeAt(env, secret, Counter(t, period), digits).Some?
    ensures var c := Counter(now, period);
            Matches(env, secret, CodeAt(env, secret, Counter(t, period), digits).value,
                    c - window, c + window + 1, digits)
  {
    hide CodeAt, Counter;
    CountersAreClose(t, now, window, period);
  }

  /** Every secret the service generates can be verified against: its codes exist for every representable counter. */
  lemma GeneratedSecretsWork(env: Env, bytes: seq<Byte>, counter: nat, digits: nat)
    requires env.Valid() && counter < COUNTER_LIMIT
    ensures CodeAt(env, Encode(bytes), counter, digits)
            == Some(PadStart(Decimal(Truncate(env.hmac(bytes, counter)) % Pow10(digits)), digits))
  {
    DecodeOfEncode(env.upper, bytes);
    hide Decode, Encode;
  }
}
