/** Base32 as the one-time-password service writes and reads its secrets (section 6 of RFC 4648, without padding). */
module Base32 {
  import opened Arithmetic
  import opened Common
  import opened Text

  type Byte = b: int | 0 <= b < 256

  const ALPHABET := "ABCDEFGHIJKLMNOPQRSTUVWXYZ234567"

  // ---- Bits as strings of '0' and '1' -------------------------------------------------------

  predicate IsBit(c: char) {
    c == '0' || c == '1'
  }

  ghost predicate AllBits(s: string) {
    forall i :: 0 <= i < |s| ==> IsBit(s[i])
  }

  function BitOf(n: nat): char {
    if n % 2 == 1 then '1' else '0'
  }

  /** `n.toString(2)`. */
  function Binary(n: nat): (s: string)
    ensures s != [] && AllBits(s)
  {
    if n < 2 then [BitOf(n)] else Binary(n / 2) + [BitOf(n)]
  }

  /** `parseInt(s, 2)`, 0 for the empty string. */
  function BitValue(s: string): nat {
    if s == [] then 0 else 2 * BitValue(s[..|s| - 1]) + if s[|s| - 1] == '1' then 1 else 0
  }

  /** The `width` lowest bits of `n`. */
  function Fixed(n: nat, width: nat): (s: string)
    ensures |s| == width && AllBits(s)
  {
    if width == 0 then [] else Fixed(n / 2, width - 1) + [BitOf(n)]
  }

  lemma {:induction false} FixedOfZero(width: nat)
    ensures Fixed(0, width) == Zeros(width)
  {
    if width > 0 {
      FixedOfZero(width - 1);
    }
  }

  /** The padded binary text of a number that fits is its lowest bits. */
  lemma {:induction false} PaddedBinaryIsFixed(n: nat, width: nat)
    requires n < Pow2(width) && width > 0
    ensures PadStart(Binary(n), width) == Fixed(n, width)
  {
    if width == 1 {
      assert Pow2(1) == 2;
      assert Fixed(n / 2, 0) == [];
    } else if n < 2 {
      FixedOfZero(width - 1);
      assert n / 2 == 0;
    } else {
      PaddedBinaryIsFixed(n / 2, width - 1);
      var init := Binary(n / 2);
      if |init| < width - 1 {
        assert Zeros(width - 1 - |init|) + (init + [BitOf(n)]) == (Zeros(width - 1 - |init|) + init) + [BitOf(n)];
      }
    }
  }

  lemma {:induction false} ValueOfFixed(n: nat, width: nat)
    requires n < Pow2(width)
    ensures BitValue(Fixed(n, width)) == n
  {
    if width > 0 {
      ValueOfFixed(n / 2, width - 1);
      assert Fixed(n, width)[..width - 1] == Fixed(n / 2, width - 1);
    }
  }

  lemma {:induction false} FixedOfValue(s: string)
    requires AllBits(s)
    ensures BitValue(s) < Pow2(|s|) && Fixed(BitValue(s), |s|) == s
  {
    if s != [] {
      FixedOfValue(s[..|s| - 1]);
      assert s == s[..|s| - 1] + [s[|s| - 1]];
    }
  }

  // ---- Encoding ----------------------------------------------------------------------------------

  function BitsOf(bytes: seq<Byte>): (s: string)
    ensures |s| == 8 * |bytes| && AllBits(s)
  {
    if bytes == [] then [] else Fixed(bytes[0], 8) + BitsOf(bytes[1..])
  }

  /** `chunk.padEnd(5, "0")`. */
  function PadEnd5(chunk: string): (s: string)
    requires |chunk| <= 5
    ensures |s| == 5
  {
    chunk + Zeros(5 - |chunk|)
  }

  lemma ChunkFits(chunk: string)
    requires |chunk| <= 5 && AllBits(chunk)
    ensures BitValue(PadEnd5(chunk)) < 32
  {
    FixedOfValue(PadEnd5(chunk));
    assert Pow2(5) == 32;
  }

  function Letter(chunk: string): char
    requires |chunk| <= 5 && AllBits(chunk)
  {
    ChunkFits(chunk);
    ALPHABET[BitValue(PadEnd5(chunk))]
  }

  function EncodeBits(bits: string): string
    requires AllBits(bits)
  {
    if bits == [] then []
    else if |bits| <= 5 then [Letter(bits)]
    else [Letter(bits[..5])] + EncodeBits(bits[5..])
  }

  function Encode(bytes: seq<Byte>): string {
    EncodeBits(BitsOf(bytes))
  }

  /** One letter for the first chunk, then the rest. */
  lemma EncodeStep(bits: string)
    requires AllBits(bits) && bits != []
    ensures var n := Min(5, |bits|);
            EncodeBits(bits) == [Letter(bits[..n])] + EncodeBits(bits[n..])
  {
    hide Letter;
    if |bits| <= 5 {
      assert bits[..|bits|] == bits && EncodeBits(bits[|bits|..]) == [];
    }
  }

  // ---- Decoding ------------------------------------------------------------------------------------

  /** `ALPHABET.indexOf(c)`. */
  function IndexOf(c: char): (i: int)
    ensures -1 <= i < 32
    ensures i >= 0 ==> ALPHABET[i] == c
    ensures i == -1 ==> c !in ALPHABET
  {
    if 'A' <= c <= 'Z' then
      var i := c as int - 'A' as int;
      assert ALPHABET[i] == c by { LetterAt(i); }
      i
    else if '2' <= c <= '7' then
      var i := 26 + (c as int - '2' as int);
      assert ALPHABET[i] == c by { LetterAt(i); }
      i
    else
      assert c !in ALPHABET by { forall i | 0 <= i < 32 ensures ALPHABET[i] != c { LetterAt(i); } }
      -1
  }

  lemma LetterAt(i: nat)
    requires i < 32
    ensures ALPHABET[i] == if i < 26 then (i + 'A' as int) as char else (i - 26 + '2' as int) as char
  {
  }

  lemma IndexOfLetter(i: nat)
    requires i < 32
    ensures IndexOf(ALPHABET[i]) == i
  {
    LetterAt(i);
  }

  ghost predicate IsBase32(s: string) {
    forall i :: 0 <= i < |s| ==> s[i] in ALPHABET
  }

  function StripPadding(s: string): string {
    if s != [] && s[|s| - 1] == '=' then StripPadding(s[..|s| - 1]) else s
  }

  /** The input in upper case, without trailing `=` and then without white space. */
  function Clean(upper: string -> string, input: string): string {
    Filter(StripPadding(upper(input)), c => !IsSpace(c))
  }

  /** The five bits of each character; None when one is not in the alphabet. */
  function DecodeBits(s: string): (bits: Option<string>)
    ensures bits.Some? ==> |bits.value| == 5 * |s| && AllBits(bits.value)
  {
    if s == [] then Some([])
    else
      var rest := DecodeBits(s[1..]);
      if IndexOf(s[0]) == -1 || rest.None? then None else Some(Fixed(IndexOf(s[0]), 5) + rest.value)
  }

  /** Whole bytes from the front; up to seven bits that remain are dropped. */
  function BytesOf(bits: string): seq<Byte>
    requires AllBits(bits)
  {
    if |bits| < 8 then []
    else
      FixedOfValue(bits[..8]);
      assert Pow2(8) == 256;
      [BitValue(bits[..8])] + BytesOf(bits[8..])
  }

  function Decode(upper: string -> string, input: string): Option<seq<Byte>> {
    match DecodeBits(Clean(upper, input))
    case None => None
    case Some(bits) => Some(BytesOf(bits))
  }

  // ---- Decoding undoes encoding ------------------------------------------------------------------------

  /** Upper-casing leaves texts over the alphabet alone. */
  ghost predicate KeepsUpper(upper: string -> string) {
    forall s :: IsBase32(s) ==> upper(s) == s
  }

  lemma {:induction false} FilterAll(s: string, p: char -> bool)
    requires forall i :: 0 <= i < |s| ==> p(s[i])
    ensures Filter(s, p) == s
  {
    if s != [] {
      FilterAll(s[..|s| - 1], p);
    }
  }

  lemma CleanKeepsBase32(upper: string -> string, s: string)
    requires KeepsUpper(upper) && IsBase32(s)
    ensures Clean(upper, s) == s
  {
    forall i | 0 <= i < |s|
      ensures !IsSpace(s[i]) && s[i] != '='
    {
      var k := IndexOf(s[i]);
      LetterAt(k);
    }
    FilterAll(s, c => !IsSpace(c));
  }

  lemma LetterReadsBack(chunk: string)
    requires |chunk| <= 5 && AllBits(chunk)
    ensures Letter(chunk) in ALPHABET && IndexOf(Letter(chunk)) == BitValue(PadEnd5(chunk))
    ensures Fixed(IndexOf(Letter(chunk)), 5) == PadEnd5(chunk)
  {
    ChunkFits(chunk);
    IndexOfLetter(BitValue(PadEnd5(chunk)));
    FixedOfValue(PadEnd5(chunk));
  }

  /** How many zeros fill the last chunk. */
  function Fill(n: nat): (k: nat)
    ensures k < 5 && (n + k) % 5 == 0
  {
    (5 - n % 5) % 5
  }

  lemma FillStep(n: nat)
    ensures n > 5 ==> Fill(n - 5) == Fill(n)
    ensures 0 < n <= 5 ==> Fill(n) == 5 - n
    ensures Fill(0) == 0
  {
  }

  lemma DecodeFirst(c: char, rest: string)
    requires c in ALPHABET && DecodeBits(rest).Some?
    ensures DecodeBits([c] + rest) == Some(Fixed(IndexOf(c), 5) + DecodeBits(rest).value)
  {
    hide Fixed, IndexOf;
    assert IndexOf(c) != -1;
    assert ([c] + rest)[1..] == rest;
  }

  lemma {:induction false} EncodedBitsReadBack(bits: string)
    requires AllBits(bits)
    ensures var s := EncodeBits(bits);
            IsBase32(s) && DecodeBits(s) == Some(bits + Zeros(Fill(|bits|)))
    decreases |bits|
  {
    FillStep(|bits|);
    if bits == [] {
      assert bits + Zeros(Fill(0)) == [];
    } else if |bits| <= 5 {
      LetterReadsBack(bits);
      DecodeFirst(Letter(bits), []);
      hide Letter, IndexOf, Fixed, Fill, DecodeBits;
      assert [Letter(bits)] + [] == [Letter(bits)];
      assert DecodeBits([]) == Some([]) by { DecodeNothing(); }
      assert PadEnd5(bits) + [] == bits + Zeros(Fill(|bits|));
    } else {
      LetterReadsBack(bits[..5]);
      EncodedBitsReadBack(bits[5..]);
      DecodeFirst(Letter(bits[..5]), EncodeBits(bits[5..]));
      hide Letter, IndexOf, Fixed, Fill, DecodeBits;
      assert PadEnd5(bits[..5]) == bits[..5];
      assert bits[..5] + (bits[5..] + Zeros(Fill(|bits|))) == bits + Zeros(Fill(|bits|));
    }
  }

  lemma DecodeNothing()
    ensures DecodeBits([]) == Some([])
  {
  }

  lemma BytesStep(bits: string)
    requires AllBits(bits) && |bits| >= 8
    ensures BitValue(bits[..8]) < 256 && BytesOf(bits) == [BitValue(bits[..8]) as Byte] + BytesOf(bits[8..])
  {
    FixedOfValue(bits[..8]);
    assert Pow2(8) == 256;
  }

  lemma {:induction false} BytesReadBack(bytes: seq<Byte>, tail: string)
    requires AllBits(tail) && |tail| < 8
    ensures BytesOf(BitsOf(bytes) + tail) == bytes
  {
    hide Fixed, BitValue;
    if bytes == [] {
      assert BitsOf(bytes) + tail == tail;
    } else {
      BytesReadBack(bytes[1..], tail);
      assert Pow2(8) == 256;
      ValueOfFixed(bytes[0], 8);
      var bits := BitsOf(bytes) + tail;
      BytesStep(bits);
      assert bits[..8] == Fixed(bytes[0], 8);
      assert bits[8..] == BitsOf(bytes[1..]) + tail;
      hide BytesOf, BitsOf, AllBits;
    }
  }

  /** Decoding what was encoded returns it, for byte sequences of every length. */
  lemma DecodeOfEncode(upper: string -> string, bytes: seq<Byte>)
    requires KeepsUpper(upper)
    ensures Decode(upper, Encode(bytes)) == Some(bytes)
  {
    EncodedBitsReadBack(BitsOf(bytes));
    CleanKeepsBase32(upper, Encode(bytes));
    BytesReadBack(bytes, Zeros(Fill(8 * |bytes|)));
  }

  // ---- Encoding undoes decoding ---------------------------------------------------------------------------

  /** How many bits do not fill a byte. */
  function Left(n: nat): (k: nat)
    ensures k < 8 && k <= n
  {
    n % 8
  }

  lemma LeftStep(n: nat)
    ensures n >= 8 ==> Left(n - 8) == Left(n)
    ensures n < 8 ==> Left(n) == n
  {
  }

  lemma {:induction false} BitsOfBytes(bits: string)
    requires AllBits(bits)
    ensures BitsOf(BytesOf(bits)) == bits[..|bits| - Left(|bits|)]
    decreases |bits|
  {
    LeftStep(|bits|);
    if |bits| >= 8 {
      BitsOfBytes(bits[8..]);
      FixedOfValue(bits[..8]);
      hide Fixed, BitValue, Left;
      var bytes := BytesOf(bits);
      assert bytes[1..] == BytesOf(bits[8..]);
      var r := Left(|bits|);
      assert bits[..8] + bits[8..][..|bits| - 8 - r] == bits[..|bits| - r];
    }
  }

  lemma {:induction false} EncodeOfDecodedBits(s: string)
    requires IsBase32(s)
    ensures DecodeBits(s).Some? && EncodeBits(DecodeBits(s).value) == s
  {
    if s != [] {
      assert s[0] in ALPHABET;
      EncodeOfDecodedBits(s[1..]);
      DecodeFirst(s[0], s[1..]);
      assert s == [s[0]] + s[1..];
      var bits, rest := DecodeBits(s).value, DecodeBits(s[1..]).value;
      FirstLetter(s[0], bits, rest);
      EncodeStep(bits);
      hide Fixed, BitValue, IndexOf, Letter, DecodeBits, EncodeBits;
      assert bits[Min(5, |bits|)..] == rest;
    }
  }

  /** The first five bits of a decoded text print its first character again. */
  lemma FirstLetter(c: char, bits: string, rest: string)
    requires c in ALPHABET && AllBits(bits) && bits == Fixed(IndexOf(c), 5) + rest
    ensures Letter(bits[..5]) == c
  {
    var k := IndexOf(c);
    assert Pow2(5) == 32;
    ValueOfFixed(k, 5);
    hide Fixed, BitValue;
    assert bits[..5] == Fixed(k, 5) && PadEnd5(bits[..5]) == bits[..5];
  }

  /** Filling the last chunk with zeros beforehand changes nothing. */
  lemma {:induction false} FillingIsInvisible(bits: string)
    requires AllBits(bits)
    ensures EncodeBits(bits + Zeros(Fill(|bits|))) == EncodeBits(bits)
    decreases |bits|
  {
    FillStep(|bits|);
    var filled := bits + Zeros(Fill(|bits|));
    if bits == [] {
      assert filled == [];
    } else if |bits| <= 5 {
      hide Fill;
      assert filled == PadEnd5(bits) && PadEnd5(filled) == filled;
    } else {
      FillingIsInvisible(bits[5..]);
      hide Fill, Letter;
      assert filled[..5] == bits[..5];
      assert filled[5..] == bits[5..] + Zeros(Fill(|bits[5..]|));
    }
  }

  /** The bits that do not fill a byte are fewer than five, and all zero. */
  ghost predicate ZeroTail(bits: string) {
    Left(|bits|) < 5 && bits[|bits| - Left(|bits|)..] == Zeros(Left(|bits|))
  }

  /** Dropping fewer than five bits from full chunks leaves exactly those to be filled again. */
  lemma FillOfRest(n: nat, left: nat)
    requires n % 5 == 0 && left <= n
    ensures Fill(n) == 0 && (left < 5 <==> Fill(n - left) == left)
  {
  }

  lemma WholeEncodesIff(bits: string)
    requires AllBits(bits) && Fill(|bits|) == 0
    requires Left(|bits|) < 5 <==> Fill(|bits| - Left(|bits|)) == Left(|bits|)
    ensures EncodeBits(bits[..|bits| - Left(|bits|)]) == EncodeBits(bits) <==> ZeroTail(bits)
  {
    hide Fill, Left, EncodeBits, DecodeBits;
    var left := Left(|bits|);
    var whole, tail := bits[..|bits| - left], bits[|bits| - left..];
    EncodedBitsReadBack(whole);
    EncodedBitsReadBack(bits);
    FillingIsInvisible(whole);
    assert bits == whole + tail && bits + Zeros(0) == bits;
    if EncodeBits(whole) == EncodeBits(bits) {
      assert bits == whole + Zeros(Fill(|whole|));
      assert bits[|whole|..] == Zeros(Fill(|whole|));
    }
  }

  /**
   * Encoding what was decoded from a text over the alphabet returns the text exactly when the bits that do not fill a
   * byte are fewer than five and all zero.
   */
  lemma EncodeOfDecodeIff(upper: string -> string, s: string)
    requires KeepsUpper(upper) && IsBase32(s)
    ensures DecodeBits(s).Some? && Decode(upper, s).Some?
    ensures Encode(Decode(upper, s).value) == s <==> ZeroTail(DecodeBits(s).value)
  {
    CleanKeepsBase32(upper, s);
    EncodeOfDecodedBits(s);
    hide Clean, BytesOf, BitsOf, EncodeBits, DecodeBits, ZeroTail, Left, Fill;
    var bits := DecodeBits(s).value;
    BitsOfBytes(bits);
    FiveTimes(|s|);
    FillOfRest(|bits|, Left(|bits|));
    WholeEncodesIff(bits);
  }

  lemma FiveTimes(n: nat)
    ensures (5 * n) % 5 == 0
  {
  }

  /** In particular for every text over the alphabet whose length is divisible by eight. */
  lemma EncodeOfDecode(upper: string -> string, s: string)
    requires KeepsUpper(upper) && IsBase32(s) && |s| % 8 == 0
    ensures Decode(upper, s).Some? && Encode(Decode(upper, s).value) == s
  {
    EncodeOfDecodeIff(upper, s);
    LeftOfEight(|s|);
    hide DecodeBits, Decode, Encode, Left;
    assert ZeroTail(DecodeBits(s).value);
  }

  lemma LeftOfEight(n: nat)
    requires n % 8 == 0
    ensures Left(5 * n) == 0
  {
  }
}
