/**
 * The config hash sent with LoadConfig: FNV-1a, 64 bits wide (section 2 of draft-eastlake-fnv), printed as
 * sixteen hexadecimal digits (src/simulation/adapters/fluxgraph/fluxgraph_client.cpp).
 *
 * Machine words are natural numbers below 2^64 and wrap-around is written out.
 */
module ConfigHash {
  const WORD_LIMIT := 0x1_0000_0000_0000_0000
  const OFFSET_BASIS: nat := 0xcbf29ce484222325
  const FNV_PRIME: nat := 0x100000001b3
  // The inverse of the (odd) prime modulo 2^64.
  const FNV_PRIME_INVERSE: nat := 0xce965057aff6957b

  type byte = n: nat | n < 256
  type word = n: nat | n < 0x1_0000_0000_0000_0000

  // ---------------------------------------------------------------------------------------------
  // Bitwise exclusive or with a byte
  // ---------------------------------------------------------------------------------------------

  function XorBits(a: nat, b: nat, bits: nat): nat {
    if bits == 0 then 0 else (a % 2 + b % 2) % 2 + 2 * XorBits(a / 2, b / 2, bits - 1)
  }

  function Pow(base: nat, n: nat): nat {
    if n == 0 then 1 else base * Pow(base, n - 1)
  }

  lemma {:induction false} XorBitsIsBounded(a: nat, b: nat, bits: nat)
    ensures XorBits(a, b, bits) < Pow(2, bits)
  {
    if bits > 0 {
      XorBitsIsBounded(a / 2, b / 2, bits - 1);
    }
  }

  lemma {:induction false} XorBitsCancels(a1: nat, a2: nat, b: nat, bits: nat)
    requires a1 < Pow(2, bits) && a2 < Pow(2, bits)
    requires XorBits(a1, b, bits) == XorBits(a2, b, bits)
    ensures a1 == a2
  {
    if bits > 0 {
      LowBitAndRest((a1 % 2 + b % 2) % 2, XorBits(a1 / 2, b / 2, bits - 1),
                    (a2 % 2 + b % 2) % 2, XorBits(a2 / 2, b / 2, bits - 1));
      XorBitsCancels(a1 / 2, a2 / 2, b / 2, bits - 1);
      ParityCancels(a1 % 2, a2 % 2, b % 2);
    }
  }

  lemma LowBitAndRest(low1: nat, rest1: nat, low2: nat, rest2: nat)
    requires low1 < 2 && low2 < 2 && low1 + 2 * rest1 == low2 + 2 * rest2
    ensures low1 == low2 && rest1 == rest2
  {
  }

  lemma ParityCancels(a1: nat, a2: nat, b: nat)
    requires a1 < 2 && a2 < 2 && b < 2 && (a1 + b) % 2 == (a2 + b) % 2
    ensures a1 == a2
  {
  }

  lemma {:induction false} XorBitsCommutes(a: nat, b: nat, bits: nat)
    ensures XorBits(a, b, bits) == XorBits(b, a, bits)
  {
    if bits > 0 {
      XorBitsCommutes(a / 2, b / 2, bits - 1);
    }
  }

  function XorByte(a: byte, b: byte): byte {
    XorBitsIsBounded(a, b, 8);
    XorBits(a, b, 8)
  }

  lemma XorByteIsInjective(a1: byte, a2: byte, b1: byte, b2: byte)
    ensures XorByte(a1, b1) == XorByte(a2, b1) ==> a1 == a2
    ensures XorByte(a1, b1) == XorByte(a1, b2) ==> b1 == b2
  {
    XorBitsCommutes(a1, b1, 8);
    XorBitsCommutes(a1, b2, 8);
    if XorByte(a1, b1) == XorByte(a2, b1) {
      XorBitsCancels(a1, a2, b1, 8);
    }
    if XorByte(a1, b1) == XorByte(a1, b2) {
      XorBitsCancels(b1, b2, a1, 8);
    }
  }

  /** Bit i of a number. */
  function Bit(v: nat, i: nat): nat {
    if i == 0 then v % 2 else Bit(v / 2, i - 1)
  }

  lemma {:induction false} XorIsBitwise(a: nat, b: nat, bits: nat, i: nat)
    requires i < bits
    ensures Bit(XorBits(a, b, bits), i) == if Bit(a, i) == Bit(b, i) then 0 else 1
  {
    if i > 0 {
      XorIsBitwise(a / 2, b / 2, bits - 1, i - 1);
    }
  }

  /** hash ^ c for a zero-extended byte c: only the lowest byte of the word takes part. */
  function XorLow(hash: word, c: byte): word {
    hash - hash % 256 + XorByte(hash % 256, c)
  }

  lemma XorLowIsInjective(h1: word, h2: word, c1: byte, c2: byte)
    ensures XorLow(h1, c1) == XorLow(h2, c1) ==> h1 == h2
    ensures XorLow(h1, c1) == XorLow(h1, c2) ==> c1 == c2
  {
    XorByteIsInjective(h1 % 256, h2 % 256, c1, c2);
    XorLowParts(h1, c1);
    XorLowParts(h2, c1);
    XorLowParts(h1, c2);
  }

  lemma XorLowParts(h: word, c: byte)
    ensures XorLow(h, c) % 256 == XorByte(h % 256, c) && XorLow(h, c) - XorLow(h, c) % 256 == h - h % 256
  {
    LowByteOfSum(h / 256, XorByte(h % 256, c));
  }

  lemma LowByteOfSum(q: nat, low: byte)
    ensures (256 * q + low) % 256 == low
  {
  }

  // ---------------------------------------------------------------------------------------------
  // FNV-1a
  // ---------------------------------------------------------------------------------------------

  function Multiply(hash: word): word {
    hash * FNV_PRIME % WORD_LIMIT
  }

  lemma RemainderOfMultiple(x: word, q: int)
    ensures (x + q * WORD_LIMIT) % WORD_LIMIT == x
  {
  }

  /** Multiplying back by the inverse of the prime restores the word. */
  lemma MultiplyIsInvertible(x: word)
    ensures Multiply(x) * FNV_PRIME_INVERSE % WORD_LIMIT == x
  {
    var k := x * FNV_PRIME / WORD_LIMIT;
    var q := 887285111055 * x - k * FNV_PRIME_INVERSE;
    assert Multiply(x) == x * FNV_PRIME - k * WORD_LIMIT;
    assert Multiply(x) * FNV_PRIME_INVERSE == x + q * WORD_LIMIT;
    RemainderOfMultiple(x, q);
  }

  function Round(hash: word, c: byte): word {
    Multiply(XorLow(hash, c))
  }

  function Fold(hash: word, data: seq<byte>): word {
    if data == [] then hash else Round(Fold(hash, data[..|data| - 1]), data[|data| - 1])
  }

  method Fnv1a64(data: seq<byte>) returns (hash: word)
    ensures hash == Fold(OFFSET_BASIS, data)
  {
    hash := OFFSET_BASIS;
    for i := 0 to |data|
      invariant hash == Fold(OFFSET_BASIS, data[..i])
    {
      assert data[..i + 1][..i] == data[..i];
      hash := XorLow(hash, data[i]);
      hash := Multiply(hash);
    }
    assert data[..|data|] == data;
  }

  /** Every round is a bijection on states, and different bytes send one state to different states. */
  lemma RoundIsInjective(h1: word, h2: word, c1: byte, c2: byte)
    ensures Round(h1, c1) == Round(h2, c1) ==> h1 == h2
    ensures Round(h1, c1) == Round(h1, c2) ==> c1 == c2
  {
    MultiplyIsInvertible(XorLow(h1, c1));
    MultiplyIsInvertible(XorLow(h2, c1));
    MultiplyIsInvertible(XorLow(h1, c2));
    XorLowIsInjective(h1, h2, c1, c2);
  }

  lemma {:induction false} FoldIsInjective(h1: word, h2: word, data: seq<byte>)
    requires Fold(h1, data) == Fold(h2, data)
    ensures h1 == h2
  {
    if data != [] {
      var front, c := data[..|data| - 1], data[|data| - 1];
      RoundIsInjective(Fold(h1, front), Fold(h2, front), c, c);
      FoldIsInjective(h1, h2, front);
    }
  }

  lemma {:induction false} FoldConcat(hash: word, a: seq<byte>, b: seq<byte>)
    ensures Fold(hash, a + b) == Fold(Fold(hash, a), b)
  {
    if b == [] {
      assert a + b == a;
    } else {
      FoldConcat(hash, a, b[..|b| - 1]);
      assert (a + b)[..|a + b| - 1] == a + b[..|b| - 1];
    }
  }

  // ---------------------------------------------------------------------------------------------
  // Printing
  // ---------------------------------------------------------------------------------------------

  const HEX_DIGITS := "0123456789abcdef"

  /** "%0<width>llx": most significant digit first, padded with zeros. */
  function Hex(v: nat, width: nat): (s: string)
    ensures |s| == width
  {
    if width == 0 then "" else Hex(v / 16, width - 1) + [HEX_DIGITS[v % 16]]
  }

  predicate IsHexDigit(c: char) {
    '0' <= c <= '9' || 'a' <= c <= 'f'
  }

  function DigitValue(c: char): nat
    requires IsHexDigit(c)
  {
    if c <= '9' then c as int - '0' as int else c as int - 'a' as int + 10
  }

  predicate IsHex(s: string) {
    forall i :: 0 <= i < |s| ==> IsHexDigit(s[i])
  }

  /** A hexadecimal number, most significant digit first. */
  function HexValue(s: string): nat
    requires IsHex(s)
  {
    if s == "" then 0
    else
      assert IsHexDigit(s[|s| - 1]);
      16 * HexValue(s[..|s| - 1]) + DigitValue(s[|s| - 1])
  }

  lemma DigitReadsBack(d: nat)
    requires d < 16
    ensures IsHexDigit(HEX_DIGITS[d]) && DigitValue(HEX_DIGITS[d]) == d
  {
  }

  lemma LastDigit(front: string, c: char)
    requires IsHex(front) && IsHexDigit(c)
    ensures IsHex(front + [c]) && HexValue(front + [c]) == 16 * HexValue(front) + DigitValue(c)
  {
    assert (front + [c])[..|front|] == front;
  }

  lemma QuotientFits(v: nat, width: nat)
    requires width > 0 && v < Pow(16, width)
    ensures v / 16 < Pow(16, width - 1) && v == 16 * (v / 16) + v % 16
  {
  }

  /** What is printed is that number in lower-case digits. */
  lemma {:induction false} HexReadsBack(v: nat, width: nat)
    requires v < Pow(16, width)
    ensures IsHex(Hex(v, width)) && HexValue(Hex(v, width)) == v
  {
    if width > 0 {
      QuotientFits(v, width);
      HexReadsBack(v / 16, width - 1);
      DigitReadsBack(v % 16);
      LastDigit(Hex(v / 16, width - 1), HEX_DIGITS[v % 16]);
    }
  }

  function ToHexString(v: word): string {
    Hex(v, 16)
  }

  lemma WordLimitInHex()
    ensures Pow(16, 16) == WORD_LIMIT
  {
    assert Pow(16, 4) == 0x1_0000;
    assert Pow(16, 8) == 0x1_0000_0000;
    assert Pow(16, 12) == 0x1_0000_0000_0000;
  }

  lemma ToHexStringIsInjective(v: word, w: word)
    requires ToHexString(v) == ToHexString(w)
    ensures v == w
  {
    WordLimitInHex();
    HexReadsBack(v, 16);
    HexReadsBack(w, 16);
  }

  // ---------------------------------------------------------------------------------------------
  // The config hash
  // ---------------------------------------------------------------------------------------------

  // "yaml\n"
  const FORMAT_PREFIX: seq<byte> := [0x79, 0x61, 0x6d, 0x6c, 0x0a]

  function ConfigHashOf(content: seq<byte>): string {
    ToHexString(Fold(OFFSET_BASIS, FORMAT_PREFIX + content))
  }

  method HashConfig(content: seq<byte>) returns (s: string)
    ensures s == ConfigHashOf(content)
  {
    var hash := Fnv1a64(FORMAT_PREFIX + content);
    s := ToHexString(hash);
  }

  /** The hash is that of the format line "yaml" and the content, from the published basis, in sixteen digits. */
  lemma ConfigHashIs(content: seq<byte>)
    ensures var s := ConfigHashOf(content);
            && |s| == 16 && IsHex(s)
            && HexValue(s) == Fold(0xcbf29ce484222325, [0x79, 0x61, 0x6d, 0x6c, 0x0a] + content)
  {
    WordLimitInHex();
    HexReadsBack(Fold(OFFSET_BASIS, FORMAT_PREFIX + content), 16);
  }

  /** One round, on words: the lowest byte changes bit by bit, then the product is cut to 64 bits. */
  lemma RoundIs(hash: word, c: byte, i: nat)
    requires i < 8
    ensures Round(hash, c) == XorLow(hash, c) * 0x100000001b3 % 0x1_0000_0000_0000_0000
    ensures XorLow(hash, c) / 256 == hash / 256
    ensures Bit(XorLow(hash, c) % 256, i) == if Bit(hash % 256, i) == Bit(c, i) then 0 else 1
  {
    XorLowParts(hash, c);
    XorIsBitwise(hash % 256, c, 8, i);
  }

  /** Changing one byte of a configuration always changes its hash string. */
  lemma OneByteSensitivity(content: seq<byte>, i: nat, c: byte)
    requires i < |content| && c != content[i]
    ensures ConfigHashOf(content) != ConfigHashOf(content[i := c])
  {
    var after := content[i + 1..];
    var h := Fold(OFFSET_BASIS, FORMAT_PREFIX + content[..i]);
    HashAround(content, i, c);
    HashAround(content, i, content[i]);
    assert content[i := content[i]] == content;
    if ConfigHashOf(content) == ConfigHashOf(content[i := c]) {
      ToHexStringIsInjective(Fold(Round(h, content[i]), after), Fold(Round(h, c), after));
      FoldIsInjective(Round(h, content[i]), Round(h, c), after);
      RoundIsInjective(h, h, content[i], c);
    }
  }

  lemma HashAround(content: seq<byte>, i: nat, c: byte)
    requires i < |content|
    ensures Fold(OFFSET_BASIS, FORMAT_PREFIX + content[i := c])
            == Fold(Round(Fold(OFFSET_BASIS, FORMAT_PREFIX + content[..i]), c), content[i + 1..])
  {
    var before, after := FORMAT_PREFIX + content[..i], content[i + 1..];
    assert FORMAT_PREFIX + content[i := c] == (before + [c]) + after;
    FoldConcat(OFFSET_BASIS, before + [c], after);
    FoldConcat(OFFSET_BASIS, before, [c]);
    assert [c][..0] == [];
  }
}
