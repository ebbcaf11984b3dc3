/**
 The change token of a rendered object: the 64-bit FNV-1a digest of its bytes, as sixteen hexadecimal
 digits. A token that stays the same makes the cache keep the old object.
 */
module Revision {
  import opened Digits

  type Byte = n: nat | n < 256

  const WORD := 0x1_0000_0000_0000_0000
  const OFFSET := 0xcbf2_9ce4_8422_2325
  const PRIME := 0x0000_0100_0000_01b3

  /** The inverse of the prime modulo 2^64. */
  const INVERSE := 14886173955864302971

  // ---------------------------------------------------------------------------
  // The digest

  /** The exclusive or of the lowest `n` bits. */
  function Xor(a: nat, b: nat, n: nat): (r: nat) {
    if n == 0 then 0 else 2 * Xor(a / 2, b / 2, n - 1) + (a % 2 + b % 2) % 2
  }

  /** One byte: exclusive or into the low eight bits, then a wrapping multiplication. */
  function Mixed(hash: nat, byte: Byte): (r: nat)
    ensures r < WORD
  {
    (256 * (hash / 256) + Xor(hash % 256, byte, 8)) * PRIME % WORD
  }

  function Digest(bytes: seq<Byte>): (hash: nat)
    ensures hash < WORD
  {
    if bytes == [] then OFFSET else Mixed(Digest(bytes[..|bytes| - 1]), bytes[|bytes| - 1])
  }

  /** The lowest `n` hexadecimal digits, the highest of them first. */
  function Hex(value: nat, n: nat): (text: string)
    ensures |text| == n
  {
    if n == 0 then "" else Hex(value / 16, n - 1) + [HexDigit(value % 16)]
  }

  method RevisionOf(bytes: seq<Byte>) returns (revision: string)
    ensures revision == Hex(Digest(bytes), 16)
  {
    var hash := OFFSET;
    for i := 0 to |bytes|
      invariant hash == Digest(bytes[..i])
    {
      assert bytes[..i + 1][..i] == bytes[..i];
      hash := 256 * (hash / 256) + Xor(hash % 256, bytes[i], 8);
      hash := hash * PRIME % WORD;
    }
    assert bytes[..|bytes|] == bytes;
    revision := Hex(hash, 16);
  }

  // ---------------------------------------------------------------------------
  // A change of one byte changes the token

  function Power2(n: nat): (r: nat)
    ensures r > 0
  {
    if n == 0 then 1 else 2 * Power2(n - 1)
  }

  lemma {:induction false} XorBelow(a: nat, b: nat, n: nat)
    ensures Xor(a, b, n) < Power2(n)
  {
    if n > 0 {
      XorBelow(a / 2, b / 2, n - 1);
    }
  }

  lemma {:induction false} SameBits(x: nat, y: nat, a: nat, b: nat)
    requires a < 2 && b < 2 && 2 * x + a == 2 * y + b
    ensures x == y && a == b
  {
  }

  lemma {:induction false} SameParity(a: nat, b: nat, c: nat)
    requires (a % 2 + c % 2) % 2 == (b % 2 + c % 2) % 2
    ensures a % 2 == b % 2
  {
  }

  lemma {:induction false} XorCommutes(a: nat, b: nat, n: nat)
    ensures Xor(a, b, n) == Xor(b, a, n)
  {
    if n > 0 {
      XorCommutes(a / 2, b / 2, n - 1);
    }
  }

  /** Exclusive or with a fixed word loses nothing. */
  lemma {:induction false} XorCancels(a: nat, b: nat, c: nat, n: nat)
    requires a < Power2(n) && b < Power2(n) && Xor(a, c, n) == Xor(b, c, n)
    ensures a == b
  {
    if n > 0 {
      SameBits(Xor(a / 2, c / 2, n - 1), Xor(b / 2, c / 2, n - 1), (a % 2 + c % 2) % 2, (b % 2 + c % 2) % 2);
      SameParity(a, b, c);
      XorCancels(a / 2, b / 2, c / 2, n - 1);
    }
  }

  /** Multiplication by the prime can be undone. */
  lemma {:induction false} PrimeCancels(x: nat)
    requires x < WORD
    ensures x * PRIME % WORD * INVERSE % WORD == x
  {
    var q := x * PRIME / WORD;
    var r := x * PRIME % WORD;
    assert x * PRIME == q * WORD + r;
    var k := (PRIME * INVERSE - 1) / WORD;
    assert PRIME * INVERSE == k * WORD + 1;
    assert r * INVERSE == x + WORD * (x * k - q * INVERSE);
    Remainder(x, x * k - q * INVERSE);
  }

  lemma {:induction false} Remainder(x: nat, k: int)
    requires x < WORD
    ensures (x + WORD * k) % WORD == x
  {
  }

  lemma {:induction false} PrimeInjective(x: nat, y: nat)
    requires x < WORD && y < WORD && x * PRIME % WORD == y * PRIME % WORD
    ensures x == y
  {
    PrimeCancels(x);
    PrimeCancels(y);
  }

  lemma {:induction false} LowByte(hash: nat, byte: Byte)
    requires hash < WORD
    ensures Xor(hash % 256, byte, 8) < 256
    ensures 256 * (hash / 256) + Xor(hash % 256, byte, 8) < WORD
  {
    XorBelow(hash % 256, byte, 8);
    assert Power2(8) == 256;
  }

  lemma {:induction false} SameHalves(p: nat, q: nat, u: nat, v: nat)
    requires u < 256 && v < 256 && 256 * p + u == 256 * q + v
    ensures p == q && u == v
  {
  }

  lemma {:induction false} SameProduct(p: nat, q: nat, u: nat, v: nat)
    requires u < 256 && v < 256 && 256 * p + u < WORD && 256 * q + v < WORD
    requires (256 * p + u) * PRIME % WORD == (256 * q + v) * PRIME % WORD
    ensures p == q && u == v
  {
    PrimeInjective(256 * p + u, 256 * q + v);
    SameHalves(p, q, u, v);
  }

  lemma {:induction false} MixedParts(g: nat, h: nat, b: Byte, c: Byte)
    requires g < WORD && h < WORD && Mixed(g, b) == Mixed(h, c)
    ensures g / 256 == h / 256 && Xor(g % 256, b, 8) == Xor(h % 256, c, 8)
  {
    LowByte(g, b);
    LowByte(h, c);
    SameProduct(g / 256, h / 256, Xor(g % 256, b, 8), Xor(h % 256, c, 8));
  }

  lemma {:induction false} LowByteCancels(a: nat, b: nat, c: nat)
    requires a < 256 && b < 256
    requires Xor(a, c, 8) == Xor(b, c, 8) || Xor(c, a, 8) == Xor(c, b, 8)
    ensures a == b
  {
    assert Power2(8) == 256;
    XorCommutes(c, a, 8);
    XorCommutes(c, b, 8);
    XorCancels(a, b, c, 8);
  }

  /** The mixing step distinguishes both its state and its byte. */
  lemma {:induction false} MixedDiffers(g: nat, h: nat, b: Byte, c: Byte)
    requires g < WORD && h < WORD && (g == h || b == c)
    requires Mixed(g, b) == Mixed(h, c)
    ensures g == h && b == c
  {
    MixedParts(g, h, b, c);
    if b == c {
      LowByteCancels(g % 256, h % 256, b);
    } else {
      LowByteCancels(b, c, g % 256);
    }
  }

  lemma {:induction false} DigestDiffers(a: seq<Byte>, b: seq<Byte>, k: nat)
    requires |a| == |b| && k < |a| && a[k] != b[k]
    requires forall i :: 0 <= i < |a| && i != k ==> a[i] == b[i]
    ensures Digest(a) != Digest(b)
  {
    var p, q := a[..|a| - 1], b[..|b| - 1];
    if k == |a| - 1 {
      assert p == q;
      if Digest(a) == Digest(b) {
        MixedDiffers(Digest(p), Digest(q), a[k], b[k]);
      }
    } else {
      DigestDiffers(p, q, k);
      if Digest(a) == Digest(b) {
        MixedDiffers(Digest(p), Digest(q), a[|a| - 1], b[|b| - 1]);
      }
    }
  }

  function HexNumber(text: string): (n: int) {
    if text == "" then 0 else 16 * HexNumber(text[..|text| - 1]) + HexValue(text[|text| - 1])
  }

  function Power16(n: nat): (r: nat)
    ensures r > 0
  {
    if n == 0 then 1 else 16 * Power16(n - 1)
  }

  lemma {:induction false} HexReads(value: nat, n: nat)
    requires value < Power16(n)
    ensures HexNumber(Hex(value, n)) == value
  {
    if n > 0 {
      HexReads(value / 16, n - 1);
      var text := Hex(value, n);
      assert text[..|text| - 1] == Hex(value / 16, n - 1);
      HexDigitValue(value % 16);
    }
  }

  lemma {:induction false} SixteenDigits()
    ensures Power16(16) == WORD
  {
    assert Power16(4) == 0x1_0000;
    assert Power16(8) == 0x1_0000_0000;
    assert Power16(12) == 0x1_0000_0000_0000;
  }

  /** Two texts that differ in exactly one byte have different tokens. */
  lemma {:induction false} OneByteChangesRevision(a: seq<Byte>, b: seq<Byte>, k: nat)
    requires |a| == |b| && k < |a| && a[k] != b[k]
    requires forall i :: 0 <= i < |a| && i != k ==> a[i] == b[i]
    ensures Hex(Digest(a), 16) != Hex(Digest(b), 16)
  {
    DigestDiffers(a, b, k);
    SixteenDigits();
    HexReads(Digest(a), 16);
    HexReads(Digest(b), 16);
  }

  lemma {:induction false} MixedIs(hash: nat, byte: Byte, low: nat, next: nat, wraps: nat)
    requires Xor(hash % 256, byte, 8) == low && next < WORD
    requires (256 * (hash / 256) + low) * PRIME == wraps * WORD + next
    ensures Mixed(hash, byte) == next
  {
  }

  lemma {:induction false} XorDigits(a: nat, b: nat, n: nat, r: nat)
    requires n > 0 && r / 2 == Xor(a / 2, b / 2, n - 1) && r % 2 == (a % 2 + b % 2) % 2
    ensures Xor(a, b, n) == r
  {
  }

  /** The known digest of the letter a, and of the empty text. */
  lemma {:induction false} KnownDigests()
    ensures Digest([]) == 0xcbf29ce484222325
    ensures Digest([97]) == 0xaf63dc4c8601ec8c
  {
    var letter: Byte, offset := 97, OFFSET;
    assert [letter][..0] == [];
    XorDigits(0, 0, 1, 0);
    XorDigits(0, 1, 2, 1);
    XorDigits(1, 3, 3, 2);
    XorDigits(2, 6, 4, 4);
    XorDigits(4, 12, 5, 8);
    XorDigits(9, 24, 6, 17);
    XorDigits(18, 48, 7, 34);
    XorDigits(0x25, letter, 8, 0x44);
    assert offset % 256 == 0x25;
    MixedIs(offset, letter, 0x44, 0xaf63dc4c8601ec8c, 875948729822);
  }
}
