/** The 64-bit FNV-1a fold that `semanticHash` runs over a scene's bytes. */
module SemanticHash {

  const MODULUS: int := 0x1_0000_0000_0000_0000
  const OFFSET_BASIS: int := 0xcbf2_9ce4_8422_2325
  const PRIME: int := 0x100_0000_01b3

  type Word = w: int | 0 <= w < MODULUS
  type Byte = b: int | 0 <= b < 256

  /** Exclusive or of two numbers of `n` bits. */
  function XorBits(a: nat, b: nat, n: nat): (r: nat)
    requires a < Pow2(n) && b < Pow2(n)
    ensures r < Pow2(n)
  {
    if n == 0 then 0 else 2 * XorBits(a / 2, b / 2, n - 1) + (a % 2 + b % 2) % 2
  }

  function Pow2(n: nat): nat
  {
    if n == 0 then 1 else 2 * Pow2(n - 1)
  }

  function XorByte(a: Byte, b: Byte): Byte
  {
    assert Pow2(8) == 256;
    XorBits(a, b, 8)
  }

  /** `hash ^ byte`: only the low eight bits change. */
  function Mix(hash: Word, byte: Byte): Word
  {
    hash / 256 * 256 + XorByte(hash % 256, byte)
  }

  function Multiply(hash: Word): Word
  {
    hash * PRIME % MODULUS
  }

  /** One turn of the loop. */
  function Absorb(hash: Word, byte: Byte): Word
  {
    Multiply(Mix(hash, byte))
  }

  function Fold(hash: Word, bytes: seq<Byte>): Word
    decreases |bytes|
  {
    if bytes == [] then hash else Fold(Absorb(hash, bytes[0]), bytes[1..])
  }

  function Fnv1a(bytes: seq<Byte>): Word
  {
    Fold(OFFSET_BASIS, bytes)
  }

  /** The loop of `semanticHash`. */
  method ComputeHash(bytes: seq<Byte>) returns (hash: Word)
    ensures hash == Fnv1a(bytes)
  {
    hash := OFFSET_BASIS;
    var i := 0;
    while i < |bytes|
      invariant 0 <= i <= |bytes|
      invariant Fold(hash, bytes[i..]) == Fnv1a(bytes)
    {
      assert bytes[i..][1..] == bytes[i + 1..];
      hash := Absorb(hash, bytes[i]);
      i := i + 1;
    }
  }

  lemma BitInjective(x: nat, a: nat, b: nat)
    ensures (x % 2 + a % 2) % 2 == (x % 2 + b % 2) % 2 <==> a % 2 == b % 2
  {
  }

  lemma {:induction false} XorInjective(x: nat, a: nat, b: nat, n: nat)
    requires x < Pow2(n) && a < Pow2(n) && b < Pow2(n)
    ensures XorBits(x, a, n) == XorBits(x, b, n) <==> a == b
    ensures XorBits(x, a, n) == XorBits(a, x, n)
    decreases n
  {
    if n > 0 {
      XorInjective(x / 2, a / 2, b / 2, n - 1);
      BitInjective(x, a, b);
      assert a == 2 * (a / 2) + a % 2 && b == 2 * (b / 2) + b % 2;
    }
  }

  lemma MultiplyBack(x: int, q: int)
    ensures (x * 0x100_0000_01b3 - 0x1_0000_0000_0000_0000 * q) * 0xce96_5057_aff6_957b
            == x + 0x1_0000_0000_0000_0000 * (0xce9650590f * x - 0xce96_5057_aff6_957b * q)
  {
  }

  lemma ModuloOfMultiple(x: Word, z: int)
    ensures (x + MODULUS * z) % MODULUS == x
  {
  }

  /** The prime is odd, so multiplying by it can be undone modulo 2^64. */
  lemma UndoMultiply(x: Word)
    ensures Multiply(x) * 0xce96_5057_aff6_957b % MODULUS == x
  {
    var q := x * PRIME / MODULUS;
    assert Multiply(x) == x * PRIME - MODULUS * q;
    MultiplyBack(x, q);
    ModuloOfMultiple(x, 0xce9650590f * x - 0xce96_5057_aff6_957b * q);
  }

  lemma MixInjective(g: Word, h: Word, a: Byte, b: Byte)
    ensures Mix(g, a) == Mix(h, a) <==> g == h
    ensures Mix(g, a) == Mix(g, b) <==> a == b
  {
    assert Pow2(8) == 256;
    XorInjective(a, g % 256, h % 256, 8);
    XorInjective(a, h % 256, g % 256, 8);
    XorInjective(g % 256, a, b, 8);
    assert Mix(g, a) / 256 == g / 256 && Mix(h, a) / 256 == h / 256;
  }

  /** A turn of the loop forgets neither the state nor the byte. */
  lemma AbsorbInjective(g: Word, h: Word, a: Byte, b: Byte)
    ensures Absorb(g, a) == Absorb(h, a) <==> g == h
    ensures Absorb(g, a) == Absorb(g, b) <==> a == b
  {
    MixInjective(g, h, a, b);
    UndoMultiply(Mix(g, a));
    UndoMultiply(Mix(h, a));
    UndoMultiply(Mix(g, b));
  }

  lemma {:induction false} FoldInjective(g: Word, h: Word, bytes: seq<Byte>)
    ensures Fold(g, bytes) == Fold(h, bytes) <==> g == h
    decreases |bytes|
  {
    if bytes != [] {
      AbsorbInjective(g, h, bytes[0], bytes[0]);
      FoldInjective(Absorb(g, bytes[0]), Absorb(h, bytes[0]), bytes[1..]);
    }
  }

  lemma {:induction false} FoldConcat(h: Word, a: seq<Byte>, b: seq<Byte>)
    ensures Fold(h, a + b) == Fold(Fold(h, a), b)
    decreases |a|
  {
    if a == [] {
      assert a + b == b;
    } else {
      assert (a + b)[1..] == a[1..] + b;
      FoldConcat(Absorb(h, a[0]), a[1..], b);
    }
  }

  /** Changing one byte always changes the hash, wherever it stands. */
  lemma OneByteChangesHash(before: seq<Byte>, a: Byte, b: Byte, after: seq<Byte>)
    ensures Fnv1a(before + [a] + after) == Fnv1a(before + [b] + after) <==> a == b
  {
    var s := Fold(OFFSET_BASIS, before);
    FoldConcat(OFFSET_BASIS, before + [a], after);
    FoldConcat(OFFSET_BASIS, before + [b], after);
    FoldConcat(OFFSET_BASIS, before, [a]);
    FoldConcat(OFFSET_BASIS, before, [b]);
    assert Fold(s, [a]) == Absorb(s, a) && Fold(s, [b]) == Absorb(s, b);
    AbsorbInjective(s, s, a, b);
    FoldInjective(Absorb(s, a), Absorb(s, b), after);
  }
}
