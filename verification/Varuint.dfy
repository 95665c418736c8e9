/** The two readers of variable-length unsigned integers. */
module Varuint {
  import opened Wrappers

  type Byte = b: int | 0 <= b < 256

  const MAX_SAFE: int := 0x1F_FFFF_FFFF_FFFF
  const MAX_BYTES: nat := 8

  /** The shortest unsigned LEB128 encoding. */
  function Encode(n: nat): (r: seq<Byte>)
    ensures |r| > 0
  {
    if n < 128 then [n] else [128 + n % 128] + Encode(n / 128)
  }

  datatype ReadError = UnsafeVaruint | NonCanonicalVaruint | TruncatedVaruint

  datatype Read = Read(value: nat, length: nat)

  function Pow128(n: nat): nat
  {
    if n == 0 then 1 else 128 * Pow128(n - 1)
  }

  lemma Powers()
    ensures Pow128(1) == 128 && Pow128(2) == 0x4000 && Pow128(3) == 0x20_0000 && Pow128(4) == 0x1000_0000
    ensures Pow128(5) == 0x8_0000_0000 && Pow128(6) == 0x400_0000_0000 && Pow128(7) == 0x2_0000_0000_0000
    ensures Pow128(8) == 0x100_0000_0000_0000
  {
    assert Pow128(2) == 128 * Pow128(1);
    assert Pow128(4) == 128 * Pow128(3) == 128 * 128 * Pow128(2);
    assert Pow128(6) == 128 * Pow128(5) == 128 * 128 * Pow128(4);
    assert Pow128(8) == 128 * Pow128(7) == 128 * 128 * Pow128(6);
  }

  /** The strict reader after `count` bytes that contributed `value`. */
  function StrictFrom(rest: seq<Byte>, value: nat, count: nat): Result<Read, ReadError>
    decreases |rest|
  {
    if rest == [] || count >= MAX_BYTES then Err(TruncatedVaruint)
    else
      var chunk := rest[0] % 128;
      var sum := value + chunk * Pow128(count);
      if sum > MAX_SAFE then Err(UnsafeVaruint)
      else if rest[0] < 128 then
        if count > 0 && chunk == 0 then Err(NonCanonicalVaruint) else Ok(Read(sum, count + 1))
      else if Pow128(count + 1) > MAX_SAFE then Err(UnsafeVaruint)
      else StrictFrom(rest[1..], sum, count + 1)
  }

  function Strict(rest: seq<Byte>): Result<Read, ReadError>
  {
    StrictFrom(rest, 0, 0)
  }

  /** The lenient reader, which also takes padded encodings. */
  function LenientFrom(rest: seq<Byte>, value: nat, count: nat): Option<Read>
    decreases |rest|
  {
    if rest == [] || 7 * count > 49 then None
    else
      var sum := value + rest[0] % 128 * Pow128(count);
      if sum > MAX_SAFE then None
      else if rest[0] < 128 then Some(Read(sum, count + 1))
      else LenientFrom(rest[1..], sum, count + 1)
  }

  function Lenient(rest: seq<Byte>): Option<Read>
  {
    LenientFrom(rest, 0, 0)
  }

  // ----- the strict reader and the encoding undo each other -----

  lemma MultiplyOut(value: nat, n: nat, p: nat)
    ensures value + n * p == value + n % 128 * p + n / 128 * (128 * p)
  {
    assert n == n % 128 + 128 * (n / 128);
    assert n * p == (n % 128 + 128 * (n / 128)) * p;
    assert (n % 128 + 128 * (n / 128)) * p == n % 128 * p + (128 * (n / 128)) * p;
    assert (128 * (n / 128)) * p == (n / 128) * (128 * p);
  }

  lemma AtLeast(a: nat, q: nat)
    requires a >= 1
    ensures a * q >= q
  {
    assert a * q == q + (a - 1) * q;
  }

  lemma PowerStep(count: nat)
    ensures Pow128(count + 1) == 128 * Pow128(count) && Pow128(count) >= 1
  {
    if count > 0 { PowerStep(count - 1); }
  }

  /** A power that fits has at most seven factors. */
  lemma {:induction false} FitsWithin(count: nat)
    ensures Pow128(count) <= MAX_SAFE <==> count <= 7
    decreases count
  {
    Powers();
    if count > 8 {
      FitsWithin(count - 1);
      PowerStep(count - 1);
    } else if count == 0 {
      assert Pow128(0) == 1;
    }
  }

  lemma ContinueStep(n: nat, value: nat, p: nat)
    requires n >= 128 && value + n * p <= MAX_SAFE
    ensures value + n % 128 * p <= MAX_SAFE && 128 * p <= MAX_SAFE
    ensures value + n % 128 * p + n / 128 * (128 * p) == value + n * p
  {
    MultiplyOut(value, n, p);
    AtLeast(n / 128, 128 * p);
    assert n % 128 * p >= 0;
  }

  lemma EncodedHead(n: nat, tail: seq<Byte>)
    ensures n < 128 ==> (Encode(n) + tail)[0] == n && |Encode(n)| == 1
    ensures n >= 128 ==> (Encode(n) + tail)[0] == 128 + n % 128 && (Encode(n) + tail)[0] % 128 == n % 128
    ensures n >= 128 ==> (Encode(n) + tail)[1..] == Encode(n / 128) + tail && |Encode(n)| == 1 + |Encode(n / 128)|
  {
  }

  lemma {:induction false} ReadsEncodingFrom(n: nat, tail: seq<Byte>, value: nat, count: nat)
    requires count < MAX_BYTES && value + n * Pow128(count) <= MAX_SAFE && (count > 0 ==> n > 0)
    ensures StrictFrom(Encode(n) + tail, value, count) == Ok(Read(value + n * Pow128(count), count + |Encode(n)|))
    decreases n
  {
    var p := Pow128(count);
    EncodedHead(n, tail);
    if n >= 128 {
      ContinueStep(n, value, p);
      PowerStep(count);
      FitsWithin(count + 1);
      hide Pow128, Encode;
      ReadsEncodingFrom(n / 128, tail, value + n % 128 * p, count + 1);
    }
  }

  /** Every safe integer is read back from its encoding, whatever follows it. */
  lemma StrictReadsEncoding(n: nat, tail: seq<Byte>)
    requires n <= MAX_SAFE
    ensures Strict(Encode(n) + tail) == Ok(Read(n, |Encode(n)|))
  {
    assert Pow128(0) == 1;
    ReadsEncodingFrom(n, tail, 0, 0);
  }

  lemma EncodeStep(b: Byte, m: nat)
    requires b >= 128 && m > 0
    ensures Encode(b % 128 + 128 * m) == [b] + Encode(m)
  {
    var n := b % 128 + 128 * m;
    assert n / 128 == m && n % 128 == b % 128;
  }

  lemma {:induction false} OnlyEncodingsFrom(rest: seq<Byte>, value: nat, count: nat) returns (n: nat)
    requires StrictFrom(rest, value, count).Ok?
    ensures var r := StrictFrom(rest, value, count).value;
            && count < r.length <= MAX_BYTES && r.length - count <= |rest| && r.value <= MAX_SAFE
            && rest[..r.length - count] == Encode(n) && r.value == value + n * Pow128(count) && (count > 0 ==> n > 0)
    decreases |rest|
  {
    var r, p := StrictFrom(rest, value, count).value, Pow128(count);
    PowerStep(count);
    if rest[0] < 128 {
      n := rest[0];
      assert rest[..1] == Encode(n);
    } else {
      var m := OnlyEncodingsFrom(rest[1..], value + rest[0] % 128 * p, count + 1);
      n := rest[0] % 128 + 128 * m;
      EncodeStep(rest[0], m);
      MultiplyOut(value, n, p);
      hide StrictFrom, Encode, Pow128;
      assert n / 128 == m && n % 128 == rest[0] % 128;
      assert rest[..r.length - count] == [rest[0]] + rest[1..][..r.length - count - 1];
    }
  }

  /** Whatever the strict reader accepts is the encoding of what it returns, at most
      eight bytes long. */
  lemma StrictAcceptsOnlyEncodings(rest: seq<Byte>)
    requires Strict(rest).Ok?
    ensures var r := Strict(rest).value;
            r.length <= |rest| && 0 < r.length <= MAX_BYTES && r.value <= MAX_SAFE && rest[..r.length] == Encode(r.value)
  {
    var n := OnlyEncodingsFrom(rest, 0, 0);
    assert Pow128(0) == 1;
  }

  /** The strict reader accepts exactly the encodings of the safe integers. */
  lemma StrictIffEncoding(rest: seq<Byte>, n: nat, length: nat)
    ensures Strict(rest) == Ok(Read(n, length)) <==>
            n <= MAX_SAFE && length <= |rest| && rest[..length] == Encode(n)
  {
    if Strict(rest) == Ok(Read(n, length)) {
      StrictAcceptsOnlyEncodings(rest);
    }
    if n <= MAX_SAFE && length <= |rest| && rest[..length] == Encode(n) {
      StrictReadsEncoding(n, rest[length..]);
      assert Encode(n) + rest[length..] == rest;
    }
  }

  // ----- the encoding is the shortest -----

  /** The number that a run of seven-bit groups stands for. */
  function Groups(bs: seq<Byte>): nat
  {
    if bs == [] then 0 else bs[0] % 128 + 128 * Groups(bs[1..])
  }

  predicate Terminated(bs: seq<Byte>)
  {
    bs != [] && bs[|bs| - 1] < 128 && forall i :: 0 <= i < |bs| - 1 ==> bs[i] >= 128
  }

  lemma {:induction false} EncodeStandsFor(n: nat)
    ensures Terminated(Encode(n)) && Groups(Encode(n)) == n
  {
    if n < 128 {
      assert Encode(n)[1..] == [];
    } else {
      EncodeStandsFor(n / 128);
      assert Encode(n)[1..] == Encode(n / 128);
    }
  }

  /** No LEB128 encoding of a number is shorter, and only padding makes one longer. */
  lemma {:induction false} EncodeIsShortest(bs: seq<Byte>)
    requires Terminated(bs)
    ensures |Encode(Groups(bs))| <= |bs|
    ensures |Encode(Groups(bs))| == |bs| ==> bs == Encode(Groups(bs))
    decreases |bs|
  {
    var n := Groups(bs);
    if |bs| == 1 {
      assert bs[1..] == [];
      assert bs == [n];
    } else {
      EncodeIsShortest(bs[1..]);
      assert n / 128 == Groups(bs[1..]) && n % 128 == bs[0] % 128;
      if n >= 128 && |Encode(n)| == |bs| {
        assert bs == [bs[0]] + bs[1..];
      }
    }
  }

  // ----- both readers -----

  lemma {:induction false} LenientAgreesFrom(rest: seq<Byte>, value: nat, count: nat)
    requires StrictFrom(rest, value, count).Ok?
    ensures LenientFrom(rest, value, count) == Some(StrictFrom(rest, value, count).value)
    decreases |rest|
  {
    if rest[0] >= 128 {
      LenientAgreesFrom(rest[1..], value + rest[0] % 128 * Pow128(count), count + 1);
    }
  }

  /** The lenient reader returns the same number and the same length on everything
      that the strict reader accepts. */
  lemma LenientAgrees(rest: seq<Byte>)
    requires Strict(rest).Ok?
    ensures Lenient(rest) == Some(Strict(rest).value)
  {
    LenientAgreesFrom(rest, 0, 0);
  }

  /** What the lenient reader accepts stands for the number that it returns. */
  lemma {:induction false} LenientStandsForFrom(rest: seq<Byte>, value: nat, count: nat)
    requires LenientFrom(rest, value, count).Some?
    ensures var r := LenientFrom(rest, value, count).value;
            && count < r.length <= MAX_BYTES && r.length - count <= |rest|
            && Terminated(rest[..r.length - count])
            && r.value == value + Groups(rest[..r.length - count]) * Pow128(count) <= MAX_SAFE
    decreases |rest|
  {
    var r, p := LenientFrom(rest, value, count).value, Pow128(count);
    PowerStep(count);
    if rest[0] < 128 {
      assert rest[..1] == [rest[0]] && rest[..1][1..] == [];
    } else {
      LenientStandsForFrom(rest[1..], value + rest[0] % 128 * p, count + 1);
      hide LenientFrom, Pow128;
      var bs := rest[..r.length - count];
      assert bs[1..] == rest[1..][..r.length - count - 1];
      assert Groups(bs) % 128 == rest[0] % 128 && Groups(bs) / 128 == Groups(bs[1..]);
      MultiplyOut(value, Groups(bs), p);
      assert bs == [rest[0]] + bs[1..];
    }
  }

  /** So the two readers differ exactly on padded encodings. */
  lemma DifferOnPaddingOnly(rest: seq<Byte>)
    requires Lenient(rest).Some?
    ensures Lenient(rest).value.length <= |rest|
    ensures Strict(rest).Ok? <==> rest[..Lenient(rest).value.length] == Encode(Lenient(rest).value.value)
  {
    LenientStandsForFrom(rest, 0, 0);
    var r := Lenient(rest).value;
    assert Pow128(0) == 1;
    if Strict(rest).Ok? {
      LenientAgrees(rest);
      StrictAcceptsOnlyEncodings(rest);
    }
    if rest[..r.length] == Encode(r.value) {
      StrictIffEncoding(rest, r.value, r.length);
    }
  }

  // ----- the arithmetic is exact -----

  /** Numbers as doubles: exact up to 2^53, and rounding keeps the order. */
  ghost predicate RoundsLikeDouble(round: int -> int)
  {
    (forall x: int :: -MAX_SAFE - 1 <= x <= MAX_SAFE + 1 ==> round(x) == x)
    && forall x: int, y: int {:trigger round(x), round(y)} :: x <= y ==> round(x) <= round(y)
  }

  /** The safe-integer check on a rounded sum is the check on the exact sum, so no
      rounded value is ever used. */
  lemma CheckedSumIsExact(round: int -> int, sum: nat)
    requires RoundsLikeDouble(round)
    ensures round(sum) <= MAX_SAFE <==> sum <= MAX_SAFE
    ensures sum <= MAX_SAFE ==> round(sum) == sum
  {
    if sum > MAX_SAFE {
      assert round(MAX_SAFE + 1) <= round(sum);
    }
  }
}
