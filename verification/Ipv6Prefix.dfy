/** Client prefixes: parsing and printing IPv6 addresses, and the /56 they share. */
module Ipv6Prefix {
  import opened Wrappers
  import opened Text
  import ElementStore

  type Word = w: int | 0 <= w < 0x1_0000

  const COLON: Unit := 58
  const ZERO: Unit := 48

  // ----- words in hexadecimal -----

  function HexDigit(d: int): (u: Unit)
    requires 0 <= d < 16
    ensures u != COLON
  {
    if d < 10 then 48 + d else 87 + d
  }

  /** `toString(16)`. */
  function Hex(n: nat): (s: Str)
    ensures |s| > 0 && COLON !in s
  {
    if n < 16 then [HexDigit(n)] else Hex(n / 16) + [HexDigit(n % 16)]
  }

  predicate IsHexDigit(u: Unit)
  {
    48 <= u <= 57 || 65 <= u <= 70 || 97 <= u <= 102
  }

  function DigitValue(u: Unit): int
  {
    if 48 <= u <= 57 then u - 48 else if 97 <= u <= 102 then u - 87 else if 65 <= u <= 70 then u - 55 else 0
  }

  /** `Number.parseInt(s, 16)` of hexadecimal digits. */
  function ParseHex(s: Str): int
  {
    if s == [] then 0 else 16 * ParseHex(s[..|s| - 1]) + DigitValue(s[|s| - 1])
  }

  predicate IsGroup(s: Str)
  {
    1 <= |s| <= 4 && forall i :: 0 <= i < |s| ==> IsHexDigit(s[i])
  }

  lemma {:induction false} HexDigits(n: nat)
    ensures ParseHex(Hex(n)) == n
    ensures forall i :: 0 <= i < |Hex(n)| ==> IsHexDigit(Hex(n)[i])
    ensures n < 16 ==> |Hex(n)| == 1
    ensures Hex(n) == [ZERO] <==> n == 0
  {
    if n < 16 {
      assert Hex(n)[..0] == [];
    } else {
      HexDigits(n / 16);
      assert Hex(n)[..|Hex(n)| - 1] == Hex(n / 16);
    }
  }

  lemma HexIsGroup(w: Word)
    ensures IsGroup(Hex(w)) && ParseHex(Hex(w)) == w
  {
    HexDigits(w);
    HexDigits(w / 16);
    HexDigits(w / 16 / 16);
    HexDigits(w / 16 / 16 / 16);
  }

  // ----- joining and splitting -----

  function Join(parts: seq<Str>): Str
  {
    if |parts| == 0 then [] else if |parts| == 1 then parts[0] else parts[0] + [COLON] + Join(parts[1..])
  }

  /** `split(":")`. */
  function Split(s: Str): (r: seq<Str>)
    ensures |r| > 0
  {
    if s == [] then [[]]
    else
      var rest := Split(s[1..]);
      if s[0] == COLON then [[]] + rest else [[s[0]] + rest[0]] + rest[1..]
  }

  /** Nonempty groups without colons. */
  predicate Plain(parts: seq<Str>)
  {
    forall i :: 0 <= i < |parts| ==> parts[i] != [] && COLON !in parts[i]
  }

  lemma {:induction false} SplitPart(part: Str, rest: Str)
    requires COLON !in part
    ensures Split(part + [COLON] + rest) == [part] + Split(rest)
    decreases |part|
  {
    var s := part + [COLON] + rest;
    if part == [] {
      assert s[1..] == rest;
    } else {
      assert s[1..] == part[1..] + [COLON] + rest;
      SplitPart(part[1..], rest);
      assert [part[0]] + part[1..] == part;
    }
  }

  lemma {:induction false} SplitOnePart(part: Str)
    requires COLON !in part
    ensures Split(part) == [part]
    decreases |part|
  {
    if part != [] {
      SplitOnePart(part[1..]);
      assert [part[0]] + part[1..] == part;
    }
  }

  lemma {:induction false} SplitJoin(parts: seq<Str>)
    requires Plain(parts) && parts != []
    ensures Split(Join(parts)) == parts
  {
    if |parts| == 1 {
      SplitOnePart(parts[0]);
    } else {
      SplitJoin(parts[1..]);
      SplitPart(parts[0], Join(parts[1..]));
    }
  }

  predicate DoubleAt(s: Str, i: nat)
  {
    i + 1 < |s| && s[i] == COLON && s[i + 1] == COLON
  }

  /** The first `::` at or after `i`, or the length if there is none. */
  function FirstDouble(s: Str, i: nat): (r: nat)
    requires i <= |s|
    ensures i <= r <= |s|
    ensures r < |s| ==> DoubleAt(s, r)
    ensures forall j :: i <= j < r ==> !DoubleAt(s, j)
    decreases |s| - i
  {
    if i >= |s| then |s| else if DoubleAt(s, i) then i else FirstDouble(s, i + 1)
  }

  /** `address.match(/::/g)` finds more than one. */
  predicate TwoDoubles(s: Str)
  {
    var first := FirstDouble(s, 0);
    first < |s| && FirstDouble(s, first + 2) < |s|
  }

  // ----- parseIPv6Words -----

  function Groups(half: Str): seq<Str>
  {
    if half == [] then [] else Split(half)
  }

  function Zeros(n: nat): seq<Str>
  {
    seq(n, _ => [ZERO])
  }

  function WordsOf(parts: seq<Str>): Option<seq<int>>
  {
    if |parts| == 8 && forall i :: 0 <= i < 8 ==> IsGroup(parts[i]) then
      Some(seq(8, i requires 0 <= i < 8 => ParseHex(parts[i])))
    else None
  }

  function ParseWords(address: Str): Option<seq<int>>
  {
    if address == [] || TwoDoubles(address) then None
    else
      var at := FirstDouble(address, 0);
      if at == |address| then WordsOf(Groups(address))
      else
        var left, right := Groups(address[..at]), Groups(address[at + 2..]);
        var missing := 8 - |left| - |right|;
        if missing < 1 then None else WordsOf(left + Zeros(missing) + right)
  }

  // ----- compressIPv6 -----

  datatype Run = Run(start: nat, length: nat)

  predicate IsZeroRun(words: seq<Word>, s: nat, l: nat)
  {
    s + l <= |words| && forall i :: s <= i < s + l ==> words[i] == 0
  }

  function RunEnd(words: seq<Word>, i: nat): (e: nat)
    requires i <= |words|
    ensures i <= e <= |words| && IsZeroRun(words, i, e - i)
    ensures e < |words| ==> words[e] != 0
    ensures i < |words| && words[i] == 0 ==> e > i
    decreases |words| - i
  {
    if i < |words| && words[i] == 0 then RunEnd(words, i + 1) else i
  }

  function BestFrom(words: seq<Word>, start: nat, best: Run): Run
    requires start <= |words|
    decreases |words| - start
  {
    if start == |words| then best
    else if words[start] != 0 then BestFrom(words, start + 1, best)
    else
      var end := RunEnd(words, start);
      BestFrom(words, end,
               if end - start > best.length then Run(start, end - start) else best)
  }

  /** The run of zero words that is written as `::`, if it has two or more. */
  function BestRun(words: seq<Word>): Run
  {
    BestFrom(words, 0, Run(0, 0))
  }

  function Parts(words: seq<Word>): (r: seq<Str>)
    ensures |r| == |words| && forall i :: 0 <= i < |r| ==> r[i] == Hex(words[i])
  {
    seq(|words|, i requires 0 <= i < |words| => Hex(words[i]))
  }

  function Compress(words: seq<Word>): Str
  {
    var best := BestRun(words);
    if best.length < 2 || best.start + best.length > |words| then Join(Parts(words))
    else Join(Parts(words)[..best.start]) + [COLON, COLON] + Join(Parts(words)[best.start + best.length..])
  }

  /** Among all zero runs that begin before `start`, `best` is the longest, and of the
      longest ones the leftmost. */
  ghost predicate LeftmostLongest(words: seq<Word>, best: Run, start: nat)
  {
    && IsZeroRun(words, best.start, best.length) && (best.length > 0 ==> best.start < start)
    && forall s: nat, l: nat :: l > 0 && s < start && IsZeroRun(words, s, l) ==>
         l <= best.length && (l == best.length ==> best.start <= s)
  }

  lemma RunStops(words: seq<Word>, s: nat, l: nat, end: nat)
    requires IsZeroRun(words, s, l) && s <= end < |words| && words[end] != 0
    ensures s + l <= end
  {
  }

  lemma NextRun(words: seq<Word>, start: nat, best: Run, end: nat)
    requires start < |words| && words[start] == 0 && end == RunEnd(words, start)
    requires LeftmostLongest(words, best, start)
    ensures LeftmostLongest(words, if end - start > best.length then Run(start, end - start) else best, end)
  {
    forall s: nat, l: nat | l > 0 && start <= s < end && IsZeroRun(words, s, l) ensures s + l <= end {
      if end < |words| { RunStops(words, s, l, end); }
    }
  }

  lemma {:induction false} BestFromIsBest(words: seq<Word>, start: nat, best: Run)
    requires start <= |words| && LeftmostLongest(words, best, start)
    ensures LeftmostLongest(words, BestFrom(words, start, best), |words|)
    decreases |words| - start
  {
    if start < |words| {
      if words[start] != 0 {
        assert LeftmostLongest(words, best, start + 1);
        BestFromIsBest(words, start + 1, best);
      } else {
        var end := RunEnd(words, start);
        NextRun(words, start, best, end);
        hide LeftmostLongest;
        BestFromIsBest(words, end, if end - start > best.length then Run(start, end - start) else best);
      }
    }
  }

  /** The chosen run is the leftmost of the longest runs of zero words. */
  lemma BestRunIsLeftmostLongest(words: seq<Word>)
    ensures LeftmostLongest(words, BestRun(words), |words|)
  {
    BestFromIsBest(words, 0, Run(0, 0));
  }

  // ----- the round trip -----

  lemma PartsPlain(words: seq<Word>)
    ensures Plain(Parts(words))
  {
  }

  lemma {:induction false} JoinPlain(parts: seq<Str>)
    requires Plain(parts) && parts != []
    ensures Join(parts) != [] && Join(parts)[0] != COLON && Join(parts)[|Join(parts)| - 1] != COLON
    ensures forall i :: 0 <= i < |Join(parts)| ==> !DoubleAt(Join(parts), i)
  {
    if |parts| > 1 {
      var a, b := parts[0], Join(parts[1..]);
      JoinPlain(parts[1..]);
      var s := a + [COLON] + b;
      forall i | 0 <= i < |s| ensures !DoubleAt(s, i) {
        if i > |a| {
          assert !DoubleAt(b, i - |a| - 1);
        }
      }
    }
  }

  /** A half of an address splits back into its groups. */
  lemma GroupsOfJoin(parts: seq<Str>)
    requires Plain(parts)
    ensures Groups(Join(parts)) == parts
  {
    if parts != [] {
      SplitJoin(parts);
      JoinPlain(parts);
    }
  }

  /** Two halves without `::` of their own meet at the only `::`. */
  lemma OneDouble(a: Str, b: Str)
    requires forall i :: 0 <= i < |a| ==> !DoubleAt(a, i)
    requires forall i :: 0 <= i < |b| ==> !DoubleAt(b, i)
    requires a != [] ==> a[|a| - 1] != COLON
    requires b != [] ==> b[0] != COLON
    ensures var s := a + [COLON, COLON] + b;
            FirstDouble(s, 0) == |a| && !TwoDoubles(s) && s[..|a|] == a && s[|a| + 2..] == b
  {
    var s := a + [COLON, COLON] + b;
    forall j | 0 <= j < |a| ensures !DoubleAt(s, j) {
      if j + 1 < |a| { assert !DoubleAt(a, j); }
    }
    assert DoubleAt(s, |a|);
    forall j | |a| + 2 <= j < |s| ensures !DoubleAt(s, j) {
      assert !DoubleAt(b, j - |a| - 2);
    }
  }

  lemma WordsOfParts(words: seq<Word>)
    requires |words| == 8
    ensures WordsOf(Parts(words)) == Some(words)
  {
    forall i | 0 <= i < 8 ensures IsGroup(Parts(words)[i]) && ParseHex(Parts(words)[i]) == words[i] {
      HexIsGroup(words[i]);
    }
    hide ParseHex, IsGroup;
    assert WordsOf(Parts(words)).value == words;
  }

  lemma RunOfZeros(words: seq<Word>, s: nat, l: nat)
    requires IsZeroRun(words, s, l)
    ensures Parts(words)[..s] + Zeros(l) + Parts(words)[s + l..] == Parts(words)
  {
    HexDigits(0);
  }

  lemma PlainAddress(words: seq<Word>)
    requires |words| == 8
    ensures ParseWords(Join(Parts(words))) == Some(words)
  {
    hide Join, Split, WordsOf;
    WordsOfParts(words);
    PartsPlain(words);
    JoinPlain(Parts(words));
    GroupsOfJoin(Parts(words));
  }

  lemma ShortenedAddress(words: seq<Word>, start: nat, length: nat)
    requires |words| == 8 && IsZeroRun(words, start, length) && length >= 1
    ensures ParseWords(Join(Parts(words)[..start]) + [COLON, COLON] + Join(Parts(words)[start + length..])) == Some(words)
  {
    hide Join, Split, WordsOf, Groups, FirstDouble, TwoDoubles;
    WordsOfParts(words);
    PartsPlain(words);
    var left, right := Parts(words)[..start], Parts(words)[start + length..];
    Halves(left);
    Halves(right);
    OneDouble(Join(left), Join(right));
    RunOfZeros(words, start, length);
  }

  /** Every list of eight words is parsed back from its compressed form. */
  lemma ParseUndoesCompress(words: seq<Word>)
    requires |words| == 8
    ensures ParseWords(Compress(words)) == Some(words)
  {
    hide ParseWords, Join, Parts, BestRun;
    BestRunIsLeftmostLongest(words);
    PlainAddress(words);
    var best := BestRun(words);
    if best.length >= 2 {
      ShortenedAddress(words, best.start, best.length);
    }
  }

  lemma Halves(parts: seq<Str>)
    requires Plain(parts)
    ensures Groups(Join(parts)) == parts
    ensures forall i :: 0 <= i < |Join(parts)| ==> !DoubleAt(Join(parts), i)
    ensures Join(parts) != [] ==> Join(parts)[0] != COLON && Join(parts)[|Join(parts)| - 1] != COLON
  {
    GroupsOfJoin(parts);
    if parts != [] { JoinPlain(parts); }
  }

  // ----- the client prefix -----

  const SLASH: Unit := 47

  /** The words with everything behind the first 56 bits cleared. */
  function Masked(words: seq<int>): seq<Word>
    requires |words| == 8 && forall i :: 0 <= i < 8 ==> 0 <= words[i] < 0x1_0000
  {
    [words[0], words[1], words[2], words[3] / 256 * 256, 0, 0, 0, 0]
  }

  function Suffix(bits: nat): Str
  {
    [SLASH] + ElementStore.Decimal(bits)
  }

  lemma {:induction false} ParseHexBound(s: Str)
    requires |s| <= 4 && forall i :: 0 <= i < |s| ==> IsHexDigit(s[i])
    ensures 0 <= ParseHex(s) < [1, 16, 256, 4096, 65536][|s|]
  {
    if s != [] { ParseHexBound(s[..|s| - 1]); }
  }

  lemma WordsInRange(parts: seq<Str>)
    requires WordsOf(parts).Some?
    ensures |WordsOf(parts).value| == 8
    ensures forall i :: 0 <= i < 8 ==> 0 <= WordsOf(parts).value[i] < 0x1_0000
  {
    hide ParseHex;
    forall i | 0 <= i < 8 ensures 0 <= ParseHex(parts[i]) < 0x1_0000 {
      ParseHexBound(parts[i]);
    }
  }

  /** What parses is eight 16-bit words. */
  lemma ParsedWords(address: Str)
    requires ParseWords(address).Some?
    ensures |ParseWords(address).value| == 8
    ensures forall i :: 0 <= i < 8 ==> 0 <= ParseWords(address).value[i] < 0x1_0000
  {
    hide WordsOf, Groups, FirstDouble, TwoDoubles;
    var at := FirstDouble(address, 0);
    if at == |address| {
      WordsInRange(Groups(address));
    } else {
      var left, right := Groups(address[..at]), Groups(address[at + 2..]);
      WordsInRange(left + Zeros(8 - |left| - |right|) + right);
    }
  }

  /** The prefix of an address that is not written with four dot-separated parts. */
  function Ipv6ClientPrefix(address: Str): Option<Str>
  {
    if ParseWords(address).None? then None
    else
      ParsedWords(address);
      Some(Compress(Masked(ParseWords(address).value)) + Suffix(56))
  }

  predicate SameTop56(v: seq<int>, w: seq<int>)
    requires |v| == |w| == 8
  {
    v[0] == w[0] && v[1] == w[1] && v[2] == w[2] && v[3] / 256 == w[3] / 256
  }

  lemma CompressInjective(v: seq<Word>, w: seq<Word>)
    requires |v| == |w| == 8 && Compress(v) == Compress(w)
    ensures v == w
  {
    ParseUndoesCompress(v);
    ParseUndoesCompress(w);
  }

  /** Two IPv6 addresses, however they are written, share a client prefix exactly when
      their top 56 bits agree. */
  lemma SamePrefixIff(a: Str, b: Str)
    requires ParseWords(a).Some? && ParseWords(b).Some?
    ensures |ParseWords(a).value| == |ParseWords(b).value| == 8
    ensures Ipv6ClientPrefix(a) == Ipv6ClientPrefix(b) <==> SameTop56(ParseWords(a).value, ParseWords(b).value)
  {
    ParsedWords(a);
    ParsedWords(b);
    var v, w := ParseWords(a).value, ParseWords(b).value;
    var x, y := Compress(Masked(v)), Compress(Masked(w));
    hide Compress, ParseWords, Suffix;
    assert SameTop56(v, w) <==> Masked(v) == Masked(w) by {
      if Masked(v) == Masked(w) {
        assert Masked(v)[0] == Masked(w)[0] && Masked(v)[1] == Masked(w)[1]
            && Masked(v)[2] == Masked(w)[2] && Masked(v)[3] == Masked(w)[3];
      }
    }
    if x + Suffix(56) == y + Suffix(56) {
      CancelSuffix(x, y, Suffix(56));
      CompressInjective(Masked(v), Masked(w));
    }
  }

  lemma CancelSuffix(x: Str, y: Str, z: Str)
    requires x + z == y + z
    ensures x == y
  {
    assert |x| == |y|;
    assert x == (x + z)[..|x|] && y == (y + z)[..|y|];
  }

  // ----- the loops -----

  /** `compressIPv6` with its best-run variables. */
  method CompressIPv6(words: seq<Word>) returns (r: Str)
    ensures r == Compress(words)
  {
    var parts := Parts(words);
    var bestStart: nat, bestLength: nat, start := 0, 0, 0;
    while start < |parts|
      invariant start <= |parts|
      invariant BestFrom(words, start, Run(bestStart, bestLength)) == BestRun(words)
    {
      HexDigits(words[start]);
      if parts[start] != [ZERO] {
        start := start + 1;
      } else {
        var end := FindRunEnd(words, parts, start);
        if end - start > bestLength {
          bestStart, bestLength := start, end - start;
        }
        start := end;
      }
    }
    BestRunIsLeftmostLongest(words);
    if bestLength < 2 {
      return Join(parts);
    }
    return Join(parts[..bestStart]) + [COLON, COLON] + Join(parts[bestStart + bestLength..]);
  }

  method FindRunEnd(words: seq<Word>, parts: seq<Str>, start: nat) returns (end: nat)
    requires parts == Parts(words) && start < |parts|
    ensures end == RunEnd(words, start)
  {
    end := start;
    while end < |parts| && parts[end] == [ZERO]
      invariant start <= end <= |parts| && RunEnd(words, end) == RunEnd(words, start)
    {
      HexDigits(words[end]);
      end := end + 1;
    }
    if end < |parts| {
      HexDigits(words[end]);
    }
  }

  /** Clears the words of an address behind its first 56 bits, in place. */
  method MaskInPlace(words: array<Word>)
    requires words.Length == 8
    modifies words
    ensures words[..] == Masked(old(words[..]))
  {
    words[3] := words[3] / 256 * 256;
    var index := 4;
    while index < words.Length
      invariant 4 <= index <= 8
      invariant words[0] == old(words[0]) && words[1] == old(words[1]) && words[2] == old(words[2])
      invariant words[3] == old(words[3]) / 256 * 256
      invariant forall i :: 4 <= i < index ==> words[i] == 0
    {
      words[index] := 0;
      index := index + 1;
    }
    assert words[..] == [words[0], words[1], words[2], words[3], 0, 0, 0, 0];
  }

  /** `canonicalClientPrefix` on an IPv6 address. */
  method CanonicalIpv6Prefix(address: Str) returns (r: Option<Str>)
    ensures r == Ipv6ClientPrefix(address)
  {
    var parsed := ParseWords(address);
    if parsed.None? {
      return None;
    }
    ParsedWords(address);
    hide ParseWords, Compress;
    var words: array<Word> := new Word[8](i requires 0 <= i < 8 => parsed.value[i]);
    assert words[..] == parsed.value;
    MaskInPlace(words);
    var text := CompressIPv6(words[..]);
    return Some(text + Suffix(56));
  }
}
