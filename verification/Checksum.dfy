/** The Internet checksum (RFC 1071) and its use on the IP header (section 3.1 of RFC 791). */
module Checksum {
  import opened Common

  const U16: int := 0x1_0000

  type Word = w: int | 0 <= w < 0x1_0000

  // ---- One's complement arithmetic ----------------------------------------------------------

  /** Addition of 16-bit words with end-around carry (section 2 of RFC 1071). */
  function OnesAdd(a: Word, b: Word): Word {
    if a + b < U16 then a + b else a + b - U16 + 1
  }

  /** The reference: the words added one after the other, each carry folded at once. */
  function OnesSum(seed: Word, words: seq<Word>): Word {
    if words == [] then seed
    else OnesAdd(OnesSum(seed, words[..|words| - 1]), words[|words| - 1])
  }

  function Sum(words: seq<Word>): nat {
    if words == [] then 0 else Sum(words[..|words| - 1]) + words[|words| - 1]
  }

  /** A total brought down to 16 bits: its value modulo 65535, zero only for zero. */
  function Residue(total: nat): (r: Word)
    ensures r == 0 <==> total == 0
    ensures (total - r) % 65535 == 0
  {
    if total == 0 then 0 else (total - 1) % 65535 + 1
  }

  lemma ResidueUnique(total: nat, r: Word)
    requires (total == 0 && r == 0) || (total > 0 && r > 0 && (total - r) % 65535 == 0)
    ensures Residue(total) == r
  {
  }

  /** What ip_xsum returns: the 32-bit accumulator keeps the total modulo 2^32. */
  function XSum(seed: nat, words: seq<Word>): Word {
    Residue((seed + Sum(words)) % U32)
  }

  // ---- The loops ----------------------------------------------------------------------------

  /** One fold takes a multiple of 65535 away and leaves neither nothing nor more. */
  lemma FoldKeepsResidue(x: nat)
    requires x >= U16
    ensures 0 < x % U16 + x / U16 < x
    ensures Residue(x % U16 + x / U16) == Residue(x)
  {
    var y := x % U16 + x / U16;
    assert x - y == 65535 * (x / U16);
    ResidueUnique(y, Residue(x));
  }

  method Fold(start: nat) returns (sum: nat)
    requires start < U32
    ensures sum == Residue(start)
  {
    sum := start;
    while sum / U16 != 0
      invariant Residue(sum) == Residue(start)
      decreases sum
    {
      FoldKeepsResidue(sum);
      sum := sum % U16 + sum / U16;
    }
  }

  method IpXsum(buff: array<Word>, len: nat, xsum: nat) returns (r: Word)
    requires len <= buff.Length && xsum < U32
    ensures r == XSum(xsum, buff[..len])
  {
    var sum := xsum;
    var i := 0;
    while i < len
      invariant 0 <= i <= len
      invariant sum == (xsum + Sum(buff[..i])) % U32
    {
      assert buff[..i + 1][..i] == buff[..i];
      sum := (sum + buff[i]) % U32;
      i := i + 1;
    }
    r := Fold(sum);
  }

  // ---- What ip_xsum computes ----------------------------------------------------------------

  lemma ResidueAdds(total: nat, w: Word)
    ensures Residue(total + w) == OnesAdd(Residue(total), w)
  {
    var r := Residue(total);
    var s := OnesAdd(r, w);
    assert (total + w - s) % 65535 == 0 by {
      assert total + w - s == total - r || total + w - s == total - r + 65535;
    }
    ResidueUnique(total + w, s);
  }

  lemma {:induction false} OnesSumIsResidue(seed: Word, words: seq<Word>)
    ensures OnesSum(seed, words) == Residue(seed + Sum(words))
  {
    if words == [] {
      ResidueUnique(seed, seed);
    } else {
      OnesSumIsResidue(seed, words[..|words| - 1]);
      ResidueAdds(seed + Sum(words[..|words| - 1]), words[|words| - 1]);
    }
  }

  lemma {:induction false} SumBounded(words: seq<Word>)
    ensures Sum(words) <= 65535 * |words|
  {
    if words != [] {
      SumBounded(words[..|words| - 1]);
    }
  }

  /** Up to 65536 words and a 16-bit seed the accumulator never wraps, and the folded total is
    * the one's complement sum. */
  lemma XSumIsOnesSum(seed: Word, words: seq<Word>)
    requires |words| <= 65536
    ensures seed + Sum(words) < U32
    ensures XSum(seed, words) == OnesSum(seed, words)
  {
    SumBounded(words);
    OnesSumIsResidue(seed, words);
  }

  /** 2^32 is one more than a multiple of 65535, so each lost carry costs one. */
  lemma LostCarries(low: nat, high: nat)
    requires low > 0
    ensures Residue(low) == Residue(high * U32 + low) <==> high % 65535 == 0
  {
    var total := high * U32 + low;
    var r, s := Residue(low), Residue(total);
    var k, l := (low - r) / 65535, (total - s) / 65535;
    assert total - low == 65535 * (65537 * high) + high;
    if r == s {
      assert high == 65535 * (l - k - 65537 * high);
    }
    if high % 65535 == 0 {
      assert total - r == 65535 * (k + 65537 * high + high / 65535);
      ResidueUnique(total, r);
    }
  }

  /** Whether the wrapping accumulator still gives the right sum of this total. */
  predicate Survives(total: nat) {
    total == 0 || (total % U32 != 0 && (total / U32) % 65535 == 0)
  }

  /** For any number of words, exactly when the result is the one's complement sum. */
  lemma XSumIsOnesSumIff(seed: Word, words: seq<Word>)
    ensures XSum(seed, words) == OnesSum(seed, words) <==> Survives(seed + Sum(words))
  {
    var total := seed + Sum(words);
    OnesSumIsResidue(seed, words);
    if total % U32 != 0 {
      LostCarries(total % U32, total / U32);
    }
  }

  lemma {:induction false} AllOnes(n: nat)
    ensures Sum(seq(n, _ => 65535 as Word)) == 65535 * n
  {
    var words := seq(n, _ => 65535 as Word);
    if n > 0 {
      assert words[..n - 1] == seq(n - 1, _ => 65535 as Word);
      AllOnes(n - 1);
    }
  }

  /** One word beyond the bound, all ones everywhere: the carry out of 32 bits is lost. */
  lemma OneWordTooMany()
    ensures XSum(65535, seq(65537, _ => 65535 as Word)) != OnesSum(65535, seq(65537, _ => 65535 as Word))
  {
    AllOnes(65537);
    XSumIsOnesSumIff(65535, seq(65537, _ => 65535 as Word));
  }

  // ---- Order and chaining -------------------------------------------------------------------

  lemma {:induction false} SumConcat(a: seq<Word>, b: seq<Word>)
    ensures Sum(a + b) == Sum(a) + Sum(b)
    decreases |b|
  {
    if b == [] {
      assert a + b == a;
    } else {
      var last := |b| - 1;
      assert (a + b)[..|a + b| - 1] == a + b[..last];
      SumConcat(a, b[..last]);
    }
  }

  lemma {:induction false} SumPermuted(a: seq<Word>, b: seq<Word>)
    requires multiset(a) == multiset(b)
    ensures Sum(a) == Sum(b)
    decreases |a|
  {
    assert |a| == |multiset(a)| == |b|;
    if a != [] {
      var last := |a| - 1;
      var i := Position(b, a[last]);
      SumWithout(b, i);
      Without(b, i);
      Without(a, last);
      assert a[..last] + a[last + 1..] == a[..last];
      SumPermuted(a[..last], b[..i] + b[i + 1..]);
    }
  }

  lemma Position(words: seq<Word>, w: Word) returns (i: nat)
    requires w in multiset(words)
    ensures i < |words| && words[i] == w
  {
    assert w in words;
    i :| 0 <= i < |words| && words[i] == w;
  }

  lemma SumWithout(words: seq<Word>, i: nat)
    requires i < |words|
    ensures Sum(words) == Sum(words[..i] + words[i + 1..]) + words[i]
  {
    var front, w, back := words[..i], words[i], words[i + 1..];
    assert words == front + [w] + back;
    SumConcat(front, back);
    SumAround(front, w, back);
  }

  lemma SumAround(front: seq<Word>, w: Word, back: seq<Word>)
    ensures Sum(front + [w] + back) == Sum(front) + w + Sum(back)
  {
    SumConcat(front + [w], back);
    assert (front + [w])[..|front|] == front;
  }

  lemma Without(words: seq<Word>, i: nat)
    requires i < |words|
    ensures multiset(words[..i] + words[i + 1..]) == multiset(words) - multiset{words[i]}
  {
    var front, w, back := words[..i], words[i], words[i + 1..];
    assert words == front + ([w] + back);
    assert multiset(words) == multiset(front) + multiset([w] + back);
    assert multiset([w] + back) == multiset{w} + multiset(back);
  }

  /** The order of the words makes no difference. */
  lemma XSumPermuted(seed: nat, a: seq<Word>, b: seq<Word>)
    requires multiset(a) == multiset(b)
    ensures XSum(seed, a) == XSum(seed, b)
  {
    SumPermuted(a, b);
  }

  lemma {:induction false} OnesSumConcat(seed: Word, a: seq<Word>, b: seq<Word>)
    ensures OnesSum(OnesSum(seed, a), b) == OnesSum(seed, a + b)
    decreases |b|
  {
    if b == [] {
      assert a + b == a;
    } else {
      var last := |b| - 1;
      assert (a + b)[..|a + b| - 1] == a + b[..last];
      OnesSumConcat(seed, a, b[..last]);
    }
  }

  /** The sum of one part seeds the sum of the next. */
  lemma XSumChains(seed: Word, a: seq<Word>, b: seq<Word>)
    requires |a + b| <= 65536
    ensures XSum(XSum(seed, a), b) == XSum(seed, a + b)
  {
    XSumIsOnesSum(seed, a);
    XSumIsOnesSum(XSum(seed, a), b);
    XSumIsOnesSum(seed, a + b);
    OnesSumConcat(seed, a, b);
  }

  // ---- The IP header ------------------------------------------------------------------------

  /** The header length field: the low half of the first byte, counted in 32-bit words. */
  function HeaderLength(first: Word): (ihl: nat)
    ensures ihl < 16
  {
    first % 16
  }

  /** A first byte 0x40 + ihl, the second in memory being the upper half of the word, gives
      2 * ihl words. */
  lemma HeaderWords(first: Word, ihl: nat)
    requires ihl < 16 && first % 0x100 == 0x40 + ihl
    ensures 2 * HeaderLength(first) == 2 * ihl
  {
    assert first == 0x10 * (0x10 * (first / 0x100) + 4) + ihl;
  }

  const CHECK: nat := 5

  /**
    * checksum_ip. The struct has ten words; more are read when the length field says so.
    * Wherever the length field makes the sum reach the check field, which every legal length
    * does, the written header sums to all ones.
    */
  method ChecksumIp(header: array<Word>)
    requires header.Length >= 10 && header.Length >= 2 * HeaderLength(header[0])
    modifies header
    ensures forall i :: 0 <= i < header.Length && i != 5 ==> header[i] == old(header[i])
    ensures HeaderLength(header[0]) == old(HeaderLength(header[0]))
    ensures header[..] == old(header[..])[CHECK := 65535 - XSum(0, old(header[..])[CHECK := 0][..2 * HeaderLength(header[0])])]
    ensures HeaderLength(header[0]) >= 3 ==> XSum(0, header[..2 * HeaderLength(header[0])]) == 0xFFFF
    ensures header[0] % 0x100 == 0x45 ==> XSum(0, header[..10]) == 0xFFFF
  {
    header[CHECK] := 0;
    ghost var cleared := header[..];
    var sum, i := 0, 0;
    while i < HeaderLength(header[0]) * 2
      invariant 0 <= i <= 2 * HeaderLength(header[0])
      invariant sum == Sum(header[..i]) <= 65535 * i
    {
      assert header[..i + 1][..i] == header[..i];
      sum := (sum + header[i]) % U32;
      i := i + 1;
    }
    assert header[..i] == cleared[..i] && sum == Sum(cleared[..i]) % U32;
    sum := Fold(sum);
    header[CHECK] := 65535 - sum;
    assert header[..] == cleared[CHECK := 65535 - sum] && header[..i] == header[..][..i];
    HeaderCompletes(cleared, i, 65535 - sum);
  }

  lemma HeaderCompletes(cleared: seq<Word>, i: nat, check: Word)
    requires i <= |cleared| && CHECK < |cleared| && cleared[CHECK] == 0 && i == 2 * HeaderLength(cleared[0])
    requires check == 65535 - XSum(0, cleared[..i])
    ensures i >= 6 ==> XSum(0, cleared[CHECK := check][..i]) == 0xFFFF
    ensures cleared[0] % 0x100 == 0x45 ==> i == 10
  {
    if i >= 6 {
      CheckCompletes(cleared[..i], check);
      assert cleared[CHECK := check][..i] == cleared[..i][CHECK := check];
    }
    if cleared[0] % 0x100 == 0x45 {
      HeaderWords(cleared[0], 5);
    }
  }

  lemma SumUpdate(words: seq<Word>, i: nat, w: Word)
    requires i < |words|
    ensures Sum(words[i := w]) == Sum(words) - words[i] + w
  {
    SumWithout(words, i);
    SumWithout(words[i := w], i);
    assert words[i := w][..i] == words[..i] && words[i := w][i + 1..] == words[i + 1..];
  }

  /**
    * The receiver's test: over a header summed with its check field clear, the sum of all words
    * is all ones exactly for the complement of that sum (and, when that is 0, for its other
    * representation).
    */
  lemma CheckIff(cleared: seq<Word>, c: Word)
    requires CHECK < |cleared| <= 30 && cleared[CHECK] == 0
    ensures var check := 65535 - XSum(0, cleared);
      XSum(0, cleared[CHECK := c]) == 0xFFFF <==> c == check || (check == 0 && c == 0xFFFF)
  {
    NoWrap(cleared);
    NoWrap(cleared[CHECK := c]);
    SumUpdate(cleared, CHECK, c);
    ComplementIff(Sum(cleared), c);
  }

  lemma ComplementIff(total: nat, c: Word)
    ensures Residue(total + c) == 0xFFFF
       <==> c == 65535 - Residue(total) || (Residue(total) == 0xFFFF && c == 0xFFFF)
  {
    ResidueAdds(total, c);
  }

  lemma CheckCompletes(cleared: seq<Word>, check: Word)
    requires CHECK < |cleared| <= 30 && cleared[CHECK] == 0 && check == 65535 - XSum(0, cleared)
    ensures XSum(0, cleared[CHECK := check]) == 0xFFFF
  {
    CheckIff(cleared, check);
  }

  /** The two 16-bit representations of zero. */
  predicate Zeros(x: Word, y: Word) {
    (x == 0 && y == 0xFFFF) || (x == 0xFFFF && y == 0)
  }

  lemma OnesAddIff(r: Word, x: Word, y: Word)
    ensures OnesAdd(r, x) == OnesAdd(r, y) <==> x == y || (r > 0 && Zeros(x, y))
  {
  }

  /** A change of one word is seen, except between the two representations of zero. */
  lemma OneWordDetected(words: seq<Word>, i: nat, w: Word)
    requires i < |words| <= 65536
    ensures XSum(0, words[i := w]) == XSum(0, words)
        <==> w == words[i] || (Sum(words[i := 0]) > 0 && Zeros(w, words[i]))
  {
    var rest := Sum(words[i := 0]);
    SumUpdate(words, i, w);
    SumUpdate(words, i, 0);
    NoWrap(words);
    NoWrap(words[i := w]);
    ResidueAdds(rest, w);
    ResidueAdds(rest, words[i]);
    OnesAddIff(Residue(rest), w, words[i]);
  }

  lemma NoWrap(words: seq<Word>)
    requires |words| <= 65536
    ensures XSum(0, words) == Residue(Sum(words))
  {
    SumBounded(words);
  }
}
