/**
 One's-complement checksums: the full computation, the single-fold verifier, and the
 arithmetic modulo 65535 behind both. Words are held as the host reads them from memory,
 so on a little-endian host their bytes are swapped.
 */
module Checksum {

  type Word = x: nat | x < 0x1_0000

  const ONES: Word := 0xFFFF

  function Swap(x: Word): Word {
    (x % 0x100) * 0x100 + x / 0x100
  }

  /** ntohs, and htons, which is the same function. */
  function Ntohs(little: bool, x: Word): Word {
    if little then Swap(x) else x
  }

  lemma Bytes(h: nat, l: nat)
    requires h < 0x100 && l < 0x100
    ensures (0x100 * h + l) / 0x100 == h && (0x100 * h + l) % 0x100 == l
  {
  }

  lemma NtohsTwice(little: bool, x: Word)
    ensures Ntohs(little, Ntohs(little, x)) == x
  {
    if little {
      var h, l := x / 0x100, x % 0x100;
      assert Swap(x) == 0x100 * l + h;
      Bytes(l, h);
    }
  }

  /** Sum of the words of a buffer, as numbers in network order. */
  function Sum(little: bool, words: seq<Word>): nat {
    if words == [] then 0 else Sum(little, words[..|words| - 1]) + Ntohs(little, words[|words| - 1])
  }

  /** The same with one position, the checksum field, left out. */
  function SumBut(little: bool, words: seq<Word>, at: nat): nat {
    if words == [] then
      0
    else
      SumBut(little, words[..|words| - 1], at)
      + if |words| - 1 == at then 0 else Ntohs(little, words[|words| - 1])
  }

  /** Repeated folding: the textbook one's-complement sum. */
  function Folded(s: nat): nat {
    if s < 0x1_0000 then s else Folded(s / 0x1_0000 + s % 0x1_0000)
  }

  /** One fold, kept in 16 bits. */
  function FoldOnce(s: nat): Word {
    (s / 0x1_0000 + s % 0x1_0000) % 0x1_0000
  }

  /** A fold and its carry, kept in 16 bits. */
  function FoldCarry(s: nat): Word {
    var a := s / 0x1_0000 + s % 0x1_0000;
    (a + a / 0x1_0000) % 0x1_0000
  }

  function Complement(x: Word): Word {
    ONES - x
  }

  predicate Congruent(a: int, b: int) {
    (a - b) % 0xFFFF == 0
  }

  // ---------------------------------------------------------------- arithmetic

  lemma {:induction false} FoldedMeaning(s: nat)
    ensures Folded(s) < 0x1_0000 && Congruent(Folded(s), s)
    ensures Folded(s) == 0 <==> s == 0
  {
    if s >= 0x1_0000 {
      var a := s / 0x1_0000 + s % 0x1_0000;
      FoldedMeaning(a);
      assert s - a == 0xFFFF * (s / 0x1_0000);
    }
  }

  /** Full folding gives all ones exactly on the positive multiples of 65535. */
  lemma FoldedIsOnes(s: nat)
    ensures Folded(s) == ONES <==> s > 0 && s % 0xFFFF == 0
  {
    FoldedMeaning(s);
  }

  lemma FoldCarryMeaning(s: nat)
    requires s < 0x1_0000_0000
    ensures Congruent(FoldCarry(s), s) && (FoldCarry(s) == 0 <==> s == 0)
  {
    var a := s / 0x1_0000 + s % 0x1_0000;
    assert s - a == 0xFFFF * (s / 0x1_0000);
    assert a < 0x2_0000;
  }

  /** On 32-bit sums one fold and its carry already are the complete fold. */
  lemma FoldCarryIsFolded(s: nat)
    requires s < 0x1_0000_0000
    ensures FoldCarry(s) == Folded(s)
  {
    hide FoldCarry, Folded, Congruent;
    FoldCarryMeaning(s);
    FoldedMeaning(s);
    SameResidue(FoldCarry(s), Folded(s), s);
  }

  lemma SameResidue(a: Word, b: Word, s: nat)
    requires Congruent(a, s) && Congruent(b, s) && (a == 0 <==> b == 0)
    ensures a == b
  {
    assert (a - b) % 0xFFFF == 0;
  }

  lemma {:induction false} SumBound(little: bool, words: seq<Word>, at: nat)
    ensures Sum(little, words) <= ONES * |words| && SumBut(little, words, at) <= ONES * |words|
    ensures Sum(little, words) == SumBut(little, words, at) + if at < |words| then Ntohs(little, words[at]) else 0
  {
    if words != [] {
      SumBound(little, words[..|words| - 1], at);
    }
  }

  lemma SumPrefix(little: bool, words: seq<Word>, i: nat)
    requires i <= |words| < 0x1_0000
    ensures Sum(little, words[..0]) == 0
    ensures i < |words| ==>
              && Sum(little, words[..i + 1]) == Sum(little, words[..i]) + Ntohs(little, words[i])
              && Sum(little, words[..i + 1]) < 0x1_0000_0000
  {
    hide Ntohs;
    if i < |words| {
      assert words[..i + 1][..i] == words[..i];
      SumBound(little, words[..i + 1], 0);
    }
  }

  /** The skipped word does not matter. */
  lemma {:induction false} SumButUpdate(little: bool, words: seq<Word>, at: nat, w: Word)
    requires at < |words|
    ensures SumBut(little, words[at := w], at) == SumBut(little, words, at)
  {
    var init := words[..|words| - 1];
    if at == |words| - 1 {
      assert words[at := w][..|words| - 1] == init;
    } else {
      assert words[at := w][..|words| - 1] == init[at := w];
      SumButUpdate(little, init, at, w);
    }
  }

  // ---------------------------------------------------------------- the verifier

  /** What verify_checksum accepts. */
  predicate Verifies(little: bool, words: seq<Word>) {
    FoldOnce(Sum(little, words)) == ONES
  }

  /** One fold is as strong as repeated folding, for every buffer shorter than 65536 words. */
  lemma SingleFoldSuffices(little: bool, words: seq<Word>)
    requires |words| < 0x1_0000
    ensures Verifies(little, words) <==> Sum(little, words) > 0 && Sum(little, words) % 0xFFFF == 0
    ensures Verifies(little, words) <==> Folded(Sum(little, words)) == ONES
  {
    var s := Sum(little, words);
    SumBound(little, words, 0);
    FoldedIsOnes(s);
    OneFold(s);
  }

  lemma OneFold(s: nat)
    requires s <= ONES * 0xFFFF
    ensures FoldOnce(s) == ONES <==> s > 0 && s % 0xFFFF == 0
  {
    var hi, lo := s / 0x1_0000, s % 0x1_0000;
    assert s == 0xFFFF * hi + (hi + lo);
    assert hi < 0xFFFF;
    if s % 0xFFFF == 0 && s > 0 {
      assert (hi + lo) % 0xFFFF == 0;
      assert 0 < hi + lo < 2 * 0xFFFF;
    }
  }

  /** The checksum of a buffer whose field is at `at`, in host order. */
  function Computed(little: bool, words: seq<Word>, at: nat): Word {
    Complement(FoldCarry(SumBut(little, words, at)))
  }

  /**
   A field that is part of the buffer verifies exactly when it holds the computed sum, or its
   other one's-complement zero.
   */
  lemma FieldVerifies(little: bool, words: seq<Word>, at: nat)
    requires at < |words| < 0x1_0000
    ensures var c, field := Computed(little, words, at), Ntohs(little, words[at]);
            Verifies(little, words) <==> field == c || (c == 0 && field == ONES)
  {
    hide Sum, SumBut, FoldCarry, FoldOnce, Folded, Ntohs, Congruent, Verifies;
    var rest, field := SumBut(little, words, at), Ntohs(little, words[at]);
    SumBound(little, words, at);
    SingleFoldSuffices(little, words);
    FoldCarryMeaning(rest);
    Complementary(rest, FoldCarry(rest), field);
  }

  lemma Complementary(rest: nat, folded: Word, field: Word)
    requires Congruent(folded, rest) && (folded == 0 <==> rest == 0)
    ensures rest + field > 0 && (rest + field) % 0xFFFF == 0 <==>
            field == ONES - folded || (folded == ONES && field == ONES)
  {
    assert Congruent(rest + field, folded + field);
    assert (rest + field) % 0xFFFF == 0 <==> (folded + field) % 0xFFFF == 0;
  }

  /** Writing the computed sum makes the buffer verify, if and only if the field lies inside it or there is no need. */
  lemma WrittenVerifies(little: bool, words: seq<Word>, n: nat, at: nat)
    requires n <= |words| < 0x1_0000 && at < |words|
    ensures var out := words[at := Ntohs(little, Computed(little, words[..n], at))];
            Verifies(little, out[..n]) <==> at < n || Verifies(little, words[..n])
  {
    var c := Computed(little, words[..n], at);
    var out := words[at := Ntohs(little, c)];
    if at < n {
      assert out[..n] == words[..n][at := Ntohs(little, c)];
      SumButUpdate(little, words[..n], at, Ntohs(little, c));
      NtohsTwice(little, c);
      FieldVerifies(little, out[..n], at);
    } else {
      assert out[..n] == words[..n];
    }
  }

  // ---------------------------------------------------------------- the code

  const IP_SUM: nat := 5

  /** compute_ip_checksum and compute_icmp_checksum: clear the field, then add up the other words. */
  method ComputeChecksum(little: bool, buffer: array<Word>, n: nat, at: nat) returns (sum: Word)
    requires n <= buffer.Length < 0x1_0000 && at < buffer.Length
    modifies buffer
    ensures buffer[..] == old(buffer[..])[at := 0]
    ensures sum == Computed(little, old(buffer[..n]), at)
  {
    buffer[at] := 0;
    var total := 0;
    for i := 0 to n
      invariant buffer[..] == old(buffer[..])[at := 0]
      invariant total == SumBut(little, old(buffer[..n])[..i], at)
    {
      assert old(buffer[..n])[..i + 1][..i] == old(buffer[..n])[..i];
      if i != at {
        total := total + Ntohs(little, buffer[i]);
      }
    }
    assert old(buffer[..n])[..n] == old(buffer[..n]);
    total := total / 0x1_0000 + total % 0x1_0000;
    total := total + total / 0x1_0000;
    sum := ONES - total % 0x1_0000;
  }

  /** verify_checksum; the result says whether the code returns 0, for a good sum. */
  method VerifyChecksum(little: bool, data: seq<Word>) returns (good: bool)
    requires |data| < 0x1_0000
    ensures good <==> Verifies(little, data)
    ensures good <==> Sum(little, data) > 0 && Sum(little, data) % 0xFFFF == 0
  {
    hide Sum, SumBut, Ntohs, Folded;
    var sum := 0;
    SumPrefix(little, data, 0);
    for i := 0 to |data|
      invariant sum == Sum(little, data[..i])
    {
      SumPrefix(little, data, i);
      sum := (sum + Ntohs(little, data[i])) % 0x1_0000_0000;
    }
    assert data[..|data|] == data;
    SingleFoldSuffices(little, data);
    good := (sum / 0x1_0000 + sum % 0x1_0000) % 0x1_0000 == ONES;
  }

  /** The forwarding path: recompute the header sum and write it back. */
  method Refresh(little: bool, header: array<Word>, words: nat)
    requires IP_SUM < words <= header.Length < 0x1_0000
    modifies header
    ensures Verifies(little, header[..words])
    ensures forall i :: 0 <= i < header.Length && i != 5 ==> header[i] == old(header[i])
  {
    ghost var before := header[..];
    var sum := ComputeChecksum(little, header, words, IP_SUM);
    header[IP_SUM] := Ntohs(little, sum);
    assert before[..words] == old(header[..words]);
    assert header[..] == before[IP_SUM := Ntohs(little, sum)];
    assert header[..words] == header[..][..words];
    WrittenVerifies(little, before, words, IP_SUM);
  }
}
