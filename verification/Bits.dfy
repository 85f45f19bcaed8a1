/** Bitwise operations and hexadecimal text on unbounded naturals, as Python has them. */
module Bits {

  import opened Net

  // ---------------------------------------------------------------- and, or, fields

  function And(a: nat, b: nat): nat {
    if a == 0 || b == 0 then 0 else 2 * And(a / 2, b / 2) + (if a % 2 == 1 && b % 2 == 1 then 1 else 0)
  }

  function Or(a: nat, b: nat): nat
    decreases a + b
  {
    if a == 0 then b
    else if b == 0 then a
    else 2 * Or(a / 2, b / 2) + (if a % 2 == 1 || b % 2 == 1 then 1 else 0)
  }

  /** x >> k. */
  function Shift(x: nat, k: nat): nat {
    if k == 0 then x else Shift(x / 2, k - 1)
  }

  /** The low k bits. */
  function Low(x: nat, k: nat): nat {
    if k == 0 then 0 else 2 * Low(x / 2, k - 1) + x % 2
  }

  function Ones(k: nat): nat {
    if k == 0 then 0 else 2 * Ones(k - 1) + 1
  }

  function Pow2(k: nat): (p: nat)
    ensures p > 0
  {
    if k == 0 then 1 else 2 * Pow2(k - 1)
  }

  lemma AndStep(a: nat, b: nat)
    ensures And(a, b) / 2 == And(a / 2, b / 2) && And(a, b) % 2 == (if a % 2 == 1 && b % 2 == 1 then 1 else 0)
  {
  }

  lemma OrStep(a: nat, b: nat)
    ensures Or(a, b) / 2 == Or(a / 2, b / 2) && Or(a, b) % 2 == (if a % 2 == 1 || b % 2 == 1 then 1 else 0)
  {
  }

  lemma {:induction false} AndFields(a: nat, b: nat, k: nat)
    ensures Shift(And(a, b), k) == And(Shift(a, k), Shift(b, k))
    ensures Low(And(a, b), k) == And(Low(a, k), Low(b, k))
  {
    hide And;
    if k == 0 {
      AndZero(0);
    } else {
      AndStep(a, b);
      AndFields(a / 2, b / 2, k - 1);
      AndStep(Low(a, k), Low(b, k));
    }
  }

  lemma {:induction false} OrFields(a: nat, b: nat, k: nat)
    ensures Shift(Or(a, b), k) == Or(Shift(a, k), Shift(b, k))
    ensures Low(Or(a, b), k) == Or(Low(a, k), Low(b, k))
  {
    hide Or;
    if k == 0 {
      AndZero(0);
    } else {
      OrStep(a, b);
      OrFields(a / 2, b / 2, k - 1);
      OrStep(Low(a, k), Low(b, k));
    }
  }

  /** Masking with k ones keeps the low k bits. */
  lemma {:induction false} AndOnes(x: nat, k: nat)
    ensures And(x, Ones(k)) == Low(x, k)
  {
    hide And;
    AndZero(x);
    if k > 0 {
      AndStep(x, Ones(k));
      AndOnes(x / 2, k - 1);
    }
  }

  lemma {:induction false} AndZero(x: nat)
    ensures And(x, 0) == 0 && Or(0, x) == x && Or(x, 0) == x
  {
  }

  lemma {:induction false} LowTwice(x: nat, j: nat, k: nat)
    requires j <= k
    ensures Low(Low(x, k), j) == Low(x, j)
  {
    if j > 0 {
      LowTwice(x / 2, j - 1, k - 1);
    }
  }

  lemma {:induction false} LowSmall(x: nat, k: nat)
    requires x < Pow2(k)
    ensures Low(x, k) == x && Shift(x, k) == 0
  {
    if k > 0 {
      LowSmall(x / 2, k - 1);
    }
  }

  /** Adding a multiple of 2^k leaves the fields below bit k alone. */
  lemma {:induction false} LowOfSum(x: nat, m: nat, k: nat)
    ensures Low(x + Pow2(k) * m, k) == Low(x, k)
  {
    if k > 0 {
      assert Pow2(k) * m == 2 * (Pow2(k - 1) * m);
      assert (x + Pow2(k) * m) / 2 == x / 2 + Pow2(k - 1) * m;
      LowOfSum(x / 2, m, k - 1);
    }
  }

  lemma {:induction false} ShiftOfSum(x: nat, m: nat, k: nat)
    requires x < Pow2(k)
    ensures Shift(x + Pow2(k) * m, k) == m
  {
    if k > 0 {
      assert Pow2(k) * m == 2 * (Pow2(k - 1) * m);
      assert (x + Pow2(k) * m) / 2 == x / 2 + Pow2(k - 1) * m;
      ShiftOfSum(x / 2, m, k - 1);
    }
  }

  lemma {:induction false} ShiftLow(x: nat, lo: nat, k: nat)
    ensures Low(Shift(x, lo), k) == Shift(Low(x, lo + k), lo)
  {
    if lo > 0 {
      ShiftLow(x / 2, lo - 1, k);
    }
  }

  /** A number placed at bit k: nothing below, itself above. */
  lemma {:induction false} Placed(x: nat, k: nat)
    ensures Shift(Pow2(k) * x, k) == x && Low(Pow2(k) * x, k) == 0
  {
    if k > 0 {
      assert Pow2(k) * x == 2 * (Pow2(k - 1) * x);
      Placed(x, k - 1);
    }
  }

  /** Floor of the binary logarithm. */
  function Log2(x: nat): nat
    requires x > 0
  {
    if x == 1 then 0 else 1 + Log2(x / 2)
  }

  lemma {:induction false} Log2Pow2(k: nat)
    ensures Log2(Pow2(k)) == k
  {
    if k > 0 {
      Log2Pow2(k - 1);
    }
  }

  // ---------------------------------------------------------------- hexadecimal text

  const DIGITS: string := "0123456789abcdef"

  function DigitValue(c: char): Option<nat> {
    if '0' <= c <= '9' then Some((c - '0') as nat)
    else if 'a' <= c <= 'f' then Some((c - 'a') as nat + 10)
    else if 'A' <= c <= 'F' then Some((c - 'A') as nat + 10)
    else None
  }

  predicate IsHex(s: string) {
    forall i :: 0 <= i < |s| ==> DigitValue(s[i]).Some?
  }

  function Value(s: string): nat
    requires IsHex(s)
  {
    if s == "" then 0 else 16 * Value(s[..|s| - 1]) + DigitValue(s[|s| - 1]).value
  }

  /** int(s, 16). */
  function ParseHex(s: string): Option<nat> {
    if s != "" && IsHex(s) then Some(Value(s)) else None
  }

  /** '%x' % n. */
  function Hex(n: nat): (s: string)
    ensures s != ""
  {
    if n < 16 then [DIGITS[n]] else Hex(n / 16) + [DIGITS[n % 16]]
  }

  function Repeat(c: char, k: nat): (s: string)
    ensures |s| == k && forall i :: 0 <= i < k ==> s[i] == c
  {
    if k == 0 then "" else Repeat(c, k - 1) + [c]
  }

  /** s.rjust(k, c), and s.zfill(k) for c == '0'. */
  function RightJust(s: string, k: nat, c: char): (r: string)
    ensures |s| <= |r| && (|s| <= k ==> |r| == k)
  {
    if |s| < k then Repeat(c, k - |s|) + s else s
  }

  lemma DigitRoundTrip(d: nat)
    requires d < 16
    ensures DigitValue(DIGITS[d]) == Some(d)
  {
  }

  lemma {:induction false} HexRoundTrip(n: nat)
    ensures IsHex(Hex(n)) && Value(Hex(n)) == n
  {
    hide DigitValue;
    if n < 16 {
      DigitRoundTrip(n);
      assert [DIGITS[n]][..0] == "";
    } else {
      HexRoundTrip(n / 16);
      DigitRoundTrip(n % 16);
      assert Hex(n)[..|Hex(n)| - 1] == Hex(n / 16);
    }
  }

  function Pow16(k: nat): nat {
    if k == 0 then 1 else 16 * Pow16(k - 1)
  }

  lemma {:induction false} ValueConcat(a: string, b: string)
    requires IsHex(a) && IsHex(b)
    ensures IsHex(a + b) && Value(a + b) == Value(a) * Pow16(|b|) + Value(b)
  {
    hide DigitValue;
    if b == "" {
      assert a + b == a;
    } else {
      var c := b[..|b| - 1];
      assert (a + b)[..|a + b| - 1] == a + c;
      ValueConcat(a, c);
      assert Value(a) * Pow16(|b|) == 16 * (Value(a) * Pow16(|c|));
    }
  }

  lemma {:induction false} ValueOfZeros(k: nat)
    ensures IsHex(Repeat('0', k)) && Value(Repeat('0', k)) == 0
  {
    hide Value, IsHex;
    NoValue();
    if k > 0 {
      ValueOfZeros(k - 1);
      ValueSnoc(Repeat('0', k - 1), '0');
    }
  }

  lemma NoValue()
    ensures IsHex("") && Value("") == 0
  {
  }

  lemma ValueSnoc(s: string, c: char)
    requires IsHex(s) && DigitValue(c).Some?
    ensures IsHex(s + [c]) && Value(s + [c]) == 16 * Value(s) + DigitValue(c).value
  {
    hide DigitValue;
    assert (s + [c])[..|s|] == s;
  }

  /** Padding with zeros does not change what a number reads as. */
  lemma PaddedHex(n: nat, k: nat)
    ensures var s := RightJust(Hex(n), k, '0');
            IsHex(s) && s != "" && ParseHex(s) == Some(n)
  {
    hide Value, Hex, IsHex, Repeat;
    HexRoundTrip(n);
    if |Hex(n)| < k {
      ValueOfZeros(k - |Hex(n)|);
      ValueConcat(Repeat('0', k - |Hex(n)|), Hex(n));
    }
  }

  // ---------------------------------------------------------------- decimal text

  predicate IsDecimal(s: string) {
    forall i :: 0 <= i < |s| ==> '0' <= s[i] <= '9'
  }

  /** '%d' % n. */
  function Dec(n: nat): (s: string)
    ensures s != "" && IsDecimal(s)
  {
    if n < 10 then [DIGITS[n]] else Dec(n / 10) + [DIGITS[n % 10]]
  }
}
