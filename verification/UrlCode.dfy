/** Percent coding of the web interface's command strings. */
module UrlCode {

  type Byte = x: nat | x < 256

  const PERCENT: Byte := 0x25
  const PLUS: Byte := 0x2B
  const SPACE: Byte := 0x20

  /** A C string: no zero byte inside. */
  predicate IsText(s: seq<Byte>) {
    forall i :: 0 <= i < |s| ==> s[i] != 0
  }

  predicate Alphanumeric(c: Byte) {
    0x30 <= c <= 0x39 || 0x61 <= c <= 0x7A || 0x41 <= c <= 0x5A
  }

  /** "%X" of a number below 16. */
  function Digit(d: nat): Byte
    requires d < 16
  {
    if d < 10 then 0x30 + d else 0x41 + (d - 10)
  }

  /** sscanf with "%X" on one character; what is no digit leaves the 0 that was there. */
  function DigitValue(c: Byte): (d: nat)
    ensures d < 16
  {
    if 0x30 <= c <= 0x39 then c - 0x30
    else if 0x41 <= c <= 0x46 then c - 0x41 + 10
    else if 0x61 <= c <= 0x66 then c - 0x61 + 10
    else 0
  }

  function Code(c: Byte): seq<Byte> {
    if Alphanumeric(c) then [c] else [PERCENT, Digit(c / 16), Digit(c % 16)]
  }

  function Encode(s: seq<Byte>): seq<Byte> {
    if s == [] then [] else Code(s[0]) + Encode(s[1..])
  }

  function Decode(s: seq<Byte>): seq<Byte> {
    if s == [] then
      []
    else if s[0] == PERCENT && 2 < |s| then
      [16 * DigitValue(s[1]) + DigitValue(s[2])] + Decode(s[3..])
    else
      [if s[0] == PLUS then SPACE else s[0]] + Decode(s[1..])
  }

  lemma {:induction false} RoundTrip(s: seq<Byte>)
    ensures Decode(Encode(s)) == s
  {
    if s != [] {
      var c, rest := s[0], Encode(s[1..]);
      RoundTrip(s[1..]);
      var e := Code(c) + rest;
      if Alphanumeric(c) {
        assert e[1..] == rest && e[0] == c;
      } else {
        assert e[3..] == rest && e[0] == PERCENT && e[1] == Digit(c / 16) && e[2] == Digit(c % 16);
      }
    }
  }

  // ---------------------------------------------------------------- what the coding is

  /** The 16 digits, and their other case. */
  const UPPER: seq<Byte> := [0x30, 0x31, 0x32, 0x33, 0x34, 0x35, 0x36, 0x37, 0x38, 0x39, 0x41, 0x42, 0x43, 0x44, 0x45, 0x46]
  const LOWER: seq<Byte> := [0x30, 0x31, 0x32, 0x33, 0x34, 0x35, 0x36, 0x37, 0x38, 0x39, 0x61, 0x62, 0x63, 0x64, 0x65, 0x66]

  /** `h` is a way to write the number `d`. */
  predicate Writes(h: Byte, d: nat) {
    d < 16 && (h == UPPER[d] || h == LOWER[d])
  }

  lemma DigitIsUpper(d: nat)
    requires d < 16
    ensures Digit(d) == UPPER[d]
  {
  }

  lemma DigitIsRead(h: Byte, d: nat)
    ensures Writes(h, d) ==> DigitValue(h) == d
    ensures h !in UPPER && h !in LOWER ==> DigitValue(h) == 0
  {
  }

  /** `t` starts with some spelling of the character: itself, a plus for a space, or a percent and two digits of either case. */
  predicate Spells(t: seq<Byte>, n: nat, c: Byte) {
    && 0 < n <= |t|
    && if n == 1 then t[0] != 0x25 && (if t[0] == 0x2B then c == 0x20 else t[0] == c)
       else n == 3 && t[0] == 0x25 && Writes(t[1], c / 16) && Writes(t[2], c % 16)
  }

  /** `t` spells `s`, in any mixture of spellings. */
  ghost predicate Spelling(t: seq<Byte>, s: seq<Byte>)
    decreases |s|
  {
    if s == [] then t == [] else exists n: nat :: Spells(t, n, s[0]) && Spelling(t[n..], s[1..])
  }

  /** Every spelling of a text decodes to it. */
  lemma {:induction false} DecodesEverySpelling(t: seq<Byte>, s: seq<Byte>)
    requires Spelling(t, s)
    ensures Decode(t) == s
    decreases |s|
  {
    hide DigitValue, Writes;
    if s != [] {
      var n: nat :| Spells(t, n, s[0]) && Spelling(t[n..], s[1..]);
      DecodesEverySpelling(t[n..], s[1..]);
      if n == 3 {
        DigitIsRead(t[1], s[0] / 16);
        DigitIsRead(t[2], s[0] % 16);
      }
      assert s == [s[0]] + s[1..];
    }
  }

  /** Letters and digits stay; every other byte becomes a percent and two upper-case digits. */
  lemma EncodesOne(c: Byte)
    ensures 0x30 <= c <= 0x39 || 0x41 <= c <= 0x5A || 0x61 <= c <= 0x7A ==> Encode([c]) == [c]
    ensures !(0x30 <= c <= 0x39 || 0x41 <= c <= 0x5A || 0x61 <= c <= 0x7A) ==>
              Encode([c]) == [0x25, UPPER[c / 16], UPPER[c % 16]]
  {
    hide Digit;
    DigitIsUpper(c / 16);
    DigitIsUpper(c % 16);
    assert [c][1..] == [] && Encode([]) == [] && Code(c) + [] == Code(c);
  }

  lemma {:induction false} EncodesEach(a: seq<Byte>, b: seq<Byte>)
    ensures Encode(a + b) == Encode(a) + Encode(b)
  {
    hide Code;
    if a == [] {
      assert a + b == b;
    } else {
      assert (a + b)[1..] == a[1..] + b;
      EncodesEach(a[1..], b);
      Regroup(Code(a[0]), Encode(a[1..]), Encode(b));
    }
  }

  /** The allocation of three times the length suffices, and nothing encodes to a terminator. */
  lemma {:induction false} EncodedText(s: seq<Byte>)
    ensures |s| <= |Encode(s)| <= 3 * |s|
    ensures IsText(Encode(s))
  {
    if s != [] {
      EncodedText(s[1..]);
    }
  }

  lemma {:induction false} DecodedFits(s: seq<Byte>)
    ensures |Decode(s)| <= |s|
  {
    if s != [] {
      if s[0] == PERCENT && 2 < |s| {
        DecodedFits(s[3..]);
      } else {
        DecodedFits(s[1..]);
      }
    }
  }

  /** What has been written so far, as a sequence. */
  ghost predicate Holds(ret: array<Byte>, pos: nat, out: seq<Byte>)
    reads ret
  {
    pos == |out| <= ret.Length && forall k :: 0 <= k < pos ==> ret[k] == out[k]
  }

  lemma HoldsNothing(ret: array<Byte>)
    ensures Holds(ret, 0, [])
  {
  }

  lemma HoldsIs(ret: array<Byte>, pos: nat, out: seq<Byte>)
    requires Holds(ret, pos, out)
    ensures ret[..pos] == out
  {
  }

  /** ret[pos] = b. */
  method PutByte(ret: array<Byte>, pos: nat, b: Byte, ghost out: seq<Byte>)
    requires Holds(ret, pos, out) && pos < ret.Length
    modifies ret
    ensures Holds(ret, pos + 1, out + [b])
  {
    ret[pos] := b;
  }

  /** urlencode, into a buffer of 3n + 1 bytes. */
  method UrlEncode(str: seq<Byte>) returns (ret: array<Byte>, pos: nat)
    ensures fresh(ret) && ret.Length == 3 * |str| + 1 && pos < ret.Length
    ensures ret[..pos] == Encode(str) && ret[pos] == 0
  {
    hide Code, Encode, Digit, Holds;
    ret := new Byte[3 * |str| + 1];
    pos := 0;
    ghost var out: seq<Byte> := [];
    EncodeFrom(str, |str|);
    HoldsNothing(ret);
    assert str[0..] == str;
    for i := 0 to |str|
      invariant pos <= 3 * i && Holds(ret, pos, out)
      invariant out + Encode(str[i..]) == Encode(str)
    {
      var c := str[i];
      CodeOf(c);
      EncodeFrom(str, i);
      Regroup(out, Code(c), Encode(str[i + 1..]));
      if 0x30 <= c <= 0x39 || 0x61 <= c <= 0x7A || 0x41 <= c <= 0x5A {
        PutByte(ret, pos, c, out);
        pos := pos + 1;
      } else {
        PutByte(ret, pos, PERCENT, out);
        PutByte(ret, pos + 1, Digit(c / 16), out + [PERCENT]);
        PutByte(ret, pos + 2, Digit(c % 16), out + [PERCENT] + [Digit(c / 16)]);
        assert out + [PERCENT] + [Digit(c / 16)] + [Digit(c % 16)] == out + [PERCENT, Digit(c / 16), Digit(c % 16)];
        pos := pos + 3;
      }
      out := out + Code(c);
    }
    HoldsIs(ret, pos, out);
    ret[pos] := 0;
  }

  lemma Regroup(a: seq<Byte>, b: seq<Byte>, c: seq<Byte>)
    ensures a + (b + c) == a + b + c
  {
  }

  lemma EncodeFrom(s: seq<Byte>, i: nat)
    requires i <= |s|
    ensures Encode(s[i..]) == if i == |s| then [] else Code(s[i]) + Encode(s[i + 1..])
  {
    if i < |s| {
      assert s[i..][1..] == s[i + 1..];
    }
  }

  lemma CodeOf(c: Byte)
    ensures Code(c) == if Alphanumeric(c) then [c] else [PERCENT, Digit(c / 16), Digit(c % 16)]
  {
  }

  /** urldecode, into a buffer of n + 1 bytes. */
  method UrlDecode(str: seq<Byte>) returns (ret: array<Byte>, pos: nat)
    ensures fresh(ret) && ret.Length == |str| + 1 && pos < ret.Length
    ensures ret[..pos] == Decode(str) && ret[pos] == 0
  {
    hide Decode, DigitValue, Holds;
    ret := new Byte[|str| + 1];
    pos := 0;
    var i := 0;
    ghost var out: seq<Byte> := [];
    assert str[0..] == str;
    DecodeFrom(str, |str|);
    HoldsNothing(ret);
    while i < |str|
      invariant pos <= i <= |str| && Holds(ret, pos, out)
      invariant out + Decode(str[i..]) == Decode(str)
    {
      var c := str[i];
      DecodeFrom(str, i);
      var b;
      if c == PERCENT && i + 2 < |str| {
        b := 16 * DigitValue(str[i + 1]) + DigitValue(str[i + 2]);
        i := i + 3;
      } else {
        b := if c == PLUS then SPACE else c;
        i := i + 1;
      }
      PutByte(ret, pos, b, out);
      Regroup(out, [b], Decode(str[i..]));
      out := out + [b];
      pos := pos + 1;
    }
    HoldsIs(ret, pos, out);
    ret[pos] := 0;
  }

  lemma DecodeFrom(s: seq<Byte>, i: nat)
    requires i <= |s|
    ensures i == |s| ==> Decode(s[i..]) == []
    ensures i < |s| ==>
              Decode(s[i..]) ==
              if s[i] == PERCENT && i + 2 < |s| then
                [16 * DigitValue(s[i + 1]) + DigitValue(s[i + 2])] + Decode(s[i + 3..])
              else
                [if s[i] == PLUS then SPACE else s[i]] + Decode(s[i + 1..])
  {
    hide DigitValue;
    if i < |s| {
      assert s[i..][1..] == s[i + 1..];
      if i + 2 < |s| {
        assert s[i..][3..] == s[i + 3..];
      }
    }
  }
}
