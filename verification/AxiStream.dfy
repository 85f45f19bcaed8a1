/**
 Packets as AXI Stream text: axis_dump writes one line per bus word, axis_load reads the
 packets back. Delay lines are written, and read for their form; what they say about time is not kept.
 */
module AxiStream {
  import opened Net
  import opened Bits

  type Byte = x: nat | x < 256

  /** `tuser` empty: the packet has no such attribute. `delay` is the number of its delay line, if it gets one. */
  datatype Packet = Packet(bytes: seq<Byte>, tuser: seq<nat>, sport: Option<Byte>, dport: Option<Byte>, delay: Option<nat>)

  datatype Loaded = Loaded(bytes: seq<Byte>, tuser: seq<nat>, len: nat, sport: nat, dport: nat)

  datatype Error = UnknownTerminal | FieldCount(n: nat) | BadNumber

  datatype Result<T> = Ok(value: T) | Err(error: Error)

  // ---------------------------------------------------------------- text

  predicate IsSpace(c: char) {
    c == ' ' || '\t' <= c <= '\r'
  }

  function LeftStrip(s: string): string {
    if s != "" && IsSpace(s[0]) then LeftStrip(s[1..]) else s
  }

  function RightStrip(s: string): string {
    if s != "" && IsSpace(s[|s| - 1]) then RightStrip(s[..|s| - 1]) else s
  }

  /** s.strip(). */
  function Strip(s: string): string {
    RightStrip(LeftStrip(s))
  }

  /** The line up to the first `#`. */
  function Uncommented(s: string): string {
    if s == "" || s[0] == '#' then "" else [s[0]] + Uncommented(s[1..])
  }

  /** s.split(','). */
  function Split(s: string): (parts: seq<string>)
    ensures |parts| >= 1
  {
    if s == "" then [""]
    else
      var rest := Split(s[1..]);
      if s[0] == ',' then [""] + rest else [[s[0]] + rest[0]] + rest[1..]
  }

  function Reversed<T>(s: seq<T>): (r: seq<T>)
    ensures |r| == |s|
  {
    if s == [] then [] else Reversed(s[1..]) + [s[0]]
  }

  /** '%02x' % b. */
  function TwoDigits(b: Byte): string {
    RightJust(Hex(b), 2, '0')
  }

  function HexBytes(bs: seq<Byte>): string {
    if bs == [] then "" else TwoDigits(bs[0]) + HexBytes(bs[1..])
  }

  /** as_bytes, for text that is all hexadecimal digits; a last single digit is a byte of its own. */
  function AsBytes(s: string): seq<Byte>
    requires IsHex(s)
  {
    if s == "" then []
    else if |s| == 1 then
      [DigitValue(s[0]).value]
    else
      [16 * DigitValue(s[0]).value + DigitValue(s[1]).value] + AsBytes(s[2..])
  }

  // ---------------------------------------------------------------- dumping

  /** tuser_mask for a TUSER of `digits` hexadecimal digits. */
  function Mask(partial: nat, digits: nat): nat {
    var s := RightJust(Hex(partial), digits, 'f');
    if IsHex(s) then Value(s) else 0
  }

  /** The first TUSER word: length and ports written over what the packet brought. */
  function FirstUser(p: Packet, digits: nat): nat {
    var t0 := if p.tuser == [] then 0 else p.tuser[0];
    var t1 := Or(And(t0, Mask(0xffffff0000, digits)), |p.bytes|);
    var t2 := if p.sport.Some? then Or(And(t1, Mask(0xffff00ffff, digits)), 0x10000 * p.sport.value) else t1;
    if p.dport.Some? then Or(And(t2, Mask(0xff00ffffff, digits)), 0x1000000 * p.dport.value) else t2
  }

  function User(p: Packet, digits: nat): (u: seq<nat>)
    ensures u != []
  {
    if p.tuser == [] then [FirstUser(p, digits)] else p.tuser[0 := FirstUser(p, digits)]
  }

  /** The data word in bus order, its valid-byte strobe, and one word of TUSER. */
  function DataLine(word: seq<Byte>, valid: nat, user: nat, digits: nat, last: bool): string {
    HexBytes(Reversed(word)) + ", "
    + RightJust(Hex(Pow2(valid) - 1), |word| / 4, '0') + ", "
    + RightJust(Hex(user), digits, '0') + (if last then "." else ",")
  }

  function Pad(bs: seq<Byte>, w: nat): (out: seq<Byte>)
    requires |bs| <= w
    ensures |out| == w && out[..|bs|] == bs
  {
    bs + seq(w - |bs|, i => 0)
  }

  /** The lines of the data loop for the bytes still to be written; each turn pushes a 0 and pops one word. */
  function WordLines(bs: seq<Byte>, user: seq<nat>, w: nat, digits: nat): seq<string>
    requires w > 0
  {
    if bs == [] then
      []
    else
      var user' := user + [0];
      if |bs| <= w then
        [DataLine(Pad(bs, w), |bs|, user'[0], digits, true)]
      else
        [DataLine(bs[..w], w, user'[0], digits, false)] + WordLines(bs[w..], user'[1..], w, digits)
  }

  function DelayLines(delay: Option<nat>, first: bool): seq<string> {
    match delay
    case Some(d) => [(if first then "@ " else "+ ") + Dec(d)]
    case None => []
  }

  function PacketLines(p: Packet, first: bool, w: nat, digits: nat): seq<string>
    requires w > 0
  {
    DelayLines(p.delay, first) + WordLines(p.bytes, User(p, digits), w, digits) + [""]
  }

  /** The text of all packets but the first `k`. */
  function Lines(ps: seq<Packet>, k: nat, w: nat, digits: nat): seq<string>
    requires w > 0 && k <= |ps|
    decreases |ps| - k
  {
    if k == |ps| then [] else PacketLines(ps[k], k == 0, w, digits) + Lines(ps, k + 1, w, digits)
  }

  // ---------------------------------------------------------------- loading

  /** `width` is the length of the first data field, which later ones are padded to. */
  datatype Reader = Reader(width: Option<nat>, data: seq<Byte>, user: seq<nat>, packets: seq<Loaded>)

  const START: Reader := Reader(None, [], [], [])

  /** The packet's bytes without the padding of its last word. */
  function Trimmed(data: seq<Byte>, strobe: nat, width: nat): seq<Byte> {
    var valid := Log2(strobe + 1);
    if valid < width / 2 then
      var cut := width / 2 - valid;
      if cut <= |data| then data[..|data| - cut] else []
    else
      data
  }

  function Decoded(data: seq<Byte>, user: seq<nat>): Loaded
    requires user != []
  {
    Loaded(data, user, And(user[0], 0xffff), And(Shift(user[0], 16), 0xff), And(Shift(user[0], 24), 0xff))
  }

  /** A data line; the strobe is only read on the last word of a packet. */
  function LoadWord(r: Reader, line: string): Result<Reader>
    requires line != ""
  {
    var terminal := line[|line| - 1];
    var parts := Split(line[..|line| - 1]);
    if terminal != ',' && terminal != '.' then Err(UnknownTerminal)
    else if |parts| != 3 then Err(FieldCount(|parts|))
    else
      var field, strobe, user := Strip(parts[0]), ParseHex(Strip(parts[1])), ParseHex(Strip(parts[2]));
      var width := if r.width.Some? then r.width.value else |field|;
      var text := RightJust(field, width, '0');
      if width == 0 || !IsHex(text) || user.None? then Err(BadNumber)
      else
        var data, words := r.data + Reversed(AsBytes(text)), r.user + [user.value];
        if terminal == ',' then
          Ok(Reader(Some(width), data, words, r.packets))
        else if strobe.None? then
          Err(BadNumber)
        else
          Ok(Reader(Some(width), [], [], r.packets + [Decoded(Trimmed(data, strobe.value, width), words)]))
  }

  /** int(s) does not raise: digits, perhaps with a sign, perhaps with spaces around. */
  predicate IsInt(s: string) {
    var t := Strip(s);
    var digits := if t != "" && (t[0] == '+' || t[0] == '-') then t[1..] else t;
    digits != "" && IsDecimal(digits)
  }

  function WithoutAts(s: string): string {
    if s != "" && s[0] == '@' then WithoutAts(s[1..]) else s
  }

  function LoadLine(r: Reader, line: string): Result<Reader> {
    var s := Strip(Uncommented(line));
    if s == "" then
      Ok(r)
    else if s[0] == '@' then
      if IsInt(WithoutAts(s)) then Ok(r) else Err(BadNumber)
    else if s[0] == '+' || s[0] == '*' then
      if IsInt(s[1..]) then Ok(r) else Err(BadNumber)
    else
      LoadWord(r, s)
  }

  function LoadLines(r: Reader, lines: seq<string>): Result<Reader>
    decreases |lines|
  {
    if lines == [] then
      Ok(r)
    else
      var step := LoadLine(r, lines[0]);
      if step.Ok? then LoadLines(step.value, lines[1..]) else step
  }

  // ---------------------------------------------------------------- reading text back

  lemma {:induction false} UncommentedAll(s: string)
    requires forall i :: 0 <= i < |s| ==> s[i] != '#'
    ensures Uncommented(s) == s
  {
    if s != "" {
      UncommentedAll(s[1..]);
    }
  }

  /** Text between spaces comes out as it is. */
  lemma StripSolid(s: string)
    requires s != "" && !IsSpace(s[0]) && !IsSpace(s[|s| - 1])
    ensures Strip(s) == s && Strip(" " + s) == s
  {
    assert (" " + s)[1..] == s;
    assert LeftStrip(" " + s) == LeftStrip(s) == s;
  }

  predicate NoComma(s: string) {
    forall i :: 0 <= i < |s| ==> s[i] != ','
  }

  lemma {:induction false} SplitNone(s: string)
    requires NoComma(s)
    ensures Split(s) == [s]
  {
    if s != "" {
      SplitNone(s[1..]);
      assert [s[0]] + s[1..] == s;
    }
  }

  lemma {:induction false} SplitFirst(a: string, b: string)
    requires NoComma(a)
    ensures Split(a + "," + b) == [a] + Split(b)
  {
    var s := a + "," + b;
    if a == "" {
      assert s[0] == ',' && s[1..] == b;
    } else {
      SplitFirst(a[1..], b);
      assert s[1..] == a[1..] + "," + b && s[0] == a[0];
      assert [a[0]] + a[1..] == a;
      assert ([a[1..]] + Split(b))[1..] == Split(b);
    }
  }

  lemma SplitThree(a: string, b: string, c: string)
    requires NoComma(a) && NoComma(b) && NoComma(c)
    ensures Split(a + "," + b + "," + c) == [a, b, c]
  {
    assert a + "," + b + "," + c == a + "," + (b + "," + c);
    SplitFirst(a, b + "," + c);
    SplitFirst(b, c);
    SplitNone(c);
  }

  lemma {:induction false} ReversedAt<T>(s: seq<T>, i: nat)
    requires i < |s|
    ensures Reversed(s)[i] == s[|s| - 1 - i]
  {
    if i < |s| - 1 {
      ReversedAt(s[1..], i);
    }
  }

  lemma ReversedTwice<T>(s: seq<T>)
    ensures Reversed(Reversed(s)) == s
  {
    forall i | 0 <= i < |s| ensures Reversed(Reversed(s))[i] == s[i] {
      ReversedAt(Reversed(s), i);
      ReversedAt(s, |s| - 1 - i);
    }
  }

  lemma TwoDigitsOf(b: Byte)
    ensures TwoDigits(b) == [DIGITS[b / 16], DIGITS[b % 16]]
  {
    if b < 16 {
      assert Hex(b) == [DIGITS[b]] && Repeat('0', 1) == ['0'] && DIGITS[0] == '0';
    } else {
      assert Hex(b / 16) == [DIGITS[b / 16]] && Hex(b) == [DIGITS[b / 16]] + [DIGITS[b % 16]];
    }
  }

  lemma {:induction false} BytesRoundTrip(bs: seq<Byte>)
    ensures |HexBytes(bs)| == 2 * |bs| && IsHex(HexBytes(bs)) && AsBytes(HexBytes(bs)) == bs
  {
    hide TwoDigits, DigitValue;
    if bs != [] {
      var b, rest := bs[0], HexBytes(bs[1..]);
      BytesRoundTrip(bs[1..]);
      TwoDigitsOf(b);
      DigitRoundTrip(b / 16);
      DigitRoundTrip(b % 16);
      assert HexBytes(bs) == [DIGITS[b / 16], DIGITS[b % 16]] + rest;
      assert HexBytes(bs)[2..] == rest;
    }
  }

  /** Hexadecimal digits are not spaces, commas or comment signs. */
  lemma HexIsSolid(s: string)
    requires IsHex(s)
    ensures forall i :: 0 <= i < |s| ==> !IsSpace(s[i]) && s[i] !in ",#@+*"
  {
    forall i | 0 <= i < |s| ensures !IsSpace(s[i]) && s[i] !in ",#@+*" {
      assert DigitValue(s[i]).Some?;
    }
  }

  // ---------------------------------------------------------------- one word

  /** The shape of a data line, whatever its three numbers are. */
  function Triple(a: string, b: string, c: string, last: bool): string {
    a + ", " + b + ", " + c + (if last then "." else ",")
  }

  lemma TripleLoads(r: Reader, a: string, b: string, c: string, last: bool)
    requires IsHex(a) && IsHex(b) && IsHex(c) && a != "" && b != "" && c != ""
    ensures LoadLine(r, Triple(a, b, c, last)) == LoadFields(r, a, b, c, last)
  {
    hide IsHex, Strip, Uncommented, LoadFields, DigitValue, IsSpace;
    var line := Triple(a, b, c, last);
    TripleText(a, b, c, last);
    UncommentedAll(line);
    StripSolid(line);
    TripleParts(a, b, c, last);
    FieldsOf(r, line, a, b, c, last);
  }

  /** A data line has no comment and no space at its ends, and is not a delay line. */
  lemma TripleText(a: string, b: string, c: string, last: bool)
    requires IsHex(a) && IsHex(b) && IsHex(c) && a != "" && b != "" && c != ""
    ensures var line := Triple(a, b, c, last);
            && line != "" && !IsSpace(line[0]) && !IsSpace(line[|line| - 1]) && line[0] !in "@+*"
            && forall i :: 0 <= i < |line| ==> line[i] != '#'
  {
    hide IsHex, IsSpace;
    HexIsSolid(a);
    HexIsSolid(b);
    HexIsSolid(c);
    Spaces();
    assert Triple(a, b, c, last)[0] == a[0];
  }

  /** Its three fields, as splitting and stripping give them. */
  lemma TripleParts(a: string, b: string, c: string, last: bool)
    requires IsHex(a) && IsHex(b) && IsHex(c) && a != "" && b != "" && c != ""
    ensures var line := Triple(a, b, c, last);
            && line != "" && line[|line| - 1] == (if last then '.' else ',')
            && Split(line[..|line| - 1]) == [a, " " + b, " " + c]
            && Strip(a) == a && Strip(" " + b) == b && Strip(" " + c) == c
  {
    hide IsHex, IsSpace, Strip, Split;
    HexIsSolid(a);
    HexIsSolid(b);
    HexIsSolid(c);
    TripleBody(a, b, c, last);
    SplitThree(a, " " + b, " " + c);
    StripSolid(a);
    StripSolid(b);
    StripSolid(c);
  }

  lemma TripleBody(a: string, b: string, c: string, last: bool)
    ensures var line := Triple(a, b, c, last);
            && line[..|line| - 1] == a + "," + (" " + b) + "," + (" " + c)
            && line[|line| - 1] == if last then '.' else ','
  {
    var line, body := Triple(a, b, c, last), a + ", " + b + ", " + c;
    assert line[..|line| - 1] == body;
    assert ", " == "," + " ";
    assert body == a + ("," + " ") + b + ("," + " ") + c;
  }

  lemma Spaces()
    ensures !IsSpace('.') && !IsSpace(',')
  {
  }

  /** What a well-formed data line does to the reader. */
  function LoadFields(r: Reader, a: string, b: string, c: string, last: bool): Result<Reader>
    requires IsHex(a) && IsHex(b) && IsHex(c) && a != "" && b != "" && c != ""
  {
    var width := if r.width.Some? then r.width.value else |a|;
    var text := RightJust(a, width, '0');
    if width == 0 || !IsHex(text) then Err(BadNumber)
    else
      var data, words := r.data + Reversed(AsBytes(text)), r.user + [Value(c)];
      if last then
        Ok(Reader(Some(width), [], [], r.packets + [Decoded(Trimmed(data, Value(b), width), words)]))
      else
        Ok(Reader(Some(width), data, words, r.packets))
  }

  lemma FieldsOf(r: Reader, line: string, a: string, b: string, c: string, last: bool)
    requires IsHex(a) && IsHex(b) && IsHex(c) && a != "" && b != "" && c != "" && line != ""
    requires line[|line| - 1] == if last then '.' else ','
    requires Split(line[..|line| - 1]) == [a, " " + b, " " + c]
    requires Strip(a) == a && Strip(" " + b) == b && Strip(" " + c) == c
    ensures LoadWord(r, line) == LoadFields(r, a, b, c, last)
  {
    hide IsHex, Value, AsBytes, Split, Strip;
  }

  /** A dumped word reads back: its bytes, its TUSER word, and at the end of a packet its valid bytes. */
  lemma WordLoads(r: Reader, word: seq<Byte>, valid: nat, user: nat, digits: nat, last: bool)
    requires 0 < |word| && valid <= |word| && (r.width.None? || r.width == Some(2 * |word|))
    ensures var data, words := r.data + word, r.user + [user];
            LoadLine(r, DataLine(word, valid, user, digits, last)) ==
            Ok(if last then
                 Reader(Some(2 * |word|), [], [],
                        r.packets + [Decoded(data[..|data| - (|word| - valid)], words)])
               else
                 Reader(Some(2 * |word|), data, words, r.packets))
  {
    hide IsHex, Value, AsBytes, HexBytes, Hex, LoadLine, Decoded, Log2, Pow2;
    var a := HexBytes(Reversed(word));
    var b, c := RightJust(Hex(Pow2(valid) - 1), |word| / 4, '0'), RightJust(Hex(user), digits, '0');
    BytesRoundTrip(Reversed(word));
    ReversedTwice(word);
    PaddedHex(Pow2(valid) - 1, |word| / 4);
    PaddedHex(user, digits);
    assert RightJust(a, 2 * |word|, '0') == a;
    assert DataLine(word, valid, user, digits, last) == Triple(a, b, c, last);
    TripleLoads(r, a, b, c, last);
    Log2Pow2(valid);
    var data := r.data + word;
    assert Value(b) == Pow2(valid) - 1 && Value(c) == user;
    assert Trimmed(data, Value(b), 2 * |word|) == data[..|data| - (|word| - valid)];
  }

  // ---------------------------------------------------------------- what a line says

  /** The number whose lowest byte comes first. */
  function LittleEndian(word: seq<Byte>): nat {
    if word == [] then 0 else word[0] + 256 * LittleEndian(word[1..])
  }

  lemma {:induction false} HexBytesConcat(a: seq<Byte>, b: seq<Byte>)
    ensures HexBytes(a + b) == HexBytes(a) + HexBytes(b)
  {
    hide TwoDigits;
    if a == [] {
      assert a + b == b;
    } else {
      assert (a + b)[1..] == a[1..] + b;
      HexBytesConcat(a[1..], b);
      assert TwoDigits(a[0]) + (HexBytes(a[1..]) + HexBytes(b)) == TwoDigits(a[0]) + HexBytes(a[1..]) + HexBytes(b);
    }
  }

  lemma ByteValue(b: Byte)
    ensures IsHex(TwoDigits(b)) && |TwoDigits(b)| == 2 && Value(TwoDigits(b)) == b
  {
    TwoDigitsOf(b);
    DigitRoundTrip(b / 16);
    DigitRoundTrip(b % 16);
    var s := TwoDigits(b);
    assert s[..1] == [s[0]] && s[..1][..0] == "";
    assert Value("") == 0 && Value(s[..1]) == b / 16;
  }

  /** The data field is the word as a little-endian number. */
  lemma {:induction false} WordIsLittleEndian(word: seq<Byte>)
    ensures var a := HexBytes(Reversed(word)); |a| == 2 * |word| && IsHex(a) && Value(a) == LittleEndian(word)
  {
    hide HexBytes, TwoDigits, Value, DigitValue;
    BytesRoundTrip(Reversed(word));
    if word == [] {
      NoBytes();
      NoValue();
    } else {
      var low, rest := word[0], word[1..];
      WordIsLittleEndian(rest);
      HexBytesConcat(Reversed(rest), [low]);
      OneByte(low);
      ByteValue(low);
      ValueConcat(HexBytes(Reversed(rest)), TwoDigits(low));
      assert Pow16(2) == 256 by { assert Pow16(0) == 1 && Pow16(1) == 16; }
    }
  }

  lemma NoBytes()
    ensures HexBytes([]) == ""
  {
  }

  lemma OneByte(b: Byte)
    ensures HexBytes([b]) == TwoDigits(b)
  {
    hide TwoDigits;
    assert [b][1..] == [] && HexBytes([]) == "";
    assert TwoDigits(b) + "" == TwoDigits(b);
  }

  /** Three hexadecimal numbers in lower case: the word, two digits a byte; a one per valid byte; the TUSER word. */
  predicate Written(a: string, b: string, c: string, word: seq<Byte>, valid: nat, user: nat) {
    && IsHex(a) && |a| == 2 * |word| && Value(a) == LittleEndian(word) && LowerCase(a)
    && IsHex(b) && Value(b) == Pow2(valid) - 1 && LowerCase(b)
    && IsHex(c) && Value(c) == user && LowerCase(c)
  }

  /** What a data line says; it ends in a full stop exactly at the end of the packet. */
  lemma LineSays(word: seq<Byte>, valid: nat, user: nat, digits: nat, last: bool)
    requires 0 < |word|
    ensures exists a, b, c ::
              && Written(a, b, c, word, valid, user)
              && DataLine(word, valid, user, digits, last) == a + ", " + b + ", " + c + if last then "." else ","
  {
    hide IsHex, Value, HexBytes, Hex, Pow2, LowerCase;
    var a := HexBytes(Reversed(word));
    var b, c := RightJust(Hex(Pow2(valid) - 1), |word| / 4, '0'), RightJust(Hex(user), digits, '0');
    WordIsLittleEndian(word);
    PaddedHex(Pow2(valid) - 1, |word| / 4);
    PaddedHex(user, digits);
    BytesLower(Reversed(word));
    NumberLower(Pow2(valid) - 1, |word| / 4);
    NumberLower(user, digits);
    assert Written(a, b, c, word, valid, user);
  }

  predicate LowerCase(s: string) {
    forall i :: 0 <= i < |s| ==> '0' <= s[i] <= '9' || 'a' <= s[i] <= 'f'
  }

  lemma DigitLower(d: nat)
    requires d < 16
    ensures LowerCase([DIGITS[d]])
  {
  }

  lemma {:induction false} HexLower(n: nat)
    ensures LowerCase(Hex(n))
  {
    DigitLower(n % 16);
    if n >= 16 {
      HexLower(n / 16);
    }
  }

  lemma NumberLower(n: nat, k: nat)
    ensures LowerCase(RightJust(Hex(n), k, '0'))
  {
    hide Hex;
    HexLower(n);
  }

  lemma {:induction false} BytesLower(bs: seq<Byte>)
    ensures LowerCase(HexBytes(bs))
  {
    hide RightJust;
    if bs != [] {
      NumberLower(bs[0], 2);
      BytesLower(bs[1..]);
    }
  }

  function DecValue(s: string): nat
    requires IsDecimal(s)
  {
    if s == "" then 0 else 10 * DecValue(s[..|s| - 1]) + (s[|s| - 1] - '0') as nat
  }

  lemma {:induction false} DecIsRead(n: nat)
    ensures DecValue(Dec(n)) == n
  {
    hide DecValue;
    DecDigit(n % 10);
    if n < 10 {
      DecSnoc("", DIGITS[n]);
      assert "" + [DIGITS[n]] == Dec(n);
    } else {
      DecIsRead(n / 10);
      DecSnoc(Dec(n / 10), DIGITS[n % 10]);
    }
  }

  lemma DecDigit(d: nat)
    requires d < 10
    ensures '0' <= DIGITS[d] <= '9' && (DIGITS[d] - '0') as nat == d && DecValue("") == 0
  {
  }

  lemma DecSnoc(s: string, c: char)
    requires IsDecimal(s) && '0' <= c <= '9'
    ensures IsDecimal(s + [c]) && DecValue(s + [c]) == 10 * DecValue(s) + (c - '0') as nat
  {
    assert (s + [c])[..|s|] == s;
  }

  /** The word at byte `at`: its bytes, how many of them are real, and whether it is the last. */
  function WordAt(bs: seq<Byte>, user: nat, w: nat, digits: nat, at: nat): string
    requires w > 0 && at < |bs|
  {
    if |bs| - at <= w then DataLine(Pad(bs[at..], w), |bs| - at, user, digits, true)
    else DataLine(bs[at..at + w], w, user, digits, false)
  }

  /** The k-th data line of a packet is the word at k bus widths, with the k-th TUSER word or 0. */
  lemma {:induction false} LineOfWord(bs: seq<Byte>, user: seq<nat>, w: nat, digits: nat, k: nat, at: nat)
    requires w > 0 && at == k * w < |bs|
    ensures var lines := WordLines(bs, user, w, digits);
            && k < |lines| && (|bs| - at <= w <==> k + 1 == |lines|)
            && lines[k] == WordAt(bs, if k < |user| then user[k] else 0, w, digits, at)
    decreases k
  {
    hide DataLine, Pad;
    if k == 0 {
      assert bs[0..] == bs;
    } else {
      var rest, user' := bs[w..], (user + [0])[1..];
      OneLess(k, w);
      LineOfWord(rest, user', w, digits, k - 1, at - w);
      assert (if k - 1 < |user'| then user'[k - 1] else 0) == if k < |user| then user[k] else 0;
      LaterWord(bs, if k < |user| then user[k] else 0, w, digits, at);
    }
  }

  lemma OneLess(k: nat, w: nat)
    requires k > 0
    ensures (k - 1) * w == k * w - w && w <= k * w
  {
  }

  lemma LaterWord(bs: seq<Byte>, user: nat, w: nat, digits: nat, at: nat)
    requires 0 < w <= at < |bs|
    ensures WordAt(bs[w..], user, w, digits, at - w) == WordAt(bs, user, w, digits, at)
  {
    hide DataLine, Pad;
    assert bs[w..][at - w..] == bs[at..];
    assert at + w <= |bs| ==> bs[w..][at - w..at] == bs[at..at + w];
  }

  /** The text of a packet ends in an empty line. */
  lemma PacketEnds(p: Packet, first: bool, w: nat, digits: nat)
    requires w > 0
    ensures var lines := PacketLines(p, first, w, digits);
            && lines[|lines| - 1] == "" && |lines| == 1 + |DelayLines(p.delay, first)| + |WordLines(p.bytes, User(p, digits), w, digits)|
  {
    hide WordLines, User, DelayLines;
  }

  /** A delay line gives the time of the first packet after an at sign, and later delays after a plus. */
  lemma DelaySays(delay: nat, first: bool) returns (t: string)
    ensures DelayLines(Some(delay), first) == [(if first then "@ " else "+ ") + t] && DelayLines(None, first) == []
    ensures IsDecimal(t) && DecValue(t) == delay
  {
    hide Dec;
    t := Dec(delay);
    DecIsRead(delay);
  }

  // ---------------------------------------------------------------- lines that are not dumped ones

  lemma {:induction false} UncommentedFirst(s: string, comment: string)
    requires forall i :: 0 <= i < |s| ==> s[i] != '#'
    ensures Uncommented(s + "#" + comment) == s
  {
    var all := s + "#" + comment;
    if s == "" {
      assert all[0] == '#';
    } else {
      UncommentedFirst(s[1..], comment);
      assert all[0] == s[0] && all[1..] == s[1..] + "#" + comment;
      assert [s[0]] + s[1..] == s;
    }
  }

  /** A line loads as it would without its comment. */
  lemma CommentIsIgnored(r: Reader, line: string, comment: string)
    requires forall i :: 0 <= i < |line| ==> line[i] != '#'
    ensures LoadLine(r, line + "#" + comment) == LoadLine(r, line)
  {
    hide Uncommented, Strip, LoadWord, IsInt;
    UncommentedFirst(line, comment);
    UncommentedAll(line);
  }

  function Commas(s: string): nat {
    if s == "" then 0 else (if s[0] == ',' then 1 else 0) + Commas(s[1..])
  }

  lemma {:induction false} SplitCount(s: string)
    ensures |Split(s)| == 1 + Commas(s)
  {
    if s != "" {
      SplitCount(s[1..]);
    }
  }

  /** A data line that does not end in a comma or a full stop, or has not three fields, is refused. */
  lemma LineRefused(r: Reader, line: string)
    requires line != "" && !IsSpace(line[0]) && !IsSpace(line[|line| - 1]) && line[0] !in "@+*"
    requires forall i :: 0 <= i < |line| ==> line[i] != '#'
    ensures line[|line| - 1] !in ",." ==> LoadLine(r, line) == Err(UnknownTerminal)
    ensures line[|line| - 1] in ",." && Commas(line[..|line| - 1]) != 2 ==>
              LoadLine(r, line) == Err(FieldCount(1 + Commas(line[..|line| - 1])))
  {
    hide Uncommented, Strip, Split, Commas, IsInt, IsSpace;
    UncommentedAll(line);
    StripSolid(line);
    SplitCount(line[..|line| - 1]);
  }

  // ---------------------------------------------------------------- whole packets

  /** Bus words that n > 0 bytes take. */
  function WordCount(n: nat, w: nat): nat
    requires w > 0
  {
    if n <= w then 1 else 1 + WordCount(n - w, w)
  }

  /** The first n words of TUSER, zeros after its end. */
  function UserWords(user: seq<nat>, n: nat): (out: seq<nat>)
    ensures |out| == n
  {
    seq(n, i requires 0 <= i < n => if i < |user| then user[i] else 0)
  }

  lemma LoadCons(r: Reader, line: string, rest: seq<string>)
    ensures var step := LoadLine(r, line);
            LoadLines(r, [line] + rest) == if step.Ok? then LoadLines(step.value, rest) else step
  {
    assert ([line] + rest)[1..] == rest;
  }

  lemma {:induction false} WordsLoad(r: Reader, bs: seq<Byte>, user: seq<nat>, w: nat, digits: nat, rest: seq<string>)
    requires w > 0 && bs != [] && (r.width.None? || r.width == Some(2 * w))
    ensures var words := UserWords(user, WordCount(|bs|, w));
            LoadLines(r, WordLines(bs, user, w, digits) + rest) ==
            LoadLines(Reader(Some(2 * w), [], [], r.packets + [Decoded(r.data + bs, r.user + words)]), rest)
    decreases |bs|
  {
    hide LoadLine, DataLine, LoadLines, Decoded;
    var u0, u1 := (user + [0])[0], (user + [0])[1..];
    if |bs| <= w {
      var data := r.data + Pad(bs, w);
      WordLoads(r, Pad(bs, w), |bs|, u0, digits, true);
      LoadCons(r, DataLine(Pad(bs, w), |bs|, u0, digits, true), rest);
      assert data[..|data| - (w - |bs|)] == r.data + bs;
      assert UserWords(user, 1) == [u0];
    } else {
      var line, more := DataLine(bs[..w], w, u0, digits, false), WordLines(bs[w..], u1, w, digits);
      var mid := Reader(Some(2 * w), r.data + bs[..w], r.user + [u0], r.packets);
      WordLoads(r, bs[..w], w, u0, digits, false);
      LoadCons(r, line, more + rest);
      assert [line] + more + rest == [line] + (more + rest);
      WordsLoad(mid, bs[w..], u1, w, digits, rest);
      var n := WordCount(|bs|, w);
      assert [u0] + UserWords(u1, n - 1) == UserWords(user, n);
      assert r.user + [u0] + UserWords(u1, n - 1) == r.user + UserWords(user, n);
      assert r.data + bs[..w] + bs[w..] == r.data + bs;
    }
  }

  /** A dumped delay line is well formed, and changes nothing but the time. */
  lemma DelaySkipped(r: Reader, delay: Option<nat>, first: bool, rest: seq<string>)
    ensures LoadLines(r, DelayLines(delay, first) + rest) == LoadLines(r, rest)
  {
    hide LoadWord, LoadLines, Dec, Strip, Uncommented, IsInt;
    match delay
    case None =>
      assert DelayLines(delay, first) + rest == rest;
    case Some(d) =>
      var text := Dec(d);
      var line := (if first then "@ " else "+ ") + text;
      assert line[1..] == " " + text && line[0] == (if first then '@' else '+');
      assert line[|line| - 1] == text[|text| - 1];
      UncommentedAll(line);
      DigitsAreSolid(text);
      StripSolid(line);
      AtsStripped(line);
      SpacedInt(text);
      LoadCons(r, line, rest);
  }

  lemma DigitsAreSolid(s: string)
    requires IsDecimal(s)
    ensures forall i :: 0 <= i < |s| ==> !IsSpace(s[i]) && s[i] !in "#@+-"
    ensures !IsSpace('@') && !IsSpace('+')
  {
  }

  lemma AtsStripped(line: string)
    requires |line| > 1 && line[1] != '@'
    ensures line[0] == '@' ==> WithoutAts(line) == line[1..]
  {
  }

  lemma SpacedInt(s: string)
    requires s != "" && IsDecimal(s)
    ensures IsInt(" " + s)
  {
    hide Strip, IsSpace;
    DigitsAreSolid(s);
    StripSolid(s);
  }

  lemma BlankSkipped(r: Reader, rest: seq<string>)
    ensures LoadLines(r, [""] + rest) == LoadLines(r, rest)
  {
    assert Strip(Uncommented("")) == "";
    LoadCons(r, "", rest);
  }

  /** What loading gives for a packet: the same bytes, and the TUSER words that were written for it. */
  function Reloaded(p: Packet, w: nat, digits: nat): Loaded
    requires w > 0
  {
    Decoded(p.bytes, UserWords(User(p, digits), WordCount(|p.bytes|, w)))
  }

  /** All packets from the k-th on; packets without bytes leave no data line. */
  function ReloadedAll(ps: seq<Packet>, k: nat, w: nat, digits: nat): seq<Loaded>
    requires w > 0 && k <= |ps|
    decreases |ps| - k
  {
    if k == |ps| then [] else
      (if ps[k].bytes == [] then [] else [Reloaded(ps[k], w, digits)]) + ReloadedAll(ps, k + 1, w, digits)
  }

  lemma {:induction false} LinesLoad(r: Reader, ps: seq<Packet>, k: nat, w: nat, digits: nat)
    requires w > 0 && k <= |ps| && (r.width.None? || r.width == Some(2 * w)) && r.data == [] && r.user == []
    ensures LoadLines(r, Lines(ps, k, w, digits)).Ok?
    ensures LoadLines(r, Lines(ps, k, w, digits)).value.packets == r.packets + ReloadedAll(ps, k, w, digits)
    decreases |ps| - k
  {
    hide LoadLine, LoadLines, WordLines, DelayLines, Decoded, User, UserWords;
    NothingLoads(r);
    if k < |ps| {
      var p, rest := ps[k], Lines(ps, k + 1, w, digits);
      var delay, words := DelayLines(p.delay, k == 0), WordLines(p.bytes, User(p, digits), w, digits);
      assert Lines(ps, k, w, digits) == delay + (words + ([""] + rest));
      DelaySkipped(r, p.delay, k == 0, words + ([""] + rest));
      var next := if p.bytes == [] then r
                  else Reader(Some(2 * w), [], [], r.packets + [Reloaded(p, w, digits)]);
      if p.bytes == [] {
        NoWords(User(p, digits), w, digits);
        assert words + ([""] + rest) == [""] + rest;
      } else {
        var got := UserWords(User(p, digits), WordCount(|p.bytes|, w));
        WordsLoad(r, p.bytes, User(p, digits), w, digits, [""] + rest);
        assert r.data + p.bytes == p.bytes && r.user + got == got;
      }
      BlankSkipped(next, rest);
      LinesLoad(next, ps, k + 1, w, digits);
    }
  }

  lemma NothingLoads(r: Reader)
    ensures LoadLines(r, []) == Ok(r)
  {
  }

  lemma NoWords(user: seq<nat>, w: nat, digits: nat)
    requires w > 0
    ensures WordLines([], user, w, digits) == []
  {
  }

  // ---------------------------------------------------------------- TUSER fields

  /** Bits lo to lo + k - 1. */
  function Field(x: nat, lo: nat, k: nat): nat {
    Low(Shift(x, lo), k)
  }

  const LENGTH_MASK: nat := 0xffffff0000
  const SPORT_MASK: nat := 0xffff00ffff
  const DPORT_MASK: nat := 0xff00ffffff

  /** The mask is the given ten digits below, ones above: the low 40 bits are as given. */
  lemma MaskFields(partial: nat, digits: nat, lo: nat, k: nat)
    requires |Hex(partial)| == 10 && lo + k <= 40
    ensures Field(Mask(partial, digits), lo, k) == Field(partial, lo, k)
  {
    hide Hex, Value, IsHex, Low, Shift, Repeat;
    HexRoundTrip(partial);
    var m := Mask(partial, digits);
    if digits > 10 {
      var fs := Repeat('f', digits - 10);
      AllFs(digits - 10);
      ValueConcat(fs, Hex(partial));
      Pow16Is(10);
      assert m == partial + Pow2(40) * Value(fs);
      LowOfSum(partial, Value(fs), 40);
    }
    LowTwice(m, lo + k, 40);
    LowTwice(partial, lo + k, 40);
    ShiftLow(m, lo, k);
    ShiftLow(partial, lo, k);
  }

  lemma {:induction false} Pow16Is(k: nat)
    ensures Pow16(k) == Pow2(4 * k)
  {
    if k > 0 {
      Pow16Is(k - 1);
      assert Pow2(4 * k) == 2 * Pow2(4 * k - 1) && Pow2(4 * k - 1) == 2 * Pow2(4 * k - 2);
      assert Pow2(4 * k - 2) == 2 * Pow2(4 * k - 3) && Pow2(4 * k - 3) == 2 * Pow2(4 * k - 4);
    }
  }

  lemma AllFs(k: nat)
    ensures IsHex(Repeat('f', k))
  {
  }

  /** One overwrite, seen through a field. */
  lemma Overwritten(x: nat, partial: nat, digits: nat, v: nat, lo: nat, k: nat)
    requires |Hex(partial)| == 10 && lo + k <= 40
    ensures var out := Field(Or(And(x, Mask(partial, digits)), v), lo, k);
            && (Field(partial, lo, k) == 0 ==> out == Field(v, lo, k))
            && (Field(partial, lo, k) == Ones(k) && Field(v, lo, k) == 0 ==> out == Field(x, lo, k))
  {
    hide And, Or, Low, Shift, Hex, Mask;
    var m := Mask(partial, digits);
    MaskFields(partial, digits, lo, k);
    OrFields(And(x, m), v, lo);
    OrFields(Shift(And(x, m), lo), Shift(v, lo), k);
    AndFields(x, m, lo);
    AndFields(Shift(x, lo), Shift(m, lo), k);
    var f := Field(x, lo, k);
    AndZero(f);
    AndZero(Field(v, lo, k));
    AndOnes(f, k);
    LowTwice(Shift(x, lo), k, k);
  }

  /** Reading a field off a number written in parts. */
  lemma FieldIs(lo: nat, k: nat, below: nat, field: nat, above: nat)
    requires below < Pow2(lo) && field < Pow2(k)
    ensures Field(below + Pow2(lo) * (field + Pow2(k) * above), lo, k) == field
  {
    hide Low, Shift, Pow2;
    ShiftOfSum(below, field + Pow2(k) * above, lo);
    LowOfSum(field, above, k);
    LowSmall(field, k);
  }

  lemma MaskValues()
    ensures Field(LENGTH_MASK, 0, 16) == 0
    ensures Field(LENGTH_MASK, 16, 8) == 0xff && Field(LENGTH_MASK, 24, 8) == 0xff
    ensures Field(SPORT_MASK, 16, 8) == 0
    ensures Field(SPORT_MASK, 0, 16) == 0xffff && Field(SPORT_MASK, 24, 8) == 0xff
    ensures Field(DPORT_MASK, 24, 8) == 0
    ensures Field(DPORT_MASK, 0, 16) == 0xffff && Field(DPORT_MASK, 16, 8) == 0xff
  {
    hide Field, Pow2, Ones;
    Powers();
    FieldIs(0, 16, 0, 0, 0xffffff);
    FieldIs(16, 8, 0, 0xff, 0xffff);
    FieldIs(24, 8, 0xff0000, 0xff, 0xff);
    FieldIs(0, 16, 0, 0xffff, 0xffff00);
    FieldIs(16, 8, 0xffff, 0, 0xffff);
    FieldIs(24, 8, 0x00ffff, 0xff, 0xff);
    FieldIs(0, 16, 0, 0xffff, 0xff00ff);
    FieldIs(16, 8, 0xffff, 0xff, 0xff00);
    FieldIs(24, 8, 0xffffff, 0, 0xff);
  }

  lemma {:induction false} HexLength(n: nat, k: nat)
    requires Pow16(k) <= n < Pow16(k + 1)
    ensures |Hex(n)| == k + 1
  {
    if k > 0 {
      HexLength(n / 16, k - 1);
    }
  }

  lemma MaskLengths()
    ensures |Hex(LENGTH_MASK)| == 10 && |Hex(SPORT_MASK)| == 10 && |Hex(DPORT_MASK)| == 10
  {
    hide Hex;
    assert Pow16(5) == 0x100000;
    assert Pow16(9) == 0x1000000000;
    assert Pow16(10) == 0x10000000000;
    HexLength(LENGTH_MASK, 9);
    HexLength(SPORT_MASK, 9);
    HexLength(DPORT_MASK, 9);
  }

  lemma Powers()
    ensures Pow2(0) == 1 && Pow2(8) == 0x100 && Pow2(16) == 0x10000 && Pow2(24) == 0x1000000
    ensures Ones(16) == 0xffff && Ones(8) == 0xff
  {
    assert Pow2(4) == 16 && Pow2(12) == 0x1000 && Pow2(20) == 0x100000;
    assert Ones(4) == 15 && Ones(12) == 0xfff;
  }

  lemma {:induction false} ZeroFields(k: nat)
    ensures Low(0, k) == 0 && Shift(0, k) == 0
  {
    if k > 0 {
      ZeroFields(k - 1);
    }
  }

  /** Where the three values sit. */
  lemma LengthField(n: nat)
    requires n < 0x10000
    ensures Field(n, 0, 16) == n && Field(n, 16, 8) == 0 && Field(n, 24, 8) == 0
  {
    hide Low, Pow2;
    Powers();
    LowSmall(n, 16);
    LowSmall(n, 24);
    ZeroFields(8);
  }

  lemma SportField(b: Byte)
    ensures Field(0x10000 * b, 0, 16) == 0 && Field(0x10000 * b, 16, 8) == b && Field(0x10000 * b, 24, 8) == 0
  {
    hide Low, Pow2;
    Powers();
    Placed(b, 16);
    LowSmall(b, 8);
    LowSmall(0x10000 * b, 24);
    ZeroFields(8);
  }

  lemma DportField(b: Byte)
    ensures Field(0x1000000 * b, 0, 16) == 0 && Field(0x1000000 * b, 16, 8) == 0 && Field(0x1000000 * b, 24, 8) == b
  {
    hide Low, Shift, Pow2;
    Powers();
    Placed(b, 24);
    LowSmall(b, 8);
    LowTwice(0x1000000 * b, 16, 24);
    ShiftLow(0x1000000 * b, 16, 8);
    ZeroFields(16);
    NoShift(0x1000000 * b);
  }

  lemma NoShift(x: nat)
    ensures Shift(x, 0) == x
  {
  }

  /** Length and given ports are in the first TUSER word; a port that is not given stays what it was. */
  lemma FirstUserFields(p: Packet, digits: nat)
    requires |p.bytes| < 0x10000
    ensures var u, t0 := FirstUser(p, digits), if p.tuser == [] then 0 else p.tuser[0];
            && Field(u, 0, 16) == |p.bytes|
            && Field(u, 16, 8) == (if p.sport.Some? then p.sport.value else Field(t0, 16, 8))
            && Field(u, 24, 8) == (if p.dport.Some? then p.dport.value else Field(t0, 24, 8))
  {
    hide Field, And, Or, Mask, Hex, Ones;
    var t0 := if p.tuser == [] then 0 else p.tuser[0];
    var t1 := Or(And(t0, Mask(LENGTH_MASK, digits)), |p.bytes|);
    MaskValues();
    MaskLengths();
    Powers();
    LengthField(|p.bytes|);
    Overwritten(t0, LENGTH_MASK, digits, |p.bytes|, 0, 16);
    Overwritten(t0, LENGTH_MASK, digits, |p.bytes|, 16, 8);
    Overwritten(t0, LENGTH_MASK, digits, |p.bytes|, 24, 8);
    var t2 := if p.sport.Some? then Or(And(t1, Mask(SPORT_MASK, digits)), 0x10000 * p.sport.value) else t1;
    if p.sport.Some? {
      var v := 0x10000 * p.sport.value;
      SportField(p.sport.value);
      Overwritten(t1, SPORT_MASK, digits, v, 0, 16);
      Overwritten(t1, SPORT_MASK, digits, v, 16, 8);
      Overwritten(t1, SPORT_MASK, digits, v, 24, 8);
    }
    if p.dport.Some? {
      var v := 0x1000000 * p.dport.value;
      DportField(p.dport.value);
      Overwritten(t2, DPORT_MASK, digits, v, 0, 16);
      Overwritten(t2, DPORT_MASK, digits, v, 16, 8);
      Overwritten(t2, DPORT_MASK, digits, v, 24, 8);
    }
  }

  // ---------------------------------------------------------------- the round trip

  /** axis_load reads back what axis_dump wrote, packet by packet. */
  lemma RoundTrip(ps: seq<Packet>, w: nat, digits: nat)
    requires w > 0
    ensures LoadLines(START, Lines(ps, 0, w, digits)).Ok?
    ensures LoadLines(START, Lines(ps, 0, w, digits)).value.packets == ReloadedAll(ps, 0, w, digits)
  {
    LinesLoad(START, ps, 0, w, digits);
  }

  /** The bytes, length and ports of a packet that was read back. */
  lemma ReloadedFields(p: Packet, w: nat, digits: nat)
    requires w > 0 && |p.bytes| < 0x10000
    ensures var out := Reloaded(p, w, digits);
            && out.bytes == p.bytes && out.len == |p.bytes|
            && (p.sport.Some? ==> out.sport == p.sport.value)
            && (p.dport.Some? ==> out.dport == p.dport.value)
            && (forall i :: 0 < i < |out.tuser| ==> out.tuser[i] == if i < |p.tuser| then p.tuser[i] else 0)
  {
    hide FirstUser, And, Low, Shift, Ones;
    var u := FirstUser(p, digits);
    var out := Reloaded(p, w, digits);
    assert out.tuser[0] == u;
    FirstUserFields(p, digits);
    Powers();
    NoShift(u);
    AndOnes(u, 16);
    AndOnes(Shift(u, 16), 8);
    AndOnes(Shift(u, 24), 8);
  }

  /** When every packet has bytes, the k-th one read is the k-th one written. */
  lemma {:induction false} ReloadedInOrder(ps: seq<Packet>, k: nat, w: nat, digits: nat)
    requires w > 0 && k <= |ps| && forall i :: 0 <= i < |ps| ==> ps[i].bytes != []
    ensures |ReloadedAll(ps, k, w, digits)| == |ps| - k
    ensures forall i :: k <= i < |ps| ==> ReloadedAll(ps, k, w, digits)[i - k] == Reloaded(ps[i], w, digits)
    decreases |ps| - k
  {
    hide Reloaded, ReloadedAll;
    ReloadedNext(ps, k, w, digits);
    if k < |ps| {
      ReloadedInOrder(ps, k + 1, w, digits);
      var all, rest := ReloadedAll(ps, k, w, digits), ReloadedAll(ps, k + 1, w, digits);
      forall i | k < i < |ps| ensures all[i - k] == Reloaded(ps[i], w, digits) {
        assert all[i - k] == rest[i - (k + 1)];
      }
    }
  }

  lemma ReloadedNext(ps: seq<Packet>, k: nat, w: nat, digits: nat)
    requires w > 0 && k <= |ps|
    ensures k == |ps| ==> ReloadedAll(ps, k, w, digits) == []
    ensures k < |ps| && ps[k].bytes != [] ==>
              ReloadedAll(ps, k, w, digits) == [Reloaded(ps[k], w, digits)] + ReloadedAll(ps, k + 1, w, digits)
  {
    hide Reloaded;
  }

  // ---------------------------------------------------------------- the code

  /** axis_dump; nothing is written for a bus that is not a whole number of bytes, and a zero width raises. */
  method AxisDump(ps: seq<Packet>, busWidth: nat, tuserWidth: nat) returns (lines: seq<string>, raised: bool)
    ensures busWidth % 8 != 0 ==> lines == [] && !raised
    ensures raised <==> busWidth == 0 && ps != []
    ensures busWidth % 8 == 0 && busWidth > 0 ==> lines == Lines(ps, 0, busWidth / 8, tuserWidth / 4)
  {
    hide PacketLines;
    lines, raised := [], false;
    if busWidth % 8 != 0 {
      return;
    }
    if busWidth == 0 {
      raised := ps != [];
      return;
    }
    var w, digits := busWidth / 8, tuserWidth / 4;
    var k := 0;
    while k < |ps|
      invariant k <= |ps|
      invariant lines + Lines(ps, k, w, digits) == Lines(ps, 0, w, digits)
    {
      var text := DumpPacket(ps[k], k == 0, w, digits);
      lines := lines + text;
      k := k + 1;
    }
  }

  method DumpPacket(p: Packet, first: bool, w: nat, digits: nat) returns (lines: seq<string>)
    requires w > 0
    ensures lines == PacketLines(p, first, w, digits)
  {
    hide DataLine, WordLines, User;
    lines := DelayLines(p.delay, first);
    var user := User(p, digits);
    var i := 0;
    ghost var done: seq<string> := [];
    assert p.bytes[0..] == p.bytes;
    while i < |p.bytes|
      invariant lines == DelayLines(p.delay, first) + done
      invariant done + WordLines(From(p.bytes, i), user, w, digits) == WordLines(p.bytes, User(p, digits), w, digits)
      decreases |p.bytes| - i
    {
      WordLinesFrom(p.bytes, i, user, w, digits);
      var user' := user + [0];
      var left := |p.bytes| - i;
      var line := if left < w
                  then DataLine(Pad(p.bytes[i..], w), left, user'[0], digits, i + w >= |p.bytes|)
                  else DataLine(p.bytes[i..i + w], w, user'[0], digits, i + w >= |p.bytes|);
      ghost var rest := WordLines(From(p.bytes, i + w), user'[1..], w, digits);
      assert done + ([line] + rest) == done + [line] + rest;
      user := user'[1..];
      lines := lines + [line];
      done := done + [line];
      i := i + w;
    }
    NoWords(user, w, digits);
    assert From(p.bytes, i) == [];
    assert done + [] == done;
    assert done == WordLines(p.bytes, User(p, digits), w, digits);
    lines := lines + [""];
  }

  /** The bytes from position i on, none when that is past the end. */
  function From(bs: seq<Byte>, i: nat): seq<Byte> {
    if i <= |bs| then bs[i..] else []
  }

  lemma WordLinesFrom(bs: seq<Byte>, i: nat, user: seq<nat>, w: nat, digits: nat)
    requires w > 0 && i < |bs|
    ensures var user', left := user + [0], |bs| - i;
            var line := if left < w then DataLine(Pad(bs[i..], w), left, user'[0], digits, i + w >= |bs|)
                        else DataLine(bs[i..i + w], w, user'[0], digits, i + w >= |bs|);
            WordLines(From(bs, i), user, w, digits) == [line] + WordLines(From(bs, i + w), user'[1..], w, digits)
  {
    hide DataLine;
    var left := |bs| - i;
    NoWords((user + [0])[1..], w, digits);
    if left == w {
      assert bs[i..i + w] == bs[i..] == Pad(bs[i..], w);
    } else if left > w {
      assert bs[i..][..w] == bs[i..i + w] && bs[i..][w..] == bs[i + w..];
    }
  }

  /** axis_load. */
  method AxisLoad(lines: seq<string>) returns (out: Result<seq<Loaded>>)
    ensures match LoadLines(START, lines)
            case Ok(r) => out == Ok(r.packets)
            case Err(e) => out == Err(e)
  {
    hide LoadLine;
    var r := START;
    for k := 0 to |lines|
      invariant LoadLines(START, lines) == LoadLines(r, lines[k..])
    {
      assert lines[k..][0] == lines[k] && lines[k..][1..] == lines[k + 1..];
      var step := LoadLine(r, lines[k]);
      if step.Err? {
        return Err(step.error);
      }
      r := step.value;
    }
    out := Ok(r.packets);
  }
}
