/**
 Network address translation: table lookup, the rewriting of packets in both directions, and
 the incremental patching of their checksums.
 */
module Nat {
  import opened Checksum

  datatype Proto = Tcp | Udp {

    function Number(): nat {
      if Tcp? then 6 else 17
    }
  }

  /** An address as two words, held like every word as the host reads it. */
  datatype Addr = Addr(hi: Word, lo: Word)

  /** struct nat_ip_port_pair with its cached complements. */
  datatype Pair = Pair(ip: Addr, port: Word, sum: Word, sumIp: Word, sumPort: Word)

  datatype Entry = Entry(outer: Pair, inner: Pair, hits: nat)

  /** `length` is the one the pseudo-header holds; `kind` is the type and code word of an ICMP echo. */
  datatype Body =
    | Segment(proto: Proto, length: nat, sport: Word, dport: Word, sum: Word, rest: seq<Word>)
    | Echo(kind: Word, id: Word, sum: Word, rest: seq<Word>)
    | Foreign

  /** `fixed` are the header words that hold neither an address nor the sum. */
  datatype Packet = Packet(fixed: seq<Word>, ipSum: Word, src: Addr, dst: Addr, body: Body)

  datatype Side = Inner | Outer

  // ---------------------------------------------------------------- the functions

  /** nat_checksum, with its 32-bit unsigned subtraction. */
  function NatChecksum(field: Word, plus: Word, minus: Word): Word {
    var w := field + plus;
    var folded := w / 0x1_0000 + w % 0x1_0000;
    var word := (folded - minus) % 0x1_0000_0000;
    (if word > 0xFFFF then word - 1 else word) % 0x1_0000
  }

  function Words(little: bool, ip: Addr): nat {
    Ntohs(little, ip.hi) + Ntohs(little, ip.lo)
  }

  /** compute_nat_checksums. */
  function WithSums(little: bool, ip: Addr, port: Word): Pair {
    Pair(ip, port,
         Ntohs(little, Complement(FoldCarry(Words(little, ip) + Ntohs(little, port)))),
         Ntohs(little, Complement(FoldCarry(Words(little, ip)))),
         Complement(port))
  }

  predicate Consistent(little: bool, e: Entry) {
    && e.outer == WithSums(little, e.outer.ip, e.outer.port)
    && e.inner == WithSums(little, e.inner.ip, e.inner.port)
  }

  /** get_nat_ip_port_pair. */
  function Key(p: Packet, side: Side): (Addr, Word) {
    var ip := if side == Outer then p.dst else p.src;
    match p.body
    case Segment(_, _, sport, dport, _, _) => (ip, if side == Outer then dport else sport)
    case Echo(_, id, _, _) => (ip, id)
    case Foreign => (Addr(0, 0), 0)
  }

  /** found_nat_table_match. */
  predicate Matches(e: Entry, key: (Addr, Word), side: Side) {
    var pair := if side == Outer then e.outer else e.inner;
    pair.ip == key.0 && pair.port == key.1
  }

  /** An outgoing packet as process_nat_int_packet leaves it. */
  function Outgoing(p: Packet, e: Entry): Packet {
    var body :=
      match p.body
      case Segment(_, _, _, _, sum, _) =>
        p.body.(sport := e.outer.port, sum := NatChecksum(sum, e.outer.sum, e.inner.sum))
      case Echo(_, _, sum, _) =>
        p.body.(id := e.outer.port, sum := NatChecksum(sum, e.outer.sumPort, e.inner.sumPort))
      case Foreign => Foreign;
    p.(src := e.outer.ip, body := body, ipSum := NatChecksum(p.ipSum, e.outer.sumIp, e.inner.sum))
  }

  /** An incoming packet as process_nat_ext_packet leaves it. */
  function Incoming(p: Packet, e: Entry): Packet {
    var body :=
      match p.body
      case Segment(_, _, _, _, sum, _) =>
        p.body.(dport := e.inner.port, sum := NatChecksum(sum, e.inner.sum, e.outer.sum))
      case Echo(_, _, sum, _) =>
        p.body.(id := e.inner.port, sum := NatChecksum(sum, e.inner.sumPort, e.outer.sumPort))
      case Foreign => Foreign;
    p.(dst := e.inner.ip, body := body, ipSum := NatChecksum(p.ipSum, e.inner.sumIp, e.outer.sum))
  }

  // ---------------------------------------------------------------- what receivers check

  /** Everything the transport checksum covers, pseudo-header included. */
  function Total(little: bool, p: Packet): nat {
    match p.body
    case Segment(proto, length, sport, dport, sum, rest) =>
      Words(little, p.src) + Words(little, p.dst) + proto.Number() + length
      + Ntohs(little, sport) + Ntohs(little, dport) + Ntohs(little, sum) + Sum(little, rest)
    case Echo(kind, id, sum, rest) =>
      Ntohs(little, kind) + Ntohs(little, id) + Ntohs(little, sum) + Sum(little, rest)
    case Foreign => 0
  }

  function HeaderTotal(little: bool, p: Packet): nat {
    Sum(little, p.fixed) + Ntohs(little, p.ipSum) + Words(little, p.src) + Words(little, p.dst)
  }

  /** The receiver's full recomputation accepts the transport checksum. */
  predicate Intact(little: bool, p: Packet) {
    Folded(Total(little, p)) == ONES
  }

  predicate HeaderIntact(little: bool, p: Packet) {
    Folded(HeaderTotal(little, p)) == ONES
  }

  // ---------------------------------------------------------------- arithmetic

  /** The carry comes back once, and a borrow costs one more. */
  lemma PatchedValue(field: Word, plus: Word, minus: Word, carry: nat)
    requires carry == (field + plus) / 0x1_0000
    ensures var folded := field + plus - 0xFFFF * carry;
            NatChecksum(field, plus, minus) == if folded >= minus then folded - minus else folded - minus + 0xFFFF
  {
    var w := field + plus;
    assert w / 0x1_0000 + w % 0x1_0000 == w - 0xFFFF * carry && carry <= 1;
  }

  lemma NatChecksumMeaning(field: Word, plus: Word, minus: Word)
    ensures Congruent(NatChecksum(field, plus, minus), field + plus - minus)
  {
    hide NatChecksum, Congruent;
    var carry := (field + plus) / 0x1_0000;
    PatchedValue(field, plus, minus, carry);
    if field + plus - 0xFFFF * carry >= minus {
      Multiple(NatChecksum(field, plus, minus), field + plus - minus, 0 - carry);
    } else {
      Multiple(NatChecksum(field, plus, minus), field + plus - minus, 1 - carry);
    }
  }

  /** Byte order does not matter to sums modulo 65535. */
  lemma OrderIndependent(little: bool, r: Word, a: Word, b: Word, c: Word)
    requires Congruent(r, a + b - c)
    ensures Congruent(Ntohs(little, r), Ntohs(little, a) + Ntohs(little, b) - Ntohs(little, c))
  {
    hide Swap, Congruent;
    if little {
      SwapShift(r);
      SwapShift(a);
      SwapShift(b);
      SwapShift(c);
      var k := Quotient(r, a + b - c);
      var d := r / 0x100 - a / 0x100 - b / 0x100 + c / 0x100;
      assert Swap(r) - (Swap(a) + Swap(b) - Swap(c)) == 0xFFFF * (0x100 * k - d);
      Multiple(Swap(r), Swap(a) + Swap(b) - Swap(c), 0x100 * k - d);
    }
  }

  lemma Multiple(a: int, b: int, k: int)
    requires a - b == 0xFFFF * k
    ensures Congruent(a, b)
  {
  }

  function Quotient(a: int, b: int): (k: int)
    requires Congruent(a, b)
    ensures a - b == 0xFFFF * k
  {
    (a - b) / 0xFFFF
  }

  /** Swapping `inner` words for `outer` ones and patching the field by their complements cancels out. */
  lemma Balance(field: int, patched: int, plus: int, minus: int, outer: int, inner: int, others: int)
    requires Congruent(patched, field + plus - minus)
    requires Congruent(plus, 0 - outer) && Congruent(minus, 0 - inner)
    ensures Congruent(patched + outer + others, field + inner + others)
  {
    hide Congruent;
    var k := Quotient(patched, field + plus - minus) + Quotient(plus, 0 - outer) - Quotient(minus, 0 - inner);
    Multiple(patched + outer + others, field + inner + others, k);
  }

  lemma SwapShift(x: Word)
    ensures Swap(x) == 0x100 * x - 0xFFFF * (x / 0x100)
  {
  }

  /** The patched field, read in network order. */
  lemma Patched(little: bool, field: Word, plus: Word, minus: Word)
    ensures Congruent(Ntohs(little, NatChecksum(field, plus, minus)),
                      Ntohs(little, field) + Ntohs(little, plus) - Ntohs(little, minus))
  {
    hide NatChecksum, Ntohs, Congruent;
    NatChecksumMeaning(field, plus, minus);
    OrderIndependent(little, NatChecksum(field, plus, minus), field, plus, minus);
  }

  lemma WordBound(little: bool, ip: Addr)
    ensures Words(little, ip) <= 2 * 0xFFFF
  {
    hide Ntohs;
  }

  /** The cached sums are the complements of what they stand for. */
  lemma CachedSums(little: bool, ip: Addr, port: Word)
    ensures var pair := WithSums(little, ip, port);
            && Congruent(Ntohs(little, pair.sum), 0 - Words(little, ip) - Ntohs(little, port))
            && Congruent(Ntohs(little, pair.sumIp), 0 - Words(little, ip))
            && Congruent(Ntohs(little, pair.sumPort), 0 - Ntohs(little, port))
  {
    hide Ntohs, FoldCarry, Words;
    WordBound(little, ip);
    Complemented(little, Words(little, ip) + Ntohs(little, port));
    Complemented(little, Words(little, ip));
    ComplementOrder(little, port);
  }

  lemma Complemented(little: bool, s: nat)
    requires s < 0x1_0000_0000
    ensures Congruent(Ntohs(little, Ntohs(little, Complement(FoldCarry(s)))), 0 - s)
  {
    hide Ntohs, FoldCarry;
    FoldCarryMeaning(s);
    NtohsTwice(little, Complement(FoldCarry(s)));
  }

  lemma ComplementOrder(little: bool, x: Word)
    ensures Ntohs(little, Complement(x)) == Complement(Ntohs(little, x))
  {
    var h, l := x / 0x100, x % 0x100;
    assert x == 0x100 * h + l;
    assert Complement(x) == 0x100 * (0xFF - h) + (0xFF - l);
    Bytes(0xFF - h, 0xFF - l);
  }

  lemma SameVerdict(a: nat, b: nat)
    requires Congruent(a, b)
    ensures (Folded(a) == ONES <==> Folded(b) == ONES) <==> (a == 0 <==> b == 0)
  {
    hide Folded;
    FoldedIsOnes(a);
    FoldedIsOnes(b);
    assert a % 0xFFFF == 0 <==> b % 0xFFFF == 0;
  }

  // ---------------------------------------------------------------- translation keeps verdicts

  lemma OutgoingTotal(little: bool, p: Packet, e: Entry)
    requires Matches(e, Key(p, Inner), Inner)
    ensures Consistent(little, e) ==>
              Congruent(Total(little, Outgoing(p, e)), Total(little, p))
  {
    if Consistent(little, e) {
      match p.body
      case Segment(_, _, _, _, _, _) => OutgoingSegment(little, p, e);
      case Echo(_, _, _, _) => OutgoingEcho(little, p, e);
      case Foreign =>
    }
  }

  lemma OutgoingSegment(little: bool, p: Packet, e: Entry)
    requires p.body.Segment? && Matches(e, Key(p, Inner), Inner)
    ensures Consistent(little, e) ==>
              Congruent(Total(little, Outgoing(p, e)), Total(little, p))
  {
    hide Ntohs, NatChecksum, FoldCarry, Words, Sum, Congruent;
    if Consistent(little, e) {
      var b, o, i := p.body, e.outer, e.inner;
      CachedSums(little, o.ip, o.port);
      CachedSums(little, i.ip, i.port);
      Patched(little, b.sum, o.sum, i.sum);
      Balance(Ntohs(little, b.sum), Ntohs(little, NatChecksum(b.sum, o.sum, i.sum)),
              Ntohs(little, o.sum), Ntohs(little, i.sum),
              Words(little, o.ip) + Ntohs(little, o.port), Words(little, i.ip) + Ntohs(little, i.port),
              Words(little, p.dst) + b.proto.Number() + b.length + Ntohs(little, b.dport) + Sum(little, b.rest));
    }
  }

  lemma OutgoingEcho(little: bool, p: Packet, e: Entry)
    requires p.body.Echo? && Matches(e, Key(p, Inner), Inner)
    ensures Consistent(little, e) ==>
              Congruent(Total(little, Outgoing(p, e)), Total(little, p))
  {
    hide Ntohs, NatChecksum, FoldCarry, Words, Sum, Congruent;
    if Consistent(little, e) {
      var b, o, i := p.body, e.outer, e.inner;
      CachedSums(little, o.ip, o.port);
      CachedSums(little, i.ip, i.port);
      Patched(little, b.sum, o.sumPort, i.sumPort);
      Balance(Ntohs(little, b.sum), Ntohs(little, NatChecksum(b.sum, o.sumPort, i.sumPort)),
              Ntohs(little, o.sumPort), Ntohs(little, i.sumPort),
              Ntohs(little, o.port), Ntohs(little, i.port),
              Ntohs(little, b.kind) + Sum(little, b.rest));
    }
  }

  /** The mirror image: an incoming packet is an outgoing one of the reversed entry, seen backwards. */
  function Reflect(p: Packet): Packet {
    p.(src := p.dst, dst := p.src,
       body := if p.body.Segment? then p.body.(sport := p.body.dport, dport := p.body.sport) else p.body)
  }

  function Turned(e: Entry): Entry {
    e.(outer := e.inner, inner := e.outer)
  }

  lemma IncomingIsReflectedOutgoing(little: bool, p: Packet, e: Entry)
    ensures Incoming(p, e) == Reflect(Outgoing(Reflect(p), Turned(e)))
    ensures Total(little, Reflect(p)) == Total(little, p) && HeaderTotal(little, Reflect(p)) == HeaderTotal(little, p)
  {
    hide NatChecksum, Ntohs, Sum, Words;
  }

  /** On the way out a packet gets the outer address and port as its source, and nothing else but sums changes. */
  lemma OutgoingIsFromOuter(p: Packet, e: Entry)
    ensures var out := Outgoing(p, e);
            && out.src == e.outer.ip && out.dst == p.dst && out.fixed == p.fixed
            && (p.body.Segment? ==> out.body.Segment? && out.body.sport == e.outer.port)
            && (p.body.Segment? ==> out.body.(sport := p.body.sport, sum := p.body.sum) == p.body)
            && (p.body.Echo? ==> out.body.Echo? && out.body.id == e.outer.port)
            && (p.body.Echo? ==> out.body.(id := p.body.id, sum := p.body.sum) == p.body)
            && (p.body.Foreign? ==> out.body == p.body)
  {
    hide NatChecksum;
  }

  /** On the way in it gets the inner ones as its destination. */
  lemma IncomingIsToInner(p: Packet, e: Entry)
    ensures var out := Incoming(p, e);
            && out.dst == e.inner.ip && out.src == p.src && out.fixed == p.fixed
            && (p.body.Segment? ==> out.body.Segment? && out.body.dport == e.inner.port)
            && (p.body.Segment? ==> out.body.(dport := p.body.dport, sum := p.body.sum) == p.body)
            && (p.body.Echo? ==> out.body.Echo? && out.body.id == e.inner.port)
            && (p.body.Echo? ==> out.body.(id := p.body.id, sum := p.body.sum) == p.body)
            && (p.body.Foreign? ==> out.body == p.body)
  {
    hide NatChecksum;
  }

  /** A TCP or UDP packet is intact after translation exactly when it was before. */
  lemma OutgoingKeepsVerdict(little: bool, p: Packet, e: Entry)
    requires p.body.Segment? && Matches(e, Key(p, Inner), Inner)
    ensures Consistent(little, e) ==>
              (Intact(little, Outgoing(p, e)) <==> Intact(little, p))
  {
    hide Folded, Ntohs, Sum, Words, NatChecksum, Congruent;
    if Consistent(little, e) {
      OutgoingTotal(little, p, e);
      SameVerdict(Total(little, Outgoing(p, e)), Total(little, p));
    }
  }

  lemma TurnedConsistent(little: bool, p: Packet, e: Entry)
    ensures Consistent(little, Turned(e)) <==> Consistent(little, e)
    ensures !p.body.Foreign? ==> (Matches(Turned(e), Key(Reflect(p), Inner), Inner) <==> Matches(e, Key(p, Outer), Outer))
  {
    hide WithSums;
  }

  lemma IncomingKeepsVerdict(little: bool, p: Packet, e: Entry)
    requires p.body.Segment? && Matches(e, Key(p, Outer), Outer)
    ensures Consistent(little, e) ==>
              (Intact(little, Incoming(p, e)) <==> Intact(little, p))
  {
    hide Total, Consistent, Matches, Key, Folded, Outgoing, Incoming;
    if Consistent(little, e) {
      var out := Outgoing(Reflect(p), Turned(e));
      TurnedConsistent(little, p, e);
      OutgoingKeepsVerdict(little, Reflect(p), Turned(e));
      IncomingIsReflectedOutgoing(little, p, e);
      IncomingIsReflectedOutgoing(little, out, e);
    }
  }

  predicate Zeros(words: seq<Word>) {
    forall i :: 0 <= i < |words| ==> words[i] == 0
  }

  lemma {:induction false} SumOfZeros(little: bool, words: seq<Word>)
    ensures Sum(little, words) == 0 <==> Zeros(words)
  {
    if words != [] {
      SumOfZeros(little, words[..|words| - 1]);
    }
  }

  /** An echo message without any content but identifier and sum: an empty reply numbered zero. */
  predicate Bare(b: Body) {
    b.Echo? && b.kind == 0 && Zeros(b.rest)
  }

  lemma EchoTotalZero(little: bool, p: Packet)
    requires p.body.Echo?
    ensures Total(little, p) == 0 <==> Bare(p.body) && p.body.id == 0 && p.body.sum == 0
  {
    SumOfZeros(little, p.body.rest);
  }

  /** ICMP echo: the verdict survives, unless every word of the message is zero. */
  lemma OutgoingEchoVerdict(little: bool, p: Packet, e: Entry)
    requires p.body.Echo? && Matches(e, Key(p, Inner), Inner) && e.outer.port != 0
    ensures Consistent(little, e) ==>
              ((Intact(little, Outgoing(p, e)) <==> Intact(little, p)) <==> !(Bare(p.body) && p.body.id == 0 && p.body.sum == 0))
  {
    hide Total, Folded, NatChecksum, Congruent, Bare;
    if Consistent(little, e) {
      OutgoingTotal(little, p, e);
      SameVerdict(Total(little, Outgoing(p, e)), Total(little, p));
      EchoTotalZero(little, p);
      EchoTotalZero(little, Outgoing(p, e));
    }
  }

  /** On the way in, unless the message would come out all zero. */
  lemma IncomingEchoVerdict(little: bool, p: Packet, e: Entry)
    requires p.body.Echo? && Matches(e, Key(p, Outer), Outer) && e.outer.port != 0
    ensures Consistent(little, e) ==>
              ((Intact(little, Incoming(p, e)) <==> Intact(little, p)) <==>
               !(Bare(p.body) && e.inner.port == 0 && p.body.sum != 0 && p.body.sum == Complement(p.body.id)))
  {
    hide Total, Folded, NatChecksum, Congruent, Ntohs, FoldCarry;
    if Consistent(little, e) {
      TurnedConsistent(little, p, e);
      OutgoingTotal(little, Reflect(p), Turned(e));
      IncomingIsReflectedOutgoing(little, p, e);
      IncomingIsReflectedOutgoing(little, Outgoing(Reflect(p), Turned(e)), e);
      SameVerdict(Total(little, Incoming(p, e)), Total(little, p));
      EchoTotalZero(little, p);
      EchoTotalZero(little, Incoming(p, e));
      PatchToZero(p.body.sum, p.body.id);
    }
  }

  lemma PatchToZero(sum: Word, id: Word)
    requires id != 0
    ensures NatChecksum(sum, Complement(0), Complement(id)) == 0 <==> sum != 0 && sum == Complement(id)
  {
  }

  /** So it happens: an all-zero echo reply, which no receiver accepts, goes out acceptable. */
  lemma ZeroEchoIsRepaired(little: bool, p: Packet, e: Entry)
    requires p.body == Echo(0, 0, 0, []) && e.outer.port != 0
    requires p.src == e.inner.ip && e.inner.port == 0
    ensures Consistent(little, e) ==>
              !Intact(little, p) && Intact(little, Outgoing(p, e))
  {
    hide Folded, NatChecksum, FoldCarry, WithSums, Ntohs;
    if Consistent(little, e) {
      OutgoingEchoVerdict(little, p, e);
      EchoTotalZero(little, p);
      FoldedIsOnes(Total(little, p));
    }
  }

  // ---------------------------------------------------------------- the header sum

  /** The header patch takes the port out of a sum that never held it. */
  lemma OutgoingHeaderTotal(little: bool, p: Packet, e: Entry)
    requires p.src == e.inner.ip
    ensures Consistent(little, e) ==>
              Congruent(HeaderTotal(little, Outgoing(p, e)), HeaderTotal(little, p) + Ntohs(little, e.inner.port))
  {
    hide Ntohs, NatChecksum, FoldCarry, Words, Sum, Congruent;
    if Consistent(little, e) {
      var o, i := e.outer, e.inner;
      CachedSums(little, o.ip, o.port);
      CachedSums(little, i.ip, i.port);
      Patched(little, p.ipSum, o.sumIp, i.sum);
      Balance(Ntohs(little, p.ipSum), Ntohs(little, NatChecksum(p.ipSum, o.sumIp, i.sum)),
              Ntohs(little, o.sumIp), Ntohs(little, i.sum),
              Words(little, o.ip), Words(little, i.ip) + Ntohs(little, i.port),
              Words(little, p.dst) + Sum(little, p.fixed));
    }
  }

  /** So an intact header stays intact only when the inner port is a one's-complement zero. */
  lemma OutgoingHeaderVerdict(little: bool, p: Packet, e: Entry)
    requires p.src == e.inner.ip && Sum(little, p.fixed) > 0 && HeaderIntact(little, p)
    ensures Consistent(little, e) ==>
              (HeaderIntact(little, Outgoing(p, e)) <==> e.inner.port == 0 || e.inner.port == ONES)
  {
    hide Folded, NatChecksum, FoldCarry, Words, Sum, Congruent, Ntohs;
    if Consistent(little, e) {
      OutgoingHeaderTotal(little, p, e);
      FoldedIsOnes(HeaderTotal(little, p));
      FoldedIsOnes(HeaderTotal(little, Outgoing(p, e)));
      Shifted(HeaderTotal(little, Outgoing(p, e)), HeaderTotal(little, p), Ntohs(little, e.inner.port));
      PortZero(little, e.inner.port);
    }
  }

  lemma Shifted(after: nat, before: nat, shift: nat)
    requires Congruent(after, before + shift) && before % 0xFFFF == 0
    ensures after % 0xFFFF == 0 <==> shift % 0xFFFF == 0
  {
  }

  lemma PortZero(little: bool, port: Word)
    ensures Ntohs(little, port) % 0xFFFF == 0 <==> port == 0 || port == ONES
  {
  }

  /** So it happens: a web server's good header leaves with a bad sum. */
  lemma HeaderPatchBreaks()
    ensures var e := Entry(WithSums(false, Addr(0x0102, 0x0304), 5000), WithSums(false, Addr(0x0A00, 0x0001), 80), 0);
            var p := Packet([0x4500, 0x0028, 0, 0, 0x4006], 0x60C0, Addr(0x0A00, 0x0001), Addr(0x0808, 0x0808),
                            Segment(Tcp, 20, 80, 80, 0, []));
            Matches(e, Key(p, Inner), Inner) && HeaderIntact(false, p) && !HeaderIntact(false, Outgoing(p, e))
  {
    hide Folded, NatChecksum, WithSums;
    var e := Entry(WithSums(false, Addr(0x0102, 0x0304), 5000), WithSums(false, Addr(0x0A00, 0x0001), 80), 0);
    var p := Packet([0x4500, 0x0028, 0, 0, 0x4006], 0x60C0, Addr(0x0A00, 0x0001), Addr(0x0808, 0x0808),
                    Segment(Tcp, 20, 80, 80, 0, []));
    SumsAreConsistent(false, Addr(0x0102, 0x0304), 5000, Addr(0x0A00, 0x0001), 80);
    FiveWords(0x4500, 0x0028, 0, 0, 0x4006);
    assert HeaderTotal(false, p) == 0xFFFF;
    FoldedIsOnes(HeaderTotal(false, p));
    OutgoingHeaderVerdict(false, p, e);
  }

  lemma FiveWords(a: Word, b: Word, c: Word, d: Word, e: Word)
    ensures Sum(false, [a, b, c, d, e]) == a + b + c + d + e
  {
    hide Sum;
    NoWords();
    SumSnoc([], a);
    SumSnoc([a], b);
    SumSnoc([a, b], c);
    SumSnoc([a, b, c], d);
    SumSnoc([a, b, c, d], e);
    assert [] + [a] == [a] && [a] + [b] == [a, b] && [a, b] + [c] == [a, b, c];
    assert [a, b, c] + [d] == [a, b, c, d] && [a, b, c, d] + [e] == [a, b, c, d, e];
  }

  lemma NoWords()
    ensures Sum(false, []) == 0
  {
  }

  lemma SumSnoc(words: seq<Word>, w: Word)
    ensures Sum(false, words + [w]) == Sum(false, words) + w
  {
    assert (words + [w])[..|words|] == words;
  }

  lemma SumsAreConsistent(little: bool, outer: Addr, outerPort: Word, inner: Addr, innerPort: Word)
    ensures var e := Entry(WithSums(little, outer, outerPort), WithSums(little, inner, innerPort), 0);
            Consistent(little, e) && e.inner.ip == inner && e.inner.port == innerPort
  {
    hide FoldCarry;
  }

  lemma IncomingHeaderVerdict(little: bool, p: Packet, e: Entry)
    requires p.dst == e.outer.ip && Sum(little, p.fixed) > 0 && HeaderIntact(little, p)
    ensures Consistent(little, e) ==>
              (HeaderIntact(little, Incoming(p, e)) <==> e.outer.port == 0 || e.outer.port == ONES)
  {
    hide HeaderTotal, Consistent, Folded, Outgoing, Incoming, Sum;
    if Consistent(little, e) {
      var out := Outgoing(Reflect(p), Turned(e));
      TurnedConsistent(little, p, e);
      IncomingIsReflectedOutgoing(little, p, e);
      IncomingIsReflectedOutgoing(little, out, e);
      OutgoingHeaderVerdict(little, Reflect(p), Turned(e));
    }
  }

  // ---------------------------------------------------------------- there and back

  /** Equal, up to the two representations of zero. */
  predicate SameSum(a: Word, b: Word) {
    a == b || (a == 0 && b == ONES) || (a == ONES && b == 0)
  }

  function FieldOf(b: Body): Word {
    match b
    case Segment(_, _, _, _, sum, _) => sum
    case Echo(_, _, sum, _) => sum
    case Foreign => 0
  }

  function WithField(b: Body, sum: Word): Body {
    match b
    case Segment(proto, length, sport, dport, _, rest) => Segment(proto, length, sport, dport, sum, rest)
    case Echo(kind, id, _, rest) => Echo(kind, id, sum, rest)
    case Foreign => Foreign
  }

  lemma UndoPatch(sum: Word, a: Word, b: Word)
    ensures SameSum(NatChecksum(NatChecksum(sum, a, b), b, a), sum)
  {
    hide NatChecksum, Congruent, Quotient, SameSum;
    var mid := NatChecksum(sum, a, b);
    NatChecksumMeaning(sum, a, b);
    NatChecksumMeaning(mid, b, a);
    var k := Quotient(mid, sum + a - b) + Quotient(NatChecksum(mid, b, a), mid + b - a);
    WordsApart(NatChecksum(mid, b, a), sum, k);
  }

  lemma WordsApart(a: Word, b: Word, k: int)
    requires a - b == 0xFFFF * k
    ensures SameSum(a, b)
  {
    assert -1 <= k <= 1;
  }

  /**
   A packet sent out and answered in kind comes back to the sender's address and port with the
   checksum it left with.
   */
  lemma OutThenBack(p: Packet, e: Entry)
    requires !p.body.Foreign? && Matches(e, Key(p, Inner), Inner)
    ensures var answer := Reflect(Outgoing(p, e));
            var back := Incoming(answer, e);
            && Matches(e, Key(answer, Outer), Outer)
            && back.(ipSum := p.ipSum, body := WithField(back.body, FieldOf(p.body))) == Reflect(p)
            && SameSum(FieldOf(back.body), FieldOf(p.body))
  {
    hide NatChecksum, SameSum;
    UndoPatch(FieldOf(p.body), e.outer.sum, e.inner.sum);
    UndoPatch(FieldOf(p.body), e.outer.sumPort, e.inner.sumPort);
  }

  // ---------------------------------------------------------------- the code

  /** A packet buffer, rewritten in place. */
  class Datagram {
    const fixed: seq<Word>
    var ipSum: Word
    var src: Addr
    var dst: Addr
    var body: Body

    constructor (p: Packet)
      ensures View() == p
    {
      fixed, ipSum, src, dst, body := p.fixed, p.ipSum, p.src, p.dst, p.body;
    }

    function View(): Packet
      reads this
    {
      Packet(fixed, ipSum, src, dst, body)
    }
  }

  /** Between two tables: entry `k`, possibly new, counted one more hit; the others are as before. */
  predicate Used(before: seq<Entry>, after: seq<Entry>, k: nat) {
    && |before| <= |after| && k < |after| && (|after| > |before| ==> k == |before| == |after| - 1)
    && (forall j :: 0 <= j < |before| ==> after[j] == if j == k then before[j].(hits := before[j].hits + 1) else before[j])
    && (k == |before| ==> after[k].hits == 1)
  }

  class Translator {
    const little: bool
    var table: seq<Entry>

    constructor (little: bool)
      ensures Valid() && table == [] && this.little == little
    {
      this.little := little;
      table := [];
    }

    /** Every entry carries the right sums, and no external port is zero. */
    ghost predicate Valid()
      reads this
    {
      forall i :: 0 <= i < |table| ==> Consistent(little, table[i]) && table[i].outer.port != 0
    }

    /** get_nat_table_entry: the position of the first match, or the length of the table. */
    method GetEntry(p: Packet, side: Side) returns (k: nat)
      ensures k <= |table| && (k < |table| ==> Matches(table[k], Key(p, side), side))
      ensures forall j :: 0 <= j < k ==> !Matches(table[j], Key(p, side), side)
    {
      k := 0;
      var key := Key(p, side);
      while k < |table| && !Matches(table[k], key, side)
        invariant k <= |table|
        invariant forall j :: 0 <= j < k ==> !Matches(table[j], key, side)
      {
        k := k + 1;
      }
    }

    /** create_nat_table_entry; `port` is the random port it settled on, in host order. */
    method CreateEntry(p: Packet, ip: Addr, port: Word)
      requires Valid() && port > 1024
      modifies this
      ensures Valid() && |table| == |old(table)| + 1 && table[..|old(table)|] == old(table)
      ensures Matches(table[|old(table)|], Key(p, Inner), Inner)
      ensures Matches(table[|old(table)|], (ip, Ntohs(little, port)), Outer) && table[|old(table)|].hits == 0
    {
      hide FoldCarry;
      PortOrder(little, port);
      var key := Key(p, Inner);
      table := table + [Entry(WithSums(little, ip, Ntohs(little, port)), WithSums(little, key.0, key.1), 0)];
    }

    /** process_nat_int_packet; a protocol without ports makes the code dereference a null entry. */
    method ProcessInner(d: Datagram, ip: Addr, port: Word) returns (survives: bool, k: nat)
      requires Valid() && port > 1024
      modifies this, d
      ensures Valid() && (survives <==> !old(d.body).Foreign?)
      ensures !survives ==> table == old(table) && d.View() == old(d.View())
      ensures survives ==>
                && k < |table| && Matches(table[k], Key(old(d.View()), Inner), Inner)
                && d.View() == Outgoing(old(d.View()), table[k])
                && (forall j :: 0 <= j < k ==> !Matches(table[j], Key(old(d.View()), Inner), Inner))
                && Used(old(table), table, k)
      ensures d.body.Segment? ==> (Intact(little, d.View()) <==> Intact(little, old(d.View())))
    {
      hide Intact, Consistent, NatChecksum;
      if d.body.Foreign? {
        return false, 0;
      }
      ghost var before := d.View();
      k := GetEntry(d.View(), Inner);
      if k == |table| {
        CreateEntry(d.View(), ip, port);
      }
      var e := table[k];
      d.src := e.outer.ip;
      d.ipSum := NatChecksum(d.ipSum, e.outer.sumIp, e.inner.sum);
      match d.body {
        case Segment(proto, length, _, dport, sum, rest) =>
          d.body := Segment(proto, length, e.outer.port, dport, NatChecksum(sum, e.outer.sum, e.inner.sum), rest);
        case Echo(kind, _, sum, rest) =>
          d.body := Echo(kind, e.outer.port, NatChecksum(sum, e.outer.sumPort, e.inner.sumPort), rest);
      }
      HitKeeps(little, e);
      table := table[k := e.(hits := e.hits + 1)];
      assert d.View() == Outgoing(before, table[k]);
      if d.body.Segment? {
        OutgoingKeepsVerdict(little, before, e);
      }
      survives := true;
    }

    /** process_nat_ext_packet: packets without an entry pass untouched. */
    method ProcessOuter(d: Datagram) returns (found: bool, k: nat)
      requires Valid()
      modifies this, d
      ensures Valid() && |table| == |old(table)|
      ensures found <==> exists j :: 0 <= j < |old(table)| && Matches(old(table)[j], Key(old(d.View()), Outer), Outer)
      ensures !found ==> table == old(table) && d.View() == old(d.View())
      ensures found ==>
                && k < |table| && Matches(table[k], Key(old(d.View()), Outer), Outer)
                && d.View() == Incoming(old(d.View()), table[k])
                && (forall j :: 0 <= j < k ==> !Matches(table[j], Key(old(d.View()), Outer), Outer))
                && Used(old(table), table, k)
      ensures d.body.Segment? ==> (Intact(little, d.View()) <==> Intact(little, old(d.View())))
    {
      hide Intact, Consistent, NatChecksum;
      ghost var before := d.View();
      k := GetEntry(d.View(), Outer);
      found := k < |table|;
      if found {
        var e := table[k];
        d.dst := e.inner.ip;
        d.ipSum := NatChecksum(d.ipSum, e.inner.sumIp, e.outer.sum);
        match d.body {
          case Segment(proto, length, sport, _, sum, rest) =>
            d.body := Segment(proto, length, sport, e.inner.port, NatChecksum(sum, e.inner.sum, e.outer.sum), rest);
          case Echo(kind, _, sum, rest) =>
            d.body := Echo(kind, e.inner.port, NatChecksum(sum, e.inner.sumPort, e.outer.sumPort), rest);
          case Foreign =>
        }
        HitKeeps(little, e);
        table := table[k := e.(hits := e.hits + 1)];
        assert d.View() == Incoming(before, table[k]);
        if d.body.Segment? {
          IncomingKeepsVerdict(little, before, e);
        }
      }
    }
  }

  lemma HitKeeps(little: bool, e: Entry)
    ensures Consistent(little, e.(hits := e.hits + 1)) <==> Consistent(little, e)
  {
  }

  lemma PortOrder(little: bool, port: Word)
    requires port > 1024
    ensures Ntohs(little, port) != 0
  {
  }
}
