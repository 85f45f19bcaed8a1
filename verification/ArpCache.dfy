/**
 The ARP cache and its copy in the CAM: static entries first, then dynamic ones, 32 rows.
 */
module ArpCache {
  import opened Net

  const CAM_ROWS: nat := 32

  type Mac = x: nat | x < 0x1_0000_0000_0000

  /** struct arp_cache_entry; `stamp` is the time of the last update, 0 for static entries. */
  datatype Entry = Entry(ip: Ip, mac: Mac, stamp: int, isStatic: bool)

  /** A CAM row; address 0 marks an empty one. */
  datatype Row = Row(ip: Ip, mac: Mac)

  const EMPTY_ROW: Row := Row(0, 0)

  predicate UniqueIps(cache: seq<Entry>) {
    forall i, j :: 0 <= i < j < |cache| ==> cache[i].ip != cache[j].ip
  }

  /** Position of the entry for `ip`, or the length of the list (in_arp_cache). */
  function Find(cache: seq<Entry>, ip: Ip): (k: nat)
    ensures k <= |cache|
    ensures k < |cache| ==> cache[k].ip == ip
    ensures forall j :: 0 <= j < k ==> cache[j].ip != ip
  {
    if cache == [] || cache[0].ip == ip then 0 else 1 + Find(cache[1..], ip)
  }

  function Updated(cache: seq<Entry>, ip: Ip, mac: Mac, isStatic: bool, now: int): (out: seq<Entry>)
    ensures UniqueIps(cache) ==> UniqueIps(out)
  {
    var k, e := Find(cache, ip), Entry(ip, mac, if isStatic then 0 else now, isStatic);
    if k < |cache| then cache[k := e] else cache + [e]
  }

  /** After an update the address resolves to the new hardware address, and no other changes. */
  lemma UpdatedResolves(cache: seq<Entry>, ip: Ip, mac: Mac, isStatic: bool, now: int, x: Ip)
    ensures var out := Updated(cache, ip, mac, isStatic, now);
            var k := Find(out, x);
            && (x == ip ==> k < |out| && out[k].mac == mac && out[k].isStatic == isStatic)
            && (x == ip && !isStatic ==> out[k].stamp == now)
            && (x != ip ==> (k < |out| <==> Find(cache, x) < |cache|))
            && (x != ip && k < |out| ==> out[k] == cache[Find(cache, x)])
  {
    hide UniqueIps, Find;
    var out := Updated(cache, ip, mac, isStatic, now);
    var i := Find(cache, ip);
    var e := Entry(ip, mac, if isStatic then 0 else now, isStatic);
    assert i < |out| && out[i] == e;
    if i < |cache| {
      ReplacedFinds(cache, i, e, x);
    } else {
      AppendedFinds(cache, e, x);
    }
  }

  lemma ReplacedFinds(cache: seq<Entry>, i: nat, e: Entry, x: Ip)
    requires i < |cache| && i == Find(cache, e.ip)
    ensures Find(cache[i := e], x) == Find(cache, x)
  {
    hide Find;
    assert forall j :: 0 <= j < |cache| ==> cache[i := e][j].ip == cache[j].ip;
    var k, j := Find(cache[i := e], x), Find(cache, x);
    assert j < |cache| ==> cache[i := e][j].ip == x;
  }

  lemma AppendedFinds(cache: seq<Entry>, e: Entry, x: Ip)
    requires Find(cache, e.ip) == |cache|
    ensures Find(cache + [e], x) ==
            if Find(cache, x) < |cache| then Find(cache, x) else if x == e.ip then |cache| else |cache| + 1
  {
    hide Find;
    var out, j := cache + [e], Find(cache, x);
    assert out[|cache|] == e;
    assert j < |cache| ==> out[j] == cache[j];
  }

  predicate Fresh(e: Entry, now: int, ttl: nat) {
    e.isStatic || now - e.stamp <= ttl
  }

  /** The entries expire_arp_cache keeps. */
  function Kept(cache: seq<Entry>, now: int, ttl: nat): seq<Entry> {
    if cache == [] then
      []
    else
      Kept(cache[..|cache| - 1], now, ttl) + if Fresh(cache[|cache| - 1], now, ttl) then [cache[|cache| - 1]] else []
  }

  lemma {:induction false} KeptMembers(cache: seq<Entry>, now: int, ttl: nat)
    ensures forall e :: e in Kept(cache, now, ttl) <==> e in cache && (e.isStatic || now - e.stamp <= ttl)
    ensures UniqueIps(cache) ==> UniqueIps(Kept(cache, now, ttl))
    ensures |Kept(cache, now, ttl)| <= |cache|
  {
    if cache != [] {
      var init, last := cache[..|cache| - 1], cache[|cache| - 1];
      KeptMembers(init, now, ttl);
      assert cache == init + [last];
      if UniqueIps(cache) {
        assert forall e :: e in init ==> e.ip != last.ip;
        UniqueAppend(Kept(init, now, ttl), last);
      }
    }
  }

  lemma UniqueAppend(cache: seq<Entry>, e: Entry)
    requires UniqueIps(cache) && forall x :: x in cache ==> x.ip != e.ip
    ensures UniqueIps(cache + [e]) && UniqueIps(cache + [])
  {
    assert cache + [] == cache;
  }

  /** What was learned from a reply resolves until its time is up; what was set by hand, for good. */
  lemma LearnedUntil(cache: seq<Entry>, ip: Ip, mac: Mac, isStatic: bool, then_: int, now: int, ttl: nat)
    requires UniqueIps(cache)
    ensures var out := Kept(Updated(cache, ip, mac, isStatic, then_), now, ttl);
            var k := Find(out, ip);
            && (k < |out| <==> isStatic || now - then_ <= ttl)
            && (k < |out| ==> out[k].mac == mac)
  {
    hide Updated, Kept, Find;
    var was := Updated(cache, ip, mac, isStatic, then_);
    var out := Kept(was, now, ttl);
    UpdatedResolves(cache, ip, mac, isStatic, then_, ip);
    var e := was[Find(was, ip)];
    KeptMembers(was, now, ttl);
    UniqueUpdate(cache, ip, mac, isStatic, then_);
    OnlyEntry(was, e);
    assert e in was;
    var k := Find(out, ip);
    if k < |out| {
      assert out[k] in out;
    }
  }

  lemma UniqueUpdate(cache: seq<Entry>, ip: Ip, mac: Mac, isStatic: bool, now: int)
    requires UniqueIps(cache)
    ensures UniqueIps(Updated(cache, ip, mac, isStatic, now))
  {
  }

  lemma OnlyEntry(cache: seq<Entry>, e: Entry)
    requires UniqueIps(cache) && e in cache
    ensures forall x :: x in cache && x.ip == e.ip ==> x == e
  {
  }

  // ---------------------------------------------------------------- the CAM

  function Statics(cache: seq<Entry>): (out: seq<Entry>)
    ensures forall e :: e in out <==> e in cache && e.isStatic
  {
    if cache == [] then [] else (if cache[0].isStatic then [cache[0]] else []) + Statics(cache[1..])
  }

  function Dynamics(cache: seq<Entry>): (out: seq<Entry>)
    ensures forall e :: e in out <==> e in cache && !e.isStatic
  {
    if cache == [] then [] else (if cache[0].isStatic then [] else [cache[0]]) + Dynamics(cache[1..])
  }

  /** The order in which entries are written. */
  function Ordered(cache: seq<Entry>): seq<Entry> {
    Statics(cache) + Dynamics(cache)
  }

  function RowOf(e: Entry): Row {
    Row(e.ip, e.mac)
  }

  function Image(cache: seq<Entry>): (rows: seq<Row>)
    ensures |rows| == CAM_ROWS
  {
    var es := Ordered(cache);
    seq(CAM_ROWS, i requires 0 <= i < CAM_ROWS => if i < |es| then RowOf(es[i]) else EMPTY_ROW)
  }

  lemma {:induction false} OrderedLength(cache: seq<Entry>)
    ensures |Statics(cache)| + |Dynamics(cache)| == |cache|
  {
    if cache != [] {
      OrderedLength(cache[1..]);
    }
  }

  /** A row never names a hardware address the cache does not have for that address. */
  lemma CamAgrees(cache: seq<Entry>, i: nat)
    requires UniqueIps(cache) && i < CAM_ROWS && Image(cache)[i].ip != 0
    ensures var k := Find(cache, Image(cache)[i].ip);
            k < |cache| && cache[k].mac == Image(cache)[i].mac
  {
    var es := Ordered(cache);
    var e := es[i];
    assert e in es && e in cache;
    var j :| 0 <= j < |cache| && cache[j] == e;
  }

  /** With at most 32 entries every cached address has its row. */
  lemma CamIsComplete(cache: seq<Entry>, e: Entry)
    requires e in cache && |cache| <= CAM_ROWS
    ensures exists i :: 0 <= i < CAM_ROWS && Image(cache)[i] == Row(e.ip, e.mac)
  {
    OrderedLength(cache);
    var es := Ordered(cache);
    assert e in es;
    var i :| 0 <= i < |es| && es[i] == e;
    assert Image(cache)[i] == RowOf(e);
  }

  /** Static entries fill the first rows, whatever else is cached; dynamic ones get what is left. */
  lemma StaticsComeFirst(cache: seq<Entry>, i: nat)
    requires i < CAM_ROWS
    ensures i < |Statics(cache)| ==> Image(cache)[i] == Row(Statics(cache)[i].ip, Statics(cache)[i].mac)
    ensures |Statics(cache)| <= i < |cache| ==>
              var j := i - |Statics(cache)|;
              j < |Dynamics(cache)| && Image(cache)[i] == Row(Dynamics(cache)[j].ip, Dynamics(cache)[j].mac)
    ensures |cache| <= i ==> Image(cache)[i] == Row(0, 0)
  {
    hide Statics, Dynamics;
    OrderedLength(cache);
  }

  // ---------------------------------------------------------------- the code

  class Cache {
    var entries: seq<Entry>
    const rows: array<Row>
    const isNetfpga: bool

    ghost predicate Synced()
      reads this, rows
    {
      rows.Length == CAM_ROWS && UniqueIps(entries) && (isNetfpga ==> rows[..] == Image(entries))
    }

    constructor (isNetfpga: bool)
      ensures Synced() && entries == [] && this.isNetfpga == isNetfpga && fresh(rows)
    {
      this.isNetfpga := isNetfpga;
      entries := [];
      rows := new Row[CAM_ROWS](i => EMPTY_ROW);
      new;
      assert rows[..] == Image([]);
    }

    method FindEntry(ip: Ip) returns (k: nat)
      ensures k == Find(entries, ip)
    {
      k := 0;
      while k < |entries| && entries[k].ip != ip
        invariant k <= |entries|
        invariant forall j :: 0 <= j < k ==> entries[j].ip != ip
      {
        k := k + 1;
      }
    }

    /** First walk of write_arp_cache_to_hw: the static entries. */
    method WriteStatics() returns (i: nat)
      requires rows.Length == CAM_ROWS
      modifies rows
      ensures i <= CAM_ROWS && (i < CAM_ROWS ==> i == |Statics(entries)|)
      ensures forall j :: 0 <= j < i ==> rows[j] == Image(entries)[j]
    {
      hide Image, Ordered, Statics, Dynamics;
      i := 0;
      var cur := 0;
      OrderedParts(entries);
      assert entries[0..] == entries;
      while cur < |entries| && i < CAM_ROWS
        invariant cur <= |entries| && i <= CAM_ROWS && i <= |Statics(entries)|
        invariant Statics(entries[cur..]) == Statics(entries)[i..]
        invariant forall j :: 0 <= j < i ==> rows[j] == Image(entries)[j]
      {
        StaticsFrom(entries, cur);
        ImageAt(entries, i);
        if entries[cur].isStatic {
          rows[i] := Row(entries[cur].ip, entries[cur].mac);
          i := i + 1;
        }
        cur := cur + 1;
      }
      if i < CAM_ROWS {
        assert entries[cur..] == [];
        StaticsOfNone();
      }
    }

    /** Second walk, from the row after the static entries: the dynamic ones, then empty rows. */
    method WriteRest(base: nat)
      requires rows.Length == CAM_ROWS && base <= CAM_ROWS && (base < CAM_ROWS ==> base == |Statics(entries)|)
      requires forall j :: 0 <= j < base ==> rows[j] == Image(entries)[j]
      modifies rows
      ensures forall j :: 0 <= j < CAM_ROWS ==> rows[j] == Image(entries)[j]
    {
      hide Image, Ordered, Statics, Dynamics, Awaiting;
      if base == CAM_ROWS {
        return;
      }
      var i, cur := base, 0;
      AwaitingAll(entries);
      while i < CAM_ROWS
        invariant cur <= |entries| && base <= i <= CAM_ROWS
        invariant Awaiting(entries, cur, i)
        invariant forall j :: 0 <= j < i ==> rows[j] == Image(entries)[j]
        decreases CAM_ROWS - i, |entries| - cur
      {
        AwaitingNext(entries, cur, i);
        if cur < |entries| {
          if !entries[cur].isStatic {
            rows[i] := Row(entries[cur].ip, entries[cur].mac);
            i := i + 1;
          }
          cur := cur + 1;
        } else {
          rows[i] := Row(0, 0);
          i := i + 1;
        }
      }
    }

    /** write_arp_cache_to_hw: two walks over the cache, then the empty rows. */
    method WriteToHardware()
      requires rows.Length == CAM_ROWS
      modifies rows
      ensures rows[..] == Image(entries)
    {
      hide Image;
      var i := WriteStatics();
      WriteRest(i);
    }

    /** trigger_arp_cache_modified. */
    method Modified()
      requires rows.Length == CAM_ROWS && UniqueIps(entries)
      modifies rows
      ensures Synced()
    {
      if isNetfpga {
        WriteToHardware();
      }
    }

    /** update_arp_cache. */
    method Update(ip: Ip, mac: Mac, isStatic: bool, now: int)
      requires Synced()
      modifies `entries, rows
      ensures Synced() && entries == Updated(old(entries), ip, mac, isStatic, now)
    {
      var k := FindEntry(ip);
      var e := Entry(ip, mac, if isStatic then 0 else now, isStatic);
      if k < |entries| {
        entries := entries[k := e];
      } else {
        entries := entries + [e];
      }
      Modified();
    }

    /** expire_arp_cache: the hardware is only rewritten when something timed out. */
    method Expire(now: int, ttl: nat)
      requires Synced()
      modifies `entries, rows
      ensures Synced() && entries == Kept(old(entries), now, ttl)
    {
      hide Image;
      var kept: seq<Entry> := [];
      var timedOut := false;
      for k := 0 to |entries|
        invariant kept == Kept(entries[..k], now, ttl)
        invariant !timedOut ==> kept == entries[..k]
      {
        assert entries[..k + 1][..k] == entries[..k];
        if !entries[k].isStatic && now - entries[k].stamp > ttl {
          timedOut := true;
        } else {
          kept := kept + [entries[k]];
        }
      }
      assert entries[..|entries|] == entries;
      KeptMembers(entries, now, ttl);
      entries := kept;
      if timedOut {
        Modified();
      }
    }
  }

  /** The dynamic entries from `cur` on are those due for row `i` and below. */
  ghost predicate Awaiting(cache: seq<Entry>, cur: nat, i: nat)
    requires cur <= |cache|
  {
    && |Statics(cache)| <= i
    && Dynamics(cache[cur..]) == if i <= |Ordered(cache)| then Ordered(cache)[i..] else []
  }

  lemma AwaitingAll(cache: seq<Entry>)
    ensures Awaiting(cache, 0, |Statics(cache)|)
  {
    assert cache[0..] == cache;
  }

  lemma AwaitingNext(cache: seq<Entry>, cur: nat, i: nat)
    requires cur <= |cache| && i < CAM_ROWS && Awaiting(cache, cur, i)
    ensures cur == |cache| ==> Image(cache)[i] == Row(0, 0) && Awaiting(cache, cur, i + 1)
    ensures cur < |cache| && cache[cur].isStatic ==> Awaiting(cache, cur + 1, i)
    ensures cur < |cache| && !cache[cur].isStatic ==>
              Image(cache)[i] == Row(cache[cur].ip, cache[cur].mac) && Awaiting(cache, cur + 1, i + 1)
  {
    hide Image, Ordered, Statics, Dynamics;
    DynamicsFrom(cache, cur);
    ImageAt(cache, i);
    if cur < |cache| && !cache[cur].isStatic {
      Peel(Ordered(cache), i, cache[cur], Dynamics(cache[cur + 1..]));
    }
  }

  lemma Peel<T>(s: seq<T>, i: nat, x: T, rest: seq<T>)
    requires (if i <= |s| then s[i..] else []) == [x] + rest
    ensures i < |s| && s[i] == x && s[i + 1..] == rest
  {
    assert s[i..][1..] == s[i + 1..];
  }

  lemma OrderedParts(cache: seq<Entry>)
    ensures Ordered(cache) == Statics(cache) + Dynamics(cache)
  {
  }

  lemma ImageAt(cache: seq<Entry>, i: nat)
    requires i < CAM_ROWS
    ensures Image(cache)[i] ==
            if i < |Ordered(cache)| then Row(Ordered(cache)[i].ip, Ordered(cache)[i].mac) else EMPTY_ROW
  {
  }

  lemma StaticsOfNone()
    ensures Statics([]) == [] && Dynamics([]) == []
  {
  }

  lemma StaticsFrom(cache: seq<Entry>, k: nat)
    requires k < |cache|
    ensures Statics(cache[k..]) == (if cache[k].isStatic then [cache[k]] else []) + Statics(cache[k + 1..])
  {
    assert cache[k..][1..] == cache[k + 1..];
  }

  lemma DynamicsFrom(cache: seq<Entry>, k: nat)
    requires k <= |cache|
    ensures k == |cache| ==> Dynamics(cache[k..]) == []
    ensures k < |cache| ==>
              Dynamics(cache[k..]) ==
              if cache[k].isStatic then Dynamics(cache[k + 1..]) else [cache[k]] + Dynamics(cache[k + 1..])
  {
    if k < |cache| {
      assert cache[k..][1..] == cache[k + 1..];
    }
  }
}
