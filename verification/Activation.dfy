/**
 Which links of the database count for shortest paths: the activation pass over all routers.
 Handling a link first clears its flag, which may undo what an earlier router set.
 */
module Activation {
  import opened Net
  import opened Pwospf

  predicate Within(db: seq<Record>, r: int, i: int) {
    0 <= r < |db| && 0 <= i < |db[r].links|
  }

  /** Link `i` of router `r` names router `x`, whose link `j` is on the same subnet; neither is blank. */
  predicate Joins(db: seq<Record>, r: int, i: int, x: int, j: int)
    requires Within(db, r, i) && Within(db, x, j)
  {
    var a, b := db[r].links[i], db[x].links[j];
    IndexOf(db, a.rid) == x && a.subnet == b.subnet && a.mask == b.mask && a.rid != 0 && b.rid != 0
  }

  /** Link `i` of `r` finds a partner in the router it names. */
  ghost predicate Partnered(db: seq<Record>, r: int, i: int)
    requires Within(db, r, i)
  {
    exists x, j :: Within(db, x, j) && Joins(db, r, i, x, j)
  }

  /** The order in which the pass visits links. */
  predicate Before(r: int, i: int, r': int, i': int) {
    r < r' || (r == r' && i < i')
  }

  /** A link visited after (r, i) and before (endR, endI) names this router on the same subnet. */
  ghost predicate Named(db: seq<Record>, r: int, i: int, endR: int, endI: int)
    requires Within(db, r, i)
  {
    exists x, j :: Within(db, x, j) && Before(r, i, x, j) && Before(x, j, endR, endI) && Joins(db, x, j, r, i)
  }

  /** Same routers, same advertisements; only flags may differ. */
  ghost predicate SameAds(db: seq<Record>, db': seq<Record>) {
    && |db| == |db'|
    && (forall r :: 0 <= r < |db| ==>
          db'[r].rid == db[r].rid && db'[r].seqNo == db[r].seqNo && |db'[r].links| == |db[r].links|)
    && (forall r, i :: Within(db, r, i) ==> db'[r].links[i].Ad() == db[r].links[i].Ad())
  }

  lemma {:induction false} SamePos(db: seq<Record>, db': seq<Record>, rid: RouterId)
    requires |db| == |db'| && forall r :: 0 <= r < |db| ==> db'[r].rid == db[r].rid
    ensures IndexOf(db', rid) == IndexOf(db, rid)
  {
  }

  lemma SameJoins(db: seq<Record>, db': seq<Record>, r: int, i: int, x: int, j: int)
    requires SameAds(db, db') && Within(db, r, i) && Within(db, x, j)
    ensures Joins(db', r, i, x, j) == Joins(db, r, i, x, j)
  {
    hide IndexOf;
    SamePos(db, db', db[r].links[i].rid);
    assert db'[r].links[i].Ad() == db[r].links[i].Ad() && db'[x].links[j].Ad() == db[x].links[j].Ad();
  }

  function SetFlag(db: seq<Record>, r: nat, i: nat, on: bool): seq<Record>
    requires Within(db, r, i)
  {
    db[r := db[r].(links := db[r].links[i := db[r].links[i].(active := on)])]
  }

  lemma FlagSet(db: seq<Record>, r: nat, i: nat, on: bool)
    requires Within(db, r, i)
    ensures var out := SetFlag(db, r, i, on);
            && SameAds(db, out)
            && forall x, j :: Within(db, x, j) ==>
                 (out[x].links[j].active <==> if x == r && j == i then on else db[x].links[j].active)
  {
  }

  // ---------------------------------------------------------------- what the flags mean

  /** The flags a complete pass leaves. */
  ghost predicate Activated(db: seq<Record>) {
    forall r, i :: Within(db, r, i) ==>
      (db[r].links[i].active <==> Partnered(db, r, i) || Named(db, r, i, |db|, 0))
  }

  lemma PosIs(db: seq<Record>, r: nat)
    requires UniqueIds(db) && r < |db|
    ensures IndexOf(db, db[r].rid) == r
  {
  }

  /** Two routers that name each other on one subnet: both ends are active, whatever the list order. */
  lemma MutualIsActive(db: seq<Record>, r: nat, i: nat, x: nat, j: nat)
    requires Activated(db) && UniqueIds(db) && Within(db, r, i) && Within(db, x, j)
    requires var a, b := db[r].links[i], db[x].links[j];
             && a.rid == db[x].rid && b.rid == db[r].rid && a.rid != 0 && b.rid != 0
             && a.subnet == b.subnet && a.mask == b.mask
    ensures db[r].links[i].active && db[x].links[j].active
  {
    hide IndexOf;
    PosIs(db, r);
    PosIs(db, x);
    assert Joins(db, r, i, x, j) && Joins(db, x, j, r, i);
    assert Partnered(db, r, i) && Partnered(db, x, j);
  }

  /** An active link is not blank, and another router is on its subnet that it names or that names it. */
  lemma ActiveIsJustified(db: seq<Record>, r: nat, i: nat)
    requires Activated(db) && Within(db, r, i) && db[r].links[i].active
    requires forall x, j :: Within(db, x, j) ==> db[x].links[j].rid != db[x].rid
    ensures exists x, j ::
              && Within(db, x, j) && x != r
              && (Joins(db, r, i, x, j) || Joins(db, x, j, r, i))
              && db[r].links[i].rid != 0 && db[x].links[j].rid != 0
              && db[x].links[j].subnet == db[r].links[i].subnet && db[x].links[j].mask == db[r].links[i].mask
  {
    hide IndexOf;
    if Partnered(db, r, i) {
      var x, j :| Within(db, x, j) && Joins(db, r, i, x, j);
      assert x != r;
    } else {
      assert Named(db, r, i, |db|, 0);
      var x, j :| Within(db, x, j) && Joins(db, x, j, r, i);
      assert x != r;
    }
  }

  /** One-sided links depend on the order: the later router must do the naming, or be named back. */
  lemma OneSided(subnet: Ip, mask: Ip, a: RouterId, b: RouterId, c: RouterId)
    requires a != 0 && b != 0 && c != 0 && a != b && b != c && a != c
    ensures var la, lb := Link(subnet, mask, b, false), Link(subnet, mask, c, false);
            var namer, named := Record(a, 0, [la]), Record(b, 0, [lb]);
            && !Named([namer, named], 1, 0, 2, 0) && !Partnered([namer, named], 1, 0)
            && Named([named, namer], 0, 0, 2, 0)
  {
    var la, lb := Link(subnet, mask, b, false), Link(subnet, mask, c, false);
    var namer, named := Record(a, 0, [la]), Record(b, 0, [lb]);
    var early, late := [namer, named], [named, namer];
    assert early[1..] == [named] && [named][1..] == [] && IndexOf(early, c) == 2;
    assert late[1..] == [namer];
    assert Within(late, 1, 0) && Joins(late, 1, 0, 0, 0);
  }

  // ---------------------------------------------------------------- one visit

  /** The comparison in the inner loop; the partner is in the router that the link names. */
  predicate Agree(a: Link, b: Link) {
    a.subnet == b.subnet && a.mask == b.mask && !(a.rid == 0 || b.rid == 0)
  }

  /** Flags while link (r, i) is being visited and links below `n` of router `other` have been compared. */
  ghost predicate Visiting(was: seq<Record>, db: seq<Record>, r: int, i: int, other: int, n: int)
    requires Within(was, r, i)
  {
    && SameAds(was, db)
    && (db[r].links[i].active <==> exists k :: 0 <= k < n && Within(was, other, k) && Joins(was, r, i, other, k))
    && (forall x, k :: Within(was, x, k) && !(x == r && k == i) ==>
          (db[x].links[k].active <==>
           was[x].links[k].active || (x == other && k < n && Joins(was, r, i, x, k))))
  }

  lemma VisitStarts(was: seq<Record>, r: nat, i: nat, other: int)
    requires Within(was, r, i)
    ensures Visiting(was, SetFlag(was, r, i, false), r, i, other, 0)
  {
    hide Joins, SetFlag;
    FlagSet(was, r, i, false);
  }

  lemma JoinsAgree(db: seq<Record>, r: int, i: int, x: int, j: int)
    requires Within(db, r, i) && Within(db, x, j) && IndexOf(db, db[r].links[i].rid) == x
    ensures Joins(db, r, i, x, j) <==> Agree(db[r].links[i], db[x].links[j])
  {
    hide IndexOf;
  }

  lemma VisitMisses(was: seq<Record>, db: seq<Record>, r: nat, i: nat, other: nat, n: nat)
    requires Within(was, r, i) && Visiting(was, db, r, i, other, n)
    requires Within(was, other, n) && !Joins(was, r, i, other, n)
    ensures Visiting(was, db, r, i, other, n + 1)
  {
    hide Joins, SameAds;
  }

  lemma VisitHits(was: seq<Record>, db: seq<Record>, r: nat, i: nat, other: nat, n: nat)
    requires Within(was, r, i) && Visiting(was, db, r, i, other, n)
    requires Within(was, other, n) && Joins(was, r, i, other, n)
    requires Within(db, r, i) && Within(db, other, n) && Within(SetFlag(db, r, i, true), other, n)
    ensures Visiting(was, SetFlag(SetFlag(db, r, i, true), other, n, true), r, i, other, n + 1)
  {
    hide Joins, SetFlag, SameAds;
    var mid := SetFlag(db, r, i, true);
    var out := SetFlag(mid, other, n, true);
    FlagSet(db, r, i, true);
    FlagSet(mid, other, n, true);
    SameTrans(was, db, mid);
    SameTrans(was, mid, out);
    SameWithin(was, db);
    SameWithin(was, mid);
    SameWithin(was, out);
  }

  lemma SameTrans(a: seq<Record>, b: seq<Record>, c: seq<Record>)
    requires SameAds(a, b) && SameAds(b, c)
    ensures SameAds(a, c)
  {
    forall r, i | Within(a, r, i) ensures c[r].links[i].Ad() == a[r].links[i].Ad() {
      assert Within(b, r, i);
    }
  }

  lemma SameWithin(a: seq<Record>, b: seq<Record>)
    requires SameAds(a, b)
    ensures forall x, k :: Within(a, x, k) <==> Within(b, x, k)
  {
  }

  /** What one visit leaves. */
  ghost predicate Visited(was: seq<Record>, db: seq<Record>, r: int, i: int)
    requires Within(was, r, i)
  {
    && SameAds(was, db)
    && (db[r].links[i].active <==> Partnered(was, r, i))
    && (forall x, k :: Within(was, x, k) && !(x == r && k == i) ==>
          (db[x].links[k].active <==> was[x].links[k].active || Joins(was, r, i, x, k)))
  }

  lemma VisitEnds(was: seq<Record>, db: seq<Record>, r: nat, i: nat)
    requires Within(was, r, i)
    requires var other := IndexOf(was, was[r].links[i].rid);
             Visiting(was, db, r, i, other, if other < |was| then |was[other].links| else 0)
    ensures Visited(was, db, r, i)
  {
    hide IndexOf, SameAds;
  }

  // ---------------------------------------------------------------- the pass

  /** All links before (endR, endI) have been visited. */
  ghost predicate Passing(db: seq<Record>, endR: int, endI: int) {
    forall r, i :: Within(db, r, i) && Before(r, i, endR, endI) ==>
      (db[r].links[i].active <==> Partnered(db, r, i) || Named(db, r, i, endR, endI))
  }

  lemma SameMeaning(db: seq<Record>, db': seq<Record>, r: int, i: int, endR: int, endI: int)
    requires SameAds(db, db') && Within(db, r, i)
    ensures Within(db', r, i)
    ensures Partnered(db', r, i) == Partnered(db, r, i)
    ensures Named(db', r, i, endR, endI) == Named(db, r, i, endR, endI)
  {
    hide Joins, SameAds;
    SameWithin(db, db');
    forall x, j | Within(db, x, j)
      ensures Joins(db', r, i, x, j) == Joins(db, r, i, x, j) && Joins(db', x, j, r, i) == Joins(db, x, j, r, i)
    {
      SameJoins(db, db', r, i, x, j);
      SameJoins(db, db', x, j, r, i);
    }
  }

  lemma NamedGrows(db: seq<Record>, r: int, i: int, endR: int, endI: int)
    requires Within(db, r, i) && Within(db, endR, endI) && Before(r, i, endR, endI)
    ensures Named(db, r, i, endR, endI + 1) <==> Named(db, r, i, endR, endI) || Joins(db, endR, endI, r, i)
  {
    hide Joins;
    if Joins(db, endR, endI, r, i) {
      assert Before(endR, endI, endR, endI + 1);
    }
    if Named(db, r, i, endR, endI) {
      var x, j :| Within(db, x, j) && Before(r, i, x, j) && Before(x, j, endR, endI) && Joins(db, x, j, r, i);
      assert Before(x, j, endR, endI + 1);
    }
  }

  lemma NamedNoneYet(db: seq<Record>, r: int, i: int)
    requires Within(db, r, i)
    ensures !Named(db, r, i, r, i + 1)
  {
  }

  lemma PassStep(was: seq<Record>, db: seq<Record>, r: int, i: int)
    requires Within(was, r, i) && Passing(was, r, i) && Visited(was, db, r, i)
    ensures Passing(db, r, i + 1)
  {
    hide Joins, SameAds, Partnered, Named;
    SameWithin(was, db);
    forall x, j | Within(db, x, j) && Before(x, j, r, i + 1)
      ensures db[x].links[j].active <==> Partnered(db, x, j) || Named(db, x, j, r, i + 1)
    {
      SameMeaning(was, db, x, j, r, i + 1);
      if x == r && j == i {
        NamedNoneYet(was, r, i);
      } else {
        NamedGrows(was, x, j, r, i);
      }
    }
  }

  /** Moving on to the next router visits nothing. */
  lemma PassTurn(db: seq<Record>, r: nat)
    requires r < |db| && Passing(db, r, |db[r].links|)
    ensures Passing(db, r + 1, 0)
  {
    forall x, j | Within(db, x, j) && Before(x, j, r + 1, 0)
      ensures Before(x, j, r, |db[r].links|) && (Named(db, x, j, r + 1, 0) <==> Named(db, x, j, r, |db[r].links|))
    {
      hide Joins;
      assert forall y, k :: Within(db, y, k) ==> (Before(y, k, r + 1, 0) <==> Before(y, k, r, |db[r].links|));
    }
  }

  // ---------------------------------------------------------------- the code

  /** The body of determine_active_interfaces for one link. */
  method VisitLink(router: Router, r: nat, i: nat)
    requires Within(router.db, r, i)
    modifies router`db
    ensures Visited(old(router.db), router.db, r, i)
  {
    hide IndexOf, Joins, SameAds, Agree, SetFlag, Visiting, Visited;
    ghost var was := router.db;
    var other := router.Find(router.db[r].links[i].rid);
    VisitStarts(was, r, i, other);
    router.db := SetFlag(router.db, r, i, false);
    VisitKeepsShape(was, router.db, r, i, other, 0);
    if other < |router.db| {
      var j := 0;
      while j < |router.db[other].links|
        invariant Visiting(was, router.db, r, i, other, j)
        invariant Within(router.db, r, i) && |router.db| == |was|
        invariant |router.db[other].links| == |was[other].links| && j <= |router.db[other].links|
        decreases |was[other].links| - j
      {
        VisitKeepsShape(was, router.db, r, i, other, j);
        JoinsAgree(was, r, i, other, j);
        AgreeSame(was, router.db, r, i, other, j);
        if Agree(router.db[r].links[i], router.db[other].links[j]) {
          FlagShape(router.db, r, i, true);
          VisitHits(was, router.db, r, i, other, j);
          router.db := SetFlag(router.db, r, i, true);
          FlagShape(router.db, other, j, true);
          router.db := SetFlag(router.db, other, j, true);
        } else {
          VisitMisses(was, router.db, r, i, other, j);
        }
        j := j + 1;
        VisitKeepsShape(was, router.db, r, i, other, j);
      }
    }
    VisitEnds(was, router.db, r, i);
  }

  /** determine_active_interfaces for every router, as propagate_pwospf_changes calls it. */
  method ActivateAll(router: Router)
    modifies router`db
    ensures SameAds(old(router.db), router.db) && Activated(router.db)
  {
    hide SameAds, Passing, Visited, Partnered, Named, Within;
    ghost var first := router.db;
    SameSelf(router.db);
    PassNone(router.db);
    var r := 0;
    while r < |router.db|
      invariant r <= |router.db| == |first| && SameAds(first, router.db) && Passing(router.db, r, 0)
      decreases |first| - r
    {
      var i := 0;
      SameLength(first, router.db, r);
      while i < |router.db[r].links|
        invariant r < |router.db| == |first| && |router.db[r].links| == |first[r].links| && i <= |router.db[r].links|
        invariant SameAds(first, router.db) && Passing(router.db, r, i)
        decreases |first[r].links| - i
      {
        ghost var was := router.db;
        WithinAt(router.db, r, i);
        VisitLink(router, r, i);
        PassStep(was, router.db, r, i);
        VisitedShape(was, router.db, r, i);
        SameTrans(first, was, router.db);
        i := i + 1;
      }
      PassTurn(router.db, r);
      r := r + 1;
    }
    PassDone(router.db);
  }

  lemma FlagShape(db: seq<Record>, r: nat, i: nat, on: bool)
    requires Within(db, r, i)
    ensures forall x, k :: Within(SetFlag(db, r, i, on), x, k) <==> Within(db, x, k)
    ensures |SetFlag(db, r, i, on)| == |db|
    ensures forall x :: 0 <= x < |db| ==> |SetFlag(db, r, i, on)[x].links| == |db[x].links|
  {
  }

  lemma VisitKeepsShape(was: seq<Record>, db: seq<Record>, r: int, i: int, other: int, n: int)
    requires Within(was, r, i) && Visiting(was, db, r, i, other, n)
    ensures |db| == |was| && forall x, k :: Within(was, x, k) <==> Within(db, x, k)
    ensures forall x :: 0 <= x < |db| ==> |db[x].links| == |was[x].links|
  {
  }

  lemma AgreeSame(was: seq<Record>, db: seq<Record>, r: int, i: int, other: int, n: int)
    requires Within(was, r, i) && Visiting(was, db, r, i, other, n) && Within(was, other, n)
    ensures Within(db, r, i) && Within(db, other, n)
    ensures Agree(db[r].links[i], db[other].links[n]) <==> Agree(was[r].links[i], was[other].links[n])
  {
    assert db[r].links[i].Ad() == was[r].links[i].Ad() && db[other].links[n].Ad() == was[other].links[n].Ad();
  }

  lemma SameSelf(db: seq<Record>)
    ensures SameAds(db, db)
  {
  }

  lemma SameLength(a: seq<Record>, b: seq<Record>, r: nat)
    requires SameAds(a, b) && r < |a|
    ensures r < |b| && |b[r].links| == |a[r].links|
  {
  }

  lemma WithinAt(db: seq<Record>, r: nat, i: nat)
    requires r < |db| && i < |db[r].links|
    ensures Within(db, r, i)
  {
  }

  lemma PassNone(db: seq<Record>)
    ensures Passing(db, 0, 0)
  {
  }

  lemma VisitedShape(was: seq<Record>, db: seq<Record>, r: int, i: int)
    requires Within(was, r, i) && Visited(was, db, r, i)
    ensures SameAds(was, db) && |db| == |was| && |db[r].links| == |was[r].links|
  {
  }

  lemma PassDone(db: seq<Record>)
    requires Passing(db, |db|, 0)
    ensures Activated(db)
  {
    forall r, i | Within(db, r, i) ensures Before(r, i, |db|, 0) {
    }
  }
}
