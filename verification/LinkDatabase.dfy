/**
 Reconciliation of a router's stored interface list with the advertisements of a newer
 LSU: new advertisements are appended, then entries the packet no longer names are pruned.
 */
module LinkDatabase {
  import opened Net

  /** The advertisement with its subnet masked, which is what stored links are compared with. */
  function Norm(a: Adv): Adv {
    a.(subnet := a.subnet & a.mask)
  }

  /** The advertisements a stored list stands for, without order, repetition or flags. */
  function LinkSet(links: seq<Link>): set<Adv> {
    set l | l in links :: l.Ad()
  }

  function AdvSet(advs: seq<Adv>): set<Adv> {
    set a | a in advs :: Norm(a)
  }

  lemma SetOfAppended(links: seq<Link>, l: Link)
    ensures LinkSet(links + [l]) == LinkSet(links) + {l.Ad()}
  {
    assert forall x :: x in links + [l] <==> x in links || x == l;
  }

  predicate PreMasked(advs: seq<Adv>) {
    forall a :: a in advs ==> Norm(a) == a
  }

  predicate Known(links: seq<Link>, a: Adv) {
    exists l :: l in links && l.Ad() == Norm(a)
  }

  predicate Named(l: Link, advs: seq<Adv>) {
    exists a :: a in advs && l.Ad() == Norm(a)
  }

  /** The list built for a router that had no interfaces: every advertisement, masked. */
  function FreshLinks(advs: seq<Adv>): (links: seq<Link>)
    ensures |links| == |advs|
    ensures LinkSet(links) == AdvSet(advs)
  {
    if advs == [] then
      []
    else
      var init, last := advs[..|advs| - 1], advs[|advs| - 1];
      var link := Link(last.subnet & last.mask, last.mask, last.rid, false);
      assert advs == init + [last] && link.Ad() == Norm(last);
      SetOfAppended(FreshLinks(init), link);
      assert AdvSet(advs) == AdvSet(init) + {Norm(last)};
      FreshLinks(init) + [link]
  }

  /** The list after the first loop. The appended subnet is not masked, as in the source. */
  function AddMissing(links: seq<Link>, advs: seq<Adv>): seq<Link> {
    if advs == [] then
      links
    else
      var before := AddMissing(links, advs[..|advs| - 1]);
      var last := advs[|advs| - 1];
      if Known(before, last) then before else before + [Link(last.subnet, last.mask, last.rid, false)]
  }

  /** The list after the second loop: the entries that some advertisement names. */
  function Prune(links: seq<Link>, advs: seq<Adv>): seq<Link> {
    if links == [] then
      []
    else
      Prune(links[..|links| - 1], advs) +
      (if Named(links[|links| - 1], advs) then [links[|links| - 1]] else [])
  }

  /** The new interface list of a router whose LSU carries `advs`. */
  function Reconciled(links: seq<Link>, advs: seq<Adv>): seq<Link> {
    if links == [] then FreshLinks(advs) else Prune(AddMissing(links, advs), advs)
  }

  /** Whether the source reports the list as changed. */
  function Changed(links: seq<Link>, advs: seq<Adv>): bool {
    links == [] || AddMissing(links, advs) != links || Reconciled(links, advs) != links
  }

  lemma PruneMembers(links: seq<Link>, advs: seq<Adv>)
    ensures forall l :: l in Prune(links, advs) <==> l in links && Named(l, advs)
    ensures |Prune(links, advs)| <= |links|
    ensures Prune(links, advs) == links <==> forall l :: l in links ==> Named(l, advs)
  {
    if links != [] {
      var init, last := links[..|links| - 1], links[|links| - 1];
      PruneMembers(init, advs);
      assert links == init + [last];
    }
  }

  lemma AddMissingMembers(links: seq<Link>, advs: seq<Adv>, t: Adv)
    ensures t in LinkSet(links) ==> t in LinkSet(AddMissing(links, advs))
    ensures t in advs && Norm(t) == t ==> t in LinkSet(AddMissing(links, advs))
    ensures t in LinkSet(AddMissing(links, advs)) ==> t in LinkSet(links) || t in advs
  {
    if advs != [] {
      var init, last := advs[..|advs| - 1], advs[|advs| - 1];
      AddMissingMembers(links, init, t);
      assert advs == init + [last];
      SetOfAppended(AddMissing(links, init), Link(last.subnet, last.mask, last.rid, false));
    }
  }

  lemma AddMissingLength(links: seq<Link>, advs: seq<Adv>)
    ensures links <= AddMissing(links, advs)
    ensures AddMissing(links, advs) == links <==> forall a :: a in advs ==> Known(links, a)
  {
    if advs != [] {
      var init, last := advs[..|advs| - 1], advs[|advs| - 1];
      AddMissingLength(links, init);
      assert advs == init + [last];
      if AddMissing(links, init) != links {
        assert |AddMissing(links, init)| > |links|;
      }
    }
  }

  /**
   Exactly when the stored set becomes the advertised one. A subnet that is not masked is
   appended unmasked and pruned again, so it is lost unless it was stored before or the
   packet also carries its masked form.
   */
  lemma ReconciledExactly(links: seq<Link>, advs: seq<Adv>)
    requires links != []
    ensures LinkSet(Reconciled(links, advs)) <= AdvSet(advs)
    ensures LinkSet(Reconciled(links, advs)) == AdvSet(advs) <==>
            forall a :: a in advs ==> Known(links, a) || Norm(a) in advs
  {
    var mid := AddMissing(links, advs);
    PruneMembers(mid, advs);
    forall a | a in advs
      ensures Norm(a) in LinkSet(Reconciled(links, advs)) <==> Known(links, a) || Norm(a) in advs
    {
      assert (a.subnet & a.mask) & a.mask == a.subnet & a.mask;
      AddMissingMembers(links, advs, Norm(a));
      assert Known(links, a) <==> Norm(a) in LinkSet(links);
      if Norm(a) in LinkSet(mid) {
        var l :| l in mid && l.Ad() == Norm(a);
        assert l in Reconciled(links, advs);
      }
    }
    if forall a :: a in advs ==> Known(links, a) || Norm(a) in advs {
      assert AdvSet(advs) <= LinkSet(Reconciled(links, advs));
    }
  }

  /** With masked subnets the stored set becomes the packet's, and the flag says whether it moved. */
  lemma ReconciledIsAdvertised(links: seq<Link>, advs: seq<Adv>)
    requires PreMasked(advs)
    ensures LinkSet(Reconciled(links, advs)) == AdvSet(advs)
  {
    if links != [] {
      ReconciledExactly(links, advs);
    }
  }

  /** For a list that was not empty the flag is exact, whatever the masks are. */
  lemma ChangedExactly(links: seq<Link>, advs: seq<Adv>)
    requires links != []
    ensures Changed(links, advs) <==> LinkSet(links) != AdvSet(advs)
  {
    AddMissingLength(links, advs);
    PruneMembers(AddMissing(links, advs), advs);
    forall a | a in advs
      ensures Known(links, a) <==> Norm(a) in LinkSet(links)
    {
    }
    forall l | l in links
      ensures Named(l, advs) <==> l.Ad() in AdvSet(advs)
    {
    }
    if LinkSet(links) == AdvSet(advs) {
      forall a | a in advs ensures Known(links, a) { assert Norm(a) in AdvSet(advs); }
      forall l | l in links ensures Named(l, advs) { assert l.Ad() in LinkSet(links); }
    }
    if !Changed(links, advs) {
      forall t | t in LinkSet(links) ensures t in AdvSet(advs) { }
      forall t | t in AdvSet(advs) ensures t in LinkSet(links) { }
    }
  }

  lemma EmptyIsChanged(advs: seq<Adv>)
    ensures Changed([], advs)
  {
  }

  /** Links that were not listed before start inactive. */
  lemma NewLinksAreInactive(links: seq<Link>, advs: seq<Adv>)
    ensures forall l :: l in Reconciled(links, advs) ==> l in links || !l.active
  {
    if links == [] {
      FreshAreInactive(advs);
    } else {
      AddedAreInactive(links, advs);
      PruneMembers(AddMissing(links, advs), advs);
    }
  }

  lemma {:induction false} FreshAreInactive(advs: seq<Adv>)
    ensures forall l :: l in FreshLinks(advs) ==> !l.active
  {
    if advs != [] {
      FreshAreInactive(advs[..|advs| - 1]);
    }
  }

  lemma {:induction false} AddedAreInactive(links: seq<Link>, advs: seq<Adv>)
    ensures forall l :: l in AddMissing(links, advs) ==> l in links || !l.active
  {
    if advs != [] {
      AddedAreInactive(links, advs[..|advs| - 1]);
    }
  }

  /** An unmasked subnet in an LSU for a known router is lost. */
  lemma UnmaskedAdvertisementIsLost()
    ensures var advs := [Adv(0x0A000001, 0xFFFFFF00, 7)];
            var links := [Link(0x0B000000, 0xFF000000, 7, true)];
            Reconciled(links, advs) == []
  {
    var a := Adv(0x0A000001, 0xFFFFFF00, 7);
    var l := Link(0x0B000000, 0xFF000000, 7, true);
    var m := Link(0x0A000001, 0xFFFFFF00, 7, false);
    assert a.subnet & a.mask == 0x0A000000;
    assert [a][..0] == [];
    assert AddMissing([l], [a]) == [l, m];
    assert l.Ad() != Norm(a) && m.Ad() != Norm(a);
    assert !Named(l, [a]) && !Named(m, [a]);
    assert [l, m][..1] == [l] && [l][..0] == [];
    assert Prune([], [a]) == [];
    assert Prune([l], [a]) == [];
    assert Prune([l, m], [a]) == [];
  }

  method AppendNew(links: seq<Link>, advs: seq<Adv>) returns (out: seq<Link>, changed: bool)
    ensures out == AddMissing(links, advs)
    ensures changed <==> out != links
  {
    out, changed := links, false;
    for i := 0 to |advs|
      invariant out == AddMissing(links, advs[..i])
      invariant changed <==> out != links
    {
      var k := 0;
      while k < |out| && out[k].Ad() != Norm(advs[i])
        invariant 0 <= k <= |out|
        invariant forall j :: 0 <= j < k ==> out[j].Ad() != Norm(advs[i])
      {
        k := k + 1;
      }
      assert advs[..i + 1][..i] == advs[..i];
      AddMissingLength(links, advs[..i]);
      if k == |out| {
        out := out + [Link(advs[i].subnet, advs[i].mask, advs[i].rid, false)];
        changed := true;
      } else {
        assert Known(out, advs[i]);
      }
    }
    assert advs[..|advs|] == advs;
  }

  lemma PruneStep(links: seq<Link>, advs: seq<Adv>, k: nat)
    requires k < |links|
    ensures Prune(links[..k + 1], advs) ==
            Prune(links[..k], advs) + if Named(links[k], advs) then [links[k]] else []
    ensures Prune(links[..k + 1], advs) == links[..k + 1] <==>
            Prune(links[..k], advs) == links[..k] && Named(links[k], advs)
  {
    hide Prune, Named;
    var kept := Prune(links[..k], advs);
    PruneSnoc(links[..k], links[k], advs);
    PruneMembers(links[..k], advs);
    assert links[..k + 1] == links[..k] + [links[k]];
    SnocEqual(kept, links[..k], links[k]);
  }

  lemma PruneSnoc(links: seq<Link>, l: Link, advs: seq<Adv>)
    ensures Prune(links + [l], advs) == Prune(links, advs) + if Named(l, advs) then [l] else []
  {
    hide Named;
    assert (links + [l])[..|links|] == links;
  }

  lemma SnocEqual(a: seq<Link>, b: seq<Link>, l: Link)
    requires |a| <= |b|
    ensures a + [l] == b + [l] <==> a == b
    ensures a + [] != b + [l]
  {
    if a + [l] == b + [l] {
      assert a == (a + [l])[..|a|];
    }
    assert |a + []| < |b + [l]|;
  }

  method IsNamed(l: Link, advs: seq<Adv>) returns (found: bool)
    ensures found <==> Named(l, advs)
  {
    var i := 0;
    while i < |advs| && l.Ad() != Norm(advs[i])
      invariant 0 <= i <= |advs|
      invariant forall j :: 0 <= j < i ==> l.Ad() != Norm(advs[j])
    {
      i := i + 1;
    }
    return i < |advs|;
  }

  method RemoveMissing(links: seq<Link>, advs: seq<Adv>) returns (out: seq<Link>, changed: bool)
    ensures out == Prune(links, advs)
    ensures changed <==> out != links
  {
    out, changed := [], false;
    for k := 0 to |links|
      invariant out == Prune(links[..k], advs)
      invariant changed <==> out != links[..k]
    {
      hide Named, Prune;
      var found := IsNamed(links[k], advs);
      PruneStep(links, advs, k);
      if found {
        out := out + [links[k]];
      } else {
        changed := true;
      }
    }
    assert links[..|links|] == links;
  }

  /** The walk of populate_pwospf_router_interface_list: append what is new, then prune. */
  method PopulateInterfaceList(links: seq<Link>, advs: seq<Adv>) returns (out: seq<Link>, changed: bool)
    ensures out == Reconciled(links, advs)
    ensures changed == Changed(links, advs)
  {
    if links == [] {
      out := [];
      for i := 0 to |advs|
        invariant out == FreshLinks(advs[..i])
      {
        assert advs[..i + 1][..i] == advs[..i];
        out := out + [Link(advs[i].subnet & advs[i].mask, advs[i].mask, advs[i].rid, false)];
      }
      assert advs[..|advs|] == advs;
      return out, true;
    }
    var all, added := AppendNew(links, advs);
    var kept, pruned := RemoveMissing(all, advs);
    if added {
      AddMissingLength(links, advs);
    }
    return kept, added || pruned;
  }
}
