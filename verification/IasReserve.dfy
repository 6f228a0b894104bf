/**
 Reserving cores for the guarantees of a process, and what the reservations of all
 processes look like.
 */
module IasReserve {
  import opened Wrappers
  import opened ListSets
  import opened IasPolicy
  import opened IasInvariants

  /** Every core of the set has a sibling in it, which is another core, and siblings are mutual. */
  ghost predicate PairsClosed(s: set<nat>, sibling: seq<nat>) {
    forall c :: c in s ==>
      c < |sibling| && sibling[c] in s && sibling[c] != c && sibling[c] < |sibling| && sibling[sibling[c]] == c
  }

  /** With hyperthreads, every core of ours is one of two siblings; the other one need not be ours. */
  ghost predicate Mutual(online: set<nat>, sibling: seq<nat>, noht: bool) {
    forall c :: c in online ==>
      && c < |sibling|
      && (noht || (sibling[c] < |sibling| && sibling[c] != c && sibling[sibling[c]] == c))
  }

  /** The cores that can ever be reserved: ours and, with hyperthreads, their siblings. */
  ghost function Home(online: set<nat>, sibling: seq<nat>, noht: bool): set<nat> {
    if noht then online else online + set c | c in online && c < |sibling| :: sibling[c]
  }

  lemma HomeClosed(online: set<nat>, sibling: seq<nat>, noht: bool)
    requires Mutual(online, sibling, noht)
    ensures online <= Home(online, sibling, noht)
    ensures !noht ==> PairsClosed(Home(online, sibling, noht), sibling)
  {
    var home := Home(online, sibling, noht);
    if !noht {
      forall c | c in home
        ensures c < |sibling| && sibling[c] in home && sibling[c] != c
        ensures sibling[c] < |sibling| && sibling[sibling[c]] == c
      {
        if c !in online {
          var d :| d in online && d < |sibling| && sibling[d] == c;
          assert sibling[sibling[d]] == d;
        }
      }
    }
  }

  /** The cores reserved for some process. */
  ghost function Owned(spec: Specs): set<nat> {
    set p, c | p in spec && c in spec[p].reserved :: c
  }

  /**
   The reservations: every process has exactly as many cores as it was promised, in pairs when there
   are hyperthreads; no core is reserved twice; and the bitmap holds them, no other core of ours, and
   every core that can never be reserved.
   */
  ghost predicate Reserved(reg: Registry, online: set<nat>, sibling: seq<nat>, noht: bool) {
    ReservedIn(reg, online, Home(online, sibling, noht), sibling, noht)
  }

  ghost predicate ReservedIn(reg: Registry, online: set<nat>, home: set<nat>, sibling: seq<nat>, noht: bool) {
    && AllOwn(reg.spec, reg.reservedCores, home, sibling, noht) && Apart(reg.spec)
    && |Owned(reg.spec)| == reg.nrGuaranteed
    && online * reg.reservedCores <= Owned(reg.spec)
    && forall c: nat :: c < |sibling| && c !in reg.reservedCores ==> c in home
  }

  ghost predicate AllOwn(spec: Specs, taken: set<nat>, home: set<nat>, sibling: seq<nat>, noht: bool) {
    forall p :: p in spec ==> OwnOk(spec[p], taken, home, sibling, noht)
  }

  /** No core is reserved twice. */
  ghost predicate Apart(spec: Specs) {
    forall p, q :: p in spec && q in spec && p != q ==> spec[p].reserved !! spec[q].reserved
  }

  ghost predicate OwnOk(s: Spec, taken: set<nat>, home: set<nat>, sibling: seq<nat>, noht: bool) {
    s.reserved <= home * taken && |s.reserved| == s.guaranteed && (!noht ==> PairsClosed(s.reserved, sibling))
  }

  /** bitmap_find_next_cleared from zero. */
  method FirstCleared(taken: set<nat>, ncpu: nat) returns (core: nat)
    ensures core <= ncpu
    ensures core < ncpu ==> core !in taken
    ensures forall c: nat :: c < core ==> c in taken
  {
    core := 0;
    while core < ncpu && core in taken
      invariant core <= ncpu
      invariant forall c: nat :: c < core ==> c in taken
    {
      core := core + 1;
    }
  }

  /** No core outside avail is free, every core of ours in it is, and there are enough of those. */
  ghost predicate RoomFor(avail: set<nat>, taken: set<nat>, online: set<nat>, sibling: seq<nat>, noht: bool,
                          guaranteed: nat)
  {
    && (forall c: nat :: c < |sibling| && c !in taken ==> c in avail)
    && (forall c :: c in online * avail ==> c < |sibling| && c !in taken)
    && (if noht then avail <= online else PairsClosed(avail, sibling))
    && guaranteed <= |online * avail|
  }

  /** Cores reserved so far are available ones, and paired when there are hyperthreads. */
  ghost predicate Fresh(mine: set<nat>, avail: set<nat>, sibling: seq<nat>, noht: bool) {
    mine <= avail && (!noht ==> PairsClosed(mine, sibling))
  }

  lemma SomeRemain(free: set<nat>, mine: set<nat>)
    requires |mine| < |free|
    ensures exists c :: c in free && c !in mine
  {
    if free <= mine {
      SubsetCard(free, mine);
    }
  }

  lemma SubsetCard(a: set<nat>, b: set<nat>)
    requires a <= b
    ensures |a| <= |b|
  {
    assert |b - a| == |b| - |a|;
  }

  /** The sibling of an available core is available. */
  lemma TakePair(mine: set<nat>, avail: set<nat>, sibling: seq<nat>, core: nat)
    requires Fresh(mine, avail, sibling, false) && PairsClosed(avail, sibling) && core in avail && core !in mine
    ensures sibling[core] in avail && sibling[core] !in mine && sibling[core] != core
    ensures Fresh(mine + {core} + {sibling[core]}, avail, sibling, false)
    ensures |mine + {core} + {sibling[core]}| == |mine| + 2
  {
    assert sibling[sibling[core]] == core;
  }

  // --------------------------------------------------------- when the cores reserved are ours

  /** Both lanes are ours. */
  predicate BothOurs(online: set<nat>, sibling: seq<nat>, c: nat) {
    c in online && c < |sibling| && sibling[c] in online
  }

  /** Every free core up to c has both lanes ours. */
  ghost predicate OursUpTo(taken: set<nat>, online: set<nat>, sibling: seq<nat>, c: nat) {
    forall d: nat :: d <= c && d !in taken ==> BothOurs(online, sibling, d)
  }

  /** The free cores in pairs that come before the first free core whose two lanes are not both ours. */
  ghost function OurPairs(taken: set<nat>, online: set<nat>, sibling: seq<nat>): set<nat> {
    set c: nat | c < |sibling| && c !in taken &&
      (OursUpTo(taken, online, sibling, c) || (sibling[c] !in taken && OursUpTo(taken, online, sibling, sibling[c])))
  }

  /** Reserved so far: pairs of ours only, or all of those and a core that is not ours. */
  ghost predicate OursSoFar(mine: set<nat>, taken: set<nat>, online: set<nat>, sibling: seq<nat>) {
    var ours := OurPairs(taken, online, sibling);
    mine <= ours || (!(mine <= online) && |mine| > |ours|)
  }

  lemma OurPairsOurs(avail: set<nat>, taken: set<nat>, online: set<nat>, sibling: seq<nat>, c: nat)
    requires RoomFor(avail, taken, online, sibling, false, 0) && c in OurPairs(taken, online, sibling)
    ensures BothOurs(online, sibling, c) && sibling[c] in OurPairs(taken, online, sibling)
  {
    assert c in avail && sibling[sibling[c]] == c;
    if OursUpTo(taken, online, sibling, c) {
      assert BothOurs(online, sibling, c);
    } else {
      assert BothOurs(online, sibling, sibling[c]);
    }
    assert sibling[c] in online * avail;
  }

  /** The first free core belongs to the next pair of ours, while there is one. */
  lemma NextIsOurs(mine: set<nat>, avail: set<nat>, taken: set<nat>, online: set<nat>, sibling: seq<nat>,
                   core: nat, c: nat)
    requires RoomFor(avail, taken, online, sibling, false, 0) && Fresh(mine, avail, sibling, false)
    requires core < |sibling| && core !in taken && forall d: nat :: d < core ==> d in taken || d in mine
    requires c in OurPairs(taken, online, sibling) && c !in mine
    ensures core in OurPairs(taken, online, sibling)
  {
    assert c in avail && sibling[sibling[c]] == c;
    var e := if OursUpTo(taken, online, sibling, c) then c else sibling[c];
    assert e !in mine;
    assert core <= e;
    assert OursUpTo(taken, online, sibling, core);
  }

  /** After the last pair of ours comes a core that is not ours, or whose sibling is not. */
  lemma NextIsForeign(mine: set<nat>, avail: set<nat>, taken: set<nat>, online: set<nat>, sibling: seq<nat>, core: nat)
    requires RoomFor(avail, taken, online, sibling, false, 0)
    requires core < |sibling| && core !in taken && core !in mine
    requires forall d: nat :: d < core ==> d in taken || d in mine
    requires mine == OurPairs(taken, online, sibling)
    ensures !BothOurs(online, sibling, core)
  {
    if BothOurs(online, sibling, core) {
      forall d: nat | d <= core && d !in taken
        ensures BothOurs(online, sibling, d)
      {
        if d < core {
          OurPairsOurs(avail, taken, online, sibling, d);
        }
      }
      assert OursUpTo(taken, online, sibling, core);
    }
  }

  lemma ReservePair(mine: set<nat>, avail: set<nat>, taken: set<nat>, online: set<nat>, sibling: seq<nat>, core: nat)
    requires RoomFor(avail, taken, online, sibling, false, 0) && Fresh(mine, avail, sibling, false)
    requires core < |sibling| && core !in taken && core !in mine
    requires forall d: nat :: d < core ==> d in taken || d in mine
    requires OursSoFar(mine, taken, online, sibling)
    ensures sibling[core] < |sibling| && OursSoFar(mine + {core} + {sibling[core]}, taken, online, sibling)
  {
    var ours := OurPairs(taken, online, sibling);
    TakePair(mine, avail, sibling, core);
    if mine <= ours {
      if c :| c in ours && c !in mine {
        NextIsOurs(mine, avail, taken, online, sibling, core, c);
        OurPairsOurs(avail, taken, online, sibling, core);
      } else {
        assert mine == ours;
        NextIsForeign(mine, avail, taken, online, sibling, core);
        assert core in mine + {core} + {sibling[core]} && sibling[core] in mine + {core} + {sibling[core]};
      }
    }
  }

  /** What was reserved is ours exactly when there were enough pairs of ours in front. */
  lemma OursExactly(mine: set<nat>, avail: set<nat>, taken: set<nat>, online: set<nat>, sibling: seq<nat>)
    requires RoomFor(avail, taken, online, sibling, false, 0) && OursSoFar(mine, taken, online, sibling)
    ensures mine <= online <==> |mine| <= |OurPairs(taken, online, sibling)|
  {
    var ours := OurPairs(taken, online, sibling);
    if mine <= ours {
      SubsetCard(mine, ours);
      forall c | c in mine
        ensures c in online
      {
        OurPairsOurs(avail, taken, online, sibling, c);
      }
    }
  }

  /** When our cores are closed under siblings there always are. */
  lemma ClosedReservesOurs(avail: set<nat>, taken: set<nat>, online: set<nat>, sibling: seq<nat>, guaranteed: nat)
    requires RoomFor(avail, taken, online, sibling, false, guaranteed)
    requires PairsClosed(online, sibling) && avail <= online
    ensures guaranteed <= |OurPairs(taken, online, sibling)|
  {
    forall c | c in online * avail
      ensures c in OurPairs(taken, online, sibling)
    {
      forall d: nat | d <= c && d !in taken
        ensures BothOurs(online, sibling, d)
      {
        assert d in avail;
      }
      assert OursUpTo(taken, online, sibling, c);
    }
    SubsetCard(online * avail, OurPairs(taken, online, sibling));
  }

  /** With cores 0, 2 and 4 ours but not their siblings, even the first pair reserved is not ours. */
  lemma ReservesForeignCore()
    ensures var online, sibling := {0, 2, 4}, [1, 0, 3, 2, 5, 4];
            && Mutual(online, sibling, false)
            && |OurPairs(Unattached(6, online).reservedCores, online, sibling)| == 0
  {
    var online: set<nat>, sibling: seq<nat> := {0, 2, 4}, [1, 0, 3, 2, 5, 4];
    var taken := Unattached(6, online).reservedCores;
    forall c: nat
      ensures !OursUpTo(taken, online, sibling, c)
    {
      assert 0 <= c && 0 !in taken && !BothOurs(online, sibling, 0);
    }
    assert OurPairs(taken, online, sibling) == {};
  }

  // ------------------------------------------------------------------------- reserving

  ghost predicate SoFar(mine: set<nat>, avail: set<nat>, taken: set<nat>, online: set<nat>, sibling: seq<nat>,
                        noht: bool)
  {
    Fresh(mine, avail, sibling, noht) && (!noht ==> OursSoFar(mine, taken, online, sibling))
  }

  /** While something is still missing, the first free core exists, and with its sibling it can be taken. */
  lemma ReserveNext(mine: set<nat>, avail: set<nat>, taken: set<nat>, online: set<nat>, sibling: seq<nat>, noht: bool,
                    guaranteed: nat, core: nat)
    requires RoomFor(avail, taken, online, sibling, noht, guaranteed) && |mine| < guaranteed
    requires SoFar(mine, avail, taken, online, sibling, noht)
    requires core <= |sibling| && (core < |sibling| ==> core !in taken && core !in mine)
    requires forall d: nat :: d < core ==> d in taken || d in mine
    ensures core < |sibling|
    ensures noht ==> SoFar(mine + {core}, avail, taken, online, sibling, noht)
    ensures !noht ==>
              && sibling[core] !in mine && sibling[core] != core
              && SoFar(mine + {core} + {sibling[core]}, avail, taken, online, sibling, noht)
  {
    SomeRemain(online * avail, mine);
    if !noht {
      TakePair(mine, avail, sibling, core);
      ReservePair(mine, avail, taken, online, sibling, core);
    }
  }

  /**
   The reservation loop of ias_attach. It never reserves more than asked; with room for the guarantee
   it succeeds with exactly that many available cores, and says which of them are ours.
   */
  method Reserve(sibling: seq<nat>, noht: bool, taken0: set<nat>, guaranteed: nat,
                 ghost avail: set<nat>, ghost online: set<nat>)
    returns (ok: bool, mine: set<nat>, taken: set<nat>)
    requires noht || guaranteed % 2 == 0
    ensures taken == taken0 + mine && |mine| <= guaranteed
    ensures RoomFor(avail, taken0, online, sibling, noht, guaranteed) ==>
              && ok && Fresh(mine, avail, sibling, noht) && |mine| == guaranteed
              && (mine <= online <==> noht || guaranteed <= |OurPairs(taken0, online, sibling)|)
  {
    ok, mine, taken := true, {}, taken0;
    ghost var room := RoomFor(avail, taken0, online, sibling, noht, guaranteed);
    var i: int := guaranteed;
    while i > 0
      invariant 0 <= i && (noht || i % 2 == 0)
      invariant taken == taken0 + mine && |mine| + i <= guaranteed
      invariant room ==> |mine| + i == guaranteed && SoFar(mine, avail, taken0, online, sibling, noht)
    {
      var core := FirstCleared(taken, |sibling|);
      if room {
        ReserveNext(mine, avail, taken0, online, sibling, noht, guaranteed, core);
      }
      if core == |sibling| {
        ok := false;
        return;
      }
      mine, taken, i := mine + {core}, taken + {core}, i - 1;
      if noht {
        continue;
      }
      var sib := sibling[core];
      mine, taken, i := mine + {sib}, taken + {sib}, i - 1;
    }
    if room && !noht {
      OursExactly(mine, avail, taken0, online, sibling);
    }
  }

  // ------------------------------------------------------------- attaching and detaching

  lemma PairsMinus(a: set<nat>, b: set<nat>, sibling: seq<nat>)
    requires PairsClosed(a, sibling) && PairsClosed(b, sibling)
    ensures PairsClosed(a - b, sibling)
  {
    forall c | c in a && c !in b
      ensures sibling[c] !in b
    {
      assert sibling[sibling[c]] == c;
    }
  }

  lemma OwnedClosed(reg: Registry, online: set<nat>, sibling: seq<nat>, noht: bool)
    requires Reserved(reg, online, sibling, noht)
    ensures Owned(reg.spec) <= Home(online, sibling, noht) * reg.reservedCores
    ensures !noht ==> PairsClosed(Owned(reg.spec), sibling)
  {
    forall c | c in Owned(reg.spec)
      ensures c in Home(online, sibling, noht) * reg.reservedCores
      ensures !noht ==>
                && c < |sibling| && sibling[c] in Owned(reg.spec) && sibling[c] != c
                && sibling[c] < |sibling| && sibling[sibling[c]] == c
    {
      var p :| p in reg.spec && c in reg.spec[p].reserved;
      assert OwnOk(reg.spec[p], reg.reservedCores, Home(online, sibling, noht), sibling, noht);
      assert !noht ==> sibling[c] in reg.spec[p].reserved;
    }
  }

  /** The cores that the next process can get. */
  ghost function Avail(reg: Registry, online: set<nat>, sibling: seq<nat>, noht: bool): set<nat> {
    Home(online, sibling, noht) - Owned(reg.spec)
  }

  /** Admission leaves room for the guarantee, whatever the siblings of our cores are. */
  lemma AdmittedHasRoom(reg: Registry, online: set<nat>, sibling: seq<nat>, noht: bool, guaranteed: nat)
    requires Reserved(reg, online, sibling, noht) && Mutual(online, sibling, noht)
    requires reg.nrGuaranteed + guaranteed <= |online|
    ensures RoomFor(Avail(reg, online, sibling, noht), reg.reservedCores, online, sibling, noht, guaranteed)
  {
    var avail := Avail(reg, online, sibling, noht);
    HomeClosed(online, sibling, noht);
    OwnedClosed(reg, online, sibling, noht);
    if !noht {
      PairsMinus(Home(online, sibling, noht), Owned(reg.spec), sibling);
    }
    assert online == online * avail + online * Owned(reg.spec);
    CardOfUnion(online * avail, online * Owned(reg.spec));
    SubsetCard(online * Owned(reg.spec), Owned(reg.spec));
  }

  lemma CardOfUnion(a: set<nat>, b: set<nat>)
    requires a !! b
    ensures |a + b| == |a| + |b|
  {
  }

  lemma OwnedEntered(spec: Specs, p: Pid, s: Spec)
    requires p !in spec
    ensures Owned(spec[p := s]) == Owned(spec) + s.reserved
  {
    forall c | c in Owned(spec) + s.reserved
      ensures c in Owned(spec[p := s])
    {
      if c in s.reserved {
        assert c in spec[p := s][p].reserved;
      } else {
        var q :| q in spec && c in spec[q].reserved;
        assert c in spec[p := s][q].reserved;
      }
    }
  }

  lemma EnteredApart(spec: Specs, p: Pid, s: Spec)
    requires Apart(spec) && p !in spec && s.reserved !! Owned(spec)
    ensures Apart(spec[p := s])
  {
    forall q | q in spec
      ensures spec[q].reserved !! s.reserved
    {
      assert spec[q].reserved <= Owned(spec);
    }
  }

  lemma EnteredOwn(spec: Specs, taken: set<nat>, home: set<nat>, sibling: seq<nat>, noht: bool, p: Pid, s: Spec)
    requires AllOwn(spec, taken, home, sibling, noht)
    requires s.reserved <= home && |s.reserved| == s.guaranteed && (!noht ==> PairsClosed(s.reserved, sibling))
    ensures AllOwn(spec[p := s], taken + s.reserved, home, sibling, noht)
  {
  }

  lemma EnteredIn(reg: Registry, online: set<nat>, home: set<nat>, sibling: seq<nat>, noht: bool, p: Pid, s: Spec)
    requires ReservedIn(reg, online, home, sibling, noht) && p !in reg.spec && |s.reserved| == s.guaranteed
    requires s.reserved <= home && s.reserved !! Owned(reg.spec) && (!noht ==> PairsClosed(s.reserved, sibling))
    ensures ReservedIn(Entered(reg, p, s), online, home, sibling, noht)
  {
    OwnedEntered(reg.spec, p, s);
    CardOfUnion(Owned(reg.spec), s.reserved);
    EnteredApart(reg.spec, p, s);
    EnteredOwn(reg.spec, reg.reservedCores, home, sibling, noht, p, s);
  }

  lemma EnteredReserved(reg: Registry, online: set<nat>, sibling: seq<nat>, noht: bool, p: Pid, s: Spec)
    requires Reserved(reg, online, sibling, noht) && p !in reg.spec
    requires Fresh(s.reserved, Avail(reg, online, sibling, noht), sibling, noht) && |s.reserved| == s.guaranteed
    ensures Reserved(Entered(reg, p, s), online, sibling, noht)
  {
    EnteredIn(reg, online, Home(online, sibling, noht), sibling, noht, p, s);
  }

  lemma OwnedLeft(spec: Specs, p: Pid)
    requires p in spec && forall q :: q in spec && q != p ==> spec[p].reserved !! spec[q].reserved
    ensures spec[p].reserved <= Owned(spec) && Owned(spec - {p}) == Owned(spec) - spec[p].reserved
    ensures |Owned(spec)| == |Owned(spec - {p})| + |spec[p].reserved|
  {
    forall c | c in Owned(spec) && c !in spec[p].reserved
      ensures c in Owned(spec - {p})
    {
      var q :| q in spec && c in spec[q].reserved;
      assert c in (spec - {p})[q].reserved;
    }
    forall c | c in Owned(spec - {p})
      ensures c in Owned(spec) && c !in spec[p].reserved
    {
      var q :| q in spec - {p} && c in (spec - {p})[q].reserved;
      assert c in spec[q].reserved;
    }
    assert Owned(spec) == Owned(spec - {p}) + spec[p].reserved;
    CardOfUnion(Owned(spec - {p}), spec[p].reserved);
  }

  /** Detaching gives back exactly the process's own cores. */
  lemma LeftReserved(reg: Registry, online: set<nat>, sibling: seq<nat>, noht: bool, p: Pid)
    requires Reserved(reg, online, sibling, noht) && p in reg.spec
    ensures Left(reg, p).reservedCores == reg.reservedCores - reg.spec[p].reserved
    ensures Reserved(Left(reg, p), online, sibling, noht)
  {
    var taken, mine, home := reg.reservedCores, reg.spec[p].reserved, Home(online, sibling, noht);
    assert OwnOk(reg.spec[p], taken, home, sibling, noht);
    assert SymmetricDifference(taken, mine) == taken - mine;
    OwnedLeft(reg.spec, p);
    forall q | q in reg.spec && q != p
      ensures OwnOk(reg.spec[q], taken - mine, home, sibling, noht)
    {
      assert OwnOk(reg.spec[q], taken, home, sibling, noht);
    }
  }

  lemma UnattachedReserved(ncpu: nat, online: set<nat>, sibling: seq<nat>, noht: bool)
    requires |sibling| == ncpu && Mutual(online, sibling, noht)
    ensures Reserved(Unattached(ncpu, online), online, sibling, noht)
  {
    HomeClosed(online, sibling, noht);
    assert Owned(map[]) == {};
  }
}
