/**
 One node of the slab allocator: pages cut into slots, each page with a list of freed
 slots, a current page that may still have slots never handed out, and lists of full and
 of partly free pages.
 */
module Slab {
  import opened Wrappers
  import opened ListSets

  const PARTIAL_THRESH := 4

  type Pg = nat

  /** A slot of a page; its address is the page's plus the offset plus slot times the item size. */
  datatype Item = Item(pg: Pg, slot: nat)

  /** struct page: the chain of freed slots, and item_count. */
  datatype Page = Page(free: seq<nat>, count: nat)

  /**
   struct slab_node. pgSlot is pg_off counted in slots; `live` are the items in the hands of clients.
   */
  datatype Node = Node(
    cur: Option<Pg>,
    pgSlot: nat,
    pages: map<Pg, Page>,
    full: set<Pg>,
    partialSet: set<Pg>, partial: seq<Pg>,
    live: set<Item>)

  // ------------------------------------------------------------------ one page

  /** The slots of a page handed out at some time and given back. */
  ghost function FreeSlots(pg: Pg, carved: nat, live: set<Item>): set<nat> {
    set k: nat | k < carved && Item(pg, k) !in live
  }

  /** The slots below carved are live or on the free list; item_count also counts those never carved. */
  ghost predicate PageOk(pg: Pg, p: Page, carved: nat, live: set<Item>, nrElems: nat) {
    && carved <= nrElems
    && Lists(FreeSlots(pg, carved, live), p.free)
    && p.count == |p.free| + (nrElems - carved)
  }

  lemma PageTake(pg: Pg, p: Page, carved: nat, live: set<Item>, nrElems: nat)
    requires PageOk(pg, p, carved, live, nrElems) && p.free != []
    ensures Item(pg, p.free[0]) !in live && p.free[0] < carved && p.count > 0
    ensures PageOk(pg, Page(p.free[1..], p.count - 1), carved, live + {Item(pg, p.free[0])}, nrElems)
  {
    assert p.free[0] in FreeSlots(pg, carved, live);
    assert FreeSlots(pg, carved, live + {Item(pg, p.free[0])}) == FreeSlots(pg, carved, live) - {p.free[0]};
  }

  lemma PageCarve(pg: Pg, p: Page, carved: nat, live: set<Item>, nrElems: nat)
    requires PageOk(pg, p, carved, live, nrElems) && p.free == [] && p.count > 0
    ensures carved < nrElems
    ensures PageOk(pg, Page([], p.count - 1), carved + 1, live + {Item(pg, carved)}, nrElems)
  {
    assert FreeSlots(pg, carved + 1, live + {Item(pg, carved)}) == FreeSlots(pg, carved, live);
  }

  lemma PageGive(pg: Pg, p: Page, carved: nat, live: set<Item>, nrElems: nat, slot: nat)
    requires PageOk(pg, p, carved, live, nrElems) && Item(pg, slot) in live && slot < carved
    ensures PageOk(pg, Page([slot] + p.free, p.count + 1), carved, live - {Item(pg, slot)}, nrElems)
  {
    assert FreeSlots(pg, carved, live - {Item(pg, slot)}) == FreeSlots(pg, carved, live) + {slot};
    ListsCons(FreeSlots(pg, carved, live), p.free, slot);
  }

  /** A page does not notice items of others. */
  lemma PageOther(pg: Pg, p: Page, carved: nat, live: set<Item>, live': set<Item>, nrElems: nat)
    requires PageOk(pg, p, carved, live, nrElems) && forall k: nat :: Item(pg, k) in live <==> Item(pg, k) in live'
    ensures PageOk(pg, p, carved, live', nrElems)
  {
    assert FreeSlots(pg, carved, live') == FreeSlots(pg, carved, live);
  }

  lemma {:induction false} SlotsBelow(n: nat, s: set<nat>)
    requires forall k :: k in s ==> k < n
    ensures |s| <= n
    ensures |s| == n <==> forall k: nat :: k < n ==> k in s
    decreases n
  {
    if n > 0 {
      SlotsBelow(n - 1, s - {n - 1});
      assert n - 1 in s ==> s == (s - {n - 1}) + {n - 1};
      assert n - 1 !in s ==> s == s - {n - 1};
    } else {
      assert s == {};
    }
  }

  /** item_count reaches nr_elems exactly when no item of the page is live. */
  lemma CountsLive(pg: Pg, p: Page, carved: nat, live: set<Item>, nrElems: nat)
    requires PageOk(pg, p, carved, live, nrElems)
    ensures p.count <= nrElems
    ensures p.count == nrElems <==> forall k: nat :: k < carved ==> Item(pg, k) !in live
  {
    var s := FreeSlots(pg, carved, live);
    ListsMeans(s, p.free);
    SlotsBelow(carved, s);
    assert forall k: nat :: k < carved ==> (k in s <==> Item(pg, k) !in live);
  }

  // ------------------------------------------------------------------ the node

  /** Only the current page may have slots that were never handed out. */
  function Carved(s: Node, pg: Pg, nrElems: nat): nat {
    if s.cur == Some(pg) then s.pgSlot else nrElems
  }

  function CurSet(s: Node): set<Pg> {
    if s.cur.Some? then {s.cur.value} else {}
  }

  /** Every page is the current one, full or partly free. */
  ghost predicate ListsOk(s: Node, nrElems: nat) {
    && s.pages.Keys == s.full + s.partialSet + CurSet(s)
    && s.full !! s.partialSet && CurSet(s) !! s.full && CurSet(s) !! s.partialSet
    && Lists(s.partialSet, s.partial)
    && (forall pg :: pg in s.full ==> s.pages[pg].count < PARTIAL_THRESH)
    && (forall pg :: pg in s.partialSet ==> PARTIAL_THRESH <= s.pages[pg].count < nrElems)
  }

  /** The slots of every page are partitioned into live, freed and never carved. */
  ghost predicate SlotsOk(s: Node, nrElems: nat) {
    && s.pgSlot <= nrElems
    && (forall pg :: pg in s.pages ==> PageOk(pg, s.pages[pg], Carved(s, pg, nrElems), s.live, nrElems))
    && (forall x :: x in s.live ==> x.pg in s.pages && x.slot < Carved(s, x.pg, nrElems))
    && (s.cur.None? && s.pages != map[] ==> s.pgSlot == nrElems)
  }

  ghost predicate Inv(s: Node, nrElems: nat) {
    PARTIAL_THRESH < nrElems && ListsOk(s, nrElems) && SlotsOk(s, nrElems)
  }

  /** Every slot of every page is exactly one of live, freed and never carved. */
  lemma SlotPartition(s: Node, nrElems: nat, pg: Pg, k: nat)
    requires Inv(s, nrElems) && pg in s.pages && k < nrElems
    ensures Item(pg, k) in s.live ==> k !in s.pages[pg].free && k < Carved(s, pg, nrElems)
    ensures k in s.pages[pg].free ==> Item(pg, k) !in s.live && k < Carved(s, pg, nrElems)
    ensures k < Carved(s, pg, nrElems) ==> Item(pg, k) in s.live || k in s.pages[pg].free
    ensures Distinct(s.pages[pg].free)
  {
    var carved := Carved(s, pg, nrElems);
    assert PageOk(pg, s.pages[pg], carved, s.live, nrElems);
    ListsMeans(FreeSlots(pg, carved, s.live), s.pages[pg].free);
  }

  /** A slot lies within its page: the bytes from the offset to the end hold nr_elems items. */
  lemma SlotWithinPage(offset: nat, size: nat, pgSize: nat, nrElems: nat, slot: nat)
    requires offset + nrElems * size <= pgSize && slot < nrElems && size > 0
    ensures offset + slot * size + size <= pgSize && offset + slot * size < pgSize
  {
    assert (slot + 1) * size <= nrElems * size;
  }

  // ------------------------------------------------------------------ changing the current page

  /** The used-up current page goes to the full list. */
  function Retired(s: Node): Node {
    s.(full := s.full + CurSet(s), cur := None)
  }

  lemma RetiredInv(s: Node, nrElems: nat)
    requires Inv(s, nrElems) && s.cur.Some? && s.pages[s.cur.value].count == 0
    ensures Inv(Retired(s), nrElems) && Retired(s).pgSlot == nrElems
  {
    var pg := s.cur.value;
    assert PageOk(pg, s.pages[pg], s.pgSlot, s.live, nrElems);
    forall q | q in Retired(s).pages
      ensures PageOk(q, s.pages[q], nrElems, s.live, nrElems)
    {
      assert PageOk(q, s.pages[q], Carved(s, q, nrElems), s.live, nrElems);
    }
  }

  /** The first partly free page becomes the current one. */
  function Reloaded(s: Node): Node
    requires s.partial != []
  {
    s.(cur := Some(s.partial[0]), partialSet := s.partialSet - {s.partial[0]}, partial := s.partial[1..])
  }

  lemma ReloadedInv(s: Node, nrElems: nat)
    requires Inv(s, nrElems) && s.cur.None? && s.partial != []
    ensures Inv(Reloaded(s), nrElems) && Reloaded(s).pages[s.partial[0]].count > 0
  {
    var pg := s.partial[0];
    assert pg in s.partialSet && pg in s.pages;
    forall q | q in s.pages
      ensures PageOk(q, s.pages[q], Carved(Reloaded(s), q, nrElems), s.live, nrElems)
    {
      assert PageOk(q, s.pages[q], Carved(s, q, nrElems), s.live, nrElems);
    }
  }

  /** A fresh page becomes the current one, with all of its slots uncarved. */
  function Refilled(s: Node, pg: Pg, nrElems: nat): Node {
    s.(cur := Some(pg), pgSlot := 0, pages := s.pages[pg := Page([], nrElems)])
  }

  lemma RefilledInv(s: Node, pg: Pg, nrElems: nat)
    requires Inv(s, nrElems) && s.cur.None? && pg !in s.pages
    ensures Inv(Refilled(s, pg, nrElems), nrElems)
  {
    var s' := Refilled(s, pg, nrElems);
    assert FreeSlots(pg, 0, s.live) == {};
    forall q | q in s'.pages
      ensures PageOk(q, s'.pages[q], Carved(s', q, nrElems), s.live, nrElems)
    {
      if q != pg {
        assert PageOk(q, s.pages[q], Carved(s, q, nrElems), s.live, nrElems);
      }
    }
  }

  // ------------------------------------------------------------------ taking and giving

  /** The item the current page hands out next. */
  function NextItem(s: Node): Item
    requires s.cur.Some? && s.cur.value in s.pages
  {
    var p := s.pages[s.cur.value];
    Item(s.cur.value, if p.free != [] then p.free[0] else s.pgSlot)
  }

  function Taken(s: Node): Node
    requires s.cur.Some? && s.cur.value in s.pages && s.pages[s.cur.value].count > 0
  {
    var pg := s.cur.value;
    var p := s.pages[pg];
    var p' := Page(if p.free != [] then p.free[1..] else [], p.count - 1);
    s.(pages := s.pages[pg := p'], pgSlot := if p.free != [] then s.pgSlot else s.pgSlot + 1,
       live := s.live + {NextItem(s)})
  }

  lemma TakenSlots(s: Node, nrElems: nat)
    requires SlotsOk(s, nrElems) && s.cur.Some? && s.cur.value in s.pages && s.pages[s.cur.value].count > 0
    ensures SlotsOk(Taken(s), nrElems)
    ensures NextItem(s) !in s.live && NextItem(s).slot < nrElems
  {
    var pg := s.cur.value;
    var p := s.pages[pg];
    assert PageOk(pg, p, s.pgSlot, s.live, nrElems);
    if p.free != [] {
      PageTake(pg, p, s.pgSlot, s.live, nrElems);
    } else {
      PageCarve(pg, p, s.pgSlot, s.live, nrElems);
      assert Item(pg, s.pgSlot) !in s.live;
    }
    OthersKept(s, s.live + {NextItem(s)}, pg, nrElems);
  }

  /** The item handed out was not live, lies within the page, and everything else stays as it was. */
  lemma TakenInv(s: Node, nrElems: nat)
    requires Inv(s, nrElems) && s.cur.Some? && s.pages[s.cur.value].count > 0
    ensures Inv(Taken(s), nrElems)
    ensures NextItem(s) !in s.live && NextItem(s).slot < nrElems
  {
    TakenSlots(s, nrElems);
    assert Taken(s).pages.Keys == s.pages.Keys;
  }

  lemma OthersKept(s: Node, live': set<Item>, pg: Pg, nrElems: nat)
    requires SlotsOk(s, nrElems) && forall x: Item :: x.pg != pg ==> (x in s.live <==> x in live')
    ensures forall q :: q in s.pages && q != pg ==> PageOk(q, s.pages[q], Carved(s, q, nrElems), live', nrElems)
  {
    forall q | q in s.pages && q != pg
      ensures PageOk(q, s.pages[q], Carved(s, q, nrElems), live', nrElems)
    {
      PageOther(q, s.pages[q], Carved(s, q, nrElems), s.live, live', nrElems);
    }
  }

  /** The item's page with the item back on its free list. */
  function PageWith(s: Node, x: Item): Page
    requires x.pg in s.pages
  {
    Page([x.slot] + s.pages[x.pg].free, s.pages[x.pg].count + 1)
  }

  /** slab_node_free: the page may become partly free, or be given back altogether. */
  function Given(s: Node, x: Item, nrElems: nat): Node
    requires x.pg in s.pages
  {
    var p := PageWith(s, x);
    var s1 := s.(pages := s.pages[x.pg := p], live := s.live - {x});
    if s.cur == Some(x.pg) then s1
    else if p.count == PARTIAL_THRESH then
      s1.(full := s.full - {x.pg}, partialSet := s.partialSet + {x.pg}, partial := [x.pg] + s.partial)
    else if p.count == nrElems then
      s1.(pages := s.pages - {x.pg}, partialSet := s.partialSet - {x.pg}, partial := Without(s.partial, x.pg))
    else s1
  }

  lemma GivenSlots(s: Node, x: Item, nrElems: nat)
    requires Inv(s, nrElems) && x in s.live
    ensures var s1 := s.(pages := s.pages[x.pg := PageWith(s, x)], live := s.live - {x}); SlotsOk(s1, nrElems)
  {
    PageGive(x.pg, s.pages[x.pg], Carved(s, x.pg, nrElems), s.live, nrElems, x.slot);
    OthersKept(s, s.live - {x}, x.pg, nrElems);
  }

  /** A page is given back only when none of its items is live. */
  lemma ReleasedIsDead(s: Node, x: Item, nrElems: nat)
    requires Inv(s, nrElems) && x in s.live && s.cur != Some(x.pg) && PageWith(s, x).count == nrElems
    ensures forall k: nat :: Item(x.pg, k) in s.live ==> k == x.slot
    ensures x.pg in s.partialSet
  {
    PageGive(x.pg, s.pages[x.pg], nrElems, s.live, nrElems, x.slot);
    CountsLive(x.pg, PageWith(s, x), nrElems, s.live - {x}, nrElems);
    forall k: nat | Item(x.pg, k) in s.live
      ensures k == x.slot
    {
      assert k < Carved(s, x.pg, nrElems);
    }
  }

  /** Without the page, the slots of the others are as before. */
  lemma ReleasedSlots(s: Node, pg: Pg, nrElems: nat)
    requires SlotsOk(s, nrElems) && s.cur != Some(pg) && pg in s.pages && forall x :: x in s.live ==> x.pg != pg
    ensures SlotsOk(s.(pages := s.pages - {pg}), nrElems)
  {
  }

  lemma GivenPartial(s: Node, x: Item, nrElems: nat)
    requires Inv(s, nrElems) && x in s.live && s.cur != Some(x.pg) && PageWith(s, x).count == PARTIAL_THRESH
    ensures ListsOk(Given(s, x, nrElems), nrElems)
  {
    ListsCons(s.partialSet, s.partial, x.pg);
  }

  lemma GivenBackSlots(s: Node, x: Item, nrElems: nat)
    requires Inv(s, nrElems) && x in s.live && s.cur != Some(x.pg) && PageWith(s, x).count == nrElems
    ensures SlotsOk(s.(pages := s.pages - {x.pg}, live := s.live - {x}), nrElems)
  {
    var s1 := s.(pages := s.pages[x.pg := PageWith(s, x)], live := s.live - {x});
    GivenSlots(s, x, nrElems);
    ReleasedIsDead(s, x, nrElems);
    ReleasedSlots(s1, x.pg, nrElems);
    assert s1.pages - {x.pg} == s.pages - {x.pg};
  }

  lemma GivenBackLists(s: Node, x: Item, nrElems: nat)
    requires Inv(s, nrElems) && x in s.live && s.cur != Some(x.pg) && PageWith(s, x).count == nrElems
    ensures ListsOk(Given(s, x, nrElems), nrElems)
  {
    ReleasedIsDead(s, x, nrElems);
    ListsWithout(s.partialSet, s.partial, x.pg);
    assert (s.pages - {x.pg}).Keys == s.pages.Keys - {x.pg};
  }

  lemma GivenBack(s: Node, x: Item, nrElems: nat)
    requires Inv(s, nrElems) && x in s.live && s.cur != Some(x.pg) && PageWith(s, x).count == nrElems
    ensures Inv(Given(s, x, nrElems), nrElems)
  {
    GivenBackLists(s, x, nrElems);
    GivenBackSlots(s, x, nrElems);
    SlotsOnly(s.(pages := s.pages - {x.pg}, live := s.live - {x}), Given(s, x, nrElems), nrElems);
  }

  /** The slots do not depend on the lists. */
  lemma SlotsOnly(s: Node, s': Node, nrElems: nat)
    requires SlotsOk(s, nrElems)
    requires s'.cur == s.cur && s'.pgSlot == s.pgSlot && s'.pages == s.pages && s'.live == s.live
    ensures SlotsOk(s', nrElems)
  {
    forall pg | pg in s'.pages
      ensures PageOk(pg, s'.pages[pg], Carved(s', pg, nrElems), s'.live, nrElems)
    {
      assert PageOk(pg, s.pages[pg], Carved(s, pg, nrElems), s.live, nrElems);
    }
  }

  lemma GivenInv(s: Node, x: Item, nrElems: nat)
    requires Inv(s, nrElems) && x in s.live
    ensures Inv(Given(s, x, nrElems), nrElems) && Given(s, x, nrElems).live == s.live - {x}
  {
    GivenSlots(s, x, nrElems);
    if s.cur == Some(x.pg) {
      assert ListsOk(Given(s, x, nrElems), nrElems);
    } else if PageWith(s, x).count == PARTIAL_THRESH {
      GivenPartial(s, x, nrElems);
      SlotsOnly(s.(pages := s.pages[x.pg := PageWith(s, x)], live := s.live - {x}), Given(s, x, nrElems), nrElems);
    } else if PageWith(s, x).count == nrElems {
      GivenBack(s, x, nrElems);
    } else {
      assert ListsOk(Given(s, x, nrElems), nrElems);
    }
  }

  // ------------------------------------------------------------------ the allocator

  datatype PageResult = GotPage | OutOfMemory

  class SlabNode {
    const nrElems: nat
    var s: Node

    ghost predicate Valid()
      reads this
    {
      Inv(s, nrElems)
    }

    constructor (nrElems: nat)
      requires PARTIAL_THRESH < nrElems
      ensures Valid() && s.live == {} && this.nrElems == nrElems
    {
      this.nrElems := nrElems;
      s := Node(None, 0, map[], {}, {}, [], {});
    }

    /** __slab_node_get_page: a partly free page, else a fresh one; supply is what the page allocator answers. */
    method GetPage(supply: Option<Pg>)
      requires Valid() && s.cur.None? && (supply.Some? ==> supply.value !in s.pages)
      modifies this
      ensures Valid() && s.live == old(s.live)
      ensures s.cur.None? <==> old(s.partial) == [] && supply.None?
      ensures s.cur.Some? ==> s.cur.value in s.pages && s.pages[s.cur.value].count > 0
      ensures s.pages.Keys <= old(s.pages.Keys) + (if supply.Some? then {supply.value} else {})
    {
      if s.partial != [] {
        ReloadedInv(s, nrElems);
        s := Reloaded(s);
      } else if supply.Some? {
        RefilledInv(s, supply.value, nrElems);
        s := Refilled(s, supply.value, nrElems);
      }
    }

    /** __slab_node_alloc: never hands out a live item, and fails only when no page can be had. */
    method Alloc(supply: Option<Pg>) returns (r: Option<Item>)
      requires Valid() && (supply.Some? ==> supply.value !in s.pages)
      modifies this
      ensures Valid()
      ensures r.None? ==> s.live == old(s.live)
      ensures r.None? <==> supply.None? && old(s.partial == [] && (s.cur.None? || s.pages[s.cur.value].count == 0))
      ensures r.Some? ==> r.value !in old(s.live) && s.live == old(s.live) + {r.value} && r.value.slot < nrElems
      ensures s.pages.Keys <= old(s.pages.Keys) + (if supply.Some? then {supply.value} else {})
    {
      if s.cur.None? || s.pages[s.cur.value].count == 0 {
        if s.cur.Some? {
          RetiredInv(s, nrElems);
          s := Retired(s);
        }
        GetPage(supply);
        if s.cur.None? {
          return None;
        }
      }
      TakenInv(s, nrElems);
      r := Some(NextItem(s));
      s := Taken(s);
    }

    /** slab_node_free; answers the page that was given back, if any, which has no live item left. */
    method Free(x: Item) returns (released: Option<Pg>)
      requires Valid() && x in s.live
      modifies this
      ensures Valid() && s == Given(old(s), x, nrElems) && s.live == old(s.live) - {x}
      ensures released.Some? <==> x.pg !in s.pages
      ensures released.Some? ==> released.value == x.pg && forall y :: y in s.live ==> y.pg != x.pg
    {
      GivenInv(s, x, nrElems);
      s := Given(s, x, nrElems);
      released := if x.pg in s.pages then None else Some(x.pg);
    }

    /**
     slab_tcache_alloc: all of the items or none; after a failure no item of the batch is live any
     more. The page allocator answers the i-th request with supply[i].
     */
    method AllocBatch(nr: nat, supply: seq<Option<Pg>>) returns (ok: bool, items: seq<Item>)
      requires Valid() && |supply| == nr
      requires forall i :: 0 <= i < nr && supply[i].Some? ==> supply[i].value !in s.pages
      requires forall i, j :: 0 <= i < j < nr && supply[i].Some? ==> supply[i] != supply[j]
      modifies this
      ensures Valid()
      ensures ok ==> |items| == nr && Fresh(old(s.live), items, nr) && s.live == Plus(old(s.live), items, nr)
      ensures !ok ==> s.live == old(s.live)
    {
      items := [];
      for i := 0 to nr
        invariant Valid() && |items| == i
        invariant Fresh(old(s.live), items, i) && s.live == Plus(old(s.live), items, i)
        invariant forall k :: i <= k < nr && supply[k].Some? ==> supply[k].value !in s.pages
      {
        var r := Alloc(supply[i]);
        if r.None? {
          FreeBatch(items, old(s.live));
          return false, [];
        }
        BatchGrows(old(s.live), items, r.value);
        items := items + [r.value];
      }
      ok := true;
    }

    /** The rollback of slab_tcache_alloc, from the last item to the first. */
    method FreeBatch(items: seq<Item>, ghost before: set<Item>)
      requires Valid() && Fresh(before, items, |items|) && s.live == Plus(before, items, |items|)
      modifies this
      ensures Valid() && s.live == before
    {
      for i := |items| downto 0
        invariant Valid() && Fresh(before, items, i) && s.live == Plus(before, items, i)
      {
        var _ := Free(items[i]);
      }
    }
  }

  /** The set with the first n items added. */
  ghost function Plus(before: set<Item>, items: seq<Item>, n: nat): set<Item>
    requires n <= |items|
  {
    if n == 0 then before else Plus(before, items, n - 1) + {items[n - 1]}
  }

  /** Each of the first n items is new when it is added. */
  ghost predicate Fresh(before: set<Item>, items: seq<Item>, n: nat)
    requires n <= |items|
  {
    n > 0 ==> Fresh(before, items, n - 1) && items[n - 1] !in Plus(before, items, n - 1)
  }

  lemma {:induction false} PlusPrefix(before: set<Item>, items: seq<Item>, x: Item, n: nat)
    requires n <= |items|
    ensures Plus(before, items + [x], n) == Plus(before, items, n)
    ensures Fresh(before, items + [x], n) == Fresh(before, items, n)
    decreases n
  {
    if n > 0 {
      PlusPrefix(before, items, x, n - 1);
    }
  }

  lemma BatchGrows(before: set<Item>, items: seq<Item>, x: Item)
    requires Fresh(before, items, |items|) && x !in Plus(before, items, |items|)
    ensures Fresh(before, items + [x], |items| + 1)
    ensures Plus(before, items + [x], |items| + 1) == Plus(before, items, |items|) + {x}
  {
    PlusPrefix(before, items, x, |items|);
  }

  /** A fresh batch has no item twice and none that was live before. */
  lemma {:induction false} FreshMeans(before: set<Item>, items: seq<Item>, n: nat, i: nat)
    requires i < n <= |items| && Fresh(before, items, n)
    ensures items[i] !in before && items[i] in Plus(before, items, n) && before <= Plus(before, items, n)
    ensures forall j :: i < j < n ==> items[j] != items[i]
    decreases n
  {
    PlusContains(before, items, n - 1);
    if i < n - 1 {
      FreshMeans(before, items, n - 1, i);
    }
  }

  lemma {:induction false} PlusContains(before: set<Item>, items: seq<Item>, n: nat)
    requires n <= |items|
    ensures before <= Plus(before, items, n)
    decreases n
  {
    if n > 0 {
      PlusContains(before, items, n - 1);
    }
  }
}
