/**
 The thread-local item cache: per-thread loaded and previous magazines, a shared pool of
 full magazines, and a backing store. Magazines are chains through the items themselves.

 The pointers are modelled as maps over items, with 0 for NULL; a view of the same state as
 numbered magazines says where every item is.
 */
module Tcache {
  import opened Wrappers
  import opened ListSets

  const MAX_MAG_SIZE := 64

  type Thread = nat
  type Ptr = nat
  type MagId = nat
  type PoolId = nat
  type Call = nat     // a call of tcache_reclaim

  /** struct tcache_perthread. */
  datatype Ltc = Ltc(rounds: nat, loaded: Ptr, previous: Ptr)

  /** The links between magazines: shared_mags, and where each call of tcache_reclaim is in the list it detached. */
  datatype Links = Links(nextMag: map<Ptr, Ptr>, sharedMags: Ptr, hdrs: map<Call, Ptr>)

  /** The state the code keeps. */
  datatype Cache = Cache(nextItem: map<Ptr, Ptr>, links: Links, threads: map<Thread, Ltc>, magsAllocated: int)

  /** An item outside the backing store is with a client, or in a magazine, so many from its end. */
  datatype Place = Client | InMag(mag: MagId, depth: nat)

  datatype Slot = Loaded(t: Thread) | Previous(t: Thread) | Pooled(pool: PoolId, depth: nat)

  /** The magazines with their slots. */
  datatype Racks = Racks(mags: map<MagId, seq<Ptr>>, slots: map<MagId, Slot>)

  /** The magazines of a thread. */
  datatype Pair = Pair(loaded: Option<MagId>, previous: Option<MagId>)

  /** The lists of full magazines: the shared pool, and what each call of tcache_reclaim has yet to return. */
  datatype Pools = Pools(lists: map<PoolId, seq<MagId>>, shared: PoolId, detached: map<Call, PoolId>)

  /** The magazines, where they are, and where the items are. */
  datatype View = View(r: Racks, threads: map<Thread, Pair>, pools: Pools, place: map<Ptr, Place>)

  // ------------------------------------------------------------------ items in magazines

  ghost predicate ItemOk(mag: seq<Ptr>, id: MagId, i: nat, nextItem: map<Ptr, Ptr>, place: map<Ptr, Place>)
    requires i < |mag|
  {
    && mag[i] != 0 && mag[i] in place && place[mag[i]] == InMag(id, |mag| - i)
    && mag[i] in nextItem && nextItem[mag[i]] == if i + 1 < |mag| then mag[i + 1] else 0
  }

  /** A magazine is a chain through next_item that ends in NULL. */
  ghost predicate MagOk(mag: seq<Ptr>, id: MagId, nextItem: map<Ptr, Ptr>, place: map<Ptr, Place>) {
    mag != [] && forall i :: 0 <= i < |mag| ==> ItemOk(mag, id, i, nextItem, place)
  }

  /** The magazine an item is placed in has it there. */
  ghost predicate Backed(mags: map<MagId, seq<Ptr>>, at: Place, x: Ptr) {
    at.InMag? ==>
      at.mag in mags && 1 <= at.depth <= |mags[at.mag]| && mags[at.mag][|mags[at.mag]| - at.depth] == x
  }

  ghost predicate ItemsOk(mags: map<MagId, seq<Ptr>>, nextItem: map<Ptr, Ptr>, place: map<Ptr, Place>) {
    && (forall id :: id in mags ==> MagOk(mags[id], id, nextItem, place))
    && (forall x :: x in place ==> x != 0 && Backed(mags, place[x], x))
  }

  /** Take the first item of a magazine; a magazine with one item disappears. */
  function PopMag(mags: map<MagId, seq<Ptr>>, id: MagId): map<MagId, seq<Ptr>>
    requires id in mags && mags[id] != []
  {
    if |mags[id]| == 1 then mags - {id} else mags[id := mags[id][1..]]
  }

  lemma PopItems(mags: map<MagId, seq<Ptr>>, nextItem: map<Ptr, Ptr>, place: map<Ptr, Place>, id: MagId)
    requires ItemsOk(mags, nextItem, place) && id in mags
    ensures ItemsOk(PopMag(mags, id), nextItem, place[mags[id][0] := Client])
    ensures mags[id][0] in nextItem && nextItem[mags[id][0]] == if |mags[id]| == 1 then 0 else mags[id][1]
  {
    var mag := mags[id];
    assert MagOk(mag, id, nextItem, place) && ItemOk(mag, id, 0, nextItem, place);
    var place' := place[mag[0] := Client];
    forall j | j in PopMag(mags, id)
      ensures MagOk(PopMag(mags, id)[j], j, nextItem, place')
    {
      var m := PopMag(mags, id)[j];
      assert MagOk(mags[j], j, nextItem, place);
      forall i | 0 <= i < |m|
        ensures ItemOk(m, j, i, nextItem, place')
      {
        assert ItemOk(mags[j], j, if j == id then i + 1 else i, nextItem, place);
      }
    }
  }

  /** A magazine none of whose items changed. */
  lemma KeptMag(mag: seq<Ptr>, id: MagId, nextItem: map<Ptr, Ptr>, place: map<Ptr, Place>,
                nextItem': map<Ptr, Ptr>, place': map<Ptr, Place>)
    requires MagOk(mag, id, nextItem, place)
    requires forall x :: x in place && place[x].InMag? && place[x].mag == id ==>
               x in place' && place'[x] == place[x] && (x in nextItem ==> x in nextItem' && nextItem'[x] == nextItem[x])
    ensures MagOk(mag, id, nextItem', place')
  {
    forall i | 0 <= i < |mag|
      ensures ItemOk(mag, id, i, nextItem', place')
    {
      assert ItemOk(mag, id, i, nextItem, place);
    }
  }

  lemma PushedMag(mag: seq<Ptr>, id: MagId, nextItem: map<Ptr, Ptr>, place: map<Ptr, Place>, x: Ptr)
    requires MagOk(mag, id, nextItem, place) && x in place && place[x] == Client && x != 0
    ensures MagOk([x] + mag, id, nextItem[x := mag[0]], place[x := InMag(id, |mag| + 1)])
  {
    var m := [x] + mag;
    var nextItem', place' := nextItem[x := mag[0]], place[x := InMag(id, |mag| + 1)];
    forall i | 0 <= i < |m|
      ensures ItemOk(m, id, i, nextItem', place')
    {
      if i > 0 {
        assert m[i] == mag[i - 1] && ItemOk(mag, id, i - 1, nextItem, place);
      }
    }
  }

  /** Put a client's item in front of a magazine. */
  lemma PushItems(mags: map<MagId, seq<Ptr>>, nextItem: map<Ptr, Ptr>, place: map<Ptr, Place>, id: MagId, x: Ptr)
    requires ItemsOk(mags, nextItem, place) && id in mags && x in place && place[x] == Client
    ensures ItemsOk(mags[id := [x] + mags[id]], nextItem[x := mags[id][0]], place[x := InMag(id, |mags[id]| + 1)])
  {
    var mags' := mags[id := [x] + mags[id]];
    var nextItem' := nextItem[x := mags[id][0]];
    var place' := place[x := InMag(id, |mags[id]| + 1)];
    forall j | j in mags'
      ensures MagOk(mags'[j], j, nextItem', place')
    {
      assert MagOk(mags[j], j, nextItem, place);
      if j == id {
        PushedMag(mags[id], id, nextItem, place, x);
      } else {
        KeptMag(mags[j], j, nextItem, place, nextItem', place');
      }
    }
  }

  /** Start a new magazine with a client's item. */
  lemma StartItems(mags: map<MagId, seq<Ptr>>, nextItem: map<Ptr, Ptr>, place: map<Ptr, Place>, id: MagId, x: Ptr)
    requires ItemsOk(mags, nextItem, place) && id !in mags && x in place && place[x] == Client
    ensures ItemsOk(mags[id := [x]], nextItem[x := 0], place[x := InMag(id, 1)])
  {
    forall j | j in mags
      ensures MagOk(mags[j], j, nextItem[x := 0], place[x := InMag(id, 1)])
    {
      KeptMag(mags[j], j, nextItem, place, nextItem[x := 0], place[x := InMag(id, 1)]);
    }
  }

  // ------------------------------------------------------------------ magazines in slots

  function Head(mags: map<MagId, seq<Ptr>>, o: Option<MagId>): Ptr {
    if o.Some? && o.value in mags && mags[o.value] != [] then mags[o.value][0] else 0
  }

  /** The magazine is in this slot, and of this size. */
  predicate Sits(r: Racks, id: MagId, slot: Slot, size: nat) {
    id in r.mags && id in r.slots && r.slots[id] == slot && |r.mags[id]| == size
  }

  /** rounds counts the loaded magazine, which there is only if it has items; the previous magazine is full. */
  predicate ThreadOk(r: Racks, t: Thread, p: Pair, l: Ltc, magSize: nat) {
    && l.loaded == Head(r.mags, p.loaded) && l.previous == Head(r.mags, p.previous) && l.rounds <= magSize
    && (p.loaded.Some? ==> l.rounds > 0 && Sits(r, p.loaded.value, Slot.Loaded(t), l.rounds))
    && (p.loaded.None? ==> l.rounds == 0)
    && (p.previous.Some? ==> Sits(r, p.previous.value, Slot.Previous(t), magSize))
  }

  ghost predicate ThreadsOk(r: Racks, pairs: map<Thread, Pair>, threads: map<Thread, Ltc>, magSize: nat) {
    pairs.Keys == threads.Keys && forall t :: t in pairs ==> ThreadOk(r, t, pairs[t], threads[t], magSize)
  }

  /** The first item of the k-th magazine of a list. */
  function HeadAt(mags: map<MagId, seq<Ptr>>, list: seq<MagId>, k: nat): Ptr {
    if k < |list| then Head(mags, Some(list[k])) else 0
  }

  /** A magazine of a list is full and linked to the next. */
  predicate PooledOk(r: Racks, pool: PoolId, list: seq<MagId>, nextMag: map<Ptr, Ptr>, magSize: nat, k: nat)
    requires k < |list|
  {
    && Sits(r, list[k], Pooled(pool, |list| - k), magSize)
    && HeadAt(r.mags, list, k) in nextMag
    && nextMag[HeadAt(r.mags, list, k)] == HeadAt(r.mags, list, k + 1)
  }

  ghost predicate PoolOk(r: Racks, pool: PoolId, list: seq<MagId>, nextMag: map<Ptr, Ptr>, magSize: nat) {
    forall k :: 0 <= k < |list| ==> PooledOk(r, pool, list, nextMag, magSize, k)
  }

  ghost predicate PoolsOk(r: Racks, lists: map<PoolId, seq<MagId>>, nextMag: map<Ptr, Ptr>, magSize: nat) {
    forall pool :: pool in lists ==> PoolOk(r, pool, lists[pool], nextMag, magSize)
  }

  /** The pointer is the head of the list. */
  predicate Starts(mags: map<MagId, seq<Ptr>>, lists: map<PoolId, seq<MagId>>, pool: PoolId, head: Ptr) {
    pool in lists && head == HeadAt(mags, lists[pool], 0)
  }

  /** shared_mags and the calls in progress each have a list of their own. */
  ghost predicate HeadsOk(mags: map<MagId, seq<Ptr>>, pools: Pools, links: Links) {
    && Starts(mags, pools.lists, pools.shared, links.sharedMags)
    && pools.detached.Keys == links.hdrs.Keys
    && (forall c :: c in links.hdrs ==> Starts(mags, pools.lists, pools.detached[c], links.hdrs[c]))
    && (forall c :: c in links.hdrs ==> pools.detached[c] != pools.shared)
    && (forall c, d :: c in links.hdrs && d in links.hdrs && pools.detached[c] == pools.detached[d] ==> c == d)
  }

  ghost predicate PoolInv(r: Racks, pools: Pools, links: Links, magSize: nat) {
    PoolsOk(r, pools.lists, links.nextMag, magSize) && HeadsOk(r.mags, pools, links)
  }

  predicate InList(list: seq<MagId>, depth: nat, id: MagId) {
    1 <= depth <= |list| && list[|list| - depth] == id
  }

  /** The slot a magazine claims to be in holds it. */
  predicate SlotOk(v: View, id: MagId)
    requires id in v.r.slots
  {
    match v.r.slots[id]
    case Loaded(t) => t in v.threads && v.threads[t].loaded == Some(id)
    case Previous(t) => t in v.threads && v.threads[t].previous == Some(id)
    case Pooled(q, d) => q in v.pools.lists && InList(v.pools.lists[q], d, id)
  }

  ghost predicate SlotsOk(v: View) {
    v.r.slots.Keys == v.r.mags.Keys && forall id :: id in v.r.slots ==> SlotOk(v, id)
  }

  /** The number of items in so many magazines. */
  function ItemsIn(mags: nat, magSize: nat): nat {
    if mags == 0 then 0 else ItemsIn(mags - 1, magSize) + magSize
  }

  lemma {:induction false} ItemsInIsProduct(mags: nat, magSize: nat)
    ensures ItemsIn(mags, magSize) == mags * magSize
  {
    if mags > 0 {
      ItemsInIsProduct(mags - 1, magSize);
    }
  }

  ghost predicate Inv(c: Cache, v: View, magSize: nat) {
    && 1 <= magSize <= MAX_MAG_SIZE
    && ItemsOk(v.r.mags, c.nextItem, v.place)
    && ThreadsOk(v.r, v.threads, c.threads, magSize)
    && PoolInv(v.r, v.pools, c.links, magSize)
    && SlotsOk(v)
    && c.magsAllocated >= 0 && ItemsIn(c.magsAllocated, magSize) == |v.place|
  }

  /** Only this magazine may differ. */
  ghost predicate Only(r: Racks, r': Racks, id: MagId) {
    && (forall j :: j != id && j in r.mags ==> j in r'.mags && r'.mags[j] == r.mags[j])
    && (forall j :: j != id && j in r.slots ==> j in r'.slots && r'.slots[j] == r.slots[j])
  }

  /** A thread does not notice a change to a magazine it does not have. */
  lemma ThreadFrame(r: Racks, r': Racks, t: Thread, p: Pair, l: Ltc, magSize: nat, id: MagId)
    requires ThreadOk(r, t, p, l, magSize) && Only(r, r', id)
    requires p.loaded != Some(id) && p.previous != Some(id)
    ensures ThreadOk(r', t, p, l, magSize)
  {
  }

  /** The other threads do not notice a change to a magazine of thread t or of the pool. */
  lemma ThreadsFrame(r: Racks, r': Racks, pairs: map<Thread, Pair>, threads: map<Thread, Ltc>, magSize: nat,
                     id: MagId, t: Thread, p: Pair, l: Ltc)
    requires ThreadsOk(r, pairs, threads, magSize) && Only(r, r', id) && t in pairs
    requires forall u :: u in pairs && u != t ==> pairs[u].loaded != Some(id) && pairs[u].previous != Some(id)
    requires ThreadOk(r', t, p, l, magSize)
    ensures ThreadsOk(r', pairs[t := p], threads[t := l], magSize)
  {
    forall u | u in pairs && u != t
      ensures ThreadOk(r', u, pairs[u], threads[u], magSize)
    {
      ThreadFrame(r, r', u, pairs[u], threads[u], magSize, id);
    }
  }

  /** A list does not notice a change to a magazine outside it. */
  lemma ListFrame(r: Racks, r': Racks, pool: PoolId, list: seq<MagId>, nextMag: map<Ptr, Ptr>, magSize: nat, id: MagId)
    requires PoolOk(r, pool, list, nextMag, magSize) && Only(r, r', id)
    requires id in r.slots ==> !r.slots[id].Pooled? || r.slots[id].pool != pool
    ensures PoolOk(r', pool, list, nextMag, magSize) && HeadAt(r'.mags, list, 0) == HeadAt(r.mags, list, 0)
  {
    forall k | 0 <= k < |list|
      ensures list[k] != id
    {
      assert PooledOk(r, pool, list, nextMag, magSize, k);
    }
    forall k | 0 <= k < |list|
      ensures PooledOk(r', pool, list, nextMag, magSize, k)
    {
      assert PooledOk(r, pool, list, nextMag, magSize, k);
      if k + 1 < |list| {
        assert PooledOk(r, pool, list, nextMag, magSize, k + 1);
      }
    }
    if list != [] {
      assert PooledOk(r, pool, list, nextMag, magSize, 0);
    }
  }

  /** The lists do not notice a change to a magazine that is in none of them. */
  lemma PoolsFrame(r: Racks, r': Racks, pools: Pools, links: Links, magSize: nat, id: MagId)
    requires PoolInv(r, pools, links, magSize) && Only(r, r', id)
    requires id in r.slots ==> !r.slots[id].Pooled?
    ensures PoolInv(r', pools, links, magSize)
  {
    forall q | q in pools.lists
      ensures PoolOk(r', q, pools.lists[q], links.nextMag, magSize)
      ensures HeadAt(r'.mags, pools.lists[q], 0) == HeadAt(r.mags, pools.lists[q], 0)
    {
      ListFrame(r, r', q, pools.lists[q], links.nextMag, magSize, id);
    }
  }

  /** A magazine is in one slot only. */
  lemma OneSlot(v: View, threads: map<Thread, Ltc>, magSize: nat, id: MagId, t: Thread)
    requires ThreadsOk(v.r, v.threads, threads, magSize) && t in v.threads
    ensures v.threads[t].loaded == Some(id) ==> id in v.r.slots && v.r.slots[id] == Slot.Loaded(t)
    ensures v.threads[t].previous == Some(id) ==> id in v.r.slots && v.r.slots[id] == Slot.Previous(t)
  {
    assert ThreadOk(v.r, t, v.threads[t], threads[t], magSize);
  }

  lemma OthersDoNotHave(v: View, threads: map<Thread, Ltc>, magSize: nat, id: MagId, t: Thread)
    requires ThreadsOk(v.r, v.threads, threads, magSize)
    requires id in v.r.slots ==>
               v.r.slots[id] == Slot.Loaded(t) || v.r.slots[id] == Slot.Previous(t) || v.r.slots[id].Pooled?
    ensures forall u :: u in v.threads && u != t ==>
              v.threads[u].loaded != Some(id) && v.threads[u].previous != Some(id)
  {
    forall u | u in v.threads && u != t
      ensures v.threads[u].loaded != Some(id) && v.threads[u].previous != Some(id)
    {
      OneSlot(v, threads, magSize, id, u);
    }
  }

  // ---------------------------------------------------------------- the fast paths

  /** tcache_alloc while there are rounds left. */
  function PopC(c: Cache, t: Thread): Cache
    requires t in c.threads && c.threads[t].rounds > 0 && c.threads[t].loaded in c.nextItem
  {
    var l := c.threads[t];
    c.(threads := c.threads[t := l.(rounds := l.rounds - 1, loaded := c.nextItem[l.loaded])])
  }

  ghost function PopRacks(r: Racks, id: MagId): Racks
    requires id in r.mags && r.mags[id] != []
  {
    Racks(PopMag(r.mags, id), if |r.mags[id]| == 1 then r.slots - {id} else r.slots)
  }

  ghost function PopV(v: View, t: Thread): View
    requires t in v.threads && v.threads[t].loaded.Some?
    requires v.threads[t].loaded.value in v.r.mags && v.r.mags[v.threads[t].loaded.value] != []
  {
    var id := v.threads[t].loaded.value;
    var p := v.threads[t];
    View(PopRacks(v.r, id), v.threads[t := if |v.r.mags[id]| == 1 then p.(loaded := None) else p], v.pools,
         v.place[v.r.mags[id][0] := Client])
  }

  /** What is known about the loaded magazine. */
  lemma LoadedMag(c: Cache, v: View, magSize: nat, t: Thread)
    requires Inv(c, v, magSize) && t in v.threads && v.threads[t].loaded.Some?
    ensures var (id, l) := (v.threads[t].loaded.value, c.threads[t]);
            && Sits(v.r, id, Slot.Loaded(t), l.rounds) && l.rounds > 0
            && l.loaded == v.r.mags[id][0] && l.loaded in c.nextItem && l.loaded != 0
            && l.loaded in v.place && v.place[l.loaded] == InMag(id, l.rounds)
            && c.nextItem[l.loaded] == if l.rounds == 1 then 0 else v.r.mags[id][1]
  {
    var id := v.threads[t].loaded.value;
    assert ThreadOk(v.r, t, v.threads[t], c.threads[t], magSize);
    assert MagOk(v.r.mags[id], id, c.nextItem, v.place);
    assert ItemOk(v.r.mags[id], id, 0, c.nextItem, v.place);
  }

  lemma PopThread(r: Racks, t: Thread, p: Pair, l: Ltc, magSize: nat, next: Ptr)
    requires ThreadOk(r, t, p, l, magSize) && p.loaded.Some? && p.previous != p.loaded
    requires next == if l.rounds == 1 then 0 else r.mags[p.loaded.value][1]
    ensures var id := p.loaded.value;
            ThreadOk(PopRacks(r, id), t, if l.rounds == 1 then p.(loaded := None) else p,
                     l.(rounds := l.rounds - 1, loaded := next), magSize)
  {
  }

  lemma PopSlots(v: View, t: Thread)
    requires SlotsOk(v) && t in v.threads && v.threads[t].loaded.Some?
    requires v.threads[t].loaded.value in v.r.mags && v.r.mags[v.threads[t].loaded.value] != []
    requires v.r.slots[v.threads[t].loaded.value] == Slot.Loaded(t)
    ensures SlotsOk(PopV(v, t))
  {
    var v' := PopV(v, t);
    forall id | id in v'.r.slots
      ensures SlotOk(v', id)
    {
      assert SlotOk(v, id);
    }
  }

  /** The item handed out comes from the loaded magazine and goes to the client. */
  lemma PopInv(c: Cache, v: View, magSize: nat, t: Thread)
    requires Inv(c, v, magSize) && t in v.threads && v.threads[t].loaded.Some?
    ensures var l := c.threads[t];
            && l.rounds > 0 && l.loaded in c.nextItem && l.loaded != 0
            && l.loaded in v.place && v.place[l.loaded].InMag?
    ensures v.threads[t].loaded.value in v.r.mags && v.r.mags[v.threads[t].loaded.value] != []
    ensures PopV(v, t).place == v.place[c.threads[t].loaded := Client]
    ensures Inv(PopC(c, t), PopV(v, t), magSize)
  {
    var id := v.threads[t].loaded.value;
    LoadedMag(c, v, magSize, t);
    OneSlot(v, c.threads, magSize, id, t);
    OthersDoNotHave(v, c.threads, magSize, id, t);
    PopItems(v.r.mags, c.nextItem, v.place, id);
    PopThread(v.r, t, v.threads[t], c.threads[t], magSize, c.nextItem[c.threads[t].loaded]);
    ThreadsFrame(v.r, PopRacks(v.r, id), v.threads, c.threads, magSize, id, t,
                 PopV(v, t).threads[t], PopC(c, t).threads[t]);
    PoolsFrame(v.r, PopRacks(v.r, id), v.pools, c.links, magSize, id);
    PopSlots(v, t);
    assert PopV(v, t).place.Keys == v.place.Keys;
  }

  /** tcache_free while the loaded magazine has room, which may also start a new magazine. */
  function PushC(c: Cache, t: Thread, x: Ptr): Cache
    requires t in c.threads
  {
    var l := c.threads[t];
    c.(nextItem := c.nextItem[x := l.loaded], threads := c.threads[t := l.(rounds := l.rounds + 1, loaded := x)])
  }

  /** The item goes to the loaded magazine; id names a new magazine if there is none. */
  ghost function PushV(v: View, t: Thread, x: Ptr, id: MagId): View
    requires t in v.threads
  {
    var p := v.threads[t];
    if p.loaded.Some? && p.loaded.value in v.r.mags then
      var j := p.loaded.value;
      View(Racks(v.r.mags[j := [x] + v.r.mags[j]], v.r.slots), v.threads, v.pools,
           v.place[x := InMag(j, |v.r.mags[j]| + 1)])
    else
      View(Racks(v.r.mags[id := [x]], v.r.slots[id := Slot.Loaded(t)]), v.threads[t := p.(loaded := Some(id))], v.pools,
           v.place[x := InMag(id, 1)])
  }

  lemma PushOntoInv(c: Cache, v: View, magSize: nat, t: Thread, x: Ptr, id: MagId)
    requires Inv(c, v, magSize) && t in v.threads && c.threads[t].rounds < magSize && v.threads[t].loaded.Some?
    requires x in v.place && v.place[x] == Client
    ensures Inv(PushC(c, t, x), PushV(v, t, x, id), magSize)
  {
    var j := v.threads[t].loaded.value;
    LoadedMag(c, v, magSize, t);
    OneSlot(v, c.threads, magSize, j, t);
    OthersDoNotHave(v, c.threads, magSize, j, t);
    PushItems(v.r.mags, c.nextItem, v.place, j, x);
    var v' := PushV(v, t, x, id);
    assert ThreadOk(v.r, t, v.threads[t], c.threads[t], magSize);
    ThreadsFrame(v.r, v'.r, v.threads, c.threads, magSize, j, t, v.threads[t], PushC(c, t, x).threads[t]);
    assert v.threads[t := v.threads[t]] == v.threads;
    PoolsFrame(v.r, v'.r, v.pools, c.links, magSize, j);
    SlotsSame(v, v');
    assert v'.place.Keys == v.place.Keys;
  }

  /** Slots do not depend on what the magazines hold. */
  lemma SlotsSame(v: View, v': View)
    requires SlotsOk(v) && v'.r.slots == v.r.slots && v'.r.mags.Keys == v.r.mags.Keys
    requires v'.threads == v.threads && v'.pools == v.pools
    ensures SlotsOk(v')
  {
    forall id | id in v'.r.slots
      ensures SlotOk(v', id)
    {
      assert SlotOk(v, id);
    }
  }

  lemma PushNewSlots(v: View, t: Thread, x: Ptr, id: MagId)
    requires SlotsOk(v) && t in v.threads && v.threads[t].loaded.None? && id !in v.r.mags
    ensures SlotsOk(PushV(v, t, x, id))
  {
    var v' := PushV(v, t, x, id);
    forall j | j in v'.r.slots
      ensures SlotOk(v', j)
    {
      if j != id {
        assert SlotOk(v, j);
      }
    }
  }

  lemma PushNewThreads(c: Cache, v: View, magSize: nat, t: Thread, x: Ptr, id: MagId)
    requires ThreadsOk(v.r, v.threads, c.threads, magSize) && SlotsOk(v) && magSize >= 1
    requires t in v.threads && v.threads[t].loaded.None? && id !in v.r.mags
    ensures var v' := PushV(v, t, x, id); ThreadsOk(v'.r, v'.threads, PushC(c, t, x).threads, magSize)
  {
    var v' := PushV(v, t, x, id);
    assert ThreadOk(v.r, t, v.threads[t], c.threads[t], magSize);
    OthersDoNotHave(v, c.threads, magSize, id, t);
    ThreadsFrame(v.r, v'.r, v.threads, c.threads, magSize, id, t, v'.threads[t], PushC(c, t, x).threads[t]);
  }

  lemma PushNewInv(c: Cache, v: View, magSize: nat, t: Thread, x: Ptr, id: MagId)
    requires Inv(c, v, magSize) && t in v.threads && v.threads[t].loaded.None? && id !in v.r.mags
    requires x in v.place && v.place[x] == Client
    ensures Inv(PushC(c, t, x), PushV(v, t, x, id), magSize)
  {
    var v' := PushV(v, t, x, id);
    assert ThreadOk(v.r, t, v.threads[t], c.threads[t], magSize);
    StartItems(v.r.mags, c.nextItem, v.place, id, x);
    PushNewThreads(c, v, magSize, t, x, id);
    PoolsFrame(v.r, v'.r, v.pools, c.links, magSize, id);
    PushNewSlots(v, t, x, id);
    assert v'.place.Keys == v.place.Keys;
  }

  /** Freeing an item a client holds: it joins the loaded magazine. */
  lemma PushInv(c: Cache, v: View, magSize: nat, t: Thread, x: Ptr, id: MagId)
    requires Inv(c, v, magSize) && t in v.threads && c.threads[t].rounds < magSize && id !in v.r.mags
    requires x in v.place && v.place[x] == Client
    ensures Inv(PushC(c, t, x), PushV(v, t, x, id), magSize)
    ensures var place := PushV(v, t, x, id).place; x in place && place[x].InMag? && place == v.place[x := place[x]]
    ensures PushV(v, t, x, id).r.mags.Keys <= v.r.mags.Keys + {id} && PushV(v, t, x, id).pools == v.pools
    ensures PushV(v, t, x, id).threads.Keys == v.threads.Keys
  {
    if v.threads[t].loaded.Some? {
      LoadedMag(c, v, magSize, t);
      PushOntoInv(c, v, magSize, t, x, id);
    } else {
      PushNewInv(c, v, magSize, t, x, id);
    }
  }

  // ---------------------------------------------------------------- moving full magazines

  /** The magazine changes its slot. */
  function Moved(r: Racks, id: MagId, slot: Slot): Racks {
    r.(slots := r.slots[id := slot])
  }

  /** A move between slots of one thread, or between one of them and the pool, keeps the slots consistent. */
  lemma MovedSlots(v: View, v': View, id: MagId, slot: Slot)
    requires SlotsOk(v) && id in v.r.slots && v'.r == Moved(v.r, id, slot) && SlotOk(v', id)
    requires forall j :: j in v.r.slots && j != id ==> SlotOk(v', j)
    ensures SlotsOk(v')
  {
    assert v'.r.slots.Keys == v.r.slots.Keys;
  }

  /** Case 1 of __tcache_alloc: the full previous magazine is loaded. */
  function LoadPreviousC(c: Cache, t: Thread, magSize: nat): Cache
    requires t in c.threads
  {
    c.(threads := c.threads[t := Ltc(magSize, c.threads[t].previous, 0)])
  }

  ghost function LoadPreviousV(v: View, t: Thread): View
    requires t in v.threads && v.threads[t].previous.Some?
  {
    var id := v.threads[t].previous.value;
    v.(r := Moved(v.r, id, Slot.Loaded(t)), threads := v.threads[t := Pair(Some(id), None)])
  }

  lemma LoadPreviousSlots(v: View, t: Thread)
    requires SlotsOk(v) && t in v.threads && v.threads[t].loaded.None? && v.threads[t].previous.Some?
    requires v.threads[t].previous.value in v.r.slots
    ensures SlotsOk(LoadPreviousV(v, t))
  {
    var id := v.threads[t].previous.value;
    forall j | j in v.r.slots && j != id
      ensures SlotOk(LoadPreviousV(v, t), j)
    {
      assert SlotOk(v, j);
    }
    MovedSlots(v, LoadPreviousV(v, t), id, Slot.Loaded(t));
  }

  lemma LoadPreviousInv(c: Cache, v: View, magSize: nat, t: Thread)
    requires Inv(c, v, magSize) && t in v.threads && v.threads[t].loaded.None? && v.threads[t].previous.Some?
    ensures Inv(LoadPreviousC(c, t, magSize), LoadPreviousV(v, t), magSize)
  {
    var id := v.threads[t].previous.value;
    var v', c' := LoadPreviousV(v, t), LoadPreviousC(c, t, magSize);
    assert ThreadOk(v.r, t, v.threads[t], c.threads[t], magSize);
    OthersDoNotHave(v, c.threads, magSize, id, t);
    ThreadsFrame(v.r, v'.r, v.threads, c.threads, magSize, id, t, v'.threads[t], c'.threads[t]);
    PoolsFrame(v.r, v'.r, v.pools, c.links, magSize, id);
    LoadPreviousSlots(v, t);
  }

  /** Case 1 of __tcache_free: the full loaded magazine is put aside. */
  function PutAsideC(c: Cache, t: Thread): Cache
    requires t in c.threads
  {
    c.(threads := c.threads[t := Ltc(0, 0, c.threads[t].loaded)])
  }

  ghost function PutAsideV(v: View, t: Thread): View
    requires t in v.threads && v.threads[t].loaded.Some?
  {
    var id := v.threads[t].loaded.value;
    v.(r := Moved(v.r, id, Slot.Previous(t)), threads := v.threads[t := Pair(None, Some(id))])
  }

  lemma PutAsideSlots(v: View, t: Thread)
    requires SlotsOk(v) && t in v.threads && v.threads[t].previous.None? && v.threads[t].loaded.Some?
    requires v.threads[t].loaded.value in v.r.slots
    ensures SlotsOk(PutAsideV(v, t))
  {
    var id := v.threads[t].loaded.value;
    forall j | j in v.r.slots && j != id
      ensures SlotOk(PutAsideV(v, t), j)
    {
      assert SlotOk(v, j);
    }
    MovedSlots(v, PutAsideV(v, t), id, Slot.Previous(t));
  }

  lemma PutAsideInv(c: Cache, v: View, magSize: nat, t: Thread)
    requires Inv(c, v, magSize) && t in v.threads && v.threads[t].previous.None? && c.threads[t].rounds == magSize
    ensures v.threads[t].loaded.Some? && Inv(PutAsideC(c, t), PutAsideV(v, t), magSize)
  {
    assert ThreadOk(v.r, t, v.threads[t], c.threads[t], magSize);
    var id := v.threads[t].loaded.value;
    var v', c' := PutAsideV(v, t), PutAsideC(c, t);
    OthersDoNotHave(v, c.threads, magSize, id, t);
    ThreadsFrame(v.r, v'.r, v.threads, c.threads, magSize, id, t, v'.threads[t], c'.threads[t]);
    PoolsFrame(v.r, v'.r, v.pools, c.links, magSize, id);
    PutAsideSlots(v, t);
  }

  /** The first magazine leaves a list. */
  function Shorter(pools: Pools, pool: PoolId): Pools
    requires pool in pools.lists && pools.lists[pool] != []
  {
    pools.(lists := pools.lists[pool := pools.lists[pool][1..]])
  }

  lemma ListTail(r: Racks, r': Racks, pool: PoolId, list: seq<MagId>, nextMag: map<Ptr, Ptr>, magSize: nat)
    requires PoolOk(r, pool, list, nextMag, magSize) && list != [] && Only(r, r', list[0])
    ensures HeadAt(r.mags, list, 0) in nextMag && PoolOk(r', pool, list[1..], nextMag, magSize)
    ensures nextMag[HeadAt(r.mags, list, 0)] == HeadAt(r'.mags, list[1..], 0)
  {
    assert PooledOk(r, pool, list, nextMag, magSize, 0);
    forall k | 0 <= k < |list| - 1
      ensures PooledOk(r', pool, list[1..], nextMag, magSize, k)
    {
      assert PooledOk(r, pool, list, nextMag, magSize, k + 1);
      if k + 2 < |list| {
        assert PooledOk(r, pool, list, nextMag, magSize, k + 2);
      }
    }
    if |list| > 1 {
      assert PooledOk(r, pool, list, nextMag, magSize, 1);
    }
  }

  /** Taking the first magazine of one list leaves the other lists alone. */
  lemma PoolsTail(r: Racks, r': Racks, pools: Pools, nextMag: map<Ptr, Ptr>, magSize: nat, pool: PoolId)
    requires PoolsOk(r, pools.lists, nextMag, magSize) && pool in pools.lists && pools.lists[pool] != []
    requires Only(r, r', pools.lists[pool][0])
    ensures var lists := Shorter(pools, pool).lists;
            && PoolsOk(r', lists, nextMag, magSize)
            && HeadAt(r.mags, pools.lists[pool], 0) in nextMag
            && nextMag[HeadAt(r.mags, pools.lists[pool], 0)] == HeadAt(r'.mags, lists[pool], 0)
            && forall q :: q in pools.lists && q != pool ==> HeadAt(r'.mags, lists[q], 0) == HeadAt(r.mags, lists[q], 0)
  {
    var list := pools.lists[pool];
    assert PooledOk(r, pool, list, nextMag, magSize, 0);
    ListTail(r, r', pool, list, nextMag, magSize);
    forall q | q in pools.lists && q != pool
      ensures PoolOk(r', q, pools.lists[q], nextMag, magSize)
      ensures HeadAt(r'.mags, pools.lists[q], 0) == HeadAt(r.mags, pools.lists[q], 0)
    {
      ListFrame(r, r', q, pools.lists[q], nextMag, magSize, list[0]);
    }
  }

  /** Case 2 of __tcache_alloc: the first magazine of the pool is loaded. */
  function LoadSharedC(c: Cache, t: Thread, magSize: nat): Cache
    requires t in c.threads && c.links.sharedMags in c.links.nextMag
  {
    c.(threads := c.threads[t := Ltc(magSize, c.links.sharedMags, c.threads[t].previous)],
       links := c.links.(sharedMags := c.links.nextMag[c.links.sharedMags]))
  }

  ghost function LoadSharedV(v: View, t: Thread): View
    requires t in v.threads && v.pools.shared in v.pools.lists && Shared(v) != []
  {
    View(Moved(v.r, Shared(v)[0], Slot.Loaded(t)), v.threads[t := v.threads[t].(loaded := Some(Shared(v)[0]))],
         Shorter(v.pools, v.pools.shared), v.place)
  }

  /** The magazines of the shared pool. */
  ghost function Shared(v: View): seq<MagId> {
    if v.pools.shared in v.pools.lists then v.pools.lists[v.pools.shared] else []
  }

  /** What is known about the first magazine of a list. */
  lemma FirstOf(c: Cache, v: View, magSize: nat, pool: PoolId)
    requires Inv(c, v, magSize) && pool in v.pools.lists && v.pools.lists[pool] != []
    ensures var id := v.pools.lists[pool][0];
            && Sits(v.r, id, Pooled(pool, |v.pools.lists[pool]|), magSize)
            && HeadAt(v.r.mags, v.pools.lists[pool], 0) == v.r.mags[id][0] != 0
            && MagOk(v.r.mags[id], id, c.nextItem, v.place)
  {
    var id := v.pools.lists[pool][0];
    assert PooledOk(v.r, pool, v.pools.lists[pool], c.links.nextMag, magSize, 0);
    assert MagOk(v.r.mags[id], id, c.nextItem, v.place) && ItemOk(v.r.mags[id], id, 0, c.nextItem, v.place);
  }

  lemma LoadSharedSlots(v: View, t: Thread)
    requires SlotsOk(v) && t in v.threads && v.threads[t].loaded.None? && Shared(v) != [] && Shared(v)[0] in v.r.slots
    requires v.r.slots[Shared(v)[0]] == Pooled(v.pools.shared, |Shared(v)|)
    ensures SlotsOk(LoadSharedV(v, t))
  {
    var v' := LoadSharedV(v, t);
    forall j | j in v.r.slots && j != Shared(v)[0]
      ensures SlotOk(v', j)
    {
      assert SlotOk(v, j);
    }
    MovedSlots(v, v', Shared(v)[0], Slot.Loaded(t));
  }

  lemma LoadSharedPools(c: Cache, v: View, magSize: nat, t: Thread)
    requires Inv(c, v, magSize) && t in v.threads && Shared(v) != []
    ensures c.links.sharedMags in c.links.nextMag
    ensures PoolInv(LoadSharedV(v, t).r, LoadSharedV(v, t).pools, LoadSharedC(c, t, magSize).links, magSize)
  {
    PoolsTail(v.r, LoadSharedV(v, t).r, v.pools, c.links.nextMag, magSize, v.pools.shared);
  }

  lemma LoadSharedThreads(c: Cache, v: View, magSize: nat, t: Thread)
    requires Inv(c, v, magSize) && t in v.threads && v.threads[t].loaded.None? && Shared(v) != []
    ensures var v' := LoadSharedV(v, t);
            var l := Ltc(magSize, c.links.sharedMags, c.threads[t].previous);
            ThreadsOk(v'.r, v'.threads, c.threads[t := l], magSize)
  {
    var id, v' := Shared(v)[0], LoadSharedV(v, t);
    FirstOf(c, v, magSize, v.pools.shared);
    assert ThreadOk(v.r, t, v.threads[t], c.threads[t], magSize);
    OthersDoNotHave(v, c.threads, magSize, id, t);
    ThreadsFrame(v.r, v'.r, v.threads, c.threads, magSize, id, t, v'.threads[t],
                 Ltc(magSize, c.links.sharedMags, c.threads[t].previous));
  }

  lemma LoadSharedInv(c: Cache, v: View, magSize: nat, t: Thread)
    requires Inv(c, v, magSize) && t in v.threads && v.threads[t].loaded.None? && Shared(v) != []
    ensures c.links.sharedMags in c.links.nextMag && c.links.sharedMags != 0
    ensures Inv(LoadSharedC(c, t, magSize), LoadSharedV(v, t), magSize)
  {
    FirstOf(c, v, magSize, v.pools.shared);
    LoadSharedPools(c, v, magSize, t);
    LoadSharedThreads(c, v, magSize, t);
    LoadSharedSlots(v, t);
  }

  /** Case 2 of __tcache_free: the full previous magazine goes to the pool. */
  function ShareC(c: Cache, t: Thread): Cache
    requires t in c.threads
  {
    var prev := c.threads[t].previous;
    c.(links := c.links.(nextMag := c.links.nextMag[prev := c.links.sharedMags], sharedMags := prev),
       threads := c.threads[t := c.threads[t].(previous := 0)])
  }

  ghost function ShareV(v: View, t: Thread): View
    requires t in v.threads && v.threads[t].previous.Some?
  {
    var id := v.threads[t].previous.value;
    View(Moved(v.r, id, Pooled(v.pools.shared, |Shared(v)| + 1)), v.threads[t := v.threads[t].(previous := None)],
         v.pools.(lists := v.pools.lists[v.pools.shared := [id] + Shared(v)]), v.place)
  }

  lemma ListPush(r: Racks, r': Racks, pool: PoolId, list: seq<MagId>, nextMag: map<Ptr, Ptr>, magSize: nat, id: MagId)
    requires PoolOk(r, pool, list, nextMag, magSize) && Only(r, r', id) && id !in list
    requires Sits(r', id, Pooled(pool, |list| + 1), magSize)
    requires forall k :: 0 <= k < |list| ==> HeadAt(r.mags, list, k) != Head(r'.mags, Some(id))
    ensures PoolOk(r', pool, [id] + list, nextMag[Head(r'.mags, Some(id)) := HeadAt(r.mags, list, 0)], magSize)
  {
    var list', nextMag' := [id] + list, nextMag[Head(r'.mags, Some(id)) := HeadAt(r.mags, list, 0)];
    if list != [] {
      assert PooledOk(r, pool, list, nextMag, magSize, 0);
      assert list[0] in list;
    }
    forall j | 0 <= j < |list'|
      ensures PooledOk(r', pool, list', nextMag', magSize, j)
    {
      if j > 0 {
        assert list'[j] == list[j - 1] && list[j - 1] in list;
        assert PooledOk(r, pool, list, nextMag, magSize, j - 1);
        if j < |list| {
          assert list'[j + 1] == list[j] && list[j] in list;
          assert PooledOk(r, pool, list, nextMag, magSize, j);
        }
      }
    }
  }

  /** A list does not notice a link written into another magazine. */
  lemma ListRelinked(r: Racks, pool: PoolId, list: seq<MagId>, nextMag: map<Ptr, Ptr>, magSize: nat, x: Ptr, next: Ptr)
    requires PoolOk(r, pool, list, nextMag, magSize)
    requires forall k :: 0 <= k < |list| ==> HeadAt(r.mags, list, k) != x
    ensures PoolOk(r, pool, list, nextMag[x := next], magSize)
  {
    var nextMag' := nextMag[x := next];
    forall k | 0 <= k < |list|
      ensures PooledOk(r, pool, list, nextMag', magSize, k)
    {
      assert PooledOk(r, pool, list, nextMag, magSize, k);
    }
  }

  /** Different magazines start with different items. */
  lemma HeadsDiffer(mags: map<MagId, seq<Ptr>>, nextItem: map<Ptr, Ptr>, place: map<Ptr, Place>, i: MagId, j: MagId)
    requires ItemsOk(mags, nextItem, place) && i in mags && j in mags && i != j
    ensures Head(mags, Some(i)) != Head(mags, Some(j))
  {
    assert MagOk(mags[i], i, nextItem, place) && ItemOk(mags[i], i, 0, nextItem, place);
    assert MagOk(mags[j], j, nextItem, place) && ItemOk(mags[j], j, 0, nextItem, place);
  }

  lemma ShareSlots(v: View, t: Thread)
    requires SlotsOk(v) && t in v.threads && v.threads[t].previous.Some? && v.threads[t].previous.value in v.r.slots
    requires v.r.slots[v.threads[t].previous.value] == Slot.Previous(t) && v.pools.shared in v.pools.lists
    ensures SlotsOk(ShareV(v, t))
  {
    var v' := ShareV(v, t);
    forall j | j in v.r.slots && j != v.threads[t].previous.value
      ensures SlotOk(v', j)
    {
      assert SlotOk(v, j);
    }
    MovedSlots(v, v', v.threads[t].previous.value, Pooled(v.pools.shared, |Shared(v)| + 1));
  }

  /** A magazine with a thread is in no list, and no list starts a magazine with its first item. */
  lemma NotPooled(c: Cache, v: View, magSize: nat, id: MagId, q: PoolId)
    requires Inv(c, v, magSize) && id in v.r.mags && id in v.r.slots && !v.r.slots[id].Pooled? && q in v.pools.lists
    ensures forall k :: 0 <= k < |v.pools.lists[q]| ==>
              v.pools.lists[q][k] != id && HeadAt(v.r.mags, v.pools.lists[q], k) != Head(v.r.mags, Some(id))
  {
    var list := v.pools.lists[q];
    forall k | 0 <= k < |list|
      ensures list[k] != id && HeadAt(v.r.mags, list, k) != Head(v.r.mags, Some(id))
    {
      assert PooledOk(v.r, q, list, c.links.nextMag, magSize, k);
      HeadsDiffer(v.r.mags, c.nextItem, v.place, list[k], id);
    }
  }

  lemma SharePools(c: Cache, v: View, magSize: nat, t: Thread)
    requires Inv(c, v, magSize) && t in v.threads && v.threads[t].previous.Some?
    ensures PoolsOk(ShareV(v, t).r, ShareV(v, t).pools.lists, ShareC(c, t).links.nextMag, magSize)
    ensures forall q :: q in v.pools.lists && q != v.pools.shared ==>
              HeadAt(ShareV(v, t).r.mags, v.pools.lists[q], 0) == HeadAt(v.r.mags, v.pools.lists[q], 0)
  {
    var id, v' := v.threads[t].previous.value, ShareV(v, t);
    assert ThreadOk(v.r, t, v.threads[t], c.threads[t], magSize);
    NotPooled(c, v, magSize, id, v.pools.shared);
    ListPush(v.r, v'.r, v.pools.shared, Shared(v), c.links.nextMag, magSize, id);
    forall q | q in v.pools.lists && q != v.pools.shared
      ensures PoolOk(v'.r, q, v.pools.lists[q], ShareC(c, t).links.nextMag, magSize)
      ensures HeadAt(v'.r.mags, v.pools.lists[q], 0) == HeadAt(v.r.mags, v.pools.lists[q], 0)
    {
      NotPooled(c, v, magSize, id, q);
      ListFrame(v.r, v'.r, q, v.pools.lists[q], c.links.nextMag, magSize, id);
      ListRelinked(v'.r, q, v.pools.lists[q], c.links.nextMag, magSize, c.threads[t].previous, c.links.sharedMags);
    }
  }

  lemma ShareHeads(c: Cache, v: View, magSize: nat, t: Thread)
    requires t in v.threads && v.threads[t].previous.Some? && t in c.threads
    requires HeadsOk(v.r.mags, v.pools, c.links) && c.threads[t].previous == Head(v.r.mags, v.threads[t].previous)
    requires forall q :: q in v.pools.lists && q != v.pools.shared ==>
               HeadAt(ShareV(v, t).r.mags, v.pools.lists[q], 0) == HeadAt(v.r.mags, v.pools.lists[q], 0)
    ensures HeadsOk(ShareV(v, t).r.mags, ShareV(v, t).pools, ShareC(c, t).links)
  {
  }

  lemma ShareInv(c: Cache, v: View, magSize: nat, t: Thread)
    requires Inv(c, v, magSize) && t in v.threads && v.threads[t].previous.Some?
    ensures Inv(ShareC(c, t), ShareV(v, t), magSize)
  {
    var id := v.threads[t].previous.value;
    var v' := ShareV(v, t);
    assert ThreadOk(v.r, t, v.threads[t], c.threads[t], magSize);
    OthersDoNotHave(v, c.threads, magSize, id, t);
    ThreadsFrame(v.r, v'.r, v.threads, c.threads, magSize, id, t, v'.threads[t], ShareC(c, t).threads[t]);
    SharePools(c, v, magSize, t);
    ShareHeads(c, v, magSize, t);
    ShareSlots(v, t);
  }

  // ---------------------------------------------------------------- the backing store

  /** The items of a new magazine come from the backing store, each once. */
  ghost predicate FromStore(items: seq<Ptr>, place: map<Ptr, Place>) {
    Distinct(items) && forall i :: 0 <= i < |items| ==> items[i] != 0 && items[i] !in place
  }

  ghost predicate Link(items: seq<Ptr>, nextItem: map<Ptr, Ptr>, i: nat)
    requires i < |items|
  {
    items[i] in nextItem && nextItem[items[i]] == if i + 1 < |items| then items[i + 1] else 0
  }

  /** The first n items are chained in order. */
  ghost predicate Chained(items: seq<Ptr>, nextItem: map<Ptr, Ptr>, n: nat) {
    n <= |items| && forall i :: 0 <= i < n ==> Link(items, nextItem, i)
  }

  /** All items are chained, and the links of other items are as before. */
  ghost predicate Relinked(items: seq<Ptr>, before: map<Ptr, Ptr>, nextItem: map<Ptr, Ptr>) {
    && Chained(items, nextItem, |items|)
    && forall x :: x in before && x !in items ==> x in nextItem && nextItem[x] == before[x]
  }

  /** Linking one more item leaves the links before it alone. */
  lemma LinkOne(items: seq<Ptr>, nextItem: map<Ptr, Ptr>, i: nat, next: Ptr)
    requires Distinct(items) && i < |items| && Chained(items, nextItem, i)
    requires next == if i + 1 < |items| then items[i + 1] else 0
    ensures Chained(items, nextItem[items[i] := next], i + 1)
  {
    var nextItem' := nextItem[items[i] := next];
    forall k | 0 <= k < i + 1
      ensures Link(items, nextItem', k)
    {
      if k < i {
        assert Link(items, nextItem, k);
        DistinctFrom(items, k);
      }
    }
  }

  /** The linking loop of tcache_alloc_mag. */
  method LinkMag(items: seq<Ptr>, before: map<Ptr, Ptr>) returns (nextItem: map<Ptr, Ptr>)
    requires items != [] && Distinct(items)
    ensures Relinked(items, before, nextItem)
  {
    nextItem := before;
    var pos := items[0];
    for i := 1 to |items|
      invariant pos == items[i - 1]
      invariant Chained(items, nextItem, i - 1)
      invariant forall x :: x in before && x !in items ==> x in nextItem && nextItem[x] == before[x]
    {
      LinkOne(items, nextItem, i - 1, items[i]);
      nextItem := nextItem[pos := items[i]];
      pos := items[i];
    }
    LinkOne(items, nextItem, |items| - 1, 0);
    nextItem := nextItem[pos := 0];
  }

  /** The walk of tcache_free_mag: from the head of a magazine it collects exactly its items. */
  method WalkMag(head: Ptr, nextItem: map<Ptr, Ptr>, ghost mag: seq<Ptr>, ghost id: MagId, ghost place: map<Ptr, Place>)
    returns (items: seq<Ptr>)
    requires MagOk(mag, id, nextItem, place) && head == mag[0]
    ensures items == mag
  {
    var hdr := head;
    items := [];
    while true
      invariant |items| < |mag| && items == mag[..|items|] && hdr == mag[|items|]
      decreases |mag| - |items|
    {
      assert ItemOk(mag, id, |items|, nextItem, place);
      if |items| + 1 < |mag| {
        assert ItemOk(mag, id, |items| + 1, nextItem, place);
      }
      items := items + [hdr];
      hdr := nextItem[hdr];
      if hdr == 0 {
        break;
      }
    }
  }

  /** The first n items of a magazine get their place in it. */
  ghost function Placed(place: map<Ptr, Place>, items: seq<Ptr>, id: MagId, n: nat): map<Ptr, Place>
    requires n <= |items|
  {
    if n == 0 then place else Placed(place, items, id, n - 1)[items[n - 1] := InMag(id, |items| - (n - 1))]
  }

  lemma {:induction false} PlacedKeeps(place: map<Ptr, Place>, items: seq<Ptr>, id: MagId, n: nat)
    requires n <= |items| && FromStore(items, place)
    ensures forall x :: x in place ==> x in Placed(place, items, id, n) && Placed(place, items, id, n)[x] == place[x]
    decreases n
  {
    if n > 0 {
      PlacedKeeps(place, items, id, n - 1);
    }
  }

  lemma {:induction false} PlacedAt(place: map<Ptr, Place>, items: seq<Ptr>, id: MagId, n: nat, i: nat)
    requires i < n <= |items| && FromStore(items, place)
    ensures items[i] in Placed(place, items, id, n) && Placed(place, items, id, n)[items[i]] == InMag(id, |items| - i)
    decreases n
  {
    if i < n - 1 {
      PlacedAt(place, items, id, n - 1, i);
      DistinctFrom(items, i);
    }
  }

  lemma {:induction false} PlacedFrom(place: map<Ptr, Place>, items: seq<Ptr>, id: MagId, n: nat, x: Ptr)
    requires n <= |items| && x in Placed(place, items, id, n) && x !in place
    ensures Placed(place, items, id, n)[x].InMag? && Placed(place, items, id, n)[x].mag == id
    ensures var d := Placed(place, items, id, n)[x].depth; |items| - n < d <= |items| && items[|items| - d] == x
    decreases n
  {
    if n > 0 && x != items[n - 1] {
      PlacedFrom(place, items, id, n - 1, x);
    }
  }

  lemma {:induction false} PlacedSize(place: map<Ptr, Place>, items: seq<Ptr>, id: MagId, n: nat)
    requires n <= |items| && FromStore(items, place)
    ensures |Placed(place, items, id, n)| == |place| + n
    decreases n
  {
    if n > 0 {
      PlacedSize(place, items, id, n - 1);
      var was := Placed(place, items, id, n - 1);
      NotPlacedYet(place, items, id, n);
      OneMoreKey(was, items[n - 1], InMag(id, |items| - (n - 1)));
    }
  }

  lemma NotPlacedYet(place: map<Ptr, Place>, items: seq<Ptr>, id: MagId, n: nat)
    requires 0 < n <= |items| && FromStore(items, place)
    ensures items[n - 1] !in Placed(place, items, id, n - 1)
  {
    var was := Placed(place, items, id, n - 1);
    if items[n - 1] in was {
      PlacedFrom(place, items, id, n - 1, items[n - 1]);
      DistinctFrom(items, |items| - was[items[n - 1]].depth);
    }
  }

  lemma OneMoreKey(m: map<Ptr, Place>, x: Ptr, at: Place)
    requires x !in m
    ensures |m[x := at]| == |m| + 1
  {
    assert m[x := at].Keys == m.Keys + {x};
    assert |m.Keys| == |m| && |m[x := at].Keys| == |m[x := at]|;
  }

  lemma OneKeyLess(m: map<Ptr, Place>, x: Ptr)
    requires x in m
    ensures |m - {x}| == |m| - 1
  {
    assert (m - {x}).Keys == m.Keys - {x};
    assert |m.Keys| == |m| && |(m - {x}).Keys| == |m - {x}|;
  }

  /** Adding a magazine with new items, wherever it came from. */
  lemma AddMag(mags: map<MagId, seq<Ptr>>, nextItem: map<Ptr, Ptr>, place: map<Ptr, Place>,
               items: seq<Ptr>, nextItem': map<Ptr, Ptr>, place': map<Ptr, Place>, id: MagId)
    requires ItemsOk(mags, nextItem, place) && id !in mags && MagOk(items, id, nextItem', place')
    requires forall x :: x in place && x in nextItem ==> x in nextItem' && nextItem'[x] == nextItem[x]
    requires forall x :: x in place ==> x in place' && place'[x] == place[x]
    requires forall x :: x in place' && x !in place ==> x != 0 && Backed(map[id := items], place'[x], x)
    ensures ItemsOk(mags[id := items], nextItem', place')
  {
    forall j | j in mags
      ensures MagOk(mags[j], j, nextItem', place')
    {
      KeptMag(mags[j], j, nextItem, place, nextItem', place');
    }
    forall x | x in place'
      ensures x != 0 && Backed(mags[id := items], place'[x], x)
    {
      if x in place {
        assert Backed(mags, place[x], x);
      } else {
        assert Backed(map[id := items], place'[x], x);
      }
    }
  }

  lemma NewMagItems(mags: map<MagId, seq<Ptr>>, nextItem: map<Ptr, Ptr>, place: map<Ptr, Place>,
                    items: seq<Ptr>, nextItem': map<Ptr, Ptr>, id: MagId)
    requires ItemsOk(mags, nextItem, place) && id !in mags && items != [] && FromStore(items, place)
    requires Chained(items, nextItem', |items|)
    requires forall x :: x in place && x in nextItem ==> x in nextItem' && nextItem'[x] == nextItem[x]
    ensures ItemsOk(mags[id := items], nextItem', Placed(place, items, id, |items|))
  {
    PlacedKeeps(place, items, id, |items|);
    NewMagOk(place, items, nextItem', id);
    PlacedBacked(place, items, id);
    AddMag(mags, nextItem, place, items, nextItem', Placed(place, items, id, |items|), id);
  }

  lemma PlacedBacked(place: map<Ptr, Place>, items: seq<Ptr>, id: MagId)
    requires FromStore(items, place)
    ensures var place' := Placed(place, items, id, |items|);
            forall x :: x in place' && x !in place ==> x != 0 && Backed(map[id := items], place'[x], x)
  {
    var place' := Placed(place, items, id, |items|);
    forall x | x in place' && x !in place
      ensures x != 0 && Backed(map[id := items], place'[x], x)
    {
      PlacedFrom(place, items, id, |items|, x);
    }
  }

  lemma NewMagOk(place: map<Ptr, Place>, items: seq<Ptr>, nextItem: map<Ptr, Ptr>, id: MagId)
    requires items != [] && FromStore(items, place) && Chained(items, nextItem, |items|)
    ensures MagOk(items, id, nextItem, Placed(place, items, id, |items|))
  {
    var place' := Placed(place, items, id, |items|);
    forall i | 0 <= i < |items|
      ensures ItemOk(items, id, i, nextItem, place')
    {
      PlacedAt(place, items, id, |items|, i);
      assert Link(items, nextItem, i);
    }
  }

  /** Case 3 of __tcache_alloc: a new magazine is loaded. */
  function NewMagC(c: Cache, t: Thread, items: seq<Ptr>, nextItem: map<Ptr, Ptr>): Cache
    requires t in c.threads && items != []
  {
    c.(nextItem := nextItem, threads := c.threads[t := Ltc(|items|, items[0], c.threads[t].previous)],
       magsAllocated := c.magsAllocated + 1)
  }

  ghost function NewMagV(v: View, t: Thread, items: seq<Ptr>, id: MagId, place: map<Ptr, Place>): View
    requires t in v.threads
  {
    View(Racks(v.r.mags[id := items], v.r.slots[id := Slot.Loaded(t)]),
         v.threads[t := v.threads[t].(loaded := Some(id))], v.pools, place)
  }

  lemma NewMagSlots(v: View, t: Thread, items: seq<Ptr>, id: MagId, place: map<Ptr, Place>)
    requires SlotsOk(v) && t in v.threads && v.threads[t].loaded.None? && id !in v.r.mags
    ensures SlotsOk(NewMagV(v, t, items, id, place))
  {
    var v' := NewMagV(v, t, items, id, place);
    forall j | j in v'.r.slots
      ensures SlotOk(v', j)
    {
      if j != id {
        assert SlotOk(v, j);
      }
    }
  }

  lemma NewMagThreads(c: Cache, v: View, magSize: nat, t: Thread, items: seq<Ptr>, id: MagId, place: map<Ptr, Place>)
    requires ThreadsOk(v.r, v.threads, c.threads, magSize) && SlotsOk(v)
    requires t in v.threads && v.threads[t].loaded.None? && id !in v.r.mags && |items| == magSize >= 1
    ensures var v' := NewMagV(v, t, items, id, place);
            ThreadsOk(v'.r, v'.threads, c.threads[t := Ltc(|items|, items[0], c.threads[t].previous)], magSize)
  {
    var v' := NewMagV(v, t, items, id, place);
    assert ThreadOk(v.r, t, v.threads[t], c.threads[t], magSize);
    OthersDoNotHave(v, c.threads, magSize, id, t);
    ThreadsFrame(v.r, v'.r, v.threads, c.threads, magSize, id, t, v'.threads[t],
                 Ltc(|items|, items[0], c.threads[t].previous));
  }

  lemma NewMagRacks(c: Cache, v: View, magSize: nat, t: Thread, items: seq<Ptr>, nextItem: map<Ptr, Ptr>, id: MagId,
                    place: map<Ptr, Place>)
    requires 1 <= magSize <= MAX_MAG_SIZE && c.magsAllocated >= 0 && ItemsIn(c.magsAllocated, magSize) == |v.place|
    requires ThreadsOk(v.r, v.threads, c.threads, magSize) && PoolInv(v.r, v.pools, c.links, magSize) && SlotsOk(v)
    requires t in v.threads && v.threads[t].loaded.None? && id !in v.r.mags && |items| == magSize
    requires ItemsOk(v.r.mags[id := items], nextItem, place) && |place| == |v.place| + magSize
    ensures Inv(NewMagC(c, t, items, nextItem), NewMagV(v, t, items, id, place), magSize)
  {
    var v' := NewMagV(v, t, items, id, place);
    NewMagThreads(c, v, magSize, t, items, id, place);
    PoolsFrame(v.r, v'.r, v.pools, c.links, magSize, id);
    NewMagSlots(v, t, items, id, place);
  }

  /** mag_size items leave the backing store for a new loaded magazine. */
  lemma NewMagInv(c: Cache, v: View, magSize: nat, t: Thread, items: seq<Ptr>, nextItem: map<Ptr, Ptr>, id: MagId)
    requires Inv(c, v, magSize) && t in v.threads && v.threads[t].loaded.None? && id !in v.r.mags
    requires |items| == magSize && FromStore(items, v.place) && Chained(items, nextItem, |items|)
    requires forall x :: x in v.place && x in c.nextItem ==> x in nextItem && nextItem[x] == c.nextItem[x]
    ensures Inv(NewMagC(c, t, items, nextItem), NewMagV(v, t, items, id, Placed(v.place, items, id, |items|)), magSize)
  {
    NewMagItems(v.r.mags, c.nextItem, v.place, items, nextItem, id);
    PlacedSize(v.place, items, id, |items|);
    NewMagRacks(c, v, magSize, t, items, nextItem, id, Placed(v.place, items, id, |items|));
  }

  /** The first n items of a magazine leave for the backing store. */
  ghost function Unplaced(place: map<Ptr, Place>, items: seq<Ptr>, n: nat): map<Ptr, Place>
    requires n <= |items|
  {
    if n == 0 then place else Unplaced(place, items, n - 1) - {items[n - 1]}
  }

  /** The items placed in this magazine are its items. */
  ghost predicate Complete(mag: seq<Ptr>, id: MagId, place: map<Ptr, Place>) {
    && (forall i :: 0 <= i < |mag| ==> mag[i] in place && place[mag[i]] == InMag(id, |mag| - i))
    && (forall x :: x in place && place[x].InMag? && place[x].mag == id ==>
          1 <= place[x].depth <= |mag| && mag[|mag| - place[x].depth] == x)
  }

  predicate Among(place: map<Ptr, Place>, id: MagId, depth: int, x: Ptr) {
    x in place && place[x].InMag? && place[x].mag == id && place[x].depth > depth
  }

  /** The n-th item is the one that comes to be among those that left. */
  lemma AmongStep(place: map<Ptr, Place>, mag: seq<Ptr>, id: MagId, n: nat, x: Ptr)
    requires 0 < n <= |mag| && Complete(mag, id, place) && x in place
    ensures Among(place, id, |mag| - n, x) <==> Among(place, id, |mag| - (n - 1), x) || x == mag[n - 1]
  {
  }

  lemma {:induction false} UnplacedMeans(place: map<Ptr, Place>, mag: seq<Ptr>, id: MagId, n: nat)
    requires n <= |mag| && Complete(mag, id, place)
    ensures forall x :: x in Unplaced(place, mag, n) <==> x in place && !Among(place, id, |mag| - n, x)
    ensures forall x :: x in Unplaced(place, mag, n) ==> Unplaced(place, mag, n)[x] == place[x]
    decreases n
  {
    if n > 0 {
      UnplacedMeans(place, mag, id, n - 1);
      forall x | x in place
        ensures x in Unplaced(place, mag, n) <==> !Among(place, id, |mag| - n, x)
      {
        AmongStep(place, mag, id, n, x);
      }
    }
  }

  lemma StillPlaced(place: map<Ptr, Place>, mag: seq<Ptr>, id: MagId, n: nat)
    requires 0 < n <= |mag| && Complete(mag, id, place)
    ensures mag[n - 1] in Unplaced(place, mag, n - 1)
  {
    UnplacedMeans(place, mag, id, n - 1);
    assert mag[n - 1] in place && !Among(place, id, |mag| - (n - 1), mag[n - 1]);
  }

  lemma {:induction false} UnplacedSize(place: map<Ptr, Place>, mag: seq<Ptr>, id: MagId, n: nat)
    requires n <= |mag| && Complete(mag, id, place)
    ensures |Unplaced(place, mag, n)| == |place| - n
    decreases n
  {
    if n > 0 {
      UnplacedSize(place, mag, id, n - 1);
      StillPlaced(place, mag, id, n);
      OneKeyLess(Unplaced(place, mag, n - 1), mag[n - 1]);
    }
  }

  lemma MagComplete(mags: map<MagId, seq<Ptr>>, nextItem: map<Ptr, Ptr>, place: map<Ptr, Place>, id: MagId)
    requires ItemsOk(mags, nextItem, place) && id in mags
    ensures Complete(mags[id], id, place)
  {
    assert MagOk(mags[id], id, nextItem, place);
    forall i | 0 <= i < |mags[id]|
      ensures mags[id][i] in place && place[mags[id][i]] == InMag(id, |mags[id]| - i)
    {
      assert ItemOk(mags[id], id, i, nextItem, place);
    }
  }

  lemma DropMagItems(mags: map<MagId, seq<Ptr>>, nextItem: map<Ptr, Ptr>, place: map<Ptr, Place>, id: MagId)
    requires ItemsOk(mags, nextItem, place) && id in mags
    ensures ItemsOk(mags - {id}, nextItem, Unplaced(place, mags[id], |mags[id]|))
  {
    var place' := Unplaced(place, mags[id], |mags[id]|);
    MagComplete(mags, nextItem, place, id);
    UnplacedMeans(place, mags[id], id, |mags[id]|);
    forall j | j in mags && j != id
      ensures MagOk(mags[j], j, nextItem, place')
    {
      KeptMag(mags[j], j, nextItem, place, nextItem, place');
    }
  }

  // ------------------------------------------------------------------------ reclaiming

  /** The locked part of tcache_reclaim: the call takes the whole pool for itself. */
  function DetachC(c: Cache, call: Call): Cache {
    c.(links := c.links.(sharedMags := 0, hdrs := c.links.hdrs[call := c.links.sharedMags]))
  }

  /** The shared pool gets a new, empty list; fresh names it. */
  ghost function DetachV(v: View, call: Call, pool: PoolId): View {
    v.(pools := Pools(v.pools.lists[pool := []], pool, v.pools.detached[call := v.pools.shared]))
  }

  lemma DetachInv(c: Cache, v: View, magSize: nat, call: Call, pool: PoolId)
    requires Inv(c, v, magSize) && call !in c.links.hdrs && pool !in v.pools.lists
    ensures Inv(DetachC(c, call), DetachV(v, call, pool), magSize)
  {
    var v' := DetachV(v, call, pool);
    forall id | id in v'.r.slots
      ensures SlotOk(v', id)
    {
      assert SlotOk(v, id);
    }
  }

  /** A call of tcache_reclaim returns the first magazine of its list. */
  function DropC(c: Cache, call: Call): Cache
    requires call in c.links.hdrs && c.links.hdrs[call] in c.links.nextMag
  {
    c.(links := c.links.(hdrs := c.links.hdrs[call := c.links.nextMag[c.links.hdrs[call]]]),
       magsAllocated := c.magsAllocated - 1)
  }

  ghost function DropV(v: View, pool: PoolId, place: map<Ptr, Place>): View
    requires pool in v.pools.lists && v.pools.lists[pool] != []
  {
    var id := v.pools.lists[pool][0];
    View(Racks(v.r.mags - {id}, v.r.slots - {id}), v.threads, Shorter(v.pools, pool), place)
  }

  lemma DropSlots(v: View, pool: PoolId, place: map<Ptr, Place>)
    requires SlotsOk(v) && pool in v.pools.lists && v.pools.lists[pool] != [] && v.pools.lists[pool][0] in v.r.mags
    requires v.r.slots[v.pools.lists[pool][0]] == Pooled(pool, |v.pools.lists[pool]|)
    ensures SlotsOk(DropV(v, pool, place))
  {
    var v' := DropV(v, pool, place);
    forall j | j in v'.r.slots
      ensures SlotOk(v', j)
    {
      assert SlotOk(v, j);
    }
  }

  lemma DropThreads(c: Cache, v: View, magSize: nat, pool: PoolId, place: map<Ptr, Place>)
    requires Inv(c, v, magSize) && pool in v.pools.lists && v.pools.lists[pool] != []
    requires v.pools.lists[pool][0] in v.r.slots && v.r.slots[v.pools.lists[pool][0]].Pooled?
    ensures ThreadsOk(DropV(v, pool, place).r, v.threads, c.threads, magSize)
  {
    var id := v.pools.lists[pool][0];
    forall t | t in v.threads
      ensures ThreadOk(DropV(v, pool, place).r, t, v.threads[t], c.threads[t], magSize)
    {
      OneSlot(v, c.threads, magSize, id, t);
      ThreadFrame(v.r, DropV(v, pool, place).r, t, v.threads[t], c.threads[t], magSize, id);
    }
  }

  /** One call moves on in its list; shared_mags and the other calls stay where they are. */
  lemma DropHeads(mags: map<MagId, seq<Ptr>>, mags': map<MagId, seq<Ptr>>, pools: Pools, links: Links, call: Call)
    requires HeadsOk(mags, pools, links) && call in links.hdrs && links.hdrs[call] in links.nextMag
    requires pools.lists[pools.detached[call]] != []
    requires var lists := Shorter(pools, pools.detached[call]).lists;
             && links.nextMag[links.hdrs[call]] == HeadAt(mags', lists[pools.detached[call]], 0)
             && forall q :: q in pools.lists && q != pools.detached[call] ==>
                  HeadAt(mags', lists[q], 0) == HeadAt(mags, lists[q], 0)
    ensures var hdrs := links.hdrs[call := links.nextMag[links.hdrs[call]]];
            HeadsOk(mags', Shorter(pools, pools.detached[call]), links.(hdrs := hdrs))
  {
  }

  lemma DropPools(c: Cache, v: View, magSize: nat, call: Call, place: map<Ptr, Place>)
    requires Inv(c, v, magSize) && call in c.links.hdrs && v.pools.lists[v.pools.detached[call]] != []
    ensures c.links.hdrs[call] in c.links.nextMag
    ensures var v' := DropV(v, v.pools.detached[call], place); PoolInv(v'.r, v'.pools, DropC(c, call).links, magSize)
  {
    var pool := v.pools.detached[call];
    var v' := DropV(v, pool, place);
    PoolsTail(v.r, v'.r, v.pools, c.links.nextMag, magSize, pool);
    DropHeads(v.r.mags, v'.r.mags, v.pools, c.links, call);
  }

  lemma DropRacks(c: Cache, v: View, magSize: nat, call: Call, place: map<Ptr, Place>)
    requires Inv(c, v, magSize) && call in c.links.hdrs && v.pools.lists[v.pools.detached[call]] != []
    requires ItemsOk(v.r.mags - {v.pools.lists[v.pools.detached[call]][0]}, c.nextItem, place)
    requires |place| + magSize == |v.place|
    ensures c.links.hdrs[call] in c.links.nextMag
    ensures Inv(DropC(c, call), DropV(v, v.pools.detached[call], place), magSize)
  {
    FirstOf(c, v, magSize, v.pools.detached[call]);
    DropPools(c, v, magSize, call, place);
    DropThreads(c, v, magSize, v.pools.detached[call], place);
    DropSlots(v, v.pools.detached[call], place);
  }

  /** A detached magazine has exactly mag_size items, and they all return to the backing store. */
  lemma DropInv(c: Cache, v: View, magSize: nat, call: Call)
    requires Inv(c, v, magSize) && call in c.links.hdrs && v.pools.lists[v.pools.detached[call]] != []
    ensures c.links.hdrs[call] in c.links.nextMag
    ensures var pool := v.pools.detached[call];
            var id := v.pools.lists[pool][0];
            && id in v.r.mags && |v.r.mags[id]| == magSize
            && Inv(DropC(c, call), DropV(v, pool, Unplaced(v.place, v.r.mags[id], magSize)), magSize)
  {
    var id := v.pools.lists[v.pools.detached[call]][0];
    FirstOf(c, v, magSize, v.pools.detached[call]);
    DropMagItems(v.r.mags, c.nextItem, v.place, id);
    MagComplete(v.r.mags, c.nextItem, v.place, id);
    UnplacedSize(v.place, v.r.mags[id], id, magSize);
    DropRacks(c, v, magSize, call, Unplaced(v.place, v.r.mags[id], magSize));
  }

  /** A list is empty exactly when its head is NULL. */
  lemma EmptyMeansNull(c: Cache, v: View, magSize: nat, pool: PoolId)
    requires Inv(c, v, magSize) && pool in v.pools.lists
    ensures v.pools.lists[pool] == [] <==> HeadAt(v.r.mags, v.pools.lists[pool], 0) == 0
  {
    if v.pools.lists[pool] != [] {
      FirstOf(c, v, magSize, pool);
    }
  }

  /** The call of tcache_reclaim is over. */
  function DoneC(c: Cache, call: Call): Cache {
    c.(links := c.links.(hdrs := c.links.hdrs - {call}))
  }

  ghost function DoneV(v: View, call: Call): View {
    v.(pools := v.pools.(detached := v.pools.detached - {call}))
  }

  lemma DoneInv(c: Cache, v: View, magSize: nat, call: Call)
    requires Inv(c, v, magSize) && call in c.links.hdrs
    ensures Inv(DoneC(c, call), DoneV(v, call), magSize)
  {
    var v' := DoneV(v, call);
    forall id | id in v'.r.slots
      ensures SlotOk(v', id)
    {
      assert SlotOk(v, id);
    }
  }

  /** mags_allocated times mag_size items are outside the backing store. */
  lemma MagsCountItems(c: Cache, v: View, magSize: nat)
    requires Inv(c, v, magSize)
    ensures c.magsAllocated >= 0 && c.magsAllocated * magSize == |v.place|
  {
    ItemsInIsProduct(c.magsAllocated, magSize);
  }

  /** An item is in one place only: not twice in magazines, and not with a client as well. */
  lemma OnePlace(c: Cache, v: View, magSize: nat, a: MagId, i: nat, b: MagId, j: nat)
    requires Inv(c, v, magSize) && a in v.r.mags && i < |v.r.mags[a]| && b in v.r.mags && j < |v.r.mags[b]|
    ensures v.r.mags[a][i] in v.place && v.place[v.r.mags[a][i]] != Client
    ensures v.r.mags[a][i] == v.r.mags[b][j] ==> a == b && i == j
  {
    assert MagOk(v.r.mags[a], a, c.nextItem, v.place) && ItemOk(v.r.mags[a], a, i, c.nextItem, v.place);
    assert MagOk(v.r.mags[b], b, c.nextItem, v.place) && ItemOk(v.r.mags[b], b, j, c.nextItem, v.place);
  }

  /** The asserts at the head of the two slow paths. */
  lemma SlowPathAsserts(c: Cache, v: View, magSize: nat, t: Thread)
    requires Inv(c, v, magSize) && t in v.threads
    ensures c.threads[t].rounds == 0 <==> v.threads[t].loaded.None?
    ensures c.threads[t].loaded == 0 <==> v.threads[t].loaded.None?
    ensures c.threads[t].previous == 0 <==> v.threads[t].previous.None?
    ensures c.links.sharedMags == 0 <==> Shared(v) == []
  {
    assert ThreadOk(v.r, t, v.threads[t], c.threads[t], magSize);
    if v.threads[t].loaded.Some? {
      LoadedMag(c, v, magSize, t);
    }
    if v.threads[t].previous.Some? {
      var id := v.threads[t].previous.value;
      assert MagOk(v.r.mags[id], id, c.nextItem, v.place) && ItemOk(v.r.mags[id], id, 0, c.nextItem, v.place);
    }
    EmptyMeansNull(c, v, magSize, v.pools.shared);
  }

  // ------------------------------------------------------------ what the operations move

  /** Magazines may have come from the backing store; nothing else moved, and no client got anything. */
  ghost predicate Grown(before: map<Ptr, Place>, place: map<Ptr, Place>) {
    && (forall x :: x in before ==> x in place && place[x] == before[x])
    && (forall x :: x in place && place[x] == Client ==> x in before)
  }

  /** A client got the item, from a magazine or from the backing store, and nobody else got or lost any. */
  ghost predicate HandedOut(before: map<Ptr, Place>, place: map<Ptr, Place>, item: Ptr) {
    && item in place && place[item] == Client && (item in before ==> before[item] != Client)
    && (forall x :: x in before && x != item ==> x in place && place[x] == before[x])
    && (forall x :: x in place && x != item && place[x] == Client ==> x in before)
  }

  lemma TakenIsHandedOut(before: map<Ptr, Place>, grown: map<Ptr, Place>, item: Ptr)
    requires Grown(before, grown) && item in grown && grown[item].InMag?
    ensures HandedOut(before, grown[item := Client], item)
  {
  }

  /** The first magazine of the list, made of these items, left for the backing store. */
  ghost predicate Returned(v: View, v': View, pool: PoolId, items: seq<Ptr>, magSize: nat) {
    && pool in v.pools.lists && v.pools.lists[pool] != [] && v.pools.lists[pool][0] in v.r.mags
    && var id := v.pools.lists[pool][0];
    && items == v.r.mags[id] && |items| == magSize
    && v'.threads == v.threads && v'.r.mags == v.r.mags - {id} && v'.pools == Shorter(v.pools, pool)
    && (forall x :: x in v'.place ==> x in v.place && v'.place[x] == v.place[x])
    && (forall x :: x in v.place && x !in v'.place ==> v.place[x].InMag? && v.place[x].mag == id)
  }

  /** The first magazines of the list, as many as were returned, left for the backing store in order. */
  ghost predicate Reclaimed(v: View, v': View, pool: PoolId, returned: seq<seq<Ptr>>, magSize: nat) {
    && pool in v.pools.lists && |returned| <= |v.pools.lists[pool]|
    && v'.pools == v.pools.(lists := v.pools.lists[pool := v.pools.lists[pool][|returned|..]])
    && v'.threads == v.threads
    && (forall k :: 0 <= k < |returned| ==>
          && v.pools.lists[pool][k] in v.r.mags && |returned[k]| == magSize
          && returned[k] == v.r.mags[v.pools.lists[pool][k]])
    && (forall id :: id in v'.r.mags ==> id in v.r.mags && v'.r.mags[id] == v.r.mags[id])
    && (forall x :: x in v'.place ==> x in v.place && v'.place[x] == v.place[x])
    && (forall x :: x in v.place && x !in v'.place ==> v.place[x].InMag? && v.place[x].mag in v.pools.lists[pool])
  }

  lemma ReclaimNone(v: View, pool: PoolId, magSize: nat)
    requires pool in v.pools.lists
    ensures Reclaimed(v, v, pool, [], magSize)
  {
    assert v.pools.lists[pool := v.pools.lists[pool][0..]] == v.pools.lists;
  }

  lemma ReclaimOneMore(v: View, v1: View, v2: View, pool: PoolId, returned: seq<seq<Ptr>>, items: seq<Ptr>,
                       magSize: nat)
    requires Reclaimed(v, v1, pool, returned, magSize) && Returned(v1, v2, pool, items, magSize)
    ensures Reclaimed(v, v2, pool, returned + [items], magSize)
    ensures |v2.pools.lists[pool]| < |v1.pools.lists[pool]|
  {
    var list := v.pools.lists[pool];
    assert v1.pools.lists[pool][0] == list[|returned|];
    assert list[|returned|..][1..] == list[|returned| + 1..];
    var rest := list[|returned| + 1..];
    assert v.pools.lists[pool := list[|returned|..]][pool := rest] == v.pools.lists[pool := rest];
  }

  /** The numbers of magazines and lists that are still unused. */
  ghost predicate Numbered(v: View, nextId: MagId, nextPool: PoolId) {
    && (forall id :: id in v.r.mags ==> id < nextId)
    && (forall q :: q in v.pools.lists ==> q < nextPool)
  }

  // ------------------------------------------------------------ what each operation leaves

  lemma Given(c: Cache, v: View, magSize: nat, t: Thread, x: Ptr, nextId: MagId, nextPool: PoolId) returns (v': View)
    requires Inv(c, v, magSize) && Numbered(v, nextId, nextPool) && t in v.threads && c.threads[t].rounds < magSize
    requires x in v.place && v.place[x] == Client
    ensures Inv(PushC(c, t, x), v', magSize) && Numbered(v', nextId + 1, nextPool) && v'.threads.Keys == v.threads.Keys
    ensures x in v'.place && v'.place[x].InMag? && v'.place == v.place[x := v'.place[x]]
  {
    v' := PushV(v, t, x, nextId);
    PushInv(c, v, magSize, t, x, nextId);
  }

  lemma Taken(c: Cache, v: View, magSize: nat, t: Thread, nextId: MagId, nextPool: PoolId) returns (v': View)
    requires Inv(c, v, magSize) && Numbered(v, nextId, nextPool) && t in v.threads && v.threads[t].loaded.Some?
    ensures var l := c.threads[t];
            && l.rounds > 0 && l.loaded in c.nextItem && l.loaded != 0
            && l.loaded in v.place && v.place[l.loaded].InMag? && v'.place == v.place[l.loaded := Client]
            && Inv(PopC(c, t), v', magSize) && Numbered(v', nextId, nextPool) && v'.threads.Keys == v.threads.Keys
  {
    PopInv(c, v, magSize, t);
    v' := PopV(v, t);
  }

  lemma LoadedShared(c: Cache, v: View, magSize: nat, t: Thread, nextId: MagId, nextPool: PoolId) returns (v': View)
    requires Inv(c, v, magSize) && Numbered(v, nextId, nextPool)
    requires t in v.threads && v.threads[t].loaded.None? && Shared(v) != []
    ensures c.links.sharedMags in c.links.nextMag && c.links.sharedMags != 0
    ensures Inv(LoadSharedC(c, t, magSize), v', magSize) && Numbered(v', nextId, nextPool)
    ensures v'.threads.Keys == v.threads.Keys && v'.threads[t].loaded.Some? && v'.place == v.place
  {
    LoadSharedInv(c, v, magSize, t);
    v' := LoadSharedV(v, t);
  }

  lemma SharedOut(c: Cache, v: View, magSize: nat, t: Thread, nextId: MagId, nextPool: PoolId) returns (v': View)
    requires Inv(c, v, magSize) && Numbered(v, nextId, nextPool) && t in v.threads && v.threads[t].previous.Some?
    ensures Inv(ShareC(c, t), v', magSize) && Numbered(v', nextId, nextPool)
    ensures v'.threads == v.threads[t := v.threads[t].(previous := None)]
    ensures v'.place == v.place && v'.r.mags == v.r.mags
  {
    ShareInv(c, v, magSize, t);
    v' := ShareV(v, t);
  }

  lemma Dropped(c: Cache, v: View, magSize: nat, call: Call, nextId: MagId, nextPool: PoolId) returns (v': View)
    requires Inv(c, v, magSize) && Numbered(v, nextId, nextPool)
    requires call in c.links.hdrs && v.pools.lists[v.pools.detached[call]] != []
    ensures c.links.hdrs[call] in c.links.nextMag
    ensures Inv(DropC(c, call), v', magSize) && Numbered(v', nextId, nextPool)
    ensures var pool := v.pools.detached[call];
            && v.pools.lists[pool][0] in v.r.mags
            && Returned(v, v', pool, v.r.mags[v.pools.lists[pool][0]], magSize)
  {
    var pool := v.pools.detached[call];
    var id := v.pools.lists[pool][0];
    DropInv(c, v, magSize, call);
    MagComplete(v.r.mags, c.nextItem, v.place, id);
    DropReturns(v, magSize, pool, id);
    v' := DropV(v, pool, Unplaced(v.place, v.r.mags[id], magSize));
    NumberedStays(v, v', nextId, nextPool);
  }

  /** Exactly the first magazine of the list leaves. */
  lemma DropReturns(v: View, magSize: nat, pool: PoolId, id: MagId)
    requires pool in v.pools.lists && v.pools.lists[pool] != [] && v.pools.lists[pool][0] == id && id in v.r.mags
    requires |v.r.mags[id]| == magSize && Complete(v.r.mags[id], id, v.place)
    ensures Returned(v, DropV(v, pool, Unplaced(v.place, v.r.mags[id], magSize)), pool, v.r.mags[id], magSize)
  {
    UnplacedMeans(v.place, v.r.mags[id], id, magSize);
  }

  lemma NumberedStays(v: View, v': View, nextId: MagId, nextPool: PoolId)
    requires Numbered(v, nextId, nextPool)
    requires v'.r.mags.Keys <= v.r.mags.Keys && v'.pools.lists.Keys <= v.pools.lists.Keys
    ensures Numbered(v', nextId, nextPool)
  {
  }

  lemma NewMag(c: Cache, c': Cache, v: View, magSize: nat, t: Thread, items: seq<Ptr>, nextItem: map<Ptr, Ptr>,
               nextId: MagId, nextPool: PoolId)
    returns (v': View)
    requires Inv(c, v, magSize) && Numbered(v, nextId, nextPool) && t in v.threads && v.threads[t].loaded.None?
    requires |items| == magSize && FromStore(items, v.place) && Relinked(items, c.nextItem, nextItem)
    requires c' == NewMagC(c, t, items, nextItem)
    ensures Inv(c', v', magSize) && Numbered(v', nextId + 1, nextPool)
    ensures v'.threads.Keys == v.threads.Keys && v'.threads[t].loaded.Some? && Grown(v.place, v'.place)
    ensures c'.magsAllocated == c.magsAllocated + 1
  {
    var place := Placed(v.place, items, nextId, |items|);
    StoreApart(items, v.place);
    NewMagInv(c, v, magSize, t, items, nextItem, nextId);
    PlacedKeeps(v.place, items, nextId, |items|);
    PlacedBackedClient(v.place, items, nextId);
    v' := NewMagV(v, t, items, nextId, place);
  }

  lemma StoreApart(items: seq<Ptr>, place: map<Ptr, Place>)
    requires FromStore(items, place)
    ensures forall x :: x in place ==> x !in items
  {
  }

  lemma PlacedBackedClient(place: map<Ptr, Place>, items: seq<Ptr>, id: MagId)
    requires FromStore(items, place)
    ensures var place' := Placed(place, items, id, |items|);
            forall x :: x in place' && place'[x] == Client ==> x in place
  {
    var place' := Placed(place, items, id, |items|);
    forall x | x in place' && x !in place
      ensures place'[x] != Client
    {
      PlacedFrom(place, items, id, |items|, x);
    }
  }
}
