/** Intrusive lists, seen as the sets they enumerate. */
module ListSets {
  predicate Distinct(all: seq<nat>) {
    all != [] ==> all[0] !in all[1..] && Distinct(all[1..])
  }

  /** The list holds each member of the set once, and nothing else. */
  predicate Lists(s: set<nat>, list: seq<nat>) {
    if list == [] then s == {} else list[0] in s && Lists(s - {list[0]}, list[1..])
  }

  lemma {:induction false} ListsMeans(s: set<nat>, list: seq<nat>)
    requires Lists(s, list)
    ensures Distinct(list) && |list| == |s|
    ensures forall x :: x in list <==> x in s
    decreases |list|
  {
    if list != [] {
      ListsMeans(s - {list[0]}, list[1..]);
      assert list == [list[0]] + list[1..];
    }
  }

  lemma {:induction false} ListsAt(s: set<nat>, list: seq<nat>, i: nat)
    requires Lists(s, list) && i < |list|
    ensures list[i] in s
    decreases |list|
  {
    if i > 0 {
      ListsAt(s - {list[0]}, list[1..], i - 1);
    }
  }

  function Without(s: seq<nat>, p: nat): (r: seq<nat>) {
    if s == [] then [] else if s[0] == p then s[1..] else [s[0]] + Without(s[1..], p)
  }

  /** Unlinking a member of a list. */
  lemma {:induction false} ListsWithout(s: set<nat>, list: seq<nat>, p: nat)
    requires Lists(s, list) && p in s
    ensures Lists(s - {p}, Without(list, p))
    decreases |list|
  {
    if list != [] && list[0] != p {
      ListsWithout(s - {list[0]}, list[1..], p);
      assert s - {list[0]} - {p} == s - {p} - {list[0]};
      assert Without(list, p)[1..] == Without(list[1..], p);
    }
  }

  lemma ListsCons(s: set<nat>, list: seq<nat>, p: nat)
    requires Lists(s, list) && p !in s
    ensures Lists(s + {p}, [p] + list)
  {
    assert ([p] + list)[1..] == list;
    assert s + {p} - {p} == s;
  }

  lemma {:induction false} ListsSnoc(s: set<nat>, list: seq<nat>, p: nat)
    requires Lists(s, list) && p !in s
    ensures Lists(s + {p}, list + [p])
    decreases |list|
  {
    if list == [] {
      assert s + {p} == {p} && list + [p] == [p];
      assert {p} - {p} == {} && [p][1..] == [];
    } else {
      ListsSnoc(s - {list[0]}, list[1..], p);
      assert (list + [p])[1..] == list[1..] + [p];
      assert s + {p} - {list[0]} == s - {list[0]} + {p};
    }
  }

  /** No member comes again later. */
  lemma {:induction false} DistinctFrom(list: seq<nat>, i: nat)
    requires Distinct(list) && i < |list|
    ensures forall j :: i < j < |list| ==> list[j] != list[i]
    decreases i
  {
    if i == 0 {
      assert forall j :: 0 < j < |list| ==> list[j] == list[1..][j - 1];
    } else {
      DistinctFrom(list[1..], i - 1);
      assert forall j :: i < j < |list| ==> list[j] == list[1..][j - 1];
    }
  }
}
