/**
 * Name listings: the order in which a directory or a container lists the names it holds
 * (each exactly once), and the order left when some names are removed.
 */
module Listings {

  /** No name occurs twice. */
  predicate Distinct<N(==)>(s: seq<N>)
  {
    s == [] || (Distinct(s[..|s| - 1]) && s[|s| - 1] !in s[..|s| - 1])
  }

  /** The names listed in `s`. */
  function SetOf<N(==)>(s: seq<N>): set<N>
  {
    if s == [] then {} else SetOf(s[..|s| - 1]) + {s[|s| - 1]}
  }

  lemma {:induction false} SetOfMembers<N>(s: seq<N>)
    ensures forall x :: x in SetOf(s) <==> x in s
    decreases |s|
  {
    if s != [] {
      SetOfMembers(s[..|s| - 1]);
      assert s == s[..|s| - 1] + [s[|s| - 1]];
    }
  }

  /** Listing one more name adds it to the set, and keeps the list free of repeats when it is new. */
  lemma {:induction false} SetOfSnoc<N>(s: seq<N>, x: N)
    ensures SetOf(s + [x]) == SetOf(s) + {x}
    ensures Distinct(s) && x !in SetOf(s) ==> Distinct(s + [x])
  {
    var t := s + [x];
    assert t[..|s|] == s;
    SetOfMembers(s);
  }

  /** `order` without the names in `gone`, the others in their order. */
  function Remaining<N(==)>(order: seq<N>, gone: set<N>): seq<N>
  {
    if order == [] then []
    else
      var init, last := order[..|order| - 1], order[|order| - 1];
      Remaining(init, gone) + (if last in gone then [] else [last])
  }

  lemma {:induction false} RemainingSnoc<N>(order: seq<N>, x: N, gone: set<N>)
    ensures Remaining(order + [x], gone) == Remaining(order, gone) + (if x in gone then [] else [x])
  {
    var o := order + [x];
    assert o[..|order|] == order;
  }

  lemma {:induction false} RemainingAdd<N>(order: seq<N>, gone: set<N>, n: N)
    ensures Remaining(Remaining(order, gone), {n}) == Remaining(order, gone + {n})
    decreases |order|
  {
    if order != [] {
      var init, last := order[..|order| - 1], order[|order| - 1];
      RemainingAdd(init, gone, n);
      var r := Remaining(init, gone);
      if last !in gone {
        assert Remaining(order, gone) == r + [last];
        assert (r + [last])[..|r|] == r;
        assert Remaining(r + [last], {n}) == Remaining(r, {n}) + (if last == n then [] else [last]);
      } else {
        assert Remaining(order, gone) == r;
      }
    }
  }

  lemma {:induction false} RemainingNone<N>(order: seq<N>)
    ensures Remaining(order, {}) == order
    decreases |order|
  {
    if order != [] {
      RemainingNone(order[..|order| - 1]);
    }
  }

  /** `order` lists each name of `entries` exactly once. */
  predicate Listing<N(==), V>(order: seq<N>, entries: map<N, V>)
    decreases |order|
  {
    if order == [] then entries == map[]
    else
      var last := order[|order| - 1];
      last in entries && Listing(order[..|order| - 1], entries - {last})
  }

  lemma {:induction false} ListingMembers<N, V>(order: seq<N>, entries: map<N, V>)
    requires Listing(order, entries)
    ensures forall n :: n in entries <==> n in order
    decreases |order|
  {
    if order != [] {
      var init, last := order[..|order| - 1], order[|order| - 1];
      ListingMembers(init, entries - {last});
      assert order == init + [last];
    }
  }

  lemma {:induction false} ListingDistinct<N, V>(order: seq<N>, entries: map<N, V>)
    requires Listing(order, entries)
    ensures Distinct(order)
    decreases |order|
  {
    if order != [] {
      var init, last := order[..|order| - 1], order[|order| - 1];
      ListingDistinct(init, entries - {last});
      ListingMembers(init, entries - {last});
    }
  }

  lemma {:induction false} ListingRemaining<N, V>(order: seq<N>, entries: map<N, V>, gone: set<N>)
    requires Listing(order, entries)
    ensures Listing(Remaining(order, gone), entries - gone)
    decreases |order|
  {
    if order == [] {
      assert entries - gone == map[];
    } else {
      var init, last := order[..|order| - 1], order[|order| - 1];
      ListingRemaining(init, entries - {last}, gone);
      var r := Remaining(init, gone);
      assert Remaining(order, gone) == r + (if last in gone then [] else [last]);
      assert (entries - {last}) - gone == (entries - gone) - {last};
      if last in gone {
        assert Remaining(order, gone) == r;
        assert (entries - {last}) - gone == entries - gone;
      } else {
        assert (r + [last])[..|r|] == r;
      }
    }
  }

  lemma {:induction false} ListingUpdate<N, V>(order: seq<N>, entries: map<N, V>, k: N, v: V)
    requires Listing(order, entries) && k in entries
    ensures Listing(order, entries[k := v])
    decreases |order|
  {
    assert order != [];
    var init, last := order[..|order| - 1], order[|order| - 1];
    if last == k {
      assert entries[k := v] - {k} == entries - {k};
    } else {
      ListingUpdate(init, entries - {last}, k, v);
      assert entries[k := v] - {last} == (entries - {last})[k := v];
    }
  }

  lemma {:induction false} ListingAppend<N, V>(order: seq<N>, entries: map<N, V>, k: N, v: V)
    requires Listing(order, entries) && k !in entries
    ensures Listing(order + [k], entries[k := v])
  {
    var o := order + [k];
    assert o[..|order|] == order;
    assert entries[k := v] - {k} == entries;
  }

  lemma {:induction false} DistinctNotBefore<N>(s: seq<N>, i: nat)
    requires Distinct(s) && i < |s|
    ensures s[i] !in s[..i]
    decreases |s|
  {
    if i < |s| - 1 {
      var init := s[..|s| - 1];
      assert init[..i] == s[..i] && init[i] == s[i];
      DistinctNotBefore(init, i);
    }
  }

}
