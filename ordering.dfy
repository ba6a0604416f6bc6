/** The order in which the in-memory server lists a collection: ascending by
    resource id, under Go's byte-wise string order. */
module Ordering {
  import opened GoStrings
  import opened Documents

  /** Ids in strictly ascending order (hence without repetition). */
  predicate StrictlySorted(ids: seq<string>) {
    forall i, j :: 0 <= i < j < |ids| ==> Less(ids[i], ids[j])
  }

  /** Resources in ascending order of id; equal ids may sit side by side. */
  predicate SortedById(list: seq<Resource>) {
    forall i, j :: 0 <= i < j < |list| ==> !Less(list[j].id, list[i].id)
  }

  /** `m` is a least element of `ids`. */
  predicate IsLeast(m: string, ids: set<string>) {
    m in ids && forall x :: x in ids ==> !Less(x, m)
  }

  /** Adding `y` to a set whose least element is `m` leaves `m` or `y` as the
      least element. */
  lemma LeastOfInsert(rest: set<string>, m: string, y: string)
    requires IsLeast(m, rest)
    ensures IsLeast(m, rest + {y}) || IsLeast(y, rest + {y})
  {
    var ids := rest + {y};
    if Less(y, m) {
      forall x | x in ids ensures !Less(x, y) {
        if x == y {
          LessIrreflexive(y);
        } else if Less(x, y) {
          LessTransitive(x, y, m);
        }
      }
      assert IsLeast(y, ids);
    } else {
      assert IsLeast(m, ids);
    }
  }

  /** Every non-empty set of ids has a least element. */
  lemma {:induction false} MinExists(ids: set<string>)
    requires ids != {}
    ensures exists m :: IsLeast(m, ids)
    decreases ids
  {
    var y :| y in ids;
    var rest := ids - {y};
    assert ids == rest + {y};
    if rest == {} {
      LessIrreflexive(y);
      assert IsLeast(y, ids);
    } else {
      MinExists(rest);
      var m :| IsLeast(m, rest);
      LeastOfInsert(rest, m, y);
    }
  }

  /** The least element is below every other one. */
  lemma MinBelowRest(ids: set<string>, m: string)
    requires IsLeast(m, ids)
    ensures forall x :: x in ids - {m} ==> Less(m, x)
  {
    forall x | x in ids - {m} ensures Less(m, x) {
      LessTotal(m, x);
    }
  }

  /** The ids of a set in ascending order. */
  ghost function SortedIds(ids: set<string>): (r: seq<string>)
    ensures StrictlySorted(r)
    ensures forall x :: x in r <==> x in ids
    ensures |r| == |ids|
    decreases ids
  {
    if ids == {} then []
    else
      MinExists(ids);
      var m :| IsLeast(m, ids);
      MinBelowRest(ids, m);
      [m] + SortedIds(ids - {m})
  }

  /** The head of an ascending sequence is below every other element. */
  lemma HeadIsLeast(s: seq<string>, x: string)
    requires StrictlySorted(s) && x in s
    ensures x == s[0] || Less(s[0], x)
  {
  }

  lemma SameElementsEmpty<T>(s: seq<T>, t: seq<T>)
    requires forall x :: x in s <==> x in t
    ensures s == [] <==> t == []
  {
    if s != [] { assert s[0] in t; }
    if t != [] { assert t[0] in s; }
  }

  /** Two ascending sequences of the same ids are the same sequence. */
  lemma {:induction false} StrictlySortedUnique(s: seq<string>, t: seq<string>)
    requires StrictlySorted(s) && StrictlySorted(t)
    requires forall x :: x in s <==> x in t
    ensures s == t
    decreases |s|
  {
    SameElementsEmpty(s, t);
    if s != [] {
      assert s[0] in t && t[0] in s;
      HeadIsLeast(t, s[0]);
      HeadIsLeast(s, t[0]);
      if s[0] != t[0] {
        LessAsymmetric(t[0], s[0]);
      }
      forall x ensures x in s[1..] <==> x in t[1..] {
        if x in s[1..] {
          var k :| 1 <= k < |s| && s[k] == x;
          assert Less(s[0], x);
          LessIrreflexive(x);
          assert x in t && x != t[0];
        }
        if x in t[1..] {
          var k :| 1 <= k < |t| && t[k] == x;
          assert Less(t[0], x);
          LessIrreflexive(x);
          assert x in s && x != s[0];
        }
      }
      StrictlySortedUnique(s[1..], t[1..]);
      assert s == [s[0]] + s[1..] && t == [t[0]] + t[1..];
    }
  }

  /** The resources of a collection in ascending order of id. */
  ghost function Listing(coll: map<string, Resource>): (list: seq<Resource>)
    ensures |list| == |coll|
  {
    var ids := SortedIds(coll.Keys);
    seq(|ids|, k requires 0 <= k < |ids| => coll[ids[k]])
  }

  /** The ids of a list of resources. */
  function IdsOf(list: seq<Resource>): (ids: seq<string>)
    ensures |ids| == |list| && forall k :: 0 <= k < |list| ==> ids[k] == list[k].id
  {
    seq(|list|, k requires 0 <= k < |list| => list[k].id)
  }

  /** Each resource of the collection is filed under its own id. */
  predicate FiledById(coll: map<string, Resource>) {
    forall id :: id in coll ==> coll[id].id == id
  }

  /** The ids of the listing are the collection's keys in ascending order. */
  lemma ListingIds(coll: map<string, Resource>)
    requires FiledById(coll)
    ensures IdsOf(Listing(coll)) == SortedIds(coll.Keys)
  {
    var ids := SortedIds(coll.Keys);
    var list := Listing(coll);
    forall k | 0 <= k < |ids| ensures IdsOf(list)[k] == ids[k] {
      assert ids[k] in coll.Keys;
    }
  }

  /** A resource is in the listing exactly when it is in the collection. */
  lemma ListingMember(coll: map<string, Resource>, x: Resource)
    ensures x in Listing(coll) <==> x in coll.Values
  {
    var ids := SortedIds(coll.Keys);
    var list := Listing(coll);
    if x in list {
      var k :| 0 <= k < |list| && list[k] == x;
      assert ids[k] in coll.Keys;
    }
    if x in coll.Values {
      var id :| id in coll && coll[id] == x;
      var k :| 0 <= k < |ids| && ids[k] == id;
      assert list[k] == x;
    }
  }

  /** The listing is ascending, each id at most once, and holds exactly the
      resources of the collection. */
  lemma ListingIsSorted(coll: map<string, Resource>)
    requires FiledById(coll)
    ensures StrictlySorted(IdsOf(Listing(coll)))
    ensures forall x :: x in Listing(coll) <==> x in coll.Values
  {
    ListingIds(coll);
    forall x ensures x in Listing(coll) <==> x in coll.Values {
      ListingMember(coll, x);
    }
  }

  /** Two indices holding the same element count it twice. */
  lemma TwiceCounted<T>(s: seq<T>, i: int, j: int)
    requires 0 <= i < j < |s| && s[i] == s[j]
    ensures multiset(s)[s[i]] >= 2
  {
    assert s == s[..j] + [s[j]] + s[j + 1..];
    assert s[i] in s[..j];
  }

  /** An arrangement of resources, each at most once, that are filed by id
      is in strictly ascending order of id when it is sorted by id. */
  lemma ArrangedIdsStrictlySorted(coll: map<string, Resource>, sorted: seq<Resource>)
    requires FiledById(coll)
    requires forall k :: 0 <= k < |sorted| ==> sorted[k].id in coll && coll[sorted[k].id] == sorted[k]
    requires forall x :: multiset(sorted)[x] <= 1
    requires SortedById(sorted)
    ensures StrictlySorted(IdsOf(sorted))
  {
    var ids := IdsOf(sorted);
    forall i, j | 0 <= i < j < |ids| ensures Less(ids[i], ids[j]) {
      if ids[i] == ids[j] {
        assert sorted[i] == sorted[j];
        TwiceCounted(sorted, i, j);
        assert false;
      }
      LessTotal(ids[i], ids[j]);
    }
  }

  /** The ids of an arrangement that holds every resource of a filed
      collection and nothing else are the collection's keys. */
  lemma ArrangedIdsAreKeys(coll: map<string, Resource>, sorted: seq<Resource>)
    requires FiledById(coll)
    requires forall k :: 0 <= k < |sorted| ==> sorted[k].id in coll && coll[sorted[k].id] == sorted[k]
    requires forall id :: id in coll ==> coll[id] in sorted
    ensures forall x :: x in IdsOf(sorted) <==> x in coll.Keys
  {
    var ids := IdsOf(sorted);
    forall x ensures x in ids <==> x in coll.Keys {
      if x in coll.Keys {
        var k :| 0 <= k < |sorted| && sorted[k] == coll[x];
        assert ids[k] == x;
      }
    }
  }

  /** A sorted arrangement of the resources of a collection, each once, is the
      listing. */
  lemma ArrangementIsListing(coll: map<string, Resource>, items: seq<Resource>, sorted: seq<Resource>)
    requires FiledById(coll)
    requires forall k :: 0 <= k < |items| ==> items[k].id in coll && coll[items[k].id] == items[k]
    requires forall id :: id in coll ==> coll[id] in items
    requires forall x :: multiset(items)[x] <= 1
    requires multiset(sorted) == multiset(items) && SortedById(sorted)
    ensures sorted == Listing(coll)
  {
    forall x ensures x in sorted <==> x in items {
      assert x in sorted <==> x in multiset(sorted);
      assert x in items <==> x in multiset(items);
    }
    forall k | 0 <= k < |sorted| ensures sorted[k].id in coll && coll[sorted[k].id] == sorted[k] {
      assert sorted[k] in items;
    }
    ArrangedIdsStrictlySorted(coll, sorted);
    ArrangedIdsAreKeys(coll, sorted);
    var ids := IdsOf(sorted);
    StrictlySortedUnique(ids, SortedIds(coll.Keys));
    var list := Listing(coll);
    forall k | 0 <= k < |sorted| ensures sorted[k] == list[k] {
      assert sorted[k].id == ids[k];
    }
  }
}
