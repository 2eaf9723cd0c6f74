/** A container's `subviews` collection, abstracted as a sequence of records:
    each child view is known by its identity and its `accessibilityIdentifier`.
    Swift's `filter` over that collection, and the removals and additions built
    on it, are the functions below. */
module Subviews {

  import Wrappers

  /** The identity of a view object. */
  type ViewId = nat

  datatype Subview = Subview(viewId: ViewId, identifier: Wrappers.Option<string>)

  /** A view has at most one superview and appears in its `subviews` once. */
  ghost predicate UniqueIds(vs: seq<Subview>)
  {
    forall i, j :: 0 <= i < j < |vs| ==> vs[i].viewId != vs[j].viewId
  }

  function Ids(vs: seq<Subview>): set<ViewId>
  {
    set v | v in vs :: v.viewId
  }

  /** An identity no view in `vs` has: what allocating a new `UIView` provides. */
  function FreshId(vs: seq<Subview>): (r: ViewId)
    ensures forall v :: v in vs ==> v.viewId < r
  {
    if vs == [] then 0
    else
      var later := FreshId(vs[1..]);
      if vs[0].viewId < later then later else vs[0].viewId + 1
  }

  /** Swift's `filter`: the subviews that satisfy `keep`, in their original order. */
  function Filter(vs: seq<Subview>, keep: Subview -> bool): (r: seq<Subview>)
    ensures |r| <= |vs|
    ensures forall v :: v in r <==> v in vs && keep(v)
  {
    if vs == [] then []
    else (if keep(vs[0]) then [vs[0]] else []) + Filter(vs[1..], keep)
  }

  // The tests the filters below use, named so that every use is the same function.
  function IsNot(id: ViewId): Subview -> bool { (v: Subview) => v.viewId != id }
  function NotIn(ids: set<ViewId>): Subview -> bool { (v: Subview) => v.viewId !in ids }
  function Has(tag: string): Subview -> bool { (v: Subview) => v.identifier == Wrappers.Some(tag) }
  function Lacks(tag: string): Subview -> bool { (v: Subview) => v.identifier != Wrappers.Some(tag) }
  function In(ids: set<ViewId>): Subview -> bool { (v: Subview) => v.viewId in ids }
  function Both(p: Subview -> bool, q: Subview -> bool): Subview -> bool { (v: Subview) => p(v) && q(v) }

  /** The subviews left after the view `id` is removed from its superview. */
  function Detached(vs: seq<Subview>, id: ViewId): seq<Subview>
  {
    Filter(vs, IsNot(id))
  }

  /** The subviews left after every view whose identity is in `ids` is removed. */
  function WithoutIds(vs: seq<Subview>, ids: set<ViewId>): seq<Subview>
  {
    Filter(vs, NotIn(ids))
  }

  /** The subviews whose accessibility identifier equals `tag`. */
  function TaggedWith(vs: seq<Subview>, tag: string): seq<Subview>
  {
    Filter(vs, Has(tag))
  }

  /** The subviews whose accessibility identifier is nil or differs from `tag`. */
  function WithoutTag(vs: seq<Subview>, tag: string): seq<Subview>
  {
    Filter(vs, Lacks(tag))
  }

  /** The subviews after the accessibility identifier of view `id` is set to `identifier`. */
  function Retagged(vs: seq<Subview>, id: ViewId, identifier: Wrappers.Option<string>): (r: seq<Subview>)
    ensures |r| == |vs|
    ensures forall i :: 0 <= i < |vs| ==> r[i].viewId == vs[i].viewId
    ensures forall i :: 0 <= i < |vs| && vs[i].viewId != id ==> r[i] == vs[i]
    ensures forall i :: 0 <= i < |vs| && vs[i].viewId == id ==> r[i].identifier == identifier
  {
    if vs == [] then []
    else [if vs[0].viewId == id then vs[0].(identifier := identifier) else vs[0]]
         + Retagged(vs[1..], id, identifier)
  }

  /** Filtering distributes over concatenation: relative order is kept. */
  lemma {:induction false} FilterAppend(a: seq<Subview>, b: seq<Subview>, keep: Subview -> bool)
    ensures Filter(a + b, keep) == Filter(a, keep) + Filter(b, keep)
  {
    if a == [] {
      assert a + b == b;
    } else {
      assert (a + b)[1..] == a[1..] + b;
      FilterAppend(a[1..], b, keep);
    }
  }

  /** Filtering with a test that every subview passes changes nothing. */
  lemma {:induction false} FilterKeepsAll(vs: seq<Subview>, keep: Subview -> bool)
    requires forall v :: v in vs ==> keep(v)
    ensures Filter(vs, keep) == vs
  {
    if vs != [] {
      assert vs[0] in vs;
      assert forall v :: v in vs[1..] ==> v in vs;
      FilterKeepsAll(vs[1..], keep);
    }
  }

  /** Filtering with a test that no subview passes leaves nothing. */
  lemma {:induction false} FilterDropsAll(vs: seq<Subview>, keep: Subview -> bool)
    requires forall v :: v in vs ==> !keep(v)
    ensures Filter(vs, keep) == []
  {
    if vs != [] {
      assert vs[0] in vs;
      assert forall v :: v in vs[1..] ==> v in vs;
      FilterDropsAll(vs[1..], keep);
    }
  }

  /** Two tests that agree on every subview select the same subsequence. */
  lemma {:induction false} FilterAgree(vs: seq<Subview>, p: Subview -> bool, q: Subview -> bool)
    requires forall v :: v in vs ==> p(v) == q(v)
    ensures Filter(vs, p) == Filter(vs, q)
  {
    if vs != [] {
      assert vs[0] in vs;
      assert forall v :: v in vs[1..] ==> v in vs;
      FilterAgree(vs[1..], p, q);
    }
  }

  /** Filtering twice is filtering once with the conjunction of the tests. */
  lemma {:induction false} FilterFilter(vs: seq<Subview>, p: Subview -> bool, q: Subview -> bool)
    ensures Filter(Filter(vs, p), q) == Filter(vs, Both(p, q))
  {
    if vs != [] {
      FilterFilter(vs[1..], p, q);
      var head := if p(vs[0]) then [vs[0]] else [];
      FilterAppend(head, Filter(vs[1..], p), q);
    }
  }

  /** What a test keeps and what its negation keeps together account for every subview. */
  lemma {:induction false} FilterPartition(vs: seq<Subview>, keep: Subview -> bool, drop: Subview -> bool)
    requires forall v :: v in vs ==> drop(v) == !keep(v)
    ensures |Filter(vs, keep)| + |Filter(vs, drop)| == |vs|
  {
    if vs != [] {
      assert vs[0] in vs;
      assert forall v :: v in vs[1..] ==> v in vs;
      FilterPartition(vs[1..], keep, drop);
    }
  }

  /** Putting a view that is not yet present in front keeps the views distinct. */
  lemma UniqueIdsCons(x: Subview, vs: seq<Subview>)
    requires UniqueIds(vs)
    requires x.viewId !in Ids(vs)
    ensures UniqueIds([x] + vs)
  {
  }

  /** A filtered collection of distinct views still holds distinct views. */
  lemma {:induction false} FilterUnique(vs: seq<Subview>, keep: Subview -> bool)
    requires UniqueIds(vs)
    ensures UniqueIds(Filter(vs, keep))
  {
    if vs != [] {
      var rest := vs[1..];
      assert UniqueIds(rest) by {
        forall i, j | 0 <= i < j < |rest| ensures rest[i].viewId != rest[j].viewId {
          assert rest[i] == vs[i + 1] && rest[j] == vs[j + 1];
        }
      }
      FilterUnique(rest, keep);
      if keep(vs[0]) {
        assert vs[0].viewId !in Ids(Filter(rest, keep)) by {
          forall v | v in Filter(rest, keep) ensures v.viewId != vs[0].viewId {
            var k :| 0 <= k < |rest| && rest[k] == v;
            assert vs[k + 1] == v;
          }
        }
        UniqueIdsCons(vs[0], Filter(rest, keep));
      } else {
        assert [] + Filter(rest, keep) == Filter(rest, keep);
      }
    }
  }

  /** Appending a view that is not yet present keeps the views distinct. */
  lemma UniqueIdsSnoc(vs: seq<Subview>, x: Subview)
    requires UniqueIds(vs)
    requires x.viewId !in Ids(vs)
    ensures UniqueIds(vs + [x])
  {
  }

  /** In a collection of distinct views, a view is fixed by its identity. */
  lemma SameIdSameView(vs: seq<Subview>, v: Subview, w: Subview)
    requires UniqueIds(vs)
    requires v in vs && w in vs && v.viewId == w.viewId
    ensures v == w
  {
  }

  /** Removing, one by one, every view the tag filter selected leaves exactly the
      views whose identifier differs from the tag, provided views are distinct. */
  lemma RemovingTaggedIds(vs: seq<Subview>, tag: string)
    requires UniqueIds(vs)
    ensures WithoutIds(vs, Ids(TaggedWith(vs, tag))) == WithoutTag(vs, tag)
  {
    var doomed := Ids(TaggedWith(vs, tag));
    forall v | v in vs
      ensures (v.viewId !in doomed) == (v.identifier != Wrappers.Some(tag))
    {
      if v.viewId in doomed {
        var w :| w in TaggedWith(vs, tag) && w.viewId == v.viewId;
        SameIdSameView(vs, v, w);
      } else {
        assert v.identifier == Wrappers.Some(tag) ==> v in TaggedWith(vs, tag);
      }
    }
    FilterAgree(vs, NotIn(doomed), Lacks(tag));
  }

  /** Removing the views of `doomed` one at a time: removing the next one after
      the first `i` is removing the first `i + 1`. */
  lemma DetachNext(vs: seq<Subview>, doomed: seq<Subview>, i: nat)
    requires i < |doomed|
    ensures Detached(WithoutIds(vs, Ids(doomed[..i])), doomed[i].viewId) == WithoutIds(vs, Ids(doomed[..i + 1]))
  {
    assert doomed[..i + 1] == doomed[..i] + [doomed[i]];
    assert Ids(doomed[..i + 1]) == Ids(doomed[..i]) + {doomed[i].viewId};
    DetachedWithoutIds(vs, Ids(doomed[..i]), doomed[i].viewId);
  }

  /** Removing one more view after a set of views is removing the enlarged set. */
  lemma DetachedWithoutIds(vs: seq<Subview>, ids: set<ViewId>, id: ViewId)
    ensures Detached(WithoutIds(vs, ids), id) == WithoutIds(vs, ids + {id})
  {
    FilterFilter(vs, NotIn(ids), IsNot(id));
    FilterAgree(vs, Both(NotIn(ids), IsNot(id)), NotIn(ids + {id}));
  }

  /** Setting the identifier of a view that is not present changes nothing. */
  lemma RetaggedAbsent(vs: seq<Subview>, id: ViewId, identifier: Wrappers.Option<string>)
    requires id !in Ids(vs)
    ensures Retagged(vs, id, identifier) == vs
  {
  }
}
