/** Bucketing a list by a list of groups: the `reduce` that, for each group
    in turn, `set`s the group's name to the items it accepts. Used for
    metadata by type name, for library assets by image group, and for the
    content form's metadata by type id. A later group with the same name
    overwrites an earlier one, as `set` on an object does. */
module Grouping {
  import Seqs

  /** The buckets after folding over `groups`, as a value. */
  function Grouped<G, K, T>(groups: seq<G>, name: G -> K, accepts: G -> T -> bool, items: seq<T>): map<K, seq<T>>
  {
    if |groups| == 0 then map[]
    else
      var g := groups[|groups| - 1];
      Grouped(groups[..|groups| - 1], name, accepts, items)[name(g) := Seqs.Filter(items, accepts(g))]
  }

  /** The reduce itself: one `set` per group, in order. */
  method GroupBy<G, K, T>(groups: seq<G>, name: G -> K, accepts: G -> T -> bool, items: seq<T>)
    returns (buckets: map<K, seq<T>>)
    ensures buckets == Grouped(groups, name, accepts, items)
  {
    buckets := map[];
    var i := 0;
    while i < |groups|
      invariant 0 <= i <= |groups|
      invariant buckets == Grouped(groups[..i], name, accepts, items)
    {
      var g := groups[i];
      buckets := buckets[name(g) := Seqs.Filter(items, accepts(g))];
      assert groups[..i + 1][..i] == groups[..i];
      i := i + 1;
    }
    assert groups[..i] == groups;
  }

  /** The buckets are named by exactly the groups' names. */
  lemma {:induction false} GroupedKeys<G, K, T>(groups: seq<G>, name: G -> K, accepts: G -> T -> bool, items: seq<T>)
    ensures forall k :: k in Grouped(groups, name, accepts, items) <==> exists g :: g in groups && name(g) == k
  {
    if |groups| > 0 {
      var pre := groups[..|groups| - 1];
      GroupedKeys(pre, name, accepts, items);
      assert groups == pre + [groups[|groups| - 1]];
      forall k | exists g :: g in groups && name(g) == k
        ensures k in Grouped(groups, name, accepts, items)
      {
        var g :| g in groups && name(g) == k;
        if g !in pre {
          assert g == groups[|groups| - 1];
        }
      }
    }
  }

  /** When no two groups share a name, the bucket of each group holds exactly
      the items it accepts, in their original order. */
  lemma {:induction false} GroupedBucket<G, K, T>(groups: seq<G>, name: G -> K, accepts: G -> T -> bool, items: seq<T>, i: nat)
    requires i < |groups|
    requires forall a, b :: 0 <= a < b < |groups| ==> name(groups[a]) != name(groups[b])
    ensures name(groups[i]) in Grouped(groups, name, accepts, items)
    ensures Grouped(groups, name, accepts, items)[name(groups[i])] == Seqs.Filter(items, accepts(groups[i]))
  {
    var n := |groups| - 1;
    if i < n {
      var pre := groups[..n];
      GroupedBucket(pre, name, accepts, items, i);
      assert name(pre[i]) != name(groups[n]);
    }
  }

  /** Every item in a bucket is accepted by a group of that name; an item no
      group accepts is in no bucket. */
  lemma {:induction false} GroupedMembers<G, K, T>(groups: seq<G>, name: G -> K, accepts: G -> T -> bool, items: seq<T>, k: K, x: T)
    requires k in Grouped(groups, name, accepts, items)
    requires x in Grouped(groups, name, accepts, items)[k]
    ensures x in items
    ensures exists g :: g in groups && name(g) == k && accepts(g)(x)
  {
    var n := |groups| - 1;
    var g := groups[n];
    var pre := groups[..n];
    Seqs.FilterMembership(items, accepts(g), x);
    if k != name(g) {
      GroupedMembers(pre, name, accepts, items, k, x);
      var h :| h in pre && name(h) == k && accepts(h)(x);
      assert h in groups;
    }
  }
}
