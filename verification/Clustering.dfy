/** First-fit complete-link clustering: each index joins the first cluster all of whose members
    it is linked to, or opens a new one. */
module Clustering {
  import opened Wrappers
  import opened Sequences

  type Link = (nat, nat) -> bool

  predicate Joins(linked: Link, index: nat, cluster: seq<nat>) {
    forall m :: m in cluster ==> linked(index, m)
  }

  /** The first cluster that accepts the index. */
  function FirstHome(linked: Link, index: nat, clusters: seq<seq<nat>>): (r: Option<nat>)
    ensures r.Some? ==> r.value < |clusters| && Joins(linked, index, clusters[r.value])
    ensures forall c :: 0 <= c < (if r.Some? then r.value else |clusters|) ==> !Joins(linked, index, clusters[c])
  {
    if clusters == [] then None
    else if Joins(linked, index, clusters[0]) then Some(0)
    else
      var rest := FirstHome(linked, index, clusters[1..]);
      if rest.Some? then Some(rest.value + 1) else None
  }

  function Place(linked: Link, index: nat, clusters: seq<seq<nat>>): seq<seq<nat>> {
    match FirstHome(linked, index, clusters)
    case Some(home) => clusters[home := clusters[home] + [index]]
    case None => clusters + [[index]]
  }

  function CompleteLink(linked: Link, ordered: seq<nat>): seq<seq<nat>> {
    if ordered == [] then []
    else Place(linked, ordered[|ordered| - 1], CompleteLink(linked, ordered[..|ordered| - 1]))
  }

  /** The loop that searches a destination for each index in turn. */
  method CompleteLinkClusters(linked: Link, ordered: seq<nat>) returns (clusters: seq<seq<nat>>)
    ensures clusters == CompleteLink(linked, ordered)
  {
    clusters := [];
    for i := 0 to |ordered|
      invariant clusters == CompleteLink(linked, ordered[..i])
    {
      assert ordered[..i + 1][..i] == ordered[..i];
      var destination: Option<nat> := None;
      for c := 0 to |clusters|
        invariant destination.None?
        invariant forall d :: 0 <= d < c ==> !Joins(linked, ordered[i], clusters[d])
      {
        if forall m :: m in clusters[c] ==> linked(ordered[i], m) {
          assert Joins(linked, ordered[i], clusters[c]);
          destination := Some(c);
          break;
        }
      }
      if destination.Some? {
        clusters := clusters[destination.value := clusters[destination.value] + [ordered[i]]];
      } else {
        clusters := clusters + [[ordered[i]]];
      }
    }
    assert ordered[..|ordered|] == ordered;
  }

  // ---------- what the clustering is ----------

  function Flatten(clusters: seq<seq<nat>>): seq<nat> {
    if clusters == [] then [] else Flatten(clusters[..|clusters| - 1]) + clusters[|clusters| - 1]
  }

  /** Some earlier member of the cluster keeps the index out. */
  ghost predicate KeptOut(linked: Link, index: nat, cluster: seq<nat>) {
    exists m :: m in cluster && m < index && !linked(index, m)
  }

  /** Every member was kept out of each cluster before its own. */
  ghost predicate FirstFit(linked: Link, clusters: seq<seq<nat>>) {
    forall a, b, x :: 0 <= a < b < |clusters| && x in clusters[b] ==> KeptOut(linked, x, clusters[a])
  }

  /** Members are pairwise linked, the later one to the earlier one. */
  ghost predicate AllLinked(linked: Link, clusters: seq<seq<nat>>) {
    forall c, i, j :: 0 <= c < |clusters| && 0 <= i < j < |clusters[c]| ==> linked(clusters[c][j], clusters[c][i])
  }

  ghost predicate Ascending(clusters: seq<seq<nat>>) {
    forall c :: 0 <= c < |clusters| ==> clusters[c] != [] && StrictlyIncreasing(clusters[c])
  }

  ghost predicate IsClustering(linked: Link, ordered: seq<nat>, clusters: seq<seq<nat>>) {
    multiset(Flatten(clusters)) == multiset(ordered) && WellFormed(linked, clusters)
  }

  lemma {:induction false} FlattenUpdate(clusters: seq<seq<nat>>, home: nat, x: nat)
    requires home < |clusters|
    ensures multiset(Flatten(clusters[home := clusters[home] + [x]])) == multiset(Flatten(clusters)) + multiset{x}
  {
    var n := |clusters| - 1;
    var grown := clusters[home := clusters[home] + [x]];
    if home == n {
      assert grown[..n] == clusters[..n];
    } else {
      assert grown[..n] == clusters[..n][home := clusters[..n][home] + [x]];
      FlattenUpdate(clusters[..n], home, x);
    }
  }

  lemma {:induction false} FlattenOpened(clusters: seq<seq<nat>>, x: nat)
    ensures multiset(Flatten(clusters + [[x]])) == multiset(Flatten(clusters)) + multiset{x}
  {
    assert (clusters + [[x]])[..|clusters|] == clusters;
  }

  lemma {:induction false} FlattenMembers(clusters: seq<seq<nat>>)
    ensures forall x :: x in Flatten(clusters) <==> exists c :: 0 <= c < |clusters| && x in clusters[c]
  {
    if clusters != [] {
      var n := |clusters| - 1;
      FlattenMembers(clusters[..n]);
      assert forall c :: 0 <= c < n ==> clusters[..n][c] == clusters[c];
      forall x ensures x in Flatten(clusters) <==> exists c :: 0 <= c < |clusters| && x in clusters[c] {
        if x in Flatten(clusters[..n]) {
          var c :| 0 <= c < n && x in clusters[..n][c];
          assert x in clusters[c];
        }
      }
    }
  }

  /** The part of a clustering that does not name the clustered indices. */
  ghost predicate WellFormed(linked: Link, clusters: seq<seq<nat>>) {
    Ascending(clusters) && AllLinked(linked, clusters) && FirstFit(linked, clusters)
  }

  ghost predicate AllBelow(clusters: seq<seq<nat>>, x: int) {
    forall c, m :: 0 <= c < |clusters| && m in clusters[c] ==> m < x
  }

  lemma {:induction false} KeptOutOfMore(linked: Link, y: nat, cluster: seq<nat>, more: seq<nat>)
    requires KeptOut(linked, y, cluster)
    ensures KeptOut(linked, y, cluster + more)
  {
    var m :| m in cluster && m < y && !linked(y, m);
    assert m in cluster + more;
  }

  /** Opening a cluster for an index that fits nowhere, or letting it join its first home. */
  lemma {:induction false} OpenKeeps(linked: Link, clusters: seq<seq<nat>>, x: nat)
    requires WellFormed(linked, clusters) && AllBelow(clusters, x)
    requires forall c :: 0 <= c < |clusters| ==> !Joins(linked, x, clusters[c])
    ensures WellFormed(linked, clusters + [[x]])
  {
    var placed := clusters + [[x]];
    forall a, b, y | 0 <= a < b < |placed| && y in placed[b] ensures KeptOut(linked, y, placed[a]) {
      if b == |clusters| {
        assert y == x && !Joins(linked, x, clusters[a]);
      }
    }
  }

  lemma {:induction false} GrowKeeps(linked: Link, clusters: seq<seq<nat>>, x: nat, home: nat)
    requires WellFormed(linked, clusters) && AllBelow(clusters, x)
    requires home < |clusters| && Joins(linked, x, clusters[home])
    requires forall c :: 0 <= c < home ==> !Joins(linked, x, clusters[c])
    ensures WellFormed(linked, clusters[home := clusters[home] + [x]])
  {
    var placed := clusters[home := clusters[home] + [x]];
    assert Ascending(placed) by {
      forall c | 0 <= c < |placed| ensures placed[c] != [] && StrictlyIncreasing(placed[c]) {
        assert StrictlyIncreasing(clusters[c]) && forall i :: 0 <= i < |clusters[c]| ==> clusters[c][i] in clusters[c];
      }
    }
    assert AllLinked(linked, placed) by {
      hide KeptOut, FirstFit;
      forall i | 0 <= i < |clusters[home]| ensures linked(x, clusters[home][i]) {
        assert clusters[home][i] in clusters[home];
      }
    }
    forall a, b, y | 0 <= a < b < |placed| && y in placed[b] ensures KeptOut(linked, y, placed[a]) {
      if y in clusters[b] {
        assert KeptOut(linked, y, clusters[a]);
        KeptOutOfMore(linked, y, clusters[a], [x]);
      } else {
        assert y == x && !Joins(linked, x, clusters[a]);
      }
    }
  }

  lemma {:induction false} PlaceKeeps(linked: Link, clusters: seq<seq<nat>>, x: nat)
    requires WellFormed(linked, clusters) && AllBelow(clusters, x)
    ensures WellFormed(linked, Place(linked, x, clusters))
    ensures multiset(Flatten(Place(linked, x, clusters))) == multiset(Flatten(clusters)) + multiset{x}
  {
    hide WellFormed, AllBelow;
    match FirstHome(linked, x, clusters)
    case Some(home) =>
      FlattenUpdate(clusters, home, x);
      GrowKeeps(linked, clusters, x, home);
    case None =>
      FlattenOpened(clusters, x);
      OpenKeeps(linked, clusters, x);
  }

  /** First-fit clustering yields a partition into pairwise linked groups, each member kept out
      of all earlier groups by a member that came before it. */
  lemma {:induction false} CompleteLinkIsClustering(linked: Link, ordered: seq<nat>)
    requires StrictlyIncreasing(ordered)
    ensures IsClustering(linked, ordered, CompleteLink(linked, ordered))
  {
    if ordered != [] {
      var n := |ordered| - 1;
      var before, x := CompleteLink(linked, ordered[..n]), ordered[n];
      CompleteLinkIsClustering(linked, ordered[..n]);
      assert ordered == ordered[..n] + [x];
      FlattenMembers(before);
      forall c, m | 0 <= c < |before| && m in before[c] ensures m < x {
        assert m in Flatten(before) && m in multiset(Flatten(before));
        assert m in ordered[..n];
      }
      PlaceKeeps(linked, before, x);
    }
  }

  /** No two clusters could be merged into one that is still pairwise linked. */
  lemma {:induction false} NothingToMerge(linked: Link, ordered: seq<nat>, clusters: seq<seq<nat>>, a: nat, b: nat)
    requires IsClustering(linked, ordered, clusters) && a < b < |clusters|
    ensures exists m, x :: m in clusters[a] && x in clusters[b] && !linked(x, m)
  {
    var x := clusters[b][0];
    assert KeptOut(linked, x, clusters[a]);
  }

  // ---------- it is the only one ----------

  /** The greatest index can be taken out of a clustering again. */
  lemma {:induction false} Unplace(linked: Link, ordered: seq<nat>, clusters: seq<seq<nat>>)
    returns (before: seq<seq<nat>>)
    requires StrictlyIncreasing(ordered) && ordered != []
    requires IsClustering(linked, ordered, clusters)
    ensures IsClustering(linked, ordered[..|ordered| - 1], before)
    ensures clusters == Place(linked, ordered[|ordered| - 1], before)
  {
    hide WellFormed, KeptOut, AllBelow, Joins, FirstHome, StrictlyIncreasing, Flatten;
    var n := |ordered| - 1;
    var x := ordered[n];
    assert ordered == ordered[..n] + [x];
    MembersBelow(ordered, clusters);
    var home := HomeOf(ordered, clusters);
    var trimmed := clusters[home][..|clusters[home]| - 1];
    HomeShape(linked, clusters, home, x);
    KeptOutDoNotJoin(linked, clusters, home, x);
    assert multiset(ordered) == multiset(ordered[..n]) + multiset{x};
    if trimmed == [] {
      assert clusters[home] == [x];
      OpenedLater(linked, clusters, home, x);
      before := clusters[..home];
      assert clusters == before + [[x]];
      HomeIs(linked, x, before, None);
      PrefixKeeps(linked, clusters, home);
      FlattenOpened(before, x);
      CancelOne(multiset(Flatten(before)), multiset(ordered[..n]), x);
    } else {
      before := clusters[home := trimmed];
      assert clusters == before[home := before[home] + [x]];
      HomeIs(linked, x, before, Some(home));
      TrimKeeps(linked, clusters, before, home, x);
      FlattenUpdate(before, home, x);
      CancelOne(multiset(Flatten(before)), multiset(ordered[..n]), x);
    }
  }

  lemma {:induction false} CancelOne(a: multiset<nat>, b: multiset<nat>, x: nat)
    requires a + multiset{x} == b + multiset{x}
    ensures a == b
  {
    assert a == (a + multiset{x}) - multiset{x};
    assert b == (b + multiset{x}) - multiset{x};
  }

  lemma {:induction false} HomeIs(linked: Link, x: nat, clusters: seq<seq<nat>>, home: Option<nat>)
    requires home.Some? ==> home.value < |clusters| && Joins(linked, x, clusters[home.value])
    requires forall c :: 0 <= c < (if home.Some? then home.value else |clusters|) ==> !Joins(linked, x, clusters[c])
    ensures FirstHome(linked, x, clusters) == home
  {
    hide Joins;
  }

  lemma {:induction false} HomeOf(ordered: seq<nat>, clusters: seq<seq<nat>>) returns (home: nat)
    requires ordered != [] && multiset(Flatten(clusters)) == multiset(ordered)
    ensures home < |clusters| && ordered[|ordered| - 1] in clusters[home]
  {
    var x := ordered[|ordered| - 1];
    FlattenMembers(clusters);
    assert x in multiset(ordered) && x in multiset(Flatten(clusters)) && x in Flatten(clusters);
    home :| home < |clusters| && x in clusters[home];
  }

  lemma {:induction false} HomeShape(linked: Link, clusters: seq<seq<nat>>, home: nat, x: nat)
    requires WellFormed(linked, clusters) && AllBelow(clusters, x + 1) && home < |clusters| && x in clusters[home]
    ensures clusters[home] != [] && clusters[home] == clusters[home][..|clusters[home]| - 1] + [x]
    ensures Joins(linked, x, clusters[home][..|clusters[home]| - 1])
  {
    LastIsGreatest(clusters[home], x);
  }

  lemma {:induction false} KeptOutDoNotJoin(linked: Link, clusters: seq<seq<nat>>, home: nat, x: nat)
    requires WellFormed(linked, clusters) && home < |clusters| && x in clusters[home]
    ensures forall c :: 0 <= c < home ==> !Joins(linked, x, clusters[c])
  {
    forall c | 0 <= c < home ensures !Joins(linked, x, clusters[c]) {
      assert KeptOut(linked, x, clusters[c]);
    }
  }

  lemma {:induction false} PrefixKeeps(linked: Link, clusters: seq<seq<nat>>, home: nat)
    requires WellFormed(linked, clusters) && home <= |clusters|
    ensures WellFormed(linked, clusters[..home])
  {
    hide KeptOut;
  }

  lemma {:induction false} MembersBelow(ordered: seq<nat>, clusters: seq<seq<nat>>)
    requires StrictlyIncreasing(ordered) && ordered != []
    requires multiset(Flatten(clusters)) == multiset(ordered)
    ensures AllBelow(clusters, ordered[|ordered| - 1] + 1)
  {
    FlattenMembers(clusters);
    forall c, m | 0 <= c < |clusters| && m in clusters[c] ensures m <= ordered[|ordered| - 1] {
      assert m in Flatten(clusters) && m in multiset(Flatten(clusters));
      assert m in ordered;
    }
  }

  lemma {:induction false} LastIsGreatest(cluster: seq<nat>, x: nat)
    requires StrictlyIncreasing(cluster) && x in cluster && forall m :: m in cluster ==> m <= x
    ensures cluster[|cluster| - 1] == x
  {
    var i :| 0 <= i < |cluster| && cluster[i] == x;
    assert cluster[|cluster| - 1] in cluster;
  }

  /** A cluster holding only the greatest index is the last one. */
  lemma {:induction false} OpenedLater(linked: Link, clusters: seq<seq<nat>>, home: nat, x: nat)
    requires WellFormed(linked, clusters) && AllBelow(clusters, x + 1)
    requires home < |clusters| && clusters[home] == [x]
    ensures home == |clusters| - 1
  {
    hide KeptOut, FirstFit;
    if home < |clusters| - 1 {
      var b: nat := home + 1;
      var y: nat := clusters[b][0];
      assert y in clusters[b] && y < x + 1;
      KeptOutBySingle(linked, y, x);
      FirstFitStep(linked, clusters, home, b, y);
    }
  }

  lemma {:induction false} FirstFitStep(linked: Link, clusters: seq<seq<nat>>, a: nat, b: nat, y: nat)
    requires FirstFit(linked, clusters) && a < b < |clusters| && y in clusters[b]
    ensures KeptOut(linked, y, clusters[a])
  {
  }

  lemma {:induction false} KeptOutBySingle(linked: Link, y: nat, x: nat)
    requires y <= x
    ensures !KeptOut(linked, y, [x])
  {
  }

  lemma {:induction false} TrimKeeps(linked: Link, clusters: seq<seq<nat>>, before: seq<seq<nat>>, home: nat, x: nat)
    requires WellFormed(linked, clusters) && AllBelow(clusters, x + 1)
    requires |before| == |clusters| && home < |clusters| && before[home] != []
    requires clusters == before[home := before[home] + [x]]
    ensures WellFormed(linked, before)
  {
    assert Ascending(before) && AllLinked(linked, before) by {
      hide KeptOut;
      assert clusters[home] == before[home] + [x];
      forall c | 0 <= c < |before| ensures before[c] != [] && StrictlyIncreasing(before[c]) {
        assert StrictlyIncreasing(clusters[c]) && before[c] <= clusters[c];
      }
      forall c, i, j | 0 <= c < |before| && 0 <= i < j < |before[c]| ensures linked(before[c][j], before[c][i]) {
        assert before[c] <= clusters[c];
        assert linked(clusters[c][j], clusters[c][i]);
      }
    }
    forall a, b, y | 0 <= a < b < |before| && y in before[b] ensures KeptOut(linked, y, before[a]) {
      assert y in clusters[b] && KeptOut(linked, y, clusters[a]);
      var m :| m in clusters[a] && m < y && !linked(y, m);
      assert m != x;
      assert m in before[a];
    }
  }

  /** The clustering conditions determine the result, whatever procedure finds it. */
  lemma {:induction false} ClusteringIsUnique(linked: Link, ordered: seq<nat>, clusters: seq<seq<nat>>)
    requires StrictlyIncreasing(ordered)
    ensures IsClustering(linked, ordered, clusters) <==> clusters == CompleteLink(linked, ordered)
  {
    CompleteLinkIsClustering(linked, ordered);
    if IsClustering(linked, ordered, clusters) {
      if ordered == [] {
        assert |Flatten(clusters)| == |multiset(Flatten(clusters))| == 0;
        NothingFlattened(clusters);
      } else {
        var before := Unplace(linked, ordered, clusters);
        ClusteringIsUnique(linked, ordered[..|ordered| - 1], before);
      }
    }
  }

  lemma {:induction false} NothingFlattened(clusters: seq<seq<nat>>)
    requires Flatten(clusters) == [] && Ascending(clusters)
    ensures clusters == []
  {
    if clusters != [] {
      LastIsFlattened(clusters);
    }
  }

  lemma {:induction false} LastIsFlattened(clusters: seq<seq<nat>>)
    requires clusters != []
    ensures |Flatten(clusters)| >= |clusters[|clusters| - 1]|
  {
  }
}
