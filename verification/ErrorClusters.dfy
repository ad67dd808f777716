/** Grouping the error lines of a workflow log into events with surrounding context. */
module ErrorClusters {

  /** A reported error line: its 1-based number and its text. */
  datatype Reported = Reported(number: nat, message: string)

  datatype Event = Event(context: seq<string>, errors: seq<Reported>)

  type Cluster = c: seq<nat> | c != [] witness [0]

  predicate Increasing(s: seq<nat>) {
    forall i, j :: 0 <= i < j < |s| ==> s[i] < s[j]
  }

  // ------------------------------------------------------------ clustering

  /** The positions of the error lines among the first `n`. */
  function ErrorIndices(lines: seq<string>, isError: string -> bool, n: nat): (indices: seq<nat>)
    requires n <= |lines|
    ensures forall i :: i in indices <==> 0 <= i < n && isError(lines[i])
    ensures Increasing(indices)
  {
    if n == 0 then [] else
      var earlier := ErrorIndices(lines, isError, n - 1);
      assert forall k :: 0 <= k < |earlier| ==> earlier[k] in earlier;
      if isError(lines[n - 1]) then earlier + [n - 1] else earlier
  }

  /** Adds an index to the last cluster if it is close enough, else starts a new one. */
  function Extend(clusters: seq<Cluster>, i: nat, threshold: nat): seq<Cluster> {
    if clusters == [] then [[i]] else
      var n := |clusters| - 1;
      if i - clusters[n][|clusters[n]| - 1] <= threshold
      then clusters[..n] + [clusters[n] + [i]]
      else clusters + [[i]]
  }

  function Grouped(indices: seq<nat>, threshold: nat): seq<Cluster> {
    if indices == [] then [] else
      var n := |indices| - 1;
      Extend(Grouped(indices[..n], threshold), indices[n], threshold)
  }

  function Flatten(clusters: seq<Cluster>): seq<nat> {
    if clusters == [] then [] else Flatten(clusters[..|clusters| - 1]) + clusters[|clusters| - 1]
  }

  function Last(c: Cluster): nat {
    c[|c| - 1]
  }

  /** Neighbours in a cluster are at most the threshold apart. */
  predicate Close(c: Cluster, threshold: nat) {
    forall i :: 0 < i < |c| ==> c[i - 1] < c[i] <= c[i - 1] + threshold
  }

  /** Clusters are close within themselves and further apart from the next one. */
  predicate Separated(clusters: seq<Cluster>, threshold: nat) {
    && (forall g :: 0 <= g < |clusters| ==> Close(clusters[g], threshold))
    && (forall g :: 0 < g < |clusters| ==> Last(clusters[g - 1]) + threshold < clusters[g][0])
  }

  lemma FlattenSnoc(clusters: seq<Cluster>, c: Cluster)
    ensures Flatten(clusters + [c]) == Flatten(clusters) + c
  {
    assert (clusters + [c])[..|clusters|] == clusters;
  }

  lemma SeparatedSnoc(clusters: seq<Cluster>, c: Cluster, threshold: nat)
    ensures Separated(clusters + [c], threshold) <==>
      && Separated(clusters, threshold)
      && Close(c, threshold)
      && (clusters != [] ==> Last(clusters[|clusters| - 1]) + threshold < c[0])
  {
    var all := clusters + [c];
    assert all[|clusters|] == c;
    assert forall g :: 0 <= g < |clusters| ==> all[g] == clusters[g];
    if Separated(all, threshold) && clusters != [] {
      assert Last(all[|clusters| - 1]) + threshold < all[|clusters|][0];
    }
  }

  /** Extending keeps the clusters separated and appends the position to what they list. */
  lemma ExtendSeparates(clusters: seq<Cluster>, i: nat, threshold: nat)
    requires Separated(clusters, threshold)
    requires clusters != [] ==> Last(clusters[|clusters| - 1]) < i
    ensures Separated(Extend(clusters, i, threshold), threshold)
    ensures Last(Extend(clusters, i, threshold)[|Extend(clusters, i, threshold)| - 1]) == i
    ensures Flatten(Extend(clusters, i, threshold)) == Flatten(clusters) + [i]
  {
    hide Separated, Flatten;
    FlattenSnoc(clusters, [i]);
    SeparatedSnoc(clusters, [i], threshold);
    if clusters == [] {
      assert clusters + [[i]] == [[i]];
    } else {
      var n := |clusters| - 1;
      var c := clusters[n];
      assert clusters[..n] + [c] == clusters;
      FlattenSnoc(clusters[..n], c);
      FlattenSnoc(clusters[..n], c + [i]);
      SeparatedSnoc(clusters[..n], c, threshold);
      SeparatedSnoc(clusters[..n], c + [i], threshold);
      assert Flatten(clusters[..n]) + (c + [i]) == Flatten(clusters[..n]) + c + [i];
    }
  }

  /** The clusters partition the error positions in order. */
  lemma {:induction false} Partition(indices: seq<nat>, threshold: nat)
    requires Increasing(indices)
    ensures var clusters := Grouped(indices, threshold);
      && Flatten(clusters) == indices
      && Separated(clusters, threshold)
      && (indices != [] ==> clusters != [] && Last(clusters[|clusters| - 1]) == indices[|indices| - 1])
  {
    hide Separated, Extend;
    if indices != [] {
      var n := |indices| - 1;
      Partition(indices[..n], threshold);
      ExtendSeparates(Grouped(indices[..n], threshold), indices[n], threshold);
    } else {
      NoneSeparated(threshold);
    }
  }

  lemma NoneSeparated(threshold: nat)
    ensures Separated([], threshold)
  {
  }

  lemma GroupedSnoc(indices: seq<nat>, i: nat, threshold: nat)
    ensures Grouped(indices + [i], threshold) == Extend(Grouped(indices, threshold), i, threshold)
  {
    assert (indices + [i])[..|indices|] == indices;
  }

  lemma ExtendWithin(clusters: seq<Cluster>, c: Cluster, i: nat, threshold: nat)
    requires i <= Last(c) + threshold
    ensures Extend(clusters + [c], i, threshold) == clusters + [c + [i]]
  {
    assert (clusters + [c])[..|clusters|] == clusters;
  }

  lemma ExtendBeyond(clusters: seq<Cluster>, i: nat, threshold: nat)
    requires clusters != [] ==> Last(clusters[|clusters| - 1]) + threshold < i
    ensures Extend(clusters, i, threshold) == clusters + [[i]]
  {
  }

  /** Any separated partition of the positions is the one that is computed. */
  lemma {:induction false} PartitionUnique(clusters: seq<Cluster>, threshold: nat)
    requires Separated(clusters, threshold)
    ensures Grouped(Flatten(clusters), threshold) == clusters
    decreases |Flatten(clusters)|
  {
    hide Separated, Extend, Flatten, Grouped;
    if clusters == [] {
      NothingGrouped(threshold);
    } else {
      var rest, c := clusters[..|clusters| - 1], clusters[|clusters| - 1];
      assert clusters == rest + [c];
      SeparatedSnoc(rest, c, threshold);
      FlattenSnoc(rest, c);
      if |c| == 1 {
        assert c == [Last(c)];
        PartitionUnique(rest, threshold);
        GroupedSnoc(Flatten(rest), Last(c), threshold);
        ExtendBeyond(rest, Last(c), threshold);
      } else {
        assert c == c[..|c| - 1] + [Last(c)];
        UniqueWithin(rest, c[..|c| - 1], Last(c), threshold);
        PartitionUnique(rest + [c[..|c| - 1]], threshold);
        GroupedSnoc(Flatten(rest + [c[..|c| - 1]]), Last(c), threshold);
      }
    }
  }

  lemma NothingGrouped(threshold: nat)
    ensures Grouped(Flatten([]), threshold) == []
  {
  }

  lemma UniqueWithin(clusters: seq<Cluster>, c: Cluster, i: nat, threshold: nat)
    requires Separated(clusters + [c + [i]], threshold)
    ensures Separated(clusters + [c], threshold)
    ensures Flatten(clusters + [c + [i]]) == Flatten(clusters + [c]) + [i]
    ensures Extend(clusters + [c], i, threshold) == clusters + [c + [i]]
  {
    hide Separated, Extend, Flatten;
    SeparatedSnoc(clusters, c + [i], threshold);
    var longer := c + [i];
    assert forall k :: 0 <= k < |c| ==> longer[k] == c[k];
    assert longer[|c|] <= longer[|c| - 1] + threshold;
    SeparatedSnoc(clusters, c, threshold);
    FlattenSnoc(clusters, c + [i]);
    FlattenSnoc(clusters, c);
    assert Flatten(clusters) + (c + [i]) == Flatten(clusters) + c + [i];
    ExtendWithin(clusters, c, i, threshold);
  }

  // -------------------------------------------------------------- snippets

  function SnippetStart(c: Cluster, context: nat): nat {
    if c[0] < context then 0 else c[0] - context
  }

  function SnippetEnd(c: Cluster, context: nat, total: nat): nat {
    if total < Last(c) + context + 1 then total else Last(c) + context + 1
  }

  predicate InSnippet(c: Cluster, context: nat, total: nat, x: nat) {
    SnippetStart(c, context) <= x < SnippetEnd(c, context, total)
  }

  lemma {:induction false} ClusterBounds(c: Cluster, threshold: nat, i: nat)
    requires Close(c, threshold) && i < |c|
    ensures c[0] <= c[i] <= Last(c)
  {
    if i + 1 < |c| {
      ClusterBounds(c[..|c| - 1], threshold, i);
    } else if |c| > 1 {
      ClusterBounds(c[..|c| - 1], threshold, i - 1);
    }
  }

  /** Every line of a snippet has an error of that cluster within the context distance. */
  lemma {:induction false} NearbyError(c: Cluster, context: nat, x: nat) returns (i: nat)
    requires Close(c, 2 * context + 1) && c[0] <= x + context && x <= Last(c) + context
    ensures i < |c| && c[i] - context <= x <= c[i] + context
  {
    i := |c| - 1;
    if x < c[i] - context {
      assert |c| > 1;
      i := NearbyError(c[..|c| - 1], context, x);
    }
  }

  lemma {:induction false} ClusterOf(clusters: seq<Cluster>, e: nat) returns (g: nat)
    requires e in Flatten(clusters)
    ensures g < |clusters| && e in clusters[g]
  {
    var n := |clusters| - 1;
    if e in clusters[n] {
      g := n;
    } else {
      g := ClusterOf(clusters[..n], e);
    }
  }

  lemma {:induction false} MemberIsListed(clusters: seq<Cluster>, g: nat, e: nat)
    requires g < |clusters| && e in clusters[g]
    ensures e in Flatten(clusters)
  {
    if g < |clusters| - 1 {
      MemberIsListed(clusters[..|clusters| - 1], g, e);
    }
  }

  function ClustersOf(lines: seq<string>, isError: string -> bool, context: nat): seq<Cluster> {
    Grouped(ErrorIndices(lines, isError, |lines|), 2 * context + 1)
  }

  lemma ClusterFacts(lines: seq<string>, isError: string -> bool, context: nat)
    ensures var clusters := ClustersOf(lines, isError, context);
      Separated(clusters, 2 * context + 1) && Flatten(clusters) == ErrorIndices(lines, isError, |lines|)
  {
    Partition(ErrorIndices(lines, isError, |lines|), 2 * context + 1);
  }

  /** The line is part of some snippet. */
  predicate Shown(clusters: seq<Cluster>, context: nat, total: nat, x: nat) {
    exists g :: 0 <= g < |clusters| && InSnippet(clusters[g], context, total, x)
  }

  predicate ErrorNear(lines: seq<string>, isError: string -> bool, context: nat, x: nat) {
    exists e :: 0 <= e < |lines| && isError(lines[e]) && e - context <= x <= e + context
  }

  lemma ShownHasError(lines: seq<string>, isError: string -> bool, context: nat, x: nat)
    requires x < |lines| && Shown(ClustersOf(lines, isError, context), context, |lines|, x)
    ensures ErrorNear(lines, isError, context, x)
  {
    hide ClustersOf, Flatten, ErrorIndices;
    var clusters := ClustersOf(lines, isError, context);
    ClusterFacts(lines, isError, context);
    var g :| 0 <= g < |clusters| && InSnippet(clusters[g], context, |lines|, x);
    var i := NearbyError(clusters[g], context, x);
    MemberIsListed(clusters, g, clusters[g][i]);
    assert isError(lines[clusters[g][i]]);
  }

  lemma ErrorIsShown(lines: seq<string>, isError: string -> bool, context: nat, e: nat, x: nat)
    requires x < |lines| && e < |lines| && isError(lines[e]) && e - context <= x <= e + context
    ensures Shown(ClustersOf(lines, isError, context), context, |lines|, x)
  {
    hide ClustersOf, Flatten, ErrorIndices;
    var clusters := ClustersOf(lines, isError, context);
    ClusterFacts(lines, isError, context);
    var g := ClusterOf(clusters, e);
    var i :| 0 <= i < |clusters[g]| && clusters[g][i] == e;
    ClusterBounds(clusters[g], 2 * context + 1, i);
    assert InSnippet(clusters[g], context, |lines|, x);
  }

  /** A line is shown exactly if an error lies within the context distance. */
  lemma LineShownIffErrorNear(lines: seq<string>, isError: string -> bool, context: nat, x: nat)
    requires x < |lines|
    ensures Shown(ClustersOf(lines, isError, context), context, |lines|, x) <==> ErrorNear(lines, isError, context, x)
  {
    if Shown(ClustersOf(lines, isError, context), context, |lines|, x) {
      ShownHasError(lines, isError, context, x);
    }
    if ErrorNear(lines, isError, context, x) {
      var e :| 0 <= e < |lines| && isError(lines[e]) && e - context <= x <= e + context;
      ErrorIsShown(lines, isError, context, e, x);
    }
  }

  /** The snippets of two clusters do not touch: at least one line lies between them. */
  lemma {:induction false} SnippetsApart(clusters: seq<Cluster>, context: nat, total: nat, g: nat, h: nat)
    requires g < h < |clusters| && Separated(clusters, 2 * context + 1)
    ensures SnippetEnd(clusters[g], context, total) < SnippetStart(clusters[h], context)
    decreases h
  {
    ClusterBounds(clusters[h - 1], 2 * context + 1, |clusters[h - 1]| - 1);
    assert Last(clusters[h - 1]) + (2 * context + 1) < clusters[h][0];
    if g + 1 < h {
      SnippetsApart(clusters, context, total, g, h - 1);
    }
  }

  // ---------------------------------------------------------------- events

  predicate Reports(e: Event, c: Cluster, lines: seq<string>, context: nat) {
    && Last(c) < |lines|
    && SnippetStart(c, context) <= SnippetEnd(c, context, |lines|) <= |lines|
    && e.context == lines[SnippetStart(c, context)..SnippetEnd(c, context, |lines|)]
    && |e.errors| == |c|
    && (forall i :: 0 <= i < |c| ==> c[i] < |lines| && e.errors[i] == Reported(c[i] + 1, lines[c[i]]))
  }

  lemma ClusterWithinLog(lines: seq<string>, isError: string -> bool, context: nat, g: nat)
    requires g < |ClustersOf(lines, isError, context)|
    ensures var c := ClustersOf(lines, isError, context)[g];
      && (forall i :: 0 <= i < |c| ==> c[0] <= c[i] < |lines|)
  {
    var clusters := ClustersOf(lines, isError, context);
    ClusterFacts(lines, isError, context);
    forall i | 0 <= i < |clusters[g]|
      ensures clusters[g][0] <= clusters[g][i] < |lines|
    {
      MemberIsListed(clusters, g, clusters[g][i]);
      ClusterBounds(clusters[g], 2 * context + 1, i);
    }
  }

  method ClusterErrors(indices: seq<nat>, threshold: nat) returns (clusters: seq<Cluster>)
    requires indices != []
    ensures clusters == Grouped(indices, threshold)
  {
    clusters := [];
    var current: Cluster := [indices[0]];
    assert indices[..1] == [indices[0]];
    for i := 1 to |indices|
      invariant clusters + [current] == Grouped(indices[..i], threshold)
      invariant Last(current) == indices[i - 1]
    {
      assert indices[..i + 1][..i] == indices[..i];
      if indices[i] - indices[i - 1] <= threshold {
        current := current + [indices[i]];
      } else {
        clusters := clusters + [current];
        current := [indices[i]];
      }
    }
    assert indices[..|indices|] == indices;
    clusters := clusters + [current];
  }

  /** One event per cluster, in order. */
  method FindAndClusterErrors(lines: seq<string>, isError: string -> bool, context: nat) returns (events: seq<Event>)
    ensures var clusters := ClustersOf(lines, isError, context);
      && |events| == |clusters|
      && forall g :: 0 <= g < |events| ==> Reports(events[g], clusters[g], lines, context)
  {
    var indices := ErrorIndices(lines, isError, |lines|);
    if indices == [] {
      return [];
    }
    var clusters := ClusterErrors(indices, 2 * context + 1);
    events := [];
    for g := 0 to |clusters|
      invariant |events| == g
      invariant forall h :: 0 <= h < g ==> Reports(events[h], clusters[h], lines, context)
    {
      ClusterWithinLog(lines, isError, context, g);
      var event := DescribeCluster(clusters[g], lines, context);
      events := events + [event];
    }
  }

  method DescribeCluster(c: Cluster, lines: seq<string>, context: nat) returns (e: Event)
    requires forall i :: 0 <= i < |c| ==> c[0] <= c[i] < |lines|
    ensures Reports(e, c, lines, context)
  {
    var snippet := lines[SnippetStart(c, context)..SnippetEnd(c, context, |lines|)];
    var errors: seq<Reported> := [];
    for i := 0 to |c|
      invariant |errors| == i
      invariant forall j :: 0 <= j < i ==> errors[j] == Reported(c[j] + 1, lines[c[j]])
    {
      errors := errors + [Reported(c[i] + 1, lines[c[i]])];
    }
    e := Event(snippet, errors);
  }
}
