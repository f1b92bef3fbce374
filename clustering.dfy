/** The uniqueness estimate: how many distinct people the window's encodings
    stand for, as the number of distinct KMeans labels over the window. */
module Clustering {
  // Only `Min` is used from the window module.
  import opened Window

  /** The largest number of clusters ever asked of KMeans. */
  const KMax: nat := 5

  /** `labels` gives each of `n` points a cluster label in [0, k). */
  ghost predicate LabelsPoints(labels: seq<nat>, n: nat, k: nat)
  {
    |labels| == n && forall i :: 0 <= i < n ==> labels[i] < k
  }

  /** What the model assumes of KMeans: asked for `k` clusters of `points`,
      with 1 <= k <= |points|, it labels every point with a label in [0, k). */
  ghost predicate LabelsEveryPoint<E(!new)>(fit: (seq<E>, nat) -> seq<nat>)
  {
    forall points: seq<E>, k: nat :: 1 <= k <= |points| ==> LabelsPoints(fit(points, k), |points|, k)
  }

  /** A KMeans fit, abstracted to the labels it assigns. Centroids, numerics and
      random initialisation are not modelled: any labelling that respects the
      cluster count is a possible KMeans outcome. */
  type KMeans<!E(!new)> = fit: (seq<E>, nat) -> seq<nat> | LabelsEveryPoint(fit)
    witness (points: seq<E>, k: nat) => seq(|points|, i => 0)

  /** The set of labels actually used. */
  function UsedLabels(labels: seq<nat>): set<nat>
  {
    set l | l in labels
  }

  /** A set of labels all below `k` has at most `k` members. */
  lemma {:induction false} LabelsBelowBound(s: set<nat>, k: nat)
    requires forall l :: l in s ==> l < k
    ensures |s| <= k
    decreases k
  {
    if k == 0 {
      assert s == {};
    } else {
      LabelsBelowBound(s - {k - 1}, k - 1);
    }
  }

  /** A sequence of labels uses at most as many labels as it has entries. */
  lemma {:induction false} UsedLabelsBound(labels: seq<nat>)
    ensures |UsedLabels(labels)| <= |labels|
    decreases |labels|
  {
    if labels != [] {
      UsedLabelsBound(labels[1..]);
      assert UsedLabels(labels) == UsedLabels(labels[1..]) + {labels[0]};
    } else {
      assert UsedLabels(labels) == {};
    }
  }

  /** The number of distinct labels used: at most `k` and at most one per
      point, and zero only when there are no points. */
  function DistinctLabelCount(labels: seq<nat>, k: nat): (r: nat)
    requires forall i :: 0 <= i < |labels| ==> labels[i] < k
    ensures r <= k && r <= |labels|
    ensures r == 0 <==> labels == []
  {
    LabelsBelowBound(UsedLabels(labels), k);
    UsedLabelsBound(labels);
    assert labels != [] ==> labels[0] in UsedLabels(labels);
    |UsedLabels(labels)|
  }

  /** The occupancy estimate for a window of encodings. Fewer than two
      encodings are counted as they are, without clustering; otherwise KMeans
      is asked for min(n, KMax) clusters and the labels it used are counted.
      The estimate is zero exactly for an empty window, and never exceeds
      min(n, KMax); so one or more encodings give between 1 and min(n, KMax). */
  function ClusterFaces<E(!new)>(faces: seq<E>, kmeans: KMeans<E>): (r: nat)
    ensures r <= Min(|faces|, KMax)
    ensures r == 0 <==> faces == []
  {
    if |faces| >= 2 then
      var k := Min(|faces|, KMax);
      DistinctLabelCount(kmeans(faces, k), k)
    else
      |faces|
  }
}
