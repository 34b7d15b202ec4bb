// HangulCluster.Consonant and HangulCluster.Vowel, which merge two jamo into
// a cluster and split a cluster into its pieces, are not part of this model:
// the code that uses them takes their two operations as a parameter.
module HangulCluster {
  import opened Wrappers

  /** TryMergeCluster(a, b) and SplitCluster(c) of one cluster kind. */
  datatype ClusterOps = ClusterOps(tryMerge: (char, char) -> Option<char>, split: char -> seq<char>)

  /** SplitCluster never returns an empty list: a char that is no cluster is its own one piece. */
  predicate SplitsNonEmpty(ops: ClusterOps)
  {
    forall c :: |ops.split(c)| >= 1
  }

  /** Cluster operations whose split is never empty. */
  type Cluster = ops: ClusterOps | SplitsNonEmpty(ops)
    witness ClusterOps((a, b) => None, c => [c])

  /** The consonant and the vowel cluster operations. */
  datatype Clusters = Clusters(consonant: Cluster, vowel: Cluster)
}
