/** The analysis run end to end: profiles built from the product table, the
    default criterion weights, and an ELECTRE TRI classifier over them. */
module Pipeline {

  import opened Labels
  import opened Criteria
  import opened Profiles
  import opened Electre

  /** The classifier the analysis script configures from a product table. */
  function Configure(data: seq<Vector>, ws: Weights, threshold: real): ElectreTri
    requires |data| > 0
  {
    ElectreTri(ws, ProfilesOf(data), threshold)
  }

  /** Over a non-empty table of non-negative values, with non-negative weights of
      positive sum and any threshold, the configured classifier is well formed and
      its pessimistic category is never better than its optimistic one. */
  lemma PipelinePessimisticNoBetter(data: seq<Vector>, ws: Weights, threshold: real, a: Vector)
    requires |data| > 0 && NonNegativeData(data)
    requires NonNegative(ws) && WeightSum(ws) > 0.0
    ensures Valid(Configure(data, ws, threshold))
    ensures Rank(Pessimistic(Configure(data, ws, threshold), a)) >= Rank(Optimistic(Configure(data, ws, threshold), a))
  {
    ProfilesOfImprove(data);
    PessimisticNoBetterThanOptimistic(Configure(data, ws, threshold), a);
  }

  /** The same with the default weights, as the analysis script runs it. */
  lemma DefaultPipelinePessimisticNoBetter(data: seq<Vector>, threshold: real, a: Vector)
    requires |data| > 0 && NonNegativeData(data)
    ensures Valid(Configure(data, DefaultWeights(), threshold))
    ensures Rank(Pessimistic(Configure(data, DefaultWeights(), threshold), a))
         >= Rank(Optimistic(Configure(data, DefaultWeights(), threshold), a))
  {
    PipelinePessimisticNoBetter(data, DefaultWeights(), threshold, a);
  }

  /** The run of the analysis script: default weights and the default majority
      threshold 0.6. */
  lemma AnalysisRunPessimisticNoBetter(data: seq<Vector>, a: Vector)
    requires |data| > 0 && NonNegativeData(data)
    ensures Configure(data, DefaultWeights(), DefaultThreshold).threshold == 0.6
    ensures Valid(Configure(data, DefaultWeights(), DefaultThreshold))
    ensures Rank(Pessimistic(Configure(data, DefaultWeights(), DefaultThreshold), a))
         >= Rank(Optimistic(Configure(data, DefaultWeights(), DefaultThreshold), a))
  {
    DefaultPipelinePessimisticNoBetter(data, DefaultThreshold, a);
  }
}
