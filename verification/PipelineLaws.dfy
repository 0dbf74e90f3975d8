/** Validate is sound and complete. */
module PipelineLaws {
  import opened Pipeline
  import opened PipelineChecks
  import opened PipelineForm

  /** Validate accepts exactly the well-formed pipelines. */
  lemma AcceptsExactlyTheWellFormed(p: Pipeline, errs: seq<Problem>)
    requires forall e :: e in errs <==> Real(p, e)
    ensures errs == [] <==> WellFormed(p)
  {
    assert errs == [] || Real(p, errs[0]);
    if errs == [] {
      forall e
        ensures !CatalogProblem(p, e) && !PlanProblem(p, e)
      {
        assert e !in errs;
      }
      CatalogMustBe(p);
      PlanMustBe(p);
      SyncedExactly(p);
    } else if WellFormed(p) {
      CatalogIsClean(p, errs[0]);
      PlanIsClean(p, errs[0]);
    }
  }
}
