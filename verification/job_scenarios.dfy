/** Concrete searches over a two-job catalogue: a Paris nursing post with a
    health-sector company, and a Lyon driving post without a company. */
module JobScenarios {
  import opened Wrappers
  import opened Text
  import opened Seqs
  import opened Domain
  import opened JobFilter

  const Health := Company("c1", "CareCo", "Health", "", "contact@care.co")
  const Nurse := Job("1", "Nurse", Some(Health), "c1", "Night shifts", ["Diploma"], "Paris", FullTime)
  const Driver := Job("2", "Driver", None, "c2", "Deliveries", ["Licence"], "Lyon", Temporary)
  const Catalog := [Nurse, Driver]

  lemma LowerLiteral(s: string, t: string)
    requires |s| == |t| && forall i :: 0 <= i < |s| ==> LowerChar(s[i]) == t[i]
    ensures Lower(s) == t
  {
  }

  /** Searching by location "par" keeps only the Paris job. */
  lemma LocationScenario()
    ensures Search(Catalog, NoFilters.(location := "par")) == [Nurse]
  {
    LowerLiteral("par", "par");
    LowerLiteral("Paris", "paris");
    LowerLiteral("Lyon", "lyon");
    assert Contains("paris", "par") by { assert IsPrefix("par", "paris"); }
    assert !Contains("lyon", "par") by {
      ContainsIffOccurs("lyon", "par");
      assert forall i :: OccursAt("lyon", "par", i) ==> "lyon"[i] == 'p';
    }
    LocationSearch(Catalog, "par");
    assert Filter(Catalog, (job: Job) => Contains(Lower(job.location), Lower("par")))
        == [Nurse] + Filter([Driver], (job: Job) => Contains(Lower(job.location), Lower("par")));
  }

  /** Searching by job type TEMPORARY keeps only the driving job. */
  lemma JobTypeScenario()
    ensures Search(Catalog, NoFilters.(jobType := "TEMPORARY")) == [Driver]
  {
    JobTypeSearch(Catalog, Temporary);
    assert Filter(Catalog, (job: Job) => job.jobType == Temporary)
        == Filter([Driver], (job: Job) => job.jobType == Temporary);
  }

  /** Searching by industry "Health" keeps only the job with a company. */
  lemma IndustryScenario()
    ensures Search(Catalog, NoFilters.(industry := "Health")) == [Nurse]
  {
    IndustrySearch(Catalog, NoFilters.(industry := "Health"));
    assert Filter(Catalog, (job: Job) => IndustryEquals(job, "Health"))
        == [Nurse] + Filter([Driver], (job: Job) => IndustryEquals(job, "Health"));
  }

  /** A lower-case keyword finds a job whose title has it capitalised. */
  lemma KeywordCaseScenario()
    ensures Nurse in Search(Catalog, NoFilters.(keyword := "nurse"))
  {
  }
}
