/**
 * The job search of the jobs page (`src/pages/Jobs.tsx`): four optional
 * criteria applied one after the other as array filters over the catalogue.
 */
module JobFilter {
  import opened Wrappers
  import opened Text
  import opened Seqs
  import opened Domain

  /** The page's filter state; the empty string means "any". `jobType` is a
      string because it is read from the URL. */
  datatype Filters = Filters(keyword: string, location: string, jobType: string, industry: string)

  const NoFilters := Filters("", "", "", "")

  // ----- The four criteria ---------------------------------------------

  /** `filters.keyword && filters.keyword.trim()`: a blank keyword is ignored. */
  predicate KeywordActive(f: Filters) {
    f.keyword != "" && Trim(f.keyword) != ""
  }

  /** `job.requirements.some(req => req.toLowerCase().includes(keyword))` */
  predicate SomeRequirementContains(requirements: seq<string>, keyword: string) {
    exists i :: 0 <= i < |requirements| && Contains(Lower(requirements[i]), keyword)
  }

  /** The keyword callback; `keyword` is the lower-cased, untrimmed filter. */
  predicate MatchesKeyword(job: Job, keyword: string) {
    if Contains(Lower(job.title), keyword)
       || Contains(Lower(job.description), keyword)
       || SomeRequirementContains(job.requirements, keyword)
    then true
    else if HasCompany(job) then Contains(Lower(job.company.value.name), keyword)
    else false
  }

  predicate MatchesLocation(job: Job, location: string) {
    Contains(Lower(job.location), Lower(location))
  }

  predicate MatchesJobType(job: Job, jobType: string) {
    JobTypeName(job.jobType) == jobType
  }

  predicate MatchesIndustry(job: Job, industry: string) {
    if HasCompany(job) then Lower(job.company.value.industry) == Lower(industry) else false
  }

  /** `if (active) results = results.filter(p)` */
  function Stage(jobs: seq<Job>, active: bool, p: Job -> bool): seq<Job> {
    if active then Filter(jobs, p) else jobs
  }

  /** The filtering effect: keyword, then location, then job type, then industry. */
  function Search(catalog: seq<Job>, f: Filters): (r: seq<Job>)
    ensures |r| <= |catalog|
  {
    var keyword := Lower(f.keyword);
    var byKeyword := Stage(catalog, KeywordActive(f), (job: Job) => MatchesKeyword(job, keyword));
    var byLocation := Stage(byKeyword, f.location != "", (job: Job) => MatchesLocation(job, f.location));
    var byType := Stage(byLocation, f.jobType != "", (job: Job) => MatchesJobType(job, f.jobType));
    Stage(byType, f.industry != "", (job: Job) => MatchesIndustry(job, f.industry))
  }

  // ----- The same search as one conjunctive predicate ------------------

  predicate KeywordPasses(job: Job, f: Filters) {
    KeywordActive(f) ==> MatchesKeyword(job, Lower(f.keyword))
  }

  predicate LocationPasses(job: Job, f: Filters) {
    f.location != "" ==> MatchesLocation(job, f.location)
  }

  predicate JobTypePasses(job: Job, f: Filters) {
    f.jobType != "" ==> MatchesJobType(job, f.jobType)
  }

  predicate IndustryPasses(job: Job, f: Filters) {
    f.industry != "" ==> MatchesIndustry(job, f.industry)
  }

  /** A job passes every active criterion. */
  predicate Accepts(job: Job, f: Filters) {
    KeywordPasses(job, f) && LocationPasses(job, f) && JobTypePasses(job, f) && IndustryPasses(job, f)
  }

  /** `g` keeps every active criterion of `f` with the same value, and may add more. */
  predicate Narrows(g: Filters, f: Filters) {
    && (KeywordActive(f) ==> g.keyword == f.keyword)
    && (f.location != "" ==> g.location == f.location)
    && (f.jobType != "" ==> g.jobType == f.jobType)
    && (f.industry != "" ==> g.industry == f.industry)
  }

  lemma StageIsFilter(jobs: seq<Job>, active: bool, p: Job -> bool, q: Job -> bool)
    requires forall i :: 0 <= i < |jobs| ==> q(jobs[i]) == (active ==> p(jobs[i]))
    ensures Stage(jobs, active, p) == Filter(jobs, q)
  {
    if active {
      FilterCongruent(jobs, p, q);
    } else {
      FilterKeepsAll(jobs, q);
    }
  }

  /** The chain of four filters equals one filter by the conjunction of the
      active criteria. */
  lemma SearchIsConjunction(catalog: seq<Job>, f: Filters)
    ensures Search(catalog, f) == Filter(catalog, (job: Job) => Accepts(job, f))
  {
    var keyword := Lower(f.keyword);
    var a1 := (job: Job) => KeywordPasses(job, f);
    var a2 := (job: Job) => KeywordPasses(job, f) && LocationPasses(job, f);
    var a3 := (job: Job) => KeywordPasses(job, f) && LocationPasses(job, f) && JobTypePasses(job, f);
    var a4 := (job: Job) => Accepts(job, f);
    var byKeyword := Stage(catalog, KeywordActive(f), (job: Job) => MatchesKeyword(job, keyword));
    StageIsFilter(catalog, KeywordActive(f), (job: Job) => MatchesKeyword(job, keyword), a1);
    var byLocation := Stage(byKeyword, f.location != "", (job: Job) => MatchesLocation(job, f.location));
    StageIsFilter(byKeyword, f.location != "", (job: Job) => MatchesLocation(job, f.location),
                  (job: Job) => LocationPasses(job, f));
    FilterFilter(catalog, a1, (job: Job) => LocationPasses(job, f), a2);
    var byType := Stage(byLocation, f.jobType != "", (job: Job) => MatchesJobType(job, f.jobType));
    StageIsFilter(byLocation, f.jobType != "", (job: Job) => MatchesJobType(job, f.jobType),
                  (job: Job) => JobTypePasses(job, f));
    FilterFilter(catalog, a2, (job: Job) => JobTypePasses(job, f), a3);
    StageIsFilter(byType, f.industry != "", (job: Job) => MatchesIndustry(job, f.industry),
                  (job: Job) => IndustryPasses(job, f));
    FilterFilter(catalog, a3, (job: Job) => IndustryPasses(job, f), a4);
  }

  /** A job is in the result iff it is in the catalogue and passes every
      active criterion. */
  lemma SearchMembership(catalog: seq<Job>, f: Filters, job: Job)
    ensures job in Search(catalog, f) <==> job in catalog && Accepts(job, f)
  {
    SearchIsConjunction(catalog, f);
  }

  /** The result is an order-preserving subsequence of the catalogue. */
  lemma SearchIsSubsequence(catalog: seq<Job>, f: Filters)
    ensures IsSubseq(Search(catalog, f), catalog)
  {
    SearchIsConjunction(catalog, f);
    FilterIsSubseq(catalog, (job: Job) => Accepts(job, f));
  }

  /** Without an active criterion the whole catalogue comes back, in order;
      a blank keyword counts as no keyword. */
  lemma SearchWithoutCriteria(catalog: seq<Job>, f: Filters)
    requires IsBlank(f.keyword) && f.location == "" && f.jobType == "" && f.industry == ""
    ensures Search(catalog, f) == catalog
  {
    TrimEmptyIffBlank(f.keyword);
  }

  /** Searching the result again with the same filters changes nothing. */
  lemma SearchIdempotent(catalog: seq<Job>, f: Filters)
    ensures Search(Search(catalog, f), f) == Search(catalog, f)
  {
    var a := (job: Job) => Accepts(job, f);
    SearchIsConjunction(catalog, f);
    SearchIsConjunction(Search(catalog, f), f);
    FilterFilter(catalog, a, a, a);
  }

  /** Adding criteria (or keeping the active ones) only removes jobs: the
      narrower search is the wider result filtered further. */
  lemma SearchNarrowing(catalog: seq<Job>, f: Filters, g: Filters)
    requires Narrows(g, f)
    ensures Search(catalog, g) == Filter(Search(catalog, f), (job: Job) => Accepts(job, g))
    ensures IsSubseq(Search(catalog, g), Search(catalog, f))
    ensures |Search(catalog, g)| <= |Search(catalog, f)|
  {
    var af := (job: Job) => Accepts(job, f);
    var ag := (job: Job) => Accepts(job, g);
    SearchIsConjunction(catalog, f);
    SearchIsConjunction(catalog, g);
    FilterFilter(catalog, af, ag, ag);
    FilterIsSubseq(Search(catalog, f), ag);
  }

  /** The keyword criterion as a plain disjunction: `k` occurs in the title,
      the description, some requirement, or the attached company's name. */
  predicate KeywordOccurs(job: Job, k: string) {
    || Contains(Lower(job.title), k)
    || Contains(Lower(job.description), k)
    || (exists i :: 0 <= i < |job.requirements| && Contains(Lower(job.requirements[i]), k))
    || (job.company.Some? && Contains(Lower(job.company.value.name), k))
  }

  /** The job has a company whose industry equals `industry` up to case. */
  predicate IndustryEquals(job: Job, industry: string) {
    job.company.Some? && Lower(job.company.value.industry) == Lower(industry)
  }

  /** With only a non-blank keyword, a job survives iff the lower-cased,
      untrimmed keyword occurs in its lower-cased title, description, some
      requirement, or (when a company is attached) company name. */
  lemma KeywordSearch(catalog: seq<Job>, f: Filters)
    requires !IsBlank(f.keyword) && f.location == "" && f.jobType == "" && f.industry == ""
    ensures Search(catalog, f) == Filter(catalog, (job: Job) => KeywordOccurs(job, Lower(f.keyword)))
  {
    TrimEmptyIffBlank(f.keyword);
    SearchIsConjunction(catalog, f);
    FilterCongruent(catalog, (job: Job) => Accepts(job, f), (job: Job) => KeywordOccurs(job, Lower(f.keyword)));
  }

  /** With only a location, the search is a case-insensitive substring test
      on the job's location. */
  lemma LocationSearch(catalog: seq<Job>, location: string)
    requires location != ""
    ensures Search(catalog, NoFilters.(location := location))
         == Filter(catalog, (job: Job) => Contains(Lower(job.location), Lower(location)))
  {
    var f := NoFilters.(location := location);
    SearchIsConjunction(catalog, f);
    FilterCongruent(catalog, (job: Job) => Accepts(job, f),
                    (job: Job) => Contains(Lower(job.location), Lower(location)));
  }

  /** With only a job type, the search keeps exactly the jobs of that type. */
  lemma JobTypeSearch(catalog: seq<Job>, t: JobType)
    ensures Search(catalog, NoFilters.(jobType := JobTypeName(t)))
         == Filter(catalog, (job: Job) => job.jobType == t)
  {
    var f := NoFilters.(jobType := JobTypeName(t));
    SearchIsConjunction(catalog, f);
    forall i | 0 <= i < |catalog|
      ensures Accepts(catalog[i], f) == (catalog[i].jobType == t)
    {
      JobTypeNameInjective(catalog[i].jobType, t);
    }
    FilterCongruent(catalog, (job: Job) => Accepts(job, f), (job: Job) => job.jobType == t);
  }

  /** A job-type string that names no enum member empties the result. */
  lemma UnknownJobTypeMatchesNothing(catalog: seq<Job>, f: Filters)
    requires f.jobType != ""
    requires forall t :: JobTypeName(t) != f.jobType
    ensures Search(catalog, f) == []
  {
    SearchIsConjunction(catalog, f);
    forall i | 0 <= i < |catalog| ensures !Accepts(catalog[i], f) {
      assert JobTypeName(catalog[i].jobType) != f.jobType;
    }
    FilterKeepsNone(catalog, (job: Job) => Accepts(job, f));
  }

  /** A non-empty industry filter rejects every job without a company and
      keeps the others exactly when their industry equals the filter up to case. */
  lemma IndustrySearch(catalog: seq<Job>, f: Filters)
    requires f.industry != ""
    ensures forall i :: 0 <= i < |Search(catalog, f)| ==>
              var job := Search(catalog, f)[i];
              HasCompany(job) && Lower(job.company.value.industry) == Lower(f.industry)
    ensures f.keyword == "" && f.location == "" && f.jobType == "" ==>
              Search(catalog, f) == Filter(catalog, (job: Job) => IndustryEquals(job, f.industry))
  {
    if f.keyword == "" && f.location == "" && f.jobType == "" {
      SearchIsConjunction(catalog, f);
      FilterCongruent(catalog, (job: Job) => Accepts(job, f), (job: Job) => IndustryEquals(job, f.industry));
    }
  }
}
