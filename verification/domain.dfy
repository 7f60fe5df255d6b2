/**
 * The records the core works on, after `src/types/index.ts`. Fields that no
 * modelled operation reads are omitted (see the list in README.md); `company` on a job stays optional.
 */
module Domain {
  import opened Wrappers

  datatype JobType = FullTime | PartTime | Contract | Temporary | Internship

  /** The string value of each enum member, as it travels in URL parameters. */
  function JobTypeName(t: JobType): string {
    match t
    case FullTime => "FULL_TIME"
    case PartTime => "PART_TIME"
    case Contract => "CONTRACT"
    case Temporary => "TEMPORARY"
    case Internship => "INTERNSHIP"
  }

  datatype Company = Company(
    id: string,
    name: string,
    industry: string,
    description: string,
    email: string)

  datatype User = User(
    id: string,
    firstName: string,
    lastName: string,
    email: string,
    skills: seq<string>)

  datatype Job = Job(
    id: string,
    title: string,
    company: Option<Company>,
    companyId: string,
    description: string,
    requirements: seq<string>,
    location: string,
    jobType: JobType)

  /** `jobHasCompany`: the optional company object is attached. */
  predicate HasCompany(job: Job) {
    job.company.Some?
  }

  /** Distinct enum members have distinct string values. */
  lemma JobTypeNameInjective(s: JobType, t: JobType)
    ensures JobTypeName(s) == JobTypeName(t) <==> s == t
  {
  }
}
