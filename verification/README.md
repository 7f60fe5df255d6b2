# Job board front end: search, session and registration rules in Dafny

This project models the three pieces of logic inside a React job-board front end
that are more than markup:

- **Job search** (`src/pages/Jobs.tsx`). The page filters a job catalogue by
  keyword, location, job type and industry. It derives the location and
  industry dropdown values from the data. It keeps the filters in the URL
  query string.
- **Authentication context** (`src/context/AuthContext.tsx`). It holds the
  session state. `login` asks the REST API first and falls back to a local
  mock only when that call throws. `logout` resets the state. The session is
  persisted to, and restored from, local storage under the key `auth`.
- **Company registration validator** (`src/pages/CompanyRegister.tsx`).
  `validate` turns the five-field form into an error map. `handleChange`
  updates one field and clears that field's error.

The model is functional. Records are immutable datatypes, operations are pure
functions over `seq`, and the two de-duplications are methods with loops.
`login` is a total transition function. The outcomes of the calls it cannot
see are inputs: the remote API call, the dynamic import of the mock module,
the mock login, local storage and `JSON.parse`.

Modules:

| file | module | models |
|---|---|---|
| wrappers.dfy | Wrappers | `Option` for `T \| null` |
| text.dfy | Text | `trim`, the `\s` class, ASCII `toLowerCase`, `includes`, `split(sep)[0]` |
| seqs.dfy | Seqs | `Array.prototype.filter`, subsequences, `Array.from(new Set(xs))` |
| domain.dfy | Domain | `User`, `Company`, `Job`, `JobType`, `jobHasCompany` |
| job_filter.dfy | JobFilter | the filtering effect and its properties |
| job_scenarios.dfy | JobScenarios | concrete searches over a two-job catalogue |
| job_options.dfy | JobOptions | location and industry dropdown values |
| job_params.dfy | JobParams | filters ⇄ URL query parameters |
| auth.dfy | Auth | session state, `login`, `logout`, persist and restore |
| company_register.dfy | CompanyRegister | `validate`, the e-mail pattern, `handleChange` |

Behaviour worth knowing, as the code has it:

- A keyword is ignored when blank. When active, it is lower-cased but not
  trimmed, so `" nurse"` only matches text that contains the space.
- The location filter is not trimmed either. It is active as soon as it is
  non-empty.
- Job type is compared with the enum's string value. A type string that names
  no enum member empties the result.
- The location dropdown prepends `''` to the set of cities. If some location
  starts with a comma or a blank segment, its city is `''`. The list then holds
  `''` twice. `JobOptions.LocationOptions` proves the whole list is
  duplicate-free exactly when no city is blank.
- `login` overwrites the whole state on every settled path, so the result does
  not depend on the state it started from. The `await import` of the mock
  module sits outside the inner `try`. If that import fails, the promise
  rejects and the state stays at `{...prev, loading: true, error: null}`.
- The restore initialiser trusts any record `JSON.parse` accepts. A record
  holding neither a user nor a company restores as authenticated with no
  actor. `Auth.RestoreConsistentIff` states exactly when the session
  invariant survives a restore.
- `login` does not check for an empty e-mail or password.
- The persist effect stores `{user, company, loading, error}` under `auth`.
- A failed fallback reports the mock's own error, else
  `'Erreur lors de la connexion'`, or the server-error message when
  `mockLogin` throws.

## Model

| member | source | states |
|---|---|---|
| JobFilter.Search | src/pages/Jobs.tsx:129-182 | The filtered list is never longer than the catalogue; its contents are stated by the lemmas below |
| Domain.HasCompany | src/pages/Jobs.tsx:60-62 | A job has a company iff its company field is neither `null` nor `undefined` (both are `None` in the model) |
| JobFilter.SearchIsConjunction | src/pages/Jobs.tsx:131-176 | The chain of four conditional filters equals a single filter of the catalogue by the conjunction of the active criteria |
| JobFilter.SearchMembership | src/pages/Jobs.tsx:131-176 | A job is in the result iff it is in the catalogue and passes every active criterion |
| JobFilter.SearchIsSubsequence | src/pages/Jobs.tsx:136-176 | The result is an order-preserving subsequence of the catalogue |
| JobFilter.SearchWithoutCriteria | src/pages/Jobs.tsx:131-176 | With a blank keyword and empty location, type and industry, the whole catalogue comes back in its original order |
| JobFilter.SearchIdempotent | src/pages/Jobs.tsx:131-176 | Searching the result again with the same filters returns it unchanged |
| JobFilter.SearchNarrowing | src/pages/Jobs.tsx:131-176 | Filters that keep every active criterion and add more give the wider result filtered further, hence a subsequence of it that is never longer |
| JobFilter.KeywordSearch | src/pages/Jobs.tsx:134-150 | With only a non-blank keyword, a job survives iff the lower-cased, untrimmed keyword occurs in its lower-cased title, description or some requirement, or in its company's name when a company is attached |
| JobFilter.LocationSearch | src/pages/Jobs.tsx:154-159 | With only a location, the search keeps the jobs whose lower-cased location contains the lower-cased filter |
| JobFilter.JobTypeSearch | src/pages/Jobs.tsx:162-165 | Filtering by an enum member's string value keeps exactly the jobs of that type |
| JobFilter.UnknownJobTypeMatchesNothing | src/pages/Jobs.tsx:162-165 | A non-empty job-type string that names no enum member empties the result |
| JobFilter.IndustrySearch | src/pages/Jobs.tsx:168-176 | A non-empty industry filter keeps only jobs with a company whose industry equals it up to case, so company-less jobs are always rejected; alone, it keeps exactly those |
| JobScenarios.LocationScenario | src/pages/Jobs.tsx:154-159 | Location "par" keeps the Paris job and drops the Lyon one |
| JobScenarios.JobTypeScenario | src/pages/Jobs.tsx:162-165 | Type TEMPORARY keeps only the temporary job |
| JobScenarios.IndustryScenario | src/pages/Jobs.tsx:168-176 | Industry "Health" keeps the job with a health company and drops the company-less one |
| JobScenarios.KeywordCaseScenario | src/pages/Jobs.tsx:134-150 | A lower-case keyword finds a job whose title is capitalised |
| Seqs.Filter | src/pages/Jobs.tsx:156-158 | The filter result is no longer than its input, holds only input elements satisfying the predicate, and holds every such element; `Seqs.FilterIsSubseq` adds input order and `Seqs.FilterMultiset` adds that every occurrence is kept |
| Seqs.FilterMultiset | src/pages/Jobs.tsx:156-158 | `filter` keeps every occurrence of a satisfying element: each such value appears exactly as often as in the input, every other value not at all |
| Seqs.DistinctInOrder | src/pages/Jobs.tsx:100 | `Array.from(new Set(xs))` has no duplicates, the same elements as `xs`, ordered by first occurrence |
| JobOptions.OptionValues | src/pages/Jobs.tsx:98-105 | Dropdown values start with `''`, followed by the distinct values in first-occurrence order; the whole list is duplicate-free iff `''` is not among the values |
| JobOptions.LocationOptions | src/pages/Jobs.tsx:98-105 | Location values: `''`, then every job's city exactly once, each the city of some job, in first-occurrence order; duplicate-free iff no city is blank |
| JobOptions.IndustryOptions | src/pages/Jobs.tsx:108-115 | Industry values: `''`, then every company's industry exactly once, each some company's industry, in first-occurrence order; duplicate-free iff no company's industry is empty |
| JobOptions.CityShape | src/pages/Jobs.tsx:100 | A city is a comma-free stretch of the location with no white space at either end |
| JobParams.ToParamsIsFilter | src/pages/Jobs.tsx:192-196 | The written parameters are the four (name, value) pairs filtered to the non-empty values |
| JobParams.ParamsContents | src/pages/Jobs.tsx:207-211 | The query holds only non-empty values, holds a field iff it is non-empty, and keeps the order keyword, location, jobType, industry |
| JobParams.ParamsRoundTrip | src/pages/Jobs.tsx:119-125 | Reading the written query back with `get(name) \|\| ''` gives the same filters |
| JobParams.HandleFilterChange | src/pages/Jobs.tsx:185-202 | The change sets only the named field; the query written for it holds exactly the non-empty fields, in the order keyword, location, jobType, industry, and reads back as the new filters |
| JobParams.WithField | src/pages/Jobs.tsx:186-189 | Spreading `{[name]: value}` sets that field and leaves the other three unchanged |
| Domain.JobTypeNameInjective | src/types/index.ts:79-85 | Distinct job types have distinct string values |
| Text.ContainsIffOccurs | src/pages/Jobs.tsx:138-140 | `includes` holds iff the needle occurs at some offset |
| Text.TrimEmptyIffBlank | src/pages/CompanyRegister.tsx:92 | `trim()` gives the empty string iff every character is white space |
| Text.TrimIsCore | src/pages/Jobs.tsx:100 | `trim` removes a blank prefix and a blank suffix; what is left neither starts nor ends with white space |
| Text.FirstSegmentIsPrefix | src/pages/Jobs.tsx:100 | `split(sep)[0]` is a sep-free prefix that is the whole string or is followed by sep |
| Auth.InitialStateSignedOut | src/context/AuthContext.tsx:10-16 | The initial state is unauthenticated with no user, no company, loading false and no error, and satisfies the session invariant |
| Auth.Logout | src/context/AuthContext.tsx:157-160 | Logout yields an unauthenticated state with no actor, not loading, without error |
| Auth.LogoutIdempotent | src/context/AuthContext.tsx:157-160 | Logging out twice equals logging out once, equals the initial state |
| Auth.Login | src/context/AuthContext.tsx:61-155 | A settled login returns true iff the state is authenticated, never leaves loading set, keeps the invariant, and on success holds an actor of the requested kind; the promise rejects only when the remote call throws and the mock import fails, and then only loading and error change |
| Auth.RemoteSuccess | src/context/AuthContext.tsx:65-92 | A remote answer with the requested actor signs in with that actor only, the other one null |
| Auth.RemoteRejection | src/context/AuthContext.tsx:95-103 | A remote answer without the requested actor yields unauthenticated with "Invalid credentials", whatever the mock would say |
| Auth.FallbackOnlyOnThrow | src/context/AuthContext.tsx:104-113 | If the mock's outcome changes the result, the remote call threw |
| Auth.MockSuccess | src/context/AuthContext.tsx:115-133 | Mock success with data populates only the requested kind |
| Auth.MockFailure | src/context/AuthContext.tsx:134-143 | Mock failure, or success without data, yields unauthenticated with the mock's non-empty error, else 'Erreur lors de la connexion' |
| Auth.MockThrowsServerError | src/context/AuthContext.tsx:144-153 | A throwing mock yields unauthenticated with the server-error message |
| Auth.SettledIgnoresPriorState | src/context/AuthContext.tsx:61-155 | A settled login's outcome does not depend on the state it started from |
| Auth.ConsistencyPreserved | src/context/AuthContext.tsx:61-160 | Login (settled or rejected), logout and a persist-then-restore all preserve "authenticated iff exactly one actor" |
| Auth.Persist | src/context/AuthContext.tsx:47-59 | An authenticated state is stored as exactly its user, company, loading and error; any other state removes the key |
| Auth.Restore | src/context/AuthContext.tsx:29-45 | A parsed record restores as authenticated with the record's fields; a missing or unparseable one gives the initial state |
| Auth.PersistRestoreRoundTrip | src/context/AuthContext.tsx:29-59 | Restoring what was persisted gives an authenticated state back unchanged, and the initial state for any unauthenticated one |
| Auth.RestorePersistFixpoint | src/context/AuthContext.tsx:29-59 | A restored session is persisted back as the same record |
| Auth.RestoreConsistentIff | src/context/AuthContext.tsx:34-38 | A restored state satisfies the session invariant iff the record holds exactly one actor |
| CompanyRegister.Validate | src/pages/CompanyRegister.tsx:89-118 | `validate` returns true iff the error map is empty, and the map's keys are among the five field names |
| CompanyRegister.ValidateIsPerField | src/pages/CompanyRegister.tsx:89-115 | Under each field's name the map holds exactly that field's own error |
| CompanyRegister.ValidateCompanyName | src/pages/CompanyRegister.tsx:92-94 | The company-name error is present iff the name is blank, with the "required" message |
| CompanyRegister.ValidateIndustry | src/pages/CompanyRegister.tsx:96-98 | The industry error is present iff the industry is blank, with the "required" message |
| CompanyRegister.ValidateEmail | src/pages/CompanyRegister.tsx:100-104 | A blank e-mail gets "required"; a non-blank one gets 'Email invalide' iff it matches the pattern nowhere |
| CompanyRegister.ValidatePassword | src/pages/CompanyRegister.tsx:106-110 | An empty password gets "required", a shorter-than-six one gets the length error, others none |
| CompanyRegister.ValidateConfirmPassword | src/pages/CompanyRegister.tsx:112-114 | The confirmation error is present iff the passwords differ, independently of the password's own error |
| CompanyRegister.ValidateMessagesNonEmpty | src/pages/CompanyRegister.tsx:89-115 | Every stored message is non-empty |
| CompanyRegister.ErrorsAreLocal | src/pages/CompanyRegister.tsx:89-115 | Changing one field never changes another field's error, except that the password feeds the confirmation check |
| CompanyRegister.EmailPatternIsRegex | src/pages/CompanyRegister.tsx:102 | The explicit e-mail predicate holds iff some offset starts a match of `\S+@\S+\.\S+` |
| CompanyRegister.EmailPatternUnanchored | src/pages/CompanyRegister.tsx:102 | Text around a matching string does not stop it matching |
| CompanyRegister.EmailPatternNeedsAt | src/pages/CompanyRegister.tsx:102 | A string without '@' never matches |
| CompanyRegister.EmailPatternExamples | src/pages/CompanyRegister.tsx:102 | "a@b.c" and text containing it match; a space before '@' or a missing dot does not |
| CompanyRegister.HandleChange | src/pages/CompanyRegister.tsx:72-87 | Editing field f sets only f's value; f's error is removed iff its message is non-empty (an empty one stays, as `if (errors[name])` is false for it); every other value and error is left as it was |
| CompanyRegister.EditClearsOnlyThatError | src/pages/CompanyRegister.tsx:79-86 | Right after `validate`, editing f leaves exactly the validation errors minus f's |
| CompanyRegister.EditTwice | src/pages/CompanyRegister.tsx:72-87 | Editing a field twice equals editing it once with the last value |

## Left out

- `src/services/api.ts` is not part of this model: `fetch`, response JSON, the token variable and `setToken` / `clearToken` (so `logout` clearing the token is not modelled). `login` sees only the outcome of the call.
- Credentials: the e-mail and password passed to `login` reach only the remote and mock calls, whose outcomes are inputs, so they do not appear.
- The mock data modules (`mockLogin`, `enhancedMockJobs`, `mockCompanies`) are parameters: the catalogue, the company list and the mock outcome.
- Unicode case mapping: `toLowerCase` is modelled on ASCII letters only. White space for `trim` and `\s` is the full ECMAScript set.
- Password length counts characters. JavaScript counts UTF-16 code units, so the two differ for characters outside the Basic Multilingual Plane.
- The query string's percent-encoding and `navigate`: the query string is its list of (name, value) pairs, and encoding is taken to be lossless.
- JSON text in local storage: a stored record reads back as the same record. Dates turning into strings is not modelled, since dates are not part of the model's records.
- Record fields no modelled operation reads. They are omitted because neither the search, the session nor the form looks at them:
  - `User`: `phone`, `address`, `city`, `country`, `profilePicture`, `experience`, `education`, `resume`, `createdAt`, `updatedAt`;
  - `Company`: `logo`, `website`, `phone`, `address`, `city`, `country`, `jobs`, `createdAt`, `updatedAt`;
  - `Job`: `salary`, `startDate`, `endDate`, `applications`, `createdAt`, `updatedAt`.
- React effect scheduling and the async interleaving of two racing logins. The persist effect also runs on the pending state of `login`; `Persist` covers it because it applies to any state.
- The static job-type option list (`src/pages/Jobs.tsx:88-95`), the job modal, applying to a job, and `console.log`.
- `src/pages/CompanyLogin.tsx`, `src/pages/Register.tsx`, `src/components/auth/RegisterModal.tsx` and `src/App.tsx`: form UI, navigation and routing around the modelled logic.
- JobFilter.Search: its own contract only bounds the result length. What it computes is stated by `JobFilter.SearchIsConjunction` and the lemmas after it.
