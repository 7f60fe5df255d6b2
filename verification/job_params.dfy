/**
 * The jobs page keeps its filters in the URL: `handleFilterChange` and
 * `handleSearch` write the non-empty filters as query parameters, and the
 * page reads them back with `params.get(name) || ''`. The query string is
 * modelled as its list of name/value pairs.
 */
module JobParams {
  import opened Wrappers
  import opened Seqs
  import opened JobFilter

  datatype FilterField = KeywordField | LocationField | JobTypeField | IndustryField

  type Params = seq<(string, string)>

  function ParamName(field: FilterField): string {
    match field
    case KeywordField => "keyword"
    case LocationField => "location"
    case JobTypeField => "jobType"
    case IndustryField => "industry"
  }

  function FieldValue(f: Filters, field: FilterField): string {
    match field
    case KeywordField => f.keyword
    case LocationField => f.location
    case JobTypeField => f.jobType
    case IndustryField => f.industry
  }

  /** `{ ...filters, [name]: value }` */
  function WithField(f: Filters, field: FilterField, value: string): (g: Filters)
    ensures FieldValue(g, field) == value
    ensures forall other :: other != field ==> FieldValue(g, other) == FieldValue(f, other)
  {
    match field
    case KeywordField => f.(keyword := value)
    case LocationField => f.(location := value)
    case JobTypeField => f.(jobType := value)
    case IndustryField => f.(industry := value)
  }

  /** Every field as a pair, in the order the page writes them. */
  function AllPairs(f: Filters): Params {
    [("keyword", f.keyword), ("location", f.location), ("jobType", f.jobType), ("industry", f.industry)]
  }

  /** `if (value) params.set(name, value)` on a fresh parameter list. */
  function Param(name: string, value: string): Params {
    if value != "" then [(name, value)] else []
  }

  /** The query string written by `handleFilterChange` and `handleSearch`. */
  function ToParams(f: Filters): Params {
    Param("keyword", f.keyword)
    + (Param("location", f.location) + (Param("jobType", f.jobType) + Param("industry", f.industry)))
  }

  /** `params.get(name)`: the value of the first pair with that name. */
  function Get(p: Params, name: string): Option<string>
    decreases |p|
  {
    if |p| == 0 then None
    else if p[0].0 == name then Some(p[0].1)
    else Get(p[1..], name)
  }

  /** `params.get(name) || ''` */
  function GetOrEmpty(p: Params, name: string): string {
    match Get(p, name)
    case Some(v) => v
    case None => ""
  }

  /** The filters the page reads from a query string. */
  function FromParams(p: Params): Filters {
    Filters(GetOrEmpty(p, "keyword"), GetOrEmpty(p, "location"),
            GetOrEmpty(p, "jobType"), GetOrEmpty(p, "industry"))
  }

  /** `handleFilterChange`: the new filters and the query string written for them. */
  function HandleFilterChange(f: Filters, field: FilterField, value: string): (r: (Filters, Params))
    ensures FieldValue(r.0, field) == value
    ensures forall other :: other != field ==> FieldValue(r.0, other) == FieldValue(f, other)
    ensures FromParams(r.1) == r.0
    ensures r.1 == Filter(AllPairs(r.0), NonEmptyValue)
    ensures forall k :: 0 <= k < |r.1| ==> r.1[k].1 != ""
    ensures forall other :: FieldValue(r.0, other) != "" <==> (ParamName(other), FieldValue(r.0, other)) in r.1
  {
    var g := WithField(f, field, value);
    ParamsRoundTrip(g);
    ToParamsIsFilter(g);
    ParamsContents(g);
    (g, ToParams(g))
  }

  /** `get` on a concatenation looks in the second part only when the
      first has no pair of that name. */
  lemma {:induction false} GetAppend(p: Params, q: Params, name: string)
    ensures Get(p + q, name) == if Get(p, name).Some? then Get(p, name) else Get(q, name)
    decreases |p|
  {
    if |p| > 0 {
      assert (p + q)[0] == p[0];
      assert (p + q)[1..] == p[1..] + q;
      GetAppend(p[1..], q, name);
    } else {
      assert p + q == q;
    }
  }

  lemma GetParam(pname: string, value: string, rest: Params, name: string)
    ensures GetOrEmpty(Param(pname, value) + rest, name)
         == if pname == name then (if value != "" then value else GetOrEmpty(rest, name)) else GetOrEmpty(rest, name)
  {
    GetAppend(Param(pname, value), rest, name);
  }

  /** Reading back the written query string gives the same filters, so the
      effect that follows the URL agrees with the direct state update. */
  lemma ParamsRoundTrip(f: Filters)
    ensures FromParams(ToParams(f)) == f
  {
    var k := Param("keyword", f.keyword);
    var l := Param("location", f.location);
    var t := Param("jobType", f.jobType);
    var i := Param("industry", f.industry);
    forall name | name in ["keyword", "location", "jobType", "industry"]
      ensures GetOrEmpty(ToParams(f), name) == FieldValue(f, FieldOf(name))
    {
      GetParam("keyword", f.keyword, l + (t + i), name);
      GetParam("location", f.location, t + i, name);
      GetParam("jobType", f.jobType, i, name);
      GetParam("industry", f.industry, [], name);
      assert i + [] == i;
      assert Get([], name) == None;
    }
  }

  /** The field a parameter name stands for (`keyword` for unknown names). */
  function FieldOf(name: string): FilterField {
    if name == "location" then LocationField
    else if name == "jobType" then JobTypeField
    else if name == "industry" then IndustryField
    else KeywordField
  }

  /** A pair survives the non-empty filter exactly as `Param` writes it. */
  lemma FilterPair(name: string, value: string, rest: Params)
    ensures Filter([(name, value)] + rest, NonEmptyValue) == Param(name, value) + Filter(rest, NonEmptyValue)
  {
    FilterCons([(name, value)] + rest, NonEmptyValue);
    assert ([(name, value)] + rest)[1..] == rest;
  }

  predicate NonEmptyValue(pair: (string, string)) {
    pair.1 != ""
  }

  /** `ToParams` keeps exactly the pairs with a non-empty value. */
  lemma ToParamsIsFilter(f: Filters)
    ensures ToParams(f) == Filter(AllPairs(f), NonEmptyValue)
  {
    FilterPair("industry", f.industry, []);
    FilterPair("jobType", f.jobType, [("industry", f.industry)]);
    FilterPair("location", f.location, [("jobType", f.jobType), ("industry", f.industry)]);
    FilterPair("keyword", f.keyword, [("location", f.location), ("jobType", f.jobType), ("industry", f.industry)]);
    assert [("industry", f.industry)] + [] == [("industry", f.industry)];
  }

  /** The query string holds exactly the non-empty fields, each once, in the
      order keyword, location, jobType, industry. */
  lemma ParamsContents(f: Filters)
    ensures forall k :: 0 <= k < |ToParams(f)| ==> ToParams(f)[k].1 != ""
    ensures forall field :: FieldValue(f, field) != "" <==> (ParamName(field), FieldValue(f, field)) in ToParams(f)
    ensures IsSubseq(ToParams(f), AllPairs(f))
  {
    ToParamsIsFilter(f);
    FilterIsSubseq(AllPairs(f), NonEmptyValue);
    var p := ToParams(f);
    forall field ensures FieldValue(f, field) != "" <==> (ParamName(field), FieldValue(f, field)) in p {
      var pair := (ParamName(field), FieldValue(f, field));
      assert pair in AllPairs(f);
    }
  }
}
