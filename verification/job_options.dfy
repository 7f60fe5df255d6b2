/**
 * The values of the location and industry dropdowns of the jobs page:
 * `''` (meaning "all") followed by the distinct cities, or industries, in
 * the order they first occur.
 */
module JobOptions {
  import opened Text
  import opened Seqs
  import opened Domain

  /** `location.split(',')[0].trim()` */
  function City(location: string): string {
    Trim(FirstSegment(location, ','))
  }

  function Cities(jobs: seq<Job>): (r: seq<string>)
    ensures |r| == |jobs| && forall i :: 0 <= i < |jobs| ==> r[i] == City(jobs[i].location)
  {
    seq(|jobs|, i requires 0 <= i < |jobs| => City(jobs[i].location))
  }

  function Industries(companies: seq<Company>): (r: seq<string>)
    ensures |r| == |companies| && forall i :: 0 <= i < |companies| ==> r[i] == companies[i].industry
  {
    seq(|companies|, i requires 0 <= i < |companies| => companies[i].industry)
  }

  /** `[''].concat(Array.from(new Set(values)))` */
  method OptionValues(values: seq<string>) returns (r: seq<string>)
    ensures |r| >= 1 && r[0] == ""
    ensures NoDuplicates(r[1..])
    ensures forall x :: x in r[1..] <==> x in values
    ensures forall a, b :: 1 <= a < b < |r| ==> FirstIndex(values, r[a]) < FirstIndex(values, r[b])
    ensures NoDuplicates(r) <==> "" !in values
  {
    var distinct := DistinctInOrder(values);
    r := [""] + distinct;
    assert r[1..] == distinct;
    if "" in values {
      var k :| 0 <= k < |distinct| && distinct[k] == "";
      assert r[0] == r[k + 1];
    } else {
      forall a, b | 0 <= a < b < |r| ensures r[a] != r[b] {
        if a > 0 {
          assert r[a] == distinct[a - 1] && r[b] == distinct[b - 1];
        } else {
          assert r[b] in distinct;
        }
      }
    }
  }

  /** Location dropdown: `''`, then each job's city once, in first-occurrence
      order. `''` appears twice exactly when some city is blank. */
  method LocationOptions(jobs: seq<Job>) returns (r: seq<string>)
    ensures |r| >= 1 && r[0] == ""
    ensures NoDuplicates(r[1..])
    ensures forall k :: 1 <= k < |r| ==> exists j :: 0 <= j < |jobs| && City(jobs[j].location) == r[k]
    ensures forall j :: 0 <= j < |jobs| ==> City(jobs[j].location) in r[1..]
    ensures forall a, b :: 1 <= a < b < |r| ==>
              FirstIndex(Cities(jobs), r[a]) < FirstIndex(Cities(jobs), r[b])
    ensures NoDuplicates(r) <==> forall j :: 0 <= j < |jobs| ==> City(jobs[j].location) != ""
  {
    var cities := Cities(jobs);
    r := OptionValues(cities);
    forall k | 1 <= k < |r| ensures exists j :: 0 <= j < |jobs| && City(jobs[j].location) == r[k] {
      assert r[k] == r[1..][k - 1];
      assert r[k] in cities;
    }
    forall j | 0 <= j < |jobs| ensures City(jobs[j].location) in r[1..] {
      assert cities[j] in cities;
    }
  }

  /** Industry dropdown: `''`, then each company's industry once, in
      first-occurrence order. `''` appears twice exactly when some company's
      industry is empty. */
  method IndustryOptions(companies: seq<Company>) returns (r: seq<string>)
    ensures |r| >= 1 && r[0] == ""
    ensures NoDuplicates(r[1..])
    ensures forall k :: 1 <= k < |r| ==> exists c :: 0 <= c < |companies| && companies[c].industry == r[k]
    ensures forall c :: 0 <= c < |companies| ==> companies[c].industry in r[1..]
    ensures forall a, b :: 1 <= a < b < |r| ==>
              FirstIndex(Industries(companies), r[a]) < FirstIndex(Industries(companies), r[b])
    ensures NoDuplicates(r) <==> forall c :: 0 <= c < |companies| ==> companies[c].industry != ""
  {
    var industries := Industries(companies);
    r := OptionValues(industries);
    forall k | 1 <= k < |r| ensures exists c :: 0 <= c < |companies| && companies[c].industry == r[k] {
      assert r[k] == r[1..][k - 1];
      assert r[k] in industries;
    }
    forall c | 0 <= c < |companies| ensures companies[c].industry in r[1..] {
      assert industries[c] in industries;
    }
  }

  /** A city is a comma-free stretch of the location without white space at
      either end. */
  lemma CityShape(location: string)
    ensures ',' !in City(location)
    ensures exists i :: OccursAt(location, City(location), i)
    ensures City(location) != "" ==>
              !IsSpace(City(location)[0]) && !IsSpace(City(location)[|City(location)| - 1])
  {
    var seg := FirstSegment(location, ',');
    FirstSegmentIsPrefix(location, ',');
    TrimIsCore(seg);
    var i, j := TrimBounds(seg);
    assert location[i..j] == seg[i..j];
    assert OccursAt(location, City(location), i);
    forall k | 0 <= k < |City(location)| ensures City(location)[k] != ',' {
      assert City(location)[k] == seg[i + k];
    }
  }
}
