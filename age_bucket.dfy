/** The age classifier `age_range` of the preprocessing script. */
module AgeBucket {
  import opened Wrappers

  const Unknown: string := "Unknown"
  const Minor: string := "0-17"
  const YoungAdult: string := "18-29"
  const Adult: string := "30-44"
  const MiddleAged: string := "45-59"
  const Senior: string := "60+"

  /** The six labels the classifier can return. */
  const Labels: set<string> := {Unknown, Minor, YoungAdult, Adult, MiddleAged, Senior}

  /** Buckets an optional age into half-open bands with boundaries 18, 30, 45 and 60.
      A missing or negative age is "Unknown". */
  function AgeRange(age: Option<real>): (r: string)
    ensures r in Labels
    ensures r == Unknown <==> age.None? || age.value < 0.0
    ensures r == Minor <==> age.Some? && 0.0 <= age.value < 18.0
    ensures r == YoungAdult <==> age.Some? && 18.0 <= age.value < 30.0
    ensures r == Adult <==> age.Some? && 30.0 <= age.value < 45.0
    ensures r == MiddleAged <==> age.Some? && 45.0 <= age.value < 60.0
    ensures r == Senior <==> age.Some? && 60.0 <= age.value
  {
    if age.None? || age.value < 0.0 then Unknown
    else if age.value < 18.0 then Minor
    else if age.value < 30.0 then YoungAdult
    else if age.value < 45.0 then Adult
    else if age.value < 60.0 then MiddleAged
    else Senior
  }

  /** Position of a label in the order of the bands, "Unknown" first. */
  function BandIndex(tag: string): (k: nat)
    ensures tag in Labels ==> k <= 5
  {
    if tag == Minor then 1
    else if tag == YoungAdult then 2
    else if tag == Adult then 3
    else if tag == MiddleAged then 4
    else if tag == Senior then 5
    else 0
  }

  /** The band index never decreases as a present age grows ("Unknown", for negative ages, is
      index 0); a non-negative age is never in the "Unknown" band. */
  lemma AgeRangeMonotone(a: real, b: real)
    requires a <= b
    ensures BandIndex(AgeRange(Some(a))) <= BandIndex(AgeRange(Some(b)))
    ensures 0.0 <= a ==> 1 <= BandIndex(AgeRange(Some(a)))
  {
  }

  /** Sample classifications: -1, 0, 17.99, 18, 60 and a missing age. */
  lemma AgeRangeSamples()
    ensures AgeRange(Some(-1.0)) == Unknown
    ensures AgeRange(Some(0.0)) == Minor
    ensures AgeRange(Some(17.99)) == Minor
    ensures AgeRange(Some(18.0)) == YoungAdult
    ensures AgeRange(Some(60.0)) == Senior
    ensures AgeRange(None) == Unknown
  {
  }
}
