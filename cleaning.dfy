/** The cleaning stage of the preprocessing script (preprocessing.py lines 13-29 and 46): the
    joined table is reassigned one column pass at a time. */
module Cleaning {
  import opened Wrappers
  import opened Records
  import opened AgeBucket
  import opened Stats

  /** The sentinel values written into missing cells. */
  const EmbarkedDefault: string := "U"
  const SurvivedDefault: int := -1
  const PclassDefault: int := 0
  const CabinDefault: string := "Unknown"

  /** The rows that have an identifier, in their original order. */
  function WithId(rows: seq<Row>): (kept: seq<Row>)
    ensures |kept| <= |rows|
    ensures forall i :: 0 <= i < |kept| ==> kept[i].passengerId.Some?
  {
    if rows == [] then []
    else
      var last := rows[|rows| - 1];
      WithId(rows[..|rows| - 1]) + (if last.passengerId.Some? then [last] else [])
  }

  /** Dropping rows keeps each row with an identifier as often as it occurred and no other row. */
  lemma {:induction false} WithIdCounts(rows: seq<Row>)
    ensures forall r :: multiset(WithId(rows))[r] == if r.passengerId.Some? then multiset(rows)[r] else 0
  {
    if rows != [] {
      var init, last := rows[..|rows| - 1], rows[|rows| - 1];
      WithIdCounts(init);
      assert rows == init + [last];
      assert multiset(rows) == multiset(init) + multiset{last};
    }
  }

  /** Dropping rows commutes with concatenation, so the kept rows stay in their original order. */
  lemma {:induction false} WithIdAppend(a: seq<Row>, b: seq<Row>)
    ensures WithId(a + b) == WithId(a) + WithId(b)
  {
    if b == [] {
      assert a + b == a;
    } else {
      var init, last := b[..|b| - 1], b[|b| - 1];
      WithIdAppend(a, init);
      assert (a + b)[..|a + b| - 1] == a + init;
    }
  }

  /** A table whose identifiers are all present is left as it is. */
  lemma {:induction false} WithIdAllPresent(rows: seq<Row>)
    requires forall i :: 0 <= i < |rows| ==> rows[i].passengerId.Some?
    ensures WithId(rows) == rows
  {
    if rows != [] {
      WithIdAllPresent(rows[..|rows| - 1]);
    }
  }

  /** Every kept row is a row of the input. */
  lemma WithIdMembers(rows: seq<Row>, i: nat)
    requires i < |WithId(rows)|
    ensures WithId(rows)[i] in rows
  {
    var r := WithId(rows)[i];
    WithIdCounts(rows);
    assert r in multiset(WithId(rows));
  }

  /** A row with an identifier is kept. */
  lemma WithIdKeeps(rows: seq<Row>, i: nat)
    requires i < |rows| && rows[i].passengerId.Some?
    ensures rows[i] in WithId(rows)
  {
    WithIdCounts(rows);
    assert rows[i] in multiset(rows);
  }

  /** Line 13: the loop that drops the rows whose identifier is missing. */
  method DropMissingId(rows: seq<Row>) returns (df: seq<Row>)
    ensures df == WithId(rows)
  {
    df := [];
    for i := 0 to |rows|
      invariant df == WithId(rows[..i])
    {
      assert rows[..i + 1][..i] == rows[..i];
      if rows[i].passengerId.Some? {
        df := df + [rows[i]];
      }
    }
    assert rows[..|rows|] == rows;
  }

  /** The present ages of a table, in row order. */
  function KnownAges(rows: seq<Row>): seq<real> {
    if rows == [] then []
    else
      var last := rows[|rows| - 1];
      KnownAges(rows[..|rows| - 1]) + (if last.age.Some? then [last.age.value] else [])
  }

  /** The known ages are exactly the present ages of the rows. */
  lemma {:induction false} KnownAgesValues(rows: seq<Row>)
    ensures forall x :: x in KnownAges(rows) <==> exists i :: 0 <= i < |rows| && rows[i].age == Some(x)
  {
    if rows != [] {
      var init, last := rows[..|rows| - 1], rows[|rows| - 1];
      KnownAgesValues(init);
      forall x | x in KnownAges(rows) ensures exists i :: 0 <= i < |rows| && rows[i].age == Some(x) {
        if x in KnownAges(init) {
          var i :| 0 <= i < |init| && init[i].age == Some(x);
          assert rows[i] == init[i];
        } else {
          assert rows[|rows| - 1].age == Some(x);
        }
      }
      forall x | exists i :: 0 <= i < |rows| && rows[i].age == Some(x) ensures x in KnownAges(rows) {
        var i :| 0 <= i < |rows| && rows[i].age == Some(x);
        if i < |init| {
          assert init[i] == rows[i];
        }
      }
    }
  }

  /** No age is known exactly when every age is missing. */
  lemma {:induction false} KnownAgesEmpty(rows: seq<Row>)
    ensures KnownAges(rows) == [] <==> forall i :: 0 <= i < |rows| ==> rows[i].age.None?
  {
    if rows != [] {
      var init := rows[..|rows| - 1];
      KnownAgesEmpty(init);
      assert forall i :: 0 <= i < |init| ==> init[i] == rows[i];
    }
  }

  /** Collecting the known ages commutes with concatenation, so each present age is collected
      once per row, in row order. */
  lemma {:induction false} KnownAgesAppend(a: seq<Row>, b: seq<Row>)
    ensures KnownAges(a + b) == KnownAges(a) + KnownAges(b)
  {
    if b == [] {
      assert a + b == a;
    } else {
      KnownAgesAppend(a, b[..|b| - 1]);
      assert (a + b)[..|a + b| - 1] == a + b[..|b| - 1];
    }
  }

  /** Line 16: the median age over the present ages; None when no age is present. */
  function MedianAge(rows: seq<Row>): (m: Option<real>)
    ensures m.None? <==> forall i :: 0 <= i < |rows| ==> rows[i].age.None?
  {
    KnownAgesEmpty(rows);
    Median(KnownAges(rows))
  }

  /** Line 17: missing ages become the median; present ages are kept. */
  method FillAge(rows: seq<Row>, median: Option<real>) returns (df: seq<Row>)
    ensures |df| == |rows|
    ensures forall i :: 0 <= i < |rows| ==> df[i] == rows[i].(age := df[i].age)
    ensures forall i :: 0 <= i < |rows| ==> df[i].age == if rows[i].age.Some? then rows[i].age else median
  {
    df := [];
    for i := 0 to |rows|
      invariant |df| == i
      invariant forall k :: 0 <= k < i ==> df[k] == rows[k].(age := df[k].age)
      invariant forall k :: 0 <= k < i ==> df[k].age == if rows[k].age.Some? then rows[k].age else median
    {
      var r := rows[i];
      if r.age.None? {
        r := r.(age := median);
      }
      df := df + [r];
    }
  }

  /** Line 20: a missing port of embarkation becomes "U". */
  method FillEmbarked(rows: seq<Row>) returns (df: seq<Row>)
    ensures |df| == |rows|
    ensures forall i :: 0 <= i < |rows| ==> df[i] == rows[i].(embarked := df[i].embarked)
    ensures forall i :: 0 <= i < |rows| ==>
      df[i].embarked == if rows[i].embarked.Some? then rows[i].embarked else Some(EmbarkedDefault)
  {
    df := [];
    for i := 0 to |rows|
      invariant |df| == i
      invariant forall k :: 0 <= k < i ==> df[k] == rows[k].(embarked := df[k].embarked)
      invariant forall k :: 0 <= k < i ==>
        df[k].embarked == if rows[k].embarked.Some? then rows[k].embarked else Some(EmbarkedDefault)
    {
      var r := rows[i];
      if r.embarked.None? {
        r := r.(embarked := Some(EmbarkedDefault));
      }
      df := df + [r];
    }
  }

  /** Line 23: a missing survival flag becomes -1. */
  method FillSurvived(rows: seq<Row>) returns (df: seq<Row>)
    ensures |df| == |rows|
    ensures forall i :: 0 <= i < |rows| ==> df[i] == rows[i].(survived := df[i].survived)
    ensures forall i :: 0 <= i < |rows| ==>
      df[i].survived == if rows[i].survived.Some? then rows[i].survived else Some(SurvivedDefault)
  {
    df := [];
    for i := 0 to |rows|
      invariant |df| == i
      invariant forall k :: 0 <= k < i ==> df[k] == rows[k].(survived := df[k].survived)
      invariant forall k :: 0 <= k < i ==>
        df[k].survived == if rows[k].survived.Some? then rows[k].survived else Some(SurvivedDefault)
    {
      var r := rows[i];
      if r.survived.None? {
        r := r.(survived := Some(SurvivedDefault));
      }
      df := df + [r];
    }
  }

  /** Line 26: a missing passenger class becomes 0. */
  method FillPclass(rows: seq<Row>) returns (df: seq<Row>)
    ensures |df| == |rows|
    ensures forall i :: 0 <= i < |rows| ==> df[i] == rows[i].(pclass := df[i].pclass)
    ensures forall i :: 0 <= i < |rows| ==>
      df[i].pclass == if rows[i].pclass.Some? then rows[i].pclass else Some(PclassDefault)
  {
    df := [];
    for i := 0 to |rows|
      invariant |df| == i
      invariant forall k :: 0 <= k < i ==> df[k] == rows[k].(pclass := df[k].pclass)
      invariant forall k :: 0 <= k < i ==>
        df[k].pclass == if rows[k].pclass.Some? then rows[k].pclass else Some(PclassDefault)
    {
      var r := rows[i];
      if r.pclass.None? {
        r := r.(pclass := Some(PclassDefault));
      }
      df := df + [r];
    }
  }

  /** Line 29: a missing cabin becomes "Unknown". */
  method FillCabin(rows: seq<Row>) returns (df: seq<Row>)
    ensures |df| == |rows|
    ensures forall i :: 0 <= i < |rows| ==> df[i] == rows[i].(cabin := df[i].cabin)
    ensures forall i :: 0 <= i < |rows| ==>
      df[i].cabin == if rows[i].cabin.Some? then rows[i].cabin else Some(CabinDefault)
  {
    df := [];
    for i := 0 to |rows|
      invariant |df| == i
      invariant forall k :: 0 <= k < i ==> df[k] == rows[k].(cabin := df[k].cabin)
      invariant forall k :: 0 <= k < i ==>
        df[k].cabin == if rows[k].cabin.Some? then rows[k].cabin else Some(CabinDefault)
    {
      var r := rows[i];
      if r.cabin.None? {
        r := r.(cabin := Some(CabinDefault));
      }
      df := df + [r];
    }
  }

  /** Line 46: the AgeRange column is derived from each row's (already filled) age. */
  method DeriveAgeRange(rows: seq<Row>) returns (df: seq<Row>)
    ensures |df| == |rows|
    ensures forall i :: 0 <= i < |rows| ==> df[i] == rows[i].(ageRange := df[i].ageRange)
    ensures forall i :: 0 <= i < |rows| ==> df[i].ageRange == Some(AgeRange(rows[i].age))
  {
    df := [];
    for i := 0 to |rows|
      invariant |df| == i
      invariant forall k :: 0 <= k < i ==> df[k] == rows[k].(ageRange := df[k].ageRange)
      invariant forall k :: 0 <= k < i ==> df[k].ageRange == Some(AgeRange(rows[k].age))
    {
      df := df + [rows[i].(ageRange := Some(AgeRange(rows[i].age)))];
    }
  }

  /** One row after all cleaning passes, given the median computed before the fills. */
  function CleanRow(r: Row, median: Option<real>): Row {
    var age := if r.age.Some? then r.age else median;
    r.(age := age,
       embarked := Some(r.embarked.GetOr(EmbarkedDefault)),
       survived := Some(r.survived.GetOr(SurvivedDefault)),
       pclass := Some(r.pclass.GetOr(PclassDefault)),
       cabin := Some(r.cabin.GetOr(CabinDefault)),
       ageRange := Some(AgeRange(age)))
  }

  /** The cleaned table: the rows with an identifier, in order, each cleaned with the median age
      of those rows taken before any fill. */
  function CleanTable(joined: seq<Row>): (df: seq<Row>)
    ensures |df| == |WithId(joined)|
    ensures forall i :: 0 <= i < |df| ==>
      var r, d, m := WithId(joined)[i], df[i], MedianAge(WithId(joined));
      && d.passengerId == r.passengerId && d.passengerId.Some?
      && d.name == r.name && d.sex == r.sex && d.fare == r.fare && d.sibSp == r.sibSp && d.parch == r.parch
      && d.age == (if r.age.Some? then r.age else m)
      && d.embarked == (if r.embarked.Some? then r.embarked else Some(EmbarkedDefault))
      && d.survived == (if r.survived.Some? then r.survived else Some(SurvivedDefault))
      && d.pclass == (if r.pclass.Some? then r.pclass else Some(PclassDefault))
      && d.cabin == (if r.cabin.Some? then r.cabin else Some(CabinDefault))
      && d.ageRange == Some(AgeRange(d.age))
  {
    var kept := WithId(joined);
    var median := MedianAge(kept);
    seq(|kept|, i requires 0 <= i < |kept| => CleanRow(kept[i], median))
  }

  /** Lines 13-46: the cleaning passes in the order of the script, each reassigning the table. */
  method Clean(joined: seq<Row>) returns (df: seq<Row>)
    ensures df == CleanTable(joined)
  {
    df := DropMissingId(joined);
    ghost var kept := df;
    var medianAge := MedianAge(df);
    df := FillAge(df, medianAge);
    ghost var aged := df;
    df := FillEmbarked(df);
    df := FillSurvived(df);
    df := FillPclass(df);
    df := FillCabin(df);
    ghost var filled := df;
    df := DeriveAgeRange(df);
    forall i | 0 <= i < |df| ensures df[i] == CleanRow(kept[i], medianAge) {
      assert aged[i].age == filled[i].age;
    }
  }

  /** When at least one kept row has an age, no age is missing after cleaning, and a row is
      labelled "Unknown" only when its age is negative. */
  lemma CleanTableAgeFilled(joined: seq<Row>, k: nat)
    requires k < |joined| && joined[k].passengerId.Some? && joined[k].age.Some?
    ensures forall i :: 0 <= i < |CleanTable(joined)| ==>
      var d := CleanTable(joined)[i];
      d.age.Some? && (d.ageRange == Some(Unknown) <==> d.age.value < 0.0)
  {
    var kept := WithId(joined);
    WithIdKeeps(joined, k);
    var j :| 0 <= j < |kept| && kept[j] == joined[k];
    assert kept[j].age.Some?;
  }

  /** When at least one kept row has an age and no kept age is negative, no cleaned row is
      labelled "Unknown": the median lies among the known ages. */
  lemma CleanTableNoUnknown(joined: seq<Row>, k: nat)
    requires k < |joined| && joined[k].passengerId.Some? && joined[k].age.Some?
    requires forall i :: 0 <= i < |joined| && joined[i].age.Some? ==> joined[i].age.value >= 0.0
    ensures forall i :: 0 <= i < |CleanTable(joined)| ==> CleanTable(joined)[i].ageRange != Some(Unknown)
  {
    var kept := WithId(joined);
    var known := KnownAges(kept);
    CleanTableAgeFilled(joined, k);
    KnownAgesValues(kept);
    forall x | x in known ensures x >= 0.0 {
      var i :| 0 <= i < |kept| && kept[i].age == Some(x);
      WithIdMembers(joined, i);
    }
    WithIdKeeps(joined, k);
    assert joined[k].age.value in known;
    MedianAtLeast(known, 0.0);
  }

  /** When no kept row has an age, the median is missing, ages stay missing and every cleaned
      row is labelled "Unknown". */
  lemma CleanTableNoAges(joined: seq<Row>)
    requires forall i :: 0 <= i < |joined| && joined[i].passengerId.Some? ==> joined[i].age.None?
    ensures forall i :: 0 <= i < |CleanTable(joined)| ==>
      CleanTable(joined)[i].age.None? && CleanTable(joined)[i].ageRange == Some(Unknown)
  {
    var kept := WithId(joined);
    forall i | 0 <= i < |kept| ensures kept[i].age.None? {
      WithIdMembers(joined, i);
    }
  }

  /** Cleaning a cleaned row again with a median that is missing whenever the first one was
      and was needed changes nothing. */
  lemma CleanRowIdempotent(r: Row, m: Option<real>, m': Option<real>)
    requires r.age.None? && m.None? ==> m'.None?
    ensures CleanRow(CleanRow(r, m), m') == CleanRow(r, m)
  {
  }

  /** The median of a cleaned table is missing whenever the median used to clean it was. */
  lemma CleanTableMedian(joined: seq<Row>)
    ensures MedianAge(WithId(joined)).None? ==> MedianAge(CleanTable(joined)).None?
  {
    var df := CleanTable(joined);
    if MedianAge(WithId(joined)).None? {
      assert forall i :: 0 <= i < |df| ==> df[i].age.None?;
    }
  }

  /** Cleaning a cleaned table changes nothing. */
  lemma CleanTableIdempotent(joined: seq<Row>)
    ensures CleanTable(CleanTable(joined)) == CleanTable(joined)
  {
    var df := CleanTable(joined);
    var kept := WithId(joined);
    WithIdAllPresent(df);
    CleanTableMedian(joined);
    var m, m' := MedianAge(kept), MedianAge(df);
    var again := CleanTable(df);
    forall i | 0 <= i < |df| ensures again[i] == df[i] {
      CleanRowIdempotent(kept[i], m, m');
    }
  }

  /** When the source columns hold only the documented codes (class 1-3, survival 0/1), the
      cleaned columns hold only those codes and the sentinels. */
  lemma CleanTableCodes(joined: seq<Row>)
    requires forall i :: 0 <= i < |joined| ==> joined[i].pclass in {None, Some(1), Some(2), Some(3)}
    requires forall i :: 0 <= i < |joined| ==> joined[i].survived in {None, Some(0), Some(1)}
    ensures forall i :: 0 <= i < |CleanTable(joined)| ==>
      CleanTable(joined)[i].pclass.value in {0, 1, 2, 3} && CleanTable(joined)[i].survived.value in {-1, 0, 1}
  {
    var kept := WithId(joined);
    forall i | 0 <= i < |kept| ensures kept[i].pclass in {None, Some(1), Some(2), Some(3)}
      && kept[i].survived in {None, Some(0), Some(1)}
    {
      WithIdMembers(joined, i);
    }
  }

  /** Sample row: passenger 1 with every nullable column missing (age, class, cabin, port and
      survival flag) and fare 7.25, cleaned with median age 28. */
  lemma CleanRowSample()
    ensures CleanRow(
      Row(Some(1), "n", "s", None, None, None, None, 7.25, 0, 0, None, None), Some(28.0))
      == Row(Some(1), "n", "s", Some(28.0), Some(0), Some("Unknown"), Some("U"), 7.25, 0, 0, Some(-1), Some("18-29"))
  {
  }
}
