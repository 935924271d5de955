/** The six column-subset copies of the cleaned table (preprocessing.py lines 69-109). Each is a
    map over the rows, so it keeps the row count and the row order; the partition and clustering
    keys named in the script are documentation only and impose no order. */
module Projections {
  import opened Wrappers
  import opened Records

  /** survivors_by_class: PassengerId, Pclass, Survived, Name, Sex, Age. */
  datatype SurvivorsByClass = SurvivorsByClass(
    passengerId: Option<int>, pclass: Option<int>, survived: Option<int>,
    name: string, sex: string, age: Option<real>)

  /** passengers_by_port_age: Embarked, Age, PassengerId, Name, Sex, Pclass, Survived. */
  datatype PassengersByPortAge = PassengersByPortAge(
    embarked: Option<string>, age: Option<real>, passengerId: Option<int>,
    name: string, sex: string, pclass: Option<int>, survived: Option<int>)

  /** women_survivors_by_class: Pclass, Sex, Survived, PassengerId, Name, Age. */
  datatype WomenSurvivorsByClass = WomenSurvivorsByClass(
    pclass: Option<int>, sex: string, survived: Option<int>,
    passengerId: Option<int>, name: string, age: Option<real>)

  /** passengers_by_age_range: AgeRange, Age, PassengerId, Name, Sex, Pclass, Survived. */
  datatype PassengersByAgeRange = PassengersByAgeRange(
    ageRange: Option<string>, age: Option<real>, passengerId: Option<int>,
    name: string, sex: string, pclass: Option<int>, survived: Option<int>)

  /** port_survival_analysis: Embarked, Survived, PassengerId, Name, Pclass, Sex, Age. */
  datatype PortSurvivalAnalysis = PortSurvivalAnalysis(
    embarked: Option<string>, survived: Option<int>, passengerId: Option<int>,
    name: string, pclass: Option<int>, sex: string, age: Option<real>)

  /** class_age_survival_analysis: AgeRange, Pclass, Survived, PassengerId, Name, Sex, Age. */
  datatype ClassAgeSurvivalAnalysis = ClassAgeSurvivalAnalysis(
    ageRange: Option<string>, pclass: Option<int>, survived: Option<int>,
    passengerId: Option<int>, name: string, sex: string, age: Option<real>)

  /** Line 69. */
  function SurvivorsByClassTable(df: seq<Row>): (t: seq<SurvivorsByClass>)
    ensures |t| == |df|
    ensures forall i :: 0 <= i < |df| ==>
      && t[i].passengerId == df[i].passengerId && t[i].pclass == df[i].pclass
      && t[i].survived == df[i].survived && t[i].name == df[i].name
      && t[i].sex == df[i].sex && t[i].age == df[i].age
  {
    seq(|df|, i requires 0 <= i < |df| =>
      var r := df[i];
      SurvivorsByClass(r.passengerId, r.pclass, r.survived, r.name, r.sex, r.age))
  }

  /** Line 77. */
  function PassengersByPortAgeTable(df: seq<Row>): (t: seq<PassengersByPortAge>)
    ensures |t| == |df|
    ensures forall i :: 0 <= i < |df| ==>
      && t[i].embarked == df[i].embarked && t[i].age == df[i].age
      && t[i].passengerId == df[i].passengerId && t[i].name == df[i].name
      && t[i].sex == df[i].sex && t[i].pclass == df[i].pclass && t[i].survived == df[i].survived
  {
    seq(|df|, i requires 0 <= i < |df| =>
      var r := df[i];
      PassengersByPortAge(r.embarked, r.age, r.passengerId, r.name, r.sex, r.pclass, r.survived))
  }

  /** Line 85. */
  function WomenSurvivorsByClassTable(df: seq<Row>): (t: seq<WomenSurvivorsByClass>)
    ensures |t| == |df|
    ensures forall i :: 0 <= i < |df| ==>
      && t[i].pclass == df[i].pclass && t[i].sex == df[i].sex
      && t[i].survived == df[i].survived && t[i].passengerId == df[i].passengerId
      && t[i].name == df[i].name && t[i].age == df[i].age
  {
    seq(|df|, i requires 0 <= i < |df| =>
      var r := df[i];
      WomenSurvivorsByClass(r.pclass, r.sex, r.survived, r.passengerId, r.name, r.age))
  }

  /** Line 93. */
  function PassengersByAgeRangeTable(df: seq<Row>): (t: seq<PassengersByAgeRange>)
    ensures |t| == |df|
    ensures forall i :: 0 <= i < |df| ==>
      && t[i].ageRange == df[i].ageRange && t[i].age == df[i].age
      && t[i].passengerId == df[i].passengerId && t[i].name == df[i].name
      && t[i].sex == df[i].sex && t[i].pclass == df[i].pclass && t[i].survived == df[i].survived
  {
    seq(|df|, i requires 0 <= i < |df| =>
      var r := df[i];
      PassengersByAgeRange(r.ageRange, r.age, r.passengerId, r.name, r.sex, r.pclass, r.survived))
  }

  /** Line 101. */
  function PortSurvivalAnalysisTable(df: seq<Row>): (t: seq<PortSurvivalAnalysis>)
    ensures |t| == |df|
    ensures forall i :: 0 <= i < |df| ==>
      && t[i].embarked == df[i].embarked && t[i].survived == df[i].survived
      && t[i].passengerId == df[i].passengerId && t[i].name == df[i].name
      && t[i].pclass == df[i].pclass && t[i].sex == df[i].sex && t[i].age == df[i].age
  {
    seq(|df|, i requires 0 <= i < |df| =>
      var r := df[i];
      PortSurvivalAnalysis(r.embarked, r.survived, r.passengerId, r.name, r.pclass, r.sex, r.age))
  }

  /** Line 109. */
  function ClassAgeSurvivalAnalysisTable(df: seq<Row>): (t: seq<ClassAgeSurvivalAnalysis>)
    ensures |t| == |df|
    ensures forall i :: 0 <= i < |df| ==>
      && t[i].ageRange == df[i].ageRange && t[i].pclass == df[i].pclass
      && t[i].survived == df[i].survived && t[i].passengerId == df[i].passengerId
      && t[i].name == df[i].name && t[i].sex == df[i].sex && t[i].age == df[i].age
  {
    seq(|df|, i requires 0 <= i < |df| =>
      var r := df[i];
      ClassAgeSurvivalAnalysis(r.ageRange, r.pclass, r.survived, r.passengerId, r.name, r.sex, r.age))
  }

  /** Projecting commutes with concatenating tables, so no projection reorders rows. */
  lemma ProjectionsAppend(a: seq<Row>, b: seq<Row>)
    ensures SurvivorsByClassTable(a + b) == SurvivorsByClassTable(a) + SurvivorsByClassTable(b)
    ensures PassengersByPortAgeTable(a + b) == PassengersByPortAgeTable(a) + PassengersByPortAgeTable(b)
    ensures WomenSurvivorsByClassTable(a + b) == WomenSurvivorsByClassTable(a) + WomenSurvivorsByClassTable(b)
    ensures PassengersByAgeRangeTable(a + b) == PassengersByAgeRangeTable(a) + PassengersByAgeRangeTable(b)
    ensures PortSurvivalAnalysisTable(a + b) == PortSurvivalAnalysisTable(a) + PortSurvivalAnalysisTable(b)
    ensures ClassAgeSurvivalAnalysisTable(a + b) == ClassAgeSurvivalAnalysisTable(a) + ClassAgeSurvivalAnalysisTable(b)
  {
  }
}
