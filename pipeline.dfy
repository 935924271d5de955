/** The whole script from the merge to the six output tables. */
module Pipeline {
  import opened Wrappers
  import opened Records
  import opened Join
  import opened Cleaning
  import opened Projections

  /** The six tables the script writes, one per output file. */
  datatype Outputs = Outputs(
    survivorsByClass: seq<SurvivorsByClass>,
    passengersByPortAge: seq<PassengersByPortAge>,
    womenSurvivorsByClass: seq<WomenSurvivorsByClass>,
    passengersByAgeRange: seq<PassengersByAgeRange>,
    portSurvivalAnalysis: seq<PortSurvivalAnalysis>,
    classAgeSurvivalAnalysis: seq<ClassAgeSurvivalAnalysis>)

  /** The six projections of one cleaned table. */
  function ProjectAll(df: seq<Row>): Outputs {
    Outputs(SurvivorsByClassTable(df), PassengersByPortAgeTable(df), WomenSurvivorsByClassTable(df),
            PassengersByAgeRangeTable(df), PortSurvivalAnalysisTable(df), ClassAgeSurvivalAnalysisTable(df))
  }

  /** The cleaned joined table every output is projected from. */
  function Cleaned(info: seq<PassengerInfo>, trip: seq<PassengerTrip>): seq<Row> {
    CleanTable(InnerJoin(info, trip))
  }

  /** Lines 9-109: join, clean, then project six times from the one cleaned table. */
  method Run(info: seq<PassengerInfo>, trip: seq<PassengerTrip>) returns (out: Outputs)
    ensures out == ProjectAll(Cleaned(info, trip))
    ensures var n := |Cleaned(info, trip)|;
      && |out.survivorsByClass| == n && |out.passengersByPortAge| == n
      && |out.womenSurvivorsByClass| == n && |out.passengersByAgeRange| == n
      && |out.portSurvivalAnalysis| == n && |out.classAgeSurvivalAnalysis| == n
  {
    var df := NestedLoopJoin(info, trip);
    df := Clean(df);
    out := ProjectAll(df);
  }

  /** Every row of the cleaned table carries an identifier present in both inputs. */
  lemma CleanedIdsShared(info: seq<PassengerInfo>, trip: seq<PassengerTrip>, i: nat)
    requires i < |Cleaned(info, trip)|
    ensures Cleaned(info, trip)[i].passengerId.Some?
    ensures Cleaned(info, trip)[i].passengerId in InfoIds(info)
    ensures Cleaned(info, trip)[i].passengerId in TripIds(trip)
  {
    var joined := InnerJoin(info, trip);
    WithIdMembers(joined, i);
    JoinIdsShared(info, trip);
  }

  /** An identifier missing from either input appears in none of the six outputs, and every
      output row has an identifier. */
  lemma OutputsOnlySharedIds(info: seq<PassengerInfo>, trip: seq<PassengerTrip>, k: Option<int>)
    requires k !in InfoIds(info) || k !in TripIds(trip)
    ensures var out := ProjectAll(Cleaned(info, trip));
      && (forall i :: 0 <= i < |out.survivorsByClass| ==>
            out.survivorsByClass[i].passengerId.Some? && out.survivorsByClass[i].passengerId != k)
      && (forall i :: 0 <= i < |out.passengersByPortAge| ==>
            out.passengersByPortAge[i].passengerId.Some? && out.passengersByPortAge[i].passengerId != k)
      && (forall i :: 0 <= i < |out.womenSurvivorsByClass| ==>
            out.womenSurvivorsByClass[i].passengerId.Some? && out.womenSurvivorsByClass[i].passengerId != k)
      && (forall i :: 0 <= i < |out.passengersByAgeRange| ==>
            out.passengersByAgeRange[i].passengerId.Some? && out.passengersByAgeRange[i].passengerId != k)
      && (forall i :: 0 <= i < |out.portSurvivalAnalysis| ==>
            out.portSurvivalAnalysis[i].passengerId.Some? && out.portSurvivalAnalysis[i].passengerId != k)
      && (forall i :: 0 <= i < |out.classAgeSurvivalAnalysis| ==>
            out.classAgeSurvivalAnalysis[i].passengerId.Some? && out.classAgeSurvivalAnalysis[i].passengerId != k)
  {
    var df := Cleaned(info, trip);
    forall i | 0 <= i < |df| ensures df[i].passengerId.Some? && df[i].passengerId != k {
      CleanedIdsShared(info, trip, i);
    }
  }

  /** Every output row carries the sentinel-filled columns it selects: class, survival flag and
      port are never missing, and the age range is always derived. */
  lemma OutputsFilled(info: seq<PassengerInfo>, trip: seq<PassengerTrip>)
    ensures var out := ProjectAll(Cleaned(info, trip));
      && (forall i :: 0 <= i < |out.survivorsByClass| ==>
            out.survivorsByClass[i].pclass.Some? && out.survivorsByClass[i].survived.Some?)
      && (forall i :: 0 <= i < |out.passengersByPortAge| ==>
            out.passengersByPortAge[i].embarked.Some? && out.passengersByPortAge[i].pclass.Some?
            && out.passengersByPortAge[i].survived.Some?)
      && (forall i :: 0 <= i < |out.womenSurvivorsByClass| ==>
            out.womenSurvivorsByClass[i].pclass.Some? && out.womenSurvivorsByClass[i].survived.Some?)
      && (forall i :: 0 <= i < |out.passengersByAgeRange| ==>
            out.passengersByAgeRange[i].ageRange.Some? && out.passengersByAgeRange[i].pclass.Some?
            && out.passengersByAgeRange[i].survived.Some?)
      && (forall i :: 0 <= i < |out.portSurvivalAnalysis| ==>
            out.portSurvivalAnalysis[i].embarked.Some? && out.portSurvivalAnalysis[i].survived.Some?
            && out.portSurvivalAnalysis[i].pclass.Some?)
      && (forall i :: 0 <= i < |out.classAgeSurvivalAnalysis| ==>
            out.classAgeSurvivalAnalysis[i].ageRange.Some? && out.classAgeSurvivalAnalysis[i].pclass.Some?
            && out.classAgeSurvivalAnalysis[i].survived.Some?)
  {
  }
}
