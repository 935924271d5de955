/** The inner join of the two input tables on PassengerId (preprocessing.py line 9).
    Keys are compared as optional values, so two missing identifiers match each other, as
    pandas merge does with NaN keys; the cleaning stage drops those rows afterwards. */
module Join {
  import opened Wrappers
  import opened Records

  /** The joined row for a matching pair: the information columns, then the trip columns. */
  function MergeRow(p: PassengerInfo, t: PassengerTrip): Row {
    Row(p.passengerId, p.name, p.sex, p.age, p.pclass, p.cabin, p.embarked,
        t.fare, t.sibSp, t.parch, t.survived, None)
  }

  /** The joined rows of one information row, in the order of the trip table. */
  function Matches(p: PassengerInfo, trip: seq<PassengerTrip>): seq<Row> {
    if trip == [] then []
    else
      var t := trip[|trip| - 1];
      Matches(p, trip[..|trip| - 1]) + (if t.passengerId == p.passengerId then [MergeRow(p, t)] else [])
  }

  /** The inner join: for each information row in order, its matching trip rows in order. */
  function InnerJoin(info: seq<PassengerInfo>, trip: seq<PassengerTrip>): seq<Row> {
    if info == [] then []
    else InnerJoin(info[..|info| - 1], trip) + Matches(info[|info| - 1], trip)
  }

  /** The join as a nested loop over both tables. */
  method NestedLoopJoin(info: seq<PassengerInfo>, trip: seq<PassengerTrip>) returns (joined: seq<Row>)
    ensures joined == InnerJoin(info, trip)
  {
    joined := [];
    var i := 0;
    while i < |info|
      invariant 0 <= i <= |info|
      invariant joined == InnerJoin(info[..i], trip)
    {
      var p := info[i];
      var j := 0;
      while j < |trip|
        invariant 0 <= j <= |trip|
        invariant joined == InnerJoin(info[..i], trip) + Matches(p, trip[..j])
      {
        assert trip[..j + 1][..j] == trip[..j];
        if trip[j].passengerId == p.passengerId {
          joined := joined + [MergeRow(p, trip[j])];
        }
        j := j + 1;
      }
      assert trip[..j] == trip;
      assert info[..i + 1][..i] == info[..i];
      i := i + 1;
    }
    assert info[..i] == info;
  }

  /** Every row of Matches merges p with a trip row of the same identifier. */
  lemma {:induction false} MatchesSound(p: PassengerInfo, trip: seq<PassengerTrip>, r: Row)
    requires r in Matches(p, trip)
    ensures exists j :: 0 <= j < |trip| && trip[j].passengerId == p.passengerId && r == MergeRow(p, trip[j])
  {
    var init := trip[..|trip| - 1];
    if r in Matches(p, init) {
      MatchesSound(p, init, r);
      var j :| 0 <= j < |init| && init[j].passengerId == p.passengerId && r == MergeRow(p, init[j]);
      assert trip[j] == init[j];
    } else {
      assert trip[|trip| - 1].passengerId == p.passengerId && r == MergeRow(p, trip[|trip| - 1]);
    }
  }

  /** Every trip row with the identifier of p yields a row of Matches. */
  lemma {:induction false} MatchesComplete(p: PassengerInfo, trip: seq<PassengerTrip>, j: nat)
    requires j < |trip| && trip[j].passengerId == p.passengerId
    ensures MergeRow(p, trip[j]) in Matches(p, trip)
  {
    var init := trip[..|trip| - 1];
    if j < |init| {
      MatchesComplete(p, init, j);
      assert init[j] == trip[j];
    }
  }

  /** Every joined row merges an information row and a trip row with the same identifier. */
  lemma {:induction false} JoinSound(info: seq<PassengerInfo>, trip: seq<PassengerTrip>, r: Row)
    requires r in InnerJoin(info, trip)
    ensures exists i, j :: 0 <= i < |info| && 0 <= j < |trip| &&
                           info[i].passengerId == trip[j].passengerId && r == MergeRow(info[i], trip[j])
  {
    var init, p := info[..|info| - 1], info[|info| - 1];
    if r in InnerJoin(init, trip) {
      JoinSound(init, trip, r);
      var i, j :| 0 <= i < |init| && 0 <= j < |trip| &&
        init[i].passengerId == trip[j].passengerId && r == MergeRow(init[i], trip[j]);
      assert info[i] == init[i];
    } else {
      MatchesSound(p, trip, r);
      var j :| 0 <= j < |trip| && trip[j].passengerId == p.passengerId && r == MergeRow(p, trip[j]);
      assert info[|info| - 1] == p;
    }
  }

  /** Every pair of rows with the same identifier yields a joined row. */
  lemma {:induction false} JoinComplete(info: seq<PassengerInfo>, trip: seq<PassengerTrip>, i: nat, j: nat)
    requires i < |info| && j < |trip| && info[i].passengerId == trip[j].passengerId
    ensures MergeRow(info[i], trip[j]) in InnerJoin(info, trip)
  {
    var init := info[..|info| - 1];
    if i < |init| {
      JoinComplete(init, trip, i, j);
      assert init[i] == info[i];
    } else {
      MatchesComplete(info[i], trip, j);
    }
  }

  /** A row is in the join exactly when it merges an information row and a trip row with the
      same identifier. */
  lemma JoinMembership(info: seq<PassengerInfo>, trip: seq<PassengerTrip>, r: Row)
    ensures r in InnerJoin(info, trip) <==>
      exists i, j :: 0 <= i < |info| && 0 <= j < |trip| &&
        info[i].passengerId == trip[j].passengerId && r == MergeRow(info[i], trip[j])
  {
    if r in InnerJoin(info, trip) {
      JoinSound(info, trip, r);
    }
    if exists i, j :: 0 <= i < |info| && 0 <= j < |trip| &&
        info[i].passengerId == trip[j].passengerId && r == MergeRow(info[i], trip[j]) {
      var i, j :| 0 <= i < |info| && 0 <= j < |trip| &&
        info[i].passengerId == trip[j].passengerId && r == MergeRow(info[i], trip[j]);
      JoinComplete(info, trip, i, j);
    }
  }

  /** Every joined row carries an identifier that occurs in both inputs. */
  lemma JoinIdsShared(info: seq<PassengerInfo>, trip: seq<PassengerTrip>)
    ensures forall r :: r in InnerJoin(info, trip) ==>
      r.passengerId in InfoIds(info) && r.passengerId in TripIds(trip)
  {
    forall r | r in InnerJoin(info, trip)
      ensures r.passengerId in InfoIds(info) && r.passengerId in TripIds(trip)
    {
      JoinSound(info, trip, r);
      var i, j :| 0 <= i < |info| && 0 <= j < |trip| &&
        info[i].passengerId == trip[j].passengerId && r == MergeRow(info[i], trip[j]);
      assert InfoIds(info)[i] == r.passengerId;
      assert TripIds(trip)[j] == r.passengerId;
    }
  }

  lemma RowIdsAppend(a: seq<Row>, b: seq<Row>)
    ensures RowIds(a + b) == RowIds(a) + RowIds(b)
  {
  }

  lemma {:induction false} MatchesCount(p: PassengerInfo, trip: seq<PassengerTrip>, k: Option<int>)
    ensures Count(RowIds(Matches(p, trip)), k) ==
      if p.passengerId == k then Count(TripIds(trip), k) else 0
  {
    if trip != [] {
      var init := trip[..|trip| - 1];
      var t := trip[|trip| - 1];
      var tail := if t.passengerId == p.passengerId then [MergeRow(p, t)] else [];
      MatchesCount(p, init, k);
      assert Matches(p, trip) == Matches(p, init) + tail;
      RowIdsAppend(Matches(p, init), tail);
      CountAppend(RowIds(Matches(p, init)), RowIds(tail), k);
      assert TripIds(trip)[..|trip| - 1] == TripIds(init);
      if tail != [] {
        assert RowIds(tail)[..0] == [];
      }
    }
  }

  /** Splitting off the last information row splits the key counts of the join. */
  lemma JoinCountSplit(info: seq<PassengerInfo>, trip: seq<PassengerTrip>, k: Option<int>)
    requires info != []
    ensures Count(RowIds(InnerJoin(info, trip)), k) ==
      Count(RowIds(InnerJoin(info[..|info| - 1], trip)), k) + Count(RowIds(Matches(info[|info| - 1], trip)), k)
    ensures Count(InfoIds(info), k) ==
      Count(InfoIds(info[..|info| - 1]), k) + (if info[|info| - 1].passengerId == k then 1 else 0)
  {
    var init := info[..|info| - 1];
    var p := info[|info| - 1];
    assert InnerJoin(info, trip) == InnerJoin(init, trip) + Matches(p, trip);
    RowIdsAppend(InnerJoin(init, trip), Matches(p, trip));
    CountAppend(RowIds(InnerJoin(init, trip)), RowIds(Matches(p, trip)), k);
    assert InfoIds(info)[..|info| - 1] == InfoIds(init);
  }

  /** An identifier occurs in the join as many times as the product of its occurrences in the
      two inputs. */
  lemma {:induction false} JoinCount(info: seq<PassengerInfo>, trip: seq<PassengerTrip>, k: Option<int>)
    ensures Count(RowIds(InnerJoin(info, trip)), k) == Count(InfoIds(info), k) * Count(TripIds(trip), k)
  {
    if info == [] {
      assert InfoIds(info) == [] && RowIds(InnerJoin(info, trip)) == [];
    } else {
      var init := info[..|info| - 1];
      var p := info[|info| - 1];
      JoinCount(init, trip, k);
      MatchesCount(p, trip, k);
      JoinCountSplit(info, trip, k);
      var a, c := Count(InfoIds(init), k), Count(TripIds(trip), k);
      var e := if p.passengerId == k then 1 else 0;
      Distribute(a, e, c);
    }
  }

  lemma Distribute(a: nat, e: nat, c: nat)
    ensures (a + e) * c == a * c + e * c
  {
  }

  /** With unique identifiers in each input, every shared identifier yields exactly one joined
      row and every other identifier none. */
  lemma JoinOnePerSharedId(info: seq<PassengerInfo>, trip: seq<PassengerTrip>, k: Option<int>)
    requires UniqueIds(InfoIds(info)) && UniqueIds(TripIds(trip))
    ensures Count(RowIds(InnerJoin(info, trip)), k) ==
      if k in InfoIds(info) && k in TripIds(trip) then 1 else 0
  {
    JoinCount(info, trip, k);
    CountUnique(InfoIds(info), k);
    CountUnique(TripIds(trip), k);
  }
}
