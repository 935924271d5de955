/** The rows of the two input tables and of the joined working table. Nullable columns are
    Option values; a missing value (NaN) is None. */
module Records {
  import opened Wrappers

  /** A row of the passenger information table. */
  datatype PassengerInfo = PassengerInfo(
    passengerId: Option<int>,
    name: string,
    sex: string,
    age: Option<real>,
    pclass: Option<int>,
    cabin: Option<string>,
    embarked: Option<string>)

  /** A row of the passenger trip table. */
  datatype PassengerTrip = PassengerTrip(
    passengerId: Option<int>,
    fare: real,
    sibSp: int,
    parch: int,
    survived: Option<int>)

  /** A row of the joined table: the columns of both inputs, plus the AgeRange column, which is
      None until it is derived. */
  datatype Row = Row(
    passengerId: Option<int>,
    name: string,
    sex: string,
    age: Option<real>,
    pclass: Option<int>,
    cabin: Option<string>,
    embarked: Option<string>,
    fare: real,
    sibSp: int,
    parch: int,
    survived: Option<int>,
    ageRange: Option<string>)

  /** The identifier column of a table. */
  function InfoIds(info: seq<PassengerInfo>): (ids: seq<Option<int>>)
    ensures |ids| == |info| && forall i :: 0 <= i < |info| ==> ids[i] == info[i].passengerId
  {
    seq(|info|, i requires 0 <= i < |info| => info[i].passengerId)
  }

  function TripIds(trip: seq<PassengerTrip>): (ids: seq<Option<int>>)
    ensures |ids| == |trip| && forall i :: 0 <= i < |trip| ==> ids[i] == trip[i].passengerId
  {
    seq(|trip|, i requires 0 <= i < |trip| => trip[i].passengerId)
  }

  function RowIds(rows: seq<Row>): (ids: seq<Option<int>>)
    ensures |ids| == |rows| && forall i :: 0 <= i < |rows| ==> ids[i] == rows[i].passengerId
  {
    seq(|rows|, i requires 0 <= i < |rows| => rows[i].passengerId)
  }

  /** Number of occurrences of the key k. */
  function Count(keys: seq<Option<int>>, k: Option<int>): (c: nat)
    ensures c <= |keys|
  {
    if keys == [] then 0
    else Count(keys[..|keys| - 1], k) + (if keys[|keys| - 1] == k then 1 else 0)
  }

  lemma {:induction false} CountAppend(a: seq<Option<int>>, b: seq<Option<int>>, k: Option<int>)
    ensures Count(a + b, k) == Count(a, k) + Count(b, k)
  {
    if b != [] {
      assert (a + b)[..|a + b| - 1] == a + b[..|b| - 1];
      CountAppend(a, b[..|b| - 1], k);
    } else {
      assert a + b == a;
    }
  }

  /** No key occurs twice. */
  predicate UniqueIds(keys: seq<Option<int>>) {
    forall i, j :: 0 <= i < j < |keys| ==> keys[i] != keys[j]
  }

  /** In a column of unique keys every key occurs at most once. */
  lemma {:induction false} CountUnique(keys: seq<Option<int>>, k: Option<int>)
    requires UniqueIds(keys)
    ensures Count(keys, k) == if k in keys then 1 else 0
  {
    if keys != [] {
      var init := keys[..|keys| - 1];
      assert UniqueIds(init);
      CountUnique(init, k);
      if keys[|keys| - 1] == k {
        assert k !in init;
      }
    }
  }
}
