/**
 * The analytics API's query engine: a dataset of CSV rows held in memory,
 * the selection both POST handlers apply to it (a day range, an age and a
 * gender), the per-feature totals of `/api/total-time` and the projection of
 * `/api/time-trend`.
 */
module Analytics {
  import opened Wrappers
  import Calendar

  /** The six feature columns `A` to `F`. */
  datatype Feature = A | B | C | D | E | F

  /** The order in which the totals handler visits the features. */
  const Features: seq<Feature> := [A, B, C, D, E, F]

  const AllFeatures: set<Feature> := {A, B, C, D, E, F}

  function Name(feature: Feature): string {
    match feature
    case A => "A"
    case B => "B"
    case C => "C"
    case D => "D"
    case E => "E"
    case F => "F"
  }

  /** The feature column a request names, if it names one of `A` to `F`. */
  function FeatureNamed(name: string): (r: Option<Feature>)
    ensures r.Some? ==> Name(r.value) == name
    ensures forall feature :: Name(feature) == name ==> r == Some(feature)
  {
    if name == "A" then Some(A)
    else if name == "B" then Some(B)
    else if name == "C" then Some(C)
    else if name == "D" then Some(D)
    else if name == "E" then Some(E)
    else if name == "F" then Some(F)
    else None
  }

  /**
   * One CSV row: the `Day` text as read, `Age` and `Gender` labels, and the
   * six feature columns, already read as integers.
   */
  datatype Row = Row(day: string, age: string, gender: string,
                     a: int, b: int, c: int, d: int, e: int, f: int)

  function Value(row: Row, feature: Feature): int {
    match feature
    case A => row.a
    case B => row.b
    case C => row.c
    case D => row.d
    case E => row.e
    case F => row.f
  }

  /**
   * The filter fields of a request body. A bound is `None` when the request's
   * date string makes an Invalid Date.
   */
  datatype Query = Query(start: Option<Calendar.Date>, end: Option<Calendar.Date>,
                         age: string, gender: string)

  /**
   * The selection predicate both handlers use: the row's day parses and lies in
   * `[start, end]`, both ends included, and age and gender are equal to the
   * requested ones, literally (`"all"` is an ordinary label, not a wildcard).
   * Comparisons with an invalid date are false.
   */
  predicate Matches(row: Row, q: Query)
    ensures Matches(row, q) ==> Calendar.ParseDay(row.day).Some? && Calendar.IsValid(Calendar.ParseDay(row.day).value)
    ensures Matches(row, q) ==> q.start.Some? && q.end.Some? && Calendar.OnOrBefore(q.start.value, q.end.value)
    ensures Matches(row, q) ==> row.age == q.age && row.gender == q.gender
  {
    match Calendar.ParseDay(row.day)
    case None => false
    case Some(day) =>
      && q.start.Some? && q.end.Some?
      && Calendar.OnOrBefore(q.start.value, day)
      && Calendar.OnOrBefore(day, q.end.value)
      && row.age == q.age
      && row.gender == q.gender
  }

  /** `dataset.filter(d => Matches(d, q))`. */
  function Select(dataset: seq<Row>, q: Query): (r: seq<Row>)
    ensures |r| <= |dataset|
    ensures forall row :: row in r <==> row in dataset && Matches(row, q)
  {
    if dataset == [] then []
    else
      var last := dataset[|dataset| - 1];
      assert dataset == dataset[..|dataset| - 1] + [last];
      Select(dataset[..|dataset| - 1], q) + (if Matches(last, q) then [last] else [])
  }

  /** The positions of the matching rows in the dataset, in increasing order. */
  function MatchIndices(dataset: seq<Row>, q: Query): (idx: seq<nat>)
    ensures forall k :: 0 <= k < |idx| ==> idx[k] < |dataset|
    ensures forall k, l :: 0 <= k < l < |idx| ==> idx[k] < idx[l]
    ensures forall i :: 0 <= i < |dataset| ==> (i in idx <==> Matches(dataset[i], q))
  {
    if dataset == [] then []
    else
      var n := |dataset| - 1;
      var prefix := MatchIndices(dataset[..n], q);
      assert forall i :: 0 <= i < n ==> dataset[..n][i] == dataset[i];
      prefix + (if Matches(dataset[n], q) then [n] else [])
  }

  /** The selection is the matching rows, one for each matching position, in dataset order. */
  lemma {:induction false} SelectAt(dataset: seq<Row>, q: Query)
    ensures |Select(dataset, q)| == |MatchIndices(dataset, q)|
    ensures forall k :: 0 <= k < |Select(dataset, q)| ==>
              Select(dataset, q)[k] == dataset[MatchIndices(dataset, q)[k]]
  {
    if dataset != [] {
      var n := |dataset| - 1;
      var front := dataset[..n];
      SelectAt(front, q);
      SelectSnoc(dataset, q);
      MatchIndicesSnoc(dataset, q);
      var rows, idx := Select(front, q), MatchIndices(front, q);
      forall k | 0 <= k < |rows|
        ensures rows[k] == dataset[idx[k]]
      {
        assert front[idx[k]] == dataset[idx[k]];
      }
    }
  }

  /** One step of `MatchIndices`: the last position is listed exactly when its row matches. */
  lemma MatchIndicesSnoc(dataset: seq<Row>, q: Query)
    requires dataset != []
    ensures var n := |dataset| - 1;
            MatchIndices(dataset, q) == MatchIndices(dataset[..n], q) + (if Matches(dataset[n], q) then [n] else [])
  {
  }

  /** Selecting from two parts of a dataset selects from each part, in order. */
  lemma {:induction false} SelectConcat(front: seq<Row>, back: seq<Row>, q: Query)
    ensures Select(front + back, q) == Select(front, q) + Select(back, q)
    decreases |back|
  {
    if back != [] {
      var n := |back| - 1;
      var whole := front + back;
      assert whole[..|whole| - 1] == front + back[..n];
      assert whole[|whole| - 1] == back[n];
      SelectConcat(front, back[..n], q);
    } else {
      assert front + back == front;
    }
  }

  /** A range whose start is after its end selects nothing. */
  lemma EmptyRangeSelectsNothing(dataset: seq<Row>, q: Query)
    requires q.start.Some? && q.end.Some?
    requires !Calendar.OnOrBefore(q.start.value, q.end.value)
    ensures Select(dataset, q) == []
  {
  }

  /** The sum of one feature over some rows, added up from the first row on. */
  function SumOf(rows: seq<Row>, feature: Feature): int {
    if rows == [] then 0
    else SumOf(rows[..|rows| - 1], feature) + Value(rows[|rows| - 1], feature)
  }

  /**
   * A reference definition of a feature's total: every row of the dataset
   * adds its value if it matches and nothing otherwise.
   */
  function MatchingSum(dataset: seq<Row>, q: Query, feature: Feature): int {
    if dataset == [] then 0
    else
      var last := dataset[|dataset| - 1];
      MatchingSum(dataset[..|dataset| - 1], q, feature) + (if Matches(last, q) then Value(last, feature) else 0)
  }

  /** Summing over the selection is summing the matching rows of the whole dataset. */
  lemma {:induction false} SumOfSelect(dataset: seq<Row>, q: Query, feature: Feature)
    ensures SumOf(Select(dataset, q), feature) == MatchingSum(dataset, q, feature)
  {
    if dataset != [] {
      var n := |dataset| - 1;
      var front, last := dataset[..n], dataset[n];
      SumOfSelect(front, q, feature);
      SelectSnoc(dataset, q);
      var kept := Matches(last, q);
      assert MatchingSum(dataset, q, feature) == MatchingSum(front, q, feature) + (if kept then Value(last, feature) else 0);
      if kept {
        SumOfSnoc(Select(front, q), last, feature);
      } else {
        assert Select(dataset, q) == Select(front, q);
      }
    }
  }

  /** One step of `Select`: the last row is kept exactly when it matches. */
  lemma SelectSnoc(dataset: seq<Row>, q: Query)
    requires dataset != []
    ensures var n := |dataset| - 1;
            Select(dataset, q) == Select(dataset[..n], q) + (if Matches(dataset[n], q) then [dataset[n]] else [])
  {
  }

  /** One step of `SumOf`: a row appended adds its value. */
  lemma SumOfSnoc(rows: seq<Row>, row: Row, feature: Feature)
    ensures SumOf(rows + [row], feature) == SumOf(rows, feature) + Value(row, feature)
  {
    assert (rows + [row])[..|rows|] == rows;
  }

  /** One entry of the time trend: the row's `Day` text and its value for the feature. */
  datatype TrendPoint = TrendPoint(date: string, value: Option<int>)

  /**
   * The requested feature's value in a row: `None` (JSON `null`) when the
   * feature is not one of the columns `A` to `F`.
   */
  function FeatureValue(row: Row, name: string): Option<int> {
    match FeatureNamed(name)
    case Some(feature) => Some(Value(row, feature))
    case None => None
  }

  /**
   * A time-trend entry: the row's `Day` text as read, and the value of the
   * column the request names, or `null` when it names none of `A` to `F`.
   */
  function Point(row: Row, name: string): (r: TrendPoint)
    ensures r.date == row.day
    ensures forall feature :: Name(feature) == name ==> r.value == Some(Value(row, feature))
    ensures (forall feature :: Name(feature) != name) ==> r.value == None
  {
    TrendPoint(row.day, FeatureValue(row, name))
  }

  lemma EveryFeatureListed(feature: Feature)
    ensures feature in AllFeatures && feature in Features
  {
  }

  /**
   * The `reduce` callback of `/api/total-time`: for each feature in the order
   * `A` to `F`, the entry becomes the previous entry (or 0 when absent) plus
   * the row's value. Afterwards every feature has an entry.
   */
  method AddRow(acc: map<Feature, int>, row: Row) returns (next: map<Feature, int>)
    ensures next.Keys == AllFeatures
    ensures forall feature :: feature in next && next[feature] == (if feature in acc then acc[feature] else 0) + Value(row, feature)
  {
    next := acc;
    var j := 0;
    while j < |Features|
      invariant 0 <= j <= |Features|
      invariant forall k :: 0 <= k < j ==>
                  Features[k] in next && next[Features[k]] == (if Features[k] in acc then acc[Features[k]] else 0) + Value(row, Features[k])
      invariant forall k :: j <= k < |Features| ==>
                  (Features[k] in next <==> Features[k] in acc) && (Features[k] in acc ==> next[Features[k]] == acc[Features[k]])
    {
      var feature := Features[j];
      var before := if feature in next then next[feature] else 0;
      next := next[feature := before + Value(row, feature)];
      j := j + 1;
    }
    forall feature
      ensures feature in next && next[feature] == (if feature in acc then acc[feature] else 0) + Value(row, feature)
    {
      EveryFeatureListed(feature);
      var k :| 0 <= k < |Features| && Features[k] == feature;
    }
  }

  /** The API process: a module-wide dataset that only the CSV loader extends. */
  class AnalyticsApi {
    var dataset: seq<Row>

    constructor ()
      ensures dataset == []
    {
      dataset := [];
    }

    /** The loader's `dataset.push(row)` for each CSV row read. */
    method Load(row: Row)
      modifies this
      ensures dataset == old(dataset) + [row]
    {
      dataset := dataset + [row];
    }

    /**
     * `/api/total-time`: with no matching row the result is the empty object;
     * otherwise it holds exactly the keys `A` to `F`, each the feature's sum
     * over the matching rows. The dataset is only read.
     */
    method TotalTime(q: Query) returns (result: map<Feature, int>)
      ensures result == map[] <==> forall i :: 0 <= i < |dataset| ==> !Matches(dataset[i], q)
      ensures result != map[] ==> result.Keys == AllFeatures
      ensures forall feature :: feature in result ==> result[feature] == MatchingSum(dataset, q, feature)
    {
      var rows := Select(dataset, q);
      var acc: map<Feature, int> := map[];
      var i := 0;
      while i < |rows|
        invariant 0 <= i <= |rows|
        invariant i == 0 ==> acc == map[]
        invariant i > 0 ==> acc.Keys == AllFeatures
        invariant forall feature :: feature in acc ==> acc[feature] == SumOf(rows[..i], feature)
      {
        var next := AddRow(acc, rows[i]);
        forall feature | feature in next
          ensures next[feature] == SumOf(rows[..i + 1], feature)
        {
          assert rows[..i + 1] == rows[..i] + [rows[i]];
          SumOfSnoc(rows[..i], rows[i], feature);
        }
        acc := next;
        i := i + 1;
      }
      assert rows[..|rows|] == rows;
      forall feature | feature in acc
        ensures acc[feature] == MatchingSum(dataset, q, feature)
      {
        SumOfSelect(dataset, q, feature);
      }
      if rows != [] {
        assert rows[0] in rows;
      }
      result := acc;
    }

    /**
     * `/api/time-trend`: one entry per matching row, in dataset order, with the
     * row's `Day` text unchanged and its value for the requested feature.
     * Rows of the same day are not merged; nothing is sorted.
     */
    method TimeTrend(q: Query, feature: string) returns (result: seq<TrendPoint>)
      ensures |result| == |MatchIndices(dataset, q)|
      ensures forall k :: 0 <= k < |result| ==>
                result[k] == Point(dataset[MatchIndices(dataset, q)[k]], feature)
    {
      var rows := Select(dataset, q);
      result := seq(|rows|, k requires 0 <= k < |rows| => Point(rows[k], feature));
      SelectAt(dataset, q);
    }
  }
}
