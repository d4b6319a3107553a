/** DensityClustering is a batch classifier over numeric coordinates. Training
    first removes density outliers from the caller's list: an instance goes
    when too small a share of the other instances with its label lie within
    the maximum distance of it. It then keeps one centroid per class value,
    the mean of the coordinates of the remaining instances with that label.
    Classification answers the label of the nearest centroid. The
    coordinates are the first size-1 positions of an instance. The two
    distance formulas, haversine for two coordinates and Euclidean otherwise,
    are parameters. */
module DensityClustering {
  import opened Doubles
  import opened Errors
  import opened Values
  import opened Features
  import opened Signatures
  import Instances

  type Metric = (seq<Double>, seq<Double>) -> Double

  /** The two floating-point formulas `distance` chooses between. */
  datatype Metrics = Metrics(haversine: Metric, euclid: Metric)

  /** The parts of the classifier that training and classification read. */
  datatype Setup = Setup(schema: Schema, maxDistance: Double, minInclusionPct: Double)

  /** `distance`: vectors of different lengths are refused; two coordinates
      are taken as latitude and longitude, any other length as a point in
      Euclidean space. */
  function Distance(a: seq<Double>, b: seq<Double>, m: Metrics): (r: Result<Double>)
    ensures r.Err? <==> |a| != |b|
    ensures r.Err? ==> r.error == IncompatibleInstance
    ensures r.Ok? && |a| == 2 ==> r.value == m.haversine(a, b)
    ensures r.Ok? && |a| != 2 ==> r.value == m.euclid(a, b)
  {
    if |a| != |b| then Err(IncompatibleInstance)
    else if |a| == 2 then Ok(m.haversine(a, b))
    else Ok(m.euclid(a, b))
  }

  /** The constructor does not throw: the class feature exists and has a
      category list. */
  predicate Buildable(s: Schema)
  {
    ClassIndexOk(s) && ClassFeature(s).categories.Some?
  }

  /** The number of coordinates, `d_signature.size() - 1`. */
  function Dims(s: Schema): nat
    requires ClassIndexOk(s)
  {
    |s.features| - 1
  }

  /** The class values without repetitions, in declared order: the keys of
      the centroid map, in the order the loops visit them. */
  function Dedup(cats: seq<string>): (r: seq<string>)
    ensures forall c :: c in r <==> c in cats
    ensures Distinct(r)
    decreases |cats|
  {
    if cats == [] then []
    else
      var init := cats[..|cats| - 1];
      var c := cats[|cats| - 1];
      assert cats == init + [c];
      var d := Dedup(init);
      if c in d then d else d + [c]
  }

  /** `(String) value.getValue()`: a Double fails the cast, and null passes
      as a null label. */
  function LabelOf(p: Payload): (r: Result<Option<string>>)
    ensures r.Err? <==> p.Number?
    ensures r.Err? ==> r.error == ClassCast
    ensures p.Text? ==> r == Ok(Some(p.s))
    ensures p.Null? ==> r == Ok(None)
  {
    match p
    case Text(s) => Ok(Some(s))
    case Null => Ok(None)
    case Number(_) => Err(ClassCast)
  }

  /** The first n positions read as doubles, each `(Double) getValue()`
      unboxed. */
  function Coords(row: seq<Value>, n: nat): (r: Result<seq<Double>>)
    ensures r.Ok? <==> n <= |row| && forall i :: 0 <= i < n ==> row[i].payload.Number?
    ensures r.Ok? ==> |r.value| == n && forall i :: 0 <= i < n ==> r.value[i] == row[i].payload.d
    decreases n
  {
    if n == 0 then Ok([])
    else match Coords(row, n - 1)
      case Err(e) => Err(e)
      case Ok(v) =>
        if n - 1 >= |row| then Err(IndexOutOfBounds)
        else match NumberOf(row[n - 1].payload)
          case Err(e) => Err(e)
          case Ok(d) => Ok(v + [d])
  }

  /** Row j is a peer of the current instance: it carries the same label. */
  predicate SameLabel(row: seq<Value>, ci: nat, key: Option<string>)
  {
    key.Some? && ci < |row| && row[ci].payload == Text(key.value)
  }

  /** The inner loop of the outlier filter over the positions below k of
      the current list: every position but the current one (i) must comply
      and carry a String label; a peer counts towards the total, and towards
      the inside count when it is nearer than the maximum distance. The
      result is (total, inside). */
  function Neighbours(u: Setup, m: Metrics, rows: seq<seq<Value>>, i: nat, key: Option<string>,
                      coords: seq<Double>, k: nat): (r: Result<(nat, nat)>)
    requires ClassIndexOk(u.schema) && k <= |rows|
    ensures r.Ok? ==> r.value.1 <= r.value.0 <= k
    decreases k
  {
    if k == 0 then Ok((0, 0))
    else match Neighbours(u, m, rows, i, key, coords, k - 1)
      case Err(e) => Err(e)
      case Ok(counts) =>
        if k - 1 == i then Ok(counts)
        else Neighbour(u, m, rows[k - 1], key, coords, counts)
  }

  /** One other instance of the inner loop: it must comply and carry a
      String label; a peer adds one to the total, and one to the inside
      count when it is nearer than the maximum distance. */
  function Neighbour(u: Setup, m: Metrics, other: seq<Value>, key: Option<string>, coords: seq<Double>,
                     counts: (nat, nat)): (r: Result<(nat, nat)>)
    requires ClassIndexOk(u.schema)
    ensures r.Ok? ==> r.value.0 == counts.0 + (if SameLabel(other, u.schema.classIndex, key) then 1 else 0)
    ensures r.Ok? ==> r.value.1 == counts.1 + (if SameLabel(other, u.schema.classIndex, key) && Near(u, m, other, coords)
                                               then 1 else 0)
    ensures !Complies(u.schema.features, other, true) ==> r == Err(IncompatibleInstance)
  {
    if !Complies(u.schema.features, other, true) then Err(IncompatibleInstance)
    else match LabelOf(other[u.schema.classIndex].payload)
      case Err(e) => Err(e)
      case Ok(ol) =>
        if ol.None? then Err(NullPointer)
        else if key != ol then Ok(counts)
        else match Coords(other, Dims(u.schema))
          case Err(e) => Err(e)
          case Ok(oc) =>
            match Distance(coords, oc, m)
            case Err(e) => Err(e)
            case Ok(d) => Ok((counts.0 + 1, counts.1 + if Less(d, u.maxDistance) then 1 else 0))
  }

  /** Another instance lies inside the maximum distance of the current one:
      its coordinates read as doubles and their distance is below the
      maximum. */
  predicate Near(u: Setup, m: Metrics, other: seq<Value>, coords: seq<Double>)
    requires ClassIndexOk(u.schema)
  {
    var oc := Coords(other, Dims(u.schema));
    oc.Ok? && Distance(coords, oc.value, m).Ok? && Less(Distance(coords, oc.value, m).value, u.maxDistance)
  }

  /** The removal test: some peer exists and the share of peers inside the
      maximum distance is below the minimum inclusion percentage. */
  predicate Outlier(u: Setup, total: nat, inside: nat)
  {
    total > 0 && Less(Fin(inside as real / total as real), Div(u.minInclusionPct, 100.0))
  }

  /** The verdict on the instance at position i of the current list: it
      must comply and carry a String label, and the inner loop must not
      throw; then whether it is an outlier. */
  function Judge(u: Setup, m: Metrics, rows: seq<seq<Value>>, i: nat): (r: Result<bool>)
    requires ClassIndexOk(u.schema) && i < |rows|
  {
    var cur := rows[i];
    if !Complies(u.schema.features, cur, true) then Err(IncompatibleInstance)
    else match LabelOf(cur[u.schema.classIndex].payload)
      case Err(e) => Err(e)
      case Ok(key) =>
        match Coords(cur, Dims(u.schema))
        case Err(e) => Err(e)
        case Ok(coords) =>
          match Neighbours(u, m, rows, i, key, coords, |rows|)
          case Err(e) => Err(e)
          case Ok(counts) => Ok(Outlier(u, counts.0, counts.1))
  }

  /** The outlier filter with the list at kept + rest and the iterator
      before rest[0]: the result and the list afterwards. A removal shrinks
      the list the later counts see. */
  function FilterFrom(u: Setup, m: Metrics, kept: seq<seq<Value>>, rest: seq<seq<Value>>): (r: (Outcome, seq<seq<Value>>))
    requires ClassIndexOk(u.schema)
    decreases |rest|
  {
    if rest == [] then (Pass, kept)
    else
      var rows := kept + rest;
      match Judge(u, m, rows, |kept|)
      case Err(e) => (Fail(e), rows)
      case Ok(outlier) =>
        if outlier then FilterFrom(u, m, kept, rest[1..])
        else FilterFrom(u, m, kept + [rest[0]], rest[1..])
  }

  /** Every centroid has n coordinates. */
  predicate Shaped(cents: map<string, seq<Double>>, n: nat)
  {
    forall c :: c in cents ==> |cents[c]| == n
  }

  /** `centroidCoords[i] += (Double) getValue()` for i below n: the array
      is updated in place, so a failing cast leaves the earlier additions. */
  function AddCoords(cent: seq<Double>, row: seq<Value>, n: nat): (r: (Outcome, seq<Double>))
    requires n <= |cent|
    ensures |r.1| == |cent|
    decreases n
  {
    if n == 0 then (Pass, cent)
    else
      var (o, v) := AddCoords(cent, row, n - 1);
      if o.Fail? then (o, v)
      else if n - 1 >= |row| then (Fail(IndexOutOfBounds), v)
      else match NumberOf(row[n - 1].payload)
        case Err(e) => (Fail(e), v)
        case Ok(d) => (Pass, v[n - 1 := Add(v[n - 1], d)])
  }

  /** What AddCoords computes: it passes iff the first n values exist and
      are numbers, and then coordinate i < n has the i-th value added while
      the rest stay; on a failure, the coordinates before the first bad
      position are already added. */
  lemma {:induction false} AddCoordsMeaning(cent: seq<Double>, row: seq<Value>, n: nat)
    requires n <= |cent|
    ensures var r := AddCoords(cent, row, n);
            r.0 == Pass <==> (n <= |row| && forall i :: 0 <= i < n ==> row[i].payload.Number?)
    ensures var r := AddCoords(cent, row, n);
            r.0 == Pass ==>
              forall i :: 0 <= i < |cent| ==> r.1[i] == if i < n then Add(cent[i], row[i].payload.d) else cent[i]
    decreases n
  {
    if n > 0 {
      AddCoordsMeaning(cent, row, n - 1);
    }
  }

  /** One turn of the accumulation loop: the coordinates of the row go
      into the centroid of its label and that label's count grows by one. A
      label that is null or not a class value finds no centroid and throws. */
  function AccumulateRow(cents: map<string, seq<Double>>, trains: map<string, int>, row: seq<Value>,
                         ci: nat, n: nat): (r: (Outcome, map<string, seq<Double>>, map<string, int>))
    requires Shaped(cents, n)
    ensures Shaped(r.1, n) && r.1.Keys == cents.Keys && r.2.Keys == trains.Keys
  {
    if ci >= |row| then (Fail(IndexOutOfBounds), cents, trains)
    else match LabelOf(row[ci].payload)
      case Err(e) => (Fail(e), cents, trains)
      case Ok(key) =>
        if key.None? || key.value !in cents then (Fail(NullPointer), cents, trains)
        else
          var x := key.value;
          var (ro, v) := AddCoords(cents[x], row, n);
          if ro.Fail? then (ro, cents[x := v], trains)
          else if x !in trains then (Fail(NullPointer), cents[x := v], trains)
          else (Pass, cents[x := v], trains[x := trains[x] + 1])
  }

  /** The accumulation loop over the filtered rows, stopping at the first
      exception. */
  function Accumulated(cents: map<string, seq<Double>>, trains: map<string, int>, rows: seq<seq<Value>>,
                       ci: nat, n: nat): (r: (Outcome, map<string, seq<Double>>, map<string, int>))
    requires Shaped(cents, n)
    ensures Shaped(r.1, n) && r.1.Keys == cents.Keys && r.2.Keys == trains.Keys
    decreases |rows|
  {
    if rows == [] then (Pass, cents, trains)
    else
      var (o, c1, t1) := Accumulated(cents, trains, rows[..|rows| - 1], ci, n);
      if o.Fail? then (o, c1, t1)
      else AccumulateRow(c1, t1, rows[|rows| - 1], ci, n)
  }

  /** Every coordinate divided by k. */
  function DivAll(v: seq<Double>, k: int): (r: seq<Double>)
    requires k > 0
    ensures |r| == |v|
  {
    seq(|v|, i requires 0 <= i < |v| => Div(v[i], k as real))
  }

  /** The division loop: a centroid with a positive count is divided by it,
      one with count 0 keeps its coordinates. */
  function Averaged(cents: map<string, seq<Double>>, trains: map<string, int>): (r: map<string, seq<Double>>)
    requires cents.Keys <= trains.Keys
    ensures r.Keys == cents.Keys
    ensures forall c :: c in r ==> r[c] == Mean(cents[c], trains[c])
  {
    map c | c in cents :: Mean(cents[c], trains[c])
  }

  /** One centroid after the division loop. */
  function Mean(cent: seq<Double>, count: int): (r: seq<Double>)
    ensures |r| == |cent|
    ensures count <= 0 ==> r == cent
  {
    if count > 0 then DivAll(cent, count) else cent
  }

  /** `train`: filter, accumulate, divide. Each phase starts only when the
      one before did not throw; the counts are never reset. The result, the
      caller's list, the centroids and the counts afterwards. */
  function Trained(u: Setup, m: Metrics, cents: map<string, seq<Double>>, trains: map<string, int>,
                   rows: seq<seq<Value>>): (r: (Outcome, seq<seq<Value>>, map<string, seq<Double>>, map<string, int>))
    requires ClassIndexOk(u.schema) && Shaped(cents, Dims(u.schema)) && cents.Keys == trains.Keys
  {
    var (fo, kept) := FilterFrom(u, m, [], rows);
    if fo.Fail? then (fo, kept, cents, trains)
    else
      var (ao, c1, t1) := Accumulated(cents, trains, kept, u.schema.classIndex, Dims(u.schema));
      if ao.Fail? then (ao, kept, c1, t1)
      else (Pass, kept, Averaged(c1, t1), t1)
  }

  /** How far the centroid of c is: the distance, or `Double.MAX_VALUE`
      when `distance` throws (the exception is caught). */
  function Reach(cents: map<string, seq<Double>>, c: string, cur: seq<Double>, m: Metrics): Double
    requires c in cents
  {
    match Distance(cur, cents[c], m)
    case Ok(d) => d
    case Err(_) => MAX_VALUE
  }

  /** The nearest-centroid loop over the first k labels, starting from the
      first class value at distance `Double.MAX_VALUE`; a label replaces the
      current one only when strictly nearer. */
  function Nearest(labels: seq<string>, cents: map<string, seq<Double>>, cur: seq<Double>, m: Metrics,
                   first: string, k: nat): (r: (string, Double))
    requires k <= |labels| && forall j :: 0 <= j < |labels| ==> labels[j] in cents
    decreases k
  {
    if k == 0 then (first, MAX_VALUE)
    else
      var (lab, best) := Nearest(labels, cents, cur, m, first, k - 1);
      var d := Reach(cents, labels[k - 1], cur, m);
      if Less(d, best) then (labels[k - 1], d) else (lab, best)
  }

  /** `classify`: an instance without the class value passes the gate, the
      default answer is the first class value, then the nearest centroid. */
  function Classification(u: Setup, labels: seq<string>, cents: map<string, seq<Double>>, row: seq<Value>,
                          m: Metrics): (r: Result<Value>)
    requires Buildable(u.schema) && forall j :: 0 <= j < |labels| ==> labels[j] in cents
  {
    if !Complies(u.schema.features, row, false) then Err(IncompatibleInstance)
    else match CategoryOfIndex(ClassFeature(u.schema), 0)
      case Err(e) => Err(e)
      case Ok(first) =>
        match Coords(row, Dims(u.schema))
        case Err(e) => Err(e)
        case Ok(cur) => Ok(NewValue(Text(Nearest(labels, cents, cur, m, first, |labels|).0), NOMINAL_VALUE))
  }

  // ---------------------------------------------------------------------
  // Early exits of the loops: once a fold has thrown, later prefixes give
  // the same result.

  lemma {:induction false} CoordsStop(row: seq<Value>, k: nat, n: nat)
    requires k <= n && Coords(row, k).Err?
    ensures Coords(row, n) == Coords(row, k)
    decreases n
  {
    if k < n {
      CoordsStop(row, k, n - 1);
    }
  }

  lemma {:induction false} NeighboursStop(u: Setup, m: Metrics, rows: seq<seq<Value>>, i: nat, key: Option<string>,
                                          coords: seq<Double>, k: nat, n: nat)
    requires ClassIndexOk(u.schema) && k <= n <= |rows|
    requires Neighbours(u, m, rows, i, key, coords, k).Err?
    ensures Neighbours(u, m, rows, i, key, coords, n) == Neighbours(u, m, rows, i, key, coords, k)
    decreases n
  {
    if k < n {
      NeighboursStop(u, m, rows, i, key, coords, k, n - 1);
    }
  }

  lemma {:induction false} AddCoordsStop(cent: seq<Double>, row: seq<Value>, k: nat, n: nat)
    requires k <= n <= |cent| && AddCoords(cent, row, k).0.Fail?
    ensures AddCoords(cent, row, n) == AddCoords(cent, row, k)
    decreases n
  {
    if k < n {
      AddCoordsStop(cent, row, k, n - 1);
    }
  }

  lemma {:induction false} AccumulatedStop(cents: map<string, seq<Double>>, trains: map<string, int>,
                                           rows: seq<seq<Value>>, ci: nat, n: nat, k: nat)
    requires Shaped(cents, n) && k <= |rows|
    requires Accumulated(cents, trains, rows[..k], ci, n).0.Fail?
    ensures Accumulated(cents, trains, rows, ci, n) == Accumulated(cents, trains, rows[..k], ci, n)
    decreases |rows|
  {
    if k < |rows| {
      var init := rows[..|rows| - 1];
      assert init[..k] == rows[..k];
      AccumulatedStop(cents, trains, init, ci, n, k);
    } else {
      assert rows[..k] == rows;
    }
  }

  lemma AccumulatedStep(cents: map<string, seq<Double>>, trains: map<string, int>,
                        rows: seq<seq<Value>>, ci: nat, n: nat, k: nat)
    requires Shaped(cents, n) && k < |rows|
    ensures var (o, c1, t1) := Accumulated(cents, trains, rows[..k], ci, n);
            Accumulated(cents, trains, rows[..k + 1], ci, n)
            == if o.Fail? then (o, c1, t1) else AccumulateRow(c1, t1, rows[k], ci, n)
  {
    assert rows[..k + 1][..k] == rows[..k];
  }

  lemma FilterDone(u: Setup, m: Metrics, kept: seq<seq<Value>>)
    requires ClassIndexOk(u.schema)
    ensures FilterFrom(u, m, kept, []) == (Pass, kept)
  {
  }

  lemma FilterStep(u: Setup, m: Metrics, kept: seq<seq<Value>>, rest: seq<seq<Value>>)
    requires ClassIndexOk(u.schema) && rest != []
    ensures var j := Judge(u, m, kept + rest, |kept|);
            FilterFrom(u, m, kept, rest)
            == if j.Err? then (Fail(j.error), kept + rest)
               else if j.value then FilterFrom(u, m, kept, rest[1..])
               else FilterFrom(u, m, kept + [rest[0]], rest[1..])
  {
  }

  // ---------------------------------------------------------------------
  // The outlier filter.

  /** The positions other than i, below k, that satisfy p. */
  ghost function Below(k: nat, i: nat, p: nat -> bool): set<nat>
  {
    set j: nat | j < k && j != i && p(j)
  }

  /** Scanning one more position adds it exactly when it is not i and satisfies p. */
  lemma BelowStep(k: nat, i: nat, p: nat -> bool)
    requires k > 0
    ensures |Below(k, i, p)| == |Below(k - 1, i, p)| + (if k - 1 != i && p(k - 1) then 1 else 0)
  {
    var j := k - 1;
    var before := Below(j, i, p);
    var after := Below(k, i, p);
    var added: set<nat> := if j != i && p(j) then {j} else {};
    assert after == before + added by {
      forall x: nat ensures x in after <==> x in before + added {
      }
    }
    assert before * added == {} by {
      forall x: nat | x in added ensures x !in before {
      }
    }
  }

  /** The positions other than i, below k, that hold a peer. */
  ghost function Peers(rows: seq<seq<Value>>, i: nat, ci: nat, key: Option<string>, k: nat): set<nat>
    requires k <= |rows|
  {
    Below(k, i, (j: nat) => j < |rows| && SameLabel(rows[j], ci, key))
  }

  /** Position j holds a peer inside the maximum distance. */
  ghost predicate InsidePeer(u: Setup, m: Metrics, rows: seq<seq<Value>>, key: Option<string>, coords: seq<Double>, j: nat)
    requires ClassIndexOk(u.schema) && j < |rows|
  {
    SameLabel(rows[j], u.schema.classIndex, key) && Near(u, m, rows[j], coords)
  }

  /** The peers below k that lie inside the maximum distance. */
  ghost function Inside(u: Setup, m: Metrics, rows: seq<seq<Value>>, i: nat, key: Option<string>,
                        coords: seq<Double>, k: nat): set<nat>
    requires ClassIndexOk(u.schema) && k <= |rows|
  {
    Below(k, i, (j: nat) => j < |rows| && InsidePeer(u, m, rows, key, coords, j))
  }

  /** The total the inner loop reaches is the number of peers of the
      current instance, and the inside count the number of those inside
      the maximum distance. */
  lemma {:induction false} NeighboursCount(u: Setup, m: Metrics, rows: seq<seq<Value>>, i: nat, key: Option<string>,
                                           coords: seq<Double>, k: nat)
    requires ClassIndexOk(u.schema) && k <= |rows|
    ensures var r := Neighbours(u, m, rows, i, key, coords, k);
            r.Ok? ==> r.value.0 == |Peers(rows, i, u.schema.classIndex, key, k)|
                      && r.value.1 == |Inside(u, m, rows, i, key, coords, k)|
    decreases k
  {
    var ci := u.schema.classIndex;
    if k > 0 {
      NeighboursCount(u, m, rows, i, key, coords, k - 1);
      var r := Neighbours(u, m, rows, i, key, coords, k);
      if r.Ok? {
        PeersStep(rows, i, ci, key, k);
        InsideStep(u, m, rows, i, key, coords, k);
      }
    }
  }

  /** Widening the scan by one position adds that position to the peers
      exactly when it is another instance with the same label. */
  lemma PeersStep(rows: seq<seq<Value>>, i: nat, ci: nat, key: Option<string>, k: nat)
    requires 0 < k <= |rows|
    ensures |Peers(rows, i, ci, key, k)|
            == |Peers(rows, i, ci, key, k - 1)| + (if k - 1 != i && SameLabel(rows[k - 1], ci, key) then 1 else 0)
  {
    BelowStep(k, i, (j: nat) => j < |rows| && SameLabel(rows[j], ci, key));
  }

  /** Widening the scan by one position adds that position to the inside
      peers exactly when it is a peer within the maximum distance. */
  lemma InsideStep(u: Setup, m: Metrics, rows: seq<seq<Value>>, i: nat, key: Option<string>, coords: seq<Double>, k: nat)
    requires ClassIndexOk(u.schema) && 0 < k <= |rows|
    ensures |Inside(u, m, rows, i, key, coords, k)|
            == |Inside(u, m, rows, i, key, coords, k - 1)|
               + (if k - 1 != i && InsidePeer(u, m, rows, key, coords, k - 1) then 1 else 0)
  {
    BelowStep(k, i, (j: nat) => j < |rows| && InsidePeer(u, m, rows, key, coords, j));
  }

  /** A proper subset is strictly smaller. */
  lemma ProperSubsetSmaller(a: set<nat>, b: set<nat>)
    requires a <= b
    ensures |a| == |b| <==> a == b
  {
    if a != b {
      var x :| x in b && x !in a;
      assert b == a + (b - a);
      assert x in b - a;
    }
  }

  /** With a minimum inclusion of 100% the removal test is: some peer,
      and fewer inside than peers. */
  lemma OutlierAtFull(u: Setup, total: nat, inside: nat)
    requires u.minInclusionPct == Fin(100.0)
    ensures Outlier(u, total, inside) <==> total > 0 && inside < total
  {
  }

  /** The inside peers are peers. */
  lemma InsidePeers(u: Setup, m: Metrics, rows: seq<seq<Value>>, i: nat, key: Option<string>, coords: seq<Double>, k: nat)
    requires ClassIndexOk(u.schema) && k <= |rows|
    ensures Inside(u, m, rows, i, key, coords, k) <= Peers(rows, i, u.schema.classIndex, key, k)
  {
  }

  /** With a minimum inclusion of 100%, an instance is removed exactly when
      it has a peer and some peer lies outside the maximum distance. */
  lemma FullInclusionVerdict(u: Setup, m: Metrics, rows: seq<seq<Value>>, i: nat, b: bool)
    requires ClassIndexOk(u.schema) && i < |rows| && u.minInclusionPct == Fin(100.0)
    requires Judge(u, m, rows, i) == Ok(b)
    ensures |rows[i]| == |u.schema.features|
    ensures var ci := u.schema.classIndex;
            var key := LabelOf(rows[i][ci].payload);
            var coords := Coords(rows[i], Dims(u.schema));
            key.Ok? && coords.Ok? &&
            (b <==> Peers(rows, i, ci, key.value, |rows|) != {}
                    && Inside(u, m, rows, i, key.value, coords.value, |rows|) != Peers(rows, i, ci, key.value, |rows|))
  {
    var ci := u.schema.classIndex;
    var key := LabelOf(rows[i][ci].payload).value;
    var coords := Coords(rows[i], Dims(u.schema)).value;
    var counts := Neighbours(u, m, rows, i, key, coords, |rows|).value;
    assert b == Outlier(u, counts.0, counts.1);
    NeighboursCount(u, m, rows, i, key, coords, |rows|);
    InsidePeers(u, m, rows, i, key, coords, |rows|);
    ProperSubsetSmaller(Inside(u, m, rows, i, key, coords, |rows|), Peers(rows, i, ci, key, |rows|));
    OutlierAtFull(u, counts.0, counts.1);
  }

  /** Any other position that does not comply makes the inner loop throw. */
  lemma {:induction false} NeighboursRejects(u: Setup, m: Metrics, rows: seq<seq<Value>>, i: nat, key: Option<string>,
                                             coords: seq<Double>, k: nat)
    requires ClassIndexOk(u.schema) && k <= |rows|
    ensures (exists j :: 0 <= j < k && j != i && !Complies(u.schema.features, rows[j], true))
            ==> Neighbours(u, m, rows, i, key, coords, k).Err?
    decreases k
  {
    if k > 0 && exists j :: 0 <= j < k && j != i && !Complies(u.schema.features, rows[j], true) {
      if k - 1 == i || Complies(u.schema.features, rows[k - 1], true) {
        var j :| 0 <= j < k && j != i && !Complies(u.schema.features, rows[j], true);
        assert j < k - 1;
        NeighboursRejects(u, m, rows, i, key, coords, k - 1);
      }
    }
  }

  /** A training list holding any non-compliant instance makes the filter
      throw. */
  lemma FilterRejects(u: Setup, m: Metrics, kept: seq<seq<Value>>, rest: seq<seq<Value>>)
    requires ClassIndexOk(u.schema) && rest != []
    requires exists j :: 0 <= j < |kept + rest| && !Complies(u.schema.features, (kept + rest)[j], true)
    ensures FilterFrom(u, m, kept, rest).0.Fail?
  {
    var rows := kept + rest;
    var cur := rows[|kept|];
    if Complies(u.schema.features, cur, true) {
      var key := LabelOf(cur[u.schema.classIndex].payload);
      var coords := Coords(cur, Dims(u.schema));
      if key.Ok? && coords.Ok? {
        NeighboursRejects(u, m, rows, |kept|, key.value, coords.value, |rows|);
      }
    }
    assert Judge(u, m, rows, |kept|).Err?;
  }

  /** The elements of s whose flag in keep is set, in order. */
  function Select(s: seq<seq<Value>>, keep: seq<bool>): (r: seq<seq<Value>>)
    requires |keep| == |s|
    ensures |r| <= |s|
    decreases |s|
  {
    if s == [] then []
    else (if keep[0] then [s[0]] else []) + Select(s[1..], keep[1..])
  }

  lemma {:induction false} SelectAll(s: seq<seq<Value>>)
    ensures Select(s, seq(|s|, _ => true)) == s
    decreases |s|
  {
    if s != [] {
      assert seq(|s|, _ => true)[1..] == seq(|s| - 1, _ => true);
      SelectAll(s[1..]);
    }
  }

  lemma SelectCons(cur: seq<Value>, tail: seq<seq<Value>>, b: bool, keep: seq<bool>)
    requires |keep| == |tail|
    ensures Select([cur] + tail, [b] + keep) == (if b then [cur] else []) + Select(tail, keep)
  {
  }

  /** Which rows of `rest` the filter keeps: false for an outlier; after an
      exception every row stays. */
  ghost function KeepMask(u: Setup, m: Metrics, kept: seq<seq<Value>>, rest: seq<seq<Value>>): (keep: seq<bool>)
    requires ClassIndexOk(u.schema)
    ensures |keep| == |rest|
    decreases |rest|
  {
    if rest == [] then []
    else
      var j := Judge(u, m, kept + rest, |kept|);
      if j.Err? then seq(|rest|, _ => true)
      else if j.value then [false] + KeepMask(u, m, kept, rest[1..])
      else [true] + KeepMask(u, m, kept + [rest[0]], rest[1..])
  }

  lemma {:induction false} FilterMask(u: Setup, m: Metrics, kept: seq<seq<Value>>, rest: seq<seq<Value>>)
    requires ClassIndexOk(u.schema)
    ensures FilterFrom(u, m, kept, rest).1 == kept + Select(rest, KeepMask(u, m, kept, rest))
    decreases |rest|
  {
    if rest == [] {
      return;
    }
    var j := Judge(u, m, kept + rest, |kept|);
    FilterStep(u, m, kept, rest);
    KeepMaskStep(u, m, kept, rest);
    if j.Err? {
      SelectAll(rest);
    } else if j.value {
      FilterMask(u, m, kept, rest[1..]);
      SelectShift(kept, rest, false, KeepMask(u, m, kept, rest[1..]), FilterFrom(u, m, kept, rest).1);
    } else {
      FilterMask(u, m, kept + [rest[0]], rest[1..]);
      SelectShift(kept, rest, true, KeepMask(u, m, kept + [rest[0]], rest[1..]), FilterFrom(u, m, kept, rest).1);
    }
  }

  /** One step of KeepMask. */
  lemma KeepMaskStep(u: Setup, m: Metrics, kept: seq<seq<Value>>, rest: seq<seq<Value>>)
    requires ClassIndexOk(u.schema) && rest != []
    ensures var j := Judge(u, m, kept + rest, |kept|);
            KeepMask(u, m, kept, rest)
            == if j.Err? then seq(|rest|, _ => true)
               else if j.value then [false] + KeepMask(u, m, kept, rest[1..])
               else [true] + KeepMask(u, m, kept + [rest[0]], rest[1..])
  {
  }

  /** Moving the first row of rest behind kept (or dropping it) is selecting
      it with flag b. */
  lemma SelectShift(kept: seq<seq<Value>>, rest: seq<seq<Value>>, b: bool, k: seq<bool>, res: seq<seq<Value>>)
    requires rest != [] && |k| == |rest| - 1
    requires res == (if b then kept + [rest[0]] else kept) + Select(rest[1..], k)
    ensures res == kept + Select(rest, [b] + k)
  {
    var h: seq<seq<Value>> := if b then [rest[0]] else [];
    assert (if b then kept + [rest[0]] else kept) == kept + h;
    ConcatShift(kept, h, Select(rest[1..], k), res);
    SelectUnfold(rest, b, k);
  }

  lemma ConcatShift(kept: seq<seq<Value>>, h: seq<seq<Value>>, sel: seq<seq<Value>>, res: seq<seq<Value>>)
    requires res == (kept + h) + sel
    ensures res == kept + (h + sel)
  {
  }

  /** The two ways one turn of the filter loop moves past the current row:
      removing it, or keeping it. */
  lemma ShiftRows(kept: seq<seq<Value>>, rest: seq<seq<Value>>, rows: seq<seq<Value>>)
    requires rows == kept + rest && rest != []
    ensures rows[|kept|] == rest[0]
    ensures kept + rest[1..] == rows[..|kept|] + rows[|kept| + 1..]
    ensures (kept + [rest[0]]) + rest[1..] == rows
  {
  }

  /** One step of Select with the flag b in front. */
  lemma SelectUnfold(rest: seq<seq<Value>>, b: bool, k: seq<bool>)
    requires rest != [] && |k| == |rest| - 1
    ensures Select(rest, [b] + k) == (if b then [rest[0]] else []) + Select(rest[1..], k)
  {
  }

  /** The filter only removes: the list afterwards is the kept part followed
      by an order-preserving selection of the rest. */
  lemma FilterSubsequence(u: Setup, m: Metrics, kept: seq<seq<Value>>, rest: seq<seq<Value>>)
    requires ClassIndexOk(u.schema)
    ensures exists keep: seq<bool> :: |keep| == |rest| && FilterFrom(u, m, kept, rest).1 == kept + Select(rest, keep)
  {
    FilterMask(u, m, kept, rest);
  }

  /** With a minimum inclusion percentage that is not positive (or NaN) no
      share can fall below it, so nothing is removed. */
  lemma {:induction false} FilterNoThreshold(u: Setup, m: Metrics, kept: seq<seq<Value>>, rest: seq<seq<Value>>)
    requires ClassIndexOk(u.schema)
    requires !(u.minInclusionPct.Fin? && u.minInclusionPct.v > 0.0)
    ensures FilterFrom(u, m, kept, rest).1 == kept + rest
    decreases |rest|
  {
    if rest != [] {
      var cur := rest[0];
      assert kept + rest == (kept + [cur]) + rest[1..];
      forall total: nat, inside: nat ensures !Outlier(u, total, inside) {
        if total > 0 && u.minInclusionPct.Fin? {
          assert inside as real / total as real >= 0.0;
        }
      }
      FilterNoThreshold(u, m, kept + [cur], rest[1..]);
    }
  }

  // ---------------------------------------------------------------------
  // Centroids.

  /** The coordinates of the rows labelled c, added in order into base. */
  ghost function LabelSum(base: seq<Double>, rows: seq<seq<Value>>, ci: nat, c: string, n: nat): (r: seq<Double>)
    requires n <= |base|
    ensures |r| == |base|
    decreases |rows|
  {
    if rows == [] then base
    else
      var prev := LabelSum(base, rows[..|rows| - 1], ci, c, n);
      var row := rows[|rows| - 1];
      if ci < |row| && row[ci].payload == Text(c) then AddCoords(prev, row, n).1 else prev
  }

  /** Accumulation treats each label on its own: after a run without
      exception, the centroid of c is its old coordinates plus those of the
      rows labelled c, and its count grew by their number. */
  lemma {:induction false} AccumulatedPerLabel(cents: map<string, seq<Double>>, trains: map<string, int>,
                                               rows: seq<seq<Value>>, ci: nat, n: nat, c: string)
    requires Shaped(cents, n) && c in cents && c in trains
    ensures var r := Accumulated(cents, trains, rows, ci, n);
            r.0 == Pass ==>
              && r.1[c] == LabelSum(cents[c], rows, ci, c, n)
              && r.2[c] == trains[c] + Occurrences(rows, ci, c)
    decreases |rows|
  {
    if rows != [] {
      AccumulatedPerLabel(cents, trains, rows[..|rows| - 1], ci, n, c);
    }
  }

  /** No row labelled c leaves the sum at its base. */
  lemma {:induction false} LabelSumNone(base: seq<Double>, rows: seq<seq<Value>>, ci: nat, c: string, n: nat)
    requires n <= |base| && Occurrences(rows, ci, c) == 0
    ensures LabelSum(base, rows, ci, c, n) == base
    decreases |rows|
  {
    if rows != [] {
      LabelSumNone(base, rows[..|rows| - 1], ci, c, n);
    }
  }

  /** Division undoes the accumulation: a divided coordinate times the
      count gives back the sum; a centroid with count 0 is unchanged. */
  lemma AveragedMeaning(cents: map<string, seq<Double>>, trains: map<string, int>, c: string, i: nat)
    requires cents.Keys <= trains.Keys && c in cents && i < |cents[c]|
    ensures trains[c] <= 0 ==> Averaged(cents, trains)[c] == cents[c]
    ensures trains[c] > 0 ==>
              |Averaged(cents, trains)[c]| == |cents[c]|
              && (Averaged(cents, trains)[c][i].Fin? <==> cents[c][i].Fin?)
              && (cents[c][i].Fin? ==> Averaged(cents, trains)[c][i].v * trains[c] as real == cents[c][i].v)
  {
  }

  /** A successful `train` leaves every class value's count at its old count
      plus the number of kept rows with that label (counts are never reset),
      and its centroid at the old coordinates plus theirs, divided by that
      count when it is positive. */
  lemma TrainedPerLabel(u: Setup, m: Metrics, cents: map<string, seq<Double>>, trains: map<string, int>,
                        rows: seq<seq<Value>>, c: string)
    requires ClassIndexOk(u.schema) && Shaped(cents, Dims(u.schema)) && cents.Keys == trains.Keys && c in cents
    ensures var r := Trained(u, m, cents, trains, rows);
            var ci := u.schema.classIndex;
            var sum := LabelSum(cents[c], r.1, ci, c, Dims(u.schema));
            r.0 == Pass ==>
              && r.3[c] == trains[c] + Occurrences(r.1, ci, c)
              && r.2[c] == if r.3[c] > 0 then DivAll(sum, r.3[c]) else sum
  {
    var r := Trained(u, m, cents, trains, rows);
    if r.0 == Pass {
      var kept := FilterFrom(u, m, [], rows).1;
      AccumulatedPerLabel(cents, trains, kept, u.schema.classIndex, Dims(u.schema), c);
    }
  }

  /** Zero coordinates and a zero count for every class value, as the
      constructor leaves them. */
  function ZeroCentroids(cats: seq<string>, n: nat): (r: map<string, seq<Double>>)
    ensures Shaped(r, n) && r.Keys == set c | c in cats
  {
    map c | c in cats :: Zeros(n)
  }

  function ZeroCounts(cats: seq<string>): (r: map<string, int>)
    ensures r.Keys == set c | c in cats
  {
    map c | c in cats :: 0
  }

  /** The first training of a fresh classifier: each centroid is the mean
      of the kept rows with its label, and a label without rows keeps the
      zero centroid. */
  lemma FreshCentroid(u: Setup, m: Metrics, rows: seq<seq<Value>>, c: string)
    requires Buildable(u.schema) && c in ClassFeature(u.schema).categories.value
    ensures var cats := ClassFeature(u.schema).categories.value;
            var n := Dims(u.schema);
            var r := Trained(u, m, ZeroCentroids(cats, n), ZeroCounts(cats), rows);
            var count := Occurrences(r.1, u.schema.classIndex, c);
            r.0 == Pass ==>
              && r.3[c] == count
              && (count > 0 ==> r.2[c] == DivAll(LabelSum(Zeros(n), r.1, u.schema.classIndex, c, n), count))
              && (count == 0 ==> r.2[c] == Zeros(n))
  {
    var cats := ClassFeature(u.schema).categories.value;
    var n := Dims(u.schema);
    var r := Trained(u, m, ZeroCentroids(cats, n), ZeroCounts(cats), rows);
    TrainedPerLabel(u, m, ZeroCentroids(cats, n), ZeroCounts(cats), rows, c);
    if r.0 == Pass && Occurrences(r.1, u.schema.classIndex, c) == 0 {
      LabelSumNone(Zeros(n), r.1, u.schema.classIndex, c, n);
    }
  }

  // ---------------------------------------------------------------------
  // Classification.

  /** The position of the label the scan holds after k labels, or -1 while
      it still holds the first class value. */
  ghost function NearestAt(labels: seq<string>, cents: map<string, seq<Double>>, cur: seq<Double>, m: Metrics,
                           k: nat): (p: int)
    requires k <= |labels| && forall j :: 0 <= j < |labels| ==> labels[j] in cents
    ensures -1 <= p < k
    decreases k
  {
    if k == 0 then -1
    else
      var p := NearestAt(labels, cents, cur, m, k - 1);
      var best := if p == -1 then MAX_VALUE else Reach(cents, labels[p], cur, m);
      if Less(Reach(cents, labels[k - 1], cur, m), best) then k - 1 else p
  }

  lemma {:induction false} NearestTracks(labels: seq<string>, cents: map<string, seq<Double>>, cur: seq<Double>,
                                         m: Metrics, first: string, k: nat)
    requires k <= |labels| && forall j :: 0 <= j < |labels| ==> labels[j] in cents
    ensures var p := NearestAt(labels, cents, cur, m, k);
            Nearest(labels, cents, cur, m, first, k)
            == if p == -1 then (first, MAX_VALUE) else (labels[p], Reach(cents, labels[p], cur, m))
    decreases k
  {
    if k > 0 {
      NearestTracks(labels, cents, cur, m, first, k - 1);
    }
  }

  /** The distance the scan holds after k labels. */
  ghost function Held(labels: seq<string>, cents: map<string, seq<Double>>, cur: seq<Double>, m: Metrics,
                      k: nat): Double
    requires k <= |labels| && forall j :: 0 <= j < |labels| ==> labels[j] in cents
  {
    var p := NearestAt(labels, cents, cur, m, k);
    if p == -1 then MAX_VALUE else Reach(cents, labels[p], cur, m)
  }

  lemma {:induction false} NearestAtMeaning(labels: seq<string>, cents: map<string, seq<Double>>, cur: seq<Double>,
                                            m: Metrics, k: nat)
    requires k <= |labels| && forall j :: 0 <= j < |labels| ==> labels[j] in cents
    ensures var p := NearestAt(labels, cents, cur, m, k);
            var best := Held(labels, cents, cur, m, k);
      && best.Fin?
      && (forall j :: 0 <= j < k ==> !Less(Reach(cents, labels[j], cur, m), best))
      && (p == -1 <==> forall j :: 0 <= j < k ==> !Less(Reach(cents, labels[j], cur, m), MAX_VALUE))
      && (p >= 0 ==> Less(best, MAX_VALUE)
                     && forall j :: 0 <= j < p && Reach(cents, labels[j], cur, m).Fin? ==>
                          Reach(cents, labels[j], cur, m).v > best.v)
    decreases k
  {
    if k > 0 {
      NearestAtMeaning(labels, cents, cur, m, k - 1);
      var p := NearestAt(labels, cents, cur, m, k - 1);
      var best := Held(labels, cents, cur, m, k - 1);
      var d := Reach(cents, labels[k - 1], cur, m);
      if Less(d, best) {
        assert NearestAt(labels, cents, cur, m, k) == k - 1;
        assert Held(labels, cents, cur, m, k) == d;
      } else {
        assert NearestAt(labels, cents, cur, m, k) == p;
        assert Held(labels, cents, cur, m, k) == best;
        if p == -1 {
          assert !Less(d, MAX_VALUE);
        } else {
          assert Less(best, MAX_VALUE);
        }
      }
    }
  }

  /** The scan ends on a label at strictly minimal distance, the first of
      those at that distance; when no centroid is nearer than
      `Double.MAX_VALUE` the first class value stays. */
  lemma NearestMeaning(labels: seq<string>, cents: map<string, seq<Double>>, cur: seq<Double>,
                       m: Metrics, first: string)
    requires forall j :: 0 <= j < |labels| ==> labels[j] in cents
    ensures var (lab, best) := Nearest(labels, cents, cur, m, first, |labels|);
      && best.Fin?
      && (forall j :: 0 <= j < |labels| ==> !Less(Reach(cents, labels[j], cur, m), best))
      && ((forall j :: 0 <= j < |labels| ==> !Less(Reach(cents, labels[j], cur, m), MAX_VALUE)) ==>
            lab == first && best == MAX_VALUE)
      && ((exists j :: 0 <= j < |labels| && Less(Reach(cents, labels[j], cur, m), MAX_VALUE)) ==>
            exists r :: 0 <= r < |labels| && lab == labels[r] && best == Reach(cents, labels[r], cur, m)
              && Less(best, MAX_VALUE)
              && forall j :: 0 <= j < r && Reach(cents, labels[j], cur, m).Fin? ==> Reach(cents, labels[j], cur, m).v > best.v)
  {
    NearestTracks(labels, cents, cur, m, first, |labels|);
    NearestAtMeaning(labels, cents, cur, m, |labels|);
  }

  /** `classify` answers a nominal Value naming a class value: one of the
      centroid labels or the first declared class value. */
  lemma ClassificationAnswers(u: Setup, labels: seq<string>, cents: map<string, seq<Double>>, row: seq<Value>,
                              m: Metrics)
    requires Buildable(u.schema) && forall j :: 0 <= j < |labels| ==> labels[j] in cents
    requires forall j :: 0 <= j < |labels| ==> labels[j] in ClassFeature(u.schema).categories.value
    ensures var r := Classification(u, labels, cents, row, m);
            r.Ok? ==>
              && r.value.tag == NOMINAL_VALUE && r.value.payload.Text?
              && r.value.payload.s in ClassFeature(u.schema).categories.value
    ensures !Complies(u.schema.features, row, false) ==> Classification(u, labels, cents, row, m) == Err(IncompatibleInstance)
    ensures ClassFeature(u.schema).categories.value == [] && Complies(u.schema.features, row, false) ==>
              Classification(u, labels, cents, row, m) == Err(IndexOutOfBounds)
  {
    var r := Classification(u, labels, cents, row, m);
    if r.Ok? {
      var first := ClassFeature(u.schema).categories.value[0];
      var cur := Coords(row, Dims(u.schema)).value;
      NearestMeaning(labels, cents, cur, m, first);
    }
  }

  // ---------------------------------------------------------------------
  // The loops of the classifier.

  /** Reading the coordinates into a fresh array. */
  method CoordsOf(row: seq<Value>, n: nat) returns (r: Result<seq<Double>>)
    ensures r == Coords(row, n)
  {
    var a := new Double[n](_ => Zero);
    var i := 0;
    while i < n
      invariant 0 <= i <= n
      invariant Coords(row, i).Ok? && a[..i] == Coords(row, i).value
    {
      if i >= |row| {
        CoordsStop(row, i + 1, n);
        return Err(IndexOutOfBounds);
      }
      var d := NumberOf(row[i].payload);
      if d.Err? {
        CoordsStop(row, i + 1, n);
        return Err(d.error);
      }
      a[i] := d.value;
      assert a[..i + 1] == a[..i] + [d.value];
      i := i + 1;
    }
    assert a[..] == a[..n];
    r := Ok(a[..]);
  }

  /** `centroidCoords[i] += ...` for i below n. */
  method AddInto(cent: seq<Double>, row: seq<Value>, n: nat) returns (o: Outcome, v: seq<Double>)
    requires n <= |cent|
    ensures (o, v) == AddCoords(cent, row, n)
  {
    v := cent;
    var i := 0;
    while i < n
      invariant 0 <= i <= n
      invariant AddCoords(cent, row, i) == (Pass, v)
    {
      if i >= |row| {
        AddCoordsStop(cent, row, i + 1, n);
        return Fail(IndexOutOfBounds), v;
      }
      var d := NumberOf(row[i].payload);
      if d.Err? {
        AddCoordsStop(cent, row, i + 1, n);
        return Fail(d.error), v;
      }
      v := v[i := Add(v[i], d.value)];
      i := i + 1;
    }
    o := Pass;
  }

  /** The division loop on the centroid map, one class value at a time in
      the order of `labels`. */
  method DivideAll(cents: map<string, seq<Double>>, trains: map<string, int>, labels: seq<string>)
    returns (r: map<string, seq<Double>>)
    requires Distinct(labels) && cents.Keys <= trains.Keys
    requires forall c :: c in cents <==> c in labels
    ensures r == Averaged(cents, trains)
  {
    r := cents;
    var k := 0;
    while k < |labels|
      invariant 0 <= k <= |labels|
      invariant r.Keys == cents.Keys
      invariant forall j :: 0 <= j < k ==> r[labels[j]] == Mean(cents[labels[j]], trains[labels[j]])
      invariant forall j :: k <= j < |labels| ==> r[labels[j]] == cents[labels[j]]
    {
      var c := labels[k];
      var v := DivideBy(r[c], trains[c], |r[c]|);
      r := r[c := v];
      k := k + 1;
    }
    forall c | c in r ensures r[c] == Mean(cents[c], trains[c]) {
      var j :| 0 <= j < |labels| && labels[j] == c;
    }
  }

  /** The search loop of `classify`: the first strictly nearer centroid
      wins, a centroid whose distance throws counts as MAX_VALUE away. */
  method FindNearest(labels: seq<string>, cents: map<string, seq<Double>>, cur: seq<Double>, m: Metrics, first: string)
    returns (minLabel: string, minDistance: Double)
    requires forall j :: 0 <= j < |labels| ==> labels[j] in cents
    ensures (minLabel, minDistance) == Nearest(labels, cents, cur, m, first, |labels|)
  {
    minLabel, minDistance := first, MAX_VALUE;
    var k := 0;
    while k < |labels|
      invariant 0 <= k <= |labels|
      invariant (minLabel, minDistance) == Nearest(labels, cents, cur, m, first, k)
    {
      var c := labels[k];
      var d := Distance(cur, cents[c], m);
      var curDistance := if d.Ok? then d.value else MAX_VALUE;
      if Less(curDistance, minDistance) {
        minLabel, minDistance := c, curDistance;
      }
      k := k + 1;
    }
  }

  /** The body of the accumulation loop on the centroid and count maps:
      look the class value up, add the coordinates, count the instance. */
  method AddRow(cents: map<string, seq<Double>>, trains: map<string, int>, row: seq<Value>, ci: nat, n: nat)
    returns (o: Outcome, c: map<string, seq<Double>>, t: map<string, int>)
    requires Shaped(cents, n)
    ensures (o, c, t) == AccumulateRow(cents, trains, row, ci, n)
  {
    c, t := cents, trains;
    if ci >= |row| {
      return Fail(IndexOutOfBounds), c, t;
    }
    var key := LabelOf(row[ci].payload);
    if key.Err? {
      return Fail(key.error), c, t;
    }
    if key.value.None? || key.value.value !in c {
      return Fail(NullPointer), c, t;
    }
    var x := key.value.value;
    var ro, v := AddInto(c[x], row, n);
    c := c[x := v];
    if ro.Fail? {
      return ro, c, t;
    }
    if x !in t {
      return Fail(NullPointer), c, t;
    }
    t := t[x := t[x] + 1];
    o := Pass;
  }

  /** `centroidCoords[i] = centroidCoords[i] / numTrains` for i below n,
      when the count is positive. */
  method DivideBy(cent: seq<Double>, count: int, n: nat) returns (v: seq<Double>)
    requires n == |cent|
    ensures v == Mean(cent, count)
  {
    v := cent;
    var i := 0;
    while i < n
      invariant 0 <= i <= n && |v| == n
      invariant forall j :: 0 <= j < i ==> v[j] == if count > 0 then Div(cent[j], count as real) else cent[j]
      invariant forall j :: i <= j < n ==> v[j] == cent[j]
    {
      if count > 0 {
        v := v[i := Div(v[i], count as real)];
      }
      i := i + 1;
    }
  }

  class DensityClustering {
    const schema: Schema
    const maxDistance: Double
    const minInclusionPct: Double
    /** The keys of both maps in the order the loops visit them. */
    const labels: seq<string>
    var centroids: map<string, seq<Double>>
    var numTrains: map<string, int>

    ghost predicate Valid()
      reads this
    {
      && Buildable(schema)
      && labels == Dedup(ClassFeature(schema).categories.value)
      && centroids.Keys == numTrains.Keys
      && (forall c :: c in centroids <==> c in labels)
      && Shaped(centroids, Dims(schema))
    }

    function Config(): Setup
      reads this
    {
      Setup(schema, maxDistance, minInclusionPct)
    }

    /** One zero centroid of size-1 coordinates and a zero count per class
        value. The two parameters are read from the configuration, or take
        their defaults, before the constructor runs. */
    constructor (s: Schema, maxD: Double, pct: Double)
      requires Buildable(s)
      ensures Valid() && schema == s && maxDistance == maxD && minInclusionPct == pct
      ensures centroids == ZeroCentroids(ClassFeature(s).categories.value, Dims(s))
      ensures numTrains == ZeroCounts(ClassFeature(s).categories.value)
    {
      var cats := ClassFeature(s).categories.value;
      var n := Dims(s);
      var cents: map<string, seq<Double>> := map[];
      var trains: map<string, int> := map[];
      var i := 0;
      while i < |cats|
        invariant 0 <= i <= |cats|
        invariant cents == ZeroCentroids(cats[..i], n) && trains == ZeroCounts(cats[..i])
      {
        assert cats[..i + 1] == cats[..i] + [cats[i]];
        cents := cents[cats[i] := Zeros(n)];
        trains := trains[cats[i] := 0];
        i := i + 1;
      }
      assert cats[..i] == cats;
      schema, maxDistance, minInclusionPct := s, maxD, pct;
      labels := Dedup(cats);
      centroids, numTrains := cents, trains;
    }

    /** `train`: the outlier filter on the caller's list, then the
        centroids. */
    method Train(list: Instances.InstanceList, m: Metrics) returns (o: Outcome)
      requires Valid()
      modifies this, list
      ensures Valid()
      ensures (o, list.rows, centroids, numTrains) == Trained(Config(), m, old(centroids), old(numTrains), old(list.rows))
    {
      o := FilterOutliers(list, m);
      if o.Fail? {
        return;
      }
      o := Accumulate(list.rows);
      if o.Fail? {
        return;
      }
      Average();
    }

    /** The outer loop of the filter: the iterator removes the current
        instance from the list when it is an outlier. */
    method FilterOutliers(list: Instances.InstanceList, m: Metrics) returns (o: Outcome)
      requires Buildable(schema)
      modifies list
      ensures (o, list.rows) == FilterFrom(Config(), m, [], old(list.rows))
    {
      ghost var kept: seq<seq<Value>> := [];
      ghost var rest := list.rows;
      ghost var u := Config();
      ghost var goal := FilterFrom(u, m, [], list.rows);
      var i := 0;
      while i < |list.rows|
        invariant list.rows == kept + rest && i == |kept|
        invariant FilterFrom(u, m, kept, rest) == goal
        decreases |rest|
      {
        var cur := list.rows[i];
        var verdict := Examine(list.rows, i, m);
        FilterStep(u, m, kept, rest);
        if verdict.Err? {
          o := Fail(verdict.error);
          return;
        }
        ShiftRows(kept, rest, list.rows);
        if verdict.value {
          list.rows := list.rows[..i] + list.rows[i + 1..];
        } else {
          kept := kept + [cur];
          i := i + 1;
        }
        rest := rest[1..];
      }
      assert rest == [] && list.rows == kept;
      FilterDone(u, m, kept);
      o := Pass;
    }

    /** The body of the outer loop up to the removal. */
    method Examine(rows: seq<seq<Value>>, i: nat, m: Metrics) returns (r: Result<bool>)
      requires ClassIndexOk(schema) && i < |rows|
      ensures r == Judge(Config(), m, rows, i)
    {
      var cur := rows[i];
      var ok := CheckCompliance(schema.features, cur, true);
      if !ok {
        return Err(IncompatibleInstance);
      }
      var key := LabelOf(cur[schema.classIndex].payload);
      if key.Err? {
        return Err(key.error);
      }
      var coords := CoordsOf(cur, |schema.features| - 1);
      if coords.Err? {
        return Err(coords.error);
      }
      var counts := CountNeighbours(rows, i, key.value, coords.value, m);
      if counts.Err? {
        return Err(counts.error);
      }
      r := Ok(Outlier(Config(), counts.value.0, counts.value.1));
    }

    /** The inner loop of the filter: every other instance of the list. */
    method CountNeighbours(rows: seq<seq<Value>>, i: nat, key: Option<string>, coords: seq<Double>, m: Metrics)
      returns (r: Result<(nat, nat)>)
      requires ClassIndexOk(schema)
      ensures r == Neighbours(Config(), m, rows, i, key, coords, |rows|)
    {
      ghost var u := Config();
      var counts := (0, 0);
      var j := 0;
      while j < |rows|
        invariant 0 <= j <= |rows|
        invariant Neighbours(u, m, rows, i, key, coords, j) == Ok(counts)
      {
        if j != i {
          var next := CountOne(rows[j], key, coords, counts, m);
          if next.Err? {
            NeighboursStop(u, m, rows, i, key, coords, j + 1, |rows|);
            return next;
          }
          counts := next.value;
        }
        j := j + 1;
      }
      r := Ok(counts);
    }

    /** The body of the inner loop for another instance. */
    method CountOne(other: seq<Value>, key: Option<string>, coords: seq<Double>, counts: (nat, nat), m: Metrics)
      returns (r: Result<(nat, nat)>)
      requires ClassIndexOk(schema)
      ensures r == Neighbour(Config(), m, other, key, coords, counts)
    {
      var ok := CheckCompliance(schema.features, other, true);
      if !ok {
        return Err(IncompatibleInstance);
      }
      var ol := LabelOf(other[schema.classIndex].payload);
      if ol.Err? {
        return Err(ol.error);
      }
      if ol.value.None? {
        return Err(NullPointer);
      }
      if key != ol.value {
        return Ok(counts);
      }
      var oc := CoordsOf(other, |schema.features| - 1);
      if oc.Err? {
        return Err(oc.error);
      }
      var d := Distance(coords, oc.value, m);
      if d.Err? {
        return Err(d.error);
      }
      r := Ok((counts.0 + 1, counts.1 + if Less(d.value, maxDistance) then 1 else 0));
    }

    /** The accumulation loop over the filtered list. */
    method Accumulate(rows: seq<seq<Value>>) returns (o: Outcome)
      requires Valid()
      modifies this`centroids, this`numTrains
      ensures Valid()
      ensures (o, centroids, numTrains)
              == Accumulated(old(centroids), old(numTrains), rows, schema.classIndex, Dims(schema))
    {
      var ci := schema.classIndex;
      var n := |schema.features| - 1;
      ghost var c0, t0 := centroids, numTrains;
      var k := 0;
      while k < |rows|
        invariant 0 <= k <= |rows| && Valid()
        invariant Shaped(c0, n)
        invariant Accumulated(c0, t0, rows[..k], ci, n) == (Pass, centroids, numTrains)
      {
        o := AccumulateOne(rows[k]);
        AccumulatedStep(c0, t0, rows, ci, n, k);
        if o.Fail? {
          AccumulatedStop(c0, t0, rows, ci, n, k + 1);
          return;
        }
        k := k + 1;
      }
      assert rows[..k] == rows;
      o := Pass;
    }

    /** One turn of the accumulation loop. */
    method AccumulateOne(row: seq<Value>) returns (o: Outcome)
      requires Valid()
      modifies this`centroids, this`numTrains
      ensures Valid()
      ensures (o, centroids, numTrains)
              == AccumulateRow(old(centroids), old(numTrains), row, schema.classIndex, Dims(schema))
    {
      o, centroids, numTrains := AddRow(centroids, numTrains, row, schema.classIndex, |schema.features| - 1);
    }

    /** The division loop over the class values. */
    method Average()
      requires Valid()
      modifies this`centroids
      ensures Valid()
      ensures centroids == Averaged(old(centroids), numTrains)
    {
      centroids := DivideAll(centroids, numTrains, labels);
    }

    /** `classify`: the gate for an instance without the class value, the
        first class value as default, then the nearest centroid. */
    method Classify(row: seq<Value>, m: Metrics) returns (r: Result<Value>)
      requires Valid()
      ensures r == Classification(Config(), labels, centroids, row, m)
    {
      var ok := CheckCompliance(schema.features, row, false);
      if !ok {
        return Err(IncompatibleInstance);
      }
      var first := CategoryOfIndex(ClassFeature(schema), 0);
      if first.Err? {
        return Err(first.error);
      }
      var cur := CoordsOf(row, |schema.features| - 1);
      if cur.Err? {
        return Err(cur.error);
      }
      assert forall j :: 0 <= j < |labels| ==> labels[j] in centroids;
      var minLabel, minDistance := FindNearest(labels, centroids, cur.value, m, first.value);
      r := Ok(NewValue(Text(minLabel), NOMINAL_VALUE));
    }
  }

  /** Training a fresh classifier, then classifying: the answer names a
      class value. */
  method TrainThenClassify(s: Schema, maxD: Double, pct: Double, rows: seq<seq<Value>>, row: seq<Value>, m: Metrics)
    returns (o: Outcome, r: Result<Value>)
    requires Buildable(s)
    ensures r.Ok? ==> r.value.tag == NOMINAL_VALUE && r.value.payload.Text?
                      && r.value.payload.s in ClassFeature(s).categories.value
  {
    var dc := new DensityClustering(s, maxD, pct);
    var list := new Instances.InstanceList(rows);
    o := dc.Train(list, m);
    r := dc.Classify(row, m);
    ClassificationAnswers(dc.Config(), dc.labels, dc.centroids, row, m);
  }
}
