/** Naive Bayes over NOMINAL and NUMERIC features, predicting one of the
    categories of the class feature. For every (feature name, class
    category) pair it keeps a row of statistics:
    one count per category for a NOMINAL feature, and (count, sum, sum of
    squares) for a NUMERIC one. The Gaussian density is a parameter. */
module NaiveBayes {
  import opened Doubles
  import opened Errors
  import opened Values
  import opened Features
  import opened Signatures
  import Argmax

  /** feature name -> class category -> statistics row. */
  type Tables = map<string, map<string, seq<Double>>>

  /** The constructor does not throw: the class index is valid, the class
      has a category list (a NUMERIC class has none, and `initialize`
      iterates over it), and, when that list is not empty, every feature is
      NOMINAL or NUMERIC (any other type leaves its row null, and filling it
      throws). */
  ghost predicate Buildable(s: Schema)
  {
    && ClassIndexOk(s)
    && FeaturesValid(s)
    && ClassFeature(s).categories.Some?
    && (ClassFeature(s).categories.value == [] || Typed(s))
  }

  /** Every feature is NOMINAL or NUMERIC. */
  predicate Typed(s: Schema)
  {
    forall i :: 0 <= i < |s.features| ==> s.features[i].ftype == NOMINAL || s.features[i].ftype == NUMERIC
  }

  function ClassValues(s: Schema): seq<string>
    requires Buildable(s)
  {
    ClassFeature(s).categories.value
  }

  /** A class count is a whole, non-negative number. */
  predicate Whole(d: Double)
  {
    d.Fin? && d.v >= 0.0 && d.v.Floor as real == d.v
  }

  lemma WholeSucc(d: Double)
    requires Whole(d)
    ensures Whole(Add(d, One)) && Add(d, One).v == d.v + 1.0
  {
    var n := d.v.Floor;
    assert d.v + 1.0 == (n + 1) as real;
    assert ((n + 1) as real).Floor == n + 1;
  }

  /** Width of a statistics row. */
  function Width(f: Feature): nat
    requires Valid(f)
  {
    if f.ftype == NOMINAL then NumberOfCategories(f) else 3
  }

  /** The rows `initialize` puts for one feature: one zero row per class value. */
  function ZeroRows(f: Feature, cats: seq<string>): map<string, seq<Double>>
    requires Valid(f)
  {
    map c | c in cats :: Zeros(Width(f))
  }

  /** The tables `initialize` builds: one entry per feature name, a later
      feature with the same name replacing the earlier one. */
  function InitialTables(fs: seq<Feature>, cats: seq<string>): Tables
    requires forall i :: 0 <= i < |fs| ==> Valid(fs[i])
    decreases |fs|
  {
    if fs == [] then map[]
    else InitialTables(fs[..|fs| - 1], cats)[fs[|fs| - 1].name := ZeroRows(fs[|fs| - 1], cats)]
  }

  /** Every feature of the schema has an entry, and every entry a row for
      every class category: the lookups `update` makes cannot miss. */
  ghost predicate Shaped(s: Schema, t: Tables)
    requires Buildable(s)
  {
    forall i :: 0 <= i < |s.features| ==>
      s.features[i].name in t && forall c :: c in ClassValues(s) ==> c in t[s.features[i].name]
  }

  /** Same keys at both levels. */
  ghost predicate SameKeys(t: Tables, u: Tables)
  {
    t.Keys == u.Keys && forall n :: n in t ==> t[n].Keys == u[n].Keys
  }

  /** Every row of a class category other than c is as it was. */
  ghost predicate OnlyClass(t: Tables, u: Tables, c: string)
    requires SameKeys(t, u)
  {
    forall n, c' :: n in t && c' in t[n] && c' != c ==> u[n][c'] == t[n][c']
  }

  lemma {:induction false} InitialTablesKeys(fs: seq<Feature>, cats: seq<string>)
    requires forall i :: 0 <= i < |fs| ==> Valid(fs[i])
    ensures InitialTables(fs, cats).Keys == set i | 0 <= i < |fs| :: fs[i].name
    ensures forall n :: n in InitialTables(fs, cats) ==> InitialTables(fs, cats)[n].Keys == set c | c in cats
    decreases |fs|
  {
    if fs != [] {
      var init := fs[..|fs| - 1];
      InitialTablesKeys(init, cats);
      var t := InitialTables(fs, cats);
      forall n | n in t ensures n in set i | 0 <= i < |fs| :: fs[i].name {
        if n != fs[|fs| - 1].name {
          var i :| 0 <= i < |init| && init[i].name == n;
          assert fs[i].name == n;
        }
      }
      forall n | n in set i | 0 <= i < |fs| :: fs[i].name ensures n in t {
        var i :| 0 <= i < |fs| && fs[i].name == n;
        if i < |fs| - 1 {
          assert init[i].name == n;
        }
      }
    }
  }

  /** After `initialize`, the rows of a feature with no later namesake are
      all zero, as wide as its categories (NOMINAL) or 3 (NUMERIC), one per
      class category; and the tables have the shape `update` relies on. */
  lemma {:induction false} InitialTablesRows(fs: seq<Feature>, cats: seq<string>, i: int)
    requires forall k :: 0 <= k < |fs| ==> Valid(fs[k])
    requires 0 <= i < |fs| && forall j :: i < j < |fs| ==> fs[j].name != fs[i].name
    ensures fs[i].name in InitialTables(fs, cats)
    ensures InitialTables(fs, cats)[fs[i].name] == ZeroRows(fs[i], cats)
    ensures forall c :: c in cats ==> InitialTables(fs, cats)[fs[i].name][c] == Zeros(Width(fs[i]))
    decreases |fs|
  {
    if i < |fs| - 1 {
      var init := fs[..|fs| - 1];
      InitialTablesRows(init, cats, i);
    }
  }

  /** Java's `row[k] op= x` on one row of the tables. */
  function Put(t: Tables, n: string, c: string, cells: seq<Double>): (u: Tables)
    requires n in t
    ensures c in t[n] ==> SameKeys(t, u) && OnlyClass(t, u, c)
  {
    t[n := t[n][c := cells]]
  }

  /** A NUMERIC value adds (1, v, v*v) to the triple. The three compound
      assignments run one after the other, so a row shorter than 3 (two
      features sharing a name) fails part-way with the earlier cells changed,
      and the Double cast is evaluated only after the bounds check of cell 1. */
  function NumericStep(cells: seq<Double>, p: Payload): (r: (Outcome, seq<Double>))
    ensures |r.1| == |cells|
  {
    if |cells| < 1 then (Fail(IndexOutOfBounds), cells)
    else
      var c0 := cells[0 := Add(cells[0], One)];
      if |cells| < 2 then (Fail(IndexOutOfBounds), c0)
      else
        match NumberOf(p)
        case Err(e) => (Fail(e), c0)
        case Ok(d) =>
          var c1 := c0[1 := Add(c0[1], d)];
          if |cells| < 3 then (Fail(IndexOutOfBounds), c1)
          else (Pass, c1[2 := Add(c1[2], Mul(d, d))])
  }

  /** The row `d_valueCounts.get(name).get(c)`, or None where Java gets
      null (the first lookup then throws at once, the second at first use). */
  function Row(t: Tables, n: string, c: string): Option<seq<Double>>
  {
    if n in t && c in t[n] then Some(t[n][c]) else None
  }

  /** The body of the per-position loop of `update`, for class category c. */
  function PositionUpdate(s: Schema, t: Tables, row: seq<Value>, c: string, i: nat): (r: (Outcome, Tables))
    requires FeaturesValid(s) && i < |row| == |s.features|
    ensures SameKeys(t, r.1) && OnlyClass(t, r.1, c)
  {
    var f := s.features[i];
    var v := row[i];
    if f.name !in t then (Fail(NullPointer), t)
    else if v.tag == NOMINAL_VALUE then
      match CategoryName(v.payload)
      case Err(e) => (Fail(e), t)
      case Ok(x) =>
        match IndexOfCategory(f, x)
        case Err(e) => (Fail(e), t)
        case Ok(fvi) =>
          match Row(t, f.name, c)
          case None => (Fail(NullPointer), t)
          case Some(cells) =>
            if fvi < |cells| then (Pass, Put(t, f.name, c, cells[fvi := Add(cells[fvi], One)]))
            else (Fail(IndexOutOfBounds), t)
    else if v.tag == NUMERIC_VALUE then
      match Row(t, f.name, c)
      case None => (Fail(NullPointer), t)
      case Some(cells) =>
        var (o, cells') := NumericStep(cells, v.payload);
        (o, Put(t, f.name, c, cells'))
    else (Pass, t)
  }

  /** The loop over the first n positions, stopping at the first throw with
      the earlier updates kept. */
  function PositionUpdates(s: Schema, t: Tables, row: seq<Value>, c: string, n: nat): (r: (Outcome, Tables))
    requires FeaturesValid(s) && n <= |row| == |s.features|
    decreases n
  {
    if n == 0 then (Pass, t)
    else
      var (o, t1) := PositionUpdates(s, t, row, c, n - 1);
      if o.Fail? then (o, t1) else PositionUpdate(s, t1, row, c, n - 1)
  }

  /** One `update`: the outcome, the class counts and the tables afterwards. */
  function Updated(s: Schema, counts: seq<Double>, t: Tables, row: seq<Value>): (r: (Outcome, seq<Double>, Tables))
    requires Buildable(s) && |counts| == |ClassValues(s)|
    ensures |r.1| == |counts|
  {
    if !Complies(s.features, row, true) then (Fail(IncompatibleInstance), counts, t)
    else
      match CategoryName(row[s.classIndex].payload)
      case Err(e) => (Fail(e), counts, t)
      case Ok(name) =>
        match IndexOfCategory(ClassFeature(s), name)
        case Err(e) => (Fail(e), counts, t)
        case Ok(k) =>
          var (o, t1) := PositionUpdates(s, t, row, ClassValues(s)[k], |row|);
          (o, counts[k := Add(counts[k], One)], t1)
  }

  /** `train`: `update` over the list in order, stopping at the first throw. */
  function Trained(s: Schema, counts: seq<Double>, t: Tables, rows: seq<seq<Value>>): (r: (Outcome, seq<Double>, Tables))
    requires Buildable(s) && |counts| == |ClassValues(s)|
    ensures |r.1| == |counts|
    decreases |rows|
  {
    if rows == [] then (Pass, counts, t)
    else
      var (o, c, t1) := Trained(s, counts, t, rows[..|rows| - 1]);
      if o.Fail? then (o, c, t1) else Updated(s, c, t1, rows[|rows| - 1])
  }

  /** Once the position loop has thrown, the later positions change nothing. */
  lemma PositionsNext(s: Schema, t: Tables, row: seq<Value>, c: string, i: nat)
    requires FeaturesValid(s) && i < |row| == |s.features| && PositionUpdates(s, t, row, c, i).0.Pass?
    ensures PositionUpdates(s, t, row, c, i + 1) == PositionUpdate(s, PositionUpdates(s, t, row, c, i).1, row, c, i)
  {
  }

  lemma {:induction false} PositionsStop(s: Schema, t: Tables, row: seq<Value>, c: string, k: nat, n: nat)
    requires FeaturesValid(s)
    requires k <= n <= |row| == |s.features| && PositionUpdates(s, t, row, c, k).0.Fail?
    ensures PositionUpdates(s, t, row, c, n) == PositionUpdates(s, t, row, c, k)
    decreases n
  {
    if k < n {
      PositionsStop(s, t, row, c, k, n - 1);
      var (o, t1) := PositionUpdates(s, t, row, c, n - 1);
      assert o.Fail?;
    }
  }

  /** Once `train` has thrown, the later instances change nothing. */
  lemma {:induction false} TrainedStops(s: Schema, counts: seq<Double>, t: Tables, rows: seq<seq<Value>>, k: nat)
    requires Buildable(s) && |counts| == |ClassValues(s)|
    requires k <= |rows| && Trained(s, counts, t, rows[..k]).0.Fail?
    ensures Trained(s, counts, t, rows) == Trained(s, counts, t, rows[..k])
    decreases |rows| - k
  {
    if k < |rows| {
      assert rows[..k + 1][..k] == rows[..k];
      TrainedStops(s, counts, t, rows, k + 1);
    } else {
      assert rows[..k] == rows;
    }
  }

  /** Class counts and tables as `initialize` leaves them. */
  /** The inner loop of `initialize`: a zero row per class value. */
  method ZeroRowsOf(f: Feature, cats: seq<string>) returns (rows: map<string, seq<Double>>)
    requires Valid(f)
    ensures rows == ZeroRows(f, cats)
  {
    var w := if f.ftype == NOMINAL then NumberOfCategories(f) else 3;
    rows := map[];
    var j := 0;
    while j < |cats|
      invariant 0 <= j <= |cats|
      invariant rows == map c | c in cats[..j] :: Zeros(w)
    {
      assert cats[..j + 1] == cats[..j] + [cats[j]];
      rows := rows[cats[j] := Zeros(w)];
      j := j + 1;
    }
    assert cats[..|cats|] == cats;
  }

  method InitialState(s: Schema) returns (classCounts: array<Double>, tables: Tables)
    requires Buildable(s)
    ensures fresh(classCounts)
    ensures classCounts[..] == Zeros(|ClassValues(s)|)
    ensures tables == InitialTables(s.features, ClassValues(s))
  {
    var cats := ClassValues(s);
    var fs := s.features;
    classCounts := new Double[|cats|](_ => Zero);
    tables := map[];
    var i := 0;
    while i < |fs|
      invariant 0 <= i <= |fs|
      invariant tables == InitialTables(fs[..i], cats)
      invariant classCounts[..] == Zeros(|cats|)
    {
      var rows := ZeroRowsOf(fs[i], cats);
      assert fs[..i + 1][..i] == fs[..i];
      tables := tables[fs[i].name := rows];
      i := i + 1;
    }
    assert fs[..|fs|] == fs;
  }

  /** The tables `initialize` builds have the shape `update` relies on. */
  lemma InitialTablesShaped(s: Schema)
    requires Buildable(s)
    ensures Shaped(s, InitialTables(s.features, ClassValues(s)))
  {
    InitialTablesKeys(s.features, ClassValues(s));
  }

  /** Java's narrowing `(int)` of a double: truncation toward zero, NaN to 0. */
  function Narrow(d: Double): int
  {
    match d
    case NaN => 0
    case Fin(v) => if v >= 0.0 then v.Floor else -((-v).Floor)
  }

  /** `classCountsTotal`: an int accumulator, each `+=` narrowing the sum. */
  function CountTotal(counts: seq<Double>): int
    decreases |counts|
  {
    if counts == [] then 0
    else Narrow(Add(Fin(CountTotal(counts[..|counts| - 1]) as real), counts[|counts| - 1]))
  }

  /** The priors for an int total: uniform when it is 0, count/total
      otherwise. */
  function PriorsOf(counts: seq<Double>, total: int): (p: seq<Double>)
    ensures |p| == |counts|
  {
    if total == 0 then (if counts == [] then [] else seq(|counts|, j => Fin(1.0 / |counts| as real)))
    else seq(|counts|, j requires 0 <= j < |counts| => Div(counts[j], total as real))
  }

  function Priors(counts: seq<Double>): (p: seq<Double>)
    ensures |p| == |counts|
  {
    PriorsOf(counts, CountTotal(counts))
  }

  /** What one (position i, class value c) pair multiplies into the
      posterior of c: nothing for a MISSING value; for a nominal value the
      smoothed cell `count + 1/numberOfCategories` (the division binds
      first, and `classFeatureTotal` is always 0), or 0 without smoothing;
      for a numeric value the density when the count is positive, else 0,
      where a positive count also reads the sum and the sum of squares.
      Err where Java throws. */
  function Factor(s: Schema, smoothing: bool, t: Tables, row: seq<Value>, gauss: (seq<Double>, Double) -> Double,
                  i: nat, c: string): (r: Result<Option<Double>>)
    requires FeaturesValid(s) && i < |row| == |s.features|
    ensures r == Ok(None) <==>
              s.features[i].name in t && row[i].tag != NOMINAL_VALUE && row[i].tag != NUMERIC_VALUE
    ensures !smoothing && row[i].tag == NOMINAL_VALUE && r.Ok? ==> r.value == Some(Zero)
    ensures row[i].tag == NUMERIC_VALUE && r.Ok? && r.value != Some(Zero) ==>
              var cells := Row(t, s.features[i].name, c);
              cells.Some? && |cells.value| >= 3 && Greater(cells.value[0], Zero) && r.value.Some?
    ensures (row[i].tag == NUMERIC_VALUE && row[i].payload.Number? && Row(t, s.features[i].name, c).Some?
             && 1 <= |Row(t, s.features[i].name, c).value| < 3 && Greater(Row(t, s.features[i].name, c).value[0], Zero))
              ==> r == Err(IndexOutOfBounds)
  {
    var f := s.features[i];
    var v := row[i];
    if f.name !in t then Err(NullPointer)
    else if v.tag == NOMINAL_VALUE then
      match CategoryName(v.payload)
      case Err(e) => Err(e)
      case Ok(x) =>
        match IndexOfCategory(f, x)
        case Err(e) => Err(e)
        case Ok(fvi) =>
          if !smoothing then Ok(Some(Zero))
          else
            match Row(t, f.name, c)
            case None => Err(NullPointer)
            case Some(cells) =>
              if fvi < |cells| then Ok(Some(Add(cells[fvi], Fin(1.0 / NumberOfCategories(f) as real))))
              else Err(IndexOutOfBounds)
    else if v.tag == NUMERIC_VALUE then
      match NumberOf(v.payload)
      case Err(e) => Err(e)
      case Ok(x) =>
        match Row(t, f.name, c)
        case None => Err(NullPointer)
        case Some(cells) =>
          if |cells| < 1 then Err(IndexOutOfBounds)
          else if Greater(cells[0], Zero) then
            if |cells| < 3 then Err(IndexOutOfBounds) else Ok(Some(gauss(cells, x)))
          else Ok(Some(Zero))
    else Ok(None)
  }

  /** One class value (the k-th) at position i: its factor multiplied into
      the posterior at `indexOfCategory` of that value. */
  function ClassStep(s: Schema, smoothing: bool, t: Tables, row: seq<Value>, gauss: (seq<Double>, Double) -> Double,
                     i: nat, p: seq<Double>, k: nat): (r: Result<seq<Double>>)
    requires Buildable(s) && i < |row| == |s.features|
    requires |p| == |ClassValues(s)| && k < |ClassValues(s)|
    ensures r.Ok? ==> |r.value| == |p|
  {
    var c := ClassValues(s)[k];
    var idx := IndexOfCategory(ClassFeature(s), c).value;
    match Factor(s, smoothing, t, row, gauss, i, c)
    case Err(e) => Err(e)
    case Ok(None) => Ok(p)
    case Ok(Some(x)) => Ok(p[idx := Mul(p[idx], x)])
  }

  /** The inner loop at position i over the first m class values (in
      declared order, repeats included), each multiplying its factor into
      the posterior at `indexOfCategory` of that value. */
  function ClassPass(s: Schema, smoothing: bool, t: Tables, row: seq<Value>, gauss: (seq<Double>, Double) -> Double,
                     i: nat, post: seq<Double>, m: nat): (r: Result<seq<Double>>)
    requires Buildable(s) && i < |row| == |s.features|
    requires |post| == |ClassValues(s)| && m <= |ClassValues(s)|
    ensures r.Ok? ==> |r.value| == |post|
    decreases m
  {
    if m == 0 then Ok(post)
    else
      match ClassPass(s, smoothing, t, row, gauss, i, post, m - 1)
      case Err(e) => Err(e)
      case Ok(p) => ClassStep(s, smoothing, t, row, gauss, i, p, m - 1)
  }

  /** The posteriors after the first n positions, starting from the priors. */
  function Posteriors(s: Schema, smoothing: bool, counts: seq<Double>, t: Tables, row: seq<Value>,
                      gauss: (seq<Double>, Double) -> Double, n: nat): (r: Result<seq<Double>>)
    requires Buildable(s) && |counts| == |ClassValues(s)| && n <= |row| == |s.features|
    ensures r.Ok? ==> |r.value| == |counts|
    decreases n
  {
    if n == 0 then Ok(Priors(counts))
    else
      match Posteriors(s, smoothing, counts, t, row, gauss, n - 1)
      case Err(e) => Err(e)
      case Ok(p) => ClassPass(s, smoothing, t, row, gauss, n - 1, p, |ClassValues(s)|)
  }

  /** `getDistribution`: the full-length gate, then the posteriors. */
  function Distribution(s: Schema, smoothing: bool, counts: seq<Double>, t: Tables, row: seq<Value>,
                        gauss: (seq<Double>, Double) -> Double): (r: Result<seq<Double>>)
    requires Buildable(s) && |counts| == |ClassValues(s)|
    ensures r.Ok? ==> |r.value| == |counts|
  {
    if !Complies(s.features, row, true) then Err(IncompatibleInstance)
    else Posteriors(s, smoothing, counts, t, row, gauss, |row|)
  }

  /** `classify`: the class category at the first strictly greatest
      posterior, the first category when none exceeds 0. */
  function Classification(s: Schema, smoothing: bool, counts: seq<Double>, t: Tables, row: seq<Value>,
                          gauss: (seq<Double>, Double) -> Double): Result<Value>
    requires Buildable(s) && |counts| == |ClassValues(s)|
  {
    match Distribution(s, smoothing, counts, t, row, gauss)
    case Err(e) => Err(e)
    case Ok(p) => CategoryValue(ClassFeature(s), Argmax.FirstMax(p))
  }

  lemma {:induction false} ClassPassStop(s: Schema, smoothing: bool, t: Tables, row: seq<Value>,
                                         gauss: (seq<Double>, Double) -> Double, i: nat, post: seq<Double>, k: nat, m: nat)
    requires Buildable(s) && i < |row| == |s.features|
    requires |post| == |ClassValues(s)| && k <= m <= |ClassValues(s)|
    requires ClassPass(s, smoothing, t, row, gauss, i, post, k).Err?
    ensures ClassPass(s, smoothing, t, row, gauss, i, post, m) == ClassPass(s, smoothing, t, row, gauss, i, post, k)
    decreases m
  {
    if k < m {
      ClassPassStop(s, smoothing, t, row, gauss, i, post, k, m - 1);
    }
  }

  lemma {:induction false} PosteriorsStop(s: Schema, smoothing: bool, counts: seq<Double>, t: Tables, row: seq<Value>,
                                          gauss: (seq<Double>, Double) -> Double, k: nat, n: nat)
    requires Buildable(s) && |counts| == |ClassValues(s)| && k <= n <= |row| == |s.features|
    requires Posteriors(s, smoothing, counts, t, row, gauss, k).Err?
    ensures Posteriors(s, smoothing, counts, t, row, gauss, n) == Posteriors(s, smoothing, counts, t, row, gauss, k)
    decreases n
  {
    if k < n {
      PosteriorsStop(s, smoothing, counts, t, row, gauss, k, n - 1);
    }
  }

  /** One more class value of the inner loop, from the posteriors so far. */
  lemma ClassPassNext(s: Schema, smoothing: bool, t: Tables, row: seq<Value>, gauss: (seq<Double>, Double) -> Double,
                      i: nat, post: seq<Double>, k: nat, p: seq<Double>)
    requires Buildable(s) && i < |row| == |s.features|
    requires |post| == |ClassValues(s)| && k < |ClassValues(s)|
    requires ClassPass(s, smoothing, t, row, gauss, i, post, k) == Ok(p)
    ensures ClassPass(s, smoothing, t, row, gauss, i, post, k + 1) == ClassStep(s, smoothing, t, row, gauss, i, p, k)
  {
  }

  /** One more position of the position loop, from the posteriors so far. */
  lemma PosteriorsNext(s: Schema, smoothing: bool, counts: seq<Double>, t: Tables, row: seq<Value>,
                       gauss: (seq<Double>, Double) -> Double, i: nat, p: seq<Double>)
    requires Buildable(s) && |counts| == |ClassValues(s)| && i < |row| == |s.features|
    requires Posteriors(s, smoothing, counts, t, row, gauss, i) == Ok(p)
    ensures Posteriors(s, smoothing, counts, t, row, gauss, i + 1) == ClassPass(s, smoothing, t, row, gauss, i, p, |ClassValues(s)|)
  {
  }

  class NaiveBayes {
    const schema: Schema
    const smoothing: bool
    var classCounts: array<Double>
    var valueCounts: Tables

    ghost predicate Valid()
      reads this, classCounts
    {
      && Buildable(schema)
      && classCounts.Length == |ClassValues(schema)|
      && forall j :: 0 <= j < classCounts.Length ==> Whole(classCounts[j])
    }

    /** `NaiveBayes(signature, smoothing)`, which runs `initialize`. */
    constructor (s: Schema, laplaceSmoothing: bool)
      requires Buildable(s)
      ensures Valid() && schema == s && smoothing == laplaceSmoothing
      ensures classCounts[..] == Zeros(|ClassValues(s)|)
      ensures valueCounts == InitialTables(s.features, ClassValues(s))
    {
      schema, smoothing := s, laplaceSmoothing;
      var cc, t := InitialState(s);
      classCounts, valueCounts := cc, t;
      InitialTablesShaped(s);
    }

    /** `initialize`: fresh zero counts and tables. */
    method Initialize()
      requires Valid()
      modifies this
      ensures Valid() && fresh(classCounts)
      ensures classCounts[..] == Zeros(|ClassValues(schema)|)
      ensures valueCounts == InitialTables(schema.features, ClassValues(schema))
    {
      var cc, t := InitialState(schema);
      classCounts, valueCounts := cc, t;
      InitialTablesShaped(schema);
    }

    /** One turn of the position loop of `update`. */
    method UpdatePosition(row: seq<Value>, c: string, i: nat) returns (o: Outcome)
      requires FeaturesValid(schema) && i < |row| == |schema.features|
      modifies this`valueCounts
      ensures (o, valueCounts) == PositionUpdate(schema, old(valueCounts), row, c, i)
    {
      var f := schema.features[i];
      var v := row[i];
      if f.name !in valueCounts {
        return Fail(NullPointer);
      }
      if v.tag == NOMINAL_VALUE {
        var x := CategoryName(v.payload);
        if x.Err? {
          return Fail(x.error);
        }
        var fvi := IndexOfCategory(f, x.value);
        if fvi.Err? {
          return Fail(fvi.error);
        }
        if c !in valueCounts[f.name] {
          return Fail(NullPointer);
        }
        var cells := valueCounts[f.name][c];
        if fvi.value >= |cells| {
          return Fail(IndexOutOfBounds);
        }
        cells := cells[fvi.value := Add(cells[fvi.value], One)];
        valueCounts := Put(valueCounts, f.name, c, cells);
      } else if v.tag == NUMERIC_VALUE {
        if c !in valueCounts[f.name] {
          return Fail(NullPointer);
        }
        var t := valueCounts;
        var cells := t[f.name][c];
        if |cells| < 1 {
          assert t[f.name][c := cells] == t[f.name];
          assert Put(t, f.name, c, cells) == t;
          return Fail(IndexOutOfBounds);
        }
        cells := cells[0 := Add(cells[0], One)];
        valueCounts := Put(t, f.name, c, cells);
        if |cells| < 2 {
          return Fail(IndexOutOfBounds);
        }
        var d := NumberOf(v.payload);
        if d.Err? {
          return Fail(d.error);
        }
        cells := cells[1 := Add(cells[1], d.value)];
        valueCounts := Put(t, f.name, c, cells);
        if |cells| < 3 {
          return Fail(IndexOutOfBounds);
        }
        cells := cells[2 := Add(cells[2], Mul(d.value, d.value))];
        valueCounts := Put(t, f.name, c, cells);
      }
      o := Pass;
    }

    /** `update`: the gate, the class count of the instance's class, then
        every position's statistics under that class. */
    method Update(row: seq<Value>) returns (r: Outcome)
      requires Valid()
      modifies this, classCounts
      ensures Valid() && classCounts == old(classCounts)
      ensures (r, classCounts[..], valueCounts) == Updated(schema, old(classCounts[..]), old(valueCounts), row)
    {
      var ok := CheckCompliance(schema.features, row, true);
      if !ok {
        return Fail(IncompatibleInstance);
      }
      ghost var oc, ot := classCounts[..], valueCounts;
      var cf := schema.features[schema.classIndex];
      var name := CategoryName(row[schema.classIndex].payload);
      if name.Err? {
        return Fail(name.error);
      }
      var k := IndexOfCategory(cf, name.value);
      if k.Err? {
        return Fail(k.error);
      }
      var c := cf.categories.value[k.value];
      ghost var nc := oc[k.value := Add(oc[k.value], One)];
      assert Updated(schema, oc, ot, row)
          == (PositionUpdates(schema, ot, row, c, |row|).0, nc, PositionUpdates(schema, ot, row, c, |row|).1);
      WholeSucc(classCounts[k.value]);
      classCounts[k.value] := Add(classCounts[k.value], One);
      assert classCounts[..] == nc;
      r := UpdatePositions(row, c);
    }

    /** The position loop of `update` under class category c. */
    method UpdatePositions(row: seq<Value>, c: string) returns (r: Outcome)
      requires FeaturesValid(schema) && |row| == |schema.features|
      modifies this`valueCounts
      ensures (r, valueCounts) == PositionUpdates(schema, old(valueCounts), row, c, |row|)
    {
      ghost var t0 := valueCounts;
      var i := 0;
      while i < |row|
        invariant 0 <= i <= |row|
        invariant (Pass, valueCounts) == PositionUpdates(schema, t0, row, c, i)
      {
        PositionsNext(schema, t0, row, c, i);
        r := UpdatePosition(row, c, i);
        if r.Fail? {
          PositionsStop(schema, t0, row, c, i + 1, |row|);
          return;
        }
        i := i + 1;
      }
      r := Pass;
    }

    /** `train`: sequential `update`, stopping at the first throw. */
    method Train(rows: seq<seq<Value>>) returns (r: Outcome)
      requires Valid()
      modifies this, classCounts
      ensures Valid() && classCounts == old(classCounts)
      ensures (r, classCounts[..], valueCounts) == Trained(schema, old(classCounts[..]), old(valueCounts), rows)
    {
      var i := 0;
      while i < |rows|
        invariant 0 <= i <= |rows|
        invariant Valid() && classCounts == old(classCounts)
        invariant (Pass, classCounts[..], valueCounts) == Trained(schema, old(classCounts[..]), old(valueCounts), rows[..i])
      {
        assert rows[..i + 1][..i] == rows[..i];
        r := Update(rows[i]);
        if r.Fail? {
          TrainedStops(schema, old(classCounts[..]), old(valueCounts), rows, i + 1);
          return;
        }
        i := i + 1;
      }
      assert rows[..|rows|] == rows;
      r := Pass;
    }

    /** The prior part of `getDistribution`: the int total of the class
        counts, then one prior per class value. */
    method PriorArray() returns (post: array<Double>)
      requires Valid()
      ensures fresh(post) && post[..] == Priors(classCounts[..])
    {
      var total := 0;
      var j := 0;
      while j < classCounts.Length
        invariant 0 <= j <= classCounts.Length
        invariant total == CountTotal(classCounts[..j])
      {
        assert classCounts[..j + 1][..j] == classCounts[..j];
        total := Narrow(Add(Fin(total as real), classCounts[j]));
        j := j + 1;
      }
      assert classCounts[..classCounts.Length] == classCounts[..];
      post := new Double[classCounts.Length](_ => Zero);
      j := 0;
      while j < post.Length
        invariant 0 <= j <= post.Length
        invariant forall q :: 0 <= q < j ==> post[q] == Priors(classCounts[..])[q]
      {
        if total == 0 {
          post[j] := Fin(1.0 / post.Length as real);
        } else {
          post[j] := Div(classCounts[j], total as real);
        }
        j := j + 1;
      }
    }

    /** The body of the inner loop of `getDistribution`: class value k at position i. */
    method ApplyClass(post: array<Double>, row: seq<Value>, gauss: (seq<Double>, Double) -> Double, i: nat, k: nat)
      returns (e: Option<Error>)
      requires Buildable(schema) && i < |row| == |schema.features|
      requires post.Length == |ClassValues(schema)| && k < post.Length
      modifies post
      ensures e.None? ==> ClassStep(schema, smoothing, valueCounts, row, gauss, i, old(post[..]), k) == Ok(post[..])
      ensures e.Some? ==> ClassStep(schema, smoothing, valueCounts, row, gauss, i, old(post[..]), k) == Err(e.value)
    {
      var c := schema.features[schema.classIndex].categories.value[k];
      var idx := IndexOfCategory(schema.features[schema.classIndex], c);
      var factor := Factor(schema, smoothing, valueCounts, row, gauss, i, c);
      if factor.Err? {
        return Some(factor.error);
      }
      if factor.value.Some? {
        post[idx.value] := Mul(post[idx.value], factor.value.value);
      }
      e := None;
    }

    /** The inner loop of `getDistribution` at position i. */
    method ApplyPosition(post: array<Double>, row: seq<Value>, gauss: (seq<Double>, Double) -> Double, i: nat)
      returns (e: Option<Error>)
      requires Buildable(schema) && i < |row| == |schema.features| && post.Length == |ClassValues(schema)|
      modifies post
      ensures e.None? ==> ClassPass(schema, smoothing, valueCounts, row, gauss, i, old(post[..]), |ClassValues(schema)|) == Ok(post[..])
      ensures e.Some? ==> ClassPass(schema, smoothing, valueCounts, row, gauss, i, old(post[..]), |ClassValues(schema)|) == Err(e.value)
    {
      var cf := schema.features[schema.classIndex];
      var cats := cf.categories.value;
      ghost var p0 := post[..];
      var k := 0;
      while k < |cats|
        invariant 0 <= k <= |cats|
        invariant ClassPass(schema, smoothing, valueCounts, row, gauss, i, p0, k) == Ok(post[..])
      {
        ClassPassNext(schema, smoothing, valueCounts, row, gauss, i, p0, k, post[..]);
        e := ApplyClass(post, row, gauss, i, k);
        if e.Some? {
          ClassPassStop(schema, smoothing, valueCounts, row, gauss, i, p0, k + 1, |cats|);
          return;
        }
        k := k + 1;
      }
      e := None;
    }

    /** `getDistribution`: the gate, the priors, then for every position
        and every class value the factor multiplied into that class value's
        posterior. A fresh array, as in Java. */
    method GetDistribution(row: seq<Value>, gauss: (seq<Double>, Double) -> Double) returns (r: Result<array<Double>>)
      requires Valid()
      ensures r.Err? ==> Distribution(schema, smoothing, classCounts[..], valueCounts, row, gauss) == Err(r.error)
      ensures r.Ok? ==> fresh(r.value)
                        && Distribution(schema, smoothing, classCounts[..], valueCounts, row, gauss) == Ok(r.value[..])
    {
      var ok := CheckCompliance(schema.features, row, true);
      if !ok {
        return Err(IncompatibleInstance);
      }
      var post := PriorArray();
      var e := ApplyPositions(post, row, gauss);
      if e.Some? {
        return Err(e.value);
      }
      r := Ok(post);
    }

    /** The position loop of `getDistribution`, from the priors in post. */
    method ApplyPositions(post: array<Double>, row: seq<Value>, gauss: (seq<Double>, Double) -> Double)
      returns (e: Option<Error>)
      requires Buildable(schema) && classCounts.Length == |ClassValues(schema)| && |row| == |schema.features|
      requires post.Length == classCounts.Length && post != classCounts
      requires post[..] == Priors(classCounts[..])
      modifies post
      ensures e.None? ==> Posteriors(schema, smoothing, classCounts[..], valueCounts, row, gauss, |row|) == Ok(post[..])
      ensures e.Some? ==> Posteriors(schema, smoothing, classCounts[..], valueCounts, row, gauss, |row|) == Err(e.value)
    {
      ghost var counts := classCounts[..];
      var i := 0;
      while i < |row|
        invariant 0 <= i <= |row| && classCounts[..] == counts
        invariant Posteriors(schema, smoothing, counts, valueCounts, row, gauss, i) == Ok(post[..])
      {
        PosteriorsNext(schema, smoothing, counts, valueCounts, row, gauss, i, post[..]);
        e := ApplyPosition(post, row, gauss, i);
        if e.Some? {
          PosteriorsStop(schema, smoothing, counts, valueCounts, row, gauss, i + 1, |row|);
          return;
        }
        i := i + 1;
      }
      e := None;
    }

    /** `classify`: the distribution, then the first-maximum scan. */
    method Classify(row: seq<Value>, gauss: (seq<Double>, Double) -> Double) returns (r: Result<Value>)
      requires Valid()
      ensures r == Classification(schema, smoothing, classCounts[..], valueCounts, row, gauss)
    {
      var d := GetDistribution(row, gauss);
      if d.Err? {
        return Err(d.error);
      }
      var maxAposterioriIndex := Argmax.FirstMaxOf(d.value);
      r := CategoryValue(schema.features[schema.classIndex], maxAposterioriIndex);
    }
  }

  /** The whole position loop of `update` keeps every key and changes only
      rows of class category c: the rows of the other class values are
      untouched. */
  lemma {:induction false} PositionUpdatesLocal(s: Schema, t: Tables, row: seq<Value>, c: string, n: nat)
    requires FeaturesValid(s) && n <= |row| == |s.features|
    ensures SameKeys(t, PositionUpdates(s, t, row, c, n).1)
    ensures OnlyClass(t, PositionUpdates(s, t, row, c, n).1, c)
    decreases n
  {
    if n > 0 {
      PositionUpdatesLocal(s, t, row, c, n - 1);
      var (o, t1) := PositionUpdates(s, t, row, c, n - 1);
      if o.Pass? {
        PositionsNext(s, t, row, c, n - 1);
        LocalTrans(t, t1, PositionUpdate(s, t1, row, c, n - 1).1, c);
      }
    }
  }

  /** Locality composes along the loop. */
  lemma LocalTrans(t: Tables, t1: Tables, t2: Tables, c: string)
    requires SameKeys(t, t1) && OnlyClass(t, t1, c)
    requires SameKeys(t1, t2) && OnlyClass(t1, t2, c)
    ensures SameKeys(t, t2) && OnlyClass(t, t2, c)
  {
  }

  /** `update` keeps every key, and on a compliant instance changes only the
      rows filed under the instance's own class value. */
  lemma UpdateOnlyOwnClass(s: Schema, counts: seq<Double>, t: Tables, row: seq<Value>)
    requires Buildable(s) && |counts| == |ClassValues(s)|
    ensures !Complies(s.features, row, true) ==> Updated(s, counts, t, row) == (Fail(IncompatibleInstance), counts, t)
    ensures SameKeys(t, Updated(s, counts, t, row).2)
    ensures Complies(s.features, row, true) ==>
              forall n, c :: n in t && c in t[n] && row[s.classIndex].payload != Text(c) ==>
                Updated(s, counts, t, row).2[n][c] == t[n][c]
  {
    if Complies(s.features, row, true) {
      var p := row[s.classIndex].payload;
      if p.Text? && IndexOfCategory(ClassFeature(s), p.s).Ok? {
        var k := IndexOfCategory(ClassFeature(s), p.s).value;
        PositionUpdatesLocal(s, t, row, ClassValues(s)[k], |row|);
      }
    }
  }

  /** The class count of `update`: one more for the instance's class value
      (whatever the position loop does afterwards) and no other change; a
      MISSING class value (the NaN sentinel) is not stopped by the guard
      and fails its String cast; an undeclared one fails on the null index. */
  lemma UpdateClassCount(s: Schema, counts: seq<Double>, t: Tables, row: seq<Value>)
    requires Buildable(s) && |counts| == |ClassValues(s)|
    requires Complies(s.features, row, true)
    ensures var cats := ClassValues(s);
            var p := row[s.classIndex].payload;
            var r := Updated(s, counts, t, row);
            && (p.Number? ==> r == (Fail(ClassCast), counts, t))
            && (p.Null? ==> r == (Fail(NullPointer), counts, t))
            && (p.Text? && p.s !in cats ==> r == (Fail(NullPointer), counts, t))
            && (p.Text? && p.s in cats && Distinct(cats) ==>
                  forall j :: 0 <= j < |counts| ==>
                    r.1[j] == if cats[j] == p.s then Add(counts[j], One) else counts[j])
  {
    var cats := ClassValues(s);
    var p := row[s.classIndex].payload;
    if p.Text? && p.s in cats && Distinct(cats) {
      var k := IndexOfCategory(ClassFeature(s), p.s).value;
      forall j | 0 <= j < |counts|
        ensures Updated(s, counts, t, row).1[j] == if cats[j] == p.s then Add(counts[j], One) else counts[j]
      {
        if cats[j] == p.s {
          assert j == k;
        }
      }
    }
  }

  /** The cases of one position, on a row that exists: a MISSING value
      changes nothing; a nominal value adds one to the cell of its category
      only; a numeric value v adds (1, v, v*v) to the triple. */
  lemma PositionUpdateCases(s: Schema, t: Tables, row: seq<Value>, c: string, i: nat)
    requires FeaturesValid(s) && i < |row| == |s.features|
    requires s.features[i].name in t && c in t[s.features[i].name]
    ensures var f := s.features[i];
            var cells := t[f.name][c];
            var v := row[i];
            var r := PositionUpdate(s, t, row, c, i);
            && (v.tag != NOMINAL_VALUE && v.tag != NUMERIC_VALUE ==> r == (Pass, t))
            && (v.tag == NOMINAL_VALUE && v.payload.Text? && f.categories.Some? && v.payload.s in f.categories.value
                && Distinct(f.categories.value) && |cells| == |f.categories.value| ==>
                  && r.0 == Pass
                  && r.1 == Put(t, f.name, c, r.1[f.name][c])
                  && |r.1[f.name][c]| == |cells|
                  && forall j :: 0 <= j < |cells| ==>
                       r.1[f.name][c][j] == if f.categories.value[j] == v.payload.s then Add(cells[j], One) else cells[j])
            && (v.tag == NUMERIC_VALUE && v.payload.Number? && |cells| == 3 ==>
                  var d := v.payload.d;
                  r == (Pass, Put(t, f.name, c, [Add(cells[0], One), Add(cells[1], d), Add(cells[2], Mul(d, d))])))
  {
    var f := s.features[i];
    var cells := t[f.name][c];
    var v := row[i];
    assert Valid(f);
    if v.tag == NOMINAL_VALUE && v.payload.Text? && f.categories.Some? && v.payload.s in f.categories.value
       && Distinct(f.categories.value) && |cells| == |f.categories.value| {
      var k := IndexOfCategory(f, v.payload.s).value;
      forall j | 0 <= j < |cells|
        ensures PositionUpdate(s, t, row, c, i).1[f.name][c][j]
                == if f.categories.value[j] == v.payload.s then Add(cells[j], One) else cells[j]
      {
        if f.categories.value[j] == v.payload.s {
          assert j == k;
        }
      }
    }
    if v.tag == NUMERIC_VALUE && v.payload.Number? && |cells| == 3 {
      var d := v.payload.d;
      assert cells[0 := Add(cells[0], One)][1 := Add(cells[1], d)][2 := Add(cells[2], Mul(d, d))]
          == [Add(cells[0], One), Add(cells[1], d), Add(cells[2], Mul(d, d))];
    }
  }

  /** When training a fresh classifier succeeds, class count k is the number
      of instances whose class value is category k. */
  lemma {:induction false} TrainCountsClasses(s: Schema, t: Tables, rows: seq<seq<Value>>)
    requires Buildable(s) && Distinct(ClassValues(s))
    ensures var r := Trained(s, Zeros(|ClassValues(s)|), t, rows);
            r.0 == Pass ==>
              forall k :: 0 <= k < |r.1| ==> r.1[k] == Fin(Occurrences(rows, s.classIndex, ClassValues(s)[k]) as real)
    decreases |rows|
  {
    var cats := ClassValues(s);
    var z := Zeros(|cats|);
    if rows != [] && Trained(s, z, t, rows).0 == Pass {
      var init := rows[..|rows| - 1];
      var last := rows[|rows| - 1];
      TrainCountsClasses(s, t, init);
      var (o, c, t1) := Trained(s, z, t, init);
      assert o == Pass;
      var p := last[s.classIndex].payload;
      assert Complies(s.features, last, true);
      UpdateClassCount(s, c, t1, last);
      assert p.Text? && p.s in cats;
      forall k | 0 <= k < |c|
        ensures Trained(s, z, t, rows).1[k] == Fin(Occurrences(rows, s.classIndex, cats[k]) as real)
      {
        assert rows[..|rows| - 1] == init;
      }
    }
  }

  /** The sum of the finite values of a sequence. */
  function Mass(s: seq<Double>): real
    decreases |s|
  {
    if s == [] then 0.0
    else Mass(s[..|s| - 1]) + (if s[|s| - 1].Fin? then s[|s| - 1].v else 0.0)
  }

  /** On whole counts the narrowing int accumulator is exact. */
  lemma {:induction false} CountTotalWhole(counts: seq<Double>)
    requires AllWhole(counts)
    ensures CountTotal(counts) >= 0 && CountTotal(counts) as real == Mass(counts)
    decreases |counts|
  {
    if counts != [] {
      var init := counts[..|counts| - 1];
      assert forall j :: 0 <= j < |init| ==> init[j] == counts[j];
      assert AllWhole(init);
      CountTotalWhole(init);
      var total := CountTotal(init);
      var n := counts[|counts| - 1].v.Floor;
      assert total as real + counts[|counts| - 1].v == (total + n) as real;
      assert ((total + n) as real).Floor == total + n;
    }
  }

  lemma {:induction false} MassScaled(s: seq<Double>, u: seq<Double>, total: real)
    requires total != 0.0 && |s| == |u|
    requires forall j :: 0 <= j < |s| ==> s[j].Fin? && u[j] == Fin(s[j].v / total)
    ensures Mass(u) == Mass(s) / total
    decreases |s|
  {
    if s != [] {
      MassScaled(s[..|s| - 1], u[..|u| - 1], total);
    }
  }

  lemma {:induction false} MassConstant(u: seq<Double>, x: real)
    requires forall j :: 0 <= j < |u| ==> u[j] == Fin(x)
    ensures Mass(u) == |u| as real * x
    decreases |u|
  {
    if u != [] {
      MassConstant(u[..|u| - 1], x);
    }
  }

  predicate AllWhole(counts: seq<Double>)
  {
    forall j :: 0 <= j < |counts| ==> Whole(counts[j])
  }

  /** With a zero total the priors are uniform, 1/k each, and add up to 1. */
  lemma PriorsUniform(counts: seq<Double>)
    ensures forall j :: 0 <= j < |counts| ==> PriorsOf(counts, 0)[j] == Fin(1.0 / |counts| as real)
    ensures counts != [] ==> Mass(PriorsOf(counts, 0)) == 1.0
  {
    if counts != [] {
      var k := |counts| as real;
      var x := 1.0 / k;
      MassConstant(PriorsOf(counts, 0), x);
      assert k * x == 1.0;
    }
  }

  /** With a positive total, each prior is its count's share of the total:
      non-negative for a non-negative count, and proportional to it. */
  lemma PriorsShareEach(counts: seq<Double>, total: int, j: int)
    requires 0 <= j < |counts| && counts[j].Fin? && counts[j].v >= 0.0 && total > 0
    ensures PriorsOf(counts, total)[j].Fin?
    ensures PriorsOf(counts, total)[j].v >= 0.0
    ensures PriorsOf(counts, total)[j].v * (total as real) == counts[j].v
  {
    var m := total as real;
    var v := counts[j].v;
    assert PriorsOf(counts, total)[j] == Fin(v / m);
    assert (v / m) * m == v;
  }

  lemma DivSelf(x: real)
    requires x != 0.0
    ensures x / x == 1.0
  {
  }

  /** With a positive total equal to the sum of the counts, the priors add
      up to 1. */
  lemma PriorsShareSum(counts: seq<Double>, total: int)
    requires forall j :: 0 <= j < |counts| ==> counts[j].Fin?
    requires total > 0 && total as real == Mass(counts)
    ensures Mass(PriorsOf(counts, total)) == 1.0
  {
    var p := PriorsOf(counts, total);
    var m := total as real;
    forall j | 0 <= j < |counts|
      ensures p[j] == Fin(counts[j].v / m)
    {
      assert p[j] == Div(counts[j], m);
    }
    MassScaled(counts, p, m);
    assert Mass(p) == Mass(counts) / m;
    DivSelf(m);
  }

  /** On whole counts whose int total is their sum: uniform priors for a
      zero total, otherwise non-negative shares proportional to the counts;
      either way they add up to 1. */
  lemma PriorsWhole(counts: seq<Double>, total: int)
    requires AllWhole(counts) && total >= 0 && total as real == Mass(counts)
    ensures counts != [] ==> Mass(PriorsOf(counts, total)) == 1.0
    ensures forall j :: 0 <= j < |counts| ==> PriorsOf(counts, total)[j].Fin? && PriorsOf(counts, total)[j].v >= 0.0
    ensures total != 0 ==>
              forall j :: 0 <= j < |counts| ==> PriorsOf(counts, total)[j].v * (total as real) == counts[j].v
  {
    PriorsUniform(counts);
    if total != 0 {
      forall j | 0 <= j < |counts|
        ensures PriorsOf(counts, total)[j].Fin? && PriorsOf(counts, total)[j].v >= 0.0
        ensures PriorsOf(counts, total)[j].v * (total as real) == counts[j].v
      {
        assert Whole(counts[j]);
        PriorsShareEach(counts, total, j);
      }
      PriorsShareSum(counts, total);
    } else {
      forall j | 0 <= j < |counts|
        ensures PriorsOf(counts, total)[j].Fin? && PriorsOf(counts, total)[j].v >= 0.0
      {
        assert PriorsOf(counts, 0)[j] == Fin(1.0 / |counts| as real);
      }
    }
  }

  /** The priors `getDistribution` starts from are uniform, 1/k each, while
      the int total of the class counts is 0. */
  lemma PriorsBeforeTraining(counts: seq<Double>)
    ensures CountTotal(counts) == 0 ==>
              forall j :: 0 <= j < |counts| ==> Priors(counts)[j] == Fin(1.0 / |counts| as real)
  {
    PriorsUniform(counts);
  }

  /** On whole class counts the priors `getDistribution` starts from are
      non-negative and add up to 1. */
  lemma PriorsMeaning(counts: seq<Double>)
    requires AllWhole(counts)
    ensures forall j :: 0 <= j < |counts| ==> Priors(counts)[j].Fin? && Priors(counts)[j].v >= 0.0
    ensures counts != [] ==> Mass(Priors(counts)) == 1.0
  {
    CountTotalWhole(counts);
    PriorsWhole(counts, CountTotal(counts));
  }

  /** On whole class counts the int total is their sum, and once it is
      positive each prior is its class's count divided by that sum. */
  lemma PriorsProportional(counts: seq<Double>)
    requires AllWhole(counts)
    ensures CountTotal(counts) as real == Mass(counts)
    ensures Mass(counts) != 0.0 ==>
              forall j :: 0 <= j < |counts| ==> Priors(counts)[j] == Fin(counts[j].v / Mass(counts))
  {
    CountTotalWhole(counts);
  }

  /** 0 or NaN: a posterior that can no longer exceed 0, whatever it is
      multiplied by. */
  predicate ZeroOrNaN(d: Double)
  {
    d == Zero || d.NaN?
  }

  /** The inner loop never revives a posterior that is 0 or NaN; without
      smoothing, a nominal value at position i multiplies the posterior of
      every class value it reaches by 0. */
  lemma {:induction false} ClassPassZeroes(s: Schema, smoothing: bool, t: Tables, row: seq<Value>,
                                           gauss: (seq<Double>, Double) -> Double, i: nat, post: seq<Double>, m: nat)
    requires Buildable(s) && i < |row| == |s.features|
    requires |post| == |ClassValues(s)| && m <= |ClassValues(s)|
    requires ClassPass(s, smoothing, t, row, gauss, i, post, m).Ok?
    ensures var q := ClassPass(s, smoothing, t, row, gauss, i, post, m).value;
            forall j :: 0 <= j < |post| && ZeroOrNaN(post[j]) ==> ZeroOrNaN(q[j])
    ensures var q := ClassPass(s, smoothing, t, row, gauss, i, post, m).value;
            !smoothing && Distinct(ClassValues(s)) && row[i].tag == NOMINAL_VALUE ==>
              forall j :: 0 <= j < m ==> ZeroOrNaN(q[j])
    decreases m
  {
    if m > 0 {
      ClassPassZeroes(s, smoothing, t, row, gauss, i, post, m - 1);
      var p := ClassPass(s, smoothing, t, row, gauss, i, post, m - 1).value;
      var cats := ClassValues(s);
      var idx := IndexOfCategory(ClassFeature(s), cats[m - 1]).value;
      if !smoothing && Distinct(cats) && row[i].tag == NOMINAL_VALUE {
        assert idx == m - 1;
      }
    }
  }

  /** Without smoothing, once any position holds a nominal value every
      posterior is 0 or NaN. */
  lemma {:induction false} PosteriorsZeroed(s: Schema, counts: seq<Double>, t: Tables, row: seq<Value>,
                                            gauss: (seq<Double>, Double) -> Double, n: nat, i0: nat)
    requires Buildable(s) && Distinct(ClassValues(s)) && |counts| == |ClassValues(s)|
    requires i0 < n <= |row| == |s.features| && row[i0].tag == NOMINAL_VALUE
    requires Posteriors(s, false, counts, t, row, gauss, n).Ok?
    ensures forall j :: 0 <= j < |counts| ==> ZeroOrNaN(Posteriors(s, false, counts, t, row, gauss, n).value[j])
    decreases n
  {
    var p := Posteriors(s, false, counts, t, row, gauss, n - 1).value;
    if i0 < n - 1 {
      PosteriorsZeroed(s, counts, t, row, gauss, n - 1, i0);
    }
    ClassPassZeroes(s, false, t, row, gauss, n - 1, p, |ClassValues(s)|);
  }

  /** A strictly positive number. */
  predicate Positive(d: Double)
  {
    d.Fin? && d.v > 0.0
  }

  /** The cells of one table row are numbers no smaller than 0, as the
      counting cells of a nominal feature are after any training. */
  ghost predicate NonNegativeRow(t: Tables, n: string, c: string)
  {
    Row(t, n, c).Some? ==> forall j :: 0 <= j < |Row(t, n, c).value| ==> Row(t, n, c).value[j].Fin? && Row(t, n, c).value[j].v >= 0.0
  }

  /** Laplace smoothing: a nominal value's factor is at least
      1/numberOfCategories, so a feature value never seen with a class
      still leaves that class a positive likelihood. */
  lemma SmoothedFactorPositive(s: Schema, t: Tables, row: seq<Value>, gauss: (seq<Double>, Double) -> Double,
                               i: nat, c: string)
    requires FeaturesValid(s) && i < |row| == |s.features|
    requires row[i].tag == NOMINAL_VALUE && NonNegativeRow(t, s.features[i].name, c)
    requires Factor(s, true, t, row, gauss, i, c).Ok?
    ensures var x := Factor(s, true, t, row, gauss, i, c).value;
            && NumberOfCategories(s.features[i]) > 0
            && x.Some? && x.value.Fin? && x.value.v >= 1.0 / NumberOfCategories(s.features[i]) as real
            && Positive(x.value)
  {
  }

  /** With smoothing, one pass of the inner loop at a position holding no
      numeric value keeps every positive posterior positive. */
  lemma {:induction false} ClassPassPositive(s: Schema, t: Tables, row: seq<Value>, gauss: (seq<Double>, Double) -> Double,
                                             i: nat, post: seq<Double>, m: nat)
    requires Buildable(s) && i < |row| == |s.features|
    requires |post| == |ClassValues(s)| && m <= |ClassValues(s)|
    requires row[i].tag != NUMERIC_VALUE
    requires row[i].tag == NOMINAL_VALUE ==> forall c :: c in ClassValues(s) ==> NonNegativeRow(t, s.features[i].name, c)
    requires ClassPass(s, true, t, row, gauss, i, post, m).Ok?
    ensures forall j :: 0 <= j < |post| && Positive(post[j]) ==> Positive(ClassPass(s, true, t, row, gauss, i, post, m).value[j])
    decreases m
  {
    if m > 0 {
      ClassPassPositive(s, t, row, gauss, i, post, m - 1);
      var c := ClassValues(s)[m - 1];
      var fac := Factor(s, true, t, row, gauss, i, c);
      if fac.Ok? && fac.value.Some? {
        assert row[i].tag == NOMINAL_VALUE;
        SmoothedFactorPositive(s, t, row, gauss, i, c);
      }
    }
  }

  /** With smoothing, an instance of nominal and MISSING values only keeps
      every posterior whose prior is positive strictly positive. */
  lemma {:induction false} PosteriorsPositive(s: Schema, counts: seq<Double>, t: Tables, row: seq<Value>,
                                              gauss: (seq<Double>, Double) -> Double, n: nat)
    requires Buildable(s) && |counts| == |ClassValues(s)| && n <= |row| == |s.features|
    requires forall i :: 0 <= i < |row| ==> row[i].tag != NUMERIC_VALUE
    requires forall i, c :: 0 <= i < |row| && row[i].tag == NOMINAL_VALUE && c in ClassValues(s) ==>
               NonNegativeRow(t, s.features[i].name, c)
    requires Posteriors(s, true, counts, t, row, gauss, n).Ok?
    ensures forall j :: 0 <= j < |counts| && Positive(Priors(counts)[j]) ==>
              Positive(Posteriors(s, true, counts, t, row, gauss, n).value[j])
    decreases n
  {
    if n > 0 {
      PosteriorsPositive(s, counts, t, row, gauss, n - 1);
      var p := Posteriors(s, true, counts, t, row, gauss, n - 1).value;
      ClassPassPositive(s, t, row, gauss, n - 1, p, |ClassValues(s)|);
    }
  }

  /** On counts no smaller than 0 the mass is at least each count. */
  lemma {:induction false} MassAtLeast(counts: seq<Double>, j: nat)
    requires AllWhole(counts) && j < |counts|
    ensures Mass(counts) >= counts[j].v
    decreases |counts|
  {
    var last := |counts| - 1;
    assert AllWhole(counts[..last]) by {
      forall k | 0 <= k < last ensures Whole(counts[..last][k]) { assert counts[..last][k] == counts[k]; }
    }
    if j < last {
      MassAtLeast(counts[..last], j);
      assert counts[..last][j] == counts[j];
    } else if last > 0 {
      MassAtLeast(counts[..last], 0);
      assert counts[..last][0] == counts[0];
    }
  }

  /** Laplace smoothing as the classifier applies it: on trained counts,
      with an instance of nominal and MISSING values and non-negative
      nominal rows, every class observed in training keeps a positive
      posterior. Its limit: once some class was observed, a class never
      observed has prior 0, which no smoothed factor can lift. */
  lemma SmoothingKeepsObservedPositive(s: Schema, counts: seq<Double>, t: Tables, row: seq<Value>,
                                       gauss: (seq<Double>, Double) -> Double)
    requires Buildable(s) && |counts| == |ClassValues(s)| && AllWhole(counts)
    requires forall i :: 0 <= i < |row| ==> row[i].tag != NUMERIC_VALUE
    requires forall i, c :: 0 <= i < |row| && i < |s.features| && row[i].tag == NOMINAL_VALUE && c in ClassValues(s) ==>
               NonNegativeRow(t, s.features[i].name, c)
    requires Distribution(s, true, counts, t, row, gauss).Ok?
    ensures forall j :: 0 <= j < |counts| && counts[j].v > 0.0 ==>
              Positive(Distribution(s, true, counts, t, row, gauss).value[j])
    ensures (exists j :: 0 <= j < |counts| && counts[j].v > 0.0) ==>
              forall j :: 0 <= j < |counts| && counts[j] == Zero ==> Priors(counts)[j] == Zero
  {
    var p := Distribution(s, true, counts, t, row, gauss).value;
    assert Posteriors(s, true, counts, t, row, gauss, |row|) == Ok(p);
    assert forall j :: 0 <= j < |counts| && Positive(Priors(counts)[j]) ==> Positive(p[j]) by {
      PosteriorsPositive(s, counts, t, row, gauss, |row|);
    }
    ObservedPriors(counts);
  }

  /** On trained counts, a class observed at least once has a positive
      prior, and once some class was observed an unobserved one has prior 0. */
  lemma ObservedPriors(counts: seq<Double>)
    requires AllWhole(counts)
    ensures forall j :: 0 <= j < |counts| && counts[j].v > 0.0 ==> Positive(Priors(counts)[j])
    ensures (exists j :: 0 <= j < |counts| && counts[j].v > 0.0) ==>
              forall j :: 0 <= j < |counts| && counts[j] == Zero ==> Priors(counts)[j] == Zero
  {
    forall j | 0 <= j < |counts| && counts[j].v > 0.0 ensures Positive(Priors(counts)[j]) {
      PriorAt(counts, j, j);
    }
    if exists j :: 0 <= j < |counts| && counts[j].v > 0.0 {
      var j0 :| 0 <= j0 < |counts| && counts[j0].v > 0.0;
      forall j | 0 <= j < |counts| && counts[j] == Zero ensures Priors(counts)[j] == Zero {
        PriorAt(counts, j0, j);
      }
    }
  }

  /** The prior of class j once class j0 was observed: count/mass, so 0
      for an unobserved class and positive for an observed one. */
  lemma PriorAt(counts: seq<Double>, j0: nat, j: nat)
    requires AllWhole(counts) && j0 < |counts| && j < |counts| && counts[j0].v > 0.0
    ensures counts[j] == Zero ==> Priors(counts)[j] == Zero
    ensures counts[j].v > 0.0 ==> Positive(Priors(counts)[j])
  {
    MassAtLeast(counts, j0);
    PriorsProportional(counts);
    assert Priors(counts)[j] == Fin(counts[j].v / Mass(counts));
  }

  /** Because `classFeatureTotal` is never summed, without smoothing any
      instance with a nominal value gets no positive posterior, and
      `classify` answers the first class category whatever was learnt. */
  lemma NoSmoothingPicksFirst(s: Schema, counts: seq<Double>, t: Tables, row: seq<Value>,
                              gauss: (seq<Double>, Double) -> Double, i0: nat)
    requires Buildable(s) && Distinct(ClassValues(s)) && ClassValues(s) != [] && |counts| == |ClassValues(s)|
    requires i0 < |row| && row[i0].tag == NOMINAL_VALUE
    requires Distribution(s, false, counts, t, row, gauss).Ok?
    ensures Classification(s, false, counts, t, row, gauss) == Ok(Value(Text(ClassValues(s)[0]), NOMINAL_VALUE))
  {
    var p := Distribution(s, false, counts, t, row, gauss).value;
    PosteriorsZeroed(s, counts, t, row, gauss, |row|, i0);
    Argmax.FirstMaxMeaning(p);
  }

  /** `classify` answers the class category at the first strictly greatest
      positive posterior, and the first category when none is positive. */
  lemma ClassificationIsArgmax(s: Schema, smoothing: bool, counts: seq<Double>, t: Tables, row: seq<Value>,
                               gauss: (seq<Double>, Double) -> Double)
    requires Buildable(s) && |counts| == |ClassValues(s)|
    requires Distribution(s, smoothing, counts, t, row, gauss).Ok?
    ensures var p := Distribution(s, smoothing, counts, t, row, gauss).value;
            var cats := ClassValues(s);
            var r := Classification(s, smoothing, counts, t, row, gauss);
            && (cats != [] && (forall j :: 0 <= j < |p| ==> !Greater(p[j], Zero)) ==>
                  r == Ok(Value(Text(cats[0]), NOMINAL_VALUE)))
            && ((exists j :: 0 <= j < |p| && Greater(p[j], Zero)) ==>
                  exists k :: 0 <= k < |p|
                    && r == Ok(Value(Text(cats[k]), NOMINAL_VALUE))
                    && Greater(p[k], Zero)
                    && (forall j :: 0 <= j < |p| ==> !Greater(p[j], p[k]))
                    && (forall j :: 0 <= j < k && p[j].Fin? ==> p[j].v < p[k].v))
  {
    Argmax.FirstMaxMeaning(Distribution(s, smoothing, counts, t, row, gauss).value);
  }
}
