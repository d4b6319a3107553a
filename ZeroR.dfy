/** ZeroR ignores every feature but the class: for a NOMINAL class it counts
    each category and predicts the most frequent one; for a NUMERIC class it
    keeps a running sum and count and predicts their mean. */
module ZeroR {
  import opened Doubles
  import opened Errors
  import opened Values
  import opened Features
  import opened Signatures
  import Argmax

  /** The constructor does not throw: the class index is valid and the class
      feature is NOMINAL or NUMERIC (any other type leaves the count array
      null and `Arrays.fill` throws). */
  ghost predicate Buildable(s: Schema)
  {
    && ClassIndexOk(s)
    && FeaturesValid(s)
    && (ClassFeature(s).ftype == NOMINAL || ClassFeature(s).ftype == NUMERIC)
  }

  /** Length of the count array: one cell per class category, or (sum, count). */
  function Slots(s: Schema): nat
    requires Buildable(s)
  {
    if ClassFeature(s).ftype == NOMINAL then NumberOfCategories(ClassFeature(s)) else 2
  }

  /** One `update` on the counts: the result and the counts afterwards. */
  function Updated(s: Schema, counts: seq<Double>, row: seq<Value>): (r: (Outcome, seq<Double>))
    requires Buildable(s) && |counts| == Slots(s)
    ensures |r.1| == |counts|
    ensures r.0.Fail? ==> r.1 == counts
  {
    if !Complies(s.features, row, true) then (Fail(IncompatibleInstance), counts)
    else
      var cf := ClassFeature(s);
      var cv := row[s.classIndex];
      if cf.ftype == NOMINAL then
        match CategoryName(cv.payload)
        case Err(e) => (Fail(e), counts)
        case Ok(name) =>
          match IndexOfCategory(cf, name)
          case Err(e) => (Fail(e), counts)
          case Ok(k) => (Pass, counts[k := Add(counts[k], One)])
      else
        match NumberOf(cv.payload)
        case Err(e) => (Fail(e), counts)
        case Ok(d) => (Pass, counts[0 := Add(counts[0], d)][1 := Add(counts[1], One)])
  }

  /** `train`: `update` over the list in order, stopping at the first
      instance that throws; the updates before it stay applied. */
  function Trained(s: Schema, counts: seq<Double>, rows: seq<seq<Value>>): (r: (Outcome, seq<Double>))
    requires Buildable(s) && |counts| == Slots(s)
    ensures |r.1| == |counts|
    decreases |rows|
  {
    if rows == [] then (Pass, counts)
    else
      var (o, c) := Trained(s, counts, rows[..|rows| - 1]);
      if o.Fail? then (o, c) else Updated(s, c, rows[|rows| - 1])
  }

  /** What `classify` answers once the instance has passed the gate; it
      reads only the counts. `mean` stands for Java's `sum / count`. */
  function Prediction(s: Schema, counts: seq<Double>, mean: (Double, Double) -> Double): Result<Value>
    requires Buildable(s) && |counts| == Slots(s)
  {
    if ClassFeature(s).ftype == NOMINAL then CategoryValue(ClassFeature(s), Argmax.FirstMax(counts))
    else Ok(NewValue(Number(mean(counts[0], counts[1])), NUMERIC_VALUE))
  }

  /** For a NOMINAL class the prediction is the first category whose count
      is strictly greatest, the first category when no count is positive,
      and IndexOutOfBoundsException when the class has no category. */
  lemma PredictionIsMajority(s: Schema, counts: seq<Double>, mean: (Double, Double) -> Double)
    requires Buildable(s) && |counts| == Slots(s) && ClassFeature(s).ftype == NOMINAL
    ensures ClassFeature(s).categories.Some?
    ensures var cats := ClassFeature(s).categories.value;
      && (cats == [] ==> Prediction(s, counts, mean) == Err(IndexOutOfBounds))
      && (cats != [] && (forall j :: 0 <= j < |counts| ==> !Greater(counts[j], Zero)) ==>
            Prediction(s, counts, mean) == Ok(Value(Text(cats[0]), NOMINAL_VALUE)))
      && ((exists j :: 0 <= j < |counts| && Greater(counts[j], Zero)) ==>
            exists k :: 0 <= k < |counts|
              && Prediction(s, counts, mean) == Ok(Value(Text(cats[k]), NOMINAL_VALUE))
              && Greater(counts[k], Zero)
              && (forall j :: 0 <= j < |counts| ==> !Greater(counts[j], counts[k]))
              && (forall j :: 0 <= j < k && counts[j].Fin? ==> counts[j].v < counts[k].v))
  {
    assert Valid(s.features[s.classIndex]);
    Argmax.FirstMaxMeaning(counts);
  }

  class ZeroR {
    const schema: Schema
    const classCounts: array<Double>

    ghost predicate Valid()
      reads this
    {
      Buildable(schema) && classCounts.Length == Slots(schema)
    }

    /** Count array sized for the class and all zero. */
    constructor (s: Schema)
      requires Buildable(s)
      ensures Valid() && schema == s && fresh(classCounts)
      ensures classCounts[..] == Zeros(Slots(s))
    {
      schema := s;
      classCounts := new Double[Slots(s)](_ => Zero);
    }

    /** `update`: gate, then one count (NOMINAL) or the sum and count
        (NUMERIC) change; a failure changes nothing. */
    method Update(row: seq<Value>) returns (r: Outcome)
      requires Valid()
      modifies classCounts
      ensures Valid()
      ensures (r, classCounts[..]) == Updated(schema, old(classCounts[..]), row)
    {
      var ok := CheckCompliance(schema.features, row, true);
      if !ok {
        return Fail(IncompatibleInstance);
      }
      var cf := schema.features[schema.classIndex];
      var cv := row[schema.classIndex];
      if cf.ftype == NOMINAL {
        var name := CategoryName(cv.payload);
        if name.Err? {
          return Fail(name.error);
        }
        var k := IndexOfCategory(cf, name.value);
        if k.Err? {
          return Fail(k.error);
        }
        classCounts[k.value] := Add(classCounts[k.value], One);
      } else {
        var d := NumberOf(cv.payload);
        if d.Err? {
          return Fail(d.error);
        }
        classCounts[0] := Add(classCounts[0], d.value);
        classCounts[1] := Add(classCounts[1], One);
      }
      r := Pass;
    }

    /** `train`: sequential `update`, stopping at the first failure. */
    method Train(rows: seq<seq<Value>>) returns (r: Outcome)
      requires Valid()
      modifies classCounts
      ensures Valid()
      ensures (r, classCounts[..]) == Trained(schema, old(classCounts[..]), rows)
    {
      var i := 0;
      while i < |rows|
        invariant 0 <= i <= |rows|
        invariant Valid()
        invariant (Pass, classCounts[..]) == Trained(schema, old(classCounts[..]), rows[..i])
      {
        assert rows[..i + 1][..i] == rows[..i];
        r := Update(rows[i]);
        if r.Fail? {
          assert Trained(schema, old(classCounts[..]), rows[..i + 1]) == (r, classCounts[..]);
          TrainedStops(schema, old(classCounts[..]), rows, i + 1);
          return;
        }
        i := i + 1;
      }
      assert rows[..|rows|] == rows;
      r := Pass;
    }

    /** `classify`: the same full-length gate as `update`, then the
        prediction from the counts alone. */
    method Classify(row: seq<Value>, mean: (Double, Double) -> Double) returns (r: Result<Value>)
      requires Valid()
      ensures !Complies(schema.features, row, true) ==> r == Err(IncompatibleInstance)
      ensures Complies(schema.features, row, true) ==> r == Prediction(schema, classCounts[..], mean)
    {
      var ok := CheckCompliance(schema.features, row, true);
      if !ok {
        return Err(IncompatibleInstance);
      }
      var cf := schema.features[schema.classIndex];
      if cf.ftype == NOMINAL {
        var maxValueIndex := Argmax.FirstMaxOf(classCounts);
        r := CategoryValue(cf, maxValueIndex);
      } else {
        r := Ok(NewValue(Number(mean(classCounts[0], classCounts[1])), NUMERIC_VALUE));
      }
    }
  }

  /** Once `train` has failed at some instance, the later instances change nothing. */
  lemma {:induction false} TrainedStops(s: Schema, counts: seq<Double>, rows: seq<seq<Value>>, k: nat)
    requires Buildable(s) && |counts| == Slots(s)
    requires k <= |rows| && Trained(s, counts, rows[..k]).0.Fail?
    ensures Trained(s, counts, rows) == Trained(s, counts, rows[..k])
    decreases |rows| - k
  {
    if k < |rows| {
      assert rows[..k + 1][..k] == rows[..k];
      TrainedStops(s, counts, rows, k + 1);
    } else {
      assert rows[..k] == rows;
    }
  }

  /** The cases of `update`: the gate; for a NOMINAL class one more in the
      cell `indexOfCategory` gives for the class category and nothing else
      (so, with distinct categories, exactly the cell of that category), an
      undeclared category and a null class value failing on the null index,
      a number (MISSING included, the NaN sentinel) failing its String cast;
      for a NUMERIC class the value added to the sum and one to the count, a
      String failing its Double cast and a null failing its unboxing. */
  lemma UpdateCases(s: Schema, counts: seq<Double>, row: seq<Value>)
    requires Buildable(s) && |counts| == Slots(s)
    ensures !Complies(s.features, row, true) ==> Updated(s, counts, row) == (Fail(IncompatibleInstance), counts)
    ensures Complies(s.features, row, true) && ClassFeature(s).ftype == NOMINAL ==>
              var cats := ClassFeature(s).categories.value;
              var p := row[s.classIndex].payload;
              && (p.Text? && p.s in cats ==>
                    var k := IndexOfCategory(ClassFeature(s), p.s).value;
                    && 0 <= k < |counts| && cats[k] == p.s
                    && Updated(s, counts, row) == (Pass, counts[k := Add(counts[k], One)]))
              && (p.Text? && p.s in cats && Distinct(cats) ==>
                    Updated(s, counts, row).0 == Pass
                    && forall j :: 0 <= j < |counts| ==>
                         Updated(s, counts, row).1[j] == if cats[j] == p.s then Add(counts[j], One) else counts[j])
              && (p.Text? && p.s !in cats ==> Updated(s, counts, row) == (Fail(NullPointer), counts))
              && (p.Null? ==> Updated(s, counts, row) == (Fail(NullPointer), counts))
              && (p.Number? ==> Updated(s, counts, row) == (Fail(ClassCast), counts))
    ensures Complies(s.features, row, true) && ClassFeature(s).ftype == NUMERIC ==>
              var p := row[s.classIndex].payload;
              && (p.Number? ==> Updated(s, counts, row) == (Pass, [Add(counts[0], p.d), Add(counts[1], One)]))
              && (p.Text? ==> Updated(s, counts, row) == (Fail(ClassCast), counts))
              && (p.Null? ==> Updated(s, counts, row) == (Fail(NullPointer), counts))
  {
    assert Valid(s.features[s.classIndex]);
    if Complies(s.features, row, true) && ClassFeature(s).ftype == NOMINAL {
      var cats := ClassFeature(s).categories.value;
      var p := row[s.classIndex].payload;
      if p.Text? && p.s in cats && Distinct(cats) {
        var k := IndexOfCategory(ClassFeature(s), p.s).value;
        forall j | 0 <= j < |counts|
          ensures Updated(s, counts, row).1[j] == if cats[j] == p.s then Add(counts[j], One) else counts[j]
        {
          if cats[j] == p.s {
            assert j == k;
          }
        }
      }
    }
    if Complies(s.features, row, true) && ClassFeature(s).ftype == NUMERIC && row[s.classIndex].payload.Number? {
      var d := row[s.classIndex].payload.d;
      assert counts[0 := Add(counts[0], d)][1 := Add(counts[1], One)] == [Add(counts[0], d), Add(counts[1], One)];
    }
  }

  /** Every row passes the gate and names a declared class category. */
  ghost predicate Labelled(s: Schema, rows: seq<seq<Value>>)
    requires Buildable(s)
  {
    forall r: seq<Value> :: r in rows ==>
      && Complies(s.features, r, true)
      && r[s.classIndex].payload.Text?
      && ClassFeature(s).categories.Some?
      && r[s.classIndex].payload.s in ClassFeature(s).categories.value
  }

  /** Training a fresh NOMINAL ZeroR on labelled rows succeeds and leaves in
      cell k the number of rows whose class is category k. */
  lemma {:induction false} TrainCountsClasses(s: Schema, rows: seq<seq<Value>>)
    requires Buildable(s) && ClassFeature(s).ftype == NOMINAL
    requires ClassFeature(s).categories.Some? && Distinct(ClassFeature(s).categories.value)
    requires Labelled(s, rows)
    ensures var r := Trained(s, Zeros(Slots(s)), rows);
            && r.0 == Pass
            && forall k :: 0 <= k < |r.1| ==>
                 r.1[k] == Fin(Occurrences(rows, s.classIndex, ClassFeature(s).categories.value[k]) as real)
    decreases |rows|
  {
    var cats := ClassFeature(s).categories.value;
    var z := Zeros(Slots(s));
    if rows != [] {
      var init := rows[..|rows| - 1];
      var last := rows[|rows| - 1];
      assert forall r: seq<Value> :: r in init ==> r in rows;
      TrainCountsClasses(s, init);
      var (o, c) := Trained(s, z, init);
      UpdateCases(s, c, last);
      assert last in rows;
      forall k | 0 <= k < |c|
        ensures Trained(s, z, rows).1[k] == Fin(Occurrences(rows, s.classIndex, cats[k]) as real)
      {
        assert rows[..|rows| - 1] == init;
      }
    }
  }

  /** Training a NUMERIC ZeroR on rows with numeric class values adds the
      number of rows to the count cell and never fails. */
  lemma {:induction false} TrainCountsRows(s: Schema, counts: seq<Double>, rows: seq<seq<Value>>)
    requires Buildable(s) && ClassFeature(s).ftype == NUMERIC && |counts| == Slots(s)
    requires counts[1].Fin?
    requires forall r: seq<Value> :: r in rows ==> Complies(s.features, r, true) && r[s.classIndex].payload.Number?
    ensures Trained(s, counts, rows).0 == Pass
    ensures Trained(s, counts, rows).1[1] == Fin(counts[1].v + |rows| as real)
    decreases |rows|
  {
    if rows != [] {
      var init := rows[..|rows| - 1];
      assert forall r: seq<Value> :: r in init ==> r in rows;
      TrainCountsRows(s, counts, init);
      var (o, c) := Trained(s, counts, init);
      assert rows[|rows| - 1] in rows;
      UpdateCases(s, c, rows[|rows| - 1]);
    }
  }
}
