/** A Signature is the schema: the ordered features and the index of the
    class feature. Its compliance check gates every classifier call. */
module Signatures {
  import opened Errors
  import opened Values
  import opened Features
  import Instances

  /** The part of a Signature the classifiers read. */
  datatype Schema = Schema(features: seq<Feature>, classIndex: int)

  /** The class index points at a feature. */
  predicate ClassIndexOk(s: Schema)
  {
    0 <= s.classIndex < |s.features|
  }

  function ClassFeature(s: Schema): Feature
    requires ClassIndexOk(s)
  {
    s.features[s.classIndex]
  }

  /** `new Value(feature.categoryOfIndex(i), NOMINAL_VALUE)`: how the
      classifiers turn a winning index into an answer. */
  function CategoryValue(f: Feature, i: int): (r: Result<Value>)
    ensures r.Ok? <==> f.categories.Some? && 0 <= i < |f.categories.value|
    ensures r.Ok? ==> r.value == Value(Text(f.categories.value[i]), NOMINAL_VALUE)
  {
    match CategoryOfIndex(f, i)
    case Ok(c) => Ok(NewValue(Text(c), NOMINAL_VALUE))
    case Err(e) => Err(e)
  }

  /** The number of rows whose value at position ci is the category name c. */
  function Occurrences(rows: seq<seq<Value>>, ci: nat, c: string): (n: nat)
    ensures n <= |rows|
    decreases |rows|
  {
    if rows == [] then 0
    else
      var last := rows[|rows| - 1];
      Occurrences(rows[..|rows| - 1], ci, c) + (if ci < |last| && last[ci].payload == Text(c) then 1 else 0)
  }

  /** Every feature is one the Feature constructors can build. */
  ghost predicate FeaturesValid(s: Schema)
  {
    forall i :: 0 <= i < |s.features| ==> Valid(s.features[i])
  }

  /** `checkCompliance(instance, training)`: a training instance carries
      every feature, one to classify carries one fewer; position i is then
      compared with feature i (whatever the class index is), and a MISSING
      value passes everywhere. */
  predicate Complies(features: seq<Feature>, values: seq<Value>, training: bool)
  {
    && |values| == (if training then |features| else |features| - 1)
    && forall i :: 0 <= i < |values| ==>
         values[i].tag == MISSING_VALUE || values[i].tag == features[i].ftype
  }

  /** The early-return loop of `checkCompliance`, proved to decide Complies. */
  method CheckCompliance(features: seq<Feature>, values: seq<Value>, training: bool) returns (ok: bool)
    ensures ok <==> Complies(features, values, training)
  {
    var checkSize := |values|;
    if !training {
      checkSize := checkSize + 1;
    }
    if checkSize != |features| {
      return false;
    }
    var i := 0;
    while i < |values|
      invariant 0 <= i <= |values|
      invariant forall k :: 0 <= k < i ==> values[k].tag == MISSING_VALUE || values[k].tag == features[k].ftype
    {
      if features[i].ftype != values[i].tag && values[i].tag != MISSING_VALUE {
        return false;
      }
      i := i + 1;
    }
    return true;
  }

  /** Length is the first gate, the positional tags the second; a MISSING
      value can stand anywhere. */
  lemma ComplianceCases(features: seq<Feature>, values: seq<Value>, training: bool, i: int)
    ensures training && |values| != |features| ==> !Complies(features, values, training)
    ensures !training && |values| + 1 != |features| ==> !Complies(features, values, training)
    ensures Complies(features, values, training) && 0 <= i < |values| ==>
              Complies(features, values[i := Value(Number(Doubles.NaN), MISSING_VALUE)], training)
    ensures (0 <= i < |values| && i < |features| && values[i].tag != MISSING_VALUE
             && values[i].tag != features[i].ftype)
            ==> !Complies(features, values, training)
  {
  }

  /** The feature names map the constructor fills: the last feature with a
      given name wins. */
  function NameMap(features: seq<Feature>): map<string, Feature>
    decreases |features|
  {
    if features == [] then map[]
    else NameMap(features[..|features| - 1])[features[|features| - 1].name := features[|features| - 1]]
  }

  /** The map holds exactly the names of the features, and each name maps
      to the last feature that carries it. */
  lemma {:induction false} NameMapMeaning(features: seq<Feature>)
    ensures forall n :: n in NameMap(features) <==> exists i :: 0 <= i < |features| && features[i].name == n
    ensures forall n :: n in NameMap(features) ==>
              exists i :: 0 <= i < |features| && features[i].name == n && NameMap(features)[n] == features[i]
                          && forall j :: i < j < |features| ==> features[j].name != n
    decreases |features|
  {
    if features != [] {
      var init := features[..|features| - 1];
      var last := features[|features| - 1];
      NameMapMeaning(init);
      assert NameMap(features) == NameMap(init)[last.name := last];
      forall n | n in NameMap(features)
        ensures exists i :: 0 <= i < |features| && features[i].name == n && NameMap(features)[n] == features[i]
                            && forall j :: i < j < |features| ==> features[j].name != n
      {
        if n == last.name {
          assert features[|features| - 1].name == n;
        } else {
          assert n in NameMap(init);
          var i :| 0 <= i < |init| && init[i].name == n && NameMap(init)[n] == init[i]
                   && forall j :: i < j < |init| ==> init[j].name != n;
          assert features[i] == init[i];
        }
      }
      forall n | exists i :: 0 <= i < |features| && features[i].name == n
        ensures n in NameMap(features)
      {
        var i :| 0 <= i < |features| && features[i].name == n;
        if i < |init| {
          assert init[i].name == n;
        }
      }
    }
  }

  method BuildNameMap(features: seq<Feature>) returns (m: map<string, Feature>)
    ensures m == NameMap(features)
  {
    m := map[];
    var i := 0;
    while i < |features|
      invariant 0 <= i <= |features|
      invariant m == NameMap(features[..i])
    {
      assert features[..i + 1][..i] == features[..i];
      m := m[features[i].name := features[i]];
      i := i + 1;
    }
    assert features[..|features|] == features;
  }

  class Signature {
    var features: seq<Feature>
    var namesFeatures: map<string, Feature>
    var classIndex: int

    /** `Signature(features, classIndex)`: no validation of the index. */
    constructor (fs: seq<Feature>, ci: int)
      ensures features == fs && classIndex == ci && namesFeatures == NameMap(fs)
    {
      var names := BuildNameMap(fs);
      features, classIndex, namesFeatures := fs, ci, names;
    }

    /** `Signature(features)`: the last feature is the class feature. */
    constructor WithLastClass(fs: seq<Feature>)
      ensures features == fs && classIndex == |fs| - 1 && namesFeatures == NameMap(fs)
      ensures fs != [] ==> GetClassFeature() == Ok(fs[|fs| - 1])
    {
      var names := BuildNameMap(fs);
      features, classIndex, namesFeatures := fs, |fs| - 1, names;
    }

    /** `setClassIndex`: overwrites the index, valid or not. */
    method SetClassIndex(ci: int)
      modifies this`classIndex
      ensures classIndex == ci
    {
      classIndex := ci;
    }

    /** `getClassFeature`: the feature at the current class index. */
    function GetClassFeature(): (r: Result<Feature>)
      reads this
      ensures r.Ok? <==> 0 <= classIndex < |features|
      ensures r.Ok? ==> r.value == features[classIndex]
      ensures r.Err? ==> r.error == IndexOutOfBounds
    {
      if 0 <= classIndex < |features| then Ok(features[classIndex]) else Err(IndexOutOfBounds)
    }

    function Size(): nat
      reads this
    {
      |features|
    }

    function View(): Schema
      reads this
    {
      Schema(features, classIndex)
    }

    /** The method form of `checkCompliance` on an Instance object. */
    method CheckInstance(inst: Instances.Instance, training: bool) returns (ok: bool)
      ensures ok <==> Complies(features, inst.Values(), training)
    {
      ok := CheckCompliance(features, inst.list.elems, training);
    }
  }
}
