/** The classifier registry: the type tags, the dispatch of
    `createClassifier`, the name -> classifier map of ClassifierList, the
    "return the existing one" policy of MachineLearningManager and the tag
    switch of the JSON decoder. */
module Registry {
  import opened Errors
  import opened Features
  import opened Signatures
  import ZeroR
  import NaiveBayes
  import ID3

  const TYPE_ZERO_R := 1000
  const TYPE_NAIVE_BAYES := 1001
  /** Declared, but no classifier uses it. */
  const TYPE_BAYES_NET := 1002
  /** Tags the classifiers assign without a declaration; any values distinct
      from the three above behave the same. */
  const TYPE_ID3 := 1003
  const TYPE_DENSITY_CLUSTER := 1004

  /** A registered classifier: one of the three algorithms the registry can
      create, holding the object. */
  datatype Classifier =
    | ZR(z: ZeroR.ZeroR)
    | NB(n: NaiveBayes.NaiveBayes)
    | Tree(t: ID3.ID3)

  /** What `createClassifier` builds: the algorithm and, for NaiveBayes,
      whether Laplace smoothing is on. */
  datatype Algorithm = ZeroRAlgorithm | NaiveBayesAlgorithm(smoothing: bool) | ID3Algorithm

  /** The decoder the JSON adapter picks. */
  datatype Decoder = ZeroRDecoder | NaiveBayesDecoder | ID3Decoder

  function Kind(c: Classifier): Algorithm
  {
    match c
    case ZR(_) => ZeroRAlgorithm
    case NB(n) => NaiveBayesAlgorithm(n.smoothing)
    case Tree(_) => ID3Algorithm
  }

  function Obj(c: Classifier): object
  {
    match c
    case ZR(z) => z
    case NB(n) => n
    case Tree(t) => t
  }

  function SchemaOf(c: Classifier): Schema
  {
    match c
    case ZR(z) => z.schema
    case NB(n) => n.schema
    case Tree(t) => t.schema
  }

  /** The switch of `createClassifier`: NaiveBayes with smoothing, ID3 over
      all features, ZeroR; every other tag (density clustering included)
      falls to the default NaiveBayes, whose smoothing is the configured
      default. */
  function Dispatch(tag: int, defaultSmoothing: bool): (a: Algorithm)
    ensures a.ZeroRAlgorithm? <==> tag == TYPE_ZERO_R
    ensures a.ID3Algorithm? <==> tag == TYPE_ID3
    ensures a.NaiveBayesAlgorithm? && tag != TYPE_NAIVE_BAYES ==> a.smoothing == defaultSmoothing
  {
    if tag == TYPE_NAIVE_BAYES then NaiveBayesAlgorithm(true)
    else if tag == TYPE_ID3 then ID3Algorithm
    else if tag == TYPE_ZERO_R then ZeroRAlgorithm
    else NaiveBayesAlgorithm(defaultSmoothing)
  }

  /** The constructor of algorithm a does not throw on schema s. */
  ghost predicate Creatable(a: Algorithm, s: Schema)
  {
    match a
    case ZeroRAlgorithm => ZeroR.Buildable(s)
    case NaiveBayesAlgorithm(_) => NaiveBayes.Buildable(s)
    case ID3Algorithm => ClassIndexOk(s)
  }

  /** Whatever the algorithm, an invalid class index makes its constructor
      throw, and with a valid one ID3 is always built. */
  lemma CreatableCases(a: Algorithm, s: Schema)
    requires FeaturesValid(s)
    ensures !ClassIndexOk(s) ==> !Creatable(a, s)
    ensures ClassIndexOk(s) && a.ID3Algorithm? ==> Creatable(a, s)
    ensures ClassIndexOk(s) && a.ZeroRAlgorithm? ==>
              (Creatable(a, s) <==> ClassFeature(s).ftype == NOMINAL || ClassFeature(s).ftype == NUMERIC)
  {
  }

  /** `d_type` as the object stores it: ZeroR never assigns it, so it keeps
      Java's default 0. */
  function StoredTag(a: Algorithm): (tag: int)
    ensures tag == 0 <==> a.ZeroRAlgorithm?
  {
    match a
    case ZeroRAlgorithm => 0
    case NaiveBayesAlgorithm(_) => TYPE_NAIVE_BAYES
    case ID3Algorithm => TYPE_ID3
  }

  /** `ClassifierAdapter.deserialize`: the tag picks the decoder; for any
      other tag `result` stays null and the call on it throws. */
  function Decode(tag: int): (r: Result<Decoder>)
    ensures r.Ok? <==> tag == TYPE_NAIVE_BAYES || tag == TYPE_ID3 || tag == TYPE_ZERO_R
    ensures r.Err? ==> r.error == NullPointer
  {
    if tag == TYPE_NAIVE_BAYES then Ok(NaiveBayesDecoder)
    else if tag == TYPE_ID3 then Ok(ID3Decoder)
    else if tag == TYPE_ZERO_R then Ok(ZeroRDecoder)
    else Err(NullPointer)
  }

  /** Saving then loading: a stored NaiveBayes or ID3 comes back through its
      own decoder; a stored ZeroR (tag 0) cannot be decoded, and neither can
      a density clustering classifier. */
  lemma RestoreStored(a: Algorithm)
    ensures a.NaiveBayesAlgorithm? ==> Decode(StoredTag(a)) == Ok(NaiveBayesDecoder)
    ensures a.ID3Algorithm? ==> Decode(StoredTag(a)) == Ok(ID3Decoder)
    ensures a.ZeroRAlgorithm? ==> Decode(StoredTag(a)) == Err(NullPointer)
    ensures Decode(TYPE_DENSITY_CLUSTER) == Err(NullPointer)
  {
  }

  /** Every classifier the registry creates from a tag other than
      TYPE_ZERO_R can be restored; one created from TYPE_ZERO_R cannot. */
  lemma CreatedRestorable(tag: int, defaultSmoothing: bool)
    ensures Decode(StoredTag(Dispatch(tag, defaultSmoothing))).Ok? <==> tag != TYPE_ZERO_R
  {
    RestoreStored(Dispatch(tag, defaultSmoothing));
  }

  /** `getClassifier`: the entry under the name, or null when there is none. */
  function Lookup(m: map<string, Classifier>, name: string): (r: Option<Classifier>)
    ensures r.Some? <==> name in m
    ensures r.Some? ==> r.value == m[name]
  {
    if name in m then Some(m[name]) else None
  }

  /** Storing under a name makes that name look up to the new entry and
      leaves every other name as it was; removing a name makes it absent and
      leaves every other name as it was. */
  lemma LookupAfterUpdate(m: map<string, Classifier>, name: string, c: Classifier, other: string)
    ensures Lookup(m[name := c], name) == Some(c)
    ensures other != name ==> Lookup(m[name := c], other) == Lookup(m, other)
    ensures Lookup(m - {name}, name) == None
    ensures other != name ==> Lookup(m - {name}, other) == Lookup(m, other)
  {
  }

  /** `createClassifier`: the dispatch, then the constructor, whose
      exception (an invalid class index, or a schema the algorithm cannot
      hold) becomes the error. */
  method CreateClassifier(tag: int, s: Schema, defaultSmoothing: bool) returns (r: Result<Classifier>)
    requires FeaturesValid(s)
    ensures r.Ok? <==> Creatable(Dispatch(tag, defaultSmoothing), s)
    ensures r.Err? ==> r.error == if ClassIndexOk(s) then NullPointer else IndexOutOfBounds
    ensures r.Ok? ==> Kind(r.value) == Dispatch(tag, defaultSmoothing) && SchemaOf(r.value) == s
    ensures r.Ok? ==> fresh(Obj(r.value))
  {
    var a := Dispatch(tag, defaultSmoothing);
    if !ClassIndexOk(s) {
      return Err(IndexOutOfBounds);
    }
    var f := ClassFeature(s);
    if a.ZeroRAlgorithm? {
      if f.ftype != NOMINAL && f.ftype != NUMERIC {
        return Err(NullPointer);
      }
      var z := new ZeroR.ZeroR(s);
      r := Ok(ZR(z));
    } else if a.NaiveBayesAlgorithm? {
      if f.categories.None? || (f.categories.value != [] && !NaiveBayes.Typed(s)) {
        return Err(NullPointer);
      }
      var n := new NaiveBayes.NaiveBayes(s, a.smoothing);
      r := Ok(NB(n));
    } else {
      var t := new ID3.ID3.WithAllFeatures(s);
      r := Ok(Tree(t));
    }
  }

  /** ClassifierList: the classifiers by name. */
  class ClassifierList {
    var named: map<string, Classifier>

    constructor ()
      ensures named == map[]
    {
      named := map[];
    }

    /** `removeClassifier`: the name is gone, whether it was there or not. */
    method RemoveClassifier(name: string)
      modifies this
      ensures named == old(named) - {name}
    {
      if name in named {
        named := named - {name};
      }
    }

    /** `getClassifier`: null for an absent name. */
    function GetClassifier(name: string): (r: Option<Classifier>)
      reads this
      ensures r == Lookup(named, name)
    {
      if name in named then Some(named[name]) else None
    }

    /** `addClassifier`: a new classifier stored under the name, replacing
        any earlier one, and returned; when the constructor throws, the map
        is unchanged. */
    method AddClassifier(tag: int, s: Schema, name: string, defaultSmoothing: bool) returns (r: Result<Classifier>)
      requires FeaturesValid(s)
      modifies this
      ensures r.Ok? <==> Creatable(Dispatch(tag, defaultSmoothing), s)
      ensures r.Ok? ==> named == old(named)[name := r.value] && fresh(Obj(r.value))
      ensures r.Ok? ==> Kind(r.value) == Dispatch(tag, defaultSmoothing) && SchemaOf(r.value) == s
      ensures r.Err? ==> named == old(named)
    {
      r := CreateClassifier(tag, s, defaultSmoothing);
      if r.Ok? {
        named := named[name := r.value];
      }
    }
  }

  /** MachineLearningManager: the registry operations an application uses. */
  class MachineLearningManager {
    const classifiers: ClassifierList

    /** A manager over an empty list (nothing stored on the device). */
    constructor ()
      ensures fresh(classifiers) && classifiers.named == map[]
    {
      classifiers := new ClassifierList();
    }

    /** `addClassifier`: the classifier already registered under the name is
        returned and nothing changes; otherwise the list creates and stores
        a new one. */
    method AddClassifier(tag: int, s: Schema, name: string, defaultSmoothing: bool) returns (r: Result<Classifier>)
      requires FeaturesValid(s)
      modifies classifiers
      ensures name in old(classifiers.named) ==>
                r == Ok(old(classifiers.named)[name]) && classifiers.named == old(classifiers.named)
      ensures name !in old(classifiers.named) ==>
                && (r.Ok? <==> Creatable(Dispatch(tag, defaultSmoothing), s))
                && (r.Ok? ==> classifiers.named == old(classifiers.named)[name := r.value] && fresh(Obj(r.value)))
                && (r.Err? ==> classifiers.named == old(classifiers.named))
    {
      var cls := classifiers.GetClassifier(name);
      if cls.Some? {
        return Ok(cls.value);
      }
      r := classifiers.AddClassifier(tag, s, name, defaultSmoothing);
    }

    method RemoveClassifier(name: string)
      modifies classifiers
      ensures classifiers.named == old(classifiers.named) - {name}
    {
      classifiers.RemoveClassifier(name);
    }

    function GetClassifier(name: string): (r: Option<Classifier>)
      reads this, classifiers
      ensures r == Lookup(classifiers.named, name)
    {
      classifiers.GetClassifier(name)
    }
  }

  /** Two `addClassifier` calls under one name: the second returns the very
      object the first registered, and exactly that object stays reachable
      under the name. */
  method AddTwice(m: MachineLearningManager, tag1: int, tag2: int, s1: Schema, s2: Schema, name: string, d: bool)
    returns (r1: Result<Classifier>, r2: Result<Classifier>)
    requires FeaturesValid(s1) && FeaturesValid(s2)
    modifies m.classifiers
    ensures r1.Ok? ==> r2 == r1 && Lookup(m.classifiers.named, name) == Some(r1.value)
    ensures r1.Ok? ==> forall other :: other != name ==> Lookup(m.classifiers.named, other) == Lookup(old(m.classifiers.named), other)
  {
    r1 := m.AddClassifier(tag1, s1, name, d);
    r2 := m.AddClassifier(tag2, s2, name, d);
  }
}
