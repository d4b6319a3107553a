/** A Feature is one column: NOMINAL with an ordered category list and a
    category-to-index map, or NUMERIC without either. Nothing changes a
    Feature after construction, so it is a datatype; the constructors that
    fill the index map with a loop are methods. */
module Features {
  import opened Errors

  const NOMINAL: int := 0
  const NUMERIC: int := 1

  /** `categories` is None where the Java field stays null (the constructor
      without categories); `categoryIndex` is then empty. */
  datatype Feature = Feature(ftype: int, name: string, categories: Option<seq<string>>,
                             categoryIndex: map<string, int>)

  /** The map the constructors' `put` loop leaves: each category maps to its
      LAST position, because a later `put` overwrites an earlier one. */
  function IndexMap(cats: seq<string>): map<string, int>
    decreases |cats|
  {
    if cats == [] then map[] else IndexMap(cats[..|cats| - 1])[cats[|cats| - 1] := |cats| - 1]
  }

  /** What the constructors guarantee about a Feature. */
  ghost predicate Valid(f: Feature)
  {
    && (f.ftype == NOMINAL ==> f.categories.Some?)
    && (f.ftype == NUMERIC ==> f.categories.None?)
    && (f.categories.None? ==> f.categoryIndex == map[])
    && (f.categories.Some? ==> f.categoryIndex == IndexMap(f.categories.value))
  }

  /** Keys of the index map are exactly the declared categories; each maps to
      the last position holding it. */
  lemma {:induction false} IndexMapLast(cats: seq<string>)
    ensures IndexMap(cats).Keys == set i | 0 <= i < |cats| :: cats[i]
    ensures forall c :: c in IndexMap(cats) ==>
              0 <= IndexMap(cats)[c] < |cats| && cats[IndexMap(cats)[c]] == c
              && forall j :: IndexMap(cats)[c] < j < |cats| ==> cats[j] != c
    decreases |cats|
  {
    if cats != [] {
      var n := |cats| - 1;
      var init := cats[..n];
      IndexMapLast(init);
      assert forall i :: 0 <= i < n ==> init[i] == cats[i];
      var m := IndexMap(cats);
      assert m == IndexMap(init)[cats[n] := n];
      forall c | c in m
        ensures 0 <= m[c] < |cats| && cats[m[c]] == c && forall j :: m[c] < j < |cats| ==> cats[j] != c
      {
        if c != cats[n] {
          assert c in IndexMap(init);
        }
      }
      assert m.Keys == (set i | 0 <= i < n :: init[i]) + {cats[n]};
      forall c | c in m.Keys ensures c in (set i | 0 <= i < |cats| :: cats[i]) {
        if c != cats[n] {
          var i :| 0 <= i < n && init[i] == c;
          assert cats[i] == c;
        }
      }
      forall c | c in (set i | 0 <= i < |cats| :: cats[i]) ensures c in m.Keys {
        var i :| 0 <= i < |cats| && cats[i] == c;
        if i < n { assert init[i] == c; }
      }
    }
  }

  /** The `put` loop of the constructors, proved to build IndexMap. */
  method BuildCategoryIndex(cats: seq<string>) returns (m: map<string, int>)
    ensures m.Keys == set i | 0 <= i < |cats| :: cats[i]
    ensures forall c :: c in m ==> 0 <= m[c] < |cats| && cats[m[c]] == c
    ensures m == IndexMap(cats)
  {
    m := map[];
    var i := 0;
    while i < |cats|
      invariant 0 <= i <= |cats|
      invariant m == IndexMap(cats[..i])
    {
      assert cats[..i + 1][..i] == cats[..i];
      m := m[cats[i] := i];
      i := i + 1;
    }
    assert cats[..|cats|] == cats;
    IndexMapLast(cats);
  }

  /** `Feature(fname, ftype)`: NOMINAL needs categories and is refused; any
      other type (NUMERIC, or an undeclared number) is accepted. */
  function NewFeature(fname: string, ftype: int): (r: Result<Feature>)
    ensures r.Err? <==> ftype == NOMINAL
    ensures r.Err? ==> r.error == IncompatibleFeatureType
    ensures r.Ok? ==> Valid(r.value) && r.value.ftype == ftype && r.value.name == fname
                      && r.value.categories.None?
  {
    if ftype == NOMINAL then Err(IncompatibleFeatureType)
    else Ok(Feature(ftype, fname, None, map[]))
  }

  /** `Feature(fname, ftype, String[])` and `Feature(fname, ftype, ArrayList)`:
      both copy the list (a sequence is a value, so the caller's later changes
      cannot reach it), refuse NUMERIC, and index every category. */
  method NewCategoricalFeature(fname: string, ftype: int, values: seq<string>) returns (r: Result<Feature>)
    ensures r.Err? <==> ftype == NUMERIC
    ensures r.Err? ==> r.error == IncompatibleFeatureType
    ensures r.Ok? ==> Valid(r.value) && r.value.ftype == ftype && r.value.name == fname
                      && r.value.categories == Some(values)
  {
    if ftype == NUMERIC {
      return Err(IncompatibleFeatureType);
    }
    var index := BuildCategoryIndex(values);
    r := Ok(Feature(ftype, fname, Some(values), index));
  }

  /** `indexOfCategory`: the map lookup; an undeclared category (or a feature
      without categories) yields null, whose unboxing throws. */
  function IndexOfCategory(f: Feature, c: string): (r: Result<int>)
    requires Valid(f)
    ensures r.Ok? <==> f.categories.Some? && c in f.categories.value
    ensures r.Err? ==> r.error == NullPointer
    ensures r.Ok? ==> 0 <= r.value < |f.categories.value| && f.categories.value[r.value] == c
  {
    IndexMapLast(if f.categories.Some? then f.categories.value else []);
    if c in f.categoryIndex then Ok(f.categoryIndex[c]) else Err(NullPointer)
  }

  /** `categoryOfIndex`: a list access, failing outside the list (or on the
      null list of a feature without categories). */
  function CategoryOfIndex(f: Feature, i: int): (r: Result<string>)
    ensures r.Ok? <==> f.categories.Some? && 0 <= i < |f.categories.value|
    ensures r.Ok? ==> r.value == f.categories.value[i]
    ensures f.categories.None? ==> r == Err(NullPointer)
    ensures f.categories.Some? && !(0 <= i < |f.categories.value|) ==> r == Err(IndexOutOfBounds)
  {
    match f.categories
    case None => Err(NullPointer)
    case Some(cats) => if 0 <= i < |cats| then Ok(cats[i]) else Err(IndexOutOfBounds)
  }

  /** `numberOfCategories`: the category count for NOMINAL, 1 otherwise. */
  function NumberOfCategories(f: Feature): (n: nat)
    requires Valid(f)
    ensures f.ftype == NOMINAL ==> n == |f.categories.value|
    ensures f.ftype != NOMINAL ==> n == 1
  {
    if f.ftype == NOMINAL then |f.categories.value| else 1
  }

  ghost predicate Distinct(cats: seq<string>)
  {
    forall i, j :: 0 <= i < j < |cats| ==> cats[i] != cats[j]
  }

  /** Looking up the name of a declared category gives back a position that
      holds that name, and with distinct categories the lookups are inverse. */
  lemma CategoryRoundTrip(f: Feature, i: int, c: string)
    requires Valid(f) && f.categories.Some?
    ensures c in f.categories.value ==> CategoryOfIndex(f, IndexOfCategory(f, c).value) == Ok(c)
    ensures Distinct(f.categories.value) && 0 <= i < |f.categories.value| ==>
              IndexOfCategory(f, CategoryOfIndex(f, i).value) == Ok(i)
  {
    var cats := f.categories.value;
    IndexMapLast(cats);
    if Distinct(cats) && 0 <= i < |cats| {
      var j := f.categoryIndex[cats[i]];
      assert cats[j] == cats[i];
    }
  }

  /** With a repeated category the map keeps the later position. */
  lemma DuplicateKeepsLast(cats: seq<string>, i: int, j: int)
    requires 0 <= i < j < |cats| && cats[i] == cats[j]
    ensures cats[i] in IndexMap(cats) && IndexMap(cats)[cats[i]] != i
    ensures IndexMap(cats)[cats[i]] >= j
  {
    IndexMapLast(cats);
    assert cats[i] in IndexMap(cats);
  }
}
