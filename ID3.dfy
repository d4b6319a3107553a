/** ID3 grows a decision tree over nominal features. A node whose training
    instances all carry one class value becomes a leaf with that value; a
    node with no candidate feature left becomes a leaf with the majority
    value; otherwise the node splits on the candidate with the greatest
    information gain and trains one subtree per category of that feature.
    The gain itself is a floating-point formula and is a parameter here;
    only the rule that picks among the gains is modelled. */
module ID3 {
  import opened Doubles
  import opened Errors
  import opened Values
  import opened Features
  import opened Signatures
  import Argmax

  /** The fields of one ID3 object that training and classification use:
      `d_isLeaf`, `d_majorValue`, `d_bestFeatureIndex` and `d_subtrees`.
      The subtrees are private objects only their parent reaches, so they
      are values. */
  datatype Node = Node(isLeaf: bool, major: Option<Value>, best: int, subtrees: map<string, Node>)

  /** A node as the constructor leaves it: a leaf whose majority value is null. */
  const Untrained: Node := Node(true, None, 0, map[])

  /** The information gain of splitting the rows on feature i. */
  type Gain = (seq<seq<Value>>, nat) -> Double

  /** The number of mask entries equal to 1: the features a node may still
      split on. */
  function Ones(mask: seq<int>): (n: nat)
    ensures n <= |mask|
    decreases |mask|
  {
    if mask == [] then 0 else Ones(mask[..|mask| - 1]) + (if mask[|mask| - 1] == 1 then 1 else 0)
  }

  /** `numCandidateFeatures`: the sum of the mask. */
  function Sum(mask: seq<int>): int
    decreases |mask|
  {
    if mask == [] then 0 else Sum(mask[..|mask| - 1]) + mask[|mask| - 1]
  }

  /** `allFeaturesArray`: 1 for every feature and 0 at the class index,
      which must lie inside the array. */
  function AllFeatures(s: Schema): (r: Result<seq<int>>)
    ensures r.Ok? <==> ClassIndexOk(s)
    ensures r.Err? ==> r.error == IndexOutOfBounds
    ensures r.Ok? ==> |r.value| == |s.features|
    ensures r.Ok? ==> forall i :: 0 <= i < |r.value| ==> (r.value[i] == 0 <==> i == s.classIndex)
    ensures r.Ok? ==> forall i :: 0 <= i < |r.value| ==> 0 <= r.value[i] <= 1
  {
    if ClassIndexOk(s) then Ok(seq(|s.features|, i => if i == s.classIndex then 0 else 1))
    else Err(IndexOutOfBounds)
  }

  /** The category index a row's value at position i names: the position
      must exist, the value must be a String, and the feature must declare
      it. */
  function CellIndex(f: Feature, row: seq<Value>, i: nat): (r: Result<int>)
    requires Valid(f)
    ensures r.Ok? <==> i < |row| && row[i].payload.Text? && f.categories.Some?
                       && row[i].payload.s in f.categories.value
    ensures r.Ok? ==> 0 <= r.value < |f.categories.value| && f.categories.value[r.value] == row[i].payload.s
  {
    if i >= |row| then Err(IndexOutOfBounds)
    else match CategoryName(row[i].payload)
      case Err(e) => Err(e)
      case Ok(name) => IndexOfCategory(f, name)
  }

  /** The first loop of `train`: one count per class category, failing at
      the first row whose class value is not a declared category. */
  function ClassCounts(s: Schema, rows: seq<seq<Value>>): (r: Result<seq<nat>>)
    requires ClassIndexOk(s) && FeaturesValid(s)
    ensures r.Ok? ==> |r.value| == NumberOfCategories(ClassFeature(s))
    decreases |rows|
  {
    if rows == [] then Ok(seq(NumberOfCategories(ClassFeature(s)), _ => 0))
    else
      match ClassCounts(s, rows[..|rows| - 1])
      case Err(e) => Err(e)
      case Ok(counts) =>
        match CellIndex(ClassFeature(s), rows[|rows| - 1], s.classIndex)
        case Err(e) => Err(e)
        case Ok(k) => if k < |counts| then Ok(counts[k := counts[k] + 1]) else Err(IndexOutOfBounds)
  }

  /** Exactly one count, the one at k, is positive. */
  predicate OnlyPositive(counts: seq<nat>, k: int)
  {
    0 <= k < |counts| && counts[k] > 0 && forall j :: 0 <= j < |counts| && j != k ==> counts[j] == 0
  }

  /** `NZcounter` and `nonZeroClassValueIndex`: how many counts are
      positive, and the last positive one. */
  function NonZero(counts: seq<nat>): (r: (nat, nat))
    ensures r.0 <= |counts|
    ensures r.0 == 0 <==> forall j :: 0 <= j < |counts| ==> counts[j] == 0
    ensures r.0 == 0 ==> r.1 == 0
    ensures r.0 > 0 ==> r.1 < |counts| && counts[r.1] > 0
    ensures r.0 == 1 <==> exists k :: OnlyPositive(counts, k)
    ensures r.0 == 1 ==> OnlyPositive(counts, r.1)
    decreases |counts|
  {
    if counts == [] then (0, 0)
    else
      var init := counts[..|counts| - 1];
      var (nz, last) := NonZero(init);
      var n := |counts| - 1;
      assert forall j :: 0 <= j < n ==> counts[j] == init[j];
      if counts[n] > 0 then
        assert nz == 0 ==> OnlyPositive(counts, n);
        assert nz > 0 ==> forall k :: !OnlyPositive(counts, k) by {
          if nz > 0 {
            forall k ensures !OnlyPositive(counts, k) {
              if k != n && 0 <= k < |counts| {
                assert counts[n] > 0;
              } else if k == n {
                assert counts[last] > 0;
              }
            }
          }
        }
        (nz + 1, n)
      else
        assert forall k :: OnlyPositive(counts, k) <==> OnlyPositive(init, k) by {
          forall k ensures OnlyPositive(counts, k) <==> OnlyPositive(init, k) {
            if OnlyPositive(init, k) {
              assert k < n;
            }
          }
        }
        (nz, last)
  }

  /** What `d_majorValue` is set to at a leaf: `d_isLeaf` is written first,
      then the category is looked up, which may throw. */
  function Leaf(node: Node, v: Result<Value>): (r: (Outcome, Node))
    ensures r.1.isLeaf && r.1.best == node.best && r.1.subtrees == node.subtrees
    ensures r.0.Pass? <==> v.Ok?
    ensures v.Ok? ==> r.1.major == Some(v.value)
    ensures v.Err? ==> r.0 == Fail(v.error) && r.1.major == node.major
  {
    match v
    case Ok(x) => (Pass, node.(isLeaf := true, major := Some(x)))
    case Err(e) => (Fail(e), node.(isLeaf := true))
  }

  /** The instance loop for candidate feature i: every row must hold, at i,
      the name of a category f declares; the first row that does not
      throws. */
  function ColumnCheck(f: Feature, rows: seq<seq<Value>>, i: nat): Outcome
    requires Valid(f)
    decreases |rows|
  {
    if rows == [] then Pass
    else
      match ColumnCheck(f, rows[..|rows| - 1], i)
      case Fail(e) => Fail(e)
      case Pass =>
        match CellIndex(f, rows[|rows| - 1], i)
        case Err(e) => Fail(e)
        case Ok(_) => Pass
  }

  /** The rows whose value at i names category c, in their original order:
      what `subsets.get(c)` holds after the instance loop. */
  function Subset(rows: seq<seq<Value>>, i: nat, c: string): (sub: seq<seq<Value>>)
    ensures |sub| == Occurrences(rows, i, c)
    ensures forall r: seq<Value> :: r in sub ==> r in rows && i < |r| && r[i].payload == Text(c)
    decreases |rows|
  {
    if rows == [] then []
    else
      var last := rows[|rows| - 1];
      Subset(rows[..|rows| - 1], i, c) + (if i < |last| && last[i].payload == Text(c) then [last] else [])
  }

  /** The running choice of the feature loop: whether `maxSubsets` has been
      set, `maxIGindex` and `maxIG`. */
  datatype Choice = Choice(found: bool, index: nat, maxGain: Double)

  /** Feature j is one the loop computes a gain for. */
  predicate Eligible(s: Schema, mask: seq<int>, j: int)
  {
    0 <= j < |s.features| && s.features[j].ftype == NOMINAL && j < |mask| && mask[j] == 1
  }

  /** The feature loop over the first n features: a NOMINAL feature beyond
      the mask throws; a NOMINAL candidate has its column checked, and
      becomes the choice when its gain is strictly greater than the best
      so far, which starts at -1. */
  function Candidates(s: Schema, mask: seq<int>, rows: seq<seq<Value>>, gain: Gain, n: nat): (r: Result<Choice>)
    requires FeaturesValid(s) && n <= |s.features|
    ensures r.Ok? && r.value.found ==> r.value.index < n && Eligible(s, mask, r.value.index)
    ensures r.Ok? && !r.value.found ==> r.value.index == 0 && r.value.maxGain == Fin(-1.0)
    ensures r.Ok? && r.value.found ==> r.value.maxGain == gain(rows, r.value.index)
    decreases n
  {
    if n == 0 then Ok(Choice(false, 0, Fin(-1.0)))
    else
      match Candidates(s, mask, rows, gain, n - 1)
      case Err(e) => Err(e)
      case Ok(ch) =>
        var i := n - 1;
        var f := s.features[i];
        if f.ftype != NOMINAL then Ok(ch)
        else if i >= |mask| then Err(IndexOutOfBounds)
        else if mask[i] != 1 then Ok(ch)
        else
          match ColumnCheck(f, rows, i)
          case Fail(e) => Err(e)
          case Pass =>
            var g := gain(rows, i);
            if Greater(g, ch.maxGain) then Ok(Choice(true, i, g)) else Ok(ch)
  }

  /** Clearing an entry that is 1 removes one candidate. */
  lemma {:induction false} ClearOne(mask: seq<int>, b: int)
    requires 0 <= b < |mask| && mask[b] == 1
    ensures Ones(mask[b := 0]) == Ones(mask) - 1
    decreases |mask|
  {
    var n := |mask| - 1;
    var m := mask[b := 0];
    if b < n {
      ClearOne(mask[..n], b);
      assert m[..n] == mask[..n][b := 0];
    } else {
      assert m[..n] == mask[..n];
    }
  }

  /** An all-zero mask has no candidate and sums to 0. */
  lemma {:induction false} NoOnes(mask: seq<int>)
    requires forall j :: 0 <= j < |mask| ==> mask[j] == 0
    ensures Ones(mask) == 0 && Sum(mask) == 0
    decreases |mask|
  {
    if mask != [] {
      NoOnes(mask[..|mask| - 1]);
    }
  }

  function ZeroMask(n: nat): (m: seq<int>)
    ensures |m| == n && Ones(m) == 0 && Sum(m) == 0
  {
    var m := seq(n, _ => 0);
    NoOnes(m);
    m
  }

  /** `train` on a node holding `node`, with candidate mask `mask`: the
      outcome and the node afterwards. A subtree that throws leaves its
      parent with the subtrees put so far. */
  function TrainNode(s: Schema, gain: Gain, node: Node, mask: seq<int>, rows: seq<seq<Value>>): (r: (Outcome, Node))
    requires FeaturesValid(s)
    decreases Ones(mask), 1, 0
  {
    if !ClassIndexOk(s) then (Fail(IndexOutOfBounds), node)
    else
      match ClassCounts(s, rows)
      case Err(e) => (Fail(e), node)
      case Ok(counts) =>
        var (nz, last) := NonZero(counts);
        if nz == 1 then Leaf(node, CategoryValue(ClassFeature(s), last))
        else if Sum(mask) == 0 then Leaf(node, CategoryValue(ClassFeature(s), Argmax.FirstMax(FromNats(counts))))
        else
          match Candidates(s, mask, rows, gain, |s.features|)
          case Err(e) => (Fail(e), node)
          case Ok(ch) =>
            var split := node.(isLeaf := false, best := ch.index);
            var f := s.features[ch.index];
            if f.categories.None? then (Fail(NullPointer), split)
            else if !ch.found then
              (if f.categories.value == [] then (Pass, split) else (Fail(NullPointer), split))
            else
              ClearOne(mask, ch.index);
              Children(s, gain, split, mask, rows, ch.index, f.categories.value, 0, mask[ch.index := 0])
  }

  /** The loop over the categories of the split feature from the k-th on,
      with `cm` the shared candidate array the next subtree gets: an
      observed category's subtree is trained on its subset; an unobserved
      one zero-fills the shared array and gets an untrained subtree, so
      every later subtree is built with no candidate left. */
  function Children(s: Schema, gain: Gain, node: Node, mask: seq<int>, rows: seq<seq<Value>>, b: nat,
                    cats: seq<string>, k: nat, cm: seq<int>): (r: (Outcome, Node))
    requires FeaturesValid(s) && k <= |cats| && Ones(cm) < Ones(mask)
    ensures r.1.isLeaf == node.isLeaf && r.1.major == node.major && r.1.best == node.best
    decreases Ones(mask), 0, |cats| - k
  {
    if k == |cats| then (Pass, node)
    else
      var c := cats[k];
      var sub := Subset(rows, b, c);
      if sub != [] then
        var (o, child) := TrainNode(s, gain, Untrained, cm, sub);
        if o.Fail? then (o, node)
        else Children(s, gain, node.(subtrees := node.subtrees[c := child]), mask, rows, b, cats, k + 1, cm)
      else
        Children(s, gain, node.(subtrees := node.subtrees[c := Untrained]), mask, rows, b, cats, k + 1, ZeroMask(|cm|))
  }

  /** `classify`: a leaf answers its majority value (null on a subtree that
      was never trained); an inner node descends into the subtree keyed by
      the instance's value at the split feature, and a value with no
      subtree makes the lookup return null, which is then dereferenced. */
  function Classify(node: Node, row: seq<Value>): (r: Result<Option<Value>>)
    ensures r.Ok? ==> r.value in LeafAnswers(node)
    ensures !node.isLeaf && 0 <= node.best < |row| && !row[node.best].payload.Text? ==> r == Err(NullPointer)
    ensures (!node.isLeaf && 0 <= node.best < |row| && row[node.best].payload.Text?
             && row[node.best].payload.s !in node.subtrees) ==> r == Err(NullPointer)
    ensures r == Err(IndexOutOfBounds) ==> exists d :: d in Descent(node, row) && !(0 <= d.best < |row|)
    decreases node
  {
    if node.isLeaf then Ok(node.major)
    else if !(0 <= node.best < |row|) then Err(IndexOutOfBounds)
    else
      match row[node.best].payload
      case Text(c) =>
        if c in node.subtrees then
          var sub := node.subtrees[c];
          var r := Classify(sub, row);
          assert r.Ok? ==> r.value in LeafAnswers(node) by { LeafAnswersBelow(node, c); }
          r
        else Err(NullPointer)
      case _ => Err(NullPointer)
  }

  /** The majority values stored in the leaves of a tree. */
  ghost function LeafAnswers(node: Node): set<Option<Value>>
    decreases node
  {
    if node.isLeaf then {node.major}
    else set c, a | c in node.subtrees && a in LeafAnswers(node.subtrees[c]) :: a
  }

  /** The inner nodes `classify` passes through on an instance, down to the
      first node whose subtree it cannot find. */
  ghost function Descent(node: Node, row: seq<Value>): set<Node>
    decreases node
  {
    if node.isLeaf then {}
    else if 0 <= node.best < |row| && row[node.best].payload.Text? && row[node.best].payload.s in node.subtrees
    then {node} + Descent(node.subtrees[row[node.best].payload.s], row)
    else {node}
  }

  /** A leaf answer of a subtree is a leaf answer of its parent. */
  lemma LeafAnswersBelow(node: Node, c: string)
    requires !node.isLeaf && c in node.subtrees
    ensures LeafAnswers(node.subtrees[c]) <= LeafAnswers(node)
  {
    forall a | a in LeafAnswers(node.subtrees[c]) ensures a in LeafAnswers(node) {
      assert c in node.subtrees && a in LeafAnswers(node.subtrees[c]);
    }
  }

  /** The subsets map built for feature i: a key for each category some row
      names, holding exactly that category's rows in order. */
  ghost predicate Grouped(m: map<string, seq<seq<Value>>>, rows: seq<seq<Value>>, i: nat)
  {
    forall c :: (c in m <==> Subset(rows, i, c) != []) && (c in m ==> m[c] == Subset(rows, i, c))
  }

  /** Appending a row to the subsets map keeps it Grouped. */
  lemma GroupedStep(m: map<string, seq<seq<Value>>>, rows: seq<seq<Value>>, i: nat, j: nat)
    requires j < |rows| && i < |rows[j]| && rows[j][i].payload.Text?
    requires Grouped(m, rows[..j], i)
    ensures var name := rows[j][i].payload.s;
            Grouped(m[name := (if name in m then m[name] else []) + [rows[j]]], rows[..j + 1], i)
  {
    var name := rows[j][i].payload.s;
    var m' := m[name := (if name in m then m[name] else []) + [rows[j]]];
    forall c ensures (c in m' <==> Subset(rows[..j + 1], i, c) != []) && (c in m' ==> m'[c] == Subset(rows[..j + 1], i, c))
    {
      SubsetSnoc(rows, i, j, c);
      if c == name {
        assert m'[c] == (if c in m then m[c] else []) + [rows[j]];
      } else {
        assert Subset(rows[..j + 1], i, c) == Subset(rows[..j], i, c);
      }
    }
  }

  lemma SubsetSnoc(rows: seq<seq<Value>>, i: nat, j: nat, c: string)
    requires j < |rows|
    ensures Subset(rows[..j + 1], i, c)
            == Subset(rows[..j], i, c) + (if i < |rows[j]| && rows[j][i].payload == Text(c) then [rows[j]] else [])
  {
    assert rows[..j + 1][..j] == rows[..j];
  }

  /** One step of Children, given the subsets map of the split feature. */
  lemma ChildrenStep(s: Schema, gain: Gain, node: Node, mask: seq<int>, rows: seq<seq<Value>>, b: nat,
                     cats: seq<string>, k: nat, cm: seq<int>, m: map<string, seq<seq<Value>>>)
    requires FeaturesValid(s) && k < |cats| && Ones(cm) < Ones(mask) && Grouped(m, rows, b)
    ensures cats[k] in m ==>
              var r := TrainNode(s, gain, Untrained, cm, m[cats[k]]);
              Children(s, gain, node, mask, rows, b, cats, k, cm)
              == if r.0.Fail? then (r.0, node)
                 else Children(s, gain, node.(subtrees := node.subtrees[cats[k] := r.1]), mask, rows, b, cats, k + 1, cm)
    ensures cats[k] !in m ==>
              Children(s, gain, node, mask, rows, b, cats, k, cm)
              == Children(s, gain, node.(subtrees := node.subtrees[cats[k] := Untrained]), mask, rows, b, cats, k + 1, ZeroMask(|cm|))
  {
  }

  lemma {:induction false} ClassCountsStop(s: Schema, rows: seq<seq<Value>>, j: nat)
    requires ClassIndexOk(s) && FeaturesValid(s)
    requires j <= |rows| && ClassCounts(s, rows[..j]).Err?
    ensures ClassCounts(s, rows) == ClassCounts(s, rows[..j])
    decreases |rows|
  {
    if j < |rows| {
      var init := rows[..|rows| - 1];
      assert init[..j] == rows[..j];
      ClassCountsStop(s, init, j);
    } else {
      assert rows[..j] == rows;
    }
  }

  lemma {:induction false} ColumnCheckStop(f: Feature, rows: seq<seq<Value>>, i: nat, j: nat)
    requires Valid(f) && j <= |rows| && ColumnCheck(f, rows[..j], i).Fail?
    ensures ColumnCheck(f, rows, i) == ColumnCheck(f, rows[..j], i)
    decreases |rows|
  {
    if j < |rows| {
      var init := rows[..|rows| - 1];
      assert init[..j] == rows[..j];
      ColumnCheckStop(f, init, i, j);
    } else {
      assert rows[..j] == rows;
    }
  }

  lemma {:induction false} CandidatesStop(s: Schema, mask: seq<int>, rows: seq<seq<Value>>, gain: Gain, j: nat, n: nat)
    requires FeaturesValid(s) && j <= n <= |s.features| && Candidates(s, mask, rows, gain, j).Err?
    ensures Candidates(s, mask, rows, gain, n) == Candidates(s, mask, rows, gain, j)
    decreases n
  {
    if j < n {
      CandidatesStop(s, mask, rows, gain, j, n - 1);
    }
  }

  /** The first loop of `train`, over the instances, proved to compute
      ClassCounts. */
  method CountClasses(s: Schema, rows: seq<seq<Value>>) returns (r: Result<seq<nat>>)
    requires ClassIndexOk(s) && FeaturesValid(s)
    ensures r == ClassCounts(s, rows)
  {
    var cf := ClassFeature(s);
    var classCounts := new nat[NumberOfCategories(cf)](_ => 0);
    assert rows[..0] == [];
    assert classCounts[..] == seq(NumberOfCategories(cf), _ => 0);
    var j := 0;
    while j < |rows|
      invariant 0 <= j <= |rows|
      invariant ClassCounts(s, rows[..j]) == Ok(classCounts[..])
      modifies classCounts
    {
      assert rows[..j + 1][..j] == rows[..j];
      var k := CellIndex(cf, rows[j], s.classIndex);
      if k.Err? || k.value >= classCounts.Length {
        r := ClassCounts(s, rows[..j + 1]);
        ClassCountsStop(s, rows, j + 1);
        return;
      }
      classCounts[k.value] := classCounts[k.value] + 1;
      j := j + 1;
    }
    assert rows[..j] == rows;
    r := Ok(classCounts[..]);
  }

  /** The `NZcounter` loop. */
  method CountNonZero(counts: seq<nat>) returns (nz: nat, last: nat)
    ensures (nz, last) == NonZero(counts)
  {
    nz, last := 0, 0;
    var i := 0;
    while i < |counts|
      invariant 0 <= i <= |counts|
      invariant (nz, last) == NonZero(counts[..i])
    {
      assert counts[..i + 1][..i] == counts[..i];
      if counts[i] > 0 {
        nz, last := nz + 1, i;
      }
      i := i + 1;
    }
    assert counts[..i] == counts;
  }

  /** The `numCandidateFeatures` loop. */
  method SumMask(mask: seq<int>) returns (total: int)
    ensures total == Sum(mask)
  {
    total := 0;
    var i := 0;
    while i < |mask|
      invariant 0 <= i <= |mask|
      invariant total == Sum(mask[..i])
    {
      assert mask[..i + 1][..i] == mask[..i];
      total := total + mask[i];
      i := i + 1;
    }
    assert mask[..i] == mask;
  }

  /** The majority loop: the first index whose count is strictly greater
      than every count before it, starting from a maximum of 0. */
  method Majority(counts: seq<nat>) returns (m: nat)
    ensures m == Argmax.FirstMax(FromNats(counts))
  {
    var maxCount := 0;
    m := 0;
    var i := 0;
    while i < |counts|
      invariant 0 <= i <= |counts|
      invariant (m, Fin(maxCount as real)) == Argmax.Scan(FromNats(counts), i)
    {
      if maxCount < counts[i] {
        m, maxCount := i, counts[i];
      }
      i := i + 1;
    }
  }

  /** The instance loop for one candidate feature: each row's value at i
      must name a declared category, and is appended to that category's
      subset. */
  method GroupColumn(f: Feature, rows: seq<seq<Value>>, i: nat) returns (o: Outcome, subsets: map<string, seq<seq<Value>>>)
    requires Valid(f)
    ensures o == ColumnCheck(f, rows, i)
    ensures o.Pass? ==> Grouped(subsets, rows, i)
  {
    subsets := map[];
    var j := 0;
    assert rows[..0] == [];
    while j < |rows|
      invariant 0 <= j <= |rows|
      invariant ColumnCheck(f, rows[..j], i) == Pass
      invariant Grouped(subsets, rows[..j], i)
    {
      var prefix := rows[..j + 1];
      assert prefix[..j] == rows[..j];
      var k := CellIndex(f, rows[j], i);
      if k.Err? {
        o := ColumnCheck(f, prefix, i);
        ColumnCheckStop(f, rows, i, j + 1);
        return;
      }
      var name := rows[j][i].payload.s;
      GroupedStep(subsets, rows, i, j);
      var subset := if name in subsets then subsets[name] else [];
      subsets := subsets[name := subset + [rows[j]]];
      j := j + 1;
    }
    assert rows[..j] == rows;
    o := Pass;
  }

  /** The feature loop of `train`, proved to make the choice Candidates
      describes and to keep the subsets of the chosen feature. */
  method ChooseFeature(s: Schema, mask: seq<int>, rows: seq<seq<Value>>, gain: Gain)
    returns (r: Result<Choice>, maxSubsets: map<string, seq<seq<Value>>>)
    requires FeaturesValid(s)
    ensures r == Candidates(s, mask, rows, gain, |s.features|)
    ensures r.Ok? && r.value.found ==> Grouped(maxSubsets, rows, r.value.index)
  {
    var maxIG := Fin(-1.0);
    var maxIGindex := 0;
    var found := false;
    maxSubsets := map[];
    var i := 0;
    while i < |s.features|
      invariant 0 <= i <= |s.features|
      invariant Candidates(s, mask, rows, gain, i) == Ok(Choice(found, maxIGindex, maxIG))
      invariant found ==> Grouped(maxSubsets, rows, maxIGindex)
    {
      var f := s.features[i];
      if f.ftype == NOMINAL {
        if i >= |mask| {
          r := Err(IndexOutOfBounds);
          CandidatesStop(s, mask, rows, gain, i + 1, |s.features|);
          return;
        }
        if mask[i] == 1 {
          var o, subsets := GroupColumn(f, rows, i);
          if o.Fail? {
            r := Err(o.error);
            CandidatesStop(s, mask, rows, gain, i + 1, |s.features|);
            return;
          }
          var g := gain(rows, i);
          if Greater(g, maxIG) {
            found, maxIGindex, maxIG, maxSubsets := true, i, g, subsets;
          }
        }
      }
      i := i + 1;
    }
    r := Ok(Choice(found, maxIGindex, maxIG));
  }

  class ID3 {
    const schema: Schema
    /** `d_candidateFeatures`: never written after construction, since
        `train` clones it before clearing an entry. */
    const candidates: seq<int>
    var isLeaf: bool
    var majorValue: Option<Value>
    var bestFeatureIndex: int
    var subtrees: map<string, Node>

    function View(): Node
      reads this
    {
      Node(isLeaf, majorValue, bestFeatureIndex, subtrees)
    }

    /** `ID3(signature, candidateFeatures)`: an untrained leaf. */
    constructor (s: Schema, mask: seq<int>)
      ensures schema == s && candidates == mask && View() == Untrained
    {
      schema, candidates := s, mask;
      isLeaf, majorValue, bestFeatureIndex, subtrees := true, None, 0, map[];
    }

    /** `ID3(signature)`: every feature but the class is a candidate. */
    constructor WithAllFeatures(s: Schema)
      requires ClassIndexOk(s)
      ensures schema == s && candidates == AllFeatures(s).value && View() == Untrained
      ensures Ones(candidates) == |s.features| - 1
    {
      schema, candidates := s, AllFeatures(s).value;
      isLeaf, majorValue, bestFeatureIndex, subtrees := true, None, 0, map[];
      AllFeaturesCandidates(s);
    }

    /** `train`: the fields end as TrainNode says, each subtree being a
        fresh ID3 object trained on its subset. */
    method Train(rows: seq<seq<Value>>, gain: Gain) returns (o: Outcome)
      requires FeaturesValid(schema)
      modifies this
      ensures (o, View()) == TrainNode(schema, gain, old(View()), candidates, rows)
      decreases Ones(candidates), 1
    {
      if !(0 <= schema.classIndex < |schema.features|) {
        return Fail(IndexOutOfBounds);
      }
      var cf := schema.features[schema.classIndex];
      var cr := CountClasses(schema, rows);
      if cr.Err? {
        return Fail(cr.error);
      }
      var counts := cr.value;
      var nz, last := CountNonZero(counts);
      if nz == 1 {
        isLeaf := true;
        var v := CategoryValue(cf, last);
        if v.Err? {
          return Fail(v.error);
        }
        majorValue := Some(v.value);
        return Pass;
      }
      var numCandidates := SumMask(candidates);
      if numCandidates == 0 {
        isLeaf := true;
        var m := Majority(counts);
        var v := CategoryValue(cf, m);
        if v.Err? {
          return Fail(v.error);
        }
        majorValue := Some(v.value);
        return Pass;
      }
      var ch, maxSubsets := ChooseFeature(schema, candidates, rows, gain);
      if ch.Err? {
        return Fail(ch.error);
      }
      var best := ch.value.index;
      bestFeatureIndex := best;
      isLeaf := false;
      var featureValueList := schema.features[best].categories;
      if featureValueList.None? {
        return Fail(NullPointer);
      }
      if !ch.value.found {
        if featureValueList.value == [] {
          return Pass;
        }
        return Fail(NullPointer);
      }
      ClearOne(candidates, best);
      o := TrainChildren(rows, gain, best, featureValueList.value, maxSubsets, candidates[best := 0]);
    }

    /** The loop over the split feature's categories. `cm` is the cloned
        candidate array all the subtrees share; an unobserved category
        zero-fills it. */
    method TrainChildren(rows: seq<seq<Value>>, gain: Gain, best: nat, cats: seq<string>,
                         maxSubsets: map<string, seq<seq<Value>>>, cm0: seq<int>) returns (o: Outcome)
      requires FeaturesValid(schema) && Ones(cm0) < Ones(candidates)
      requires Grouped(maxSubsets, rows, best)
      modifies this`subtrees
      ensures (o, View()) == Children(schema, gain, old(View()), candidates, rows, best, cats, 0, cm0)
      decreases Ones(candidates), 0
    {
      ghost var goal := Children(schema, gain, View(), candidates, rows, best, cats, 0, cm0);
      var cm := cm0;
      var k := 0;
      while k < |cats|
        invariant 0 <= k <= |cats| && Ones(cm) < Ones(candidates)
        invariant goal == Children(schema, gain, View(), candidates, rows, best, cats, k, cm)
      {
        var value := cats[k];
        ChildrenStep(schema, gain, View(), candidates, rows, best, cats, k, cm, maxSubsets);
        if value in maxSubsets {
          var subTree := new ID3(schema, cm);
          var oc := subTree.Train(maxSubsets[value], gain);
          if oc.Fail? {
            return oc;
          }
          subtrees := subtrees[value := subTree.View()];
        } else {
          cm := ZeroMask(|cm|);
          var subTree := new ID3(schema, cm);
          subtrees := subtrees[value := subTree.View()];
        }
        k := k + 1;
      }
      o := Pass;
    }
  }

  /** The initial mask has one candidate per feature but the class, and
      sums to the same number. */
  lemma AllFeaturesCandidates(s: Schema)
    requires ClassIndexOk(s)
    ensures Ones(AllFeatures(s).value) == |s.features| - 1
    ensures Sum(AllFeatures(s).value) == |s.features| - 1
  {
    AllButOne(AllFeatures(s).value, s.classIndex);
  }

  lemma {:induction false} AllButOne(mask: seq<int>, z: int)
    requires 0 <= z < |mask|
    requires forall i :: 0 <= i < |mask| ==> mask[i] == (if i == z then 0 else 1)
    ensures Ones(mask) == |mask| - 1 && Sum(mask) == |mask| - 1
    decreases |mask|
  {
    var n := |mask| - 1;
    var init := mask[..n];
    if z < n {
      AllButOne(init, z);
    } else {
      AllOnes(init);
    }
  }

  lemma {:induction false} AllOnes(mask: seq<int>)
    requires forall i :: 0 <= i < |mask| ==> mask[i] == 1
    ensures Ones(mask) == |mask| && Sum(mask) == |mask|
    decreases |mask|
  {
    if mask != [] {
      AllOnes(mask[..|mask| - 1]);
    }
  }

  /** Every row holds, at the class index, the name of a declared class
      category. */
  ghost predicate ClassNamed(s: Schema, rows: seq<seq<Value>>)
    requires ClassIndexOk(s)
  {
    forall j :: 0 <= j < |rows| ==>
      && s.classIndex < |rows[j]|
      && rows[j][s.classIndex].payload.Text?
      && ClassFeature(s).categories.Some?
      && rows[j][s.classIndex].payload.s in ClassFeature(s).categories.value
  }

  /** For a NOMINAL class with distinct categories, counting succeeds
      exactly when every row names a declared class category, and then
      count k is the number of rows naming category k. */
  lemma {:induction false} ClassCountsMeaning(s: Schema, rows: seq<seq<Value>>)
    requires ClassIndexOk(s) && FeaturesValid(s) && ClassFeature(s).ftype == NOMINAL
    requires Distinct(ClassFeature(s).categories.value)
    ensures ClassCounts(s, rows).Ok? <==> ClassNamed(s, rows)
    ensures ClassCounts(s, rows).Ok? ==>
              forall k :: 0 <= k < |ClassFeature(s).categories.value| ==>
                ClassCounts(s, rows).value[k] == Occurrences(rows, s.classIndex, ClassFeature(s).categories.value[k])
    decreases |rows|
  {
    var cf := ClassFeature(s);
    var cats := cf.categories.value;
    var ci := s.classIndex;
    assert Valid(cf);
    if rows != [] {
      var n := |rows| - 1;
      var init := rows[..n];
      var last := rows[n];
      ClassCountsMeaning(s, init);
      assert forall j :: 0 <= j < n ==> init[j] == rows[j];
      assert ClassNamed(s, rows) <==> ClassNamed(s, init) && CellIndex(cf, last, ci).Ok? by {
        if ClassNamed(s, init) && CellIndex(cf, last, ci).Ok? {
          forall j | 0 <= j < |rows|
            ensures ci < |rows[j]| && rows[j][ci].payload.Text? && rows[j][ci].payload.s in cats
          {
            if j < n {
              assert init[j] == rows[j];
            }
          }
        }
      }
      if ClassCounts(s, rows).Ok? {
        var counts := ClassCounts(s, init).value;
        var idx := CellIndex(cf, last, ci).value;
        forall k | 0 <= k < |cats|
          ensures ClassCounts(s, rows).value[k] == Occurrences(rows, ci, cats[k])
        {
          assert (k == idx) <==> (last[ci].payload == Text(cats[k]));
        }
      }
    }
  }

  /** The rows of a training set that all name class category c. */
  ghost predicate AllNamed(s: Schema, rows: seq<seq<Value>>, c: string)
    requires ClassIndexOk(s)
  {
    forall j :: 0 <= j < |rows| ==> s.classIndex < |rows[j]| && rows[j][s.classIndex].payload == Text(c)
  }

  lemma {:induction false} OccurrencesAll(rows: seq<seq<Value>>, ci: nat, c: string, d: string)
    requires forall j :: 0 <= j < |rows| ==> ci < |rows[j]| && rows[j][ci].payload == Text(c)
    ensures Occurrences(rows, ci, c) == |rows|
    ensures d != c ==> Occurrences(rows, ci, d) == 0
    decreases |rows|
  {
    if rows != [] {
      OccurrencesAll(rows[..|rows| - 1], ci, c, d);
    }
  }

  /** When every training row carries the same declared class value, the
      node becomes a leaf answering that value. */
  lemma SingleClassLeaf(s: Schema, gain: Gain, node: Node, mask: seq<int>, rows: seq<seq<Value>>, c: string)
    requires ClassIndexOk(s) && FeaturesValid(s) && ClassFeature(s).ftype == NOMINAL
    requires Distinct(ClassFeature(s).categories.value)
    requires rows != [] && AllNamed(s, rows, c) && c in ClassFeature(s).categories.value
    ensures TrainNode(s, gain, node, mask, rows) == (Pass, node.(isLeaf := true, major := Some(Value(Text(c), NOMINAL_VALUE))))
  {
    var cats := ClassFeature(s).categories.value;
    assert ClassNamed(s, rows);
    ClassCountsMeaning(s, rows);
    var counts := ClassCounts(s, rows).value;
    var k :| 0 <= k < |cats| && cats[k] == c;
    forall j | 0 <= j < |cats|
      ensures counts[j] == (if j == k then |rows| else 0)
    {
      OccurrencesAll(rows, s.classIndex, c, cats[j]);
    }
    assert OnlyPositive(counts, k);
    var (nz, last) := NonZero(counts);
    assert last == k;
  }

  /** The index a leaf answers: the single positive count when there is
      one, the first maximum otherwise; in both cases the first index of
      strictly greatest count. */
  lemma LeafIndex(counts: seq<nat>)
    ensures var (nz, last) := NonZero(counts);
            var m := if nz == 1 then last else Argmax.FirstMax(FromNats(counts));
            && (counts == [] ==> m == 0)
            && (counts != [] ==>
                  && m < |counts|
                  && (forall j :: 0 <= j < |counts| ==> counts[j] <= counts[m])
                  && (forall j :: 0 <= j < m ==> counts[j] < counts[m]))
  {
    var (nz, last) := NonZero(counts);
    if nz != 1 {
      var d := FromNats(counts);
      Argmax.FirstMaxMeaning(d);
      var m := Argmax.FirstMax(d);
      if exists j :: 0 <= j < |d| && Greater(d[j], Zero) {
        forall j | 0 <= j < |counts|
          ensures counts[j] <= counts[m]
        {
          assert !Greater(d[j], d[m]);
        }
      } else {
        forall j | 0 <= j < |counts| ensures counts[j] == 0 {
          assert !Greater(d[j], Zero);
        }
      }
    }
  }

  /** With no candidate left, the node becomes a leaf answering the first
      class category of strictly greatest frequency (the first category
      when there are no rows), and throws when the class declares no
      category. */
  lemma MajorityLeaf(s: Schema, gain: Gain, node: Node, mask: seq<int>, rows: seq<seq<Value>>)
    requires ClassIndexOk(s) && FeaturesValid(s) && ClassFeature(s).ftype == NOMINAL
    requires Distinct(ClassFeature(s).categories.value) && ClassNamed(s, rows) && Sum(mask) == 0
    ensures var cats := ClassFeature(s).categories.value;
            var r := TrainNode(s, gain, node, mask, rows);
            && (cats == [] ==> r == (Fail(IndexOutOfBounds), node.(isLeaf := true)))
            && (cats != [] ==>
                  exists m :: 0 <= m < |cats| && MostFrequent(rows, s.classIndex, cats, m)
                    && r == (Pass, node.(isLeaf := true, major := Some(Value(Text(cats[m]), NOMINAL_VALUE)))))
  {
    var cats := ClassFeature(s).categories.value;
    ClassCountsMeaning(s, rows);
    var counts := ClassCounts(s, rows).value;
    LeafIndex(counts);
    var (nz, last) := NonZero(counts);
    var m := if nz == 1 then last else Argmax.FirstMax(FromNats(counts));
    MajorityShape(s, gain, node, mask, rows);
    if cats != [] {
      MajorityOccurs(rows, s.classIndex, cats, counts, m);
      assert MostFrequent(rows, s.classIndex, cats, m);
    }
  }

  /** cats[m] occurs at least as often as every category and strictly more
      often than every earlier one. */
  ghost predicate MostFrequent(rows: seq<seq<Value>>, ci: nat, cats: seq<string>, m: nat)
    requires m < |cats|
  {
    && (forall j :: 0 <= j < |cats| ==> Occurrences(rows, ci, cats[j]) <= Occurrences(rows, ci, cats[m]))
    && (forall j :: 0 <= j < m ==> Occurrences(rows, ci, cats[j]) < Occurrences(rows, ci, cats[m]))
  }

  lemma MajorityShape(s: Schema, gain: Gain, node: Node, mask: seq<int>, rows: seq<seq<Value>>)
    requires ClassIndexOk(s) && FeaturesValid(s) && Sum(mask) == 0 && ClassCounts(s, rows).Ok?
    ensures var (nz, last) := NonZero(ClassCounts(s, rows).value);
            var m := if nz == 1 then last else Argmax.FirstMax(FromNats(ClassCounts(s, rows).value));
            TrainNode(s, gain, node, mask, rows) == Leaf(node, CategoryValue(ClassFeature(s), m))
  {
  }

  lemma MajorityOccurs(rows: seq<seq<Value>>, ci: nat, cats: seq<string>, counts: seq<nat>, m: nat)
    requires |counts| == |cats| && m < |counts|
    requires forall k :: 0 <= k < |cats| ==> counts[k] == Occurrences(rows, ci, cats[k])
    requires forall j :: 0 <= j < |counts| ==> counts[j] <= counts[m]
    requires forall j :: 0 <= j < m ==> counts[j] < counts[m]
    ensures MostFrequent(rows, ci, cats, m)
  {
  }

  /** A candidate whose gain is computed has had its column checked. */
  lemma {:induction false} CandidatesChecked(s: Schema, mask: seq<int>, rows: seq<seq<Value>>, gain: Gain, n: nat)
    requires FeaturesValid(s) && n <= |s.features|
    ensures Candidates(s, mask, rows, gain, n).Ok? ==>
              forall j :: 0 <= j < n && Eligible(s, mask, j) ==> ColumnCheck(s.features[j], rows, j) == Pass
    decreases n
  {
    if n > 0 {
      CandidatesChecked(s, mask, rows, gain, n - 1);
    }
  }

  /** The split rule: with the running maximum starting at -1, the chosen
      feature is the first candidate whose gain no candidate exceeds; a NaN
      gain never wins; and nothing is chosen when no gain exceeds -1. */
  lemma {:induction false} CandidatesMeaning(s: Schema, mask: seq<int>, rows: seq<seq<Value>>, gain: Gain, n: nat)
    requires FeaturesValid(s) && n <= |s.features|
    ensures var r := Candidates(s, mask, rows, gain, n);
            r.Ok? && r.value.found ==>
              && Greater(r.value.maxGain, Fin(-1.0))
              && (forall j :: 0 <= j < n && Eligible(s, mask, j) ==> !Greater(gain(rows, j), r.value.maxGain))
              && (forall j :: 0 <= j < r.value.index && Eligible(s, mask, j) && gain(rows, j).Fin? ==>
                    gain(rows, j).v < r.value.maxGain.v)
    ensures var r := Candidates(s, mask, rows, gain, n);
            r.Ok? && !r.value.found ==> forall j :: 0 <= j < n && Eligible(s, mask, j) ==> !Greater(gain(rows, j), Fin(-1.0))
    decreases n
  {
    if n > 0 {
      CandidatesMeaning(s, mask, rows, gain, n - 1);
      var prev := Candidates(s, mask, rows, gain, n - 1);
      var r := Candidates(s, mask, rows, gain, n);
      var i := n - 1;
      if r.Ok? {
        var ch := prev.value;
        var g := gain(rows, i);
        if Eligible(s, mask, i) && Greater(g, ch.maxGain) {
          assert r.value == Choice(true, i, g);
          forall j | 0 <= j < i && Eligible(s, mask, j)
            ensures !Greater(gain(rows, j), g)
            ensures gain(rows, j).Fin? ==> gain(rows, j).v < g.v
          {
            if ch.found {
              assert !Greater(gain(rows, j), ch.maxGain);
            } else {
              assert !Greater(gain(rows, j), Fin(-1.0));
            }
          }
        } else {
          assert r.value == ch;
        }
      }
    }
  }

  /** A column check passes exactly when every row names, at i, a category
      the feature declares. */
  lemma {:induction false} ColumnCheckMeaning(f: Feature, rows: seq<seq<Value>>, i: nat)
    requires Valid(f)
    ensures ColumnCheck(f, rows, i) == Pass <==> forall j :: 0 <= j < |rows| ==> CellIndex(f, rows[j], i).Ok?
    decreases |rows|
  {
    if rows != [] {
      var n := |rows| - 1;
      ColumnCheckMeaning(f, rows[..n], i);
      assert forall j :: 0 <= j < n ==> rows[..n][j] == rows[j];
    }
  }

  /** Splitting keeps order: the subset of a concatenation is the
      concatenation of the subsets. */
  lemma {:induction false} SubsetAppend(a: seq<seq<Value>>, b: seq<seq<Value>>, i: nat, c: string)
    ensures Subset(a + b, i, c) == Subset(a, i, c) + Subset(b, i, c)
    decreases |b|
  {
    if b != [] {
      var n := |b| - 1;
      SubsetAppend(a, b[..n], i, c);
      assert (a + b)[..|a + b| - 1] == a + b[..n];
      assert (a + b)[|a + b| - 1] == b[n];
    } else {
      assert a + b == a;
    }
  }

  /** The number of categories in cats that a row names at i. */
  function Hits(row: seq<Value>, i: nat, cats: seq<string>): nat
    decreases |cats|
  {
    if cats == [] then 0
    else Hits(row, i, cats[..|cats| - 1]) + (if i < |row| && row[i].payload == Text(cats[|cats| - 1]) then 1 else 0)
  }

  /** The total size of the subsets of the categories in cats. */
  function SubsetSizes(rows: seq<seq<Value>>, i: nat, cats: seq<string>): nat
    decreases |cats|
  {
    if cats == [] then 0
    else SubsetSizes(rows, i, cats[..|cats| - 1]) + |Subset(rows, i, cats[|cats| - 1])|
  }

  lemma {:induction false} HitsOne(row: seq<Value>, i: nat, cats: seq<string>)
    requires Distinct(cats) && i < |row| && row[i].payload.Text?
    ensures Hits(row, i, cats) == if row[i].payload.s in cats then 1 else 0
    decreases |cats|
  {
    if cats != [] {
      var n := |cats| - 1;
      var init := cats[..n];
      assert Distinct(init);
      HitsOne(row, i, init);
      assert row[i].payload.s in cats <==> row[i].payload.s in init || row[i].payload.s == cats[n];
      if row[i].payload.s == cats[n] {
        assert cats[n] !in init;
      }
    }
  }

  lemma {:induction false} SizesStep(rows: seq<seq<Value>>, i: nat, cats: seq<string>)
    requires rows != []
    ensures SubsetSizes(rows, i, cats) == SubsetSizes(rows[..|rows| - 1], i, cats) + Hits(rows[|rows| - 1], i, cats)
    decreases |cats|
  {
    if cats != [] {
      SizesStep(rows, i, cats[..|cats| - 1]);
    }
  }

  /** The subsets partition the rows: when every row names a category at
      i and the categories are distinct, their sizes add up to the number
      of rows (and each row lies in the subset of the category it names). */
  lemma {:induction false} SubsetsPartition(rows: seq<seq<Value>>, i: nat, cats: seq<string>)
    requires Distinct(cats)
    requires forall j :: 0 <= j < |rows| ==> i < |rows[j]| && rows[j][i].payload.Text? && rows[j][i].payload.s in cats
    ensures SubsetSizes(rows, i, cats) == |rows|
    decreases |rows|
  {
    if rows == [] {
      SizesEmpty(i, cats);
    } else {
      var n := |rows| - 1;
      assert forall j :: 0 <= j < n ==> rows[..n][j] == rows[j];
      SubsetsPartition(rows[..n], i, cats);
      SizesStep(rows, i, cats);
      HitsOne(rows[n], i, cats);
    }
  }

  lemma {:induction false} SizesEmpty(i: nat, cats: seq<string>)
    ensures SubsetSizes([], i, cats) == 0
    decreases |cats|
  {
    if cats != [] {
      SizesEmpty(i, cats[..|cats| - 1]);
    }
  }

  /** The candidate array subtree j of the loop starting at k is built
      with: the clone as long as every category from k to j-1 was
      observed, and all zeros after the first unobserved one, because the
      clone is shared and zero-filled in place. */
  ghost function SharedMask(rows: seq<seq<Value>>, b: nat, cats: seq<string>, k: nat, j: nat, cm: seq<int>): seq<int>
    requires k <= j <= |cats|
  {
    if forall l :: k <= l < j ==> Subset(rows, b, cats[l]) != [] then cm else ZeroMask(|cm|)
  }

  /** The subtree category j gets: untrained when no row names it,
      otherwise trained on its subset with its shared mask. */
  ghost function ExpectedChild(s: Schema, gain: Gain, rows: seq<seq<Value>>, b: nat, cats: seq<string>,
                               k: nat, j: nat, cm: seq<int>): Node
    requires FeaturesValid(s) && k <= j < |cats|
  {
    var sub := Subset(rows, b, cats[j]);
    if sub == [] then Untrained else TrainNode(s, gain, Untrained, SharedMask(rows, b, cats, k, j, cm), sub).1
  }

  /** The category loop puts exactly one subtree per category, the
      expected one, and leaves every other key as it was. */
  lemma {:induction false} ChildrenPlaced(s: Schema, gain: Gain, node: Node, mask: seq<int>, rows: seq<seq<Value>>,
                                          b: nat, cats: seq<string>, k: nat, cm: seq<int>)
    requires FeaturesValid(s) && k <= |cats| && Ones(cm) < Ones(mask) && Distinct(cats)
    ensures Placed(s, gain, node, mask, rows, b, cats, k, cm)
    decreases |cats| - k
  {
    if k < |cats| && Children(s, gain, node, mask, rows, b, cats, k, cm).0 == Pass {
      var sub := Subset(rows, b, cats[k]);
      var cm' := if sub != [] then cm else ZeroMask(|cm|);
      var child := if sub != [] then TrainNode(s, gain, Untrained, cm, sub).1 else Untrained;
      var node' := node.(subtrees := node.subtrees[cats[k] := child]);
      ChildrenPlaced(s, gain, node', mask, rows, b, cats, k + 1, cm');
      PlacedFrom(s, gain, node, mask, rows, b, cats, k, cm);
    }
  }

  /** What ChildrenPlaced states about the loop started at step k. */
  ghost predicate Placed(s: Schema, gain: Gain, node: Node, mask: seq<int>, rows: seq<seq<Value>>,
                         b: nat, cats: seq<string>, k: nat, cm: seq<int>)
    requires FeaturesValid(s) && k <= |cats| && Ones(cm) < Ones(mask)
  {
    var r := Children(s, gain, node, mask, rows, b, cats, k, cm);
    r.0 == Pass ==>
      forall j :: k <= j < |cats| ==>
        cats[j] in r.1.subtrees && r.1.subtrees[cats[j]] == ExpectedChild(s, gain, rows, b, cats, k, j, cm)
  }

  /** The induction step of ChildrenPlaced. */
  lemma PlacedFrom(s: Schema, gain: Gain, node: Node, mask: seq<int>, rows: seq<seq<Value>>,
                   b: nat, cats: seq<string>, k: nat, cm: seq<int>)
    requires FeaturesValid(s) && k < |cats| && Ones(cm) < Ones(mask) && Distinct(cats)
    requires var sub := Subset(rows, b, cats[k]);
             var cm' := if sub != [] then cm else ZeroMask(|cm|);
             var child := if sub != [] then TrainNode(s, gain, Untrained, cm, sub).1 else Untrained;
             Placed(s, gain, node.(subtrees := node.subtrees[cats[k] := child]), mask, rows, b, cats, k + 1, cm')
    ensures Placed(s, gain, node, mask, rows, b, cats, k, cm)
  {
    var r := Children(s, gain, node, mask, rows, b, cats, k, cm);
    if r.0 == Pass {
      var c := cats[k];
      var sub := Subset(rows, b, c);
      var cm' := if sub != [] then cm else ZeroMask(|cm|);
      var child := if sub != [] then TrainNode(s, gain, Untrained, cm, sub).1 else Untrained;
      var node' := node.(subtrees := node.subtrees[c := child]);
      ChildStep(s, gain, node, mask, rows, b, cats, k, cm);
      var r' := Children(s, gain, node', mask, rows, b, cats, k + 1, cm');
      assert r == r';
      ChildrenKeep(s, gain, node', mask, rows, b, cats, k + 1, cm', c);
      DistinctTail(cats, k);
      assert SharedMask(rows, b, cats, k, k, cm) == cm;
      PlacedStep(s, gain, rows, b, cats, k, cm, r'.1.subtrees);
    }
  }

  lemma DistinctTail(cats: seq<string>, k: nat)
    requires Distinct(cats) && k < |cats|
    ensures cats[k] !in cats[k + 1..]
  {
  }

  /** The expected subtrees seen from step k + 1, plus the one placed at
      step k, are the expected subtrees seen from step k. */
  lemma PlacedStep(s: Schema, gain: Gain, rows: seq<seq<Value>>, b: nat, cats: seq<string>, k: nat, cm: seq<int>,
                   t: map<string, Node>)
    requires FeaturesValid(s) && k < |cats|
    requires cats[k] in t && t[cats[k]] == ExpectedChild(s, gain, rows, b, cats, k, k, cm)
    requires var cm' := if Subset(rows, b, cats[k]) != [] then cm else ZeroMask(|cm|);
             forall j :: k + 1 <= j < |cats| ==>
               cats[j] in t && t[cats[j]] == ExpectedChild(s, gain, rows, b, cats, k + 1, j, cm')
    ensures forall j :: k <= j < |cats| ==> cats[j] in t && t[cats[j]] == ExpectedChild(s, gain, rows, b, cats, k, j, cm)
  {
    forall j | k < j < |cats|
      ensures cats[j] in t && t[cats[j]] == ExpectedChild(s, gain, rows, b, cats, k, j, cm)
    {
      SharedMaskShift(rows, b, cats, k, j, cm);
    }
  }

  /** The category loop leaves every key outside the remaining categories
      as it was. */
  lemma {:induction false} ChildrenKeep(s: Schema, gain: Gain, node: Node, mask: seq<int>, rows: seq<seq<Value>>,
                                        b: nat, cats: seq<string>, k: nat, cm: seq<int>, d: string)
    requires FeaturesValid(s) && k <= |cats| && Ones(cm) < Ones(mask) && d !in cats[k..]
    ensures var r := Children(s, gain, node, mask, rows, b, cats, k, cm);
            (d in r.1.subtrees <==> d in node.subtrees) && (d in node.subtrees ==> r.1.subtrees[d] == node.subtrees[d])
    decreases |cats| - k
  {
    var r := Children(s, gain, node, mask, rows, b, cats, k, cm);
    if k < |cats| {
      NotInTail(cats, k, d);
      var c := cats[k];
      var sub := Subset(rows, b, c);
      if sub != [] {
        var (o, child) := TrainNode(s, gain, Untrained, cm, sub);
        if o.Pass? {
          ChildrenKeep(s, gain, node.(subtrees := node.subtrees[c := child]), mask, rows, b, cats, k + 1, cm, d);
        } else {
          assert r == (o, node);
        }
      } else {
        ChildrenKeep(s, gain, node.(subtrees := node.subtrees[c := Untrained]), mask, rows, b, cats, k + 1, ZeroMask(|cm|), d);
      }
    } else {
      assert r == (Pass, node);
    }
  }

  lemma NotInTail(cats: seq<string>, k: nat, d: string)
    requires k < |cats| && d !in cats[k..]
    ensures d != cats[k] && d !in cats[k + 1..]
  {
  }

  /** One step of the category loop, from the loop's own variables. */
  lemma ChildStep(s: Schema, gain: Gain, node: Node, mask: seq<int>, rows: seq<seq<Value>>,
                  b: nat, cats: seq<string>, k: nat, cm: seq<int>)
    requires FeaturesValid(s) && k < |cats| && Ones(cm) < Ones(mask)
    requires Children(s, gain, node, mask, rows, b, cats, k, cm).0 == Pass
    ensures var sub := Subset(rows, b, cats[k]);
            var cm' := if sub != [] then cm else ZeroMask(|cm|);
            var child := if sub != [] then TrainNode(s, gain, Untrained, cm, sub).1 else Untrained;
            Children(s, gain, node, mask, rows, b, cats, k, cm)
            == Children(s, gain, node.(subtrees := node.subtrees[cats[k] := child]), mask, rows, b, cats, k + 1, cm')
  {
  }

  /** The shared mask of subtree j seen from step k + 1 is the one seen
      from step k. */
  lemma SharedMaskShift(rows: seq<seq<Value>>, b: nat, cats: seq<string>, k: nat, j: nat, cm: seq<int>)
    requires k < j < |cats|
    ensures var cm' := if Subset(rows, b, cats[k]) != [] then cm else ZeroMask(|cm|);
            SharedMask(rows, b, cats, k + 1, j, cm') == SharedMask(rows, b, cats, k, j, cm)
  {
    if Subset(rows, b, cats[k]) != [] {
      assert (forall l :: k + 1 <= l < j ==> Subset(rows, b, cats[l]) != [])
         <==> (forall l :: k <= l < j ==> Subset(rows, b, cats[l]) != []);
    } else {
      assert !(forall l :: k <= l < j ==> Subset(rows, b, cats[l]) != []);
      assert |ZeroMask(|cm|)| == |cm|;
    }
  }

  /** After a successful training that split the node, the split feature
      was a candidate whose every row names one of its categories, the
      categories' subsets partition the rows, and each declared category
      has exactly the subtree ExpectedChild describes. */
  lemma SplitChildren(s: Schema, gain: Gain, node: Node, mask: seq<int>, rows: seq<seq<Value>>)
    requires FeaturesValid(s)
    ensures var r := TrainNode(s, gain, node, mask, rows);
            r.0 == Pass && !r.1.isLeaf ==>
              && 0 <= r.1.best < |s.features|
              && s.features[r.1.best].categories.Some?
              && var b := r.1.best;
                 var cats := s.features[b].categories.value;
                 cats != [] ==>
                   && Eligible(s, mask, b)
                   && ColumnCheck(s.features[b], rows, b) == Pass
                   && (Distinct(cats) ==> SubsetSizes(rows, b, cats) == |rows|)
                   && (Distinct(cats) ==> forall j :: 0 <= j < |cats| ==>
                         cats[j] in r.1.subtrees
                         && r.1.subtrees[cats[j]] == ExpectedChild(s, gain, rows, b, cats, 0, j, mask[b := 0]))
  {
    var r := TrainNode(s, gain, node, mask, rows);
    if r.0 == Pass && !r.1.isLeaf {
      var counts := ClassCounts(s, rows).value;
      var ch := Candidates(s, mask, rows, gain, |s.features|).value;
      var b := ch.index;
      var f := s.features[b];
      var cats := f.categories.value;
      if cats != [] {
        assert ch.found;
        ClearOne(mask, b);
        var split := node.(isLeaf := false, best := b);
        assert r == Children(s, gain, split, mask, rows, b, cats, 0, mask[b := 0]);
        CandidatesChecked(s, mask, rows, gain, |s.features|);
        if Distinct(cats) {
          ChildrenPlaced(s, gain, split, mask, rows, b, cats, 0, mask[b := 0]);
          assert Valid(f);
          ColumnCheckMeaning(f, rows, b);
          SubsetsPartition(rows, b, cats);
        }
      }
    }
  }

  /** Classifying descends along the split feature: an instance naming a
      category no training row named reaches the untrained subtree and
      gets null; one naming an observed category gets what that
      category's subtree answers. */
  lemma ClassifyDescends(s: Schema, gain: Gain, node: Node, mask: seq<int>, rows: seq<seq<Value>>, row: seq<Value>, j: nat)
    requires FeaturesValid(s)
    ensures var r := TrainNode(s, gain, node, mask, rows);
            var b := r.1.best;
            (r.0 == Pass && !r.1.isLeaf && 0 <= b < |s.features| && s.features[b].categories.Some?
             && Distinct(s.features[b].categories.value) && j < |s.features[b].categories.value|
             && b < |row| && row[b].payload == Text(s.features[b].categories.value[j])) ==>
              var cats := s.features[b].categories.value;
              var sub := Subset(rows, b, cats[j]);
              && (sub == [] ==> Classify(r.1, row) == Ok(None))
              && (sub != [] ==> Classify(r.1, row) == Classify(TrainNode(s, gain, Untrained, SharedMask(rows, b, cats, 0, j, mask[b := 0]), sub).1, row))
  {
    SplitChildren(s, gain, node, mask, rows);
  }

  /** The shared-array defect: once some category of the split feature is
      unobserved, every later category's subtree is a leaf, whatever its
      subset would have allowed. */
  lemma SiblingAfterUnobservedIsLeaf(s: Schema, gain: Gain, rows: seq<seq<Value>>, b: nat, cats: seq<string>,
                                     l: nat, j: nat, cm: seq<int>)
    requires FeaturesValid(s) && l < j < |cats| && Subset(rows, b, cats[l]) == []
    ensures ExpectedChild(s, gain, rows, b, cats, 0, j, cm).isLeaf
  {
    var sub := Subset(rows, b, cats[j]);
    if sub != [] {
      assert SharedMask(rows, b, cats, 0, j, cm) == ZeroMask(|cm|);
      NoCandidatesLeaf(s, gain, Untrained, ZeroMask(|cm|), sub);
    }
  }

  /** A leaf trained without any candidate stays a leaf. */
  lemma NoCandidatesLeaf(s: Schema, gain: Gain, node: Node, mask: seq<int>, rows: seq<seq<Value>>)
    requires FeaturesValid(s) && node.isLeaf && Sum(mask) == 0
    ensures TrainNode(s, gain, node, mask, rows).1.isLeaf
  {
  }

  /** Every path from the node has at most h edges. */
  ghost predicate HeightAtMost(n: Node, h: nat)
    decreases n
  {
    forall c :: c in n.subtrees ==> h > 0 && HeightAtMost(n.subtrees[c], h - 1)
  }

  lemma {:induction false} HeightMono(n: Node, h: nat, h': nat)
    requires HeightAtMost(n, h) && h <= h'
    ensures HeightAtMost(n, h')
    decreases n
  {
    forall c | c in n.subtrees ensures h' > 0 && HeightAtMost(n.subtrees[c], h' - 1) {
      HeightMono(n.subtrees[c], h - 1, h' - 1);
    }
  }

  /** Each level clears one candidate, so a tree trained from scratch is
      no deeper than the number of candidates it starts with. */
  lemma {:induction false} TrainedHeight(s: Schema, gain: Gain, mask: seq<int>, rows: seq<seq<Value>>)
    requires FeaturesValid(s)
    ensures HeightAtMost(TrainNode(s, gain, Untrained, mask, rows).1, Ones(mask))
    decreases Ones(mask), 1, 0
  {
    var r := TrainNode(s, gain, Untrained, mask, rows);
    if ClassIndexOk(s) && ClassCounts(s, rows).Ok? {
      var counts := ClassCounts(s, rows).value;
      var (nz, last) := NonZero(counts);
      if nz != 1 && Sum(mask) != 0 && Candidates(s, mask, rows, gain, |s.features|).Ok? {
        var ch := Candidates(s, mask, rows, gain, |s.features|).value;
        var f := s.features[ch.index];
        if f.categories.Some? && ch.found {
          ClearOne(mask, ch.index);
          var split := Untrained.(isLeaf := false, best := ch.index);
          ChildrenHeight(s, gain, split, mask, rows, ch.index, f.categories.value, 0, mask[ch.index := 0]);
          assert r == Children(s, gain, split, mask, rows, ch.index, f.categories.value, 0, mask[ch.index := 0]);
        }
      }
    }
  }

  lemma {:induction false} ChildrenHeight(s: Schema, gain: Gain, node: Node, mask: seq<int>, rows: seq<seq<Value>>,
                                          b: nat, cats: seq<string>, k: nat, cm: seq<int>)
    requires FeaturesValid(s) && k <= |cats| && Ones(cm) < Ones(mask)
    requires SubtreesBelow(node, Ones(mask) - 1)
    ensures SubtreesBelow(Children(s, gain, node, mask, rows, b, cats, k, cm).1, Ones(mask) - 1)
    decreases Ones(mask), 0, |cats| - k, 1
  {
    if k < |cats| {
      var sub := Subset(rows, b, cats[k]);
      if sub == [] {
        ChildrenHeightUnobserved(s, gain, node, mask, rows, b, cats, k, cm);
      } else if TrainNode(s, gain, Untrained, cm, sub).0.Pass? {
        ChildrenHeightObserved(s, gain, node, mask, rows, b, cats, k, cm);
      } else {
        ChildrenOne(s, gain, node, mask, rows, b, cats, k, cm);
      }
    }
  }

  /** ChildrenHeight for an unobserved category: an untrained subtree. */
  lemma ChildrenHeightUnobserved(s: Schema, gain: Gain, node: Node, mask: seq<int>, rows: seq<seq<Value>>,
                                 b: nat, cats: seq<string>, k: nat, cm: seq<int>)
    requires FeaturesValid(s) && k < |cats| && Ones(cm) < Ones(mask)
    requires SubtreesBelow(node, Ones(mask) - 1) && Subset(rows, b, cats[k]) == []
    ensures SubtreesBelow(Children(s, gain, node, mask, rows, b, cats, k, cm).1, Ones(mask) - 1)
    decreases Ones(mask), 0, |cats| - k, 0
  {
    ChildrenOne(s, gain, node, mask, rows, b, cats, k, cm);
    PutBelow(node, cats[k], Untrained, Ones(mask) - 1);
    ChildrenHeight(s, gain, node.(subtrees := node.subtrees[cats[k] := Untrained]), mask, rows, b, cats, k + 1, ZeroMask(|cm|));
  }

  /** ChildrenHeight for an observed category whose subtree trains. */
  lemma ChildrenHeightObserved(s: Schema, gain: Gain, node: Node, mask: seq<int>, rows: seq<seq<Value>>,
                               b: nat, cats: seq<string>, k: nat, cm: seq<int>)
    requires FeaturesValid(s) && k < |cats| && Ones(cm) < Ones(mask)
    requires SubtreesBelow(node, Ones(mask) - 1)
    requires Subset(rows, b, cats[k]) != [] && TrainNode(s, gain, Untrained, cm, Subset(rows, b, cats[k])).0.Pass?
    ensures SubtreesBelow(Children(s, gain, node, mask, rows, b, cats, k, cm).1, Ones(mask) - 1)
    decreases Ones(mask), 0, |cats| - k, 0
  {
    var sub := Subset(rows, b, cats[k]);
    var next := node.(subtrees := node.subtrees[cats[k] := TrainNode(s, gain, Untrained, cm, sub).1]);
    assert SubtreesBelow(next, Ones(mask) - 1) by {
      PutTrained(s, gain, node, Ones(mask), cm, sub, cats[k]);
    }
    assert Children(s, gain, node, mask, rows, b, cats, k, cm) == Children(s, gain, next, mask, rows, b, cats, k + 1, cm) by {
      ChildrenOne(s, gain, node, mask, rows, b, cats, k, cm);
    }
    ChildrenHeight(s, gain, next, mask, rows, b, cats, k + 1, cm);
  }

  /** A subtree trained with fewer candidates than its parent fits below it. */
  lemma PutTrained(s: Schema, gain: Gain, node: Node, h: nat, cm: seq<int>, sub: seq<seq<Value>>, c: string)
    requires FeaturesValid(s) && Ones(cm) < h && SubtreesBelow(node, h - 1)
    ensures SubtreesBelow(node.(subtrees := node.subtrees[c := TrainNode(s, gain, Untrained, cm, sub).1]), h - 1)
    decreases h, 0, 0
  {
    TrainedHeight(s, gain, cm, sub);
    HeightMono(TrainNode(s, gain, Untrained, cm, sub).1, Ones(cm), h - 1);
    PutBelow(node, c, TrainNode(s, gain, Untrained, cm, sub).1, h - 1);
  }

  /** One turn of the category loop, failure included. */
  lemma ChildrenOne(s: Schema, gain: Gain, node: Node, mask: seq<int>, rows: seq<seq<Value>>,
                    b: nat, cats: seq<string>, k: nat, cm: seq<int>)
    requires FeaturesValid(s) && k < |cats| && Ones(cm) < Ones(mask)
    ensures var sub := Subset(rows, b, cats[k]);
            var r := Children(s, gain, node, mask, rows, b, cats, k, cm);
            var t := TrainNode(s, gain, Untrained, cm, sub);
            && (sub == [] ==>
                  r == Children(s, gain, node.(subtrees := node.subtrees[cats[k] := Untrained]), mask, rows, b, cats, k + 1, ZeroMask(|cm|)))
            && (sub != [] && t.0.Fail? ==> r == (t.0, node))
            && (sub != [] && t.0.Pass? ==>
                  r == Children(s, gain, node.(subtrees := node.subtrees[cats[k] := t.1]), mask, rows, b, cats, k + 1, cm))
  {
  }

  /** Every subtree of the node has height at most h. */
  ghost predicate SubtreesBelow(node: Node, h: nat)
  {
    forall c :: c in node.subtrees ==> HeightAtMost(node.subtrees[c], h)
  }

  lemma PutBelow(node: Node, c: string, child: Node, h: nat)
    requires SubtreesBelow(node, h) && HeightAtMost(child, h)
    ensures SubtreesBelow(node.(subtrees := node.subtrees[c := child]), h)
  {
  }
}
