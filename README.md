# MachineLearningToolkit in Dafny

A Dafny model of the core of the Ubhave MachineLearningToolkit, an Android
library of small on-device classifiers. The model covers these parts:

- The data model. A `Value` is a tagged scalar. A `Feature` is a column:
  NOMINAL with an ordered category list, or NUMERIC. An `Instance` is a
  mutable list of values. A `Signature` is the schema, with its compliance
  check. `ClassifierConfig` is the parameter bag.
- Four classifiers:
  - ZeroR: class counts and the majority class.
  - NaiveBayes: count tables, priors, posteriors and the argmax.
  - ID3: a decision tree grown by information gain.
  - DensityClustering: an outlier filter, then one centroid per class value
    and the nearest-centroid rule.
- The registry. `ClassifierList` creates classifiers from a type tag and
  keeps them by name. `MachineLearningManager` adds the "return the existing
  one" policy. The type tag switch of the JSON decoder is modelled too.

Modules follow the Java packages: `Doubles` (Java `double` as a finite real
or NaN), `Errors` (results and exception kinds), `Values`, `Features`,
`Instances`, `Signatures`, `ClassifierConfig`, `Argmax` (the shared
running-maximum scan), `ZeroR`, `NaiveBayes`, `ID3`, `DensityClustering` and
`Registry`.

How the Java constructs map to Dafny:

- Code that mutates fields in place is a Dafny class with `modifies` clauses:
  - `Instance`, `Signature` and `ClassifierConfig`;
  - the count array of ZeroR and the tables of NaiveBayes;
  - the tree fields of ID3 and the centroid maps of DensityClustering;
  - the registry maps.
- Each loop of the Java code is a `while` loop. It is proved equal to a
  specification function, and the behaviour the library promises is proved
  about that function as lemmas.
- An exception is an `Err`/`Fail` result naming its kind: an `MLException`
  code, or NullPointer, ClassCast or IndexOutOfBounds.
- A method that can throw half-way leaves the state as the Java code does
  at the throw. The earlier updates stay applied.

The model follows the code as written, including these behaviours:

- NaiveBayes never sums `classFeatureTotal`. Without Laplace smoothing every
  nominal factor is therefore 0, and `classify` falls back to the first
  class value (`NaiveBayes.NoSmoothingPicksFirst`).
- NaiveBayes' guard against a non-nominal class value tests
  `type == NUMERIC && type == MISSING`, which is never true. The class value
  is then cast to a String, and a numeric class value fails with
  ClassCast.
- The ID3 children share one cloned candidate array. Once some category of
  the split feature is unobserved, the array is zeroed, and every later
  category's subtree is a majority leaf
  (`ID3.SiblingAfterUnobservedIsLeaf`).
- ID3 `train` never clears `d_subtrees`. Retraining keeps the subtrees under
  keys the new split does not produce (`ID3.ChildrenKeep`).
- DensityClustering never resets `d_numTrains`. A second `train` divides the
  old centroid plus the new rows' coordinates by the old and new counts
  together
  (`DensityClustering.TrainedPerLabel`).
- ZeroR never assigns `d_type`. A stored ZeroR carries tag 0, which the
  decoder cannot read back (`Registry.RestoreStored`).

Where the written description of the library and the code disagree, the model
follows the code:

- `createClassifier` calls `NaiveBayes(sig, true)`, `NaiveBayes(sig)` and
  `ZeroR(sig)`. Only the `(Signature, ClassifierConfig)` constructors exist,
  so these calls are modelled by that constructor:
  - with smoothing on for `TYPE_NAIVE_BAYES`;
  - with the default smoothing (a parameter) for any unknown tag.
- `checkInstanceCompliance`, which NaiveBayes and ZeroR call, is not defined
  in `Signature.java`. It is modelled as `checkCompliance(instance, true)`.
- `TYPE_ID3`, `TYPE_DENSITY_CLUSTER`, the configuration keys and their
  defaults are not declared in `Constants.java`:
  - the two tags are the placeholders 1003 and 1004, distinct from the
    declared ones;
  - the configuration values are constructor parameters.

## Model

| member | source | states |
|---|---|---|
| Errors.Code | src/com/ubhave/mltoolkit/utils/MLException.java:26-31 | exactly the five MLException kinds carry an integer code: 100 incompatible feature type, 101 incompatible instance, 102 invalid parameter, 103 invalid state, 200 classifier exists; unchecked exceptions carry none |
| Values.NewValue | src/com/ubhave/mltoolkit/utils/Value.java:40-52 | MISSING stores NaN with tag MISSING whatever the payload; NOMINAL/NUMERIC keep the payload and the tag; any other type leaves a null payload and tag 0 |
| Values.NewValueConsistent | src/com/ubhave/mltoolkit/utils/Value.java:33-60 | every constructed Value has a payload matching its tag; the payload is irrelevant for MISSING; the stored tag equals the argument iff it is 0, 1 or 2 |
| Values.CategoryName | src/com/ubhave/mltoolkit/classifier/NaiveBayes.java:148 | `(String) getValue()` succeeds exactly on a String payload; a Double fails with ClassCast and null with NullPointer |
| Values.NumberOf | src/com/ubhave/mltoolkit/classifier/ZeroR.java:79 | `(Double) getValue()` unboxed succeeds exactly on a Double payload; a String fails with ClassCast and null with NullPointer |
| Features.IndexMapLast | src/com/ubhave/mltoolkit/utils/Feature.java:72-74 | the index map's keys are exactly the declared categories, and each maps to its last position in the list |
| Features.BuildCategoryIndex | src/com/ubhave/mltoolkit/utils/Feature.java:70-74 | the `put` loop builds a map whose keys are the categories and whose values are positions holding that category |
| Features.NewFeature | src/com/ubhave/mltoolkit/utils/Feature.java:52-60 | the no-categories constructor fails with INCOMPATIBLE_FEATURE_TYPE iff the type is NOMINAL; otherwise a valid feature with no category list |
| Features.NewCategoricalFeature | src/com/ubhave/mltoolkit/utils/Feature.java:62-89 | the array and list constructors fail with INCOMPATIBLE_FEATURE_TYPE iff the type is NUMERIC; otherwise a valid feature holding its own copy of the categories |
| Features.IndexOfCategory | src/com/ubhave/mltoolkit/utils/Feature.java:103-107 | succeeds iff the category is declared, with a position holding it; an undeclared one fails with NullPointer |
| Features.CategoryOfIndex | src/com/ubhave/mltoolkit/utils/Feature.java:109-111 | the category at a valid index; IndexOutOfBounds outside the list; NullPointer without a list |
| Features.NumberOfCategories | src/com/ubhave/mltoolkit/utils/Feature.java:113-116 | the category count for NOMINAL, 1 for any other type |
| Features.CategoryRoundTrip | src/com/ubhave/mltoolkit/utils/Feature.java:103-111 | categoryOfIndex(indexOfCategory(c)) == c for every declared c; with distinct categories indexOfCategory(categoryOfIndex(i)) == i |
| Features.DuplicateKeepsLast | src/com/ubhave/mltoolkit/utils/Feature.java:72-74 | a repeated category maps to a later position, never to an earlier one |
| Instances.Instance.WithCapacity | src/com/ubhave/mltoolkit/utils/Instance.java:37-43 | a new instance is empty for every non-negative capacity (a negative one is not modelled, see Left out) |
| Instances.Instance.Wrap | src/com/ubhave/mltoolkit/utils/Instance.java:45-47 | the list constructor adopts the caller's list object itself |
| Instances.Instance.Size | src/com/ubhave/mltoolkit/utils/Instance.java:62-64 | the size is the list length |
| Instances.Instance.AddValue | src/com/ubhave/mltoolkit/utils/Instance.java:49-51 | appends: size one more, the last element is the new value, earlier elements unchanged |
| Instances.Instance.ValueAt | src/com/ubhave/mltoolkit/utils/Instance.java:53-55 | element i for an index in range, IndexOutOfBounds otherwise |
| Instances.Instance.SetValueAt | src/com/ubhave/mltoolkit/utils/Instance.java:57-59 | replaces exactly position i and keeps the size; out of range it fails with IndexOutOfBounds and changes nothing |
| Instances.SharedListSeesAppend | src/com/ubhave/mltoolkit/utils/Instance.java:45-51 | two instances built on one list both see a value appended through the list |
| Signatures.CategoryValue | src/com/ubhave/mltoolkit/classifier/ZeroR.java:112-113 | `new Value(categoryOfIndex(i), NOMINAL_VALUE)` succeeds iff i is a valid category position, giving that category as a nominal value |
| Signatures.CheckCompliance | src/com/ubhave/mltoolkit/utils/Signature.java:85-108 | the early-return loop returns true iff the instance complies: the right length for training or classification, and each value's tag equal to its feature's type unless MISSING |
| Signatures.ComplianceCases | src/com/ubhave/mltoolkit/utils/Signature.java:89-106 | a training instance must have one value per feature, a classification instance one fewer; a MISSING value is accepted at any position; a mismatched tag is refused |
| Signatures.BuildNameMap | src/com/ubhave/mltoolkit/utils/Signature.java:52-54 | the name map is the one the `put` loop defines; NameMapMeaning states its keys and values |
| Signatures.NameMapMeaning | src/com/ubhave/mltoolkit/utils/Signature.java:52-54 | the keys are exactly the feature names, and each name maps to the feature at the last position carrying it |
| Signatures.Signature.constructor | src/com/ubhave/mltoolkit/utils/Signature.java:48-55 | stores (a copy of) the features and the class index unvalidated, and builds the name map |
| Signatures.Signature.WithLastClass | src/com/ubhave/mltoolkit/utils/Signature.java:57-59 | the class index is the last position, so the class feature is the last feature |
| Signatures.Signature.SetClassIndex | src/com/ubhave/mltoolkit/utils/Signature.java:61-63 | overwrites the class index with any value |
| Signatures.Signature.GetClassFeature | src/com/ubhave/mltoolkit/utils/Signature.java:69-71 | the feature at the current class index; IndexOutOfBounds when the index is outside the list |
| Signatures.Signature.CheckInstance | src/com/ubhave/mltoolkit/utils/Signature.java:85-108 | the compliance check on an Instance object answers Complies of its values |
| ClassifierConfig.Config.constructor | src/com/ubhave/mltoolkit/utils/ClassifierConfig.java:10-14 | a fresh config contains no key, and getParam answers null for every key |
| ClassifierConfig.Config.AddParam | src/com/ubhave/mltoolkit/utils/ClassifierConfig.java:16-18 | afterwards the key is present and getParam answers the new value, or null when the value is null (overwriting); other keys keep their values, and the key set gains the key |
| ClassifierConfig.Config.GetParam | src/com/ubhave/mltoolkit/utils/ClassifierConfig.java:20-30 | a value iff the key was added with a non-null value, and then the stored one; null for a key never added or added as null |
| ClassifierConfig.Config.ContainsParam | src/com/ubhave/mltoolkit/utils/ClassifierConfig.java:27-30 | an absent key reads as null; a present key reads as null exactly when a null was stored |
| ClassifierConfig.Config.GetAllParams | src/com/ubhave/mltoolkit/utils/ClassifierConfig.java:32-34 | exactly the keys containsParam accepts |
| ClassifierConfig.BoolSetting | src/com/ubhave/mltoolkit/classifier/NaiveBayes.java:73-77 | the default when the key is absent, the stored Boolean when present; a stored null throws NullPointer on unboxing, any other stored value ClassCast |
| ClassifierConfig.NumberSetting | src/com/ubhave/mltoolkit/classifier/DensityClustering.java:119-128 | the default when the key is absent, the stored Double when present; a stored null throws NullPointer on unboxing, any other stored value ClassCast |
| Argmax.ScanMeaning | src/com/ubhave/mltoolkit/classifier/ZeroR.java:101-110 | the running-maximum scan from (0, 0) ends at index 0 when nothing exceeds 0, else at the first position holding a strictly greatest positive value |
| Argmax.FirstMaxMeaning | src/com/ubhave/mltoolkit/classifier/NaiveBayes.java:304-316 | the chosen index is 0 when no value exceeds 0; otherwise no value exceeds the one chosen and every earlier one is strictly smaller |
| Argmax.FirstMaxOf | src/com/ubhave/mltoolkit/classifier/ZeroR.java:101-110 | the loop over an array computes FirstMax of its contents |
| ZeroR.Updated | src/com/ubhave/mltoolkit/classifier/ZeroR.java:64-82 | a failed update leaves the counts unchanged; the count array keeps its length |
| ZeroR.Trained | src/com/ubhave/mltoolkit/classifier/ZeroR.java:85-91 | train keeps the count array's length |
| ZeroR.ZeroR.constructor | src/com/ubhave/mltoolkit/classifier/ZeroR.java:53-61 | an all-zero count array of length numberOfCategories for a NOMINAL class and 2 for a NUMERIC one |
| ZeroR.ZeroR.Update | src/com/ubhave/mltoolkit/classifier/ZeroR.java:64-82 | the outcome and new counts are those of Updated on the old counts |
| ZeroR.ZeroR.Train | src/com/ubhave/mltoolkit/classifier/ZeroR.java:85-91 | the outcome and new counts are those of sequential updates in list order, stopping at the first failure |
| ZeroR.ZeroR.Classify | src/com/ubhave/mltoolkit/classifier/ZeroR.java:94-121 | a non-compliant instance fails with INCOMPATIBLE_INSTANCE; otherwise the answer depends only on the counts |
| ZeroR.UpdateCases | src/com/ubhave/mltoolkit/classifier/ZeroR.java:66-81 | non-compliant: INCOMPATIBLE_INSTANCE, counts unchanged; NOMINAL: the cell `indexOfCategory` gives gains 1 and no other changes (with distinct categories, exactly the cells of the class category), an undeclared category or a null fails with NullPointer, a number fails with ClassCast; NUMERIC: the value is added to cell 0 and 1 to cell 1, a String fails with ClassCast and a null with NullPointer |
| ZeroR.TrainedStops | src/com/ubhave/mltoolkit/classifier/ZeroR.java:85-91 | once an update fails, the later instances change nothing and the earlier updates stay applied |
| ZeroR.TrainCountsClasses | src/com/ubhave/mltoolkit/classifier/ZeroR.java:64-91 | training a fresh NOMINAL ZeroR on labelled rows succeeds, and cell k then counts the rows of class category k |
| ZeroR.TrainCountsRows | src/com/ubhave/mltoolkit/classifier/ZeroR.java:78-91 | training a NUMERIC ZeroR on rows with numeric class values succeeds, and the count cell grows by the number of rows |
| ZeroR.PredictionIsMajority | src/com/ubhave/mltoolkit/classifier/ZeroR.java:101-115 | NOMINAL: the first category when no count is positive; otherwise the first category with a strictly greatest positive count; IndexOutOfBounds when the class has no category |
| NaiveBayes.ZeroRowsOf | src/com/ubhave/mltoolkit/classifier/NaiveBayes.java:95-112 | the inner loop of `initialize` puts one zero row per class value for the feature |
| NaiveBayes.InitialState | src/com/ubhave/mltoolkit/classifier/NaiveBayes.java:82-128 | `initialize` gives an all-zero class-count array of the class-category count and the initial tables |
| NaiveBayes.InitialTablesKeys | src/com/ubhave/mltoolkit/classifier/NaiveBayes.java:92-127 | the tables have an entry for exactly the feature names, each with a row for exactly the class values |
| NaiveBayes.InitialTablesRows | src/com/ubhave/mltoolkit/classifier/NaiveBayes.java:92-127 | each row of a feature is all zeros, of length numberOfCategories for NOMINAL and 3 for NUMERIC |
| NaiveBayes.InitialTablesShaped | src/com/ubhave/mltoolkit/classifier/NaiveBayes.java:82-128 | the tables `initialize` builds have a row of the right width for every feature and class value |
| NaiveBayes.NaiveBayes.constructor | src/com/ubhave/mltoolkit/classifier/NaiveBayes.java:69-80 | stores the smoothing flag and leaves the counts and tables as `initialize` builds them |
| NaiveBayes.NaiveBayes.Initialize | src/com/ubhave/mltoolkit/classifier/NaiveBayes.java:82-128 | fresh all-zero class counts and the initial tables |
| NaiveBayes.PositionUpdate | src/com/ubhave/mltoolkit/classifier/NaiveBayes.java:152-177 | one position of `update` keeps every key and changes only rows of the given class category; PositionUpdateCases states the new cell values |
| NaiveBayes.NumericStep | src/com/ubhave/mltoolkit/classifier/NaiveBayes.java:169-173 | the numeric update keeps the width of the triple; PositionUpdateCases states it adds (1, v, v*v) |
| NaiveBayes.Updated | src/com/ubhave/mltoolkit/classifier/NaiveBayes.java:131-179 | `update` keeps the length of the class counts |
| NaiveBayes.Trained | src/com/ubhave/mltoolkit/classifier/NaiveBayes.java:183-190 | `train` keeps the length of the class counts |
| NaiveBayes.NaiveBayes.UpdatePosition | src/com/ubhave/mltoolkit/classifier/NaiveBayes.java:152-177 | one turn of the position loop gives the outcome and tables of PositionUpdate |
| NaiveBayes.NaiveBayes.UpdatePositions | src/com/ubhave/mltoolkit/classifier/NaiveBayes.java:152-177 | the position loop gives the outcome and tables of PositionUpdates over every position |
| NaiveBayes.NaiveBayes.Update | src/com/ubhave/mltoolkit/classifier/NaiveBayes.java:131-179 | the outcome, class counts and tables are those of Updated on the old state |
| NaiveBayes.NaiveBayes.Train | src/com/ubhave/mltoolkit/classifier/NaiveBayes.java:183-190 | the outcome, class counts and tables are those of sequential updates, stopping at the first throw |
| NaiveBayes.TrainedStops | src/com/ubhave/mltoolkit/classifier/NaiveBayes.java:183-190 | once an update throws, later instances change nothing and earlier ones stay applied |
| NaiveBayes.PositionsStop | src/com/ubhave/mltoolkit/classifier/NaiveBayes.java:152-177 | once a position throws, later positions change nothing |
| NaiveBayes.PositionUpdatesLocal | src/com/ubhave/mltoolkit/classifier/NaiveBayes.java:152-177 | the whole position loop keeps every key and changes only rows of the instance's class category |
| NaiveBayes.UpdateOnlyOwnClass | src/com/ubhave/mltoolkit/classifier/NaiveBayes.java:133-177 | a non-compliant instance throws INCOMPATIBLE_INSTANCE with nothing changed; a compliant one changes no row of another class category |
| NaiveBayes.UpdateClassCount | src/com/ubhave/mltoolkit/classifier/NaiveBayes.java:140-150 | exactly the class count of the instance's class value gains 1; a numeric class value fails with ClassCast, null or an undeclared one with NullPointer |
| NaiveBayes.PositionUpdateCases | src/com/ubhave/mltoolkit/classifier/NaiveBayes.java:158-177 | a nominal value adds 1 to exactly its category cell; a numeric value v adds (1, v, v*v); a MISSING value changes nothing |
| NaiveBayes.TrainCountsClasses | src/com/ubhave/mltoolkit/classifier/NaiveBayes.java:131-190 | after a successful `train` from zero, class count k is the number of rows of class value k |
| NaiveBayes.PriorsOf | src/com/ubhave/mltoolkit/classifier/NaiveBayes.java:207-213 | one prior per class count; PriorsWhole states they are non-negative, sum to 1, and equal count/total |
| NaiveBayes.Priors | src/com/ubhave/mltoolkit/classifier/NaiveBayes.java:205-213 | one prior per class count, from the narrowed int total; PriorsProportional states each is count/sum on whole counts |
| NaiveBayes.NaiveBayes.PriorArray | src/com/ubhave/mltoolkit/classifier/NaiveBayes.java:205-215 | the prior loop fills a fresh array with Priors of the class counts |
| NaiveBayes.CountTotalWhole | src/com/ubhave/mltoolkit/classifier/NaiveBayes.java:205-206 | on whole counts the narrowing int accumulator is exactly their sum |
| NaiveBayes.PriorsUniform | src/com/ubhave/mltoolkit/classifier/NaiveBayes.java:208-209 | with a zero total every prior is 1/k and the priors add up to 1 |
| NaiveBayes.PriorsShareEach | src/com/ubhave/mltoolkit/classifier/NaiveBayes.java:210-212 | with a positive total each prior is non-negative and times the total gives its count |
| NaiveBayes.PriorsShareSum | src/com/ubhave/mltoolkit/classifier/NaiveBayes.java:210-212 | when the total is the sum of the counts the priors add up to 1 |
| NaiveBayes.PriorsWhole | src/com/ubhave/mltoolkit/classifier/NaiveBayes.java:205-215 | on whole counts the priors are non-negative, add up to 1, and are count/total once the total is positive |
| NaiveBayes.PriorsBeforeTraining | src/com/ubhave/mltoolkit/classifier/NaiveBayes.java:205-209 | before any training (zero total) the priors are uniform, 1/k each |
| NaiveBayes.PriorsMeaning | src/com/ubhave/mltoolkit/classifier/NaiveBayes.java:205-215 | on whole class counts the priors form a distribution: non-negative and adding up to 1 |
| NaiveBayes.PriorsProportional | src/com/ubhave/mltoolkit/classifier/NaiveBayes.java:205-215 | on whole class counts the int total is their sum, and once positive each prior is count/sum |
| NaiveBayes.Factor | src/com/ubhave/mltoolkit/classifier/NaiveBayes.java:236-285 | a MISSING value contributes no factor (and only it); without smoothing a nominal value's factor is 0; a numeric factor other than 0 needs a full count/sum/square-sum row with a positive count; a numeric value whose row has a positive count but fewer than three cells throws IndexOutOfBounds |
| NaiveBayes.ClassStep | src/com/ubhave/mltoolkit/classifier/NaiveBayes.java:234-285 | one class value's factor keeps the posterior vector's length; ClassPassZeroes states that 0 and NaN stay absorbed and, without smoothing, a nominal value zeroes the factor; a numeric value whose class row has a positive count but fewer than three cells throws IndexOutOfBounds (Factor) |
| NaiveBayes.ClassPass | src/com/ubhave/mltoolkit/classifier/NaiveBayes.java:234-285 | the inner loop keeps the posterior vector's length; ClassPassZeroes states which posteriors it leaves 0 or NaN, and ClassPassPositive that with smoothing a positive posterior stays positive; a numeric value whose class row has a positive count but fewer than three cells throws IndexOutOfBounds (Factor) |
| NaiveBayes.Posteriors | src/com/ubhave/mltoolkit/classifier/NaiveBayes.java:224-286 | the position loop gives one posterior per class value; PosteriorsZeroed states that without smoothing one nominal value leaves them all 0 or NaN, and PosteriorsPositive that with smoothing a positive prior stays positive; a numeric value whose class row has a positive count but fewer than three cells throws IndexOutOfBounds (Factor) |
| NaiveBayes.Distribution | src/com/ubhave/mltoolkit/classifier/NaiveBayes.java:193-296 | `getDistribution` gives one posterior per class value; ClassificationIsArgmax states the class chosen from it is the first strictly greatest positive posterior, or the first class value; SmoothingKeepsObservedPositive states that with smoothing every observed class keeps a positive posterior; a numeric value whose class row has a positive count but fewer than three cells throws IndexOutOfBounds (Factor) |
| NaiveBayes.NaiveBayes.ApplyClass | src/com/ubhave/mltoolkit/classifier/NaiveBayes.java:234-285 | one turn of the inner loop updates the posterior array as ClassStep says, or reports its throw; a numeric value whose class row has a positive count but fewer than three cells throws IndexOutOfBounds (Factor) |
| NaiveBayes.NaiveBayes.ApplyPosition | src/com/ubhave/mltoolkit/classifier/NaiveBayes.java:234-285 | the inner loop at one position updates the posterior array as ClassPass says, or reports its throw; a numeric value whose class row has a positive count but fewer than three cells throws IndexOutOfBounds (Factor) |
| NaiveBayes.NaiveBayes.GetDistribution | src/com/ubhave/mltoolkit/classifier/NaiveBayes.java:193-296 | the method answers Distribution: a fresh array holding the posteriors, or its error; a numeric value whose class row has a positive count but fewer than three cells throws IndexOutOfBounds (Factor) |
| NaiveBayes.NaiveBayes.ApplyPositions | src/com/ubhave/mltoolkit/classifier/NaiveBayes.java:224-287 | the position loop turns the priors into Posteriors over the whole instance, or reports the throw of the first failing position; a numeric value whose class row has a positive count but fewer than three cells throws IndexOutOfBounds (Factor) |
| NaiveBayes.NaiveBayes.Classify | src/com/ubhave/mltoolkit/classifier/NaiveBayes.java:300-322 | the method answers Classification of the current state; a numeric value whose class row has a positive count but fewer than three cells throws IndexOutOfBounds (Factor) |
| NaiveBayes.ClassPassZeroes | src/com/ubhave/mltoolkit/classifier/NaiveBayes.java:237-261 | a posterior at 0 or NaN stays there; without smoothing a nominal value zeroes every posterior it reaches |
| NaiveBayes.PosteriorsZeroed | src/com/ubhave/mltoolkit/classifier/NaiveBayes.java:224-261 | without smoothing, one nominal value anywhere leaves every posterior 0 or NaN |
| NaiveBayes.NoSmoothingPicksFirst | src/com/ubhave/mltoolkit/classifier/NaiveBayes.java:237-261 | without smoothing, an instance with a nominal value is classified as the first class value |
| NaiveBayes.SmoothedFactorPositive | src/com/ubhave/mltoolkit/classifier/NaiveBayes.java:249-254 | with smoothing and non-negative counts, a nominal value's factor is at least 1/(number of its categories), hence positive |
| NaiveBayes.ClassPassPositive | src/com/ubhave/mltoolkit/classifier/NaiveBayes.java:234-286 | with smoothing, no numeric value and non-negative counts, one position keeps every positive posterior positive |
| NaiveBayes.PosteriorsPositive | src/com/ubhave/mltoolkit/classifier/NaiveBayes.java:224-287 | with smoothing, no numeric value and non-negative counts, every class with a positive prior ends with a positive posterior |
| NaiveBayes.MassAtLeast | src/com/ubhave/mltoolkit/classifier/NaiveBayes.java:205-206 | on whole counts the class total is at least each count |
| NaiveBayes.PriorAt | src/com/ubhave/mltoolkit/classifier/NaiveBayes.java:205-213 | once some class was observed, an unobserved class has prior 0 and an observed one a positive prior |
| NaiveBayes.ObservedPriors | src/com/ubhave/mltoolkit/classifier/NaiveBayes.java:205-213 | every observed class has a positive prior, and once some class was observed every unobserved class has prior 0 |
| NaiveBayes.SmoothingKeepsObservedPositive | src/com/ubhave/mltoolkit/classifier/NaiveBayes.java:205-287 | with smoothing, no numeric value and non-negative counts, every observed class gets a positive posterior; an unobserved class gets prior 0 once any class was observed, so smoothing cannot lift it |
| NaiveBayes.ClassificationIsArgmax | src/com/ubhave/mltoolkit/classifier/NaiveBayes.java:300-322 | `classify` answers the first class value when no posterior is positive, otherwise the first with a strictly greatest positive posterior |
| ID3.Ones | src/com/ubhave/mltoolkit/classifier/ID3.java:137-139 | the candidate count is at most the mask length |
| ID3.AllFeatures | src/com/ubhave/mltoolkit/classifier/ID3.java:89-94 | one entry per feature, 0 exactly at the class index and 1 elsewhere; IndexOutOfBounds for an invalid class index |
| ID3.AllFeaturesCandidates | src/com/ubhave/mltoolkit/classifier/ID3.java:89-94 | the initial mask has one candidate per feature but the class, and sums to that number |
| ID3.ID3.constructor | src/com/ubhave/mltoolkit/classifier/ID3.java:99-108 | an untrained leaf holding the given candidate mask |
| ID3.ID3.WithAllFeatures | src/com/ubhave/mltoolkit/classifier/ID3.java:95-97 | an untrained leaf whose candidates are every feature but the class |
| ID3.CellIndex | src/com/ubhave/mltoolkit/classifier/ID3.java:179-181 | a row's value at i names a category iff it is a String declared by the feature, and the index is its position |
| ID3.ClassCounts | src/com/ubhave/mltoolkit/classifier/ID3.java:113-122 | one count per class category |
| ID3.CountClasses | src/com/ubhave/mltoolkit/classifier/ID3.java:113-122 | the counting loop computes ClassCounts |
| ID3.ClassCountsMeaning | src/com/ubhave/mltoolkit/classifier/ID3.java:113-122 | counting succeeds iff every row names a declared class category, and count k is then the number of rows of category k |
| ID3.NonZero | src/com/ubhave/mltoolkit/classifier/ID3.java:123-128 | the number of positive counts, with the last positive index; it is 1 iff exactly one count is positive, and then the index is that count's |
| ID3.CountNonZero | src/com/ubhave/mltoolkit/classifier/ID3.java:123-128 | the `NZcounter` loop computes NonZero |
| ID3.SumMask | src/com/ubhave/mltoolkit/classifier/ID3.java:137-139 | the `numCandidateFeatures` loop computes the sum of the mask |
| ID3.Majority | src/com/ubhave/mltoolkit/classifier/ID3.java:142-149 | the majority loop computes the first strictly greatest count |
| ID3.Leaf | src/com/ubhave/mltoolkit/classifier/ID3.java:129-151 | the node becomes a leaf; the majority value is set when the category lookup succeeds, and otherwise its error is thrown |
| ID3.LeafIndex | src/com/ubhave/mltoolkit/classifier/ID3.java:123-151 | the index a leaf answers has a count no smaller than any other, and every earlier count is strictly smaller |
| ID3.SingleClassLeaf | src/com/ubhave/mltoolkit/classifier/ID3.java:117-133 | when every row carries one declared class value, training makes the node a leaf with that value |
| ID3.MajorityLeaf | src/com/ubhave/mltoolkit/classifier/ID3.java:137-151 | with no candidate left the node becomes a leaf with the first most frequent class category; a class with no category throws IndexOutOfBounds |
| ID3.NoCandidatesLeaf | src/com/ubhave/mltoolkit/classifier/ID3.java:137-151 | a leaf trained with an all-zero mask stays a leaf |
| ID3.Subset | src/com/ubhave/mltoolkit/classifier/ID3.java:177-191 | the subset of category c holds as many rows as name c, each a training row naming c |
| ID3.GroupColumn | src/com/ubhave/mltoolkit/classifier/ID3.java:173-191 | the instance loop for one feature checks every row and builds the subsets map |
| ID3.GroupedStep | src/com/ubhave/mltoolkit/classifier/ID3.java:185-190 | appending a row to its subset keeps the map equal to the per-category subsets of the rows seen |
| ID3.ColumnCheckMeaning | src/com/ubhave/mltoolkit/classifier/ID3.java:177-183 | the column check passes iff every row names, at i, a declared category |
| ID3.SubsetAppend | src/com/ubhave/mltoolkit/classifier/ID3.java:177-191 | splitting keeps order: the subset of a concatenation is the concatenation of the subsets |
| ID3.SubsetsPartition | src/com/ubhave/mltoolkit/classifier/ID3.java:177-191 | when every row names one of the distinct categories, the subsets' sizes add up to the number of rows |
| ID3.Candidates | src/com/ubhave/mltoolkit/classifier/ID3.java:157-211 | a found choice is an eligible (NOMINAL candidate) feature with its gain; none found leaves index 0 and gain -1 |
| ID3.ChooseFeature | src/com/ubhave/mltoolkit/classifier/ID3.java:157-211 | the feature loop computes Candidates, and its subsets map groups the rows by the chosen feature |
| ID3.CandidatesMeaning | src/com/ubhave/mltoolkit/classifier/ID3.java:157-211 | the chosen gain exceeds -1 and no eligible gain exceeds it, and every earlier eligible gain is strictly smaller; with none found no gain exceeds -1 |
| ID3.CandidatesChecked | src/com/ubhave/mltoolkit/classifier/ID3.java:167-191 | every eligible feature scanned had its column checked |
| ID3.ClearOne | src/com/ubhave/mltoolkit/classifier/ID3.java:221-222 | clearing the chosen candidate removes exactly one candidate |
| ID3.ZeroMask | src/com/ubhave/mltoolkit/classifier/ID3.java:232 | the filled array has no candidate and sums to 0 |
| ID3.Children | src/com/ubhave/mltoolkit/classifier/ID3.java:220-236 | the category loop only touches the subtrees |
| ID3.ChildrenPlaced | src/com/ubhave/mltoolkit/classifier/ID3.java:220-236 | the category loop puts exactly one subtree per remaining category, the one ExpectedChild describes |
| ID3.ChildrenKeep | src/com/ubhave/mltoolkit/classifier/ID3.java:224-236 | keys outside the remaining categories keep their old subtrees |
| ID3.ID3.Train | src/com/ubhave/mltoolkit/classifier/ID3.java:111-241 | the outcome and new fields are those of TrainNode from the old fields |
| ID3.ID3.TrainChildren | src/com/ubhave/mltoolkit/classifier/ID3.java:220-236 | the category loop leaves the fields as Children says |
| ID3.SplitChildren | src/com/ubhave/mltoolkit/classifier/ID3.java:212-236 | after a split: the split feature is an eligible NOMINAL candidate whose column was checked, the subsets partition the rows, and each category gets exactly its expected subtree |
| ID3.SiblingAfterUnobservedIsLeaf | src/com/ubhave/mltoolkit/classifier/ID3.java:221-234 | once a category is unobserved, every later category's subtree is a leaf |
| ID3.TrainedHeight | src/com/ubhave/mltoolkit/classifier/ID3.java:221-228 | a tree trained from scratch has height at most the number of candidates |
| ID3.ChildrenHeight | src/com/ubhave/mltoolkit/classifier/ID3.java:220-236 | every subtree the category loop puts has height below the parent's candidate count |
| ID3.Classify | src/com/ubhave/mltoolkit/classifier/ID3.java:272-281 | an answer is always the majority value of some leaf of the tree; at an inner node a number or null at the split position, or a category with no subtree, throws NullPointer; IndexOutOfBounds only when a split position on the descent lies outside the instance |
| ID3.ClassifyDescends | src/com/ubhave/mltoolkit/classifier/ID3.java:272-281 | classifying a split node follows the instance's category: an unobserved one answers null, an observed one what its subtree answers |
| DensityClustering.Distance | src/com/ubhave/mltoolkit/classifier/DensityClustering.java:77-111 | INCOMPATIBLE_INSTANCE iff the lengths differ; the haversine formula for length 2, the Euclidean one otherwise |
| DensityClustering.Dedup | src/com/ubhave/mltoolkit/classifier/DensityClustering.java:133-138 | the map's keys: the class values, each once |
| DensityClustering.LabelOf | src/com/ubhave/mltoolkit/classifier/DensityClustering.java:159 | a String label, null for a null payload, ClassCast for a Double |
| DensityClustering.Coords | src/com/ubhave/mltoolkit/classifier/DensityClustering.java:161-163 | the first n values as doubles iff each is a Double payload |
| DensityClustering.CoordsOf | src/com/ubhave/mltoolkit/classifier/DensityClustering.java:161-163 | the coordinate loop computes Coords |
| DensityClustering.DensityClustering.constructor | src/com/ubhave/mltoolkit/classifier/DensityClustering.java:113-140 | one all-zero centroid of size-1 coordinates and a zero count per class value |
| DensityClustering.ZeroCentroids | src/com/ubhave/mltoolkit/classifier/DensityClustering.java:133-138 | a centroid of the given width for exactly the class values |
| DensityClustering.ZeroCounts | src/com/ubhave/mltoolkit/classifier/DensityClustering.java:133-138 | a count for exactly the class values |
| DensityClustering.Neighbour | src/com/ubhave/mltoolkit/classifier/DensityClustering.java:173-195 | another instance must comply (INCOMPATIBLE_INSTANCE otherwise); the total grows by one iff it has the same label, and the inside count by one iff it has the same label and lies inside the maximum distance (Near) |
| DensityClustering.Neighbours | src/com/ubhave/mltoolkit/classifier/DensityClustering.java:171-197 | the inside count never exceeds the total, which never exceeds the instances scanned; NeighboursCount states both counts exactly |
| DensityClustering.NeighboursCount | src/com/ubhave/mltoolkit/classifier/DensityClustering.java:171-197 | the total is the number of other instances with the same label (Peers), the inside count the number of those inside the maximum distance (Inside) |
| DensityClustering.PeersStep | src/com/ubhave/mltoolkit/classifier/DensityClustering.java:171-192 | one more position scanned adds one peer iff it is another instance with the same label |
| DensityClustering.InsideStep | src/com/ubhave/mltoolkit/classifier/DensityClustering.java:171-194 | one more position scanned adds one inside peer iff it is another instance with the same label within the maximum distance |
| DensityClustering.OutlierAtFull | src/com/ubhave/mltoolkit/classifier/DensityClustering.java:200-201 | with a minimum inclusion of 100% the removal test is: some peer, and fewer inside than peers |
| DensityClustering.FullInclusionVerdict | src/com/ubhave/mltoolkit/classifier/DensityClustering.java:150-205 | with a minimum inclusion of 100% a verdict of the filter removes the instance iff it has a peer and some peer lies outside the maximum distance |
| DensityClustering.NeighboursRejects | src/com/ubhave/mltoolkit/classifier/DensityClustering.java:175-180 | any other non-compliant instance makes the inner loop throw |
| DensityClustering.DensityClustering.CountOne | src/com/ubhave/mltoolkit/classifier/DensityClustering.java:173-195 | one turn of the inner loop computes Neighbour |
| DensityClustering.DensityClustering.CountNeighbours | src/com/ubhave/mltoolkit/classifier/DensityClustering.java:168-197 | the inner loop computes Neighbours over the whole list |
| DensityClustering.DensityClustering.Examine | src/com/ubhave/mltoolkit/classifier/DensityClustering.java:152-205 | the outer loop body computes the removal verdict Judge |
| DensityClustering.DensityClustering.FilterOutliers | src/com/ubhave/mltoolkit/classifier/DensityClustering.java:150-207 | the filter leaves the caller's list and outcome as FilterFrom says |
| DensityClustering.FilterRejects | src/com/ubhave/mltoolkit/classifier/DensityClustering.java:154-180 | a list holding a non-compliant instance makes the filter throw |
| DensityClustering.FilterMask | src/com/ubhave/mltoolkit/classifier/DensityClustering.java:150-207 | the filtered list is the kept prefix followed by the rows the filter keeps, in order |
| DensityClustering.FilterSubsequence | src/com/ubhave/mltoolkit/classifier/DensityClustering.java:150-207 | the filter only removes: the result is an order-preserving subsequence of the input |
| DensityClustering.FilterNoThreshold | src/com/ubhave/mltoolkit/classifier/DensityClustering.java:200-205 | with a percentage that is not positive nothing is removed |
| DensityClustering.AddCoords | src/com/ubhave/mltoolkit/classifier/DensityClustering.java:220-223 | adding a row's coordinates keeps the centroid width; AddCoordsMeaning states the sums |
| DensityClustering.AddCoordsMeaning | src/com/ubhave/mltoolkit/classifier/DensityClustering.java:220-223 | passes iff the first n values exist and are numbers, and then coordinate i < n gains the i-th value while the rest stay |
| DensityClustering.AddInto | src/com/ubhave/mltoolkit/classifier/DensityClustering.java:220-223 | the coordinate loop computes AddCoords |
| DensityClustering.AccumulateRow | src/com/ubhave/mltoolkit/classifier/DensityClustering.java:213-227 | one accumulation step keeps the keys and widths of both maps |
| DensityClustering.AddRow | src/com/ubhave/mltoolkit/classifier/DensityClustering.java:213-227 | the loop body computes AccumulateRow |
| DensityClustering.Accumulated | src/com/ubhave/mltoolkit/classifier/DensityClustering.java:213-227 | the accumulation keeps the keys and widths of both maps |
| DensityClustering.AccumulatedPerLabel | src/com/ubhave/mltoolkit/classifier/DensityClustering.java:213-227 | after a run without throw each centroid is its base plus the coordinates of its rows, and each count grows by the number of its rows |
| DensityClustering.LabelSumNone | src/com/ubhave/mltoolkit/classifier/DensityClustering.java:213-227 | a label without rows keeps its centroid |
| DensityClustering.DensityClustering.Accumulate | src/com/ubhave/mltoolkit/classifier/DensityClustering.java:213-227 | the accumulation loop leaves the maps as Accumulated says |
| DensityClustering.DensityClustering.AccumulateOne | src/com/ubhave/mltoolkit/classifier/DensityClustering.java:213-227 | one turn leaves the maps as AccumulateRow says |
| DensityClustering.DivAll | src/com/ubhave/mltoolkit/classifier/DensityClustering.java:236-240 | dividing keeps the width |
| DensityClustering.Mean | src/com/ubhave/mltoolkit/classifier/DensityClustering.java:236-240 | a centroid with a count that is not positive keeps its coordinates |
| DensityClustering.DivideBy | src/com/ubhave/mltoolkit/classifier/DensityClustering.java:236-240 | the division loop computes Mean |
| DensityClustering.Averaged | src/com/ubhave/mltoolkit/classifier/DensityClustering.java:229-243 | every class value's centroid is replaced by its Mean |
| DensityClustering.DivideAll | src/com/ubhave/mltoolkit/classifier/DensityClustering.java:229-243 | the division loop over the class values computes Averaged |
| DensityClustering.DensityClustering.Average | src/com/ubhave/mltoolkit/classifier/DensityClustering.java:229-243 | the centroids become Averaged |
| DensityClustering.AveragedMeaning | src/com/ubhave/mltoolkit/classifier/DensityClustering.java:229-243 | a positive count divides each coordinate (quotient times count is the sum); a count of 0 keeps the coordinates |
| DensityClustering.DensityClustering.Train | src/com/ubhave/mltoolkit/classifier/DensityClustering.java:143-245 | the list, outcome and maps end as Trained says: filter, accumulate, divide |
| DensityClustering.TrainedPerLabel | src/com/ubhave/mltoolkit/classifier/DensityClustering.java:143-245 | after a successful train each count is the old count plus the label's surviving rows, and each centroid is the accumulated sum divided by it when positive |
| DensityClustering.FreshCentroid | src/com/ubhave/mltoolkit/classifier/DensityClustering.java:113-245 | training a fresh classifier makes each centroid the mean of its surviving rows, or zeros when it has none |
| DensityClustering.FindNearest | src/com/ubhave/mltoolkit/classifier/DensityClustering.java:266-279 | the search loop computes Nearest over every class value |
| DensityClustering.NearestTracks | src/com/ubhave/mltoolkit/classifier/DensityClustering.java:266-279 | the scan holds the first label with MAX_VALUE until some centroid is nearer, then the label it found and its distance |
| DensityClustering.NearestAtMeaning | src/com/ubhave/mltoolkit/classifier/DensityClustering.java:266-279 | no scanned centroid is strictly nearer than the held distance, and every earlier one is strictly farther than the found one |
| DensityClustering.NearestMeaning | src/com/ubhave/mltoolkit/classifier/DensityClustering.java:256-281 | the answer is the first label at strictly minimal distance, or the first class value with MAX_VALUE when no centroid is nearer than MAX_VALUE |
| DensityClustering.DensityClustering.Classify | src/com/ubhave/mltoolkit/classifier/DensityClustering.java:248-282 | the method answers Classification of the current centroids |
| DensityClustering.ClassificationAnswers | src/com/ubhave/mltoolkit/classifier/DensityClustering.java:248-282 | a non-compliant instance throws INCOMPATIBLE_INSTANCE; a class with no values throws IndexOutOfBounds; any answer is a nominal value naming a class value |
| DensityClustering.TrainThenClassify | src/com/ubhave/mltoolkit/classifier/DensityClustering.java:143-282 | training a fresh classifier and then classifying answers a nominal value naming a class value |
| Registry.Dispatch | src/com/ubhave/mltoolkit/ClassifierList.java:59-77 | ZeroR iff TYPE_ZERO_R, ID3 iff TYPE_ID3, otherwise NaiveBayes, with the default smoothing for an unknown tag |
| Registry.CreatableCases | src/com/ubhave/mltoolkit/ClassifierList.java:59-77 | no constructor survives an invalid class index; ID3 always survives a valid one; ZeroR iff the class is NOMINAL or NUMERIC |
| Registry.CreateClassifier | src/com/ubhave/mltoolkit/ClassifierList.java:59-77 | succeeds iff the dispatched constructor does not throw, with a fresh object of that algorithm over the schema; otherwise NullPointer or IndexOutOfBounds |
| Registry.StoredTag | src/com/ubhave/mltoolkit/classifier/ZeroR.java:53-61 | the stored `d_type` is 0 exactly for ZeroR, which never assigns it |
| Registry.Decode | src/com/ubhave/mltoolkit/MachineLearningManager.java:257-277 | a decoder exactly for the NaiveBayes, ID3 and ZeroR tags; any other tag leaves the result null and fails with NullPointer |
| Registry.RestoreStored | src/com/ubhave/mltoolkit/MachineLearningManager.java:264-276 | a stored NaiveBayes or ID3 decodes with its own decoder; a stored ZeroR and a density clustering tag fail |
| Registry.CreatedRestorable | src/com/ubhave/mltoolkit/MachineLearningManager.java:264-276 | a classifier created from any tag but TYPE_ZERO_R can be decoded again |
| Registry.Lookup | src/com/ubhave/mltoolkit/ClassifierList.java:86-93 | the entry under the name, null iff the name is absent |
| Registry.LookupAfterUpdate | src/com/ubhave/mltoolkit/ClassifierList.java:79-100 | after a put the name finds the new entry, after a remove nothing; other names are unaffected |
| Registry.ClassifierList.constructor | src/com/ubhave/mltoolkit/ClassifierList.java:53-57 | an empty registry |
| Registry.ClassifierList.RemoveClassifier | src/com/ubhave/mltoolkit/ClassifierList.java:79-84 | the name is gone whether it was there or not; other entries are unchanged |
| Registry.ClassifierList.GetClassifier | src/com/ubhave/mltoolkit/ClassifierList.java:86-93 | the entry under the name, null when absent |
| Registry.ClassifierList.AddClassifier | src/com/ubhave/mltoolkit/ClassifierList.java:95-100 | a fresh classifier stored under the name, overwriting any entry, and returned; when creation throws nothing changes |
| Registry.MachineLearningManager.constructor | src/com/ubhave/mltoolkit/MachineLearningManager.java:108-117 | a manager over a fresh empty list |
| Registry.MachineLearningManager.AddClassifier | src/com/ubhave/mltoolkit/MachineLearningManager.java:119-133 | an existing name returns the registered object and changes nothing; a new name registers and returns a fresh classifier |
| Registry.MachineLearningManager.RemoveClassifier | src/com/ubhave/mltoolkit/MachineLearningManager.java:135-137 | delegates: the name is gone and other entries are unchanged |
| Registry.MachineLearningManager.GetClassifier | src/com/ubhave/mltoolkit/MachineLearningManager.java:144-146 | delegates: the entry under the name, null when absent |
| Registry.AddTwice | src/com/ubhave/mltoolkit/MachineLearningManager.java:119-133 | two adds under one name return the same object, which is what the name finds; other names are unchanged |

## Left out

- File, stream and Gson I/O are not modelled: `saveToPersistent*`, `loadFrom*Persistent`, the JSON codec and Android `Context`. Only the tag switch of the decoder is kept.
- The singleton `getMLManager` and the private constructor's auto-load are not modelled; the manager constructor starts from an empty list.
- Concurrency is not modelled: the `synchronized` blocks on static locks and the non-atomic check-then-add of `addClassifier`. The model is sequential.
- The floating-point formulas are function parameters:
  - the Gaussian likelihood and its infinity cap in NaiveBayes;
  - the entropy and information gain of ID3;
  - the haversine and Euclidean distances of DensityClustering;
  - the ZeroR numeric mean.
- `Double` has finite values and NaN only. Rounding, infinities and overflow of Java doubles are not modelled, and count arithmetic is exact.
- Logging, `printClassifierInfo` and `ID3.print` are not modelled: they only build strings.
- DataSet.java is not modelled; it is an unfinished duplicate of the compliance check.
- Classifier.java and OnlineClassifier.java are declarations only. The registry's `Classifier` datatype stands for the three algorithms it can create.
- HashMap iteration order is not modelled. The DensityClustering maps are visited in declared class-value order, which `classify` relies on for ties.
- Instance identity in the DensityClustering filter (`!=` on references) is modelled by list position, so two equal rows are still different instances.
- The configuration keys and defaults (smoothing, maximum distance, minimum inclusion percentage) are constructor parameters, because `Constants.java` does not declare them. `BoolSetting` and `NumberSetting` model reading them from a config.
- Classifier constructors require a schema they do not crash on (`Buildable`), and features built by the Feature constructors (`FeaturesValid`). `Registry.CreateClassifier` checks `Buildable` and returns the exception instead.
- Instances.Instance.WithCapacity: the capacity is a `nat`, so the IllegalArgumentException that `new ArrayList<Value>(n)` throws for a negative `n` is not modelled.
- Signatures.Signature.constructor: the feature list is copied into a sequence, not shared with the caller. A later `add` on the caller's ArrayList, which in Java changes the signature's size and compliance check but not its stale name map, is not modelled.
- A classifier keeps the schema it was built with. A later `setClassIndex` on the shared Signature is not seen by an existing classifier.
- ZeroR.ZeroR.Classify: for a NUMERIC class the answer is the mean parameter applied to the two cells, not `sum/count` in doubles.
- ID3.ID3.Train: memorisation of separable data (every training instance classified as its own label) is not stated. Gain is a parameter, so nothing fixes which feature a node splits on. The recursion also shares one zeroed candidate array among siblings: after a sibling with no instances every later sibling becomes a majority leaf (SiblingAfterUnobservedIsLeaf). So the property does not hold of the code as written.
- NaiveBayes.NaiveBayes.Update, NaiveBayes.NaiveBayes.Train: nothing is proved about the counts keeping a full triple per numeric feature, so no lemma states that a trained classifier never takes the IndexOutOfBounds path of Factor; the positivity lemmas assume non-negative counts instead of deriving them from training.
- NaiveBayes.Updated, NaiveBayes.Trained, ZeroR.Updated and ZeroR.Trained state only shapes in their own contracts; what they compute is stated by the UpdateCases, UpdateClassCount, PositionUpdateCases, TrainCounts* and *Stops lemmas.
