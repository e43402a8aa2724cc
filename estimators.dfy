/**
 * The scikit-learn values that the model lifecycle stores and passes around: the
 * random-forest classifier, seen only through its type name, its parameters and
 * whether it has been fitted, and the label encoder, seen through its ordered
 * `classes_`. The numerics of `fit`, `predict` and `predict_proba` are not modelled;
 * the lifecycle receives them as functions.
 */
module Estimators {
  import opened Wrappers
  import opened EmotionLabels

  /** A hyper-parameter value as `get_params` reports it. */
  datatype ParamValue = IntValue(i: int) | StrValue(s: string) | BoolValue(b: bool) | NoneValue

  type Params = map<string, ParamValue>

  /** An opaque classifier: its Python type name and its parameters. */
  datatype Classifier = Classifier(kind: string, params: Params)

  /** `RandomForestClassifier(n_estimators=100, random_state=42)`. */
  const DefaultForest: Classifier :=
    Classifier("RandomForestClassifier", map["n_estimators" := IntValue(100), "random_state" := IntValue(42)])

  /** What an in-place sklearn step (`set_params`, `fit`) leaves behind: the updated
      classifier, or the classifier as it stood when the step raised. */
  datatype Step = Done(classifier: Classifier) | Raised(classifier: Classifier)

  /** A `LabelEncoder`; only a fitted one has the attribute `classes_`. */
  datatype Encoder = Unfitted | Fitted(classes: seq<string>)

  /** `label_encoder.classes_` if the encoder exists and has it, else `[]`. */
  function Classes(e: Option<Encoder>): seq<string>
  {
    if e.Some? && e.value.Fitted? then e.value.classes else []
  }

  // ---------------------------------------------------------------------------
  // The order numpy sorts strings in: lexicographic by code point.
  // ---------------------------------------------------------------------------

  /** `a` sorts strictly before `b`: a proper prefix comes first, otherwise the first
      differing code point decides. */
  predicate Less(a: string, b: string)
    ensures Less(a, b) ==> a != b
    ensures |a| < |b| && a == b[..|a|] ==> Less(a, b)
  {
    if |a| == 0 then |b| > 0
    else if |b| == 0 then false
    else
      assert |a| < |b| && a == b[..|a|] ==> a[1..] == b[1..][..|a| - 1];
      a[0] < b[0] || (a[0] == b[0] && Less(a[1..], b[1..]))
  }

  lemma {:induction false} LessIrreflexive(a: string)
    ensures !Less(a, a)
  {
    if |a| > 0 {
      LessIrreflexive(a[1..]);
    }
  }

  lemma {:induction false} LessTransitive(a: string, b: string, c: string)
    requires Less(a, b) && Less(b, c)
    ensures Less(a, c)
  {
    if |a| > 0 && a[0] == b[0] && b[0] == c[0] {
      LessTransitive(a[1..], b[1..], c[1..]);
    }
  }

  lemma {:induction false} LessTotal(a: string, b: string)
    requires a != b
    ensures Less(a, b) || Less(b, a)
  {
    if |a| > 0 && |b| > 0 && a[0] == b[0] {
      assert a == [a[0]] + a[1..];
      assert b == [b[0]] + b[1..];
      LessTotal(a[1..], b[1..]);
    }
  }

  ghost predicate StrictlySorted(s: seq<string>)
  {
    forall i, j :: 0 <= i < j < |s| ==> Less(s[i], s[j])
  }

  ghost predicate Distinct<T>(s: seq<T>)
  {
    forall i, j :: 0 <= i < j < |s| ==> s[i] != s[j]
  }

  lemma SortedIsDistinct(s: seq<string>)
    requires StrictlySorted(s)
    ensures Distinct(s)
  {
    forall i, j | 0 <= i < j < |s| ensures s[i] != s[j] {
      LessIrreflexive(s[i]);
    }
  }

  /** Prepending a value below every element keeps a sequence ascending. */
  lemma PrependSorted(x: string, s: seq<string>)
    requires StrictlySorted(s)
    requires forall y :: y in s ==> Less(x, y)
    ensures StrictlySorted([x] + s)
  {
    forall i, j | 0 <= i < j < |s| + 1 ensures Less(([x] + s)[i], ([x] + s)[j]) {
      assert ([x] + s)[j] == s[j - 1];
      if i > 0 {
        assert ([x] + s)[i] == s[i - 1];
      }
    }
  }

  /** Puts `x` into an ascending, duplicate-free sequence, keeping it so. */
  function Insert(x: string, s: seq<string>): (r: seq<string>)
    requires StrictlySorted(s)
    ensures StrictlySorted(r)
    ensures forall y :: y in r <==> y == x || y in s
    ensures |r| > 0 && (r[0] == x || (s != [] && r[0] == s[0]))
  {
    if s == [] then [x]
    else if x == s[0] then s
    else if Less(x, s[0]) then
      assert forall y :: y in s ==> Less(x, y) by {
        forall k | 0 < k < |s| ensures Less(x, s[k]) {
          LessTransitive(x, s[0], s[k]);
        }
      }
      PrependSorted(x, s);
      [x] + s
    else
      LessTotal(x, s[0]);
      var t := Insert(x, s[1..]);
      assert forall y :: y in t ==> Less(s[0], y) by {
        forall y | y in t ensures Less(s[0], y) {
          if y != x {
            var k :| 0 <= k < |s[1..]| && s[1..][k] == y;
            assert s[k + 1] == y;
          }
        }
      }
      PrependSorted(s[0], t);
      [s[0]] + t
  }

  /** `np.unique`: the distinct values of `xs` in ascending order. This is what
      `LabelEncoder.fit` stores as `classes_`. */
  function Unique(xs: seq<string>): (r: seq<string>)
    ensures StrictlySorted(r)
    ensures forall y :: y in r <==> y in xs
  {
    if xs == [] then [] else Insert(xs[0], Unique(xs[1..]))
  }

  /** `LabelEncoder().fit(values)`. */
  function Fit(values: seq<string>): (e: Encoder)
    ensures e.Fitted? && StrictlySorted(e.classes) && Distinct(e.classes)
    ensures forall v :: v in e.classes <==> v in values
  {
    var cs := Unique(values);
    SortedIsDistinct(cs);
    Fitted(cs)
  }

  /** The classes of the encoder `initialize_default_model` fits: the emotion values,
      sorted. */
  const EmotionClasses: seq<string> := ["angry", "neutral", "positive", "sad"]

  /** Fitting the encoder on the emotion values in declaration order gives exactly
      `EmotionClasses`, which hold every emotion. */
  lemma DefaultClasses()
    ensures Fit(LabelValues()) == Fitted(EmotionClasses)
    ensures forall l: EmotionLabel :: l.Value() in EmotionClasses
  {
    var s1 := Insert("positive", []);
    assert s1 == ["positive"];
    assert !Less("sad", "positive");
    var s2 := Insert("sad", s1);
    assert s2 == ["positive", "sad"];
    assert Less("angry", "positive");
    var s3 := Insert("angry", s2);
    assert s3 == ["angry", "positive", "sad"];
    assert !Less("neutral", "angry") && Less("neutral", "positive");
    var s4 := Insert("neutral", s3);
    assert s4 == ["angry"] + Insert("neutral", ["positive", "sad"]);
    assert s4 == EmotionClasses;
    assert LabelValues() == ["neutral", "angry", "sad", "positive"];
    assert Unique(LabelValues()) == s4;
  }

  /** The index `LabelEncoder.transform` gives a known class: its position in `classes_`. */
  function IndexOf(classes: seq<string>, v: string): (k: nat)
    requires v in classes
    ensures k < |classes| && classes[k] == v
    ensures forall j :: 0 <= j < k ==> classes[j] != v
  {
    if classes[0] == v then 0 else 1 + IndexOf(classes[1..], v)
  }
}
