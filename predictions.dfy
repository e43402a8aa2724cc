/**
 * The values `predict_with_probabilities` works with: the feature extractor's outcome,
 * the failure reasons it reports, and the probability dictionary it builds.
 */
module Predictions {
  import opened Estimators

  /** What `audio_processor.extract_features` gives back: one feature row, or an
      exception. */
  datatype Extraction = Extracted(features: seq<real>) | ExtractionRaised

  /** The exceptions the prediction path can meet; the source returns their text `str(e)`,
      which is not modelled. */
  datatype Exception =
    | ExtractorError      // extract_features raised
    | PredictorError      // predict or predict_proba raised
    | EncoderNotFitted    // inverse_transform on an encoder without classes_
    | UnseenLabel         // inverse_transform met an index outside classes_
    | IndexError          // predict_proba gave no row, or a row shorter than classes_

  datatype Failure = NotInitialized | NoFeatures | EmptyPrediction | Caught(error: Exception) {

    /** The fixed `"error"` text of the three checks the method itself makes. */
    function Text(): string
      requires !Caught?
    {
      match this
      case NotInitialized => "Model not initialized."
      case NoFeatures => "Failed to extract features"
      case EmptyPrediction => "Empty prediction"
    }
  }

  /** The three texts tell the three checks apart: a caller reading `"error"` knows which
      check failed. */
  lemma TextNamesFailure(f: Failure, g: Failure)
    requires !f.Caught? && !g.Caught?
    ensures f.Text() == g.Text() <==> f == g
  {
  }

  /** A Python dict from class name to probability, as its ordered items. The key type
      is left open: only equality of keys matters. */
  type Detail<K> = seq<(K, real)>

  /** `{"emotion": …, "detail": …}` or `{"error": …}`. */
  datatype Response = Error(failure: Failure) | Ok(emotion: string, detail: Detail<string>)

  /** The dictionary's keys, in order. */
  function Keys<K>(d: Detail<K>): (ks: seq<K>)
    ensures |ks| == |d|
    ensures forall i :: 0 <= i < |d| ==> ks[i] == d[i].0
  {
    seq(|d|, i requires 0 <= i < |d| => d[i].0)
  }

  /** Where key `k` sits in the dictionary: its first position, or `|d|` if absent. */
  function KeyIndex<K(==)>(d: Detail<K>, k: K): (j: nat)
    ensures j <= |d|
    ensures j < |d| ==> d[j].0 == k
    ensures forall i :: 0 <= i < j ==> d[i].0 != k
  {
    if d == [] then 0 else if d[0].0 == k then 0 else 1 + KeyIndex(d[1..], k)
  }

  /** `d[k] = v` on a Python dict. */
  function Put<K(==)>(d: Detail<K>, k: K, v: real): (r: Detail<K>)
    ensures |d| <= |r| <= |d| + 1
  {
    var j := KeyIndex(d, k);
    if j < |d| then d[j := (k, v)] else d + [(k, v)]
  }

  /** Reading `d[k]` right after `d[k] = v` gives `v`. */
  lemma PutThenLookup<K>(d: Detail<K>, k: K, v: real)
    ensures KeyIndex(Put(d, k, v), k) < |Put(d, k, v)|
    ensures Put(d, k, v)[KeyIndex(Put(d, k, v), k)] == (k, v)
  {
    var j, r := KeyIndex(d, k), Put(d, k, v);
    assert r[j] == (k, v) && forall i :: 0 <= i < j ==> r[i] == d[i];
    KeyIndexAt(r, k, j);
  }

  /** The first position holding `k` is where `KeyIndex` finds it. */
  lemma KeyIndexAt<K>(d: Detail<K>, k: K, j: nat)
    requires j < |d| && d[j].0 == k
    requires forall i :: 0 <= i < j ==> d[i].0 != k
    ensures KeyIndex(d, k) == j
  {
  }

  /** Python dict assignment: on a dict with distinct keys, a present key keeps its place
      and only its value changes; an absent key is added at the end. */
  lemma PutItems<K>(d: Detail<K>, k: K, v: real)
    requires Distinct(Keys(d))
    ensures k in Keys(d) ==> |Put(d, k, v)| == |d|
    ensures k in Keys(d) ==>
              forall i :: 0 <= i < |d| ==> Put(d, k, v)[i] == if d[i].0 == k then (k, v) else d[i]
    ensures k !in Keys(d) ==> Put(d, k, v) == d + [(k, v)]
  {
    var j := KeyIndex(d, k);
    if k in Keys(d) {
      assert j < |d|;
      forall i | 0 <= i < |d| && d[i].0 == k ensures i == j {
        assert Keys(d)[i] == Keys(d)[j];
      }
    }
  }

  /** Assigning to a key keeps the keys when it is present and appends it when not. */
  lemma PutKeys<K>(d: Detail<K>, k: K, v: real)
    ensures Keys(Put(d, k, v)) == if k in Keys(d) then Keys(d) else Keys(d) + [k]
  {
    var j := KeyIndex(d, k);
    if j < |d| {
      assert k in Keys(d) by { assert Keys(d)[j] == k; }
    } else {
      assert k !in Keys(d);
    }
  }

  /** The dictionary the loop over `enumerate(classes)` in `predict_with_probabilities`
      has built after its first `n` rounds, each round assigning `row[i]` to `classes[i]`. */
  function ProbabilityTable<K(==)>(classes: seq<K>, row: seq<real>, n: nat): (t: Detail<K>)
    requires n <= |classes| && n <= |row|
    ensures |t| <= n
  {
    if n == 0 then [] else Put(ProbabilityTable(classes, row, n - 1), classes[n - 1], row[n - 1])
  }

  /** The table's keys are exactly the classes seen so far. */
  lemma {:induction false} TableKeys<K>(classes: seq<K>, row: seq<real>, n: nat)
    requires n <= |classes| && n <= |row|
    ensures forall k :: k in Keys(ProbabilityTable(classes, row, n)) <==> k in classes[..n]
  {
    if n > 0 {
      TableKeys(classes, row, n - 1);
      var t, c := ProbabilityTable(classes, row, n - 1), classes[n - 1];
      PutKeys(t, c, row[n - 1]);
      var ks := Keys(ProbabilityTable(classes, row, n));
      assert ks == if c in Keys(t) then Keys(t) else Keys(t) + [c];
      assert classes[..n] == classes[..n - 1] + [c];
      forall k ensures k in ks <==> k in classes[..n] {
        assert k in ks <==> k in Keys(t) || k == c;
      }
    }
  }

  /** No key appears twice in the table, whatever the classes. */
  lemma {:induction false} TableKeysDistinct<K>(classes: seq<K>, row: seq<real>, n: nat)
    requires n <= |classes| && n <= |row|
    ensures Distinct(Keys(ProbabilityTable(classes, row, n)))
  {
    if n > 0 {
      TableKeysDistinct(classes, row, n - 1);
      var t, c := ProbabilityTable(classes, row, n - 1), classes[n - 1];
      PutKeys(t, c, row[n - 1]);
      if c !in Keys(t) {
        AppendDistinct(Keys(t), c);
      }
    }
  }

  lemma AppendDistinct<T>(s: seq<T>, x: T)
    requires Distinct(s) && x !in s
    ensures Distinct(s + [x])
  {
  }

  /** With distinct classes (as `LabelEncoder.fit` makes them) the table holds the
      classes in their order, each with the probability at the same index. */
  lemma {:induction false} TableAligned<K>(classes: seq<K>, row: seq<real>, n: nat)
    requires n <= |classes| && n <= |row|
    requires Distinct(classes)
    ensures |ProbabilityTable(classes, row, n)| == n
    ensures forall i :: 0 <= i < n ==> ProbabilityTable(classes, row, n)[i] == (classes[i], row[i])
  {
    if n > 0 {
      TableAligned(classes, row, n - 1);
      var t := ProbabilityTable(classes, row, n - 1);
      assert KeyIndex(t, classes[n - 1]) == |t|;
      var u := t + [(classes[n - 1], row[n - 1])];
      assert ProbabilityTable(classes, row, n) == u;
      forall i | 0 <= i < n ensures u[i] == (classes[i], row[i]) {
        if i < n - 1 { assert u[i] == t[i]; }
      }
    }
  }
}
