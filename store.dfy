/**
 * The model directory: file names, what a file holds, what a write leaves behind,
 * and how `get_available_models` turns the directory listing into model names.
 */
module ModelStore {
  import opened Wrappers
  import opened Estimators

  /** Every classifier is stored as `<name>_model.pkl`. */
  const ModelSuffix: string := "_model.pkl"
  /** The one label-encoder file, shared by all classifiers. */
  const EncoderFile: string := "label_encoder.pkl"
  /** The name of the pre-trained backup classifier. */
  const BackupName: string := "random_forest"
  /** The reserved name of the bootstrapped classifier. */
  const DefaultName: string := "default"

  /** What a file in the model directory holds once unpickled: a pickled classifier
      (or a pickled `None`), a pickled label encoder, or bytes that do not load. */
  datatype Blob = ModelBlob(model: Option<Classifier>) | EncoderBlob(encoder: Encoder) | Unreadable

  type Files = map<string, Blob>

  /** How a `pickle.dump` to a path ends: written; `open` failed, leaving the file as it
      was; or the dump failed after `open(…, "wb")` had already truncated the file. */
  datatype WriteOutcome = Written | OpenFailed | DumpFailed

  /** `f"{name}_model.pkl"`. */
  function ModelFile(name: string): (f: string)
    ensures |f| == |name| + |ModelSuffix|
    ensures f[..|name|] == name && f[|name|..] == ModelSuffix
  {
    name + ModelSuffix
  }

  /** No classifier file name is the encoder file name, so writing a classifier never
      touches the encoder. */
  lemma ModelFileIsNotEncoderFile(name: string)
    ensures ModelFile(name) != EncoderFile
  {
  }

  /** The directory after writing `blob` to `file` with the given outcome. */
  function AfterWrite(files: Files, file: string, blob: Blob, io: WriteOutcome): (r: Files)
    ensures forall f :: f != file ==> (f in r <==> f in files)
    ensures forall f :: f != file && f in files ==> r[f] == files[f]
    ensures io.OpenFailed? ==> r == files
    ensures !io.OpenFailed? ==> file in r && r[file] == (if io.Written? then blob else Unreadable)
  {
    match io
    case Written => files[file := blob]
    case OpenFailed => files
    case DumpFailed => files[file := Unreadable]
  }

  // ---------------------------------------------------------------------------
  // Listing: `glob("*_model.pkl")`, then `basename(f).replace("_model.pkl", "")`.
  // ---------------------------------------------------------------------------

  predicate EndsWith(s: string, suffix: string)
  {
    |suffix| <= |s| && s[|s| - |suffix|..] == suffix
  }

  predicate OccursAt(p: string, s: string, i: int)
  {
    0 <= i && i + |p| <= |s| && s[i..i + |p|] == p
  }

  /** `p in s` for strings. */
  ghost predicate Occurs(p: string, s: string)
  {
    exists i :: OccursAt(p, s, i)
  }

  /** The names `glob` matches with `*_model.pkl`: the suffix, and `*` does not match a
      leading dot (hidden files are skipped). */
  predicate IsModelFile(f: string)
    ensures IsModelFile(f) <==> exists n :: f == ModelFile(n) && (n == [] || n[0] != '.')
  {
    FileNameShapes(f);
    EndsWith(f, ModelSuffix) && f[0] != '.'
  }

  /** A file name ends with the suffix exactly when it is some name's model file, and that
      file name starts with the name's first character. */
  lemma FileNameShapes(f: string)
    ensures EndsWith(f, ModelSuffix) ==> f == ModelFile(f[..|f| - |ModelSuffix|])
    ensures forall m :: f == ModelFile(m) ==> EndsWith(f, ModelSuffix) && (m == [] || f[0] == m[0])
  {
    forall m | f == ModelFile(m) ensures EndsWith(f, ModelSuffix) && (m == [] || f[0] == m[0]) {
      assert f[|f| - |ModelSuffix|..] == ModelSuffix;
    }
  }

  /** Python's `s.replace(p, "")`: every non-overlapping occurrence of `p`, scanning from
      the left, removed. */
  function RemoveAll(s: string, p: string): (r: string)
    requires |p| > 0
    ensures |r| <= |s|
    ensures !Occurs(p, s) ==> r == s
    decreases |s|
  {
    if |s| < |p| then s
    else if s[..|p|] == p then
      assert OccursAt(p, s, 0);
      RemoveAll(s[|p|..], p)
    else
      var t := RemoveAll(s[1..], p);
      OccursInTail(p, s);
      assert !Occurs(p, s) ==> s == [s[0]] + s[1..];
      [s[0]] + t
  }

  /** An occurrence in the tail of `s` is an occurrence in `s`, one place further on. */
  lemma OccursInTail(p: string, s: string)
    requires s != []
    ensures Occurs(p, s[1..]) ==> Occurs(p, s)
  {
    if Occurs(p, s[1..]) {
      var i :| OccursAt(p, s[1..], i);
      assert OccursAt(p, s, i + 1);
    }
  }

  /** `get_available_models` as written: the listing's classifier files with every
      occurrence of `_model.pkl` removed, in listing order; `None` is a raising `glob`,
      which yields `[]`. */
  function AvailableModels(listing: Option<seq<string>>): (names: seq<string>)
    ensures listing.None? ==> names == []
    ensures listing.Some? ==> |names| <= |listing.value|
    ensures listing.Some? ==> forall f :: f in listing.value && IsModelFile(f) ==> RemoveAll(f, ModelSuffix) in names
    ensures listing.Some? ==> forall n :: n in names ==>
              exists f :: f in listing.value && IsModelFile(f) && RemoveAll(f, ModelSuffix) == n
    decreases if listing.Some? then |listing.value| else 0
  {
    match listing
    case None => []
    case Some(fs) =>
      if fs == [] then []
      else
        var rest := AvailableModels(Some(fs[1..]));
        (if IsModelFile(fs[0]) then [RemoveAll(fs[0], ModelSuffix)] else []) + rest
  }

  /** Removing the suffix from `name + "_model.pkl"` gives `name` back when `name` has no
      `_model.pkl` of its own: no occurrence can straddle the boundary, since `_` occurs in
      the suffix only at its start. */
  lemma {:induction false} RemoveSuffixOfModelFile(name: string)
    requires !Occurs(ModelSuffix, name)
    ensures RemoveAll(ModelFile(name), ModelSuffix) == name
    decreases |name|
  {
    var f := ModelFile(name);
    if name == [] {
      assert f == ModelSuffix;
      assert f[|ModelSuffix|..] == [];
    } else if |name| >= |ModelSuffix| {
      assert f[..|ModelSuffix|] == name[..|ModelSuffix|];
      assert f[..|ModelSuffix|] != ModelSuffix by {
        if f[..|ModelSuffix|] == ModelSuffix {
          assert OccursAt(ModelSuffix, name, 0);
        }
      }
      StepPastFirst(name);
    } else {
      assert f[..|ModelSuffix|] != ModelSuffix by {
        assert f[|name|] == ModelSuffix[0] == '_';
        assert ModelSuffix[|name|] != '_';
      }
      StepPastFirst(name);
    }
  }

  /** One step of `RemoveSuffixOfModelFile`: when the file does not start with the
      suffix, the first character of `name` is kept and the rest handled recursively. */
  lemma {:induction false} StepPastFirst(name: string)
    requires name != [] && !Occurs(ModelSuffix, name)
    requires ModelFile(name)[..|ModelSuffix|] != ModelSuffix
    ensures RemoveAll(ModelFile(name), ModelSuffix) == name
    decreases |name|, 0
  {
    var f := ModelFile(name);
    assert f[1..] == ModelFile(name[1..]);
    OccursInTail(ModelSuffix, name);
    RemoveSuffixOfModelFile(name[1..]);
    assert name == [name[0]] + name[1..];
  }

  /** A name that a classifier can be saved under and then appear under in the list. */
  ghost predicate ListableName(name: string)
  {
    !Occurs(ModelSuffix, name) && (name == [] || name[0] != '.')
  }

  /** Save, then list: once `<name>_model.pkl` is in the directory, `name` is listed. */
  lemma SavedNameIsListed(files: Files, name: string, blob: Blob, listing: seq<string>)
    requires ListableName(name)
    requires forall f :: f in listing <==> f in AfterWrite(files, ModelFile(name), blob, Written)
    ensures name in AvailableModels(Some(listing))
  {
    var f := ModelFile(name);
    assert f in listing;
    assert f[0] != '.' by {
      if name == [] { assert f == ModelSuffix; } else { assert f[0] == name[0]; }
    }
    assert EndsWith(f, ModelSuffix);
    RemoveSuffixOfModelFile(name);
  }

  /** The encoder file never contributes a name, wherever it stands in the listing. */
  lemma {:induction false} EncoderFileIsNotListed(before: seq<string>, after: seq<string>)
    ensures AvailableModels(Some(before + [EncoderFile] + after)) == AvailableModels(Some(before + after))
    decreases |before|
  {
    if before == [] {
      assert !EndsWith(EncoderFile, ModelSuffix) by {
        assert EncoderFile[|EncoderFile| - |ModelSuffix|] != ModelSuffix[0];
      }
      assert before + [EncoderFile] + after == [EncoderFile] + after;
      assert before + after == after;
      assert ([EncoderFile] + after)[1..] == after;
      assert !IsModelFile(EncoderFile);
    } else {
      EncoderFileIsNotListed(before[1..], after);
      assert (before + [EncoderFile] + after)[1..] == before[1..] + [EncoderFile] + after;
      assert (before + after)[1..] == before[1..] + after;
    }
  }

  // ---------------------------------------------------------------------------
  // `replace` removes inner occurrences too, so a listed name need not have a file.
  // ---------------------------------------------------------------------------

  /** As written, a file `x_model.pkl_model.pkl` is listed as `x`, although `x_model.pkl`
      (the file `set_model("x")` would load) is not in the directory. */
  lemma ListedNameWithoutFile()
    ensures AvailableModels(Some(["x_model.pkl_model.pkl"])) == ["x"]
    ensures ModelFile("x") !in ["x_model.pkl_model.pkl"]
  {
    var f := "x_model.pkl_model.pkl";
    assert IsModelFile(f);
    assert f[1..][..|ModelSuffix|] == ModelSuffix;
    assert f[1..][|ModelSuffix|..] == ModelSuffix;
    assert RemoveAll(ModelSuffix, ModelSuffix) == [];
    assert RemoveAll(f[1..], ModelSuffix) == [];
    assert f[..|ModelSuffix|] != ModelSuffix;
    assert RemoveAll(f, ModelSuffix) == "x";
  }

  /** `<name>_model.pkl` back to `name`: only the trailing suffix removed. */
  function StripModelSuffix(f: string): (name: string)
    requires EndsWith(f, ModelSuffix)
    ensures ModelFile(name) == f
  {
    f[..|f| - |ModelSuffix|]
  }

  /** `get_available_models` with only the trailing `_model.pkl` removed from each
      matched file name. */
  function AvailableModelsIntended(listing: Option<seq<string>>): (names: seq<string>)
    ensures listing.None? ==> names == []
    ensures listing.Some? ==> |names| <= |listing.value|
    ensures listing.Some? ==> forall n :: n in names <==> ModelFile(n) in listing.value && IsModelFile(ModelFile(n))
    decreases if listing.Some? then |listing.value| else 0
  {
    match listing
    case None => []
    case Some(fs) =>
      if fs == [] then []
      else
        var rest := AvailableModelsIntended(Some(fs[1..]));
        assert forall n :: ModelFile(n) == fs[0] && IsModelFile(fs[0]) ==> n == StripModelSuffix(fs[0]) by {
          forall n | ModelFile(n) == fs[0] && IsModelFile(fs[0]) ensures n == StripModelSuffix(fs[0]) {
            assert ModelFile(n)[..|n|] == n;
          }
        }
        (if IsModelFile(fs[0]) then [StripModelSuffix(fs[0])] else []) + rest
  }

  /** With suffix removal every listed name can be switched to, and every saved name not
      starting with a dot is listed, whatever it contains. */
  lemma IntendedListingRoundTrip(files: Files, name: string, blob: Blob, listing: seq<string>)
    requires name == [] || name[0] != '.'
    requires forall f :: f in listing <==> f in AfterWrite(files, ModelFile(name), blob, Written)
    ensures name in AvailableModelsIntended(Some(listing))
    ensures forall n :: n in AvailableModelsIntended(Some(listing)) ==> ModelFile(n) in files || n == name
  {
    var f := ModelFile(name);
    assert f[0] != '.' by {
      if name == [] { assert f == ModelSuffix; } else { assert f[0] == name[0]; }
    }
    assert EndsWith(f, ModelSuffix);
    forall n | n in AvailableModelsIntended(Some(listing)) ensures ModelFile(n) in files || n == name {
      if ModelFile(n) == f {
        assert n == ModelFile(n)[..|n|] == f[..|name|] == name;
      }
    }
  }
}
