/**
 * The model lifecycle object `EmotionModels`: the active classifier, the label encoder
 * and the current model name, together with the model directory it reads and writes.
 * sklearn's numerics, the feature extractor and the outcome of each file write come in
 * as parameters.
 */
module Lifecycle {
  import opened Wrappers
  import opened EmotionLabels
  import opened Estimators
  import opened ModelStore
  import opened Predictions

  /** `get_current_model_info`'s dictionary. */
  datatype ModelInfo =
    | NoModelLoaded
    | Info(name: string, kind: string, nEstimators: Option<ParamValue>, classes: seq<string>, parameters: Params)

  /** `set_params(**params)`, then `fit(features, y)`, both in place; the first that
      raises stops the sequence and leaves its partial classifier. */
  function Refit(c: Classifier, params: Params, features: seq<real>, y: nat,
                 setParams: (Classifier, Params) -> Step,
                 fit: (Classifier, seq<real>, nat) -> Step): Step
  {
    match setParams(c, params)
    case Raised(partial) => Raised(partial)
    case Done(c1) => fit(c1, features, y)
  }

  /** The checks `partial_fit` makes before it touches the classifier, any one of which
      makes it return `False`. */
  predicate RejectsRetraining(model: Option<Classifier>, encoder: Option<Encoder>,
                              extracted: Extraction, trueLabel: EmotionLabel)
  {
    model.None? || encoder.None?
    || extracted.ExtractionRaised? || |extracted.features| == 0
    || trueLabel.Value() !in Classes(encoder)
  }

  /** `load_backup_model`'s success condition: both backup files exist and unpickle to
      a classifier and an encoder. */
  predicate BackupLoadable(files: Files)
  {
    ModelFile(BackupName) in files && files[ModelFile(BackupName)].ModelBlob?
    && EncoderFile in files && files[EncoderFile].EncoderBlob?
  }

  class EmotionModels {
    var model: Option<Classifier>
    var labelEncoder: Option<Encoder>
    var currentModelName: string
    /** The contents of the model directory. */
    var disk: Files

    constructor (files: Files)
      ensures model == None && labelEncoder == None
      ensures currentModelName == DefaultName && disk == files
    {
      model := None;
      labelEncoder := None;
      currentModelName := DefaultName;
      disk := files;
    }

    /** A fresh forest and an encoder fitted on the four emotion values. */
    method InitializeDefaultModel()
      modifies this`model, this`labelEncoder
      ensures model == Some(DefaultForest)
      ensures labelEncoder == Some(Fit(LabelValues()))
      ensures labelEncoder == Some(Fitted(EmotionClasses))
    {
      DefaultClasses();
      model, labelEncoder := Some(DefaultForest), Some(Fit(LabelValues()));
    }

    /** Pickles the classifier (not the encoder) to `<name>_model.pkl`, `name` defaulting
        to the current name; a failed write is caught and reported as `false`. */
    method SaveModel(name: Option<string>, io: WriteOutcome) returns (ok: bool)
      modifies this
      ensures ok <==> io.Written?
      ensures disk == AfterWrite(old(disk), ModelFile(name.GetOr(currentModelName)), ModelBlob(model), io)
      ensures EncoderFile in disk <==> EncoderFile in old(disk)
      ensures EncoderFile in disk ==> disk[EncoderFile] == old(disk)[EncoderFile]
      ensures model == old(model) && labelEncoder == old(labelEncoder)
      ensures currentModelName == old(currentModelName)
    {
      var target := name.GetOr(currentModelName);
      ModelFileIsNotEncoderFile(target);
      disk := AfterWrite(disk, ModelFile(target), ModelBlob(model), io);
      ok := io.Written?;
    }

    /** Loads `<name>_model.pkl` as the classifier and makes `name` current; the encoder
        is kept. A missing file (`None` in the source) and a file that fails to load are
        both `false` and change nothing. */
    method LoadModel(name: string) returns (ok: bool)
      modifies this
      ensures ok <==> ModelFile(name) in disk && disk[ModelFile(name)].ModelBlob?
      ensures ok ==> model == disk[ModelFile(name)].model && currentModelName == name
      ensures !ok ==> model == old(model) && currentModelName == old(currentModelName)
      ensures labelEncoder == old(labelEncoder) && disk == old(disk)
    {
      var file := ModelFile(name);
      if file !in disk {
        return false;
      }
      match disk[file]
      case ModelBlob(m) =>
        model := m;
        currentModelName := name;
        ok := true;
      case _ =>
        ok := false;
    }

    /** Loads the backup pair, or otherwise bootstraps and saves the default model;
        never fails. */
    method LoadBackupModel(io: WriteOutcome) returns (ok: bool)
      modifies this
      ensures ok <==> BackupLoadable(old(disk))
      ensures ok ==> (model == old(disk)[ModelFile(BackupName)].model
                      && labelEncoder == Some(old(disk)[EncoderFile].encoder)
                      && currentModelName == BackupName && disk == old(disk))
      ensures !ok ==> (model == Some(DefaultForest) && labelEncoder == Some(Fitted(EmotionClasses))
                       && currentModelName == DefaultName
                       && disk == AfterWrite(old(disk), ModelFile(DefaultName), ModelBlob(Some(DefaultForest)), io))
    {
      var modelPath := ModelFile(BackupName);
      if modelPath in disk && EncoderFile in disk {
        var mb := disk[modelPath];
        var eb := disk[EncoderFile];
        if mb.ModelBlob? && eb.EncoderBlob? {
          model := mb.model;
          labelEncoder := Some(eb.encoder);
          currentModelName := BackupName;
          return true;
        }
      }
      InitializeDefaultModel();
      var _ := SaveModel(Some(DefaultName), io);
      currentModelName := DefaultName;
      ok := false;
    }

    /** `get_current_model_info`. */
    function CurrentModelInfo(): (info: ModelInfo)
      reads this
      ensures info.NoModelLoaded? <==> model.None?
      ensures info.Info? ==> (info.name == currentModelName && info.kind == model.value.kind
                              && info.parameters == model.value.params)
      ensures info.Info? ==>
                info.classes == if labelEncoder.Some? && labelEncoder.value.Fitted? then labelEncoder.value.classes else []
      ensures info.Info? ==>
                info.nEstimators == if "n_estimators" in model.value.params then Some(model.value.params["n_estimators"]) else None
    {
      match model
      case None => NoModelLoaded
      case Some(c) =>
        Info(currentModelName, c.kind,
             if "n_estimators" in c.params then Some(c.params["n_estimators"]) else None,
             Classes(labelEncoder), c.params)
    }

    /** Switches to `name`: already current is success with no change, otherwise the
        named file is loaded. */
    method SetModel(name: string) returns (ok: bool)
      modifies this
      ensures name == old(currentModelName) ==>
                ok && model == old(model) && currentModelName == old(currentModelName)
      ensures name != old(currentModelName) ==>
                (ok <==> ModelFile(name) in disk && disk[ModelFile(name)].ModelBlob?)
                && (ok ==> model == disk[ModelFile(name)].model && currentModelName == name)
                && (!ok ==> model == old(model) && currentModelName == old(currentModelName))
      ensures labelEncoder == old(labelEncoder) && disk == old(disk)
    {
      if name == currentModelName {
        return true;
      }
      ok := LoadModel(name);
    }

    /** `predict_with_probabilities`: the checks in the source's order, then the label of
        the first prediction and the probability of every class. */
    method PredictWithProbabilities(extracted: Extraction,
                                    predict: (Classifier, seq<real>) -> Option<seq<int>>,
                                    predictProba: (Classifier, seq<real>) -> Option<seq<seq<real>>>)
      returns (r: Response)
      ensures r == Error(NotInitialized) <==> model.None? || labelEncoder.None?
      ensures r == Error(Caught(ExtractorError)) <==>
                model.Some? && labelEncoder.Some? && extracted.ExtractionRaised?
      ensures r == Error(NoFeatures) <==>
                model.Some? && labelEncoder.Some? && extracted.Extracted? && |extracted.features| == 0
      ensures r == Error(EmptyPrediction) <==>
                model.Some? && labelEncoder.Some? && extracted.Extracted? && |extracted.features| > 0
                && predict(model.value, extracted.features) == Some([])
      ensures r.Ok? <==>
                model.Some? && labelEncoder.Some? && labelEncoder.value.Fitted?
                && extracted.Extracted? && |extracted.features| > 0
                && var p := predict(model.value, extracted.features);
                   var q := predictProba(model.value, extracted.features);
                   p.Some? && |p.value| > 0
                   && (forall i :: 0 <= i < |p.value| ==> 0 <= p.value[i] < |labelEncoder.value.classes|)
                   && q.Some? && |q.value| > 0 && |labelEncoder.value.classes| <= |q.value[0]|
      ensures r.Ok? ==>
                var classes := labelEncoder.value.classes;
                var row := predictProba(model.value, extracted.features).value[0];
                r.emotion == classes[predict(model.value, extracted.features).value[0]]
                && r.detail == ProbabilityTable(classes, row, |classes|)
                && (forall k :: k in Keys(r.detail) <==> k in classes)
                && Distinct(Keys(r.detail))
                && (Distinct(classes) ==>
                      |r.detail| == |classes| && forall i :: 0 <= i < |classes| ==> r.detail[i] == (classes[i], row[i]))
    {
      if model.None? || labelEncoder.None? {
        return Error(NotInitialized);
      }
      if extracted.ExtractionRaised? {
        return Error(Caught(ExtractorError));
      }
      var features := extracted.features;
      if |features| == 0 {
        return Error(NoFeatures);
      }
      var prediction := predict(model.value, features);
      if prediction.None? {
        return Error(Caught(PredictorError));
      }
      if |prediction.value| == 0 {
        return Error(EmptyPrediction);
      }
      if labelEncoder.value.Unfitted? {
        return Error(Caught(EncoderNotFitted));
      }
      var classes := labelEncoder.value.classes;
      if exists i :: 0 <= i < |prediction.value| && !(0 <= prediction.value[i] < |classes|) {
        return Error(Caught(UnseenLabel));
      }
      var emotion := classes[prediction.value[0]];
      var proba := predictProba(model.value, features);
      if proba.None? {
        return Error(Caught(PredictorError));
      }
      if |proba.value| == 0 {
        return Error(Caught(IndexError));
      }
      var row := proba.value[0];
      var detail: Detail<string> := [];
      var i := 0;
      while i < |classes|
        invariant 0 <= i <= |classes| && i <= |row|
        invariant detail == ProbabilityTable(classes, row, i)
      {
        if i >= |row| {
          return Error(Caught(IndexError));
        }
        detail := Put(detail, classes[i], row[i]);
        i := i + 1;
      }
      assert classes[..i] == classes;
      TableKeys(classes, row, i);
      TableKeysDistinct(classes, row, i);
      if Distinct(classes) {
        TableAligned(classes, row, i);
      }
      r := Ok(emotion, detail);
    }

    /** `partial_fit`: rejected requests return `false` before the classifier is touched;
        otherwise `set_params` and `fit` run in place and the result is saved under the
        current name. The save's own result is not consulted. */
    method PartialFit(extracted: Extraction, trueLabel: EmotionLabel, params: Option<Params>,
                      setParams: (Classifier, Params) -> Step,
                      fit: (Classifier, seq<real>, nat) -> Step,
                      io: WriteOutcome) returns (ok: bool)
      modifies this
      ensures labelEncoder == old(labelEncoder) && currentModelName == old(currentModelName)
      ensures RejectsRetraining(old(model), old(labelEncoder), extracted, trueLabel) ==>
                !ok && model == old(model) && disk == old(disk)
      ensures !RejectsRetraining(old(model), old(labelEncoder), extracted, trueLabel) ==>
                var step := Refit(old(model).value, params.GetOr(map[]), extracted.features,
                                  IndexOf(Classes(labelEncoder), trueLabel.Value()), setParams, fit);
                ok == step.Done? && model == Some(step.classifier)
                && disk == if ok then AfterWrite(old(disk), ModelFile(currentModelName), ModelBlob(model), io)
                           else old(disk)
    {
      var p := params.GetOr(map[]);
      if model.None? || labelEncoder.None? {
        return false;
      }
      if extracted.ExtractionRaised? {
        return false;
      }
      var features := extracted.features;
      if |features| == 0 {
        return false;
      }
      var currentClasses := Classes(labelEncoder);
      if trueLabel.Value() !in currentClasses {
        return false;
      }
      var y := IndexOf(currentClasses, trueLabel.Value());
      var s := setParams(model.value, p);
      if s.Raised? {
        model := Some(s.classifier);
        return false;
      }
      var f := fit(s.classifier, features, y);
      model := Some(f.classifier);
      if f.Raised? {
        return false;
      }
      var _ := SaveModel(None, io);
      ok := true;
    }
  }

  // ---------------------------------------------------------------------------
  // Clients: what a caller can conclude from the contracts above.
  // ---------------------------------------------------------------------------

  /** A second switch to the same name is a no-op that succeeds. */
  method SetModelTwice(m: EmotionModels, name: string) returns (first: bool, second: bool)
    modifies m
    ensures first ==> second
    ensures first ==> m.currentModelName == name
  {
    first := m.SetModel(name);
    ghost var model, name1, disk := m.model, m.currentModelName, m.disk;
    second := m.SetModel(name);
    assert first ==> m.model == model && m.currentModelName == name1 && m.disk == disk;
  }

  /** Saving under a name and switching to it brings the saved classifier back. */
  method SaveThenSwitch(m: EmotionModels, name: string) returns (saved: bool, switched: bool)
    modifies m
    ensures saved ==> switched && m.model == old(m.model) && m.currentModelName == name
  {
    saved := m.SaveModel(Some(name), Written);
    switched := m.SetModel(name);
  }

  /** A caller reading `"Model not initialized."` in the response knows the classifier or
      the encoder was missing. */
  method ReadErrorText(m: EmotionModels, extracted: Extraction,
                       predict: (Classifier, seq<real>) -> Option<seq<int>>,
                       predictProba: (Classifier, seq<real>) -> Option<seq<seq<real>>>)
    returns (r: Response)
    ensures r.Error? && !r.failure.Caught? && r.failure.Text() == NotInitialized.Text() ==>
              m.model.None? || m.labelEncoder.None?
  {
    r := m.PredictWithProbabilities(extracted, predict, predictProba);
    if r.Error? && !r.failure.Caught? {
      TextNamesFailure(r.failure, NotInitialized);
    }
  }

  /** Without a fitted encoder there are no classes, so retraining rejects every label. */
  lemma NoClassesRejectsEveryLabel(model: Option<Classifier>, encoder: Option<Encoder>,
                                   extracted: Extraction, trueLabel: EmotionLabel)
    requires encoder.Some? ==> encoder.value.Unfitted?
    ensures RejectsRetraining(model, encoder, extracted, trueLabel)
  {
  }

  /** After the bootstrap path every emotion is a supported label and the info
      reports the default forest. */
  lemma BootstrappedModel(m: EmotionModels, trueLabel: EmotionLabel, extracted: Extraction)
    requires m.model == Some(DefaultForest) && m.labelEncoder == Some(Fitted(EmotionClasses))
    requires extracted.Extracted? && |extracted.features| > 0
    ensures !RejectsRetraining(m.model, m.labelEncoder, extracted, trueLabel)
    ensures m.CurrentModelInfo() == Info(m.currentModelName, "RandomForestClassifier", Some(IntValue(100)),
                                         EmotionClasses, DefaultForest.params)
  {
    DefaultClasses();
  }
}
