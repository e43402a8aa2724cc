# Emotion model lifecycle

A Dafny model of `EmotionModels`, the object in the speech-emotion-recognition backend that owns the
active voice-emotion classifier. It holds three pieces of state: a random-forest classifier, a label
encoder and the name of the current model. It keeps classifier snapshots in a model directory as
`<name>_model.pkl`, next to one shared `label_encoder.pkl`. Its operations are:

- bootstrapping a default model;
- loading the pre-trained `random_forest` backup, falling back to the default;
- loading, saving, listing and switching named models;
- reporting model info;
- two guarded pipelines: prediction with per-class probabilities, and one-sample retraining.

Modules:

- `EmotionLabels` (labels.dfy): the four-valued `EmotionLabel` enum.
- `Estimators` (estimators.dfy): the scikit-learn values, kept opaque. A classifier is its type name
  and its parameters. A label encoder is its ordered `classes_`. `LabelEncoder.fit` is
  modelled as `np.unique`: sorted by code point, no duplicates.
- `ModelStore` (store.dfy): the directory as a map from file name to what the file unpickles to, what a
  write leaves behind, and the `glob` + `str.replace` listing.
- `Predictions` (predictions.dfy): the extractor's outcome, the error reasons, and the probability
  dictionary as an ordered list of items with Python dict-assignment semantics.
- `Lifecycle` (lifecycle.dfy): the class `EmotionModels`. Its fields are `model`, `labelEncoder`,
  `currentModelName` and `disk` (the model directory).

Some inputs come in as parameters because the model cannot see or decide them:

- sklearn's `predict`, `predict_proba`, `set_params` and `fit`;
- the feature extractor;
- whether each file write succeeds;
- the order in which `glob` lists the directory.

Behaviour of the code worth noting:

- Saving writes only the classifier, never the encoder.
- `partial_fit` returns `True` after a successful fit even if the save that follows fails.
- `set_model` with the current name returns `True` without checking that a model is loaded or that its
  file exists.
- When `set_params` or `fit` raises, the in-memory classifier keeps whatever the failed step left.
  sklearn updates it in place, and nothing restores it.
- The feature row is whatever the extractor returns (13 MFCC means in this code).

## Model

| member | source | states |
|---|---|---|
| EmotionLabels.LabelValues | backend/schemas.py:6-10 | the enum's values are four strings, every member's value among them and nothing else |
| Estimators.Less | backend/model.py:31 | numpy's string order: a proper prefix sorts first, and no string sorts before itself |
| Estimators.LessIrreflexive | backend/model.py:31 | no string sorts strictly before itself |
| Estimators.LessTransitive | backend/model.py:31 | the string order is transitive |
| Estimators.LessTotal | backend/model.py:31 | of two different strings one sorts before the other |
| Estimators.Unique | backend/model.py:31 | the encoder's classes are ascending by code point with no duplicates, and hold exactly the values it was fitted on |
| Estimators.Fit | backend/model.py:30-31 | a fitted encoder whose classes are strictly sorted, distinct, and equal as a set to the fitting values |
| Estimators.DefaultClasses | backend/model.py:27-31 | the bootstrapped encoder's classes are exactly `angry, neutral, positive, sad` in that order, and every emotion is among them |
| Estimators.IndexOf | backend/model.py:203 | `transform` of a known label gives its first position in `classes_` |
| ModelStore.ModelFile | backend/model.py:80 | the file name is the model name followed by `_model.pkl` |
| ModelStore.ModelFileIsNotEncoderFile | backend/model.py:76-89 | no classifier file name equals `label_encoder.pkl`, so saving a classifier never writes the encoder |
| ModelStore.IsModelFile | backend/model.py:93 | a file matches `*_model.pkl` exactly when it is the model file of a name that does not start with a dot (glob skips hidden files) |
| ModelStore.AfterWrite | backend/model.py:82-89 | a write changes only its target file: stored on success, untouched when `open` fails, truncated (unreadable) when the dump fails |
| ModelStore.RemoveAll | backend/model.py:95 | `str.replace(p, "")` never lengthens a string and leaves one without `p` as it is |
| ModelStore.AvailableModels | backend/model.py:91-100 | a raising listing yields `[]`; otherwise every matching file, and only those, contributes its name with `_model.pkl` removed, and the list is no longer than the listing |
| ModelStore.RemoveSuffixOfModelFile | backend/model.py:95 | removing `_model.pkl` from `<n>_model.pkl` gives `n` back when `n` has no `_model.pkl` of its own |
| ModelStore.SavedNameIsListed | backend/model.py:76-97 | a name saved to the directory is listed afterwards, if it has no `_model.pkl` inside and does not start with a dot |
| ModelStore.EncoderFileIsNotListed | backend/model.py:93-96 | `label_encoder.pkl` never contributes a name, wherever the listing places it |
| ModelStore.ListedNameWithoutFile | backend/model.py:94-96 | as written, `x_model.pkl_model.pkl` is listed as `x`, although `x_model.pkl` does not exist |
| ModelStore.StripModelSuffix | backend/model.py:95 | removing only the trailing suffix inverts the file-name function |
| ModelStore.AvailableModelsIntended | backend/model.py:91-100 | with suffix removal, a name is listed exactly when its own `<name>_model.pkl` is a matching file |
| ModelStore.IntendedListingRoundTrip | backend/model.py:76-100 | with suffix removal, any saved name not starting with a dot is listed, and every listed name has a file to switch to |
| Predictions.KeyIndex | backend/model.py:156 | the position of a key in a dict is its first occurrence, or the dict's length when the key is absent |
| Predictions.Put | backend/model.py:156 | `d[k] = v` adds at most one item and never removes one |
| Predictions.PutThenLookup | backend/model.py:156 | after `d[k] = v`, the key is present and its item holds `v` |
| Predictions.PutItems | backend/model.py:156 | `d[k] = v` on a dict with distinct keys: a present key keeps its place and only its value changes, an absent key is appended with its value |
| Predictions.PutKeys | backend/model.py:156 | `d[k] = v` leaves the key order unchanged for a present key and appends an absent one |
| Predictions.ProbabilityTable | backend/model.py:154-156 | the dictionary after `n` rounds of the loop has at most `n` items |
| Predictions.TableKeys | backend/model.py:154-156 | after the loop, a key is in the probability dictionary exactly when it is one of the encoder's classes |
| Predictions.TableKeysDistinct | backend/model.py:154-156 | the probability dictionary never holds a key twice, whatever the classes |
| Predictions.TableAligned | backend/model.py:154-156 | with distinct classes, item `i` of the dictionary is class `i` paired with probability `i` |
| Predictions.TextNamesFailure | backend/model.py:137-150 | the three `"error"` texts (`Model not initialized.`, `Failed to extract features`, `Empty prediction`) are distinct; with the if-and-only-if clauses of `PredictWithProbabilities` the text identifies the failed check |
| Lifecycle.EmotionModels.constructor | backend/model.py:22-25 | no classifier, no encoder, name `default` |
| Lifecycle.EmotionModels.InitializeDefaultModel | backend/model.py:27-32 | the default forest and the encoder of the four sorted emotion values become active; name and directory unchanged |
| Lifecycle.EmotionModels.SaveModel | backend/model.py:76-89 | writes the classifier to the given name's file, or the current name's when none is given; the encoder file and the in-memory state are unchanged; `true` exactly when the write succeeded |
| Lifecycle.EmotionModels.LoadModel | backend/model.py:62-74 | succeeds exactly when the named file holds a classifier, which then becomes active under that name; otherwise nothing changes; the encoder is never reloaded |
| Lifecycle.EmotionModels.LoadBackupModel | backend/model.py:34-60 | returns `true` exactly when both backup files load, and then activates them as `random_forest`; otherwise activates the default model, saves it as `default`, names it `default` and returns `false` |
| Lifecycle.EmotionModels.CurrentModelInfo | backend/model.py:102-117 | "no model loaded" exactly when there is no classifier; otherwise the current name, type and parameters, the `n_estimators` parameter's value or `None` when it is absent, and the encoder's `classes_`, or `[]` when the encoder is missing or unfitted |
| Lifecycle.EmotionModels.SetModel | backend/model.py:122-128 | the current name gives success with no change; any other name behaves as `LoadModel` |
| Lifecycle.EmotionModels.PredictWithProbabilities | backend/model.py:130-167 | a missing model or encoder, an extractor error, empty features and an empty prediction are checked in that order, and each of these four errors is returned exactly when its check is the first to fail; success exactly when the prediction and probability row are usable; the label is the class of the first prediction; the detail's keys are the classes, each once, and with distinct classes item `i` is class `i` with probability `i` |
| Lifecycle.EmotionModels.PartialFit | backend/model.py:169-215 | a missing model or encoder, an extraction error, empty features or a label outside the encoder's `classes_` (taken as `[]` for a missing or unfitted encoder) gives `false` with nothing changed; otherwise `set_params` runs, `fit` runs only if it succeeded and on the classifier it left, and the result (partial when a step raised) becomes active, is saved under the current name when both succeed, and only then is `true` returned |
| Lifecycle.SetModelTwice | backend/model.py:122-128 | switching to a name a second time succeeds whenever the first switch did |
| Lifecycle.SaveThenSwitch | backend/model.py:62-89 | a successful save under a name followed by a switch to it succeeds and brings back the same classifier |
| Lifecycle.ReadErrorText | backend/model.py:137-139 | a prediction response whose error text is `Model not initialized.` comes only from a missing classifier or encoder |
| Lifecycle.NoClassesRejectsEveryLabel | backend/model.py:192-200 | with no fitted encoder the class list is empty, so retraining rejects every emotion label |
| Lifecycle.BootstrappedModel | backend/model.py:27-31 | after the bootstrap no emotion label is rejected by retraining, and the info reports a `RandomForestClassifier` with 100 estimators and the four sorted classes |

## Findings

| source | as written | input that shows it | evidently intended | confidence | as-written member | corrected member |
|---|---|---|---|---|---|---|
| backend/model.py:95 | `replace("_model.pkl", "")` removes every occurrence of the suffix | a file `x_model.pkl_model.pkl` is listed as `x`, and `set_model("x")` then looks for the missing `x_model.pkl` | remove only the trailing `_model.pkl`, so that every listed name can be switched to | low; not executed | ModelStore.ListedNameWithoutFile | ModelStore.AvailableModelsIntended |

## Left out

- Pickling, `os.path.exists`, `open`, `glob` and the file writes are not modelled as I/O. The model directory is a map. Each write's outcome (`Written`, `OpenFailed`, `DumpFailed`) and the listing's order are inputs.
- A file that unpickles to the wrong kind of object is treated as unreadable. Python would accept it as the model or encoder and fail later.
- A model name containing a path separator is treated as a plain file name in the model directory.
- `LoadModel` and `SetModel` return `false` where the source returns `None` (missing file) or `False` (load error). No shown code calls `set_model`; `None` and `False` are both falsy.
- sklearn's `predict`, `predict_proba`, `set_params` and `fit` are functions passed in. Only their results matter; their numerics are not modelled. Probabilities are `real`s, so nothing is proved about their sum.
- A classifier carries no fitted state, so `predict` and `predict_proba` are not tied to whether `fit` ran: sklearn's `NotFittedError` on a freshly bootstrapped forest is one of the raises those inputs may or may not produce. Every contract holds for all such inputs.
- `DefaultForest` lists only the two parameters the constructor passes (`n_estimators`, `random_state`). sklearn's other defaults are not modelled.
- The text of caught exceptions (`str(e)`) is not modelled. A caught exception is reported by its kind.
- Lifecycle.EmotionModels.CurrentModelInfo: the `except` branch at backend/model.py:118-120 is not modelled, because every step of the info is total in the model.
- Logging (loguru) is left out; it has no effect on state or results.
- Everything outside this object is not part of this model:
  - feature extraction (librosa), recording and transcription;
  - the neural-network and module-level loaders in backend/models.py;
  - the text-sentiment model;
  - upload handling, FastAPI routing and the Streamlit frontend.
- Retraining under a timeout in a separate process, and locking around retraining, are not in the code modelled.
