# Fieldwork PC-Reg Femur 2 Landmarks step, modelled in Dafny

The step is a workflow plugin that fits a femur shape model to four named
anatomical landmarks: the femoral head centre (FHC), the medial and lateral
epicondyles (MEC, LEC) and the greater trochanter (FGT). The model covers
the step's own logic:

- **Configuration state**: a string-keyed dictionary with the step
  identifier, the GUI run-mode flag and one selector per femur landmark.
  The model covers its defaults, identifier access, serialisation, and
  deserialisation as an update-merge with the legacy GUI-flag normalisation.
- **Port routing**: three input slots and three output slots, chosen by port index.
- **Landmark pre-processing**:
  - the epicondyle correction, which moves the MEC and LEC points 10 units
    towards each other;
  - the order-preserving filter that builds the solver's correspondence list
    from the landmarks whose selector is not `'none'`.
- **The registration run**: correction, then the correspondence list, then the
  external solver with fixed weights, then publishing the fitted model, the
  RMSE and the transform.

Modules:

- `Wrappers`: `Option` and `Result`.
- `Geometry`: exact 3-vectors and two displacement lemmas.
- `Config`: the configuration values, defaults and loading.
- `Landmarks`: selector resolution, the active-landmark filter, the
  correspondence list and the epicondyle correction.
- `Step`: the class `FieldworkPCRegFemur2LandmarksStep`. Its fields are
  updated in place by its methods.

Collaborators whose code is not part of this model are parameters:

- `unit` is the vector normalisation `math.norm`.
- `solve` is the alignment solver `alignFemurLandmarksPC`.
- `validate` is the configure dialog's validity check.

The RMSE is held as its radicand `sse[2] / n`. A configuration document is the
dictionary that JSON encoding writes and parsing reads back.

Two behaviours of the code are modelled as written:

- The epicondyle correction runs on every registration run, whether or not
  MEC and LEC are active. A `'none'` selector is looked up like any other, so
  unless the landmark set has a `'none'` entry the run stops with a KeyError
  on that selector (`Landmarks.CorrectEpicondyles`).
- The correction changes the landmark set before the correspondence list is
  built. So when building the list fails, the landmarks stay corrected
  (`Step.FieldworkPCRegFemur2LandmarksStep.Reg`).

Every call of `reg` applies the correction again to the landmarks the step
holds, so two runs on the same landmark set move the epicondyles twice.

## Model

| member | source | states |
|---|---|---|
| Config.SelectorsOff | mapclientplugins/fieldworkpcregfemur2landmarksstep/step.py:61-62 | The selector entries map exactly the given landmark names, each to `'none'` |
| Config.DefaultsExtend | mapclientplugins/fieldworkpcregfemur2landmarksstep/step.py:58-62 | One more pass of the constructor's loop adds exactly one more `'none'` selector to the defaults built so far |
| Config.DefaultsAreUnconfigured | mapclientplugins/fieldworkpcregfemur2landmarksstep/step.py:58-62 | The default configuration has exactly the keys identifier, GUI, FHC, MEC, LEC and FGT. The identifier is `''`, GUI is true and every landmark selector is `'none'`. The defaults are well-formed |
| Config.LoadMerges | mapclientplugins/fieldworkpcregfemur2landmarksstep/step.py:198 | Loading is an update-merge. The keys are the union of old and parsed keys. Every parsed key other than GUI takes the parsed value. Every key absent from the document keeps its old value |
| Config.LoadNormalizesGui | mapclientplugins/fieldworkpcregfemur2landmarksstep/step.py:200-204 | After loading, a merged GUI value `'True'` is boolean true and `'False'` is boolean false. Any other GUI value, booleans included, is unchanged |
| Config.LoadKeepsWellFormed | mapclientplugins/fieldworkpcregfemur2landmarksstep/step.py:198-204 | Loading any document into a well-formed configuration keeps every required key and leaves no legacy string GUI flag |
| Config.ReloadRestores | mapclientplugins/fieldworkpcregfemur2landmarksstep/step.py:186-204 | Loading a step's own serialised configuration back into it gives the same configuration |
| Config.LoadIntoNewStep | mapclientplugins/fieldworkpcregfemur2landmarksstep/step.py:193-204 | Loading a well-formed saved configuration into a new step (the defaults) gives exactly that configuration |
| Landmarks.ActiveNames | mapclientplugins/fieldworkpcregfemur2landmarksstep/step.py:113 | The filtered names are no more than the input names, and each is an input name whose selector is not `'none'` |
| Landmarks.ActiveNamesMembers | mapclientplugins/fieldworkpcregfemur2landmarksstep/step.py:113 | The filter drops no name whose selector is not `'none'` |
| Landmarks.FourNamesFilter | mapclientplugins/fieldworkpcregfemur2landmarksstep/step.py:113 | Filtering four names keeps each active one in its original position order |
| Landmarks.ActiveFemurLandmarksInOrder | mapclientplugins/fieldworkpcregfemur2landmarksstep/step.py:113 | The active femur landmarks are the active ones among FHC, MEC, LEC and FGT, in that order, and there are at most four |
| Landmarks.SomeActiveFemurLandmark | mapclientplugins/fieldworkpcregfemur2landmarksstep/step.py:113 | The filtered femur list is non-empty if and only if some femur landmark's selector is not `'none'` |
| Landmarks.CorrespondencesSucceed | mapclientplugins/fieldworkpcregfemur2landmarksstep/step.py:113 | The correspondence list is built if and only if every active selector names an entry of the landmark set |
| Landmarks.CorrespondencesFollowFilter | mapclientplugins/fieldworkpcregfemur2landmarksstep/step.py:113 | A built list has exactly the active names, in order, and pairs each with the landmark position its selector names |
| Landmarks.CorrespondencesLookupError | mapclientplugins/fieldworkpcregfemur2landmarksstep/step.py:113 | A failed list reports the lookup error (KeyError, or TypeError for a list or object selector) of the first active selector, in list order, that names no landmark; every active selector before it resolves |
| Landmarks.FemurCorrespondenceCount | mapclientplugins/fieldworkpcregfemur2landmarksstep/step.py:113-124 | When some landmark is active, a built femur list has between one and four entries, so the RMSE divisor is non-zero |
| Landmarks.CorrectEpicondyles | mapclientplugins/fieldworkpcregfemur2landmarksstep/step.py:97-102 | The correction succeeds if and only if both the MEC and LEC selectors name landmarks. Otherwise it reports the lookup error of MEC if MEC is missing, else of LEC: KeyError, or TypeError when the selector is a list or an object |
| Landmarks.NothingActiveStopsCorrection | mapclientplugins/fieldworkpcregfemur2landmarksstep/step.py:99 | With no landmark active and no `'none'` entry in the landmark set, the correction stops with KeyError('none'), before the solver call and the RMSE division |
| Landmarks.NothingActivePassesOnlyCoincident | mapclientplugins/fieldworkpcregfemur2landmarksstep/step.py:99-100 | With no landmark active, the correction succeeds only if MEC and LEC (both `'none'`) pick one and the same position, where the direction is undefined |
| Landmarks.CorrectedAsUpdates | mapclientplugins/fieldworkpcregfemur2landmarksstep/step.py:101-102 | For distinct MEC and LEC keys, the two in-place steps equal two independent updates of the original set |
| Landmarks.CorrectionFrame | mapclientplugins/fieldworkpcregfemur2landmarksstep/step.py:97-102 | The correction keeps the key set and moves MEC by -10·u and LEC by +10·u, where u is unit(MEC - LEC). Every other landmark is unchanged |
| Landmarks.CorrectionKeepsMidpoint | mapclientplugins/fieldworkpcregfemur2landmarksstep/step.py:101-102 | The correction keeps the sum, and so the midpoint, of the MEC and LEC points |
| Landmarks.CorrectionNarrowsGap | mapclientplugins/fieldworkpcregfemur2landmarksstep/step.py:99-102 | When MEC - LEC is len·u for the unit direction u, the corrected MEC - LEC is (len - 20)·u |
| Geometry.OppositeMovesKeepSum | mapclientplugins/fieldworkpcregfemur2landmarksstep/step.py:101-102 | Moving one point by -d and another by +d keeps their sum |
| Geometry.OppositeMovesAlongDirection | mapclientplugins/fieldworkpcregfemur2landmarksstep/step.py:99-102 | Moving two points apart by len·u against each other by k·u leaves them (len - 2k)·u apart |
| Step.FieldworkPCRegFemur2LandmarksStep.constructor | mapclientplugins/fieldworkpcregfemur2landmarksstep/step.py:58-69 | A new step is unconfigured and holds the default configuration. Every port slot is empty |
| Step.FieldworkPCRegFemur2LandmarksStep.GetIdentifier | mapclientplugins/fieldworkpcregfemur2landmarksstep/step.py:174-178 | Returns the identifier entry of the configuration and changes nothing |
| Step.FieldworkPCRegFemur2LandmarksStep.SetIdentifier | mapclientplugins/fieldworkpcregfemur2landmarksstep/step.py:180-184 | Only the identifier entry changes, to the given string, so a following GetIdentifier returns it. The configuration stays well-formed |
| Step.FieldworkPCRegFemur2LandmarksStep.Serialize | mapclientplugins/fieldworkpcregfemur2landmarksstep/step.py:186-191 | The document written is the whole configuration |
| Step.FieldworkPCRegFemur2LandmarksStep.Deserialize | mapclientplugins/fieldworkpcregfemur2landmarksstep/step.py:193-209 | The new configuration is the update-merge with the GUI flag normalised, and it stays well-formed. The configured flag is the validity check of the new configuration |
| Step.FieldworkPCRegFemur2LandmarksStep.SetPortData | mapclientplugins/fieldworkpcregfemur2landmarksstep/step.py:134-139 | Index 0 stores the given value (None included) as the landmarks, 1 as the principal components, and any other index as the input model. The other two input slots are unchanged |
| Step.FieldworkPCRegFemur2LandmarksStep.GetPortData | mapclientplugins/fieldworkpcregfemur2landmarksstep/step.py:147-152 | Index 3 gives the fitted model, 4 the transform, and any other index the RMSE |
| Step.FieldworkPCRegFemur2LandmarksStep.CorrectLandmarks | mapclientplugins/fieldworkpcregfemur2landmarksstep/step.py:97-102 | On success the landmark slot holds the corrected set. On a missing landmark set or a failed lookup (KeyError, or TypeError for a list or object selector), the error is reported and the landmarks are unchanged |
| Step.FieldworkPCRegFemur2LandmarksStep.Reg | mapclientplugins/fieldworkpcregfemur2landmarksstep/step.py:104-126 | A correction failure changes nothing. A correspondence failure leaves the landmarks corrected and the outputs unchanged. Otherwise the solver gets the 1 to 4 active correspondences with weights 100 and 100. If the solver raises, the error is passed on, the landmarks stay corrected and the outputs are unchanged. Otherwise the outputs become the fitted model, the RMSE radicand sse[2] / n and the rigid PC-modes transform, and the same triple is returned |

## Left out

- `execute`, `configure` and `_abort` are not modelled: the GUI widget, the configure dialog, the icon and the abort button are user-interface plumbing.
- The configure dialog's `validate` and `identifierOccursCount` are not part of this model. `validate` is the parameter of `Deserialize`.
- The alignment solver, the seeding of the input model from the principal-component mean (`set_field_parameters`) and the transform class are external library code. The solver is the parameter `solve`, which returns None for an exception (reported as `SolverError`, without its message), and the transform is kept as its raw parameters.
- `math.norm` is the parameter `unit`, and no property of it is assumed except in `CorrectionNarrowsGap`, which takes it as a hypothesis.
- Floating-point arithmetic is modelled as exact reals.
- `Step.FieldworkPCRegFemur2LandmarksStep.Reg`: the RMSE is stated as its radicand `sse[2] / n`, not its square root, because the square root is floating point.
- `Step.FieldworkPCRegFemur2LandmarksStep.Reg` does not describe the run with no active landmark whose landmark set has a `'none'` entry. There MEC and LEC both pick that entry, so the code calls the solver with an empty list and divides by zero. `EpicondylesApart` excludes this run (`Landmarks.NothingActivePassesOnlyCoincident`); without the `'none'` entry the correction fails with KeyError('none') (`Landmarks.NothingActiveStopsCorrection`), which the model describes.
- `Step.FieldworkPCRegFemur2LandmarksStep.Reg` and `CorrectLandmarks` require that the MEC and LEC selectors do not name the same position. There, the normalised direction is undefined, and when the two selectors name the same key the second update reads the first.
- The progress callback of `reg` and the solver's callback argument carry no state of the step.
- JSON text is abstracted away: the JSON library's parse errors, non-object documents and `sort_keys`/`indent` formatting are not modelled. A document is the parsed dictionary of JSON values: strings, booleans, integers, floats (as exact reals), null, lists and objects.
- Port URI registration with the host framework (`addPort`) is not modelled.
- The landmark dictionary is held by value. The code mutates a dictionary shared with the upstream step, so that step also sees the corrected points, and the model does not capture this aliasing.
- `Step.FieldworkPCRegFemur2LandmarksStep.SetIdentifier` takes a string, while Python accepts any value.
- Port data is an opaque `Datum`, or None when a port is empty or set to Python's None. The model checks only that port 0 holds a landmark set, and it does not check the type of any other port.
