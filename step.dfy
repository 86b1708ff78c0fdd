/**
 * The workflow step: a configuration dictionary, three input port slots
 * (landmarks, principal components, input model) and three output slots
 * (fitted model, transform, RMSE), updated in place by the step's methods.
 */
module Step {
  import opened Wrappers
  import opened Geometry
  import opened Config
  import opened Landmarks

  /** Whatever travels through the step's ports; Python's None is Option.None. */
  datatype Datum =
    | LandmarkData(points: LandmarkSet)
    | PrincipalComponents(mean: seq<real>)
    | FieldworkModel(params: seq<real>)
    | RigidPCModesTransform(t: seq<real>)
    /** The RMSE, kept as the radicand sse / n of its square root. */
    | Rmse(meanSquare: real)

  /** The solver's per-stage sums of squared errors; index 2 is the landmark-fit term. */
  type SseTerms = s: seq<real> | |s| > 2 witness [0.0, 0.0, 0.0]

  /** What the external alignment solver returns: fitted model, error terms, raw transform parameters. */
  datatype Alignment = Alignment(model: Datum, sse: SseTerms, t: seq<real>)

  /**
   * The external solver: input model, principal components, correspondences,
   * mean weight, mode weight. None stands for an exception raised by the solver.
   */
  type Solver = (Option<Datum>, Option<Datum>, seq<(string, Vec3)>, real, real) -> Option<Alignment>

  /** Fixed regularisation weights passed to the solver. */
  const MeanWeight: real := 100.0
  const ModeWeight: real := 100.0

  /** What a registration run returns: fitted model, RMSE and the raw transform parameters. */
  datatype Registration = Registration(model: Datum, rmse: Datum, t: seq<real>)

  /** The landmark dictionary held on input port 0, if that port holds one. */
  function PointsOf(d: Option<Datum>): Result<LandmarkSet, Error> {
    if d.Some? && d.value.LandmarkData? then Success(d.value.points) else Failure(NoLandmarkSet)
  }

  /** The landmark set after the epicondyle correction, or why the correction failed. */
  function CorrectedLandmarks(c: Config, d: Option<Datum>, unit: Vec3 -> Vec3): Result<LandmarkSet, Error>
    requires HasRequiredKeys(c)
  {
    match PointsOf(d)
    case Failure(e) => Failure(e)
    case Success(points) => CorrectEpicondyles(c, points, unit)
  }

  class FieldworkPCRegFemur2LandmarksStep {
    var config: Config
    var configured: bool
    var landmarks: Option<Datum>
    var pc: Option<Datum>
    var inputModel: Option<Datum>
    var outputModel: Option<Datum>
    var rmse: Option<Datum>
    var transform: Option<Datum>

    ghost predicate Valid()
      reads this
    {
      WellFormed(config)
    }

    /** MEC and LEC do not pick one and the same position (their direction would be undefined). */
    ghost predicate EpicondylesApart()
      reads this
      requires Valid()
    {
      PointsOf(landmarks).Success? ==> !Coincident(config, PointsOf(landmarks).value)
    }

    /** A new step: unconfigured, default configuration, every port slot empty. */
    constructor ()
      ensures Valid() && config == Defaults() && !configured
      ensures landmarks == None && pc == None && inputModel == None
      ensures outputModel == None && rmse == None && transform == None
    {
      var c: Config := map[];
      c := c[IdentifierKey := Str("")];
      c := c[GuiKey := Bool(true)];
      assert c == BaseDefaults() + SelectorsOff(FemurLandmarks[..0]);
      for i := 0 to |FemurLandmarks|
        invariant c == BaseDefaults() + SelectorsOff(FemurLandmarks[..i])
      {
        DefaultsExtend(i);
        c := c[FemurLandmarks[i] := Disabled];
      }
      assert FemurLandmarks[..|FemurLandmarks|] == FemurLandmarks;
      config := c;
      configured := false;
      landmarks, pc, inputModel := None, None, None;
      outputModel, rmse, transform := None, None, None;
      DefaultsAreUnconfigured();
    }

    /** The step's identifier as stored in the configuration. */
    method GetIdentifier() returns (id: Value)
      requires Valid()
      ensures id == config[IdentifierKey]
    {
      id := config[IdentifierKey];
    }

    /** Sets the identifier; every other configuration entry is kept. */
    method SetIdentifier(identifier: string)
      requires Valid()
      modifies this`config
      ensures Valid()
      ensures config == old(config)[IdentifierKey := Str(identifier)]
    {
      config := config[IdentifierKey := Str(identifier)];
    }

    /** The configuration document written to disk: the whole configuration. */
    method Serialize() returns (doc: Config)
      ensures doc == config
    {
      doc := config;
    }

    /**
     * Loads a parsed configuration document: merge it over the current
     * configuration, normalise a legacy GUI flag, and record whether the
     * configure dialog's `validate` accepts the result.
     */
    method Deserialize(parsed: Config, validate: Config -> bool)
      requires Valid()
      modifies this`config, this`configured
      ensures Valid()
      ensures config == Load(old(config), parsed)
      ensures configured == validate(config)
    {
      config := config + parsed;
      if config[GuiKey] == Str("True") {
        config := config[GuiKey := Bool(true)];
      } else if config[GuiKey] == Str("False") {
        config := config[GuiKey := Bool(false)];
      }
      configured := validate(config);
      LoadKeepsWellFormed(old(config), parsed);
    }

    /**
     * Input port 0 takes the landmarks, 1 the principal components, any other
     * index the input model; None (Python's None) is stored like any value.
     */
    method SetPortData(index: int, dataIn: Option<Datum>)
      modifies this`landmarks, this`pc, this`inputModel
      ensures index == 0 ==> landmarks == dataIn && pc == old(pc) && inputModel == old(inputModel)
      ensures index == 1 ==> pc == dataIn && landmarks == old(landmarks) && inputModel == old(inputModel)
      ensures index != 0 && index != 1 ==>
        inputModel == dataIn && landmarks == old(landmarks) && pc == old(pc)
    {
      if index == 0 {
        landmarks := dataIn;
      } else if index == 1 {
        pc := dataIn;
      } else {
        inputModel := dataIn;
      }
    }

    /** Output port 3 gives the fitted model, 4 the transform, any other index the RMSE. */
    method GetPortData(index: int) returns (dataOut: Option<Datum>)
      ensures index == 3 ==> dataOut == outputModel
      ensures index == 4 ==> dataOut == transform
      ensures index != 3 && index != 4 ==> dataOut == rmse
    {
      if index == 3 {
        dataOut := outputModel;
      } else if index == 4 {
        dataOut := transform;
      } else {
        dataOut := rmse;
      }
    }

    /**
     * Pulls the epicondyle landmarks towards each other in place. On failure
     * (no landmark set, or a failed lookup) the landmarks are untouched.
     */
    method CorrectLandmarks(unit: Vec3 -> Vec3) returns (failure: Option<Error>)
      requires Valid() && EpicondylesApart()
      modifies this`landmarks
      ensures CorrectedLandmarks(config, old(landmarks), unit).Success? ==>
        failure == None && landmarks == Some(LandmarkData(CorrectedLandmarks(config, old(landmarks), unit).value))
      ensures CorrectedLandmarks(config, old(landmarks), unit).Failure? ==>
        failure == Some(CorrectedLandmarks(config, old(landmarks), unit).error) && landmarks == old(landmarks)
    {
      if !(landmarks.Some? && landmarks.value.LandmarkData?) {
        return Some(NoLandmarkSet);
      }
      var points := landmarks.value.points;
      var mec := Resolve(points, config["MEC"]);
      if mec.None? {
        return Some(LookupFailure(config["MEC"]));
      }
      var lec := Resolve(points, config["LEC"]);
      if lec.None? {
        return Some(LookupFailure(config["LEC"]));
      }
      var u := unit(Sub(mec.value, lec.value));
      var mecKey, lecKey := config["MEC"].s, config["LEC"].s;
      points := points[mecKey := Sub(points[mecKey], Scale(Shift, u))];
      points := points[lecKey := Add(points[lecKey], Scale(Shift, u))];
      landmarks := Some(LandmarkData(points));
      failure := None;
    }

    /**
     * One registration run: correct the landmarks, build the correspondence
     * list from the active landmarks, call the solver with the fixed weights,
     * and store its fitted model, the RMSE radicand sse[2] / n and the
     * transform. The corrected landmarks stay corrected even when building
     * the list fails or the solver raises; the outputs then keep their values.
     * A run with no active landmark needs MEC and LEC, both 'none', to pick
     * one and the same position to get past the correction, which
     * EpicondylesApart excludes: the RMSE divisor is never zero.
     */
    method Reg(unit: Vec3 -> Vec3, solve: Solver) returns (r: Result<Registration, Error>)
      requires Valid() && EpicondylesApart()
      modifies this`landmarks, this`outputModel, this`rmse, this`transform
      ensures Valid()
      ensures var fixed := CorrectedLandmarks(config, old(landmarks), unit);
        fixed.Failure? ==>
          && r == Failure(fixed.error)
          && landmarks == old(landmarks)
          && outputModel == old(outputModel) && rmse == old(rmse) && transform == old(transform)
      ensures var fixed := CorrectedLandmarks(config, old(landmarks), unit);
        fixed.Success? ==>
          && landmarks == Some(LandmarkData(fixed.value))
          && var corr := Correspondences(FemurLandmarks, config, fixed.value);
          && (corr.Failure? ==>
               && r == Failure(corr.error)
               && outputModel == old(outputModel) && rmse == old(rmse) && transform == old(transform))
          && (corr.Success? ==>
               && 0 < |corr.value| <= 4
               && var out := solve(inputModel, pc, corr.value, MeanWeight, ModeWeight);
               && (out.None? ==>
                    && r == Failure(SolverError)
                    && outputModel == old(outputModel) && rmse == old(rmse) && transform == old(transform))
               && (out.Some? ==>
                    && var a := out.value;
                    && outputModel == Some(a.model)
                    && rmse == Some(Rmse(a.sse[2] / |corr.value| as real))
                    && transform == Some(RigidPCModesTransform(a.t))
                    && r == Success(Registration(a.model, Rmse(a.sse[2] / |corr.value| as real), a.t))))
    {
      ghost var fixed := CorrectedLandmarks(config, landmarks, unit);
      if PointsOf(landmarks).Success? {
        NothingActivePassesOnlyCoincident(config, PointsOf(landmarks).value, unit);
      }
      var failure := CorrectLandmarks(unit);
      if failure.Some? {
        return Failure(failure.value);
      }
      assert fixed.Success? && landmarks == Some(LandmarkData(fixed.value));
      var corr := Correspondences(FemurLandmarks, config, landmarks.value.points);
      if corr.Failure? {
        return Failure(corr.error);
      }
      FemurCorrespondenceCount(config, landmarks.value.points);
      var out := solve(inputModel, pc, corr.value, MeanWeight, ModeWeight);
      if out.None? {
        return Failure(SolverError);
      }
      var a := out.value;
      outputModel := Some(a.model);
      rmse := Some(Rmse(a.sse[2] / |corr.value| as real));
      transform := Some(RigidPCModesTransform(a.t));
      r := Success(Registration(a.model, rmse.value, a.t));
    }
  }
}
