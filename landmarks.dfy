/**
 * Landmark pre-processing for the femur registration: which configured
 * landmarks take part in the fit, the ordered correspondence list handed to
 * the solver, and the correction that pulls the two epicondyle landmarks
 * (MEC, LEC) towards each other before the fit.
 */
module Landmarks {
  import opened Wrappers
  import opened Geometry
  import opened Config

  /** A landmark dictionary: landmark identifier to position. */
  type LandmarkSet = map<string, Vec3>

  /** Distance each epicondyle landmark is moved by the correction. */
  const Shift: real := 10.0

  /**
   * Why a run stopped: Python's KeyError on a selector that is no landmark
   * key, its TypeError on a selector that cannot be a key (a list or an
   * object), no landmark set on port 0, or an exception of the solver.
   */
  datatype Error = KeyError(key: Value) | Unhashable(key: Value) | NoLandmarkSet | SolverError

  /** The error indexing the landmark dictionary with a selector raises when the lookup fails. */
  function LookupFailure(selector: Value): Error {
    if selector.List? || selector.Object? then Unhashable(selector) else KeyError(selector)
  }

  /** Indexing the landmark dictionary with a selector; only a string key that is present resolves. */
  function Resolve(points: LandmarkSet, selector: Value): Option<Vec3> {
    if selector.Str? && selector.s in points then Some(points[selector.s]) else None
  }

  /** A landmark takes part in the fit unless its selector is 'none'. */
  predicate Active(c: Config, name: string)
    requires name in c
  {
    c[name] != Disabled
  }

  /** The names whose selector is not 'none', in their original order. */
  function ActiveNames(names: seq<string>, c: Config): (r: seq<string>)
    requires forall n <- names :: n in c
    ensures |r| <= |names|
    ensures forall n <- r :: n in names && Active(c, n)
  {
    if names == [] then []
    else KeepIfActive(c, names[0]) + ActiveNames(names[1..], c)
  }

  /** The filter drops no active name. */
  lemma {:induction false} ActiveNamesMembers(names: seq<string>, c: Config)
    requires forall n <- names :: n in c
    ensures forall n <- names :: Active(c, n) ==> n in ActiveNames(names, c)
  {
    if names != [] {
      ActiveNamesMembers(names[1..], c);
    }
  }

  /** `[name]` when the landmark is active, otherwise nothing. */
  function KeepIfActive(c: Config, name: string): seq<string>
    requires name in c
  {
    if Active(c, name) then [name] else []
  }

  /** One step of the filter: the first name, if active, then the filter of the rest. */
  lemma ActiveNamesUnfold(names: seq<string>, c: Config)
    requires |names| > 0 && forall n <- names :: n in c
    ensures ActiveNames(names, c) == KeepIfActive(c, names[0]) + ActiveNames(names[1..], c)
  {
  }

  /** Filtering a four-name list keeps each name that is active, in place. */
  lemma FourNamesFilter(n0: string, n1: string, n2: string, n3: string, c: Config)
    requires n0 in c && n1 in c && n2 in c && n3 in c
    ensures ActiveNames([n0, n1, n2, n3], c)
         == KeepIfActive(c, n0) + (KeepIfActive(c, n1) + (KeepIfActive(c, n2) + KeepIfActive(c, n3)))
  {
    calc {
      ActiveNames([n0, n1, n2, n3], c);
      { ActiveNamesUnfold([n0, n1, n2, n3], c); assert [n0, n1, n2, n3][1..] == [n1, n2, n3]; }
      KeepIfActive(c, n0) + ActiveNames([n1, n2, n3], c);
      { ActiveNamesUnfold([n1, n2, n3], c); assert [n1, n2, n3][1..] == [n2, n3]; }
      KeepIfActive(c, n0) + (KeepIfActive(c, n1) + ActiveNames([n2, n3], c));
      { ActiveNamesUnfold([n2, n3], c); assert [n2, n3][1..] == [n3]; }
      KeepIfActive(c, n0) + (KeepIfActive(c, n1) + (KeepIfActive(c, n2) + ActiveNames([n3], c)));
      { ActiveNamesUnfold([n3], c); assert [n3][1..] == []; }
      KeepIfActive(c, n0) + (KeepIfActive(c, n1) + (KeepIfActive(c, n2) + KeepIfActive(c, n3)));
    }
  }

  /**
   * The active femur landmarks come in declaration order FHC, MEC, LEC, FGT,
   * and there are at most four of them.
   */
  lemma ActiveFemurLandmarksInOrder(c: Config)
    requires HasRequiredKeys(c)
    ensures ActiveNames(FemurLandmarks, c)
         == KeepIfActive(c, "FHC") + (KeepIfActive(c, "MEC") + (KeepIfActive(c, "LEC") + KeepIfActive(c, "FGT")))
    ensures |ActiveNames(FemurLandmarks, c)| <= 4
  {
    FourNamesFilter("FHC", "MEC", "LEC", "FGT", c);
  }

  /** The femur landmark list holds an active landmark exactly when some selector is not 'none'. */
  lemma {:induction false} SomeActiveFemurLandmark(c: Config)
    requires HasRequiredKeys(c)
    ensures |ActiveNames(FemurLandmarks, c)| > 0 <==> exists l <- FemurLandmarks :: Active(c, l)
  {
    var r := ActiveNames(FemurLandmarks, c);
    ActiveNamesMembers(FemurLandmarks, c);
    if exists l <- FemurLandmarks :: Active(c, l) {
      var l :| l in FemurLandmarks && Active(c, l);
      assert l in r;
    }
    if |r| > 0 {
      assert r[0] in r;
    }
  }

  /**
   * The correspondence list the solver receives, built like the source's
   * list comprehension: a (name, position) pair for each active name, or
   * the lookup error of the first active selector that picks no landmark.
   */
  function Correspondences(names: seq<string>, c: Config, points: LandmarkSet): Result<seq<(string, Vec3)>, Error>
    requires forall n <- names :: n in c
  {
    if names == [] then Success([])
    else if !Active(c, names[0]) then Correspondences(names[1..], c, points)
    else match Resolve(points, c[names[0]])
      case None => Failure(LookupFailure(c[names[0]]))
      case Some(p) =>
        match Correspondences(names[1..], c, points)
        case Failure(e) => Failure(e)
        case Success(rest) => Success([(names[0], p)] + rest)
  }

  /** The list is built exactly when every active selector picks a landmark. */
  lemma {:induction false} CorrespondencesSucceed(names: seq<string>, c: Config, points: LandmarkSet)
    requires forall n <- names :: n in c
    ensures Correspondences(names, c, points).Success?
        <==> forall n <- names :: Active(c, n) ==> Resolve(points, c[n]).Some?
  {
    if names != [] {
      CorrespondencesSucceed(names[1..], c, points);
      assert forall n <- names :: n == names[0] || n in names[1..];
    }
  }

  /**
   * A built list holds exactly the active names, in order, each paired with
   * the position its selector picks.
   */
  lemma {:induction false} CorrespondencesFollowFilter(names: seq<string>, c: Config, points: LandmarkSet)
    requires forall n <- names :: n in c
    requires Correspondences(names, c, points).Success?
    ensures var r := Correspondences(names, c, points).value;
      && |r| == |ActiveNames(names, c)|
      && forall i :: 0 <= i < |r| ==>
           && r[i].0 == ActiveNames(names, c)[i]
           && Resolve(points, c[r[i].0]) == Some(r[i].1)
  {
    if names != [] {
      CorrespondencesFollowFilter(names[1..], c, points);
      var tail := ActiveNames(names[1..], c);
      if Active(c, names[0]) {
        var p := Resolve(points, c[names[0]]).value;
        var rest := Correspondences(names[1..], c, points).value;
        assert Correspondences(names, c, points).value == [(names[0], p)] + rest;
        assert ActiveNames(names, c) == [names[0]] + tail;
      } else {
        assert ActiveNames(names, c) == [] + tail == tail;
      }
    }
  }

  /**
   * A failed list reports the lookup error of the first active selector, in list
   * order, that picks no landmark: every active selector before it resolves.
   */
  lemma {:induction false} CorrespondencesLookupError(names: seq<string>, c: Config, points: LandmarkSet)
    requires forall n <- names :: n in c
    requires Correspondences(names, c, points).Failure?
    ensures exists i :: && 0 <= i < |names|
                        && Active(c, names[i])
                        && Resolve(points, c[names[i]]).None?
                        && Correspondences(names, c, points).error == LookupFailure(c[names[i]])
                        && forall j :: 0 <= j < i && Active(c, names[j]) ==> Resolve(points, c[names[j]]).Some?
  {
    if Active(c, names[0]) && Resolve(points, c[names[0]]).None? {
      assert Correspondences(names, c, points).error == LookupFailure(c[names[0]]);
    } else {
      var rest := names[1..];
      CorrespondencesLookupError(rest, c, points);
      var k :| && 0 <= k < |rest|
               && Active(c, rest[k])
               && Resolve(points, c[rest[k]]).None?
               && Correspondences(rest, c, points).error == LookupFailure(c[rest[k]])
               && forall j :: 0 <= j < k && Active(c, rest[j]) ==> Resolve(points, c[rest[j]]).Some?;
      assert Correspondences(names, c, points).error == Correspondences(rest, c, points).error;
      assert names[k + 1] == rest[k];
      assert forall j :: 1 <= j < k + 1 ==> names[j] == rest[j - 1];
    }
  }

  /**
   * A successful femur correspondence list has one to four entries when some
   * landmark is active: the divisor of the RMSE is never zero.
   */
  lemma FemurCorrespondenceCount(c: Config, points: LandmarkSet)
    requires HasRequiredKeys(c) && |ActiveNames(FemurLandmarks, c)| > 0
    requires Correspondences(FemurLandmarks, c, points).Success?
    ensures 0 < |Correspondences(FemurLandmarks, c, points).value| <= 4
  {
    CorrespondencesFollowFilter(FemurLandmarks, c, points);
    ActiveFemurLandmarksInOrder(c);
  }

  /** The landmark set after moving the MEC point by -Shift*u and then the LEC point by +Shift*u. */
  function Corrected(points: LandmarkSet, mec: string, lec: string, u: Vec3): LandmarkSet
    requires mec in points && lec in points
  {
    var moved := points[mec := Sub(points[mec], Scale(Shift, u))];
    moved[lec := Add(moved[lec], Scale(Shift, u))]
  }

  /** For distinct keys, the correction is two independent updates of the original set. */
  lemma CorrectedAsUpdates(points: LandmarkSet, mec: string, lec: string, u: Vec3)
    requires mec in points && lec in points && mec != lec
    ensures Corrected(points, mec, lec, u)
         == points[mec := Sub(points[mec], Scale(Shift, u))][lec := Add(points[lec], Scale(Shift, u))]
  {
  }

  /** The MEC and LEC selectors pick the same position (the direction between them is undefined). */
  predicate Coincident(c: Config, points: LandmarkSet)
    requires "MEC" in c && "LEC" in c
  {
    Resolve(points, c["MEC"]).Some? && Resolve(points, c["MEC"]) == Resolve(points, c["LEC"])
  }

  /**
   * The epicondyle correction: look up the MEC point, then the LEC point
   * (the lookup error of the first that is missing), take `unit` of their
   * difference and apply Corrected. It runs whether or not MEC and LEC are
   * active: a 'none' selector is looked up like any other.
   */
  function CorrectEpicondyles(c: Config, points: LandmarkSet, unit: Vec3 -> Vec3): (r: Result<LandmarkSet, Error>)
    requires "MEC" in c && "LEC" in c
    ensures r.Success? <==> Resolve(points, c["MEC"]).Some? && Resolve(points, c["LEC"]).Some?
    ensures r.Failure? ==> r.error == LookupFailure(if Resolve(points, c["MEC"]).None? then c["MEC"] else c["LEC"])
  {
    match (Resolve(points, c["MEC"]), Resolve(points, c["LEC"]))
    case (None, _) => Failure(LookupFailure(c["MEC"]))
    case (_, None) => Failure(LookupFailure(c["LEC"]))
    case (Some(pm), Some(pl)) => Success(Corrected(points, c["MEC"].s, c["LEC"].s, unit(Sub(pm, pl))))
  }

  /**
   * With no landmark active, the MEC selector is 'none', so the correction
   * stops with KeyError('none') unless the landmark set has a 'none' entry:
   * the registration never reaches the solver or the RMSE division.
   */
  lemma {:induction false} NothingActiveStopsCorrection(c: Config, points: LandmarkSet, unit: Vec3 -> Vec3)
    requires HasRequiredKeys(c) && |ActiveNames(FemurLandmarks, c)| == 0
    requires "none" !in points
    ensures CorrectEpicondyles(c, points, unit) == Failure(KeyError(Disabled))
  {
    ActiveNamesMembers(FemurLandmarks, c);
    assert "MEC" in FemurLandmarks;
    assert c["MEC"] == Disabled;
  }

  /**
   * With no landmark active, the correction gets through only when MEC and
   * LEC (both 'none') pick the same position: then the direction is undefined.
   */
  lemma {:induction false} NothingActivePassesOnlyCoincident(c: Config, points: LandmarkSet, unit: Vec3 -> Vec3)
    requires HasRequiredKeys(c)
    ensures |ActiveNames(FemurLandmarks, c)| == 0 && CorrectEpicondyles(c, points, unit).Success?
        ==> Coincident(c, points)
  {
    ActiveNamesMembers(FemurLandmarks, c);
    assert "MEC" in FemurLandmarks && "LEC" in FemurLandmarks;
  }

  /**
   * The correction changes exactly the MEC and LEC entries, by opposite
   * displacements along unit(MEC - LEC); every other landmark is untouched.
   */
  lemma CorrectionFrame(c: Config, points: LandmarkSet, unit: Vec3 -> Vec3)
    requires "MEC" in c && "LEC" in c && !Coincident(c, points)
    requires CorrectEpicondyles(c, points, unit).Success?
    ensures var r := CorrectEpicondyles(c, points, unit).value;
      var mec, lec := c["MEC"].s, c["LEC"].s;
      var u := unit(Sub(points[mec], points[lec]));
      && mec != lec
      && r.Keys == points.Keys
      && r[mec] == Sub(points[mec], Scale(Shift, u))
      && r[lec] == Add(points[lec], Scale(Shift, u))
      && forall k :: k in points && k != mec && k != lec ==> r[k] == points[k]
  {
  }

  /** The correction keeps the sum, hence the midpoint, of the two epicondyle points. */
  lemma CorrectionKeepsMidpoint(c: Config, points: LandmarkSet, unit: Vec3 -> Vec3)
    requires "MEC" in c && "LEC" in c && !Coincident(c, points)
    requires CorrectEpicondyles(c, points, unit).Success?
    ensures var r := CorrectEpicondyles(c, points, unit).value;
      var mec, lec := c["MEC"].s, c["LEC"].s;
      Add(r[mec], r[lec]) == Add(points[mec], points[lec])
  {
    var mec, lec := c["MEC"].s, c["LEC"].s;
    CorrectionFrame(c, points, unit);
    OppositeMovesKeepSum(points[mec], points[lec], Scale(Shift, unit(Sub(points[mec], points[lec]))));
  }

  /**
   * When `unit` returns the direction of MEC - LEC (MEC - LEC == len * u),
   * the corrected points are still separated along u, by exactly 2 * Shift less.
   */
  lemma CorrectionNarrowsGap(c: Config, points: LandmarkSet, unit: Vec3 -> Vec3, len: real)
    requires "MEC" in c && "LEC" in c && !Coincident(c, points)
    requires CorrectEpicondyles(c, points, unit).Success?
    requires var d := Sub(points[c["MEC"].s], points[c["LEC"].s]); d == Scale(len, unit(d))
    ensures var r := CorrectEpicondyles(c, points, unit).value;
      var mec, lec := c["MEC"].s, c["LEC"].s;
      Sub(r[mec], r[lec]) == Scale(len - 2.0 * Shift, unit(Sub(points[mec], points[lec])))
  {
    var mec, lec := c["MEC"].s, c["LEC"].s;
    CorrectionFrame(c, points, unit);
    OppositeMovesAlongDirection(points[mec], points[lec], unit(Sub(points[mec], points[lec])), len, Shift);
  }
}
