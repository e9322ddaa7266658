/**
 * The 2D pose detector's wrapper: it checks that the image is an RGB array,
 * builds the body-model estimator (with the person box detector only when
 * asked to), and names the first detected person's keypoint rows after the
 * MHR70 joint vocabulary. The estimator's network is a parameter of the model.
 */
module PoseDetect {
  import opened Wrappers
  import PoseEmbed
  import Maps

  type Point = PoseEmbed.Point

  /** An image array; only its shape matters to the wrapper. */
  datatype Image = Image(shape: seq<nat>)

  /** The person box detector loaded once when the service starts. */
  datatype BoxDetector = BoxDetector(name: string)

  /** The collaborators an estimator is built with. */
  datatype EstimatorConfig = EstimatorConfig(humanDetector: Option<BoxDetector>, hasSegmentor: bool, hasFovEstimator: bool)

  /** One detected person: keypoint rows (x, y), one per joint. */
  datatype PersonOutput = PersonOutput(predKeypoints2d: seq<Point>)

  /** The wrapper's `ValueError` for an image that is not (H, W, 3). */
  datatype PoseError = BadImageShape(shape: seq<nat>)

  /** A three-dimensional array whose last axis has three channels. */
  predicate IsRgbShape(shape: seq<nat>) {
    |shape| == 3 && shape[2] == 3
  }

  /** The estimator built for one request: the box detector only with `useBboxDetector`. */
  function Estimator(detector: BoxDetector, useBboxDetector: bool): (e: EstimatorConfig)
    ensures e.humanDetector.Some? <==> useBboxDetector
    ensures e.humanDetector.Some? ==> e.humanDetector.value == detector
    ensures !e.hasSegmentor && !e.hasFovEstimator
  {
    EstimatorConfig(if useBboxDetector then Some(detector) else None, false, false)
  }

  function Min(a: nat, b: nat): nat {
    if a < b then a else b
  }

  /** No two joint names are equal. */
  predicate Distinct(names: seq<string>) {
    forall i, j :: 0 <= i < j < |names| ==> names[i] != names[j]
  }

  /**
   * `pose` names the first `bound` keypoint rows after joints: its keys are
   * exactly the names at positions below `bound`, and each such name maps to
   * the row at its last such position (a later duplicate name overwrites an
   * earlier one).
   */
  ghost predicate Zipped(pose: map<string, Point>, names: seq<string>, keypoints: seq<Point>, bound: nat)
    requires bound <= |names| && bound <= |keypoints|
  {
    && (forall k :: k in pose <==> exists i :: 0 <= i < bound && names[i] == k)
    && (forall i :: 0 <= i < bound && LastBefore(names, i, bound) ==> pose[names[i]] == keypoints[i])
  }

  /** `pose` names every row that has a joint name, and only those. */
  ghost predicate NamesKeypoints(pose: map<string, Point>, names: seq<string>, keypoints: seq<Point>) {
    Zipped(pose, names, keypoints, Min(|names|, |keypoints|))
  }

  /** No position after `i` and before `bound` repeats the name at `i`. */
  predicate LastBefore(names: seq<string>, i: nat, bound: nat)
    requires i < bound <= |names|
  {
    forall j :: i < j < bound ==> names[j] != names[i]
  }

  /** One more row named: the loop's step. */
  lemma ZipStep(pose: map<string, Point>, names: seq<string>, keypoints: seq<Point>, bound: nat)
    requires bound < |names| && bound < |keypoints|
    requires Zipped(pose, names, keypoints, bound)
    ensures Zipped(pose[names[bound] := keypoints[bound]], names, keypoints, bound + 1)
  {
    var next := pose[names[bound] := keypoints[bound]];
    ZipStepKeys(pose, next, names, keypoints, bound);
    ZipStepValues(pose, next, names, keypoints, bound);
  }

  /** After the step, the keys are the names at positions up to `bound`. */
  lemma ZipStepKeys(pose: map<string, Point>, next: map<string, Point>, names: seq<string>, keypoints: seq<Point>, bound: nat)
    requires bound < |names| && bound < |keypoints|
    requires next == pose[names[bound] := keypoints[bound]]
    requires forall k :: k in pose <==> exists i :: 0 <= i < bound && names[i] == k
    ensures forall k :: k in next <==> exists i :: 0 <= i < bound + 1 && names[i] == k
  {
    forall k ensures k in next <==> exists i :: 0 <= i < bound + 1 && names[i] == k {
      if k in next && k != names[bound] {
        assert k in pose;
      }
    }
  }

  /** After the step, each last occurrence up to `bound` maps to its row. */
  lemma ZipStepValues(pose: map<string, Point>, next: map<string, Point>, names: seq<string>, keypoints: seq<Point>, bound: nat)
    requires bound < |names| && bound < |keypoints|
    requires next == pose[names[bound] := keypoints[bound]]
    requires forall i :: 0 <= i < bound ==> names[i] in pose
    requires forall i :: 0 <= i < bound && LastBefore(names, i, bound) ==> pose[names[i]] == keypoints[i]
    ensures forall i :: 0 <= i < bound + 1 && LastBefore(names, i, bound + 1) ==> next[names[i]] == keypoints[i]
  {
    forall i | 0 <= i < bound + 1 && LastBefore(names, i, bound + 1)
      ensures next[names[i]] == keypoints[i]
    {
      if i < bound {
        assert names[bound] != names[i];
        assert LastBefore(names, i, bound);
      }
    }
  }

  /** The naming is determined by the two lists: no other map satisfies it. */
  lemma {:induction false} NamesKeypointsUnique(p1: map<string, Point>, p2: map<string, Point>,
                                                names: seq<string>, keypoints: seq<Point>)
    requires NamesKeypoints(p1, names, keypoints) && NamesKeypoints(p2, names, keypoints)
    ensures p1 == p2
  {
    var bound := Min(|names|, |keypoints|);
    forall k | k in p1 ensures k in p2 && p1[k] == p2[k] {
      var i :| 0 <= i < bound && names[i] == k;
      var last := LastPosition(names, bound, i);
      assert p1[names[last]] == keypoints[last] == p2[names[last]];
    }
    assert p1.Keys == p2.Keys;
  }

  /** The last position before `bound` holding the same name as position `i`. */
  lemma LastPosition(names: seq<string>, bound: nat, i: nat) returns (last: nat)
    requires i < bound <= |names|
    ensures i <= last < bound && names[last] == names[i]
    ensures LastBefore(names, last, bound)
    decreases bound - i
  {
    if exists j :: i < j < bound && names[j] == names[i] {
      var j :| i < j < bound && names[j] == names[i];
      last := LastPosition(names, bound, j);
    } else {
      last := i;
    }
  }

  /** With distinct names, the next name to be written is not yet a key. */
  lemma DistinctNameIsNew(pose: map<string, Point>, names: seq<string>, keypoints: seq<Point>, bound: nat)
    requires bound < |names| && bound <= |keypoints|
    requires Distinct(names) && Zipped(pose, names, keypoints, bound)
    ensures names[bound] !in pose
  {
  }

  /** The loop invariant: `Zipped`, with at most one entry per row, exactly one for distinct names. */
  ghost predicate ZippedSized(pose: map<string, Point>, names: seq<string>, keypoints: seq<Point>, bound: nat)
    requires bound <= |names| && bound <= |keypoints|
  {
    && Zipped(pose, names, keypoints, bound)
    && |pose| <= bound
    && (Distinct(names) ==> |pose| == bound)
  }

  lemma ZipSizedStep(pose: map<string, Point>, names: seq<string>, keypoints: seq<Point>, bound: nat)
    requires bound < |names| && bound < |keypoints|
    requires ZippedSized(pose, names, keypoints, bound)
    ensures ZippedSized(pose[names[bound] := keypoints[bound]], names, keypoints, bound + 1)
  {
    ZipStep(pose, names, keypoints, bound);
    Maps.UpdateSize(pose, names[bound], keypoints[bound]);
    if Distinct(names) {
      DistinctNameIsNew(pose, names, keypoints, bound);
    }
  }

  /**
   * The loop over the enumerated joint names: each name whose position has a
   * keypoint row gets that row. The result has at most one entry per zipped
   * position, and exactly one when the names are distinct.
   */
  method NameKeypoints(names: seq<string>, keypoints: seq<Point>) returns (pose: map<string, Point>)
    ensures NamesKeypoints(pose, names, keypoints)
    ensures |pose| <= Min(|names|, |keypoints|)
    ensures Distinct(names) ==> |pose| == Min(|names|, |keypoints|)
  {
    pose := map[];
    for idx := 0 to |names|
      invariant ZippedSized(pose, names, keypoints, Min(idx, |keypoints|))
    {
      if idx < |keypoints| {
        var (x, y) := keypoints[idx];
        ZipSizedStep(pose, names, keypoints, idx);
        pose := pose[names[idx] := (x, y)];
      }
    }
  }

  /**
   * `predict_2d_pose`. A non-RGB image is rejected before the estimator runs;
   * no detected person yields the empty pose; otherwise the first person's
   * keypoint rows are named after `names` and every other person is ignored.
   */
  method Predict2dPose(image: Image, useBboxDetector: bool, detector: BoxDetector, names: seq<string>,
                       process: (EstimatorConfig, Image) -> Option<seq<PersonOutput>>)
    returns (result: Result<map<string, Point>, PoseError>)
    ensures !IsRgbShape(image.shape) ==> result == Err(BadImageShape(image.shape))
    ensures IsRgbShape(image.shape) ==> result.Ok?
    ensures IsRgbShape(image.shape) ==>
      var outputs := process(Estimator(detector, useBboxDetector), image);
      && (outputs.None? || |outputs.value| == 0 ==> result.value == map[])
      && (outputs.Some? && |outputs.value| > 0 ==>
            NamesKeypoints(result.value, names, outputs.value[0].predKeypoints2d))
  {
    if !IsRgbShape(image.shape) {
      return Err(BadImageShape(image.shape));
    }
    var estimator := Estimator(detector, useBboxDetector);
    var outputs := process(estimator, image);
    if outputs.None? || |outputs.value| == 0 {
      return Ok(map[]);
    }
    var personOutput := outputs.value[0];
    var pose := NameKeypoints(names, personOutput.predKeypoints2d);
    return Ok(pose);
  }
}
