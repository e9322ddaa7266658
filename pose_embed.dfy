/**
 * The input side of the pose embedder: a detected pose, keyed by MHR70 joint
 * name, is remapped onto the 17 COCO keypoint slots, given per-slot confidence
 * scores, repeated over 48 frames and wrapped in the annotation record the
 * skeleton-action backbone consumes. An empty pose short-cuts to the zero
 * embedding. The backbone itself is a parameter of the model.
 */
module PoseEmbed {
  import opened Wrappers

  /** An (x, y) image coordinate. */
  type Point = (real, real)

  /** Size of the MHR70 joint vocabulary the detector names its joints from. */
  const MhrJointCount: nat := 70
  /** Keypoint slots of the COCO-17 layout the backbone expects. */
  const CocoJointCount: nat := 17
  /** Frames a single pose is repeated over. */
  const NumFrames: nat := 48
  /** Persons per clip. */
  const NumPersons: nat := 1
  /** Width of the backbone's embedding. */
  const EmbeddingDim: nat := 512

  /**
   * MHR70 joint index -> COCO slot, in the order the table lists its entries
   * (the order a Python dict literal iterates in).
   */
  const MhrToCoco: seq<(nat, nat)> := [
    (0, 0), (1, 1), (2, 2), (3, 3), (4, 4), (5, 5), (6, 6), (7, 7), (8, 8),
    (62, 9), (41, 10),
    (9, 11), (10, 12), (11, 13), (12, 14), (13, 15), (14, 16)
  ]

  /**
   * The table has 17 entries, its MHR70 indices are distinct joints of the
   * vocabulary, and its COCO slots are distinct and cover 0..16: the k-th entry
   * fills slot k.
   */
  lemma MappingIsBijection()
    ensures |MhrToCoco| == CocoJointCount
    ensures forall k :: 0 <= k < |MhrToCoco| ==> MhrToCoco[k].1 == k
    ensures forall k :: 0 <= k < |MhrToCoco| ==> MhrToCoco[k].0 < MhrJointCount
    ensures forall k, l :: 0 <= k < l < |MhrToCoco| ==> MhrToCoco[k].0 != MhrToCoco[l].0
  {
  }

  /** The MHR70 joint whose position fills COCO slot `c`. */
  function SourceJoint(c: nat): (m: nat)
    requires c < CocoJointCount
    ensures m < MhrJointCount
    ensures exists k :: 0 <= k < |MhrToCoco| && MhrToCoco[k] == (m, c)
  {
    MappingIsBijection();
    MhrToCoco[c].0
  }

  /** A vocabulary of joint names as long as MHR70. */
  predicate ValidNames(names: seq<string>) {
    |names| == MhrJointCount
  }

  /** Slot `c`'s coordinates: its joint's position when the pose has that joint, else the origin. */
  function SlotPoint(pose: map<string, Point>, names: seq<string>, c: nat): (p: Point)
    requires ValidNames(names) && c < CocoJointCount
    ensures names[SourceJoint(c)] in pose ==> p == pose[names[SourceJoint(c)]]
    ensures names[SourceJoint(c)] !in pose ==> p == (0.0, 0.0)
  {
    var name := names[SourceJoint(c)];
    if name in pose then pose[name] else (0.0, 0.0)
  }

  /** Slot `c`'s score: 1 when the pose has its joint, 0 when the joint is missing. */
  function SlotScore(pose: map<string, Point>, names: seq<string>, c: nat): (s: real)
    requires ValidNames(names) && c < CocoJointCount
    ensures s == 1.0 <==> names[SourceJoint(c)] in pose
    ensures s == 0.0 <==> names[SourceJoint(c)] !in pose
  {
    if names[SourceJoint(c)] in pose then 1.0 else 0.0
  }

  /** Whether `name` is the name of some joint the table maps. */
  predicate MappedName(names: seq<string>, name: string)
    requires ValidNames(names)
  {
    exists c :: 0 <= c < CocoJointCount && names[SourceJoint(c)] == name
  }

  /** A pose entry under a name the table does not map changes no slot and no score. */
  lemma UnmappedNameIgnored(pose: map<string, Point>, names: seq<string>, name: string, p: Point, c: nat)
    requires ValidNames(names) && !MappedName(names, name) && c < CocoJointCount
    ensures SlotPoint(pose[name := p], names, c) == SlotPoint(pose, names, c)
    ensures SlotScore(pose[name := p], names, c) == SlotScore(pose, names, c)
  {
    assert names[SourceJoint(c)] != name;
  }

  /**
   * The loop of `extract_embedding` over the table: starting from zero
   * coordinates and unit scores, each mapped joint the pose has writes its
   * position into its COCO slot, and each one it lacks zeroes its slot's score.
   */
  method RemapToCoco(pose: map<string, Point>, names: seq<string>) returns (keypoints: seq<Point>, scores: seq<real>)
    requires ValidNames(names)
    ensures |keypoints| == CocoJointCount && |scores| == CocoJointCount
    ensures forall c :: 0 <= c < CocoJointCount ==>
      keypoints[c] == SlotPoint(pose, names, c) && scores[c] == SlotScore(pose, names, c)
  {
    MappingIsBijection();
    var cocoKeypoints := new Point[CocoJointCount](_ => (0.0, 0.0));
    var cocoScores := new real[CocoJointCount](_ => 1.0);
    for k := 0 to |MhrToCoco|
      invariant forall c :: 0 <= c < k ==>
        cocoKeypoints[c] == SlotPoint(pose, names, c) && cocoScores[c] == SlotScore(pose, names, c)
      invariant forall c :: k <= c < CocoJointCount ==>
        cocoKeypoints[c] == (0.0, 0.0) && cocoScores[c] == 1.0
    {
      var (mhrIdx, cocoIdx) := MhrToCoco[k];
      var jointName := names[mhrIdx];
      if jointName in pose {
        cocoKeypoints[cocoIdx] := pose[jointName];
      } else {
        cocoScores[cocoIdx] := 0.0;
      }
    }
    keypoints, scores := cocoKeypoints[..], cocoScores[..];
  }

  /** `n` copies of `x`. */
  function Tile<T>(x: T, n: nat): (r: seq<T>)
    ensures |r| == n
    ensures forall i :: 0 <= i < n ==> r[i] == x
  {
    seq(n, _ => x)
  }

  /** Swaps the two outer axes of a `rows` x `cols` block. */
  function Transpose<T>(m: seq<seq<T>>, cols: nat): (t: seq<seq<T>>)
    requires forall i :: 0 <= i < |m| ==> |m[i]| == cols
    ensures |t| == cols
    ensures forall j :: 0 <= j < cols ==> |t[j]| == |m|
    ensures forall j, i :: 0 <= j < cols && 0 <= i < |m| ==> t[j][i] == m[i][j]
  {
    seq(cols, j requires 0 <= j < cols => seq(|m|, i requires 0 <= i < |m| => m[i][j]))
  }

  /** The annotation record the backbone's test pipeline is given. */
  datatype Annotation = Annotation(
    frameDict: string,
    classLabel: int,
    imgShape: (int, int),
    originShape: (int, int),
    startIndex: int,
    modality: string,
    totalFrames: nat,
    keypoint: seq<seq<seq<Point>>>,        // [persons][frames][slots]
    keypointScore: seq<seq<seq<real>>>)    // [persons][frames][slots]

  /**
   * What the annotation built for `pose` must be: one person, 48 frames, each
   * frame the single remapped frame of 17 slots, the image shape as both the
   * image and the original shape, label -1, start index 0, pose modality.
   */
  ghost predicate DescribesPose(a: Annotation, pose: map<string, Point>, imgShape: (int, int), names: seq<string>)
    requires ValidNames(names)
  {
    && a.classLabel == -1 && a.startIndex == 0 && a.totalFrames == NumFrames
    && a.imgShape == imgShape && a.originShape == imgShape
    && a.modality == "Pose" && a.frameDict == ""
    && |a.keypoint| == NumPersons && |a.keypointScore| == NumPersons
    && |a.keypoint[0]| == NumFrames && |a.keypointScore[0]| == NumFrames
    && (forall t :: 0 <= t < NumFrames ==>
          && |a.keypoint[0][t]| == CocoJointCount && |a.keypointScore[0][t]| == CocoJointCount
          && (forall c :: 0 <= c < CocoJointCount ==>
                && a.keypoint[0][t][c] == SlotPoint(pose, names, c)
                && a.keypointScore[0][t][c] == SlotScore(pose, names, c)))
  }

  /** Frames laid out [frames][persons], as `np.tile` produces them. */
  function TileFrames<T>(frame: seq<T>): (r: seq<seq<seq<T>>>)
    ensures |r| == NumFrames
    ensures forall t :: 0 <= t < NumFrames ==> r[t] == [frame]
  {
    Tile([frame], NumFrames)
  }

  /** The remapped, tiled and transposed pose, ready for the backbone. */
  method BuildAnnotation(pose: map<string, Point>, imgShape: (int, int), names: seq<string>) returns (anno: Annotation)
    requires ValidNames(names)
    ensures DescribesPose(anno, pose, imgShape, names)
  {
    var cocoKeypoints, cocoScores := RemapToCoco(pose, names);
    var keypoints := Transpose(TileFrames(cocoKeypoints), NumPersons);     // [T, M, V, C] -> [M, T, V, C]
    var keypointScores := Transpose(TileFrames(cocoScores), NumPersons);   // [T, M, V] -> [M, T, V]
    var (h, w) := imgShape;
    anno := Annotation("", -1, (h, w), (h, w), 0, "Pose", NumFrames, keypoints, keypointScores);
    assert forall t :: 0 <= t < NumFrames ==> anno.keypoint[0][t] == cocoKeypoints;
    assert forall t :: 0 <= t < NumFrames ==> anno.keypointScore[0][t] == cocoScores;
  }

  /**
   * `extract_embedding`: the zero vector of width 512 for an empty pose, with
   * no backbone call (`fed` is None); otherwise the backbone's output on the
   * annotation that describes the pose (`fed` holds what it was fed).
   */
  method ExtractEmbedding(pose: map<string, Point>, imgShape: (int, int), names: seq<string>,
                          backbone: Annotation -> seq<real>)
    returns (embedding: seq<real>, fed: Option<Annotation>)
    requires ValidNames(names)
    ensures fed.None? <==> |pose| == 0
    ensures fed.None? ==> |embedding| == EmbeddingDim && forall i :: 0 <= i < EmbeddingDim ==> embedding[i] == 0.0
    ensures fed.Some? ==> embedding == backbone(fed.value) && DescribesPose(fed.value, pose, imgShape, names)
  {
    if |pose| == 0 {
      return Tile(0.0, EmbeddingDim), None;
    }
    var anno := BuildAnnotation(pose, imgShape, names);
    embedding, fed := backbone(anno), Some(anno);
  }

  /** Poses that agree on every mapped joint yield the same annotation. */
  lemma DescriptionDependsOnlyOnMappedJoints(a: Annotation, p1: map<string, Point>, p2: map<string, Point>,
                                             imgShape: (int, int), names: seq<string>)
    requires ValidNames(names)
    requires forall c :: 0 <= c < CocoJointCount ==>
      (names[SourceJoint(c)] in p1 <==> names[SourceJoint(c)] in p2) &&
      (names[SourceJoint(c)] in p1 ==> p1[names[SourceJoint(c)]] == p2[names[SourceJoint(c)]])
    requires DescribesPose(a, p1, imgShape, names)
    ensures DescribesPose(a, p2, imgShape, names)
  {
    forall c | 0 <= c < CocoJointCount
      ensures SlotPoint(p1, names, c) == SlotPoint(p2, names, c) && SlotScore(p1, names, c) == SlotScore(p2, names, c)
    {
    }
  }
}
