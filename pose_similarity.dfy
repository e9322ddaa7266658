/**
 * The helpers of the pose similarity script: the cosine similarity of two
 * embeddings, and which parts of a detected skeleton get drawn over an image
 * (a green line per qualifying edge, a red circle per qualifying joint).
 * Square roots are not computed: the two norms are inputs, tied to the
 * vectors by their squares. Pixels are not drawn: the model returns what
 * would be drawn.
 */
module PoseSimilarity {
  import opened Wrappers

  // ---------------------------------------------------------------------------
  // Cosine similarity
  // ---------------------------------------------------------------------------

  /** `np.dot` of two vectors of equal length. */
  function Dot(a: seq<real>, b: seq<real>): real
    requires |a| == |b|
  {
    if |a| == 0 then 0.0 else a[0] * b[0] + Dot(a[1..], b[1..])
  }

  /** The squared Euclidean norm, the square of `np.linalg.norm`. */
  function SqNorm(a: seq<real>): (s: real)
    ensures s >= 0.0
  {
    if |a| == 0 then 0.0 else a[0] * a[0] + SqNorm(a[1..])
  }

  /** `np.dot` refuses vectors whose lengths differ. */
  datatype CosineError = ShapeMismatch(lengthA: nat, lengthB: nat)

  /** What `np.linalg.norm` returns for `a`: the non-negative root of its squared norm. */
  predicate IsNorm(n: real, a: seq<real>) {
    n >= 0.0 && n * n == SqNorm(a)
  }

  /**
   * `cosine_similarity`, given the norms of the two vectors. A zero norm is
   * tested first and yields 0.0; otherwise vectors of different lengths are
   * refused, and the result is the dot product over the product of the norms,
   * which lies in [-1, 1].
   */
  function CosineSimilarity(a: seq<real>, b: seq<real>, normA: real, normB: real): (r: Result<real, CosineError>)
    requires IsNorm(normA, a) && IsNorm(normB, b)
    ensures SqNorm(a) == 0.0 || SqNorm(b) == 0.0 ==> r == Ok(0.0)
    ensures SqNorm(a) != 0.0 && SqNorm(b) != 0.0 && |a| != |b| ==> r == Err(ShapeMismatch(|a|, |b|))
    ensures SqNorm(a) != 0.0 && SqNorm(b) != 0.0 && |a| == |b| ==> r.Ok? && r.value * (normA * normB) == Dot(a, b)
    ensures r.Ok? ==> -1.0 <= r.value <= 1.0
  {
    NormZero(normA, SqNorm(a));
    NormZero(normB, SqNorm(b));
    if normA == 0.0 || normB == 0.0 then Ok(0.0)
    else if |a| != |b| then Err(ShapeMismatch(|a|, |b|))
    else
      CauchySchwarz(a, b);
      QuotientBound(Dot(a, b), SqNorm(a), SqNorm(b), normA, normB);
      Ok(Dot(a, b) / (normA * normB))
  }

  /** A norm is zero exactly when its square is. */
  lemma NormZero(n: real, s: real)
    requires n >= 0.0 && n * n == s
    ensures n == 0.0 <==> s == 0.0
  {
    if n > 0.0 {
      PositiveProduct(n, n, 0.0);
    }
  }

  lemma PositiveProduct(x: real, y: real, r: real)
    requires x > 0.0 && y > 0.0 && r >= 0.0
    ensures x * y + r > 0.0
  {
  }

  lemma GrowingSquare(d: real, m: real)
    requires d > m > 0.0
    ensures d * d > m * m
  {
  }

  lemma NonNegativeSquare(x: real)
    ensures x * x >= 0.0
  {
  }

  /** A dot product within the Cauchy-Schwarz bound, over the product of the norms, lies in [-1, 1]. */
  lemma QuotientBound(d: real, sa: real, sb: real, na: real, nb: real)
    requires na > 0.0 && nb > 0.0 && na * na == sa && nb * nb == sb
    requires d * d <= sa * sb
    ensures -1.0 <= d / (na * nb) <= 1.0
    ensures d / (na * nb) * (na * nb) == d
  {
    var m := na * nb;
    assert m > 0.0;
    assert m * m == sa * sb by {
      assert m * m == (na * na) * (nb * nb);
    }
    SquareBound(d, m);
  }

  lemma SquareBound(d: real, m: real)
    requires m > 0.0 && d * d <= m * m
    ensures -m <= d <= m
  {
    if d > m {
      GrowingSquare(d, m);
    } else if d < -m {
      assert d * d == (-d) * (-d);
      GrowingSquare(-d, m);
    }
  }

  lemma {:induction false} DotSymmetric(a: seq<real>, b: seq<real>)
    requires |a| == |b|
    ensures Dot(a, b) == Dot(b, a)
  {
    if |a| > 0 {
      DotSymmetric(a[1..], b[1..]);
    }
  }

  /** The similarity does not depend on the order of its arguments. */
  lemma CosineSymmetric(a: seq<real>, b: seq<real>, normA: real, normB: real)
    requires IsNorm(normA, a) && IsNorm(normB, b)
    ensures CosineSimilarity(a, b, normA, normB).Ok? == CosineSimilarity(b, a, normB, normA).Ok?
    ensures CosineSimilarity(a, b, normA, normB).Ok? ==>
      CosineSimilarity(a, b, normA, normB).value == CosineSimilarity(b, a, normB, normA).value
  {
    if |a| == |b| {
      DotSymmetric(a, b);
      assert normA * normB == normB * normA;
    }
  }

  lemma {:induction false} DotSelf(a: seq<real>)
    ensures Dot(a, a) == SqNorm(a)
  {
    if |a| > 0 {
      DotSelf(a[1..]);
    }
  }

  /** A vector with a non-zero norm is as similar to itself as can be. */
  lemma CosineSelf(a: seq<real>, normA: real)
    requires IsNorm(normA, a) && normA != 0.0
    ensures CosineSimilarity(a, a, normA, normA) == Ok(1.0)
  {
    DotSelf(a);
    NormZero(normA, SqNorm(a));
    PositiveProduct(normA, normA, 0.0);
    var v, m := CosineSimilarity(a, a, normA, normA).value, normA * normA;
    assert v * m == Dot(a, a) == m;
    UnitQuotient(v, m);
  }

  lemma UnitQuotient(v: real, m: real)
    requires m > 0.0 && v * m == m
    ensures v == 1.0
  {
    assert (v - 1.0) * m == 0.0;
  }

  /** The norm is zero exactly for the zero vector. */
  lemma ZeroNormIffZeroVector(a: seq<real>)
    ensures SqNorm(a) == 0.0 <==> forall i :: 0 <= i < |a| ==> a[i] == 0.0
  {
    if forall i :: 0 <= i < |a| ==> a[i] == 0.0 {
      ZeroVector(a);
    } else {
      var i :| 0 <= i < |a| && a[i] != 0.0;
      NonZeroEntry(a, i);
    }
  }

  lemma {:induction false} ZeroVector(a: seq<real>)
    requires forall i :: 0 <= i < |a| ==> a[i] == 0.0
    ensures SqNorm(a) == 0.0
  {
    if |a| > 0 {
      ZeroVector(a[1..]);
    }
  }

  lemma {:induction false} NonZeroEntry(a: seq<real>, i: nat)
    requires i < |a| && a[i] != 0.0
    ensures SqNorm(a) > 0.0
  {
    if i == 0 {
      PositiveSquare(a[0], SqNorm(a[1..]));
    } else {
      NonZeroEntry(a[1..], i - 1);
    }
  }

  lemma PositiveSquare(x: real, r: real)
    requires x != 0.0 && r >= 0.0
    ensures x * x + r > 0.0
  {
    if x > 0.0 {
      PositiveProduct(x, x, r);
    } else {
      PositiveProduct(-x, -x, r);
      assert (-x) * (-x) == x * x;
    }
  }

  /** One step of the cross-term sum, as an identity over the reals. */
  lemma CrossStep(x: real, y: real, u: real, v: real, sa: real, sb: real, d: real)
    ensures x * x * (v * v + sb) + y * y * (u * u + sa) - 2.0 * x * y * (u * v + d)
         == (x * v - y * u) * (x * v - y * u) + (x * x * sb + y * y * sa - 2.0 * x * y * d)
  {
  }

  /**
   * The cross term of the Lagrange identity is a sum of squares:
   * the sum over i of (x * b[i] - y * a[i])^2.
   */
  lemma {:induction false} CrossTerm(x: real, y: real, a: seq<real>, b: seq<real>)
    requires |a| == |b|
    ensures 0.0 <= x * x * SqNorm(b) + y * y * SqNorm(a) - 2.0 * x * y * Dot(a, b)
  {
    if |a| > 0 {
      CrossTerm(x, y, a[1..], b[1..]);
      CrossStep(x, y, a[0], b[0], SqNorm(a[1..]), SqNorm(b[1..]), Dot(a[1..], b[1..]));
      NonNegativeSquare(x * b[0] - y * a[0]);
    }
  }

  /** One step of the Lagrange identity, over the reals. */
  lemma LagrangeStep(u: real, v: real, sa: real, sb: real, d: real)
    ensures (u * u + sa) * (v * v + sb) - (u * v + d) * (u * v + d)
         == (sa * sb - d * d) + (u * u * sb + v * v * sa - 2.0 * u * v * d)
  {
  }

  /** The Cauchy-Schwarz inequality, squared. */
  lemma {:induction false} CauchySchwarz(a: seq<real>, b: seq<real>)
    requires |a| == |b|
    ensures Dot(a, b) * Dot(a, b) <= SqNorm(a) * SqNorm(b)
  {
    if |a| > 0 {
      CauchySchwarz(a[1..], b[1..]);
      CrossTerm(a[0], b[0], a[1..], b[1..]);
      LagrangeStep(a[0], b[0], SqNorm(a[1..]), SqNorm(b[1..]), Dot(a[1..], b[1..]));
    }
  }

  // ---------------------------------------------------------------------------
  // Which parts of the skeleton are drawn
  // ---------------------------------------------------------------------------

  /** A joint position as the detector reports it. */
  type Point = (real, real)

  /** The default `joint_radius` of `draw_pose_on_image`. */
  const JointRadius: int := 5

  /** The main-body connections, head first, then torso, arms and legs. */
  const SkeletonConnections: seq<(string, string)> := [
    ("nose", "left-eye"), ("nose", "right-eye"), ("left-eye", "left-ear"), ("right-eye", "right-ear"),
    ("left-shoulder", "right-shoulder"), ("left-shoulder", "left-hip"), ("right-shoulder", "right-hip"),
    ("left-hip", "right-hip"),
    ("left-shoulder", "left-elbow"), ("left-elbow", "left-wrist"),
    ("right-shoulder", "right-elbow"), ("right-elbow", "right-wrist"),
    ("left-hip", "left-knee"), ("left-knee", "left-ankle"),
    ("right-hip", "right-knee"), ("right-knee", "right-ankle")
  ]

  /** The body joints the connections run between. */
  const SkeletonJoints: seq<string> := [
    "nose", "left-eye", "right-eye", "left-ear", "right-ear",
    "left-shoulder", "right-shoulder", "left-elbow", "right-elbow", "left-wrist", "right-wrist",
    "left-hip", "right-hip", "left-knee", "right-knee", "left-ankle", "right-ankle"
  ]

  /** Whether `name` is one end of the `k`-th connection. */
  predicate Touches(k: nat, name: string)
    requires k < |SkeletonConnections|
  {
    SkeletonConnections[k].0 == name || SkeletonConnections[k].1 == name
  }

  /** 16 connections over 17 joints, the joints all different. */
  lemma ConnectionCounts()
    ensures |SkeletonConnections| == 16 && |SkeletonJoints| == 17
    ensures forall i, j :: 0 <= i < j < |SkeletonJoints| ==> SkeletonJoints[i] != SkeletonJoints[j]
  {
  }

  /** Every connection joins two different joints, and no connection is listed twice. */
  lemma ConnectionsDistinct()
    ensures forall k :: 0 <= k < |SkeletonConnections| ==> SkeletonConnections[k].0 != SkeletonConnections[k].1
    ensures forall k, l :: 0 <= k < l < |SkeletonConnections| ==> SkeletonConnections[k] != SkeletonConnections[l]
  {
  }

  /** Every end of a connection is one of the 17 joints. */
  lemma EndsAreJoints()
    ensures forall k :: 0 <= k < |SkeletonConnections| ==>
      SkeletonConnections[k].0 in SkeletonJoints && SkeletonConnections[k].1 in SkeletonJoints
  {
  }

  /** Whether `name` ends some connection. */
  predicate IsEnd(name: string) {
    exists k :: 0 <= k < |SkeletonConnections| && Touches(k, name)
  }

  /** Every one of the 17 joints ends some connection. */
  lemma JointsAreEnds()
    ensures forall i :: 0 <= i < |SkeletonJoints| ==> IsEnd(SkeletonJoints[i])
  {
    var edgeOf := [0, 0, 1, 2, 3, 4, 4, 8, 10, 9, 11, 7, 7, 12, 14, 13, 15];
    forall i | 0 <= i < |SkeletonJoints| ensures IsEnd(SkeletonJoints[i]) {
      assert Touches(edgeOf[i], SkeletonJoints[i]);
    }
  }

  /** Python's `int()` on a float: truncation toward zero. */
  function Trunc(x: real): (t: int)
    ensures x >= 0.0 ==> t as real <= x < t as real + 1.0
    ensures x < 0.0 ==> t as real - 1.0 < x <= t as real
  {
    if x >= 0.0 then x.Floor else -((-x).Floor)
  }

  /** A truncated coordinate is positive exactly from 1 on. */
  lemma TruncPositive(x: real)
    ensures Trunc(x) > 0 <==> x >= 1.0
  {
  }

  /** A green line between two pixel positions. */
  datatype Segment = Segment(x1: int, y1: int, x2: int, y2: int)

  /** The bounding box of a red circle. */
  datatype Box = Box(left: int, top: int, right: int, bottom: int)

  /** An edge is drawn when both joints are present and all four coordinates are positive. */
  predicate EdgeQualifies(pose: map<string, Point>, edge: (string, string)) {
    && edge.0 in pose && edge.1 in pose
    && pose[edge.0].0 > 0.0 && pose[edge.0].1 > 0.0
    && pose[edge.1].0 > 0.0 && pose[edge.1].1 > 0.0
  }

  /** The line of a qualifying edge, between the truncated joint positions. */
  function EdgeSegment(pose: map<string, Point>, edge: (string, string)): Segment
    requires EdgeQualifies(pose, edge)
  {
    Segment(Trunc(pose[edge.0].0), Trunc(pose[edge.0].1), Trunc(pose[edge.1].0), Trunc(pose[edge.1].1))
  }

  /** The lines drawn for the first `n` connections, in order. */
  function SkeletonLines(pose: map<string, Point>, n: nat): seq<Segment>
    requires n <= |SkeletonConnections|
  {
    if n == 0 then []
    else
      var edge := SkeletonConnections[n - 1];
      SkeletonLines(pose, n - 1) + (if EdgeQualifies(pose, edge) then [EdgeSegment(pose, edge)] else [])
  }

  /** A line is drawn exactly for the qualifying connections, at most one per connection. */
  lemma {:induction false} SkeletonLinesAre(pose: map<string, Point>, n: nat)
    requires n <= |SkeletonConnections|
    ensures |SkeletonLines(pose, n)| <= n
    ensures forall s :: s in SkeletonLines(pose, n) <==>
      exists k :: 0 <= k < n && EdgeQualifies(pose, SkeletonConnections[k]) && s == EdgeSegment(pose, SkeletonConnections[k])
  {
    if n > 0 {
      SkeletonLinesAre(pose, n - 1);
    }
  }

  /** The first loop of `draw_pose_on_image`: one line per qualifying connection. */
  method DrawSkeleton(pose: map<string, Point>) returns (lines: seq<Segment>)
    ensures lines == SkeletonLines(pose, |SkeletonConnections|)
  {
    lines := [];
    for k := 0 to |SkeletonConnections|
      invariant lines == SkeletonLines(pose, k)
    {
      var (joint1, joint2) := SkeletonConnections[k];
      if joint1 in pose && joint2 in pose {
        var (x1, y1) := pose[joint1];
        var (x2, y2) := pose[joint2];
        if x1 > 0.0 && y1 > 0.0 && x2 > 0.0 && y2 > 0.0 {
          lines := lines + [Segment(Trunc(x1), Trunc(y1), Trunc(x2), Trunc(y2))];
        }
      }
    }
  }

  /** A joint is drawn when both truncated coordinates are positive. */
  predicate JointQualifies(p: Point) {
    Trunc(p.0) > 0 && Trunc(p.1) > 0
  }

  /**
   * `circles` holds a box for exactly the qualifying joints of `pose`, each
   * box spanning the truncated position plus or minus `radius`.
   */
  ghost predicate JointsCircled(pose: map<string, Point>, radius: int, circles: map<string, Box>) {
    && (forall name :: name in circles <==> name in pose && JointQualifies(pose[name]))
    && (forall name :: name in circles ==>
          var (x, y) := (Trunc(pose[name].0), Trunc(pose[name].1));
          circles[name] == Box(x - radius, y - radius, x + radius, y + radius))
  }

  /**
   * The second loop of `draw_pose_on_image`: a circle of radius `radius`
   * around the truncated position of every qualifying joint. Circles are all
   * one colour, so the order the dictionary is walked in does not show.
   */
  method DrawJoints(pose: map<string, Point>, radius: int) returns (circles: map<string, Box>)
    ensures JointsCircled(pose, radius, circles)
  {
    circles := map[];
    var remaining := pose.Keys;
    while remaining != {}
      invariant remaining <= pose.Keys
      invariant forall name :: name in circles <==> name in pose && name !in remaining && JointQualifies(pose[name])
      invariant forall name :: name in circles ==>
        var (x, y) := (Trunc(pose[name].0), Trunc(pose[name].1));
        circles[name] == Box(x - radius, y - radius, x + radius, y + radius)
      decreases |remaining|
    {
      var jointName :| jointName in remaining;
      var (x, y) := (Trunc(pose[jointName].0), Trunc(pose[jointName].1));
      if x > 0 && y > 0 {
        circles := circles[jointName := Box(x - radius, y - radius, x + radius, y + radius)];
      }
      remaining := remaining - {jointName};
    }
  }

  /**
   * `draw_pose_on_image`: the skeleton lines first, then the joint circles.
   * `radius` is its `joint_radius` argument.
   */
  method DrawPoseOnImage(pose: map<string, Point>, radius: int) returns (lines: seq<Segment>, circles: map<string, Box>)
    ensures lines == SkeletonLines(pose, |SkeletonConnections|)
    ensures JointsCircled(pose, radius, circles)
  {
    lines := DrawSkeleton(pose);
    circles := DrawJoints(pose, radius);
  }

  /** The script's call, which leaves `joint_radius` at its default of 5. */
  method DrawPoseWithDefaults(pose: map<string, Point>) returns (lines: seq<Segment>, circles: map<string, Box>)
    ensures lines == SkeletonLines(pose, |SkeletonConnections|)
    ensures JointsCircled(pose, JointRadius, circles)
  {
    lines, circles := DrawPoseOnImage(pose, JointRadius);
  }

  /** A joint with a circle has positive coordinates, so two circled ends make a drawn edge. */
  lemma CircledEndsDrawEdge(pose: map<string, Point>, k: nat)
    requires k < |SkeletonConnections|
    requires SkeletonConnections[k].0 in pose && JointQualifies(pose[SkeletonConnections[k].0])
    requires SkeletonConnections[k].1 in pose && JointQualifies(pose[SkeletonConnections[k].1])
    ensures EdgeQualifies(pose, SkeletonConnections[k])
  {
    TruncPositive(pose[SkeletonConnections[k].0].0);
    TruncPositive(pose[SkeletonConnections[k].0].1);
    TruncPositive(pose[SkeletonConnections[k].1].0);
    TruncPositive(pose[SkeletonConnections[k].1].1);
  }

  /**
   * The converse fails: the two tests differ. A nose at x = 0.5 ends a drawn
   * edge to the left eye, yet gets no circle, since int(0.5) is 0.
   */
  lemma HalfPixelJointHasEdgeButNoCircle()
    ensures var pose := map["nose" := (0.5, 10.0), "left-eye" := (20.0, 10.0)];
      && EdgeQualifies(pose, SkeletonConnections[0])
      && SkeletonLines(pose, 1) == [Segment(0, 10, 20, 10)]
      && !JointQualifies(pose["nose"])
      && JointQualifies(pose["left-eye"])
  {
    var pose := map["nose" := (0.5, 10.0), "left-eye" := (20.0, 10.0)];
    assert Trunc(0.5) == 0;
    assert Trunc(10.0) == 10 && Trunc(20.0) == 20;
  }
}
