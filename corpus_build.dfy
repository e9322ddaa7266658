/**
 * The offline corpus builder: it lists the image files under the pins
 * directory, asks the pose and the CLIP embedding endpoints about each image
 * in turn, and folds the per-image outcomes into the `embeddings` map and the
 * `metadata` counters of the output document. The filesystem listing and the
 * endpoints' replies are inputs of the model.
 */
module CorpusBuild {
  import opened Wrappers
  import opened Paths
  import Maps

  // ---------------------------------------------------------------------------
  // Finding image files
  // ---------------------------------------------------------------------------

  /** The extensions searched for, each in lower and in upper case. */
  const ImageExtensions: seq<string> := [".jpg", ".jpeg", ".png", ".gif", ".bmp", ".webp"]

  /** `str.upper()` on ASCII letters; every other character is kept. */
  function UpperChar(c: char): (u: char)
    ensures !IsLower(u)
    ensures IsLower(c) ==> u as int == c as int - 32
    ensures !IsLower(c) ==> u == c
  {
    if IsLower(c) then (c as int - 32) as char else c
  }

  predicate IsLower(c: char) {
    'a' <= c <= 'z'
  }

  function Upper(s: string): (u: string)
    ensures |u| == |s|
    ensures forall i :: 0 <= i < |s| ==> u[i] == UpperChar(s[i])
  {
    if |s| == 0 then [] else [UpperChar(s[0])] + Upper(s[1..])
  }

  /** A pattern `*<suffix>` matches the names ending in `suffix`. */
  predicate EndsWith(name: string, suffix: string) {
    |suffix| <= |name| && name[|name| - |suffix|..] == suffix
  }

  /** The name ends in `ext` written in lower or in upper case. */
  predicate EndsWithEither(name: string, ext: string) {
    EndsWith(name, ext) || EndsWith(name, Upper(ext))
  }

  /** A dot followed by at least one character that is not a dot. */
  predicate DotWord(p: string) {
    |p| >= 2 && p[0] == '.' && forall i :: 1 <= i < |p| ==> p[i] != '.'
  }

  /** The name ends in one of the first `e` extensions of `exts`. */
  predicate HasExtension(exts: seq<string>, name: string, e: nat)
    requires e <= |exts|
  {
    e > 0 && (HasExtension(exts, name, e - 1) || EndsWithEither(name, exts[e - 1]))
  }

  /** A file name with one of the six image extensions, in lower or in upper case. */
  predicate IsImageName(name: string) {
    HasExtension(ImageExtensions, name, |ImageExtensions|)
  }

  /** The last part of a path, its file name. */
  function Name(p: Path): string {
    if |p| == 0 then "" else p[|p| - 1]
  }

  /** `p` lies below `dir` (at any depth), as `rglob` searches. */
  predicate InDir(p: Path, dir: Path) {
    StartsWith(p, dir) && |p| > |dir|
  }

  /** `dir.rglob("*" + pattern)` over a listing: the entries below `dir` whose name ends in `pattern`. */
  function Glob(tree: seq<Path>, dir: Path, pattern: string): seq<Path>
  {
    if |tree| == 0 then []
    else
      var rest := Glob(tree[1..], dir, pattern);
      if InDir(tree[0], dir) && EndsWith(Name(tree[0]), pattern) then [tree[0]] + rest else rest
  }

  /** The entries below `dir` with an image name: what the search means to find. */
  function ImagesUnder(tree: seq<Path>, dir: Path): (r: seq<Path>)
    ensures forall p :: p in r ==> InDir(p, dir) && IsImageName(Name(p))
  {
    if |tree| == 0 then []
    else
      var rest := ImagesUnder(tree[1..], dir);
      if InDir(tree[0], dir) && IsImageName(Name(tree[0])) then [tree[0]] + rest else rest
  }

  /** What the globs of the first `e` extensions collect, lower case before upper case, in order. */
  function Collected(tree: seq<Path>, dir: Path, exts: seq<string>, e: nat): seq<Path>
    requires e <= |exts|
  {
    if e == 0 then []
    else Collected(tree, dir, exts, e - 1) + Glob(tree, dir, exts[e - 1]) + Glob(tree, dir, Upper(exts[e - 1]))
  }

  /**
   * Extensions no two of which can end the same name: dot-words in lower case
   * that differ in length or in their first letter.
   */
  predicate SeparateExtensions(exts: seq<string>) {
    && (forall e :: 0 <= e < |exts| ==> DotWord(exts[e]) && IsLower(exts[e][1]))
    && (forall e, f :: 0 <= e < f < |exts| ==> |exts[e]| != |exts[f]| || exts[e][1] != exts[f][1])
  }

  lemma ImageExtensionsSeparate()
    ensures SeparateExtensions(ImageExtensions)
  {
  }

  lemma UpperShape(s: string)
    requires DotWord(s) && IsLower(s[1])
    ensures DotWord(Upper(s)) && !IsLower(Upper(s)[1])
  {
  }

  /** A name ends in at most one dot-word: a shorter one would put its dot inside the longer. */
  lemma SameSuffix(name: string, p: string, q: string)
    requires DotWord(p) && DotWord(q) && EndsWith(name, p) && EndsWith(name, q)
    ensures p == q
  {
  }

  /** No name ends in both the lower- and the upper-case form of an extension. */
  lemma CasesApart(name: string, ext: string)
    requires DotWord(ext) && IsLower(ext[1])
    ensures !(EndsWith(name, ext) && EndsWith(name, Upper(ext)))
  {
    UpperShape(ext);
    if EndsWith(name, ext) && EndsWith(name, Upper(ext)) {
      SameSuffix(name, ext, Upper(ext));
      assert false;
    }
  }

  /** No name ends in two different extensions of a separate list, whatever their case. */
  lemma ExtensionsApart(exts: seq<string>, name: string, f: nat, e: nat)
    requires SeparateExtensions(exts) && f < e < |exts|
    ensures !(EndsWithEither(name, exts[f]) && EndsWithEither(name, exts[e]))
  {
    var x, y := exts[f], exts[e];
    UpperShape(x);
    UpperShape(y);
    if EndsWithEither(name, x) && EndsWithEither(name, y) {
      var px := if EndsWith(name, x) then x else Upper(x);
      var py := if EndsWith(name, y) then y else Upper(y);
      SameSuffix(name, px, py);
      assert false;
    }
  }

  /** The extension a name with one of the first `e` extensions ends in. */
  lemma {:induction false} ExtensionOf(exts: seq<string>, name: string, e: nat) returns (f: nat)
    requires e <= |exts| && HasExtension(exts, name, e)
    ensures f < e && EndsWithEither(name, exts[f])
  {
    if EndsWithEither(name, exts[e - 1]) {
      f := e - 1;
    } else {
      f := ExtensionOf(exts, name, e - 1);
    }
  }

  /** How many times `p` occurs in `s`. */
  function Occurrences(s: seq<Path>, p: Path): nat {
    if |s| == 0 then 0 else (if s[0] == p then 1 else 0) + Occurrences(s[1..], p)
  }

  lemma {:induction false} OccurrencesAppend(a: seq<Path>, b: seq<Path>, p: Path)
    ensures Occurrences(a + b, p) == Occurrences(a, p) + Occurrences(b, p)
  {
    if |a| > 0 {
      assert (a + b)[1..] == a[1..] + b;
      OccurrencesAppend(a[1..], b, p);
    } else {
      assert a + b == b;
    }
  }

  lemma {:induction false} OccurrencesMultiset(s: seq<Path>, p: Path)
    ensures Occurrences(s, p) == multiset(s)[p]
  {
    if |s| > 0 {
      OccurrencesMultiset(s[1..], p);
      assert s == [s[0]] + s[1..];
    }
  }

  lemma {:induction false} GlobCount(tree: seq<Path>, dir: Path, pattern: string, p: Path)
    ensures Occurrences(Glob(tree, dir, pattern), p) ==
      if InDir(p, dir) && EndsWith(Name(p), pattern) then Occurrences(tree, p) else 0
  {
    if |tree| > 0 {
      GlobCount(tree[1..], dir, pattern, p);
    }
  }

  lemma {:induction false} ImagesUnderCount(tree: seq<Path>, dir: Path, p: Path)
    ensures Occurrences(ImagesUnder(tree, dir), p) ==
      if InDir(p, dir) && IsImageName(Name(p)) then Occurrences(tree, p) else 0
  {
    if |tree| > 0 {
      ImagesUnderCount(tree[1..], dir, p);
    }
  }

  lemma CollectedStep(tree: seq<Path>, dir: Path, exts: seq<string>, e: nat, p: Path)
    requires 0 < e <= |exts|
    ensures Occurrences(Collected(tree, dir, exts, e), p) == Occurrences(Collected(tree, dir, exts, e - 1), p) +
      Occurrences(Glob(tree, dir, exts[e - 1]), p) + Occurrences(Glob(tree, dir, Upper(exts[e - 1])), p)
  {
    var lower := Collected(tree, dir, exts, e - 1) + Glob(tree, dir, exts[e - 1]);
    OccurrencesAppend(Collected(tree, dir, exts, e - 1), Glob(tree, dir, exts[e - 1]), p);
    OccurrencesAppend(lower, Glob(tree, dir, Upper(exts[e - 1])), p);
  }

  /** The counting step: at most one of the three sources holds the path. */
  lemma CountCases(before: int, lower: int, upper: int, c: int, had: bool, l: bool, u: bool, inDir: bool)
    requires before == (if inDir && had then c else 0)
    requires lower == (if inDir && l then c else 0)
    requires upper == (if inDir && u then c else 0)
    requires !(l && u) && !(had && (l || u))
    ensures before + lower + upper == if inDir && (had || l || u) then c else 0
  {
  }

  /** The name ends in the next extension, or in an earlier one, not in both, and not in both its cases. */
  lemma MatchApart(exts: seq<string>, name: string, e: nat)
    requires SeparateExtensions(exts) && e < |exts|
    ensures !(EndsWith(name, exts[e]) && EndsWith(name, Upper(exts[e])))
    ensures !(HasExtension(exts, name, e) && EndsWithEither(name, exts[e]))
  {
    CasesApart(name, exts[e]);
    if HasExtension(exts, name, e) && EndsWithEither(name, exts[e]) {
      var f := ExtensionOf(exts, name, e);
      ExtensionsApart(exts, name, f, e);
    }
  }

  /** What the globs of the first `e` separate extensions collect holds each match once. */
  lemma {:induction false} CollectedCount(tree: seq<Path>, dir: Path, e: nat, p: Path)
    requires e <= |ImageExtensions|
    ensures Occurrences(Collected(tree, dir, ImageExtensions, e), p) ==
      if InDir(p, dir) && HasExtension(ImageExtensions, Name(p), e) then Occurrences(tree, p) else 0
  {
    if e > 0 {
      CollectedCount(tree, dir, e - 1, p);
      CollectedCountStep(tree, dir, ImageExtensions, e, p);
    }
  }

  /** The induction step of CollectedCount: the two globs of extension `e` add the matches of that extension. */
  lemma CollectedCountStep(tree: seq<Path>, dir: Path, exts: seq<string>, e: nat, p: Path)
    requires exts == ImageExtensions && 0 < e <= |exts|
    requires Occurrences(Collected(tree, dir, exts, e - 1), p) ==
      if InDir(p, dir) && HasExtension(exts, Name(p), e - 1) then Occurrences(tree, p) else 0
    ensures Occurrences(Collected(tree, dir, exts, e), p) ==
      if InDir(p, dir) && HasExtension(exts, Name(p), e) then Occurrences(tree, p) else 0
  {
    var name, ext := Name(p), exts[e - 1];
    var had, l, u := HasExtension(exts, name, e - 1), EndsWith(name, ext), EndsWith(name, Upper(ext));
    var lower, upper := Occurrences(Glob(tree, dir, ext), p), Occurrences(Glob(tree, dir, Upper(ext)), p);
    assert Occurrences(Collected(tree, dir, exts, e), p) ==
           Occurrences(Collected(tree, dir, exts, e - 1), p) + lower + upper by {
      CollectedStep(tree, dir, exts, e, p);
    }
    assert lower == if InDir(p, dir) && l then Occurrences(tree, p) else 0 by {
      GlobCount(tree, dir, ext, p);
    }
    assert upper == if InDir(p, dir) && u then Occurrences(tree, p) else 0 by {
      GlobCount(tree, dir, Upper(ext), p);
    }
    assert !(l && u) && !(had && (l || u)) && (HasExtension(exts, name, e) == (had || l || u)) by {
      ImageExtensionsSeparate();
      MatchApart(exts, name, e - 1);
    }
    CountCases(Occurrences(Collected(tree, dir, exts, e - 1), p), lower, upper, Occurrences(tree, p),
               had, l, u, InDir(p, dir));
  }

  /** Each image below `dir` is collected once, though the loop runs twelve globs. */
  lemma CollectedIsImages(tree: seq<Path>, dir: Path)
    ensures multiset(Collected(tree, dir, ImageExtensions, |ImageExtensions|)) == multiset(ImagesUnder(tree, dir))
  {
    var exts := ImageExtensions;
    forall p ensures multiset(Collected(tree, dir, exts, |exts|))[p] == multiset(ImagesUnder(tree, dir))[p] {
      CollectedCount(tree, dir, |exts|, p);
      ImagesUnderCount(tree, dir, p);
      OccurrencesMultiset(Collected(tree, dir, exts, |exts|), p);
      OccurrencesMultiset(ImagesUnder(tree, dir), p);
    }
  }

  /**
   * `find_image_files` over a directory listing: the loop extends the list
   * with both globs of every extension, then sorts it. The result is sorted and
   * holds each image file below `dataDir` as often as the listing does: once
   * for a real directory, since no name matches two patterns.
   */
  method FindImageFiles(tree: seq<Path>, dataDir: Path) returns (imageFiles: seq<Path>)
    ensures Sorted(imageFiles)
    ensures multiset(imageFiles) == multiset(ImagesUnder(tree, dataDir))
    ensures imageFiles == SortPaths(ImagesUnder(tree, dataDir))
  {
    var found := GlobAll(tree, dataDir, ImageExtensions);
    SortedCollected(tree, dataDir);
    imageFiles := SortPaths(found);
  }

  /** The loop of `find_image_files` over its extensions: both globs of each, lower case first. */
  method GlobAll(tree: seq<Path>, dataDir: Path, exts: seq<string>) returns (found: seq<Path>)
    ensures found == Collected(tree, dataDir, exts, |exts|)
  {
    found := [];
    for e := 0 to |exts|
      invariant found == Collected(tree, dataDir, exts, e)
    {
      var ext := exts[e];
      found := found + Glob(tree, dataDir, ext);
      found := found + Glob(tree, dataDir, Upper(ext));
    }
  }

  /** Sorting what the globs collect gives the sorted images below `dir`. */
  lemma SortedCollected(tree: seq<Path>, dir: Path)
    ensures SortPaths(Collected(tree, dir, ImageExtensions, |ImageExtensions|)) == SortPaths(ImagesUnder(tree, dir))
  {
    CollectedIsImages(tree, dir);
    SortedUnique(SortPaths(Collected(tree, dir, ImageExtensions, |ImageExtensions|)), SortPaths(ImagesUnder(tree, dir)));
  }

  // ---------------------------------------------------------------------------
  // Relative paths
  // ---------------------------------------------------------------------------

  /**
   * `get_relative_path`: `str(file.relative_to(base))`, the parts after `base`
   * joined by '/', or '.' for `base` itself; None where `relative_to` raises
   * `ValueError` because `base` is not a prefix of `file`.
   */
  function RelativePath(file: Path, base: Path): (r: Option<string>)
    ensures r.Some? <==> StartsWith(file, base)
    ensures file == base ==> r == Some(".")
  {
    if StartsWith(file, base) then Some(PathString(file[|base|..])) else None
  }

  /** No part holds the separator, as no name in a directory listing does. */
  predicate PlainParts(p: Path) {
    forall i, j :: 0 <= i < |p| && 0 <= j < |p[i]| ==> p[i][j] != '/'
  }

  lemma {:induction false} JoinInjective(s: Path, t: Path)
    requires |s| > 0 && |t| > 0 && PlainParts(s) && PlainParts(t)
    requires Join(s) == Join(t)
    ensures s == t
    decreases |s|
  {
    if |s| > 1 && |t| > 1 {
      FirstSlash(s[0], Join(s[1..]));
      FirstSlash(t[0], Join(t[1..]));
      assert s[0] == Join(s)[..|s[0]|] == Join(t)[..|t[0]|] == t[0];
      assert Join(s[1..]) == Join(s)[|s[0]| + 1..] == Join(t)[|t[0]| + 1..] == Join(t[1..]);
      JoinInjective(s[1..], t[1..]);
      assert s == [s[0]] + s[1..] && t == [t[0]] + t[1..];
    } else if |s| > 1 {
      FirstSlash(s[0], Join(s[1..]));
    } else if |t| > 1 {
      FirstSlash(t[0], Join(t[1..]));
    }
  }

  lemma FirstSlash(head: string, tail: string)
    ensures (head + "/" + tail)[|head|] == '/'
    ensures (head + "/" + tail)[..|head|] == head
    ensures (head + "/" + tail)[|head| + 1..] == tail
  {
  }

  /** Different files below the same directory have different relative paths. */
  lemma RelativePathInjective(f1: Path, f2: Path, base: Path)
    requires InDir(f1, base) && InDir(f2, base) && PlainParts(f1) && PlainParts(f2)
    requires RelativePath(f1, base) == RelativePath(f2, base)
    ensures f1 == f2
  {
    var r1, r2 := f1[|base|..], f2[|base|..];
    JoinInjective(r1, r2);
    assert f1 == base + r1 && f2 == base + r2;
  }

  // ---------------------------------------------------------------------------
  // One image
  // ---------------------------------------------------------------------------

  /** The two endpoints, in the order they are asked. */
  datatype Endpoint = PoseEndpoint | ClipEndpoint

  /**
   * What one POST to an endpoint comes to: a `RequestException` (connection,
   * timeout, HTTP error status, a body that is not JSON), or a JSON body with
   * the truth value of its `success` field and its `embedding` list
   * (empty when the field is missing).
   */
  datatype Reply = RequestFailed | Replied(success: bool, embedding: seq<real>)

  /** Everything about one image the builder depends on. */
  datatype ImageOutcome = ImageOutcome(readable: bool, pose: Reply, clip: Reply)

  const PoseKey: string := "pose_embedding"
  const ClipKey: string := "clip_embedding"

  /** A reply the builder accepts: successful, with a non-empty embedding. */
  predicate Accepted(r: Reply) {
    r.Replied? && r.success && |r.embedding| > 0
  }

  /** An image both endpoints accept. */
  predicate Succeeded(o: ImageOutcome) {
    o.readable && Accepted(o.pose) && Accepted(o.clip)
  }

  /** The entry stored for a successful image. */
  function EntryOf(o: ImageOutcome): (m: map<string, seq<real>>)
    requires Succeeded(o)
    ensures m.Keys == {PoseKey, ClipKey}
    ensures m[PoseKey] == o.pose.embedding && m[ClipKey] == o.clip.embedding
  {
    map[PoseKey := o.pose.embedding, ClipKey := o.clip.embedding]
  }

  /**
   * `process_image_embeddings` for one image. `requested` lists the endpoints
   * it posts to, in order: none for an unreadable file, only the pose endpoint
   * when the pose is refused, both otherwise. The result is None unless both
   * replies are accepted, and then holds exactly the two embeddings.
   */
  method ProcessImageEmbeddings(o: ImageOutcome) returns (result: Option<map<string, seq<real>>>, requested: seq<Endpoint>)
    ensures !o.readable ==> requested == []
    ensures o.readable && !Accepted(o.pose) ==> requested == [PoseEndpoint]
    ensures o.readable && Accepted(o.pose) ==> requested == [PoseEndpoint, ClipEndpoint]
    ensures result.Some? <==> Succeeded(o)
    ensures result.Some? ==> result.value == EntryOf(o)
  {
    requested := [];
    if !o.readable {
      return None, requested;
    }
    var results: map<string, seq<real>> := map[];
    requested := requested + [PoseEndpoint];
    if o.pose.RequestFailed? {
      return None, requested;
    }
    if o.pose.success && |o.pose.embedding| > 0 {
      results := results[PoseKey := o.pose.embedding];
    } else {
      return None, requested;
    }
    requested := requested + [ClipEndpoint];
    if o.clip.RequestFailed? {
      return None, requested;
    }
    if o.clip.success && |o.clip.embedding| > 0 {
      results := results[ClipKey := o.clip.embedding];
    } else {
      return None, requested;
    }
    return Some(results), requested;
  }

  // ---------------------------------------------------------------------------
  // The whole run
  // ---------------------------------------------------------------------------

  datatype Metadata = Metadata(totalImages: nat, successful: nat, failed: nat, noPersonDetected: nat)

  /** The JSON document written at the end: `embeddings` and `metadata`. */
  datatype OutputDocument = OutputDocument(embeddings: map<string, map<string, seq<real>>>, metadata: Metadata)

  /** How a run ends: one of its three early exits, or the document it saves. */
  datatype RunOutcome = DataDirMissing | NoImagesFound | EndpointsUnavailable | Saved(doc: OutputDocument)

  /** How many of the first `n` images succeed. */
  function SuccessCount(outcomes: seq<ImageOutcome>, n: nat): (c: nat)
    requires n <= |outcomes|
    ensures c <= n
  {
    if n == 0 then 0 else SuccessCount(outcomes, n - 1) + (if Succeeded(outcomes[n - 1]) then 1 else 0)
  }

  /** The outcome of each file, in order. */
  function Outcomes(files: seq<Path>, outcomeOf: Path -> ImageOutcome): (r: seq<ImageOutcome>)
    ensures |r| == |files|
    ensures forall i :: 0 <= i < |files| ==> r[i] == outcomeOf(files[i])
  {
    if |files| == 0 then [] else [outcomeOf(files[0])] + Outcomes(files[1..], outcomeOf)
  }

  /** The key each file is stored under: its relative path below `dir` ("" for a file outside it). */
  function RelativeKeys(files: seq<Path>, dir: Path): (keys: seq<string>)
    ensures |keys| == |files|
  {
    if |files| == 0 then []
    else
      var key := match RelativePath(files[0], dir) case Some(k) => k case None => "";
      [key] + RelativeKeys(files[1..], dir)
  }

  /** The key of the `i`-th file is its relative path. */
  lemma {:induction false} KeyAt(files: seq<Path>, dir: Path, i: nat)
    requires i < |files| && StartsWith(files[i], dir)
    ensures RelativePath(files[i], dir) == Some(RelativeKeys(files, dir)[i])
    decreases i
  {
    if i > 0 {
      KeyAt(files[1..], dir, i - 1);
    }
  }

  /** No two images share a key. */
  predicate DistinctKeys(keys: seq<string>) {
    forall i, j :: 0 <= i < j < |keys| ==> keys[i] != keys[j]
  }

  /** The value under `key` is the entry of image `j`, a successful one whose key is `key`. */
  predicate StoredFrom(emb: map<string, map<string, seq<real>>>, keys: seq<string>,
                       outcomes: seq<ImageOutcome>, j: nat, key: string)
  {
    && j < |keys| && j < |outcomes| && Succeeded(outcomes[j]) && keys[j] == key
    && key in emb && emb[key] == EntryOf(outcomes[j])
  }

  /**
   * What the map holds after the first `n` images: every value is the entry
   * of a successful image stored under its key, and every successful image's
   * key is in the map.
   */
  ghost predicate Folded(emb: map<string, map<string, seq<real>>>, keys: seq<string>,
                         outcomes: seq<ImageOutcome>, n: nat)
    requires n <= |keys| && n <= |outcomes|
  {
    && (forall key :: key in emb ==> (exists j :: 0 <= j < n && StoredFrom(emb, keys, outcomes, j, key)))
    && (forall j :: 0 <= j < n && Succeeded(outcomes[j]) ==> keys[j] in emb)
  }

  /** The loop invariant: `Folded`, with a key count bounded by the successes. */
  ghost predicate FoldedCounted(emb: map<string, map<string, seq<real>>>, keys: seq<string>,
                                outcomes: seq<ImageOutcome>, n: nat, successful: nat)
    requires n <= |keys| && n <= |outcomes|
  {
    && Folded(emb, keys, outcomes, n)
    && successful == SuccessCount(outcomes, n)
    && |emb| <= successful
    && (DistinctKeys(keys) ==> |emb| == successful)
  }

  /** Every stored value holds exactly the two embeddings. */
  lemma FoldedEntries(emb: map<string, map<string, seq<real>>>, keys: seq<string>,
                      outcomes: seq<ImageOutcome>, n: nat)
    requires n <= |keys| && n <= |outcomes|
    requires Folded(emb, keys, outcomes, n)
    ensures forall key :: key in emb ==> emb[key].Keys == {PoseKey, ClipKey}
  {
    forall key | key in emb ensures emb[key].Keys == {PoseKey, ClipKey} {
      var j :| 0 <= j < n && StoredFrom(emb, keys, outcomes, j, key);
    }
  }

  /** A failed image leaves the map as it is. */
  lemma SkipStep(emb: map<string, map<string, seq<real>>>, keys: seq<string>,
                 outcomes: seq<ImageOutcome>, n: nat, successful: nat)
    requires n < |keys| && n < |outcomes| && !Succeeded(outcomes[n])
    requires FoldedCounted(emb, keys, outcomes, n, successful)
    ensures FoldedCounted(emb, keys, outcomes, n + 1, successful)
  {
    assert SuccessCount(outcomes, n + 1) == successful;
    SkipProvenance(emb, keys, outcomes, n);
    SkipCoverage(emb, keys, outcomes, n);
  }

  /** A failed image adds no key the map must hold. */
  lemma SkipCoverage(emb: map<string, map<string, seq<real>>>, keys: seq<string>, outcomes: seq<ImageOutcome>, n: nat)
    requires n < |keys| && n < |outcomes| && !Succeeded(outcomes[n])
    requires forall j :: 0 <= j < n && Succeeded(outcomes[j]) ==> keys[j] in emb
    ensures forall j :: 0 <= j < n + 1 && Succeeded(outcomes[j]) ==> keys[j] in emb
  {
  }

  /** The provenance of the keys carries over to one more image. */
  lemma SkipProvenance(emb: map<string, map<string, seq<real>>>, keys: seq<string>,
                       outcomes: seq<ImageOutcome>, n: nat)
    requires forall k :: k in emb ==> (exists j :: 0 <= j < n && StoredFrom(emb, keys, outcomes, j, k))
    ensures forall k :: k in emb ==> (exists j :: 0 <= j < n + 1 && StoredFrom(emb, keys, outcomes, j, k))
  {
    forall k | k in emb ensures exists j :: 0 <= j < n + 1 && StoredFrom(emb, keys, outcomes, j, k) {
      var j :| 0 <= j < n && StoredFrom(emb, keys, outcomes, j, k);
    }
  }

  /** The provenance of the keys once image `n` is stored. */
  lemma StoreProvenance(emb: map<string, map<string, seq<real>>>, next: map<string, map<string, seq<real>>>,
                        keys: seq<string>, outcomes: seq<ImageOutcome>, n: nat)
    requires n < |keys| && n < |outcomes| && Succeeded(outcomes[n])
    requires next == emb[keys[n] := EntryOf(outcomes[n])]
    requires forall k :: k in emb ==> (exists j :: 0 <= j < n && StoredFrom(emb, keys, outcomes, j, k))
    ensures forall k :: k in next ==> (exists j :: 0 <= j < n + 1 && StoredFrom(next, keys, outcomes, j, k))
  {
    forall k | k in next ensures exists j :: 0 <= j < n + 1 && StoredFrom(next, keys, outcomes, j, k) {
      if k == keys[n] {
        assert StoredFrom(next, keys, outcomes, n, k);
      } else {
        var j :| 0 <= j < n && StoredFrom(emb, keys, outcomes, j, k);
        assert StoredFrom(next, keys, outcomes, j, k);
      }
    }
  }

  /** Storing image `n` adds a key unless an earlier image had the same one. */
  lemma StoreSize(emb: map<string, map<string, seq<real>>>, next: map<string, map<string, seq<real>>>,
                  keys: seq<string>, outcomes: seq<ImageOutcome>, n: nat)
    requires n < |keys| && n < |outcomes| && Succeeded(outcomes[n])
    requires next == emb[keys[n] := EntryOf(outcomes[n])]
    requires forall k :: k in emb ==> (exists j :: 0 <= j < n && StoredFrom(emb, keys, outcomes, j, k))
    ensures |next| <= |emb| + 1
    ensures DistinctKeys(keys) ==> |next| == |emb| + 1
  {
    Maps.UpdateSize(emb, keys[n], EntryOf(outcomes[n]));
    if DistinctKeys(keys) {
      KeyIsNew(emb, keys, outcomes, n);
    }
  }

  /** With distinct keys, the key of image `n` is not yet in the map. */
  lemma KeyIsNew(emb: map<string, map<string, seq<real>>>, keys: seq<string>, outcomes: seq<ImageOutcome>, n: nat)
    requires n < |keys| && DistinctKeys(keys)
    requires forall k :: k in emb ==> (exists j :: 0 <= j < n && StoredFrom(emb, keys, outcomes, j, k))
    ensures keys[n] !in emb
  {
  }

  /** A successful image stores its entry under its key. */
  lemma FoldStep(emb: map<string, map<string, seq<real>>>, keys: seq<string>,
                 outcomes: seq<ImageOutcome>, n: nat, successful: nat)
    requires n < |keys| && n < |outcomes| && Succeeded(outcomes[n])
    requires FoldedCounted(emb, keys, outcomes, n, successful)
    ensures FoldedCounted(emb[keys[n] := EntryOf(outcomes[n])], keys, outcomes, n + 1, successful + 1)
  {
    var next := emb[keys[n] := EntryOf(outcomes[n])];
    StoreProvenance(emb, next, keys, outcomes, n);
    StoreCoverage(emb, next, keys, outcomes, n);
    StoreSize(emb, next, keys, outcomes, n);
  }

  /** Every successful image up to `n` has its key in the map once image `n` is stored. */
  lemma StoreCoverage(emb: map<string, map<string, seq<real>>>, next: map<string, map<string, seq<real>>>,
                      keys: seq<string>, outcomes: seq<ImageOutcome>, n: nat)
    requires n < |keys| && n < |outcomes| && Succeeded(outcomes[n])
    requires next == emb[keys[n] := EntryOf(outcomes[n])]
    requires forall j :: 0 <= j < n && Succeeded(outcomes[j]) ==> keys[j] in emb
    ensures forall j :: 0 <= j < n + 1 && Succeeded(outcomes[j]) ==> keys[j] in next
  {
  }

  /** The sorted image files all lie below the directory searched. */
  lemma FilesInDir(tree: seq<Path>, dir: Path)
    ensures forall j :: 0 <= j < |SortPaths(ImagesUnder(tree, dir))| ==> InDir(SortPaths(ImagesUnder(tree, dir))[j], dir)
  {
    var files := SortPaths(ImagesUnder(tree, dir));
    forall j | 0 <= j < |files| ensures InDir(files[j], dir) {
      assert files[j] in multiset(ImagesUnder(tree, dir));
    }
  }

  /**
   * One pass of `main`'s loop body for the image stored under `relativePath`:
   * its embeddings are requested, and only when both arrive are they stored,
   * under exactly the two embedding keys; otherwise the map is left as it is.
   */
  method StoreImage(embeddingsMap: map<string, map<string, seq<real>>>, relativePath: string, o: ImageOutcome)
    returns (next: map<string, map<string, seq<real>>>, stored: bool)
    ensures stored <==> Succeeded(o)
    ensures stored ==> next == embeddingsMap[relativePath := EntryOf(o)]
    ensures !stored ==> next == embeddingsMap
  {
    var result, _ := ProcessImageEmbeddings(o);
    if result.None? || PoseKey !in result.value || ClipKey !in result.value {
      return embeddingsMap, false;
    }
    next := embeddingsMap[relativePath := map[PoseKey := result.value[PoseKey], ClipKey := result.value[ClipKey]]];
    stored := true;
  }

  /**
   * The loop of `main` over the sorted image files: each image is sent to both
   * endpoints, a success is stored under the image's relative path and counted
   * as successful, anything else is counted as failed.
   */
  method EmbedAll(imageFiles: seq<Path>, dataDir: Path, outcomes: seq<ImageOutcome>)
    returns (embeddingsMap: map<string, map<string, seq<real>>>, successful: nat, failed: nat)
    requires |outcomes| == |imageFiles|
    requires forall j :: 0 <= j < |imageFiles| ==> InDir(imageFiles[j], dataDir)
    ensures successful + failed == |imageFiles|
    ensures FoldedCounted(embeddingsMap, RelativeKeys(imageFiles, dataDir), outcomes, |imageFiles|, successful)
  {
    embeddingsMap := map[];
    successful, failed := 0, 0;
    for i := 0 to |imageFiles|
      invariant FoldedCounted(embeddingsMap, RelativeKeys(imageFiles, dataDir), outcomes, i, successful)
      invariant successful + failed == i
    {
      embeddingsMap, successful, failed := FoldImage(embeddingsMap, imageFiles, dataDir, outcomes, i, successful, failed);
    }
  }

  /**
   * One turn of the loop: image `i` is stored under its relative path and
   * counted as a success exactly when it succeeded, and counted as a failure
   * otherwise.
   */
  method FoldImage(embeddingsMap: map<string, map<string, seq<real>>>, imageFiles: seq<Path>, dataDir: Path,
                   outcomes: seq<ImageOutcome>, i: nat, successful: nat, failed: nat)
    returns (next: map<string, map<string, seq<real>>>, successfulNext: nat, failedNext: nat)
    requires i < |imageFiles| == |outcomes| && InDir(imageFiles[i], dataDir)
    requires FoldedCounted(embeddingsMap, RelativeKeys(imageFiles, dataDir), outcomes, i, successful)
    ensures successfulNext == if Succeeded(outcomes[i]) then successful + 1 else successful
    ensures failedNext == if Succeeded(outcomes[i]) then failed else failed + 1
    ensures FoldedCounted(next, RelativeKeys(imageFiles, dataDir), outcomes, i + 1, successfulNext)
  {
    ghost var keys := RelativeKeys(imageFiles, dataDir);
    KeyAt(imageFiles, dataDir, i);
    var relativePath := RelativePath(imageFiles[i], dataDir).value;
    var stored;
    next, stored := StoreImage(embeddingsMap, relativePath, outcomes[i]);
    if stored {
      FoldStep(embeddingsMap, keys, outcomes, i, successful);
      successfulNext, failedNext := successful + 1, failed;
    } else {
      SkipStep(embeddingsMap, keys, outcomes, i, successful);
      successfulNext, failedNext := successful, failed + 1;
    }
  }

  /**
   * `main`, with the filesystem, the endpoint lookup and the endpoints'
   * replies as inputs: `dataDirExists` says whether the pins directory exists,
   * `tree` lists what lies below it, `endpointsFound` says whether both
   * endpoint URLs were obtained, and `outcomeOf(f)` is what image file `f`
   * comes to.
   */
  method GenerateCorpus(dataDirExists: bool, tree: seq<Path>, dataDir: Path, endpointsFound: bool,
                        outcomeOf: Path -> ImageOutcome)
    returns (run: RunOutcome)
    ensures !dataDirExists ==> run == DataDirMissing
    ensures dataDirExists && |ImagesUnder(tree, dataDir)| == 0 ==> run == NoImagesFound
    ensures dataDirExists && |ImagesUnder(tree, dataDir)| > 0 && !endpointsFound ==> run == EndpointsUnavailable
    ensures dataDirExists && |ImagesUnder(tree, dataDir)| > 0 && endpointsFound ==> run.Saved?
    ensures run.Saved? ==>
      var files := SortPaths(ImagesUnder(tree, dataDir));
      var keys := RelativeKeys(files, dataDir);
      var outcomes := Outcomes(files, outcomeOf);
      var meta := run.doc.metadata;
      && meta.totalImages == |files|
      && meta.successful + meta.failed == meta.totalImages
      && meta.successful == SuccessCount(outcomes, |files|)
      && meta.noPersonDetected == 0
      && Folded(run.doc.embeddings, keys, outcomes, |files|)
      && |run.doc.embeddings| <= meta.successful
      && (DistinctKeys(keys) ==> |run.doc.embeddings| == meta.successful)
  {
    if !dataDirExists {
      return DataDirMissing;
    }
    var imageFiles := FindImageFiles(tree, dataDir);
    if |imageFiles| == 0 {
      return NoImagesFound;
    }
    if !endpointsFound {
      return EndpointsUnavailable;
    }
    FilesInDir(tree, dataDir);
    var embeddingsMap, successful, failed := EmbedAll(imageFiles, dataDir, Outcomes(imageFiles, outcomeOf));
    var noPerson: nat := 0;
    var metadata := Metadata(|imageFiles|, successful, failed, noPerson);
    return Saved(OutputDocument(embeddingsMap, metadata));
  }

  // ---------------------------------------------------------------------------
  // Distinct keys
  // ---------------------------------------------------------------------------

  /** No path occurs twice, as in a real directory listing. */
  predicate NoDuplicates(s: seq<Path>) {
    forall i, j :: 0 <= i < j < |s| ==> s[i] != s[j]
  }

  /** A path that occurs has a position. */
  lemma {:induction false} Member(s: seq<Path>, p: Path) returns (i: nat)
    requires Occurrences(s, p) > 0
    ensures i < |s| && s[i] == p
  {
    if s[0] == p {
      i := 0;
    } else {
      var k := Member(s[1..], p);
      i := k + 1;
    }
  }

  lemma {:induction false} OneOccurrence(s: seq<Path>, i: nat)
    requires i < |s|
    ensures Occurrences(s, s[i]) >= 1
    decreases i
  {
    if i > 0 {
      OneOccurrence(s[1..], i - 1);
    }
  }

  lemma {:induction false} TwoOccurrences(s: seq<Path>, i: nat, j: nat)
    requires i < j < |s| && s[i] == s[j]
    ensures Occurrences(s, s[i]) >= 2
    decreases i
  {
    if i > 0 {
      TwoOccurrences(s[1..], i - 1, j - 1);
    } else {
      OneOccurrence(s[1..], j - 1);
    }
  }

  lemma {:induction false} AtMostOnce(s: seq<Path>, p: Path)
    requires NoDuplicates(s)
    ensures Occurrences(s, p) <= 1
  {
    if |s| > 0 {
      AtMostOnce(s[1..], p);
      if s[0] == p && Occurrences(s[1..], p) > 0 {
        var k := Member(s[1..], p);
      }
    }
  }

  /** Sorting the images of a listing without duplicates keeps them apart. */
  lemma FilesDistinct(tree: seq<Path>, dir: Path)
    requires NoDuplicates(tree)
    ensures NoDuplicates(SortPaths(ImagesUnder(tree, dir)))
  {
    var images := ImagesUnder(tree, dir);
    var files := SortPaths(images);
    forall i, j | 0 <= i < j < |files| ensures files[i] != files[j] {
      var p := files[i];
      OccurrencesMultiset(files, p);
      OccurrencesMultiset(images, p);
      ImagesUnderCount(tree, dir, p);
      AtMostOnce(tree, p);
      if files[j] == p {
        TwoOccurrences(files, i, j);
      }
    }
  }

  /** The sorted images are paths of the listing, so their parts are plain names. */
  lemma FilesPlain(tree: seq<Path>, dir: Path)
    requires forall k :: 0 <= k < |tree| ==> PlainParts(tree[k])
    ensures forall j :: 0 <= j < |SortPaths(ImagesUnder(tree, dir))| ==> PlainParts(SortPaths(ImagesUnder(tree, dir))[j])
  {
    var images := ImagesUnder(tree, dir);
    var files := SortPaths(images);
    forall j | 0 <= j < |files| ensures PlainParts(files[j]) {
      var p := files[j];
      OneOccurrence(files, j);
      OccurrencesMultiset(files, p);
      OccurrencesMultiset(images, p);
      ImagesUnderCount(tree, dir, p);
      var k := Member(tree, p);
    }
  }

  /**
   * A listing without duplicates, whose parts are plain names, gives every
   * image its own relative path: no entry of the map is overwritten, so the
   * map has one entry per successful image.
   */
  lemma ListingKeysDistinct(tree: seq<Path>, dir: Path)
    requires NoDuplicates(tree)
    requires forall k :: 0 <= k < |tree| ==> PlainParts(tree[k])
    ensures DistinctKeys(RelativeKeys(SortPaths(ImagesUnder(tree, dir)), dir))
  {
    var files := SortPaths(ImagesUnder(tree, dir));
    var keys := RelativeKeys(files, dir);
    FilesInDir(tree, dir);
    FilesDistinct(tree, dir);
    FilesPlain(tree, dir);
    forall i, j | 0 <= i < j < |keys| ensures keys[i] != keys[j] {
      KeyAt(files, dir, i);
      KeyAt(files, dir, j);
      if keys[i] == keys[j] {
        RelativePathInjective(files[i], files[j], dir);
      }
    }
  }
}
