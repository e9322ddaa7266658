# Pose-matching mood board: a Dafny model of its core

The system lets a user lay reference images out on a canvas and find
reference pictures whose body pose matches. This project models five parts
of it and proves properties of each:

- **Layer panel** (`layer_system.dfy`, module `LayerSystem`). This is the
  canvas's list of layers. It covers:
  - renaming a layer;
  - choosing the drop slot while a row is dragged;
  - moving the dragged layer to that slot and rewriting every z-index;
  - the clamp on the resize guide, and committing the panel's width.

  The React state and the parent's `images` list are the fields of the
  class `LayerPanel`. Each event handler is a method of that class.
- **Pose remapping for the embedder** (`pose_embed.dfy`, module `PoseEmbed`).
  A pose arrives keyed by MHR70 joint names. It is mapped onto the 17 COCO
  keypoint slots, with a confidence score per slot. It is then repeated over
  48 frames, transposed to person-major order, and wrapped in the annotation
  record the skeleton-action backbone reads. An empty pose gives the zero
  embedding of width 512.
- **2D pose detection wrapper** (`pose_detect.dfy`, module `PoseDetect`). It
  checks that the image has RGB shape. It builds the estimator, with the
  person box detector only when asked for. It then names the first person's
  keypoint rows after the joint vocabulary.
- **Corpus builder** (`corpus_build.dfy` and `paths.dfy`, modules
  `CorpusBuild` and `Paths`). It covers:
  - the recursive search for image files in both letter cases, and the sort
    in `pathlib` order;
  - the relative-path key of each file;
  - the two endpoint requests for one image;
  - the loop that folds every image's outcome into the `embeddings` map and
    the `metadata` counters of the output document.
- **Similarity script helpers** (`pose_similarity.dfy`, module
  `PoseSimilarity`). These are the cosine similarity of two embeddings, and
  the choice of which skeleton edges and joints get drawn over an image.

`wrappers.dfy` holds the `Option` and `Result` datatypes, and `maps.dfy` (module `Maps`) the size
of a map after one more key is written, which both dictionary-building loops use.

## Model

| member | source | states |
|---|---|---|
| LayerSystem.FindIndex | frontend/components/layerSystem.tsx:80 | `findIndex` returns -1 exactly when no layer has the id; otherwise the first index whose id matches. |
| LayerSystem.VisualIndex | frontend/components/layerSystem.tsx:79-80 | The panel position of a layer is counted from the top of the reversed list. The layer there has the id, and no layer drawn above it has that id. |
| LayerSystem.LayerPanel.StartEditing | frontend/components/layerSystem.tsx:26-29 | Opens the editor on the layer's id, with the layer's current name. |
| LayerSystem.Renamed | frontend/components/layerSystem.tsx:33-37 | Only the layer with the edited id changes, and only its name. The name becomes `tempName`, or stays as it was when `tempName` is empty. Length, ids, urls, positions and z-indices are kept. |
| LayerSystem.RenameEmptyKeepsAll | frontend/components/layerSystem.tsx:35 | Saving an empty name leaves every layer unchanged. |
| LayerSystem.RenameIdempotent | frontend/components/layerSystem.tsx:33-37 | Saving the same name twice is the same as saving it once. |
| LayerSystem.LayerPanel.SaveRename | frontend/components/layerSystem.tsx:31-40 | Renames only when `editingId` is truthy (neither null nor ""). Always closes the editor. |
| LayerSystem.LayerPanel.DragStart | frontend/components/layerSystem.tsx:42-50 | A press on a row's button or input starts no drag. Any other press records the row's id. |
| LayerSystem.DropSlot | frontend/components/layerSystem.tsx:67-89 | With no row under the cursor, the slot past the end is chosen, and only within 50 px of the bottom. Over a known row, the slot above it is chosen exactly in the upper half, and the slot below it otherwise. Over an unknown row, nothing is chosen. The slot never exceeds the list's length. |
| LayerSystem.ClampWidth | frontend/components/layerSystem.tsx:55 | The guide width lies in [180, 500]. It equals the cursor's x inside that range, and the nearer bound outside it. |
| LayerSystem.LayerPanel.MouseMove | frontend/components/layerSystem.tsx:52-92 | While resizing, it only moves the guide to the clamped width. Otherwise, with a truthy dragged id, it stores the drop slot when one is chosen. The drop slot is never touched otherwise. |
| LayerSystem.SpliceStart | frontend/components/layerSystem.tsx:107-110 | `splice`'s start as an index. A negative start counts from the end. Starts past either end clamp to it. |
| LayerSystem.MovedRow | frontend/components/layerSystem.tsx:104-107 | The row the first `splice` removes. This is the dragged layer's panel position. When no layer has the id, `findIndex` gives -1 and the last row is removed. |
| LayerSystem.LandingRow | frontend/components/layerSystem.tsx:108-110 | The row the second `splice` puts the layer back at: the drop slot, less one when the slot lies below the old position. A stale slot past the end lands at the end. |
| LayerSystem.StaysPut | frontend/components/layerSystem.tsx:108-110 | Dropping a row into the slot just above or just below it puts it back where it was. |
| LayerSystem.ReorderFacts | frontend/components/layerSystem.tsx:104-113 | Moving the row at one panel position to another keeps the same layers up to z-index, as a multiset. The z-indices become exactly 0..n-1. The moved layer keeps its content at its new position, and the other layers keep their relative order. |
| LayerSystem.Reorder | frontend/components/layerSystem.tsx:103-114 | The update handed to `setImages` is a `Moved` result. When the dragged layer exists, it ends at the landing row. A drop into its own slots changes nothing but the z-indices. |
| LayerSystem.LayerPanel.constructor | frontend/components/layerSystem.tsx:15-19 | The panel starts 256 px wide with no drag, no drop slot, no editor and an empty name, and the guide shows the panel's width (line 227); `Valid` holds. |
| LayerSystem.LayerPanel.ResizeStart | frontend/components/layerSystem.tsx:137-141 | Pressing the resize handle sets the resizing flag that mouse moves and mouse up read. |
| LayerSystem.LayerPanel.MouseUp | frontend/components/layerSystem.tsx:94-119 | A resize ends and commits the guide's width; `parseInt` of the pixel string is the floor, and `Valid` (both widths within 180..500, kept by every handler) stays true. With both a dragged id and a drop slot, the layers are moved as `Reorder` states; otherwise they are unchanged. The drag state is always cleared. |
| LayerSystem.LayerPanel.Drop | frontend/components/layerSystem.tsx:102-117 | The drag half of the mouse release: it moves the layers only when both drag fields are set, then clears both. |
| PoseEmbed.MappingIsBijection | backend/pose_embed/inference.py:26-44 | The table has 17 entries. Its MHR70 indices are distinct and below 70. Its k-th entry fills COCO slot k, so the slots cover 0..16 once each. |
| PoseEmbed.SourceJoint | backend/pose_embed/inference.py:26-44 | Every COCO slot has exactly one MHR70 source joint in the table. |
| PoseEmbed.SlotPoint | backend/pose_embed/inference.py:109-116 | A slot holds its joint's position when the pose has the joint, and (0, 0) otherwise. |
| PoseEmbed.SlotScore | backend/pose_embed/inference.py:110-119 | A slot's score is 1 exactly when the pose has its joint, and 0 exactly when it does not. |
| PoseEmbed.UnmappedNameIgnored | backend/pose_embed/inference.py:112-119 | Adding a pose entry under a name the table does not map changes no slot and no score. |
| PoseEmbed.RemapToCoco | backend/pose_embed/inference.py:108-119 | The loop over the table leaves 17 coordinates and 17 scores. Each slot is `SlotPoint` and `SlotScore` of its joint. |
| PoseEmbed.Tile | backend/pose_embed/inference.py:129-132 | `n` copies of the value. |
| PoseEmbed.Transpose | backend/pose_embed/inference.py:134-136 | Swaps the two outer axes: `t[j][i] == m[i][j]`, with the dimensions exchanged. |
| PoseEmbed.TileFrames | backend/pose_embed/inference.py:124-132 | 48 frames, each holding the single person's frame. |
| PoseEmbed.BuildAnnotation | backend/pose_embed/inference.py:121-150 | The annotation has one person and 48 frames, each frame the remapped 17 slots and their scores. Label is -1 and start index 0. The image shape appears as both image and origin shape, with modality "Pose" and an empty frame dict. |
| PoseEmbed.ExtractEmbedding | backend/pose_embed/inference.py:86-150 | An empty pose returns 512 zeros without calling the backbone. Any other pose returns the backbone's output on an annotation that describes the pose. |
| PoseEmbed.DescriptionDependsOnlyOnMappedJoints | backend/pose_embed/inference.py:112-119 | Two poses that agree on the 17 mapped joints are described by the same annotations. |
| PoseDetect.Estimator | backend/pose/inference.py:79-85 | The box detector is passed exactly when `use_bbox_detector` holds. There is never a segmentor or FOV estimator. |
| PoseDetect.ZipStep | backend/pose/inference.py:102-105 | One more row named keeps the invariant: the keys are the names seen so far, and each name maps to its last row. |
| PoseDetect.NameKeypoints | backend/pose/inference.py:101-105 | Only names whose position has a keypoint row are named. The keys are exactly those names, and a repeated name keeps its last row. There are at most `min(names, rows)` entries, and exactly that many for distinct names. |
| Maps.UpdateSize | backend/pose/inference.py:105 | Writing a key grows a dictionary by one entry exactly when the key is new, which bounds the pose's and the embeddings map's sizes. |
| PoseDetect.NamesKeypointsUnique | backend/pose/inference.py:101-105 | The naming is determined by the two lists: no other map satisfies it. |
| PoseDetect.Predict2dPose | backend/pose/inference.py:52-107 | A non-(H, W, 3) image is an error. No detected person gives the empty pose. Otherwise the first person's rows are named, and later persons are ignored. |
| Paths.InsertSorted | backend/pinterest/generate_embeddings.py:32 | Insertion keeps a list sorted in `pathlib` order and adds exactly the one path. |
| Paths.SortPaths | backend/pinterest/generate_embeddings.py:32 | `list.sort()`: the result is sorted and a permutation of its input. |
| Paths.SortedUnique | backend/pinterest/generate_embeddings.py:27-32 | Two sorted lists with the same elements are equal, so the collection order before the sort does not show. |
| Paths.PathLtTransitive | backend/pinterest/generate_embeddings.py:32 | Path ordering (lexicographic over parts) is transitive. |
| Paths.PathLtTotal | backend/pinterest/generate_embeddings.py:32 | Any two different paths are ordered one way or the other. |
| CorpusBuild.UpperChar | backend/pinterest/generate_embeddings.py:29 | `str.upper` on an ASCII letter shifts it by 32. Other characters are kept. |
| CorpusBuild.ImagesUnder | backend/pinterest/generate_embeddings.py:14-33 | The reference listing: every entry is below the directory and has an image extension in lower or upper case. |
| CorpusBuild.CollectedIsImages | backend/pinterest/generate_embeddings.py:24-29 | The twelve globs together collect each image below the directory exactly as often as the listing holds it. No name matches two patterns. |
| CorpusBuild.GlobAll | backend/pinterest/generate_embeddings.py:27-29 | The loop appends the lower-case glob, then the upper-case glob, of every extension in order. |
| CorpusBuild.SortedCollected | backend/pinterest/generate_embeddings.py:27-32 | Sorting what the globs found gives the sorted images of the listing. |
| CorpusBuild.FindImageFiles | backend/pinterest/generate_embeddings.py:14-33 | The result is sorted. It is a permutation of the images below the directory, and equal to their sorted list. |
| CorpusBuild.RelativePath | backend/pinterest/generate_embeddings.py:36-47 | A relative path exists exactly when the base is a prefix of the file; otherwise `relative_to` raises. The base itself gives ".". |
| CorpusBuild.RelativePathInjective | backend/pinterest/generate_embeddings.py:36-47 | Different files below the same directory get different relative paths. |
| CorpusBuild.EntryOf | backend/pinterest/generate_embeddings.py:75-119 | A successful image's entry has exactly the keys `pose_embedding` and `clip_embedding`, holding the two replies' embeddings. |
| CorpusBuild.ProcessImageEmbeddings | backend/pinterest/generate_embeddings.py:50-122 | An unreadable file posts nothing. A refused or failed pose reply stops before the CLIP request. The result is present exactly when both replies succeed with non-empty embeddings, and then it is that entry. |
| CorpusBuild.StoreImage | backend/pinterest/generate_embeddings.py:179-198 | One loop body stores the entry under the relative path exactly when the image succeeds. Otherwise it leaves the map alone. |
| CorpusBuild.KeyAt | backend/pinterest/generate_embeddings.py:176 | The key used for a file is its relative path. |
| CorpusBuild.FoldedEntries | backend/pinterest/generate_embeddings.py:194-197 | Every stored value holds exactly the two embedding keys. |
| CorpusBuild.SkipStep | backend/pinterest/generate_embeddings.py:183-191 | A failed image keeps the fold invariant and the success count. |
| CorpusBuild.FoldStep | backend/pinterest/generate_embeddings.py:194-198 | A successful image, stored under its key, keeps the fold invariant with the success count one higher. |
| CorpusBuild.FoldImage | backend/pinterest/generate_embeddings.py:174-202 | One turn of the loop counts the image as a success or a failure, matching its outcome, and extends the fold by one image. |
| CorpusBuild.EmbedAll | backend/pinterest/generate_embeddings.py:168-202 | After the loop, successes plus failures equal the file count. Every key comes from a successful image with that key, and every success is in the map. The map has at most one key per success, and exactly one when keys are distinct. |
| CorpusBuild.GenerateCorpus | backend/pinterest/generate_embeddings.py:125-225 | A missing directory, no images, or no endpoints each end the run early, in that order. Otherwise the saved document's totals, success count and fold are as `EmbedAll` states. The no-person counter is 0. |
| CorpusBuild.ListingKeysDistinct | backend/pinterest/generate_embeddings.py:174-197 | For a listing without duplicates and with plain part names, no relative-path key repeats, so no entry is overwritten. |
| PoseSimilarity.SqNorm | backend/test_pose_similarity.py:29-30 | The squared norm is non-negative. |
| PoseSimilarity.CosineSimilarity | backend/test_pose_similarity.py:18-35 | A zero norm gives 0.0 before any dot product. Otherwise vectors of different lengths are refused, and the result times the norm product is the dot product. Every result lies in [-1, 1]. |
| PoseSimilarity.DotSymmetric | backend/test_pose_similarity.py:35 | The dot product is symmetric. |
| PoseSimilarity.CosineSymmetric | backend/test_pose_similarity.py:18-35 | The similarity does not depend on the order of its arguments. |
| PoseSimilarity.DotSelf | backend/test_pose_similarity.py:29-35 | A vector dotted with itself gives its squared norm. |
| PoseSimilarity.CosineSelf | backend/test_pose_similarity.py:18-35 | A non-zero vector has similarity 1 with itself. |
| PoseSimilarity.ZeroNormIffZeroVector | backend/test_pose_similarity.py:32-33 | The norm is zero exactly for the all-zero vector, the case that returns 0.0. |
| PoseSimilarity.CauchySchwarz | backend/test_pose_similarity.py:27-35 | The squared dot product is at most the product of the squared norms. This bounds the result to [-1, 1]. |
| PoseSimilarity.ConnectionCounts | backend/test_pose_similarity.py:84-107 | There are 16 connections over 17 distinct joints. |
| PoseSimilarity.ConnectionsDistinct | backend/test_pose_similarity.py:84-107 | No connection joins a joint to itself, and none is listed twice. |
| PoseSimilarity.EndsAreJoints | backend/test_pose_similarity.py:84-107 | Every end of a connection is one of the 17 joints. |
| PoseSimilarity.JointsAreEnds | backend/test_pose_similarity.py:84-107 | Every one of the 17 joints ends some connection. |
| PoseSimilarity.Trunc | backend/test_pose_similarity.py:117-123 | Python's `int()` on a float truncates toward zero. |
| PoseSimilarity.TruncPositive | backend/test_pose_similarity.py:123-124 | A truncated coordinate is positive exactly from 1.0 on. |
| PoseSimilarity.SkeletonLinesAre | backend/test_pose_similarity.py:110-119 | A line is drawn exactly for each connection whose two joints are present with four positive coordinates, at the truncated positions. There is at most one line per connection. |
| PoseSimilarity.DrawSkeleton | backend/test_pose_similarity.py:110-119 | The edge loop draws the lines `SkeletonLines` lists, in connection order. |
| PoseSimilarity.DrawJoints | backend/test_pose_similarity.py:121-128 | A circle is drawn exactly for the joints whose truncated coordinates are both positive. Its box spans the truncated position plus or minus the radius. |
| PoseSimilarity.DrawPoseOnImage | backend/test_pose_similarity.py:60-131 | The skeleton lines are exactly `SkeletonLines` and the circles exactly those `JointsCircled` states for the given radius. |
| PoseSimilarity.DrawPoseWithDefaults | backend/test_pose_similarity.py:60-65 | With `joint_radius` left at its default of 5, each circle's box is the truncated position plus or minus 5. |
| PoseSimilarity.CircledEndsDrawEdge | backend/test_pose_similarity.py:116-124 | When both ends of a connection get circles, the connection gets a line. |
| PoseSimilarity.HalfPixelJointHasEdgeButNoCircle | backend/test_pose_similarity.py:116-124 | The converse fails. A nose at x = 0.5 ends a drawn line, but gets no circle, because `int(0.5)` is 0. |

## Left out

- Neural networks are not modelled. The pose estimator, the skeleton-action backbone and the CLIP model are parameters (functions or given outcomes). Their loading and Modal deployment are left out.
- Network I/O is not modelled. Each endpoint request is an input `Reply`: a request exception, or a JSON body's `success` and `embedding`. Timeouts and HTTP status become `RequestFailed`.
- The filesystem is an input. The directory listing is a list of paths, and whether the data directory exists is a flag. Reading an image's bytes is a flag, and any exception it raises is an unreadable image. Base64 encoding is left out.
- The order `rglob` walks directories in is left out. So is the arbitrary order in which the Python set of extensions is iterated. Both vanish in the sort; the model iterates in the listed order, and `SortedUnique` shows the order does not matter.
- CorpusBuild.CollectedIsImages, CorpusBuild.RelativePath, Paths.PathLt: POSIX paths only. Globs match case-sensitively, parts are separated by '/', and paths are ordered part by part. Under Windows path rules the lower- and upper-case globs would both match every image, listing each one twice and doubling `total_images`; that is not modelled.
- Default arguments are explicit parameters of the model: `PoseEmbed.ExtractEmbedding`'s `imgShape` defaults to (480, 640) in the source, `PoseDetect.Predict2dPose`'s `useBboxDetector` to true (the corpus builder's request also asks for true), and `PoseSimilarity.DrawJoints`' `radius` to 5 (`DrawPoseWithDefaults` states that call).
- `str.upper` is modelled on ASCII letters only. The extensions are ASCII.
- Writing `embeddings.json` and all printing and logging are left out; the model returns the document.
- `no_person_detected` is never incremented by the builder. It is modelled as the constant 0.
- Floating point is modelled by reals. `float32` rounding and the `float()` conversions are not modelled.
- Square roots are not computed. The norms are inputs tied to each vector by `n >= 0 && n * n == SqNorm(v)`.
- The drawing itself is not modelled: pixels, colours, line width, and the PIL/NumPy conversions. The model returns the lines and circle boxes that would be drawn.
- The similarity script's `main` and image loading are left out. So are the rest of the repository: the ranker, fusion, top-k search, the API server and the other frontend components.
- In the layer panel, the DOM is not modelled: cursor style, auto-scroll near the list's edges, `elementFromPoint`, the guide's opacity, and listener registration. The row under the cursor is an input `Hover`.
- A press on a row's button or input is the flag `onControl`.
- React's batching of state updates is not modelled; each handler's updates take effect together.
- LayerSystem.Reorder: requires a non-empty layer list. With no layers, the first `splice` yields `undefined`, which the second `splice` inserts and the map turns into `{zIndex: 0}`, which is not a layer. The panel has no row to drag in that state.
- LayerSystem.LayerPanel.MouseUp: requires a non-empty layer list while both drag fields are set, as `Reorder` does. Its `Valid` requirement is the invariant the constructor establishes and every handler keeps; for such widths `parseInt` of the pixel string is the floor.
- LayerSystem.LayerPanel: React re-renders write the committed width back into the guide's inline style (line 227); the model keeps the guide's last dragged width instead. Both stay within 180..500.
- LayerSystem.LayerPanel.Drop: the same non-empty requirement as `Reorder`.
- CorpusBuild.GenerateCorpus: when two images share a key, it states only that the stored value comes from some successful image with that key, not that it is the last one. `ListingKeysDistinct` shows that keys do not repeat for a real listing.
- CorpusBuild.RelativePath: the "." result for the base itself is stated as an implication. The general string is given by `Paths.PathString`.
