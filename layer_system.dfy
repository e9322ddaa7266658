/**
 * The layer panel of the mood-board canvas: renaming a layer, choosing the
 * drop slot while a layer row is dragged, moving the dragged layer to that
 * slot and renumbering every layer's z-index, and the clamp on the panel's
 * resize handle.
 *
 * The canvas keeps its layers bottom-to-top in `images` (a larger index is
 * drawn on top); the panel lists them top-to-bottom, so every position the
 * panel talks about ("visual" positions) is an index into the REVERSED list.
 */
module LayerSystem {
  import opened Wrappers

  /** One image placed on the canvas. */
  datatype PlacedImage = PlacedImage(id: string, url: string, x: real, y: real, name: string, zIndex: int)

  /** The layer row under the cursor: its layer id and its vertical extent. */
  datatype Hover = Hover(targetId: string, top: real, height: real)

  /** JavaScript truthiness of a `string | null`: null and "" are both falsy. */
  predicate Truthy(s: Option<string>) {
    s.Some? && s.value != ""
  }

  /** The layers in panel order (top layer first). */
  function Reverse(s: seq<PlacedImage>): (r: seq<PlacedImage>)
    ensures |r| == |s|
    ensures forall i :: 0 <= i < |s| ==> r[i] == s[|s| - 1 - i]
  {
    seq(|s|, i requires 0 <= i < |s| => s[|s| - 1 - i])
  }

  /** `Array.prototype.findIndex` with the test `img.id === id`. */
  function FindIndex(s: seq<PlacedImage>, id: string): (k: int)
    ensures -1 <= k < |s|
    ensures k == -1 <==> forall j :: 0 <= j < |s| ==> s[j].id != id
    ensures k >= 0 ==> s[k].id == id && forall j :: 0 <= j < k ==> s[j].id != id
  {
    if |s| == 0 then -1
    else if s[0].id == id then 0
    else
      var k := FindIndex(s[1..], id);
      if k == -1 then -1 else k + 1
  }

  /** Whether some layer carries `id`. */
  predicate HasLayer(images: seq<PlacedImage>, id: string) {
    exists j :: 0 <= j < |images| && images[j].id == id
  }

  /** The panel position of the first row (from the top) that shows `id`. */
  function VisualIndex(images: seq<PlacedImage>, id: string): (k: nat)
    requires HasLayer(images, id)
    ensures k < |images|
    ensures images[|images| - 1 - k].id == id
    ensures forall j :: |images| - 1 - k < j < |images| ==> images[j].id != id
  {
    var r := Reverse(images);
    var k := FindIndex(r, id);
    assert k != -1 by {
      var j :| 0 <= j < |images| && images[j].id == id;
      assert r[|images| - 1 - j] == images[j];
    }
    assert forall j :: |images| - 1 - k < j < |images| ==> images[j] == r[|images| - 1 - j];
    k
  }

  // ---------------------------------------------------------------------------
  // Renaming (saveRename)
  // ---------------------------------------------------------------------------

  /**
   * The functional update handed to `setImages` by `saveRename`: the layer
   * whose id is `editingId` takes `tempName`, unless `tempName` is empty, in
   * which case it keeps its name.
   */
  function Renamed(prev: seq<PlacedImage>, editingId: string, tempName: string): (r: seq<PlacedImage>)
    ensures |r| == |prev|
    ensures forall i :: 0 <= i < |prev| ==>
      && r[i].id == prev[i].id && r[i].url == prev[i].url
      && r[i].x == prev[i].x && r[i].y == prev[i].y && r[i].zIndex == prev[i].zIndex
    ensures forall i :: 0 <= i < |prev| && prev[i].id != editingId ==> r[i] == prev[i]
    ensures forall i :: 0 <= i < |prev| && prev[i].id == editingId ==>
      r[i].name == (if tempName != "" then tempName else prev[i].name)
  {
    seq(|prev|, i requires 0 <= i < |prev| =>
      if prev[i].id == editingId then prev[i].(name := if tempName != "" then tempName else prev[i].name)
      else prev[i])
  }

  /** An empty replacement name leaves every layer as it was. */
  lemma RenameEmptyKeepsAll(prev: seq<PlacedImage>, editingId: string)
    ensures Renamed(prev, editingId, "") == prev
  {
    assert forall i :: 0 <= i < |prev| ==> Renamed(prev, editingId, "")[i] == prev[i];
  }

  /** Renaming twice with the same name is renaming once. */
  lemma RenameIdempotent(prev: seq<PlacedImage>, editingId: string, tempName: string)
    ensures Renamed(Renamed(prev, editingId, tempName), editingId, tempName) == Renamed(prev, editingId, tempName)
  {
    var once := Renamed(prev, editingId, tempName);
    assert forall i :: 0 <= i < |prev| ==> Renamed(once, editingId, tempName)[i] == once[i];
  }

  // ---------------------------------------------------------------------------
  // Drop slot while dragging (handleMouseMove)
  // ---------------------------------------------------------------------------

  /**
   * The slot `handleMouseMove` stores in `dropIndex`, or None when it stores
   * nothing. With no row under the cursor, the slot past the last row is
   * chosen once the cursor is within 50 pixels of the list's bottom; over a
   * row, the slot above it is chosen in the row's upper half and the slot below
   * it otherwise; over a row whose id is not a layer, nothing is chosen.
   */
  function DropSlot(images: seq<PlacedImage>, clientY: real, containerBottom: real, hover: Option<Hover>): (slot: Option<nat>)
    ensures slot.Some? ==> slot.value <= |images|
    ensures hover.None? ==> (slot.Some? <==> clientY > containerBottom - 50.0)
    ensures hover.None? && slot.Some? ==> slot.value == |images|
    ensures hover.Some? ==> (slot.Some? <==> HasLayer(images, hover.value.targetId))
    ensures hover.Some? && slot.Some? ==>
      var h := VisualIndex(images, hover.value.targetId);
      && (slot.value == h <==> clientY < hover.value.top + hover.value.height / 2.0)
      && (slot.value == h || slot.value == h + 1)
  {
    match hover
    case None =>
      if clientY > containerBottom - 50.0 then Some(|images|) else None
    case Some(row) =>
      var hovered := FindIndex(Reverse(images), row.targetId);
      if hovered == -1 then
        assert !HasLayer(images, row.targetId) by {
          forall j | 0 <= j < |images| ensures images[j].id != row.targetId {
            assert Reverse(images)[|images| - 1 - j] == images[j];
          }
        }
        None
      else
        Some(if clientY < row.top + row.height / 2.0 then hovered else hovered + 1)
  }

  /** The width the resize handle shows for the cursor's x position. */
  function ClampWidth(clientX: real): (w: real)
    ensures 180.0 <= w <= 500.0
    ensures 180.0 <= clientX <= 500.0 ==> w == clientX
    ensures clientX < 180.0 ==> w == 180.0
    ensures clientX > 500.0 ==> w == 500.0
  {
    var capped := if clientX < 500.0 then clientX else 500.0;
    if capped > 180.0 then capped else 180.0
  }

  // ---------------------------------------------------------------------------
  // Moving the dragged layer (handleMouseUp)
  // ---------------------------------------------------------------------------

  /** A layer without its z-index: what the reorder must carry over unchanged. */
  function Content(img: PlacedImage): PlacedImage {
    img.(zIndex := 0)
  }

  function Contents(s: seq<PlacedImage>): (r: seq<PlacedImage>)
    ensures |r| == |s|
    ensures forall i :: 0 <= i < |s| ==> r[i] == Content(s[i])
  {
    seq(|s|, i requires 0 <= i < |s| => Content(s[i]))
  }

  /** `s` with its element at `k` taken out. */
  function RemoveAt(s: seq<PlacedImage>, k: nat): (r: seq<PlacedImage>)
    requires k < |s|
    ensures |r| == |s| - 1
    ensures forall j :: 0 <= j < k ==> r[j] == s[j]
    ensures forall j :: k <= j < |r| ==> r[j] == s[j + 1]
  {
    s[..k] + s[k + 1..]
  }

  /** `s` with z-index `i` written into the layer at index `i`. */
  function Renumbered(s: seq<PlacedImage>): (r: seq<PlacedImage>)
    ensures |r| == |s|
    ensures forall i :: 0 <= i < |s| ==> r[i] == s[i].(zIndex := i)
  {
    seq(|s|, i requires 0 <= i < |s| => s[i].(zIndex := i))
  }

  /**
   * `splice`'s start argument as an index into a list of `len` elements: a
   * negative start counts back from the end, and both ends clamp.
   */
  function SpliceStart(start: int, len: nat): (k: nat)
    ensures k <= len
    ensures 0 <= start <= len ==> k == start
    ensures start > len ==> k == len
    ensures start < 0 && 0 <= len + start ==> k == len + start
    ensures len + start < 0 ==> k == 0
  {
    if start < 0 then (if len + start >= 0 then len + start else 0)
    else if start <= len then start else len
  }

  /** The drop slot once the dragged row has left the list (`adjIdx`); `oldIdx` may be -1. */
  function AdjustedIndex(oldIdx: int, dropIndex: nat): int {
    if oldIdx < dropIndex then dropIndex - 1 else dropIndex
  }

  /**
   * The panel position the first `splice` takes a row from: the first row
   * showing `draggedId`, or the last row (the bottom layer) when no row shows
   * it, since `findIndex` then yields -1.
   */
  function MovedRow(prev: seq<PlacedImage>, draggedId: string): (k: nat)
    requires |prev| > 0
    ensures k < |prev|
    ensures HasLayer(prev, draggedId) ==> k == VisualIndex(prev, draggedId)
    ensures !HasLayer(prev, draggedId) ==> k == |prev| - 1
  {
    var found := FindIndex(Reverse(prev), draggedId);
    assert found >= 0 ==> HasLayer(prev, draggedId) by {
      if found >= 0 {
        assert prev[|prev| - 1 - found] == Reverse(prev)[found];
      }
    }
    SpliceStart(found, |prev|)
  }

  /**
   * The panel position the second `splice` puts the row back at: `adjIdx`,
   * clamped to the shortened list (a stale `dropIndex` past the end lands at
   * the end, an `adjIdx` of -1 just above the last row).
   */
  function LandingRow(prev: seq<PlacedImage>, draggedId: string, dropIndex: nat): (k: nat)
    requires |prev| > 0
    ensures k < |prev|
    ensures HasLayer(prev, draggedId) && dropIndex <= |prev| ==>
      k == AdjustedIndex(VisualIndex(prev, draggedId), dropIndex)
    ensures HasLayer(prev, draggedId) && dropIndex > |prev| ==> k == |prev| - 1
  {
    SpliceStart(AdjustedIndex(FindIndex(Reverse(prev), draggedId), dropIndex), |prev| - 1)
  }

  /** `s` with `x` put in at index `k`. */
  function InsertAt(s: seq<PlacedImage>, k: nat, x: PlacedImage): (r: seq<PlacedImage>)
    requires k <= |s|
    ensures |r| == |s| + 1
    ensures r[k] == x
    ensures forall j :: 0 <= j < k ==> r[j] == s[j]
    ensures forall j :: k < j < |r| ==> r[j] == s[j - 1]
  {
    s[..k] + [x] + s[k..]
  }

  lemma ReverseReverse(s: seq<PlacedImage>)
    ensures Reverse(Reverse(s)) == s
  {
  }

  lemma ReverseRemoveAt(s: seq<PlacedImage>, k: nat)
    requires k < |s|
    ensures Reverse(RemoveAt(s, k)) == RemoveAt(Reverse(s), |s| - 1 - k)
  {
    var l := Reverse(RemoveAt(s, k));
    var r := RemoveAt(Reverse(s), |s| - 1 - k);
    forall j | 0 <= j < |l| ensures l[j] == r[j] {
      if j < |s| - 1 - k {
        assert l[j] == RemoveAt(s, k)[|s| - 2 - j] == s[|s| - 1 - j];
      } else {
        assert l[j] == RemoveAt(s, k)[|s| - 2 - j] == s[|s| - 2 - j];
      }
    }
  }

  lemma RemoveInserted(s: seq<PlacedImage>, k: nat, x: PlacedImage)
    requires k <= |s|
    ensures RemoveAt(InsertAt(s, k, x), k) == s
  {
  }

  lemma ContentsRemoveAt(s: seq<PlacedImage>, k: nat)
    requires k < |s|
    ensures Contents(RemoveAt(s, k)) == RemoveAt(Contents(s), k)
  {
  }

  lemma ContentsRenumbered(s: seq<PlacedImage>)
    ensures Contents(Renumbered(s)) == Contents(s)
  {
  }

  lemma MultisetReverse(s: seq<PlacedImage>)
    ensures multiset(Reverse(s)) == multiset(s)
    decreases |s|
  {
    if |s| > 0 {
      assert Reverse(s) == Reverse(s[1..]) + [s[0]];
      MultisetReverse(s[1..]);
      assert s == [s[0]] + s[1..];
    }
  }

  lemma MultisetMoved(v: seq<PlacedImage>, o: nat, at: nat)
    requires o < |v| && at < |v|
    ensures multiset(InsertAt(RemoveAt(v, o), at, v[o])) == multiset(v)
  {
    var w := RemoveAt(v, o);
    assert v == v[..o] + [v[o]] + v[o + 1..];
    assert w == v[..o] + v[o + 1..];
    assert w == w[..at] + w[at..];
    assert InsertAt(w, at, v[o]) == w[..at] + [v[o]] + w[at..];
    calc {
      multiset(InsertAt(w, at, v[o]));
      multiset(w[..at]) + multiset([v[o]]) + multiset(w[at..]);
      multiset(w) + multiset([v[o]]);
      multiset(v[..o]) + multiset(v[o + 1..]) + multiset([v[o]]);
      multiset(v);
    }
  }

  lemma ContentsReverse(s: seq<PlacedImage>)
    ensures Contents(Reverse(s)) == Reverse(Contents(s))
  {
  }

  lemma ContentsInsertAt(s: seq<PlacedImage>, k: nat, x: PlacedImage)
    requires k <= |s|
    ensures Contents(InsertAt(s, k, x)) == InsertAt(Contents(s), k, Content(x))
  {
  }

  /** Two lists that agree, up to z-index, at `k` and everywhere else agree everywhere. */
  lemma ContentsFromParts(a: seq<PlacedImage>, b: seq<PlacedImage>, k: nat)
    requires |a| == |b| && k < |a|
    requires Content(a[k]) == Content(b[k])
    requires Contents(RemoveAt(a, k)) == Contents(RemoveAt(b, k))
    ensures Contents(a) == Contents(b)
  {
    forall i | 0 <= i < |a| ensures Contents(a)[i] == Contents(b)[i] {
      if i < k {
        assert Contents(RemoveAt(a, k))[i] == Contents(RemoveAt(b, k))[i];
      } else if i > k {
        assert Contents(RemoveAt(a, k))[i - 1] == Contents(RemoveAt(b, k))[i - 1];
      }
    }
  }

  /**
   * The update `handleMouseUp` hands to `setImages`: in panel order, take
   * the row at `MovedRow` out, put it back at `LandingRow`, turn the list back
   * into canvas order and write every layer's index into its z-index.
   *
   * The result is a permutation of `prev` up to z-index, the moved layer sits
   * at the landing row and the other layers keep their relative order, the
   * z-indices are exactly 0..n-1, and dropping a row just above or below
   * itself changes nothing but z-indices.
   */
  method Reorder(prev: seq<PlacedImage>, draggedId: string, dropIndex: nat) returns (next: seq<PlacedImage>)
    requires |prev| > 0
    ensures Moved(prev, draggedId, dropIndex, next)
    ensures HasLayer(prev, draggedId) ==> next[|prev| - 1 - LandingRow(prev, draggedId, dropIndex)].id == draggedId
    ensures HasLayer(prev, draggedId) &&
            (dropIndex == VisualIndex(prev, draggedId) || dropIndex == VisualIndex(prev, draggedId) + 1) ==>
      Contents(next) == Contents(prev)
  {
    var visualOrder := Reverse(prev);
    var oldIdx := FindIndex(visualOrder, draggedId);
    var from := SpliceStart(oldIdx, |visualOrder|);
    var movedItem := visualOrder[from];
    var newVisualOrder := RemoveAt(visualOrder, from);
    var adjIdx: int := dropIndex;
    if oldIdx < dropIndex {
      adjIdx := adjIdx - 1;
    }
    var at := SpliceStart(adjIdx, |newVisualOrder|);
    var inserted := InsertAt(newVisualOrder, at, movedItem);
    next := Renumbered(Reverse(inserted));

    assert from == MovedRow(prev, draggedId) && at == LandingRow(prev, draggedId, dropIndex);
    ReorderOutcome(prev, draggedId, dropIndex, next);
  }

  /** Reorder's postconditions, for the list it builds. */
  lemma ReorderOutcome(prev: seq<PlacedImage>, draggedId: string, dropIndex: nat, next: seq<PlacedImage>)
    requires |prev| > 0
    requires
      var from := MovedRow(prev, draggedId);
      next == Renumbered(Reverse(InsertAt(RemoveAt(Reverse(prev), from), LandingRow(prev, draggedId, dropIndex), Reverse(prev)[from])))
    ensures Moved(prev, draggedId, dropIndex, next)
    ensures HasLayer(prev, draggedId) ==> next[|prev| - 1 - LandingRow(prev, draggedId, dropIndex)].id == draggedId
    ensures HasLayer(prev, draggedId) &&
            (dropIndex == VisualIndex(prev, draggedId) || dropIndex == VisualIndex(prev, draggedId) + 1) ==>
      Contents(next) == Contents(prev)
  {
    var from := MovedRow(prev, draggedId);
    var at := LandingRow(prev, draggedId, dropIndex);
    var inserted := InsertAt(RemoveAt(Reverse(prev), from), at, Reverse(prev)[from]);
    ReorderFacts(prev, from, at, inserted, next);
    if HasLayer(prev, draggedId) {
      assert prev[|prev| - 1 - from].id == draggedId;
      var visual := VisualIndex(prev, draggedId);
      if dropIndex == visual || dropIndex == visual + 1 {
        StaysPut(prev, draggedId, dropIndex);
      }
    }
  }

  /**
   * `next` is what Reorder makes of `prev`: the row at `MovedRow` moved to
   * `LandingRow`.
   */
  ghost predicate Moved(prev: seq<PlacedImage>, draggedId: string, dropIndex: nat, next: seq<PlacedImage>)
    requires |prev| > 0
  {
    MovedAt(prev, MovedRow(prev, draggedId), LandingRow(prev, draggedId, dropIndex), next)
  }

  /**
   * `next` is `prev` with the row at panel position `from` moved to panel
   * position `at`: the same layers up to z-index, z-indices 0..n-1, the moved
   * layer at `at` and the other layers in their order.
   */
  ghost predicate MovedAt(prev: seq<PlacedImage>, from: nat, at: nat, next: seq<PlacedImage>)
    requires from < |prev| && at < |prev|
  {
    && |next| == |prev|
    && multiset(Contents(next)) == multiset(Contents(prev))
    && (forall i :: 0 <= i < |next| ==> next[i].zIndex == i)
    && Content(next[|prev| - 1 - at]) == Content(prev[|prev| - 1 - from])
    && Contents(RemoveAt(next, |prev| - 1 - at)) == Contents(RemoveAt(prev, |prev| - 1 - from))
  }

  /** Dropping a row into the slot just above or just below it lands it where it was. */
  lemma StaysPut(prev: seq<PlacedImage>, draggedId: string, dropIndex: nat)
    requires |prev| > 0 && HasLayer(prev, draggedId)
    requires dropIndex == VisualIndex(prev, draggedId) || dropIndex == VisualIndex(prev, draggedId) + 1
    ensures LandingRow(prev, draggedId, dropIndex) == MovedRow(prev, draggedId)
  {
  }

  /** What moving the row at panel position `from` to panel position `at` does. */
  lemma ReorderFacts(prev: seq<PlacedImage>, from: nat, at: nat, inserted: seq<PlacedImage>, next: seq<PlacedImage>)
    requires from < |prev| && at < |prev|
    requires inserted == InsertAt(RemoveAt(Reverse(prev), from), at, Reverse(prev)[from])
    requires next == Renumbered(Reverse(inserted))
    ensures MovedAt(prev, from, at, next)
    ensures at == from ==> Contents(next) == Contents(prev)
  {
    MovedContent(prev, from, at, inserted, next);
    RestInOrder(prev, from, at, inserted, next);
    Permuted(prev, from, at, inserted, next);
    if at == from {
      ContentsFromParts(next, prev, |prev| - 1 - from);
    }
  }

  /** The moved row keeps its content. */
  lemma MovedContent(prev: seq<PlacedImage>, from: nat, at: nat, inserted: seq<PlacedImage>, next: seq<PlacedImage>)
    requires from < |prev| && at < |prev|
    requires inserted == InsertAt(RemoveAt(Reverse(prev), from), at, Reverse(prev)[from])
    requires next == Renumbered(Reverse(inserted))
    ensures Content(next[|prev| - 1 - at]) == Content(prev[|prev| - 1 - from])
  {
    assert Reverse(prev)[from] == prev[|prev| - 1 - from];
    assert next[|prev| - 1 - at] == inserted[at].(zIndex := |prev| - 1 - at);
  }

  /** The reorder only rearranges the layers (up to z-index). */
  lemma Permuted(prev: seq<PlacedImage>, from: nat, at: nat, inserted: seq<PlacedImage>, next: seq<PlacedImage>)
    requires from < |prev| && at < |prev|
    requires inserted == InsertAt(RemoveAt(Reverse(prev), from), at, Reverse(prev)[from])
    requires next == Renumbered(Reverse(inserted))
    ensures multiset(Contents(next)) == multiset(Contents(prev))
  {
    var cv := Contents(Reverse(prev));
    calc {
      Contents(next);
      { ContentsRenumbered(Reverse(inserted)); }
      Contents(Reverse(inserted));
      { ContentsReverse(inserted); }
      Reverse(Contents(inserted));
      { ContentsInsertAt(RemoveAt(Reverse(prev), from), at, Reverse(prev)[from]);
        ContentsRemoveAt(Reverse(prev), from); }
      Reverse(InsertAt(RemoveAt(cv, from), at, cv[from]));
    }
    MultisetReverse(InsertAt(RemoveAt(cv, from), at, cv[from]));
    MultisetMoved(cv, from, at);
    ContentsReverse(prev);
    MultisetReverse(Contents(prev));
  }

  /** The rows other than the moved one keep their order through the reorder. */
  lemma RestInOrder(prev: seq<PlacedImage>, from: nat, at: nat, inserted: seq<PlacedImage>, next: seq<PlacedImage>)
    requires from < |prev| && at < |prev|
    requires inserted == InsertAt(RemoveAt(Reverse(prev), from), at, Reverse(prev)[from])
    requires next == Renumbered(Reverse(inserted))
    ensures Contents(RemoveAt(next, |prev| - 1 - at)) == Contents(RemoveAt(prev, |prev| - 1 - from))
  {
    RenumberedRemoveAt(Reverse(inserted), |prev| - 1 - at);
    RestReversed(prev, from, at, inserted);
  }

  /** Renumbering does not change the content of the rows left after a removal. */
  lemma RenumberedRemoveAt(s: seq<PlacedImage>, k: nat)
    requires k < |s|
    ensures Contents(RemoveAt(Renumbered(s), k)) == Contents(RemoveAt(s, k))
  {
    ContentsRemoveAt(Renumbered(s), k);
    ContentsRenumbered(s);
    ContentsRemoveAt(s, k);
  }

  /** In canvas order, the list without the moved row is `prev` without it. */
  lemma RestReversed(prev: seq<PlacedImage>, from: nat, at: nat, inserted: seq<PlacedImage>)
    requires from < |prev| && at < |prev|
    requires inserted == InsertAt(RemoveAt(Reverse(prev), from), at, Reverse(prev)[from])
    ensures RemoveAt(Reverse(inserted), |prev| - 1 - at) == RemoveAt(prev, |prev| - 1 - from)
  {
    ReverseRemoveAt(inserted, at);
    RemoveInserted(RemoveAt(Reverse(prev), from), at, Reverse(prev)[from]);
    ReverseRemoveAt(Reverse(prev), from);
    ReverseReverse(prev);
  }

  // ---------------------------------------------------------------------------
  // The panel's state and its event handlers
  // ---------------------------------------------------------------------------

  /**
   * The React state of the panel together with the parent's `images`, which
   * the panel changes through `setImages`. `ghostWidth` is the inline width of
   * the resize guide, `resizing` the `isResizing` ref.
   */
  class LayerPanel {
    var images: seq<PlacedImage>
    var sidebarWidth: int
    var ghostWidth: real
    var resizing: bool
    var draggedId: Option<string>
    var dropIndex: Option<nat>
    var editingId: Option<string>
    var tempName: string

    /**
     * The resize guide always shows a clamped width, and the committed width
     * is one too: both start at 256, mouse moves write `ClampWidth`'s value and
     * mouse up commits its floor.
     */
    predicate Valid()
      reads this
    {
      180.0 <= ghostWidth <= 500.0 && 180 <= sidebarWidth <= 500
    }

    constructor (images0: seq<PlacedImage>)
      ensures images == images0 && sidebarWidth == 256 && ghostWidth == 256.0 && !resizing
      ensures draggedId == None && dropIndex == None && editingId == None && tempName == ""
      ensures Valid()
    {
      images := images0;
      sidebarWidth := 256;
      ghostWidth := 256.0;
      resizing := false;
      draggedId := None;
      dropIndex := None;
      editingId := None;
      tempName := "";
    }

    /** Clicking a layer's name opens the editor on its current name. */
    method StartEditing(img: PlacedImage)
      requires Valid()
      modifies this`editingId, this`tempName
      ensures Valid()
      ensures editingId == Some(img.id) && tempName == img.name
    {
      editingId := Some(img.id);
      tempName := img.name;
    }

    /** Enter or blur in the name editor. */
    method SaveRename()
      requires Valid()
      modifies this`images, this`editingId
      ensures Valid()
      ensures Truthy(old(editingId)) ==> images == Renamed(old(images), old(editingId).value, tempName)
      ensures !Truthy(old(editingId)) ==> images == old(images)
      ensures editingId == None
    {
      if Truthy(editingId) {
        images := Renamed(images, editingId.value, tempName);
      }
      editingId := None;
    }

    /** Pressing on a row starts a drag unless the press was on its button or input. */
    method DragStart(id: string, onControl: bool)
      requires Valid()
      modifies this`draggedId
      ensures Valid()
      ensures draggedId == if onControl then old(draggedId) else Some(id)
    {
      if !onControl {
        draggedId := Some(id);
      }
    }

    /** Pressing on the resize handle. */
    method ResizeStart()
      requires Valid()
      modifies this`resizing
      ensures Valid()
      ensures resizing
    {
      resizing := true;
    }

    /**
     * A mouse move: while resizing it only moves the resize guide; while a
     * truthy `draggedId` is held it updates the drop slot.
     */
    method MouseMove(clientX: real, clientY: real, containerBottom: real, hover: Option<Hover>)
      requires Valid()
      modifies this`ghostWidth, this`dropIndex
      ensures Valid()
      ensures resizing ==> ghostWidth == ClampWidth(clientX) && dropIndex == old(dropIndex)
      ensures !resizing ==> ghostWidth == old(ghostWidth)
      ensures !resizing && Truthy(draggedId) && DropSlot(images, clientY, containerBottom, hover).Some? ==>
        dropIndex == DropSlot(images, clientY, containerBottom, hover)
      ensures !resizing && !(Truthy(draggedId) && DropSlot(images, clientY, containerBottom, hover).Some?) ==>
        dropIndex == old(dropIndex)
    {
      if resizing {
        ghostWidth := ClampWidth(clientX);
        return;
      }
      if !Truthy(draggedId) {
        return;
      }
      var slot := DropSlot(images, clientY, containerBottom, hover);
      if slot.Some? {
        dropIndex := slot;
      }
    }

    /**
     * Releasing the mouse: a resize commits the guide's width (`parseInt` of
     * the guide's pixel width, which `Valid` keeps positive, is its floor); a drag with both a dragged id and a
     * drop slot moves the layer; the drag state is cleared in every case.
     */
    method MouseUp()
      requires Valid()
      requires draggedId.Some? && dropIndex.Some? ==> |images| > 0
      modifies this`resizing, this`sidebarWidth, this`images, this`draggedId, this`dropIndex
      ensures Valid()
      ensures !resizing
      ensures sidebarWidth == if old(resizing) then ghostWidth.Floor else old(sidebarWidth)
      ensures old(draggedId).None? || old(dropIndex).None? ==> images == old(images)
      ensures old(draggedId).Some? && old(dropIndex).Some? ==>
        Moved(old(images), old(draggedId).value, old(dropIndex).value, images)
      ensures draggedId == None && dropIndex == None
    {
      if resizing {
        resizing := false;
        sidebarWidth := ghostWidth.Floor;
      }
      Drop();
    }

    /** The drag half of a mouse release: move the dragged layer if a slot was chosen, then clear the drag. */
    method Drop()
      requires draggedId.Some? && dropIndex.Some? ==> |images| > 0
      modifies this`images, this`draggedId, this`dropIndex
      ensures old(draggedId).None? || old(dropIndex).None? ==> images == old(images)
      ensures old(draggedId).Some? && old(dropIndex).Some? ==>
        Moved(old(images), old(draggedId).value, old(dropIndex).value, images)
      ensures draggedId == None && dropIndex == None
    {
      if draggedId.Some? && dropIndex.Some? {
        var next := Reorder(images, draggedId.value, dropIndex.value);
        images := next;
      }
      draggedId := None;
      dropIndex := None;
    }
  }
}
