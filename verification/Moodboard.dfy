/** The canvas of components/features/moodboard/MoodboardBuilder.tsx: placing
    stickers from the palette, turning, resizing, dragging and deleting them.
    Coordinates, angles and scales are exact reals. */
module Moodboard {
  import opened Wrappers
  import Lists
  import opened Stickers

  datatype PlacedSticker = PlacedSticker(
    id: string, imageUrl: string,
    x: real, y: real, rotation: real, scale: real,
    zIndex: int, timeOfDay: TimeOfDay)

  /** The canvas size `getBoundingClientRect` reports. */
  datatype Bounds = Bounds(width: real, height: real)

  datatype Turn = TurnLeft | TurnRight
  datatype Resize = Grow | Shrink

  /** The tab the palette opens on. */
  const InitialTab := Anytime
  /** The room kept free at the right and bottom edge for a sticker. */
  const StickerRoom: real := 100.0
  const RotationStep: real := 15.0
  const ScaleStep: real := 0.1

  /** A value `Math.random()` may return. */
  predicate UnitDraw(r: real) {
    0.0 <= r < 1.0
  }

  /** `v` lies between 0 and `limit`, whichever side of 0 `limit` is on;
      the limit itself is reached only when it is 0. */
  predicate Spread(v: real, limit: real) {
    if limit >= 0.0 then 0.0 <= v <= limit && (v == limit ==> limit == 0.0)
    else limit < v <= 0.0
  }

  lemma ScaledDrawSpread(r: real, limit: real)
    requires UnitDraw(r)
    ensures Spread(r * limit, limit)
  {
    if limit >= 0.0 {
      assert r * limit <= 1.0 * limit;
    } else {
      assert r * limit >= 1.0 * limit;
    }
  }

  /** The sticker `handleStickerClick` creates: scale 1, a tilt in [-15, 15),
      and a position in the canvas less the sticker's room. */
  function NewPlaced(s: Sticker, b: Bounds, freshId: string, zIndex: int, rx: real, ry: real, rr: real): (p: PlacedSticker)
    requires UnitDraw(rx) && UnitDraw(ry) && UnitDraw(rr)
    ensures p.id == freshId && p.imageUrl == s.imageUrl && p.timeOfDay == s.timeOfDay
    ensures p.scale == 1.0 && p.zIndex == zIndex
    ensures -RotationStep <= p.rotation < RotationStep
    ensures Spread(p.x, b.width - StickerRoom) && Spread(p.y, b.height - StickerRoom)
  {
    ScaledDrawSpread(rx, b.width - StickerRoom);
    ScaledDrawSpread(ry, b.height - StickerRoom);
    PlacedSticker(freshId, s.imageUrl,
      rx * (b.width - StickerRoom), ry * (b.height - StickerRoom), rr * 30.0 - 15.0,
      1.0, zIndex, s.timeOfDay)
  }

  /** `handleStickerClick` as written: nothing without a canvas; otherwise the
      new sticker goes last with z-index one more than the number of stickers. */
  function Place(board: seq<PlacedSticker>, s: Sticker, bounds: Option<Bounds>, freshId: string,
                 rx: real, ry: real, rr: real): (r: seq<PlacedSticker>)
    requires UnitDraw(rx) && UnitDraw(ry) && UnitDraw(rr)
    ensures bounds.None? ==> r == board
    ensures bounds.Some? ==>
      && |r| == |board| + 1 && r[..|board|] == board
      && r[|board|] == NewPlaced(s, bounds.value, freshId, |board| + 1, rx, ry, rr)
  {
    match bounds
    case None => board
    case Some(b) => board + [NewPlaced(s, b, freshId, |board| + 1, rx, ry, rr)]
  }

  /** One more than the highest z-index on the board, 1 on an empty board. */
  function TopZ(board: seq<PlacedSticker>): (z: int)
    ensures z >= 1
    ensures forall i :: 0 <= i < |board| ==> board[i].zIndex < z
    ensures z == 1 || exists i :: 0 <= i < |board| && board[i].zIndex == z - 1
  {
    if |board| == 0 then 1
    else
      var rest := TopZ(board[1..]);
      if board[0].zIndex + 1 > rest then board[0].zIndex + 1 else rest
  }

  /** `handleStickerClick` with the stacking evidently intended: the new
      sticker's z-index exceeds every z-index already on the board. */
  function PlaceOnTop(board: seq<PlacedSticker>, s: Sticker, bounds: Option<Bounds>, freshId: string,
                      rx: real, ry: real, rr: real): (r: seq<PlacedSticker>)
    requires UnitDraw(rx) && UnitDraw(ry) && UnitDraw(rr)
    ensures bounds.None? ==> r == board
    ensures bounds.Some? ==>
      && |r| == |board| + 1 && r[..|board|] == board
      && r[|board|] == NewPlaced(s, bounds.value, freshId, TopZ(board), rx, ry, rr)
      && forall i :: 0 <= i < |board| ==> r[i].zIndex < r[|board|].zIndex
  {
    match bounds
    case None => board
    case Some(b) => board + [NewPlaced(s, b, freshId, TopZ(board), rx, ry, rr)]
  }

  /** As written, a sticker placed after deletions can get a lower z-index
      than one already on the board: with three stickers placed (z-indices
      1, 2, 3) and the first two deleted, the next one gets z-index 2 and
      is drawn beneath the survivor. */
  lemma PlaceCanLandBelow(s: Sticker, b: Bounds, survivor: PlacedSticker, freshId: string)
    requires survivor.zIndex == 3
    ensures var r := Place([survivor], s, Some(b), freshId, 0.0, 0.0, 0.5);
      r[1].zIndex < r[0].zIndex
    ensures var r := PlaceOnTop([survivor], s, Some(b), freshId, 0.0, 0.0, 0.5);
      r[1].zIndex > r[0].zIndex
  {
  }

  /** The board after placing three stickers and deleting the first two has
      exactly one sticker, with z-index 3. */
  lemma SurvivorIsReachable(s: Sticker, b: Bounds, i1: string, i2: string, i3: string)
    requires i1 != i2 && i1 != i3 && i2 != i3
    ensures var b3 := Place(Place(Place([], s, Some(b), i1, 0.0, 0.0, 0.5), s, Some(b), i2, 0.0, 0.0, 0.5), s, Some(b), i3, 0.0, 0.0, 0.5);
      var after := Delete(Delete(b3, i1), i2);
      |after| == 1 && after[0].zIndex == 3 && after[0].id == i3
  {
    var b1 := Place([], s, Some(b), i1, 0.0, 0.0, 0.5);
    var b2 := Place(b1, s, Some(b), i2, 0.0, 0.0, 0.5);
    var b3 := Place(b2, s, Some(b), i3, 0.0, 0.0, 0.5);
    assert b3 == [b2[0], b2[1], b3[2]];
    DeleteFirst(b3, i1);
    var d1 := Delete(b3, i1);
    DeleteFirst(d1, i2);
  }

  /** Deleting the id of the first sticker, which no other sticker has, drops exactly that sticker. */
  lemma DeleteFirst(board: seq<PlacedSticker>, id: string)
    requires |board| > 0 && board[0].id == id
    requires forall i :: 1 <= i < |board| ==> board[i].id != id
    ensures Delete(board, id) == board[1..]
  {
    assert Delete(board, id) == Delete(board[1..], id);
    DeleteAbsent(board[1..], id);
  }

  /** The signed rotation change of a turn button. */
  function TurnDelta(t: Turn): real {
    match t
    case TurnLeft => -RotationStep
    case TurnRight => RotationStep
  }

  /** The signed scale change of a resize button. */
  function ResizeDelta(d: Resize): real {
    match d
    case Grow => ScaleStep
    case Shrink => -ScaleStep
  }

  /** `handleRotateSticker`: every sticker with the id turns by 15 degrees in
      the chosen direction; nothing else changes. */
  function Rotate(board: seq<PlacedSticker>, id: string, t: Turn): (r: seq<PlacedSticker>)
    ensures |r| == |board|
    ensures forall i :: 0 <= i < |board| ==>
      r[i].rotation == board[i].rotation + (if board[i].id == id then TurnDelta(t) else 0.0)
    ensures forall i :: 0 <= i < |board| ==> r[i].(rotation := board[i].rotation) == board[i]
  {
    seq(|board|, i requires 0 <= i < |board| =>
      if board[i].id == id then board[i].(rotation := board[i].rotation + TurnDelta(t)) else board[i])
  }

  /** `handleScaleSticker`: every sticker with the id grows or shrinks by 0.1; nothing else changes. */
  function Scale(board: seq<PlacedSticker>, id: string, d: Resize): (r: seq<PlacedSticker>)
    ensures |r| == |board|
    ensures forall i :: 0 <= i < |board| ==>
      r[i].scale == board[i].scale + (if board[i].id == id then ResizeDelta(d) else 0.0)
    ensures forall i :: 0 <= i < |board| ==> r[i].(scale := board[i].scale) == board[i]
  {
    seq(|board|, i requires 0 <= i < |board| =>
      if board[i].id == id then board[i].(scale := board[i].scale + ResizeDelta(d)) else board[i])
  }

  /** The `onDragEnd` handler: every sticker with the dragged element's id
      stores the `x` and `y` that Draggable reports for an `'x,y'` drag (its
      translation, which the page then renders as `left` and `top`); nothing
      else changes. */
  function DragEnd(board: seq<PlacedSticker>, id: string, x: real, y: real): (r: seq<PlacedSticker>)
    ensures |r| == |board|
    ensures forall i :: 0 <= i < |board| && board[i].id == id ==> r[i].x == x && r[i].y == y
    ensures forall i :: 0 <= i < |board| && board[i].id != id ==> r[i] == board[i]
    ensures forall i :: 0 <= i < |board| ==> r[i].(x := board[i].x, y := board[i].y) == board[i]
  {
    seq(|board|, i requires 0 <= i < |board| =>
      if board[i].id == id then board[i].(x := x, y := y) else board[i])
  }

  /** `handleDeleteSticker` once its shrink animation completes: every sticker with the id goes. */
  function Delete(board: seq<PlacedSticker>, id: string): (r: seq<PlacedSticker>)
    ensures forall i :: 0 <= i < |r| ==> r[i].id != id && r[i] in board
    ensures forall i :: 0 <= i < |board| && board[i].id != id ==> board[i] in r
  {
    Lists.Filter(board, (p: PlacedSticker) => p.id != id)
  }

  /** Deleting removes every copy of the stickers with the id and keeps every
      other sticker as many times as the board held it. */
  lemma DeleteMultiset(board: seq<PlacedSticker>, id: string)
    ensures forall p :: multiset(Delete(board, id))[p] == if p.id == id then 0 else multiset(board)[p]
  {
    Lists.FilterMultiset(board, (p: PlacedSticker) => p.id != id);
  }

  /** Turning left and then right (or right then left) restores the board. */
  lemma RotateBack(board: seq<PlacedSticker>, id: string)
    ensures Rotate(Rotate(board, id, TurnLeft), id, TurnRight) == board
    ensures Rotate(Rotate(board, id, TurnRight), id, TurnLeft) == board
  {
  }

  /** Growing and then shrinking (or the reverse) restores the board. */
  lemma ScaleBack(board: seq<PlacedSticker>, id: string)
    ensures Scale(Scale(board, id, Grow), id, Shrink) == board
    ensures Scale(Scale(board, id, Shrink), id, Grow) == board
  {
  }

  /** No floor is enforced: shrinking a sticker whose scale is below one step makes its scale negative. */
  lemma ShrinkHasNoFloor(board: seq<PlacedSticker>, id: string, i: nat)
    requires i < |board| && board[i].id == id && board[i].scale < ScaleStep
    ensures Scale(board, id, Shrink)[i].scale < 0.0
  {
  }

  /** Two turns in the same direction add up to 30 degrees on the turned stickers. */
  lemma RotateTwice(board: seq<PlacedSticker>, id: string, t: Turn)
    ensures forall i :: 0 <= i < |board| && board[i].id == id ==>
      Rotate(Rotate(board, id, t), id, t)[i].rotation == board[i].rotation + 2.0 * TurnDelta(t)
  {
  }

  /** Only the last drop counts: dropping twice equals dropping at the second position. */
  lemma DragEndLastWins(board: seq<PlacedSticker>, id: string, x1: real, y1: real, x2: real, y2: real)
    ensures DragEnd(DragEnd(board, id, x1, y1), id, x2, y2) == DragEnd(board, id, x2, y2)
  {
  }

  /** Deleting an id no sticker has leaves the board as it is. */
  lemma DeleteAbsent(board: seq<PlacedSticker>, id: string)
    requires forall i :: 0 <= i < |board| ==> board[i].id != id
    ensures Delete(board, id) == board
  {
    Lists.FilterKeepsAll(board, (p: PlacedSticker) => p.id != id);
  }

  /** Placing a sticker under an id no other sticker has and then deleting it restores the board. */
  lemma PlaceThenDelete(board: seq<PlacedSticker>, s: Sticker, b: Bounds, freshId: string, rx: real, ry: real, rr: real)
    requires UnitDraw(rx) && UnitDraw(ry) && UnitDraw(rr)
    requires forall i :: 0 <= i < |board| ==> board[i].id != freshId
    ensures Delete(Place(board, s, Some(b), freshId, rx, ry, rr), freshId) == board
  {
    var p := NewPlaced(s, b, freshId, |board| + 1, rx, ry, rr);
    assert Place(board, s, Some(b), freshId, rx, ry, rr) == board + [p];
    Lists.FilterAppend(board, [p], (q: PlacedSticker) => q.id != freshId);
    DeleteAbsent(board, freshId);
    Lists.FilterDropsAll([p], (q: PlacedSticker) => q.id != freshId);
  }

  /** Deleting the given ids one after another. */
  function DeleteEach(board: seq<PlacedSticker>, ids: seq<string>): seq<PlacedSticker>
    decreases |ids|
  {
    if |ids| == 0 then board else DeleteEach(Delete(board, ids[0]), ids[1..])
  }

  /** Deleting ids one after another keeps exactly the stickers whose id is
      none of them, in their order on the board. */
  lemma {:induction false} DeleteEachKeepsOthers(board: seq<PlacedSticker>, ids: seq<string>)
    ensures DeleteEach(board, ids) == Lists.Filter(board, (p: PlacedSticker) => p.id !in ids)
    decreases |ids|
  {
    if |ids| == 0 {
      Lists.FilterKeepsAll(board, (p: PlacedSticker) => p.id !in ids);
    } else {
      var id, rest := ids[0], ids[1..];
      assert ids == [id] + rest;
      DeleteEachKeepsOthers(Delete(board, id), rest);
      Lists.FilterFilter(board, (p: PlacedSticker) => p.id != id, (p: PlacedSticker) => p.id !in rest,
        (p: PlacedSticker) => p.id !in ids);
    }
  }

  /** The "Clear All" button. */
  function ClearAll(board: seq<PlacedSticker>): (r: seq<PlacedSticker>)
    ensures forall i :: 0 <= i < |board| ==> board[i] !in r
    ensures TopZ(r) == 1
  {
    []
  }

  /** "Clear All" leaves the board as deleting every sticker on it, one by one, would. */
  lemma ClearAllDeletesEverything(board: seq<PlacedSticker>, ids: seq<string>)
    requires forall i :: 0 <= i < |board| ==> board[i].id in ids
    ensures DeleteEach(board, ids) == ClearAll(board)
  {
    DeleteEachKeepsOthers(board, ids);
    Lists.FilterDropsAll(board, (p: PlacedSticker) => p.id !in ids);
  }

  /** After "Clear All" the stacking starts afresh: the next sticker is alone
      with z-index 1, where the corrected placement would also put it. */
  lemma ClearAllRestartsStacking(board: seq<PlacedSticker>, s: Sticker, b: Bounds, freshId: string,
                                 rx: real, ry: real, rr: real)
    requires UnitDraw(rx) && UnitDraw(ry) && UnitDraw(rr)
    ensures var r := Place(ClearAll(board), s, Some(b), freshId, rx, ry, rr);
      |r| == 1 && r[0].zIndex == 1 && r[0].id == freshId
    ensures Place(ClearAll(board), s, Some(b), freshId, rx, ry, rr) ==
      PlaceOnTop(ClearAll(board), s, Some(b), freshId, rx, ry, rr)
  {
  }
}
