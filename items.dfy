/** Falling items, the basket's box test, item spawning and basket movement. */
module Items {
  import opened Wrappers
  import opened Draws

  /** The three `data-type` values a falling item can carry. */
  datatype Kind = Baby | Poop | Barf

  /** A falling item as the page keeps it: its kind, its `top` style and its
      `data-speed` attribute as `parseFloat` reads them back (None where that
      yields NaN), and its horizontal offset in pixels inside the play area. */
  datatype Item = Item(kind: Kind, top: Option<real>, speed: Option<real>, left: real)

  /** A bounding rectangle; y grows downwards. */
  datatype Rect = Rect(left: real, top: real, right: real, bottom: real)

  /** Width and height of a falling item (the `.falling-item` style). */
  const ItemSize: real := 40.0
  /** Amount taken off each side of the basket by the catch test. */
  const CatchInset: real := 20.0
  /** Speed used when `data-speed` does not give a usable number. */
  const DefaultSpeed: real := 2.0
  /** Vertical position a new item starts from, above the play area. */
  const SpawnTop: real := -40.0
  /** The `basketWidth` variable, in pixels. */
  const BasketWidth: real := 80.0
  /** The `basketSpeed` variable: percentage points per frame. */
  const BasketStep: real := 2.0

  function Max(a: real, b: real): real { if a >= b then a else b }
  function Min(a: real, b: real): real { if a <= b then a else b }

  /** `parseFloat(x) || d`: NaN and 0 are both falsy, so both give `d`. */
  function OrDefault(v: Option<real>, d: real): real {
    if v.Some? && v.value != 0.0 then v.value else d
  }

  /** The `newTop` one frame computes for an item. */
  function NewTop(it: Item): (t: real)
    ensures it.top.Some? && it.speed.Some? && it.speed.value != 0.0 ==> t == it.top.value + it.speed.value
    ensures it.top.None? ==> t == OrDefault(it.speed, DefaultSpeed)
    ensures it.speed.None? || it.speed == Some(0.0) ==> t == OrDefault(it.top, 0.0) + DefaultSpeed
  {
    OrDefault(it.top, 0.0) + OrDefault(it.speed, DefaultSpeed)
  }

  /** The item after one frame: only its `top` has changed. */
  function Advance(it: Item): Item {
    it.(top := Some(NewTop(it)))
  }

  /** The item's box once it stands at `top`. */
  function Box(it: Item, top: real): Rect {
    Rect(it.left, top, it.left + ItemSize, top + ItemSize)
  }

  /** The catch test: the boxes are not separated, where the basket's left
      and right edges are each moved inwards by `CatchInset`. Touching edges
      count as a catch. */
  function IsColliding(item: Rect, basket: Rect): (r: bool)
    ensures item.right < basket.left + CatchInset ==> !r
    ensures item.left > basket.right - CatchInset ==> !r
    ensures item.bottom < basket.top || item.top > basket.bottom ==> !r
    ensures (item.right == basket.left + CatchInset && item.left <= basket.right - CatchInset &&
             item.bottom == basket.top && item.top <= basket.bottom) ==> r
  {
    !(item.bottom < basket.top ||
      item.top > basket.bottom ||
      item.right < basket.left + CatchInset ||
      item.left > basket.right - CatchInset)
  }

  /** Two closed intervals share a point. */
  predicate Overlap(a1: real, a2: real, b1: real, b2: real) {
    Max(a1, b1) <= Min(a2, b2)
  }

  predicate WellFormed(r: Rect) {
    r.left <= r.right && r.top <= r.bottom
  }

  /** For boxes that are proper rectangles, and a basket at least two insets
      wide, the catch test is the intersection of the item's box with the
      basket's box narrowed by `CatchInset` on both sides. */
  lemma CollidingIffNarrowedOverlap(item: Rect, basket: Rect)
    requires WellFormed(item) && WellFormed(basket)
    requires basket.right - basket.left >= 2.0 * CatchInset
    ensures IsColliding(item, basket) <==>
              Overlap(item.left, item.right, basket.left + CatchInset, basket.right - CatchInset) &&
              Overlap(item.top, item.bottom, basket.top, basket.bottom)
  {
  }

  /** What one frame does to one item. */
  datatype Outcome = Caught | Dropped | Live

  /** What one frame reads from the page: the basket's box, in the play
      area's coordinates, and the play area's height. */
  datatype Scene = Scene(basket: Rect, areaHeight: real)

  /** The catch test runs first on the moved item; only an item that was not
      caught can leave through the bottom, and only when `newTop` is below
      the play area's height. */
  function Classify(it: Item, sc: Scene): (o: Outcome)
    ensures o == Caught <==> IsColliding(Box(it, NewTop(it)), sc.basket)
    ensures o == Dropped <==> !IsColliding(Box(it, NewTop(it)), sc.basket) && NewTop(it) > sc.areaHeight
  {
    var t := NewTop(it);
    if IsColliding(Box(it, t), sc.basket) then Caught
    else if t > sc.areaHeight then Dropped
    else Live
  }

  /** The random draws `spawnItem` makes: kind, speed, horizontal position. */
  datatype SpawnDraw = SpawnDraw(kind: real, speed: real, left: real)

  predicate ValidSpawnDraw(d: SpawnDraw) {
    IsUnit(d.kind) && IsUnit(d.speed) && IsUnit(d.left)
  }

  /** The kind a draw selects: 60% babies, 20% poop, 20% barf. */
  function KindOf(r: real): (k: Kind)
    ensures k == Baby <==> r < 0.6
    ensures k == Poop <==> 0.6 <= r < 0.8
    ensures k == Barf <==> 0.8 <= r
  {
    if r < 0.6 then Baby else if r < 0.8 then Poop else Barf
  }

  /** The fall speed a draw gives an item of kind `k`. */
  function SpeedOf(k: Kind, r: real): (v: real)
    requires IsUnit(r)
    ensures k == Baby ==> 2.0 <= v < 4.0
    ensures k != Baby ==> 3.0 <= v < 5.0
  {
    if k == Baby then 2.0 + r * 2.0 else 3.0 + r * 2.0
  }

  /** The horizontal start a draw gives in a play area `areaWidth` wide. */
  function SpawnLeft(r: real, areaWidth: real): (x: real)
    requires IsUnit(r)
    ensures areaWidth > ItemSize ==> 0.0 <= x < areaWidth - ItemSize
  {
    var free := areaWidth - ItemSize;
    assert free > 0.0 ==> 0.0 <= r * free < free by {
      if free > 0.0 { ScaleBelow(r, free); }
    }
    r * free
  }

  /** The item `spawnItem` creates in a play area `areaWidth` pixels wide. */
  function NewItem(d: SpawnDraw, areaWidth: real): (it: Item)
    requires ValidSpawnDraw(d)
    ensures it.kind == Baby <==> d.kind < 0.6
    ensures it.kind == Poop <==> 0.6 <= d.kind < 0.8
    ensures it.kind == Barf <==> 0.8 <= d.kind
    ensures it.speed.Some?
    ensures it.kind == Baby ==> 2.0 <= it.speed.value < 4.0
    ensures it.kind != Baby ==> 3.0 <= it.speed.value < 5.0
    ensures it.top == Some(SpawnTop)
    ensures areaWidth > ItemSize ==> 0.0 <= it.left < areaWidth - ItemSize
    ensures NewTop(it) == SpawnTop + it.speed.value
  {
    var kind := KindOf(d.kind);
    Item(kind, Some(SpawnTop), Some(SpeedOf(kind, d.speed)), SpawnLeft(d.left, areaWidth))
  }

  /** The rightmost basket position, in percent, for the keyboard path. */
  function RightLimit(areaWidth: real): real
    requires areaWidth > 0.0
  {
    100.0 - BasketWidth / areaWidth * 100.0
  }

  /** One frame of keyboard movement: left first, then right. The right
      limit is only computed when moving right. */
  function MoveBasket(pos: real, movingLeft: bool, movingRight: bool, areaWidth: real): (p: real)
    requires movingRight ==> areaWidth > 0.0
    ensures !movingLeft && !movingRight ==> p == pos
    ensures movingRight ==> p <= RightLimit(areaWidth)
    ensures movingLeft && !movingRight ==> p >= 0.0
    ensures movingLeft && !movingRight && pos >= BasketStep ==> p == pos - BasketStep
    ensures movingLeft && !movingRight && pos <= BasketStep ==> p == 0.0
    ensures !movingLeft && movingRight && pos + BasketStep <= RightLimit(areaWidth) ==> p == pos + BasketStep
    ensures !movingLeft && movingRight && pos + BasketStep >= RightLimit(areaWidth) ==> p == RightLimit(areaWidth)
    ensures movingLeft && movingRight && pos >= BasketStep ==> p == Min(RightLimit(areaWidth), pos)
    ensures movingLeft && movingRight && pos <= BasketStep ==> p == Min(RightLimit(areaWidth), BasketStep)
  {
    var p1 := if movingLeft then Max(0.0, pos - BasketStep) else pos;
    if movingRight then Min(RightLimit(areaWidth), p1 + BasketStep) else p1
  }

  /** A basket inside [0, RightLimit] stays inside whatever keys are held. */
  lemma BasketStaysInside(pos: real, movingLeft: bool, movingRight: bool, areaWidth: real)
    requires areaWidth > 0.0
    requires 0.0 <= pos <= RightLimit(areaWidth)
    ensures 0.0 <= MoveBasket(pos, movingLeft, movingRight, areaWidth) <= RightLimit(areaWidth)
  {
  }

  /** The touch-drag path: the finger's position mapped to percent of the
      free width, clamped to [0, 100] only. When the area is exactly as wide
      as the basket the quotient is an infinity of the numerator's sign,
      which the clamp turns into 100 or 0; a zero numerator there would be
      NaN and is excluded. */
  function DragPosition(touchX: real, areaLeft: real, areaWidth: real, basketOffsetWidth: real): (p: real)
    requires areaWidth != basketOffsetWidth || touchX - areaLeft - basketOffsetWidth / 2.0 != 0.0
    ensures 0.0 <= p <= 100.0
    ensures areaWidth != basketOffsetWidth ==>
              var raw := (touchX - areaLeft - basketOffsetWidth / 2.0) / (areaWidth - basketOffsetWidth) * 100.0;
              0.0 <= raw <= 100.0 ==> p == raw
    ensures areaWidth != basketOffsetWidth ==>
              var raw := (touchX - areaLeft - basketOffsetWidth / 2.0) / (areaWidth - basketOffsetWidth) * 100.0;
              (raw > 100.0 ==> p == 100.0) && (raw < 0.0 ==> p == 0.0)
    ensures areaWidth == basketOffsetWidth ==>
              (p == 100.0 <==> touchX - areaLeft - basketOffsetWidth / 2.0 > 0.0) && (p == 0.0 || p == 100.0)
  {
    var offset := touchX - areaLeft - basketOffsetWidth / 2.0;
    if areaWidth == basketOffsetWidth then
      if offset > 0.0 then 100.0 else 0.0
    else
      var raw := offset / (areaWidth - basketOffsetWidth) * 100.0;
      Max(0.0, Min(100.0, raw))
  }

  /** The drag bound is weaker than the keyboard bound: in a 400-pixel play
      area a drag to the right edge puts the basket at 100%, past the 80%
      the keyboard path allows. */
  lemma DragCanPassRightLimit()
    ensures DragPosition(400.0, 0.0, 400.0, BasketWidth) == 100.0
    ensures RightLimit(400.0) == 80.0
  {
  }
}
