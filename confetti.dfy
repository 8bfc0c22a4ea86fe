/** The confetti burst of the win screen: 150 pieces, each with its own
    randomly drawn look and lifetime. */
module Confetti {
  import opened Draws

  const ConfettiCount: nat := 150

  /** The eight confetti colours. */
  const Colors: seq<string> := ["#ff0000", "#00ff00", "#0000ff", "#ffff00", "#ff00ff", "#00ffff", "#ff8800", "#8800ff"]

  datatype Shape = Circle | Square

  /** One piece of confetti: size and left offset in pixels, an index into
      `Colors`, animation duration and delay in seconds, shape, rotation in
      degrees, and the milliseconds after which the piece is removed. */
  datatype Confetto = Confetto(size: real, left: real, colorIndex: int, duration: real,
                               delay: real, shape: Shape, rotation: real, removeAfterMs: real)

  /** The seven draws one piece takes, in the order the page makes them. */
  datatype ConfettiDraw = ConfettiDraw(size: real, posX: real, color: real, duration: real,
                                       delay: real, shape: real, rotation: real)

  predicate ValidDraw(d: ConfettiDraw) {
    IsUnit(d.size) && IsUnit(d.posX) && IsUnit(d.color) && IsUnit(d.duration) &&
    IsUnit(d.delay) && IsUnit(d.shape) && IsUnit(d.rotation)
  }

  /** One piece for a window `innerWidth` pixels wide. */
  function MakeConfetto(d: ConfettiDraw, innerWidth: real): (c: Confetto)
    requires ValidDraw(d)
    ensures 5.0 <= c.size < 15.0
    ensures innerWidth > 0.0 ==> 0.0 <= c.left < innerWidth
    ensures 0 <= c.colorIndex < |Colors|
    ensures 2.0 <= c.duration < 5.0 && 0.0 <= c.delay < 5.0
    ensures c.shape == Circle <==> d.shape > 0.5
    ensures 0.0 <= c.rotation < 360.0
    ensures c.removeAfterMs == (c.duration + c.delay) * 1000.0
    ensures 2000.0 <= c.removeAfterMs < 10000.0
  {
    assert innerWidth > 0.0 ==> 0.0 <= d.posX * innerWidth < innerWidth by {
      if innerWidth > 0.0 { ScaleBelow(d.posX, innerWidth); }
    }
    var duration := d.duration * 3.0 + 2.0;
    var delay := d.delay * 5.0;
    Confetto(d.size * 10.0 + 5.0,
             d.posX * innerWidth,
             PickIndex(d.color, |Colors|),
             duration,
             delay,
             if d.shape > 0.5 then Circle else Square,
             d.rotation * 360.0,
             (duration + delay) * 1000.0)
  }

  /** `createConfetti`: one piece per draw, in order, 150 in all. */
  method CreateConfetti(draws: seq<ConfettiDraw>, innerWidth: real) returns (pieces: seq<Confetto>)
    requires |draws| == ConfettiCount
    requires forall i :: 0 <= i < |draws| ==> ValidDraw(draws[i])
    ensures |pieces| == ConfettiCount
    ensures forall i :: 0 <= i < |pieces| ==> pieces[i] == MakeConfetto(draws[i], innerWidth)
    ensures forall i :: 0 <= i < |pieces| ==>
              0 <= pieces[i].colorIndex < |Colors| &&
              pieces[i].removeAfterMs == (pieces[i].duration + pieces[i].delay) * 1000.0
  {
    pieces := [];
    var i := 0;
    while i < ConfettiCount
      invariant 0 <= i <= ConfettiCount
      invariant |pieces| == i
      invariant forall j :: 0 <= j < i ==> pieces[j] == MakeConfetto(draws[j], innerWidth)
    {
      pieces := pieces + [MakeConfetto(draws[i], innerWidth)];
      i := i + 1;
    }
  }
}
