/** The page's game variables and the handlers that change them. Frames,
    countdown ticks and spawn ticks are method calls; what the page would
    measure or draw at random is passed in. */
module Game {
  import opened Wrappers
  import opened Items
  import opened Scoring

  class Game {
    var score: int
    var caughtBabies: int
    var timeLeft: int
    var isGameActive: bool
    /** Percent of the play area's width. */
    var basketPosition: real
    /** The `.falling-item` elements, in document order. */
    var items: seq<Item>

    /** The scoring variables as one value. */
    function State(): Session
      reads this
    {
      Session(score, caughtBabies, timeLeft, isGameActive)
    }

    ghost predicate Valid()
      reads this
    {
      Consistent(State())
    }

    /** Page load: the variables' initial values followed by `resetGame`. */
    constructor ()
      ensures Valid()
      ensures State() == Initial() && basketPosition == 50.0 && items == []
    {
      score, caughtBabies, timeLeft, isGameActive := 0, 0, StartTime, true;
      basketPosition := 50.0;
      items := [];
    }

    /** `resetGame`: every variable back to its start value and the play
        area emptied, whatever state the game was in. */
    method ResetGame()
      modifies this
      ensures Valid()
      ensures State() == Initial() && basketPosition == 50.0 && items == []
    {
      score := 0;
      caughtBabies := 0;
      timeLeft := StartTime;
      isGameActive := true;
      basketPosition := 50.0;
      items := [];
    }

    /** `endGame`, state and bonus only. */
    method EndGame(isWin: bool)
      requires NonNegative(State())
      modifies this
      ensures Valid()
      ensures State() == End(old(State()), isWin)
      ensures basketPosition == old(basketPosition) && items == old(items)
    {
      isGameActive := false;
      if isWin {
        var timeBonus := timeLeft * BonusPerSecond;
        score := score + timeBonus;
      }
    }

    /** `handleItemCatch` for an item of kind `kind`; taking the item out of
        the list is left to the frame that caught it. */
    method HandleItemCatch(kind: Kind)
      requires Valid()
      modifies this
      ensures Valid()
      ensures State() == Catch(old(State()), kind)
      ensures basketPosition == old(basketPosition) && items == old(items)
    {
      if kind == Baby {
        caughtBabies := caughtBabies + 1;
        score := score + BabyPoints;
        if caughtBabies >= BabiesToWin {
          EndGame(true);
        }
      } else {
        score := if 0 >= score - Penalty then 0 else score - Penalty;
      }
    }

    /** The countdown callback `resetGame` installs, run once a second. */
    method CountdownTick()
      requires Valid()
      modifies this
      ensures Valid()
      ensures State() == Tick(old(State()))
      ensures basketPosition == old(basketPosition) && items == old(items)
    {
      if !isGameActive {
        return;
      }
      timeLeft := timeLeft - 1;
      if timeLeft <= 0 {
        EndGame(false);
      }
    }

    /** `spawnItem`: one new item at the end of the list while the game runs. */
    method SpawnItem(d: SpawnDraw, areaWidth: real)
      requires ValidSpawnDraw(d)
      modifies this
      ensures State() == old(State()) && basketPosition == old(basketPosition)
      ensures items == if old(isGameActive) then old(items) + [NewItem(d, areaWidth)] else old(items)
    {
      if !isGameActive {
        return;
      }
      items := items + [NewItem(d, areaWidth)];
    }

    /** The touch-drag handler's effect: the basket jumps to the finger. It
        does not look at whether the game is running. */
    method DragBasket(touchX: real, areaLeft: real, areaWidth: real, basketOffsetWidth: real)
      requires areaWidth != basketOffsetWidth || touchX - areaLeft - basketOffsetWidth / 2.0 != 0.0
      modifies this
      ensures State() == old(State()) && items == old(items)
      ensures basketPosition == DragPosition(touchX, areaLeft, areaWidth, basketOffsetWidth)
    {
      basketPosition := DragPosition(touchX, areaLeft, areaWidth, basketOffsetWidth);
    }

    /** `updateGame`: one animation frame. Nothing happens once the game is
        over. Otherwise the basket moves, then every item falls by its speed
        and is caught, dropped or kept, in list order; catches are scored as
        they happen, even after one of them has ended the game. */
    method UpdateGame(movingLeft: bool, movingRight: bool, areaWidth: real, sc: Scene)
      requires Valid() && (movingRight ==> areaWidth > 0.0)
      modifies this
      ensures Valid()
      ensures !old(isGameActive) ==>
                State() == old(State()) && basketPosition == old(basketPosition) && items == old(items)
      ensures old(isGameActive) ==>
                basketPosition == MoveBasket(old(basketPosition), movingLeft, movingRight, areaWidth) &&
                items == Survivors(old(items), sc) &&
                State() == CatchAll(old(State()), CaughtKinds(old(items), sc))
    {
      if !isGameActive {
        return;
      }
      if movingLeft {
        basketPosition := Max(0.0, basketPosition - BasketStep);
      }
      if movingRight {
        basketPosition := Min(RightLimit(areaWidth), basketPosition + BasketStep);
      }
      ghost var basket := basketPosition;
      assert basket == MoveBasket(old(basketPosition), movingLeft, movingRight, areaWidth);
      ghost var s0 := State();
      var pending := items;
      var kept: seq<Item> := [];
      var i := 0;
      while i < |pending|
        invariant 0 <= i <= |pending|
        invariant Valid()
        invariant items == pending && pending == old(items)
        invariant basketPosition == basket
        invariant kept == Survivors(pending[..i], sc)
        invariant State() == CatchAll(s0, CaughtKinds(pending[..i], sc))
      {
        var item := pending[i];
        FrameStep(pending, i, sc);
        var newTop := NewTop(item);
        var moved := item.(top := Some(newTop));
        ghost var ks := CaughtKinds(pending[..i], sc);
        if IsColliding(Box(item, newTop), sc.basket) {
          CatchAllSnoc(s0, ks, item.kind);
          HandleItemCatch(item.kind);
        } else if newTop > sc.areaHeight {
          assert CaughtKinds(pending[..i + 1], sc) == ks + [] == ks;
        } else {
          assert CaughtKinds(pending[..i + 1], sc) == ks + [] == ks;
          kept := kept + [moved];
        }
        i := i + 1;
      }
      assert pending[..|pending|] == pending;
      items := kept;
    }
  }
}
