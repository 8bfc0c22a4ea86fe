/** The scoring state machine as values: catches, the countdown, the end of
    a game, and what one frame does to the item list and the score. */
module Scoring {
  import opened Items

  /** The module-level game variables other than the basket. */
  datatype Session = Session(score: int, caughtBabies: int, timeLeft: int, active: bool)

  const BabiesToWin: int := 3
  const BabyPoints: int := 10
  const Penalty: int := 5
  const BonusPerSecond: int := 5
  const StartTime: int := 30

  /** The state `resetGame` installs. */
  function Initial(): Session {
    Session(0, 0, StartTime, true)
  }

  /** The part of `Consistent` that holds after the game has ended too. */
  predicate NonNegative(s: Session) {
    s.score >= 0 && s.caughtBabies >= 0 && s.timeLeft >= 0
  }

  /** What every reachable session satisfies: nothing is negative, and an
      active game still has time left and has not yet reached the win count. */
  predicate Consistent(s: Session) {
    NonNegative(s) &&
    (s.active ==> s.timeLeft >= 1 && s.caughtBabies < BabiesToWin)
  }

  /** `endGame`: the game stops; a win adds `floor(timeLeft * 5)`, which for
      a whole number of seconds is `timeLeft * 5`. */
  function End(s: Session, isWin: bool): (t: Session)
    ensures !t.active
    ensures t.caughtBabies == s.caughtBabies && t.timeLeft == s.timeLeft
    ensures isWin ==> t.score == s.score + BonusPerSecond * s.timeLeft
    ensures !isWin ==> t.score == s.score
    ensures NonNegative(s) ==> Consistent(t)
  {
    Session(if isWin then s.score + s.timeLeft * BonusPerSecond else s.score,
            s.caughtBabies, s.timeLeft, false)
  }

  /** `handleItemCatch`. It does not look at `active`: a catch after the
      game has ended still counts, and a baby that keeps the count at or
      above the win count ends the game again, with another bonus. */
  function Catch(s: Session, k: Kind): (t: Session)
    ensures t.timeLeft == s.timeLeft
    ensures k == Baby ==> t.caughtBabies == s.caughtBabies + 1
    ensures k == Baby && t.caughtBabies < BabiesToWin ==> t == s.(caughtBabies := s.caughtBabies + 1, score := s.score + BabyPoints)
    ensures k == Baby && t.caughtBabies >= BabiesToWin ==>
              !t.active && t.score == s.score + BabyPoints + BonusPerSecond * s.timeLeft
    ensures k != Baby ==> t.caughtBabies == s.caughtBabies && t.active == s.active
    ensures k != Baby ==> t.score == if s.score >= Penalty then s.score - Penalty else 0
    ensures s.score >= 0 && s.timeLeft >= 0 ==> t.score >= 0
    ensures Consistent(s) ==> Consistent(t)
  {
    match k
    case Baby =>
      var s1 := s.(caughtBabies := s.caughtBabies + 1, score := s.score + BabyPoints);
      if s1.caughtBabies >= BabiesToWin then End(s1, true) else s1
    case _ =>
      s.(score := if 0 >= s.score - Penalty then 0 else s.score - Penalty)
  }

  /** The countdown callback: nothing while the game is over; otherwise one
      second less, and a loss once no time is left. */
  function Tick(s: Session): (t: Session)
    ensures !s.active ==> t == s
    ensures s.active ==> t.timeLeft == s.timeLeft - 1 && t.score == s.score &&
                         t.caughtBabies == s.caughtBabies && (t.active <==> t.timeLeft > 0)
    ensures Consistent(s) ==> Consistent(t)
  {
    if !s.active then s
    else
      var s1 := s.(timeLeft := s.timeLeft - 1);
      if s1.timeLeft <= 0 then End(s1, false) else s1
  }

  /** The session after handling the catches `ks` in order. The baby
      count grows by exactly the babies caught, whether or not the game
      ended on the way, and the clock does not move. */
  function CatchAll(s: Session, ks: seq<Kind>): (t: Session)
    ensures t.caughtBabies == s.caughtBabies + Babies(ks)
    ensures t.timeLeft == s.timeLeft
    decreases |ks|
  {
    if ks == [] then s else Catch(CatchAll(s, ks[..|ks| - 1]), ks[|ks| - 1])
  }

  /** The kinds of the items one frame catches, in list order: each comes
      from an item that touched the basket. */
  function CaughtKinds(items: seq<Item>, sc: Scene): (ks: seq<Kind>)
    ensures |ks| <= |items|
    ensures forall k :: k in ks ==> exists i :: 0 <= i < |items| && Classify(items[i], sc) == Caught && items[i].kind == k
    decreases |items|
  {
    if items == [] then []
    else
      var front := items[..|items| - 1];
      var last := items[|items| - 1];
      assert forall i :: 0 <= i < |front| ==> front[i] == items[i];
      CaughtKinds(front, sc) + if Classify(last, sc) == Caught then [last.kind] else []
  }

  /** The items one frame leaves in the play area, moved, in list order:
      each is the moved form of an item that was neither caught nor dropped. */
  function Survivors(items: seq<Item>, sc: Scene): (kept: seq<Item>)
    ensures |kept| <= |items|
    ensures forall x :: x in kept ==> exists i :: 0 <= i < |items| && Classify(items[i], sc) == Live && x == Advance(items[i])
    decreases |items|
  {
    if items == [] then []
    else
      var front := items[..|items| - 1];
      var last := items[|items| - 1];
      assert forall i :: 0 <= i < |front| ==> front[i] == items[i];
      Survivors(front, sc) + if Classify(last, sc) == Live then [Advance(last)] else []
  }

  /** How many items one frame lets fall out of the play area. */
  function DroppedCount(items: seq<Item>, sc: Scene): nat
    decreases |items|
  {
    if items == [] then 0
    else
      DroppedCount(items[..|items| - 1], sc) + if Classify(items[|items| - 1], sc) == Dropped then 1 else 0
  }

  /** Extending a frame by one more item extends its results by that item's outcome. */
  lemma FrameStep(items: seq<Item>, i: int, sc: Scene)
    requires 0 <= i < |items|
    ensures Survivors(items[..i + 1], sc) ==
              Survivors(items[..i], sc) + if Classify(items[i], sc) == Live then [Advance(items[i])] else []
    ensures CaughtKinds(items[..i + 1], sc) ==
              CaughtKinds(items[..i], sc) + if Classify(items[i], sc) == Caught then [items[i].kind] else []
  {
    assert items[..i + 1][..i] == items[..i];
  }

  /** Handling one more catch after a run of catches. */
  lemma CatchAllSnoc(s: Session, ks: seq<Kind>, k: Kind)
    ensures CatchAll(s, ks + [k]) == Catch(CatchAll(s, ks), k)
  {
    assert (ks + [k])[..|ks|] == ks;
  }

  /** How many of `ks` are babies. */
  function Babies(ks: seq<Kind>): nat
    decreases |ks|
  {
    if ks == [] then 0 else Babies(ks[..|ks| - 1]) + if ks[|ks| - 1] == Baby then 1 else 0
  }

  /** Every item leaves a frame in exactly one way: caught, dropped or kept. */
  lemma {:induction false} FramePartition(items: seq<Item>, sc: Scene)
    ensures |CaughtKinds(items, sc)| + DroppedCount(items, sc) + |Survivors(items, sc)| == |items|
    decreases |items|
  {
    if items != [] {
      FramePartition(items[..|items| - 1], sc);
    }
  }

  /** The items kept are exactly the moved forms of the items that were
      neither caught nor dropped. */
  lemma {:induction false} SurvivorsAreLive(items: seq<Item>, sc: Scene)
    ensures forall x :: x in Survivors(items, sc) <==>
              exists i :: 0 <= i < |items| && Classify(items[i], sc) == Live && x == Advance(items[i])
    decreases |items|
  {
    if items != [] {
      var front := items[..|items| - 1];
      SurvivorsAreLive(front, sc);
      forall x
        ensures x in Survivors(items, sc) <==>
                  exists i :: 0 <= i < |items| && Classify(items[i], sc) == Live && x == Advance(items[i])
      {
        if exists i :: 0 <= i < |items| && Classify(items[i], sc) == Live && x == Advance(items[i]) {
          var i :| 0 <= i < |items| && Classify(items[i], sc) == Live && x == Advance(items[i]);
          if i < |front| {
            assert front[i] == items[i];
          }
        }
      }
    }
  }

  /** The caught kinds of two runs of items laid end to end. */
  lemma {:induction false} CaughtKindsAppend(a: seq<Item>, b: seq<Item>, sc: Scene)
    ensures CaughtKinds(a + b, sc) == CaughtKinds(a, sc) + CaughtKinds(b, sc)
    decreases |b|
  {
    if b == [] {
      assert a + b == a;
    } else {
      CaughtKindsAppend(a, b[..|b| - 1], sc);
      assert (a + b)[..|a + b| - 1] == a + b[..|b| - 1];
    }
  }

  /** The kept items of two runs of items laid end to end. */
  lemma {:induction false} SurvivorsAppend(a: seq<Item>, b: seq<Item>, sc: Scene)
    ensures Survivors(a + b, sc) == Survivors(a, sc) + Survivors(b, sc)
    decreases |b|
  {
    if b == [] {
      assert a + b == a;
    } else {
      SurvivorsAppend(a, b[..|b| - 1], sc);
      assert (a + b)[..|a + b| - 1] == a + b[..|b| - 1];
    }
  }

  /** An item that does not touch the basket, wherever it sits in the list,
      never reaches the scoring: the frame scores as if it were absent. A
      dropped item leaves no trace at all, so a missed item costs nothing. */
  lemma MissedItemCostsNothing(a: seq<Item>, it: Item, b: seq<Item>, sc: Scene, s: Session)
    requires Classify(it, sc) != Caught
    ensures CaughtKinds(a + [it] + b, sc) == CaughtKinds(a + b, sc)
    ensures CatchAll(s, CaughtKinds(a + [it] + b, sc)) == CatchAll(s, CaughtKinds(a + b, sc))
    ensures Classify(it, sc) == Dropped ==> Survivors(a + [it] + b, sc) == Survivors(a + b, sc)
  {
    CaughtKindsAppend(a + [it], b, sc);
    CaughtKindsAppend(a, [it], sc);
    CaughtKindsAppend(a, b, sc);
    SurvivorsAppend(a + [it], b, sc);
    SurvivorsAppend(a, [it], sc);
    SurvivorsAppend(a, b, sc);
    assert [it][..0] == [];
  }

  /** A frame in which nothing touches the basket catches nothing and leaves
      the session as it was. */
  lemma {:induction false} MissesCostNothing(items: seq<Item>, sc: Scene, s: Session)
    requires forall i :: 0 <= i < |items| ==> Classify(items[i], sc) != Caught
    ensures CaughtKinds(items, sc) == []
    ensures CatchAll(s, CaughtKinds(items, sc)) == s
    decreases |items|
  {
    if items != [] {
      MissesCostNothing(items[..|items| - 1], sc, s);
      assert Classify(items[|items| - 1], sc) != Caught;
    }
  }

  /** Penalties clamp at zero, so a run of catches never makes the score negative. */
  lemma {:induction false} ScoreNeverNegative(s: Session, ks: seq<Kind>)
    requires s.score >= 0 && s.timeLeft >= 0
    ensures CatchAll(s, ks).score >= 0
    decreases |ks|
  {
    if ks != [] {
      ScoreNeverNegative(s, ks[..|ks| - 1]);
    }
  }

  /** A run of catches keeps the session consistent. */
  lemma {:induction false} CatchAllConsistent(s: Session, ks: seq<Kind>)
    requires Consistent(s)
    ensures Consistent(CatchAll(s, ks))
    decreases |ks|
  {
    if ks != [] {
      CatchAllConsistent(s, ks[..|ks| - 1]);
    }
  }

  /** Below the win count, N babies and nothing else add exactly 10 * N and
      leave the game running. */
  lemma {:induction false} BabiesScoreTen(s: Session, ks: seq<Kind>)
    requires forall i :: 0 <= i < |ks| ==> ks[i] == Baby
    requires s.caughtBabies + |ks| < BabiesToWin
    ensures CatchAll(s, ks) == s.(caughtBabies := s.caughtBabies + |ks|, score := s.score + BabyPoints * |ks|)
    decreases |ks|
  {
    if ks != [] {
      BabiesScoreTen(s, ks[..|ks| - 1]);
    }
  }

  /** Three babies with 25 seconds left win with 30 + 25 * 5 = 155 points. */
  lemma ThreeBabiesWin()
    ensures CatchAll(Initial().(timeLeft := 25), [Baby, Baby, Baby]) == Session(155, 3, 25, false)
  {
    var s0 := Initial().(timeLeft := 25);
    assert [Baby, Baby, Baby][..2] == [Baby, Baby];
    assert [Baby, Baby][..1] == [Baby];
    assert [Baby][..0] == [];
    assert CatchAll(s0, [Baby, Baby]) == Session(20, 2, 25, true);
  }

  /** Two babies caught in the frame that reaches the win count both score,
      and the game is ended twice, so the time bonus is added twice. */
  lemma DoubleBonus(s: Session)
    requires s.active && s.caughtBabies == BabiesToWin - 1
    ensures CatchAll(s, [Baby, Baby]) ==
            Session(s.score + 2 * BabyPoints + 2 * BonusPerSecond * s.timeLeft, BabiesToWin + 1, s.timeLeft, false)
  {
    assert [Baby, Baby][..1] == [Baby];
    assert [Baby][..0] == [];
  }

  /** When the clock runs out the game is lost and no bonus is added. */
  lemma LastSecondLoses(s: Session)
    requires Consistent(s) && s.active && s.timeLeft == 1
    ensures Tick(s) == s.(timeLeft := 0, active := false)
  {
  }
}
