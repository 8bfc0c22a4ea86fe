/** The firework display of the win screen: a launcher that, while active,
    sends up one randomly shaped burst per call, and tracks the bursts still
    on screen so that `stop` and the per-burst cleanup can forget them.
    Interval ticks and the 2000 ms cleanup timeout are method calls here;
    each burst's element is identified by a number. */
module FireworkShow {
  import opened Draws

  /** The eight firework colours. */
  const Colors: seq<string> := ["#ff0000", "#00ff00", "#0000ff", "#ffff00", "#ff00ff", "#00ffff", "#ff8800", "#ff0088"]

  const MinParticles: int := 30
  const ExtraParticles: nat := 20
  /** The vertical start of every burst, in percent of the viewport height. */
  const LaunchY: real := 60.0

  /** One particle: its direction as a fraction of a full turn, its travel
      distance (vmin), the random part of its vertical offset (vmin), and its
      animation delay and duration (seconds). */
  datatype Particle = Particle(angleFraction: real, distance: real, jitter: real, delay: real, duration: real)

  /** A burst: its identity, its start point in percent, its colour index
      and its particles. */
  datatype Firework = Firework(id: nat, x: real, y: real, colorIndex: int, particles: seq<Particle>)

  /** The four draws one particle takes, in the order the page makes them. */
  datatype ParticleDraw = ParticleDraw(distance: real, jitter: real, delay: real, duration: real)

  /** The draws one launch takes: position, colour, particle count, then
      one group per particle (any extra groups go unused). */
  datatype LaunchDraw = LaunchDraw(x: real, color: real, count: real, particles: seq<ParticleDraw>)

  predicate ValidParticleDraw(d: ParticleDraw) {
    IsUnit(d.distance) && IsUnit(d.jitter) && IsUnit(d.delay) && IsUnit(d.duration)
  }

  /** `30 + Math.floor(r * 20)`. */
  function ParticleCount(r: real): (n: nat)
    requires IsUnit(r)
    ensures MinParticles <= n < MinParticles + ExtraParticles
  {
    MinParticles + PickIndex(r, ExtraParticles)
  }

  predicate ValidLaunchDraw(d: LaunchDraw) {
    IsUnit(d.x) && IsUnit(d.color) && IsUnit(d.count) &&
    |d.particles| >= ParticleCount(d.count) &&
    forall i :: 0 <= i < |d.particles| ==> ValidParticleDraw(d.particles[i])
  }

  /** Particle `i` of `count`: the i-th of `count` evenly spaced directions. */
  function MakeParticle(i: nat, count: nat, d: ParticleDraw): (p: Particle)
    requires i < count && ValidParticleDraw(d)
    ensures p.angleFraction * count as real == i as real
    ensures 0.0 <= p.angleFraction < 1.0
    ensures 10.0 <= p.distance < 30.0
    ensures -5.0 <= p.jitter < 5.0
    ensures 0.0 <= p.delay < 0.5
    ensures 1.0 <= p.duration < 3.0
  {
    var a := i as real / count as real;
    assert a * count as real == i as real;
    Particle(a, 10.0 + d.distance * 20.0, (d.jitter - 0.5) * 10.0, d.delay * 0.5, 1.0 + d.duration * 2.0)
  }

  /** The particles of a burst of `count`, particle `i` built from draw `i`. */
  function Pattern(count: nat, draws: seq<ParticleDraw>): (ps: seq<Particle>)
    requires count <= |draws|
    requires forall i :: 0 <= i < |draws| ==> ValidParticleDraw(draws[i])
    ensures |ps| == count
  {
    seq(count, i requires 0 <= i < count => MakeParticle(i, count, draws[i]))
  }

  /** Directions are evenly spaced: each is 1/count of a turn past the one before. */
  lemma PatternEvenlySpaced(count: nat, draws: seq<ParticleDraw>, i: nat)
    requires count <= |draws|
    requires forall k :: 0 <= k < |draws| ==> ValidParticleDraw(draws[k])
    requires i + 1 < count
    ensures Pattern(count, draws)[i + 1].angleFraction - Pattern(count, draws)[i].angleFraction == 1.0 / count as real
  {
    var ps := Pattern(count, draws);
    var c := count as real;
    assert ps[i + 1].angleFraction * c == ps[i].angleFraction * c + 1.0;
    assert (ps[i + 1].angleFraction - ps[i].angleFraction) * c == 1.0;
  }

  /** The burst a launch with draws `d` creates under identity `id`. */
  function Launched(id: nat, d: LaunchDraw): (f: Firework)
    requires ValidLaunchDraw(d)
    ensures f.id == id
    ensures 10.0 <= f.x < 90.0 && f.y == LaunchY
    ensures 0 <= f.colorIndex < |Colors|
    ensures MinParticles <= |f.particles| < MinParticles + ExtraParticles
    ensures forall i :: 0 <= i < |f.particles| ==>
              f.particles[i].angleFraction * |f.particles| as real == i as real &&
              0.0 <= f.particles[i].delay < 0.5 && 1.0 <= f.particles[i].duration < 3.0 &&
              10.0 <= f.particles[i].distance < 30.0 && -5.0 <= f.particles[i].jitter < 5.0
  {
    var count := ParticleCount(d.count);
    var ps := Pattern(count, d.particles);
    assert forall i :: 0 <= i < count ==> ps[i] == MakeParticle(i, count, d.particles[i]);
    Firework(id, 10.0 + d.x * 80.0, LaunchY, PickIndex(d.color, |Colors|), ps)
  }

  /** The particle loop of `launchFirework`. */
  method BuildPattern(count: nat, draws: seq<ParticleDraw>) returns (ps: seq<Particle>)
    requires count <= |draws|
    requires forall i :: 0 <= i < |draws| ==> ValidParticleDraw(draws[i])
    ensures ps == Pattern(count, draws)
  {
    ps := [];
    var i := 0;
    while i < count
      invariant 0 <= i <= count
      invariant ps == Pattern(count, draws)[..i]
    {
      ps := ps + [MakeParticle(i, count, draws[i])];
      i := i + 1;
    }
  }

  /** The tracked list without the burst `id`: the cleanup's `filter`. */
  function Without(fs: seq<Firework>, id: nat): (r: seq<Firework>)
    ensures forall f :: f in r <==> f in fs && f.id != id
    ensures |r| <= |fs|
    decreases |fs|
  {
    if fs == [] then []
    else (if fs[0].id == id then [] else [fs[0]]) + Without(fs[1..], id)
  }

  /** Cleanup of a burst that is not tracked (any more) changes nothing. */
  lemma {:induction false} WithoutAbsent(fs: seq<Firework>, id: nat)
    requires forall i :: 0 <= i < |fs| ==> fs[i].id != id
    ensures Without(fs, id) == fs
    decreases |fs|
  {
    if fs != [] {
      WithoutAbsent(fs[1..], id);
    }
  }

  /** Filtering a list in two parts filters each part, keeping their order. */
  lemma {:induction false} WithoutAppend(a: seq<Firework>, b: seq<Firework>, id: nat)
    ensures Without(a + b, id) == Without(a, id) + Without(b, id)
    decreases |a|
  {
    if a == [] {
      assert a + b == b;
    } else {
      assert (a + b)[0] == a[0];
      assert (a + b)[1..] == a[1..] + b;
      WithoutAppend(a[1..], b, id);
    }
  }

  predicate DistinctIds(fs: seq<Firework>) {
    forall i, j :: 0 <= i < j < |fs| ==> fs[i].id != fs[j].id
  }

  lemma SplitAt(fs: seq<Firework>, k: nat)
    requires k < |fs|
    ensures fs == fs[..k] + ([fs[k]] + fs[k + 1..])
  {
    assert fs[..k] + ([fs[k]] + fs[k + 1..]) == fs[..k + 1] + fs[k + 1..];
  }

  /** When identities are distinct, cleanup of a tracked burst removes that
      one burst and keeps the others in their order. */
  lemma RemovesExactlyOne(fs: seq<Firework>, k: nat)
    requires DistinctIds(fs) && k < |fs|
    ensures Without(fs, fs[k].id) == fs[..k] + fs[k + 1..]
  {
    var id := fs[k].id;
    var pre, post := fs[..k], fs[k + 1..];
    forall i | 0 <= i < |pre| ensures pre[i].id != id {
      assert pre[i] == fs[i];
    }
    forall i | 0 <= i < |post| ensures post[i].id != id {
      assert post[i] == fs[k + 1 + i];
    }
    SplitAt(fs, k);
    WithoutAppend(pre, [fs[k]] + post, id);
    WithoutAppend([fs[k]], post, id);
    WithoutAbsent(pre, id);
    WithoutAbsent(post, id);
    assert Without([fs[k]], id) == [] by {
      assert [fs[k]][1..] == [];
    }
    assert Without([fs[k]] + post, id) == post;
  }

  /** Filtering keeps distinct identities distinct. */
  lemma {:induction false} WithoutDistinct(fs: seq<Firework>, id: nat)
    requires DistinctIds(fs)
    ensures DistinctIds(Without(fs, id))
    decreases |fs|
  {
    if fs != [] {
      WithoutDistinct(fs[1..], id);
      var rest := Without(fs[1..], id);
      if fs[0].id != id {
        forall j | 0 <= j < |rest| ensures rest[j].id != fs[0].id {
          assert rest[j] in fs[1..];
        }
      }
    }
  }

  class Fireworks {
    /** The bursts still tracked, oldest first. */
    var fireworks: seq<Firework>
    var isActive: bool
    /** Whether the one-second launch interval is running. */
    var intervalArmed: bool
    /** The identity the next burst gets. */
    var nextId: nat

    /** Tracked bursts have distinct identities, all handed out already. */
    ghost predicate Tracked()
      reads this
    {
      DistinctIds(fireworks) && forall i :: 0 <= i < |fireworks| ==> fireworks[i].id < nextId
    }

    /** The launch interval runs exactly while the display is active. */
    ghost predicate Valid()
      reads this
    {
      Tracked() && intervalArmed == isActive
    }

    constructor ()
      ensures Valid()
      ensures !isActive && fireworks == []
    {
      fireworks := [];
      isActive := false;
      intervalArmed := false;
      nextId := 0;
    }

    /** `launchFirework`: nothing while inactive; otherwise one new burst
        at the end of the tracked list. */
    method Launch(d: LaunchDraw)
      requires Tracked() && ValidLaunchDraw(d)
      modifies this
      ensures Tracked()
      ensures isActive == old(isActive) && intervalArmed == old(intervalArmed)
      ensures !old(isActive) ==> fireworks == old(fireworks) && nextId == old(nextId)
      ensures old(isActive) ==> fireworks == old(fireworks) + [Launched(old(nextId), d)] && nextId == old(nextId) + 1
    {
      if !isActive {
        return;
      }
      var x := 10.0 + d.x * 80.0;
      var colorIndex := PickIndex(d.color, |Colors|);
      var count := ParticleCount(d.count);
      var pattern := BuildPattern(count, d.particles);
      var firework := Firework(nextId, x, LaunchY, colorIndex, pattern);
      nextId := nextId + 1;
      fireworks := fireworks + [firework];
    }

    /** `start`: a no-op when already active; otherwise the display becomes
        active, launches one burst at once and arms the interval. */
    method Start(d: LaunchDraw)
      requires Valid() && ValidLaunchDraw(d)
      modifies this
      ensures Valid()
      ensures old(isActive) ==> fireworks == old(fireworks) && nextId == old(nextId) && isActive
      ensures !old(isActive) ==>
                isActive && fireworks == old(fireworks) + [Launched(old(nextId), d)] && nextId == old(nextId) + 1
    {
      if isActive {
        return;
      }
      isActive := true;
      Launch(d);
      intervalArmed := true;
    }

    /** `stop`: inactive, interval cleared, nothing tracked, whatever the
        state before; so stopping twice is the same as stopping once. */
    method Stop()
      requires Valid()
      modifies this
      ensures Valid()
      ensures !isActive && fireworks == [] && nextId == old(nextId)
    {
      isActive := false;
      intervalArmed := false;
      fireworks := [];
    }

    /** The 2000 ms cleanup of burst `id`: the tracked list loses that burst
        and nothing else; the flags do not change. */
    method Expire(id: nat)
      requires Valid()
      modifies this
      ensures Valid()
      ensures fireworks == Without(old(fireworks), id)
      ensures isActive == old(isActive) && nextId == old(nextId)
    {
      WithoutDistinct(fireworks, id);
      fireworks := Without(fireworks, id);
    }
  }
}
