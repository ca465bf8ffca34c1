/** The fireworks layer: bursts of particles that drift, fall and fade, held
    in one mutable list that every animation frame walks, updating the visible
    particles and splicing out the faded ones.  `Math.random()` is an input:
    each random value is a real in [0, 1) supplied by the caller.  Positions,
    velocities and opacities are reals, an idealisation of the source's
    floating-point numbers. */
module Fireworks {

  /** Particles per burst. */
  const BurstSize: nat := 50
  /** The burst colours. */
  const Palette: seq<string> := ["#FFD700", "#FFA500", "#FFE55C", "#FF6B6B", "#4ECDC4", "#95E1D3"]
  /** Bounds of the per-frame opacity decay of a newly made particle. */
  const MinDecay: real := 0.015
  const MaxDecay: real := 0.03
  /** Per-frame velocity damping and downward acceleration. */
  const Drag: real := 0.98
  const Gravity: real := 0.2

  /** A value `Math.random()` can return. */
  predicate IsRandom(u: real)
  {
    0.0 <= u < 1.0
  }

  /** The three random values one particle draws when it is constructed, in
      the order it draws them. */
  datatype Roll = Roll(vx: real, vy: real, decay: real)

  predicate IsRoll(r: Roll)
  {
    IsRandom(r.vx) && IsRandom(r.vy) && IsRandom(r.decay)
  }

  predicate AllRolls(rolls: seq<Roll>)
  {
    forall i :: 0 <= i < |rolls| ==> IsRoll(rolls[i])
  }

  /** The fields of one particle at one moment. */
  datatype ParticleState = ParticleState(
    x: real, y: real, vx: real, vy: real, color: string, alpha: real, decay: real)

  /** A particle as a burst creates it: at the burst origin, fully opaque,
      with a decay in [MinDecay, MaxDecay). */
  predicate Newborn(p: ParticleState, x: real, y: real)
  {
    p.x == x && p.y == y && p.alpha == 1.0 && MinDecay <= p.decay < MaxDecay
  }

  /** What every particle of the field satisfies at all times: a palette
      colour, a decay in the spawn band, opacity at most 1. */
  predicate Live(p: ParticleState)
  {
    p.color in Palette && MinDecay <= p.decay < MaxDecay && p.alpha <= 1.0
  }

  /** The state the `Particle` constructor gives a particle. */
  function Spawn(x: real, y: real, color: string, roll: Roll): (p: ParticleState)
    requires IsRoll(roll)
    ensures Newborn(p, x, y) && p.color == color
    ensures -4.0 <= p.vx < 4.0 && -4.0 <= p.vy < 4.0
  {
    ParticleState(x, y, (roll.vx - 0.5) * 8.0, (roll.vy - 0.5) * 8.0, color, 1.0,
                  roll.decay * 0.015 + 0.015)
  }

  /** The state after one `update`: damped velocity with gravity added,
      position moved by the new velocity, opacity lowered by the decay. */
  function Step(p: ParticleState): (q: ParticleState)
    ensures q.alpha == p.alpha - p.decay && q.color == p.color && q.decay == p.decay
    ensures q.x == p.x + q.vx && q.y == p.y + q.vy
  {
    var vx := p.vx * Drag;
    var vy := p.vy * Drag + Gravity;
    p.(x := p.x + vx, y := p.y + vy, vx := vx, vy := vy, alpha := p.alpha - p.decay)
  }

  /** The state after `n` updates. */
  function Steps(p: ParticleState, n: nat): (q: ParticleState)
    ensures q.color == p.color && q.decay == p.decay
    decreases n
  {
    if n == 0 then p else Step(Steps(p, n - 1))
  }

  /** After `n` updates the opacity has fallen by exactly `n` decays; colour
      and decay never change. */
  lemma {:induction false} StepsFade(p: ParticleState, n: nat)
    ensures Steps(p, n).alpha == p.alpha - n as real * p.decay
    ensures Steps(p, n).color == p.color && Steps(p, n).decay == p.decay
    decreases n
  {
    if n > 0 {
      StepsFade(p, n - 1);
    }
  }

  /** With a positive decay the opacity strictly decreases from update to update. */
  lemma StepsStrictlyFade(p: ParticleState, m: nat, n: nat)
    requires p.decay > 0.0 && m < n
    ensures Steps(p, n).alpha < Steps(p, m).alpha
  {
    StepsFade(p, m);
    StepsFade(p, n);
    assert (n - m) as real * p.decay > 0.0;
    assert n as real * p.decay == m as real * p.decay + (n - m) as real * p.decay;
  }

  /** A newborn particle has faded to zero or below after 67 updates. */
  lemma NewbornExpires(p: ParticleState, x: real, y: real)
    requires Newborn(p, x, y)
    ensures Steps(p, 67).alpha <= 0.0
  {
    StepsFade(p, 67);
  }

  /** `Math.floor(Math.random() * colors.length)`. */
  function ColorIndex(u: real): (i: nat)
    requires IsRandom(u)
    ensures i < |Palette|
  {
    (u * |Palette| as real).Floor
  }

  /** The state of the particles `createFirework(x, y)` appends: one per roll,
      all with the one colour picked for the burst. */
  function Burst(x: real, y: real, colorRoll: real, rolls: seq<Roll>): (b: seq<ParticleState>)
    requires IsRandom(colorRoll) && AllRolls(rolls)
    ensures |b| == |rolls|
    ensures forall i :: 0 <= i < |b| ==> Newborn(b[i], x, y) && Live(b[i])
    ensures forall i :: 0 <= i < |b| ==> b[i].color == Palette[ColorIndex(colorRoll)]
  {
    seq(|rolls|, i requires 0 <= i < |rolls| => Spawn(x, y, Palette[ColorIndex(colorRoll)], rolls[i]))
  }

  /** One `animate` pass as the source runs it.  `forEach` visits the indices
      fixed when it starts, but an index past the shrunken list is skipped, so
      with `k` the next index the pass stops once `k` reaches the current
      length.  A faded particle (alpha <= 0) is spliced out at `k`, which moves
      its successor to `k`; any other is updated and then drawn. */
  function PassFrom(cur: seq<ParticleState>, k: nat, painted: seq<ParticleState>): (r: PassResult)
    ensures |r.particles| <= |cur|
    ensures |painted| <= |r.painted| && r.painted[..|painted|] == painted
    ensures |r.painted| <= |painted| + (if k <= |cur| then |cur| - k else 0)
    decreases |cur| - k
  {
    if k >= |cur| then PassResult(cur, painted)
    else if cur[k].alpha <= 0.0 then PassFrom(cur[..k] + cur[k + 1..], k + 1, painted)
    else PassFrom(cur[k := Step(cur[k])], k + 1, painted + [Step(cur[k])])
  }

  /** The particles left after a pass and the states drawn during it, in order. */
  datatype PassResult = PassResult(particles: seq<ParticleState>, painted: seq<ParticleState>)

  /** A pass never lengthens the list and draws at most one state per
      particle. */
  function Pass(s: seq<ParticleState>): (r: PassResult)
    ensures |r.particles| <= |s| && |r.painted| <= |s|
  {
    PassFrom(s, 0, [])
  }

  /** What a pass does to each particle of the list it starts from. */
  datatype Fate = Removed | Drawn | Skipped

  /** The fates by original position: a faded particle is removed and the one
      after it is skipped (neither updated nor drawn nor removed), the walk
      resuming after that one; any other visited particle is updated and drawn. */
  function Fates(s: seq<ParticleState>): (f: seq<Fate>)
    ensures |f| == |s|
    decreases |s|
  {
    if s == [] then []
    else if s[0].alpha <= 0.0 then
      if |s| == 1 then [Removed] else [Removed, Skipped] + Fates(s[2..])
    else [Drawn] + Fates(s[1..])
  }

  /** A particle is skipped exactly when its predecessor was removed; a
      particle that is not skipped is removed exactly when it has faded and
      otherwise drawn. */
  lemma {:induction false} FatesAt(s: seq<ParticleState>, j: nat)
    requires j < |s|
    ensures Fates(s)[j] == Skipped <==> (j > 0 && Fates(s)[j - 1] == Removed)
    ensures Fates(s)[j] != Skipped ==> (Fates(s)[j] == Removed <==> s[j].alpha <= 0.0)
    decreases |s|
  {
    if s[0].alpha <= 0.0 && |s| > 1 {
      if j >= 2 {
        FatesAt(s[2..], j - 2);
      }
    } else if s[0].alpha > 0.0 && j >= 1 {
      FatesAt(s[1..], j - 1);
    }
  }

  /** What remains of one particle after a pass, given its fate. */
  function Keep(p: ParticleState, fate: Fate): seq<ParticleState>
  {
    match fate
    case Removed => []
    case Drawn => [Step(p)]
    case Skipped => [p]
  }

  function Survivors(s: seq<ParticleState>, f: seq<Fate>): seq<ParticleState>
    requires |f| == |s|
    decreases |s|
  {
    if s == [] then [] else Keep(s[0], f[0]) + Survivors(s[1..], f[1..])
  }

  /** What one particle adds to the drawn states, given its fate. */
  function Shown(p: ParticleState, fate: Fate): seq<ParticleState>
  {
    if fate == Drawn then [Step(p)] else []
  }

  function Painted(s: seq<ParticleState>, f: seq<Fate>): seq<ParticleState>
    requires |f| == |s|
    decreases |s|
  {
    if s == [] then [] else Shown(s[0], f[0]) + Painted(s[1..], f[1..])
  }

  /** Running the pass from index |done| over `done + s` treats `s` as the
      fates say. */
  lemma {:induction false} PassFromFates(done: seq<ParticleState>, s: seq<ParticleState>, painted: seq<ParticleState>)
    ensures PassFrom(done + s, |done|, painted)
         == PassResult(done + Survivors(s, Fates(s)), painted + Painted(s, Fates(s)))
    decreases |s|, 1
  {
    if s == [] {
      assert done + s == done;
    } else if s[0].alpha > 0.0 {
      PassFromFatesDrawn(done, s, painted);
    } else if |s| == 1 {
      var cur := done + s;
      assert cur[..|done|] + cur[|done| + 1..] == done;
    } else {
      PassFromFatesRemoved(done, s, painted);
    }
  }

  /** PassFromFates when the next particle is visible: it is updated and drawn. */
  lemma {:induction false} PassFromFatesDrawn(done: seq<ParticleState>, s: seq<ParticleState>, painted: seq<ParticleState>)
    requires s != [] && s[0].alpha > 0.0
    ensures PassFrom(done + s, |done|, painted)
         == PassResult(done + Survivors(s, Fates(s)), painted + Painted(s, Fates(s)))
    decreases |s|, 0
  {
    var cur, f, next := done + s, Fates(s), Step(s[0]);
    assert cur[|done|] == s[0];
    assert cur[|done| := next] == (done + [next]) + s[1..];
    PassFromFates(done + [next], s[1..], painted + [next]);
    assert f[1..] == Fates(s[1..]);
  }

  /** PassFromFates when the next particle has faded and has a successor: it
      is spliced out and its successor is skipped. */
  lemma {:induction false} PassFromFatesRemoved(done: seq<ParticleState>, s: seq<ParticleState>, painted: seq<ParticleState>)
    requires |s| >= 2 && s[0].alpha <= 0.0
    ensures PassFrom(done + s, |done|, painted)
         == PassResult(done + Survivors(s, Fates(s)), painted + Painted(s, Fates(s)))
    decreases |s|, 0
  {
    var cur, f, rest := done + s, Fates(s), s[2..];
    assert cur[|done|] == s[0];
    assert cur[..|done|] + cur[|done| + 1..] == (done + [s[1]]) + rest;
    PassFromFates(done + [s[1]], rest, painted);
    assert f[1..][1..] == Fates(rest) && s[1..][1..] == rest;
  }

  /** The source's pass (index walk with splicing) equals the walk by fates. */
  lemma PassByFates(s: seq<ParticleState>)
    ensures Pass(s) == PassResult(Survivors(s, Fates(s)), Painted(s, Fates(s)))
  {
    PassFromFates([], s, []);
    assert [] + s == s;
  }

  function Count(f: seq<Fate>, fate: Fate): nat
    decreases |f|
  {
    if f == [] then 0 else (if f[0] == fate then 1 else 0) + Count(f[1..], fate)
  }

  /** The original positions (plus `base`) of the particles that are not
      removed, in increasing order. */
  function KeptFrom(f: seq<Fate>, base: nat): (ix: seq<nat>)
    ensures |ix| + Count(f, Removed) == |f|
    decreases |f|
  {
    if f == [] then []
    else (if f[0] == Removed then [] else [base]) + KeptFrom(f[1..], base + 1)
  }

  /** Every listed position holds a particle that is not removed. */
  lemma {:induction false} KeptFromKept(f: seq<Fate>, base: nat)
    ensures forall i :: 0 <= i < |KeptFrom(f, base)| ==>
      base <= KeptFrom(f, base)[i] < base + |f| && f[KeptFrom(f, base)[i] - base] != Removed
    decreases |f|
  {
    if f != [] {
      KeptFromKept(f[1..], base + 1);
      var rest := KeptFrom(f[1..], base + 1);
      var ix := KeptFrom(f, base);
      var head := if f[0] == Removed then [] else [base];
      assert ix == head + rest;
      forall i | 0 <= i < |ix|
        ensures base <= ix[i] < base + |f| && f[ix[i] - base] != Removed
      {
        if i >= |head| {
          assert ix[i] == rest[i - |head|];
          assert f[1..][ix[i] - (base + 1)] == f[ix[i] - base];
        }
      }
    }
  }

  /** Every particle that is not removed is listed. */
  lemma {:induction false} KeptFromComplete(f: seq<Fate>, base: nat)
    ensures forall j :: 0 <= j < |f| && f[j] != Removed ==> j + base in KeptFrom(f, base)
    decreases |f|
  {
    if f != [] {
      KeptFromComplete(f[1..], base + 1);
      var rest := KeptFrom(f[1..], base + 1);
      var ix := KeptFrom(f, base);
      var head := if f[0] == Removed then [] else [base];
      assert ix == head + rest;
      forall j | 0 <= j < |f| && f[j] != Removed
        ensures j + base in ix
      {
        if j > 0 {
          assert f[1..][j - 1] == f[j];
          assert (j - 1) + (base + 1) in rest;
        }
      }
    }
  }

  /** The listed positions are in increasing order: relative order is kept. */
  lemma {:induction false} KeptFromIncreasing(f: seq<Fate>, base: nat)
    ensures forall i, i' :: 0 <= i < i' < |KeptFrom(f, base)| ==> KeptFrom(f, base)[i] < KeptFrom(f, base)[i']
    decreases |f|
  {
    if f != [] {
      KeptFromIncreasing(f[1..], base + 1);
      KeptFromKept(f[1..], base + 1);
    }
  }

  /** One survivor per position that is not removed. */
  lemma {:induction false} SurvivorsLength(s: seq<ParticleState>, f: seq<Fate>, base: nat)
    requires |f| == |s|
    ensures |Survivors(s, f)| == |KeptFrom(f, base)|
    decreases |s|
  {
    if s != [] {
      SurvivorsLength(s[1..], f[1..], base + 1);
    }
  }

  /** The i-th survivor is the particle at the i-th kept position, updated
      once if it was drawn and untouched if skipped. */
  lemma {:induction false} SurvivorAt(s: seq<ParticleState>, f: seq<Fate>, base: nat, i: nat)
    requires |f| == |s| && i < |KeptFrom(f, base)|
    ensures var j := KeptFrom(f, base)[i] - base;
      0 <= j < |s| && i < |Survivors(s, f)| && [Survivors(s, f)[i]] == Keep(s[j], f[j])
    decreases |s|, 1
  {
    SurvivorsLength(s, f, base);
    var head := Keep(s[0], f[0]);
    assert Survivors(s, f) == head + Survivors(s[1..], f[1..]);
    if i < |head| {
      assert KeptFrom(f, base)[i] == base;
      assert head == [Survivors(s, f)[i]];
    } else {
      SurvivorAtTail(s, f, base, i);
    }
  }

  /** SurvivorAt past the first particle's contribution: the survivor comes
      from the rest of the list. */
  lemma {:induction false} SurvivorAtTail(s: seq<ParticleState>, f: seq<Fate>, base: nat, i: nat)
    requires |f| == |s| && s != [] && |Keep(s[0], f[0])| <= i < |KeptFrom(f, base)|
    ensures var j := KeptFrom(f, base)[i] - base;
      0 <= j < |s| && i < |Survivors(s, f)| && [Survivors(s, f)[i]] == Keep(s[j], f[j])
    decreases |s|, 0
  {
    var h := |Keep(s[0], f[0])|;
    var rest, restIx := Survivors(s[1..], f[1..]), KeptFrom(f[1..], base + 1);
    var headIx: seq<nat> := if f[0] == Removed then [] else [base];
    assert h == |headIx|;
    assert Survivors(s, f) == Keep(s[0], f[0]) + rest;
    assert KeptFrom(f, base) == headIx + restIx;
    SurvivorAt(s[1..], f[1..], base + 1, i - h);
    var j' := restIx[i - h] - (base + 1);
    assert Survivors(s, f)[i] == rest[i - h];
    assert KeptFrom(f, base)[i] == restIx[i - h];
    assert s[1..][j'] == s[j' + 1] && f[1..][j'] == f[j' + 1];
    assert Keep(s[1..][j'], f[1..][j']) == Keep(s[j' + 1], f[j' + 1]);
  }

  /** The survivors are the particles that are not removed, in their original
      order, each updated once if it was drawn and untouched if skipped. */
  lemma SurvivorsAt(s: seq<ParticleState>, f: seq<Fate>, base: nat)
    requires |f| == |s|
    ensures |Survivors(s, f)| == |KeptFrom(f, base)|
    ensures forall i :: 0 <= i < |Survivors(s, f)| ==>
      var j := KeptFrom(f, base)[i] - base;
      0 <= j < |s| && Survivors(s, f)[i] == if f[j] == Drawn then Step(s[j]) else s[j]
  {
    SurvivorsLength(s, f, base);
    forall i | 0 <= i < |Survivors(s, f)|
      ensures var j := KeptFrom(f, base)[i] - base;
        0 <= j < |s| && Survivors(s, f)[i] == if f[j] == Drawn then Step(s[j]) else s[j]
    {
      SurvivorAt(s, f, base, i);
      var j := KeptFrom(f, base)[i] - base;
      assert [Survivors(s, f)[i]] == Keep(s[j], f[j]);
    }
  }

  /** Every particle drawn in a pass was visible before its update, so its
      opacity plus its decay is positive; its own opacity may already be at
      or below zero. */
  lemma {:induction false} PaintedWereVisible(s: seq<ParticleState>, f: seq<Fate>)
    requires |f| == |s|
    requires forall j :: 0 <= j < |s| && f[j] == Drawn ==> s[j].alpha > 0.0
    ensures |Painted(s, f)| == Count(f, Drawn)
    ensures forall q :: q in Painted(s, f) ==> q.alpha + q.decay > 0.0
    decreases |s|
  {
    if s != [] {
      PaintedWereVisible(s[1..], f[1..]);
    }
  }

  /** One pass, summed up: the survivors are the not-removed particles in
      their original order, the list shrinks by exactly the number removed,
      and the drawn particles are the updated ones. */
  lemma PassShape(s: seq<ParticleState>)
    ensures var f, r := Fates(s), Pass(s);
      var ix := KeptFrom(f, 0);
      |r.particles| == |s| - Count(f, Removed) &&
      |r.particles| == |ix| &&
      (forall i :: 0 <= i < |ix| ==>
        ix[i] < |s| && r.particles[i] == if f[ix[i]] == Drawn then Step(s[ix[i]]) else s[ix[i]]) &&
      |r.painted| == Count(f, Drawn) &&
      (forall q :: q in r.painted ==> q.alpha + q.decay > 0.0)
  {
    var f := Fates(s);
    PassByFates(s);
    SurvivorsAt(s, f, 0);
    forall j | 0 <= j < |s| && f[j] == Drawn
      ensures s[j].alpha > 0.0
    {
      FatesAt(s, j);
    }
    PaintedWereVisible(s, f);
  }

  /** The survivors of two lists laid end to end are those of each, in turn. */
  lemma {:induction false} SurvivorsConcat(a: seq<ParticleState>, fa: seq<Fate>, b: seq<ParticleState>, fb: seq<Fate>)
    requires |fa| == |a| && |fb| == |b|
    ensures Survivors(a + b, fa + fb) == Survivors(a, fa) + Survivors(b, fb)
    decreases |a|
  {
    if a == [] {
      assert a + b == b && fa + fb == fb;
    } else {
      SurvivorsConcat(a[1..], fa[1..], b, fb);
      var ab, fab := a + b, fa + fb;
      assert ab[0] == a[0] && fab[0] == fa[0];
      assert ab[1..] == a[1..] + b && fab[1..] == fa[1..] + fb;
      assert Survivors(ab, fab) == Keep(a[0], fa[0]) + Survivors(a[1..] + b, fa[1..] + fb);
      var k, x, y := Keep(a[0], fa[0]), Survivors(a[1..], fa[1..]), Survivors(b, fb);
      assert Survivors(a, fa) == k + x;
      assert k + (x + y) == (k + x) + y;
    }
  }

  /** What is drawn from two lists laid end to end is what is drawn from
      each, in turn. */
  lemma {:induction false} PaintedConcat(a: seq<ParticleState>, fa: seq<Fate>, b: seq<ParticleState>, fb: seq<Fate>)
    requires |fa| == |a| && |fb| == |b|
    ensures Painted(a + b, fa + fb) == Painted(a, fa) + Painted(b, fb)
    decreases |a|
  {
    if a == [] {
      assert a + b == b && fa + fb == fb;
    } else {
      PaintedConcat(a[1..], fa[1..], b, fb);
      var ab, fab := a + b, fa + fb;
      assert ab[0] == a[0] && fab[0] == fa[0];
      assert ab[1..] == a[1..] + b && fab[1..] == fa[1..] + fb;
      assert Painted(ab, fab) == Shown(a[0], fa[0]) + Painted(a[1..] + b, fa[1..] + fb);
      var k, x, y := Shown(a[0], fa[0]), Painted(a[1..], fa[1..]), Painted(b, fb);
      assert Painted(a, fa) == k + x;
      assert k + (x + y) == (k + x) + y;
    }
  }

  /** Cutting the lists at position j: the survivors of the particles before
      j, then what is kept of the particle at j, then the survivors after it. */
  lemma SurvivorsAround(s: seq<ParticleState>, f: seq<Fate>, j: nat)
    requires |f| == |s| && j < |s|
    ensures Survivors(s, f) == Survivors(s[..j], f[..j]) + Keep(s[j], f[j]) + Survivors(s[j + 1..], f[j + 1..])
  {
    var tail, ftail := s[j..], f[j..];
    assert s == s[..j] + tail && f == f[..j] + ftail;
    SurvivorsConcat(s[..j], f[..j], tail, ftail);
    assert tail[0] == s[j] && tail[1..] == s[j + 1..] && ftail[0] == f[j] && ftail[1..] == f[j + 1..];
    var x, k, y := Survivors(s[..j], f[..j]), Keep(s[j], f[j]), Survivors(s[j + 1..], f[j + 1..]);
    assert Survivors(tail, ftail) == k + y;
    assert x + (k + y) == x + k + y;
  }

  /** Cutting the lists at position j: what is drawn before j, then what the
      particle at j adds, then what is drawn after it. */
  lemma PaintedAround(s: seq<ParticleState>, f: seq<Fate>, j: nat)
    requires |f| == |s| && j < |s|
    ensures Painted(s, f) == Painted(s[..j], f[..j]) + Shown(s[j], f[j]) + Painted(s[j + 1..], f[j + 1..])
  {
    var tail, ftail := s[j..], f[j..];
    assert s == s[..j] + tail && f == f[..j] + ftail;
    PaintedConcat(s[..j], f[..j], tail, ftail);
    assert tail[0] == s[j] && tail[1..] == s[j + 1..] && ftail[0] == f[j] && ftail[1..] == f[j + 1..];
    var x, k, y := Painted(s[..j], f[..j]), Shown(s[j], f[j]), Painted(s[j + 1..], f[j + 1..]);
    assert Painted(tail, ftail) == k + y;
    assert x + (k + y) == x + k + y;
  }

  /** A particle whose fate is Drawn leaves its updated state both in the
      list and among the drawn states. */
  lemma DrawnStays(s: seq<ParticleState>, f: seq<Fate>, j: nat)
    requires |f| == |s| && j < |s| && f[j] == Drawn
    ensures Step(s[j]) in Survivors(s, f) && Step(s[j]) in Painted(s, f)
  {
    SurvivorsAround(s, f, j);
    PaintedAround(s, f, j);
    var before, after := Survivors(s[..j], f[..j]), Survivors(s[j + 1..], f[j + 1..]);
    assert Keep(s[j], f[j]) == [Step(s[j])] && Shown(s[j], f[j]) == [Step(s[j])];
    assert (before + [Step(s[j])] + after)[|before|] == Step(s[j]);
    var drawnBefore, drawnAfter := Painted(s[..j], f[..j]), Painted(s[j + 1..], f[j + 1..]);
    assert (drawnBefore + [Step(s[j])] + drawnAfter)[|drawnBefore|] == Step(s[j]);
  }

  /** A particle whose fate is Skipped stays in the list unchanged and adds
      nothing to the drawn states. */
  lemma SkippedStays(s: seq<ParticleState>, f: seq<Fate>, j: nat)
    requires |f| == |s| && j < |s| && f[j] == Skipped
    ensures s[j] in Survivors(s, f)
    ensures Painted(s, f) == Painted(s[..j], f[..j]) + Painted(s[j + 1..], f[j + 1..])
  {
    SurvivorsAround(s, f, j);
    PaintedAround(s, f, j);
    var before, after := Survivors(s[..j], f[..j]), Survivors(s[j + 1..], f[j + 1..]);
    assert Keep(s[j], f[j]) == [s[j]];
    assert (before + [s[j]] + after)[|before|] == s[j];
    var drawnBefore, drawnAfter := Painted(s[..j], f[..j]), Painted(s[j + 1..], f[j + 1..]);
    assert Shown(s[j], f[j]) == [];
    assert drawnBefore + [] == drawnBefore;
  }

  /** A visited particle that is visible but fades in this update is still
      updated and drawn in this pass, at opacity <= 0, and stays in the list. */
  lemma {:induction false} DrawnWhileFaded(s: seq<ParticleState>, j: nat)
    requires j < |s| && Fates(s)[j] != Skipped && 0.0 < s[j].alpha <= s[j].decay
    ensures Fates(s)[j] == Drawn && Step(s[j]).alpha <= 0.0
    ensures Step(s[j]) in Pass(s).painted && Step(s[j]) in Pass(s).particles
  {
    FatesAt(s, j);
    PassByFates(s);
    DrawnStays(s, Fates(s), j);
  }

  /** The particle right after a visited faded one (which is spliced out) is
      skipped, whatever its own opacity: it stays in the list unchanged and
      adds nothing to what is drawn. */
  lemma {:induction false} SkippedAfterSplice(s: seq<ParticleState>, j: nat)
    requires 0 < j < |s| && Fates(s)[j - 1] != Skipped && s[j - 1].alpha <= 0.0
    ensures Fates(s)[j - 1] == Removed && Fates(s)[j] == Skipped
    ensures s[j] in Pass(s).particles
    ensures var f := Fates(s);
      Pass(s).painted == Painted(s[..j], f[..j]) + Painted(s[j + 1..], f[j + 1..])
  {
    FatesAt(s, j - 1);
    FatesAt(s, j);
    PassByFates(s);
    SkippedStays(s, Fates(s), j);
  }

  function StepAll(s: seq<ParticleState>): (r: seq<ParticleState>)
    ensures |r| == |s|
    decreases |s|
  {
    if s == [] then [] else [Step(s[0])] + StepAll(s[1..])
  }

  /** When no particle has faded, a pass updates and draws every one of them. */
  lemma {:induction false} PassWithoutFaded(s: seq<ParticleState>)
    requires forall j :: 0 <= j < |s| ==> s[j].alpha > 0.0
    ensures Pass(s) == PassResult(StepAll(s), StepAll(s))
  {
    PassByFates(s);
    AllDrawn(s);
  }

  lemma {:induction false} AllDrawn(s: seq<ParticleState>)
    requires forall j :: 0 <= j < |s| ==> s[j].alpha > 0.0
    ensures Survivors(s, Fates(s)) == StepAll(s) && Painted(s, Fates(s)) == StepAll(s)
    decreases |s|
  {
    if s != [] {
      AllDrawn(s[1..]);
    }
  }

  /** A pass keeps every particle live. */
  lemma {:induction false} SurvivorsLive(s: seq<ParticleState>, f: seq<Fate>)
    requires |f| == |s|
    requires forall j :: 0 <= j < |s| ==> Live(s[j])
    ensures forall q :: q in Survivors(s, f) ==> Live(q)
    decreases |s|
  {
    if s != [] {
      SurvivorsLive(s[1..], f[1..]);
    }
  }

  lemma PassKeepsLive(s: seq<ParticleState>)
    requires forall j :: 0 <= j < |s| ==> Live(s[j])
    ensures forall q :: q in Pass(s).particles ==> Live(q)
  {
    PassByFates(s);
    SurvivorsLive(s, Fates(s));
  }

  /** One particle object; `update` changes its fields in place. */
  class Particle {
    var x: real
    var y: real
    var vx: real
    var vy: real
    var color: string
    var alpha: real
    var decay: real

    function State(): ParticleState
      reads this
    {
      ParticleState(x, y, vx, vy, color, alpha, decay)
    }

    constructor (x0: real, y0: real, color0: string, roll: Roll)
      requires IsRoll(roll)
      ensures State() == Spawn(x0, y0, color0, roll)
    {
      x, y, color := x0, y0, color0;
      vx := (roll.vx - 0.5) * 8.0;
      vy := (roll.vy - 0.5) * 8.0;
      alpha := 1.0;
      decay := roll.decay * 0.015 + 0.015;
    }

    method Update()
      modifies this
      ensures State() == Step(old(State()))
      ensures alpha == old(alpha) - decay && color == old(color) && decay == old(decay)
    {
      vx := vx * Drag;
      vy := vy * Drag;
      vy := vy + Gravity;
      x := x + vx;
      y := y + vy;
      alpha := alpha - decay;
    }
  }

  /** The animator: the shared, mutable list of particle objects. */
  class ParticleField {
    var particles: seq<Particle>
    /** The states of `particles`, position by position. */
    ghost var Contents: seq<ParticleState>

    ghost function Elements(): set<Particle>
      reads this
    {
      set p | p in particles
    }

    ghost predicate Valid()
      reads this, Elements()
    {
      |Contents| == |particles| &&
      (forall i, j :: 0 <= i < j < |particles| ==> particles[i] != particles[j]) &&
      (forall i :: 0 <= i < |particles| ==> particles[i].State() == Contents[i]) &&
      (forall i :: 0 <= i < |Contents| ==> Live(Contents[i]))
    }

    constructor ()
      ensures Valid() && Contents == []
    {
      particles := [];
      Contents := [];
    }

    /** `createFirework(x, y)`: one colour is picked from `colorRoll`, then
        BurstSize new particles, one per roll, are pushed. */
    method CreateFirework(x: real, y: real, colorRoll: real, rolls: seq<Roll>)
      requires Valid() && IsRandom(colorRoll) && AllRolls(rolls) && |rolls| == BurstSize
      modifies this
      ensures Valid()
      ensures Contents == old(Contents) + Burst(x, y, colorRoll, rolls)
      ensures |Contents| == |old(Contents)| + BurstSize
      ensures particles[..|old(particles)|] == old(particles)
      ensures fresh(Elements() - old(Elements()))
    {
      var color := Palette[ColorIndex(colorRoll)];
      ghost var burst := Burst(x, y, colorRoll, rolls);
      for i := 0 to BurstSize
        invariant Valid()
        invariant |particles| == |old(particles)| + i
        invariant particles[..|old(particles)|] == old(particles)
        invariant Contents == old(Contents) + burst[..i]
        invariant fresh(Elements() - old(Elements()))
      {
        var p := new Particle(x, y, color, rolls[i]);
        particles := particles + [p];
        Contents := Contents + [p.State()];
        assert burst[..i + 1] == burst[..i] + [burst[i]];
      }
      assert burst[..BurstSize] == burst;
    }

    /** `particles.splice(index, 1)`. */
    method RemoveAt(index: nat)
      requires Valid() && index < |particles|
      modifies this
      ensures Valid()
      ensures Elements() <= old(Elements())
      ensures particles == old(particles)[..index] + old(particles)[index + 1..]
      ensures Contents == old(Contents)[..index] + old(Contents)[index + 1..]
    {
      ghost var ps := particles;
      particles := particles[..index] + particles[index + 1..];
      Contents := Contents[..index] + Contents[index + 1..];
      assert forall i :: 0 <= i < |particles| ==> particles[i] == ps[if i < index then i else i + 1];
    }

    /** `particle.update()` then `particle.draw()` for the particle at
        `index`; returns the state it is drawn with. */
    method UpdateAt(index: nat) returns (drawn: ParticleState)
      requires Valid() && index < |particles|
      modifies this`Contents, particles[index]
      ensures Valid() && particles == old(particles)
      ensures Contents == old(Contents)[index := Step(old(Contents)[index])]
      ensures drawn == Step(old(Contents)[index])
    {
      var particle := particles[index];
      particle.Update();
      drawn := particle.State();
      Contents := Contents[index := drawn];
    }

    /** One `animate` frame without the drawing surface: walks the list as
        `forEach` does, splicing out each faded particle it visits and
        updating, then drawing, every other one.  Returns the states drawn,
        in order. */
    method Animate() returns (painted: seq<ParticleState>)
      requires Valid()
      modifies this, Elements()
      ensures Valid()
      ensures Elements() <= old(Elements())
      ensures PassResult(Contents, painted) == Pass(old(Contents))
    {
      ghost var start := Contents;
      var count := |particles|;
      painted := [];
      for index := 0 to count
        invariant Valid()
        invariant Elements() <= old(Elements())
        invariant |particles| <= count
        invariant PassFrom(Contents, index, painted) == Pass(start)
      {
        if index < |particles| {
          if particles[index].alpha <= 0.0 {
            RemoveAt(index);
          } else {
            var drawn := UpdateAt(index);
            painted := painted + [drawn];
          }
        }
      }
    }
  }
}
