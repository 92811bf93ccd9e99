/** The two per-particle records, the firework types, the tuning constants of the update
    rules, and the pure rules themselves: the in-flight update of one record, the records a
    particle emits, how many emission attempts it makes in one tick, and the capacity gate. */
module Particles {
  import opened Vectors
  import Sequences

  datatype Option<T> = None | Some(value: T)

  /** Hard cap on the number of live particles (the vertex buffer holds this many). */
  const MaxFireworks: nat := 50000
  /** Downward acceleration applied to every particle. */
  const Gravity: real := -30.0

  // Per-type tuning values of the rule table, kept separate as the source has them.
  const StarFadeRate: real := 0.5     // alpha a star loses per second
  const StarShrinkRate: real := 1.0   // scale a star loses per second
  const TrailInterval: real := 0.05   // re-arm interval of a trail star's emission timer
  const SparkScale: real := 0.75      // trail and comet sparks
  const SparkLife: real := 0.4
  const SparkJitter: real := 5.0
  const SparkDrag: real := 0.5        // fraction of the emitter's velocity a spark inherits
  const CometSparkTimer: real := 0.05
  const BurstStarScale: real := 1.5

  datatype FireworkType =
    PeonyRocket | FancyPeonyRocket | StarSimple | StarSmallTrail | CometRocket | BrocadeRocket

  /** Simulation-only record (`FireworkUpdate`); `kind` is the source's `type`. */
  datatype FireworkUpdate = FireworkUpdate(
    kind: FireworkType,
    velocity: Vector3,
    life: real,
    timer: real,
    payloadTypeA: FireworkType,
    payloadTypeB: FireworkType,
    payloadIntA: int,
    payloadIntB: int,
    payloadColourA: Colour,
    payloadColourB: Colour)

  /** Render-only record (`Firework`). */
  datatype Firework = Firework(position: Vector3, scale: real, colour: Colour, rotation: real)

  /** `Random(lo, hi)` as an oracle: the value returned by the call numbered `k`. */
  type RandomOracle = (real, real, nat) -> real

  /** The oracle keeps every draw inside the requested interval. */
  ghost predicate InRange(random: RandomOracle)
  {
    forall lo: real, hi: real, k: nat :: lo <= hi ==> lo <= random(lo, hi, k) <= hi
  }

  /** Three successive draws of `Random(-range, range)`, numbered from `d`, for x, y and z. */
  function Jitter(random: RandomOracle, range: real, d: nat): Vector3
  {
    Vector3(random(-range, range, d), random(-range, range, d + 1), random(-range, range, d + 2))
  }

  predicate IsStar(t: FireworkType)
  {
    t == StarSimple || t == StarSmallTrail
  }

  //------------------------------------------------------------------------------------
  // Trail timer
  //------------------------------------------------------------------------------------

  function TrailMeasure(t: real): nat
  {
    if t > 0.0 then 0 else (-t * 20.0).Floor + 1
  }

  /** Number of iterations of the trail loop `while (timer <= 0) { emit; timer += interval; }`
      entered with timer `t`. */
  function TrailAttempts(t: real): nat
    decreases TrailMeasure(t)
  {
    if t > 0.0 then 0 else 1 + TrailAttempts(t + TrailInterval)
  }

  /** The trail loop stops with a positive timer, no more than one interval above zero when
      it emitted at all; and it emits exactly when it is entered with a timer at or below 0. */
  lemma {:induction false} TrailLoopBounds(t: real)
    ensures TrailAttempts(t) > 0 <==> t <= 0.0
    ensures t + TrailInterval * TrailAttempts(t) as real > 0.0
    ensures t <= 0.0 ==> t + TrailInterval * TrailAttempts(t) as real <= TrailInterval
    decreases TrailMeasure(t)
  {
    if t <= 0.0 {
      TrailLoopBounds(t + TrailInterval);
    }
  }

  /** Timer 0.12 stepped by 0.2: the loop runs twice and leaves 0.02 behind. */
  lemma TrailWorkedExample()
    ensures TrailAttempts(0.12 - 0.2) == 2
    ensures 0.12 - 0.2 + TrailInterval * TrailAttempts(0.12 - 0.2) as real == 0.02
  {
    assert TrailAttempts(0.02) == 0;
    assert TrailAttempts(-0.03) == 1;
  }

  //------------------------------------------------------------------------------------
  // In-flight update of one particle
  //------------------------------------------------------------------------------------

  /** The render record after one tick: moved by the velocity the particle had at the start
      of the tick, and for stars faded and shrunk. */
  function InFlightRender(f: Firework, u: FireworkUpdate, frameTime: real): Firework
  {
    var moved := f.(position := Add(f.position, Scale(u.velocity, frameTime)));
    if IsStar(u.kind) then
      moved.(colour := moved.colour.(a := moved.colour.a - StarFadeRate * frameTime),
             scale := moved.scale - StarShrinkRate * frameTime)
    else moved
  }

  /** The simulation record after one tick: gravity, one tick of life, then for stars the
      velocity damping by `decay` (the factor `powf(0.5, frameTime)`), and for trail stars the
      timer the trail loop leaves behind. */
  function InFlightSim(u: FireworkUpdate, frameTime: real, decay: real): FireworkUpdate
  {
    var v := u.velocity.(y := u.velocity.y + Gravity * frameTime);
    var moved := u.(velocity := v, life := u.life - frameTime);
    match u.kind
    case StarSimple => moved.(velocity := Scale(v, decay))
    case StarSmallTrail =>
      var t := u.timer - frameTime;
      moved.(velocity := Scale(v, decay), timer := t + TrailInterval * TrailAttempts(t) as real)
    case _ => moved
  }

  /** What one tick of in-flight update does to a particle: it keeps its identity (type and
      payload), ages by exactly one tick, moves by its pre-gravity velocity, and falls under
      gravity (before any damping); stars fade and shrink at fixed rates, other types keep
      scale, colour and every other field. */
  lemma InFlightLaws(f: Firework, u: FireworkUpdate, frameTime: real, decay: real)
    ensures var u' := InFlightSim(u, frameTime, decay);
      u'.kind == u.kind && u'.payloadTypeA == u.payloadTypeA && u'.payloadTypeB == u.payloadTypeB &&
      u'.payloadIntA == u.payloadIntA && u'.payloadIntB == u.payloadIntB &&
      u'.payloadColourA == u.payloadColourA && u'.payloadColourB == u.payloadColourB &&
      u'.life == u.life - frameTime
    ensures var u' := InFlightSim(u, frameTime, decay);
      !IsStar(u.kind) ==>
        u'.velocity == Vector3(u.velocity.x, u.velocity.y + Gravity * frameTime, u.velocity.z) &&
        u'.timer == u.timer
    ensures var u' := InFlightSim(u, frameTime, decay);
      IsStar(u.kind) ==>
        u'.velocity == Scale(Vector3(u.velocity.x, u.velocity.y + Gravity * frameTime, u.velocity.z), decay)
    ensures var f' := InFlightRender(f, u, frameTime);
      f'.position == Vector3(f.position.x + u.velocity.x * frameTime,
                             f.position.y + u.velocity.y * frameTime,
                             f.position.z + u.velocity.z * frameTime) &&
      f'.rotation == f.rotation &&
      f'.colour.r == f.colour.r && f'.colour.g == f.colour.g && f'.colour.b == f.colour.b &&
      (IsStar(u.kind) ==> f'.colour.a == f.colour.a - 0.5 * frameTime && f'.scale == f.scale - 1.0 * frameTime) &&
      (!IsStar(u.kind) ==> f'.colour == f.colour && f'.scale == f.scale)
  {
  }

  /** A trail star's timer after one tick lies in (0, interval] when the tick emitted, and
      is its old timer less the tick when it did not. */
  lemma TrailTimerAfterTick(u: FireworkUpdate, frameTime: real, decay: real)
    requires u.kind == StarSmallTrail
    ensures var t' := InFlightSim(u, frameTime, decay).timer;
      0.0 < t' && (TrailAttempts(u.timer - frameTime) > 0 ==> t' <= TrailInterval) &&
      (TrailAttempts(u.timer - frameTime) == 0 ==> t' == u.timer - frameTime)
  {
    TrailLoopBounds(u.timer - frameTime);
  }

  //------------------------------------------------------------------------------------
  // Emitted records
  //------------------------------------------------------------------------------------

  /** Render record of a spark left by a trail star or a comet: at the emitter, small, in the
      emitter's colour, unrotated. */
  function SparkRender(f: Firework): Firework
  {
    Firework(f.position, SparkScale, f.colour, 0.0)
  }

  /** Simulation record of a spark: a short-lived simple star lagging behind the emitter.
      `timer` is what the emitter sets (a comet sets it; a trail star leaves it unset), and
      every field the source leaves unset is taken from `blank`. */
  function SparkSim(velocity: Vector3, jitter: Vector3, timer: real, blank: FireworkUpdate): FireworkUpdate
  {
    blank.(kind := StarSimple, velocity := Add(Scale(velocity, SparkDrag), jitter), life := SparkLife, timer := timer)
  }

  /** The burst entry of the rule table: which star type a rocket releases, the jitter range
      added to the rocket's velocity, and the stars' life and timer. */
  datatype BurstRule = BurstRule(starKind: FireworkType, jitter: real, starLife: real, starTimer: real)

  /** Burst rules. A Peony releases its `payloadTypeA`; a Brocade always releases small trail
      stars whatever its payload says; comets and every other type have no burst. */
  function BurstRuleOf(u: FireworkUpdate): Option<BurstRule>
  {
    match u.kind
    case PeonyRocket => Some(BurstRule(u.payloadTypeA, 50.0, 1.4, 0.0))
    case BrocadeRocket => Some(BurstRule(StarSmallTrail, 60.0, 7.0, 0.05))
    case _ => None
  }

  /** Render record of a burst star: at the burst point, large, in the payload colour. */
  function BurstRender(f: Firework, u: FireworkUpdate): Firework
  {
    Firework(f.position, BurstStarScale, u.payloadColourA, 0.0)
  }

  /** Simulation record of a burst star: the rocket's velocity at burst plus jitter. */
  function BurstSim(rule: BurstRule, velocity: Vector3, jitter: Vector3, blank: FireworkUpdate): FireworkUpdate
  {
    blank.(kind := rule.starKind, velocity := Add(velocity, jitter), life := rule.starLife, timer := rule.starTimer)
  }

  function Repeat<T>(x: T, k: nat): seq<T>
  {
    seq(k, _ => x)
  }

  /** The `k` spark records a trail star or a comet attempts, the `j`-th using the three draws
      from `d + 3j` on. */
  function SparkSims(velocity: Vector3, timer: real, random: RandomOracle, d: nat, k: nat,
                     blank: FireworkUpdate): seq<FireworkUpdate>
  {
    seq(k, j requires 0 <= j < k => SparkSim(velocity, Jitter(random, SparkJitter, d + 3 * j), timer, blank))
  }

  /** The `k` burst-star records a rocket attempts, the `j`-th using the draws from `d + 3j`. */
  function BurstSims(rule: BurstRule, velocity: Vector3, random: RandomOracle, d: nat, k: nat,
                     blank: FireworkUpdate): seq<FireworkUpdate>
  {
    seq(k, j requires 0 <= j < k => BurstSim(rule, velocity, Jitter(random, rule.jitter, d + 3 * j), blank))
  }

  lemma RepeatSnoc<T>(x: T, k: nat)
    ensures Repeat(x, k) + [x] == Repeat(x, k + 1)
  {
  }

  lemma SparkSimsSnoc(velocity: Vector3, timer: real, random: RandomOracle, d: nat, k: nat, blank: FireworkUpdate)
    ensures SparkSims(velocity, timer, random, d, k, blank) +
              [SparkSim(velocity, Jitter(random, SparkJitter, d + 3 * k), timer, blank)]
            == SparkSims(velocity, timer, random, d, k + 1, blank)
  {
  }

  lemma BurstSimsSnoc(rule: BurstRule, velocity: Vector3, random: RandomOracle, d: nat, k: nat, blank: FireworkUpdate)
    ensures BurstSims(rule, velocity, random, d, k, blank) +
              [BurstSim(rule, velocity, Jitter(random, rule.jitter, d + 3 * k), blank)]
            == BurstSims(rule, velocity, random, d, k + 1, blank)
  {
  }

  /** Render records of the `k` emissions attempted by a particle whose state after its
      in-flight update is `f1`, `u1`. */
  function EmittedRenders(f1: Firework, u1: FireworkUpdate, k: nat): seq<Firework>
  {
    if BurstRuleOf(u1).Some? then Repeat(BurstRender(f1, u1), k) else Repeat(SparkRender(f1), k)
  }

  /** Simulation records of those `k` emissions, drawing jitter from call number `d` on. */
  function EmittedSims(u1: FireworkUpdate, k: nat, random: RandomOracle, d: nat,
                       blank: FireworkUpdate): seq<FireworkUpdate>
  {
    match BurstRuleOf(u1)
    case Some(rule) => BurstSims(rule, u1.velocity, random, d, k, blank)
    case None =>
      SparkSims(u1.velocity, if u1.kind == CometRocket then CometSparkTimer else blank.timer, random, d, k, blank)
  }

  /** The records a particle emits, as the rule table sets them out. All start where the
      emitter stands after its move, unrotated. A Peony's stars are of its payload type, in its
      payload colour, scale 1.5, life 1.4 and timer 0; a Brocade's are small trail stars in
      its payload colour, scale 1.5, life 7 and timer 0.05; trail stars and comets leave
      simple-star sparks in their own colour, scale 0.75 and life 0.4, a comet's with timer
      0.05. */
  lemma EmittedRecords(f1: Firework, u1: FireworkUpdate, k: nat, random: RandomOracle, d: nat,
                       blank: FireworkUpdate, j: nat)
    requires j < k
    ensures |EmittedRenders(f1, u1, k)| == |EmittedSims(u1, k, random, d, blank)| == k
    ensures var f, u := EmittedRenders(f1, u1, k)[j], EmittedSims(u1, k, random, d, blank)[j];
      f.position == f1.position && f.rotation == 0.0 &&
      (u1.kind == PeonyRocket ==>
         u.kind == u1.payloadTypeA && f.scale == 1.5 && f.colour == u1.payloadColourA &&
         u.life == 1.4 && u.timer == 0.0) &&
      (u1.kind == BrocadeRocket ==>
         u.kind == StarSmallTrail && f.scale == 1.5 && f.colour == u1.payloadColourA &&
         u.life == 7.0 && u.timer == 0.05) &&
      (u1.kind != PeonyRocket && u1.kind != BrocadeRocket ==>
         u.kind == StarSimple && f.scale == 0.75 && f.colour == f1.colour && u.life == 0.4) &&
      (u1.kind == CometRocket ==> u.timer == 0.05)
  {
  }

  /** Number of stars a burst attempts: the for loop `i < payloadIntA` runs this often. */
  function BurstCount(u: FireworkUpdate): nat
  {
    if u.payloadIntA > 0 then u.payloadIntA else 0
  }

  /** Number of `AddFirework` calls made while updating `u` for one tick: trail sparks for a
      trail star, one spark for a comet, and a burst for a rocket whose life runs out. */
  function Attempts(u: FireworkUpdate, frameTime: real): nat
  {
    match u.kind
    case StarSmallTrail => TrailAttempts(u.timer - frameTime)
    case CometRocket => 1
    case PeonyRocket | BrocadeRocket => if u.life - frameTime <= 0.0 then BurstCount(u) else 0
    case _ => 0
  }

  /** A particle makes no emission attempt in a tick exactly when it is a simple star or a
      fancy peony, a trail star whose timer stays positive, or a Peony or Brocade rocket that
      survives the tick or carries no positive star count. */
  lemma AttemptsZero(u: FireworkUpdate, frameTime: real)
    ensures Attempts(u, frameTime) == 0 <==>
      u.kind == StarSimple || u.kind == FancyPeonyRocket ||
      (u.kind == StarSmallTrail && u.timer - frameTime > 0.0) ||
      ((u.kind == PeonyRocket || u.kind == BrocadeRocket) && (u.life - frameTime > 0.0 || u.payloadIntA <= 0))
  {
    if u.kind == StarSmallTrail {
      TrailLoopBounds(u.timer - frameTime);
    }
  }

  /** Burst count of a Peony carrying 100 stars, with life 0.01, stepped by 0.5. */
  lemma BurstWorkedExample(u: FireworkUpdate)
    requires u.kind == PeonyRocket && u.payloadIntA == 100 && u.life == 0.01
    ensures Attempts(u, 0.5) == 100
    ensures InFlightSim(u, 0.5, 1.0).life <= 0.0
  {
  }

  /** Every emitted velocity is the rocket's or the damped star's velocity perturbed by at
      most the rule's jitter range on each axis. */
  lemma EmittedJitterBounded(u1: FireworkUpdate, k: nat, random: RandomOracle, d: nat,
                             blank: FireworkUpdate, j: nat)
    requires InRange(random)
    requires j < k
    ensures var range := if BurstRuleOf(u1).Some? then BurstRuleOf(u1).value.jitter else SparkJitter;
      var base := if BurstRuleOf(u1).Some? then u1.velocity else Scale(u1.velocity, SparkDrag);
      var v := EmittedSims(u1, k, random, d, blank)[j].velocity;
      base.x - range <= v.x <= base.x + range &&
      base.y - range <= v.y <= base.y + range &&
      base.z - range <= v.z <= base.z + range
  {
    var range := if BurstRuleOf(u1).Some? then BurstRuleOf(u1).value.jitter else SparkJitter;
    var jit := Jitter(random, range, d + 3 * j);
    assert -range <= jit.x <= range && -range <= jit.y <= range && -range <= jit.z <= range;
  }

  //------------------------------------------------------------------------------------
  // Admission gate
  //------------------------------------------------------------------------------------

  /** How many of `k` consecutive append attempts succeed on a store holding `n` records:
      all of them while there is room, never more than fill the store, and fewer only when
      the store ends up full. */
  function Admitted(n: nat, k: nat): (m: nat)
    ensures m <= k
    ensures n <= MaxFireworks ==> n + m <= MaxFireworks
    ensures m < k ==> n + m >= MaxFireworks
    ensures n + k <= MaxFireworks ==> m == k
  {
    if n >= MaxFireworks then 0 else if k <= MaxFireworks - n then k else MaxFireworks - n
  }

  /** The records that survive the gate: the first ones, as many as fit. */
  function Admit<T>(n: nat, attempts: seq<T>): seq<T>
  {
    attempts[..Admitted(n, |attempts|)]
  }

  /** Attempts made in two runs pass the gate as the first run's admitted records followed
      by what the second run admits on the store the first one left. */
  lemma AdmitThen<T>(n: nat, a: seq<T>, b: seq<T>)
    ensures Admit(n, a + b) == Admit(n, a) + Admit(n + |Admit(n, a)|, b)
  {
    var m := Admitted(n, |a|);
    if n + |a| <= MaxFireworks {
      assert m == |a|;
      assert (a + b)[..|a| + Admitted(n + |a|, |b|)] == a + b[..Admitted(n + |a|, |b|)];
    } else {
      assert Admitted(n + m, |b|) == 0;
      assert (a + b)[..m] == a[..m];
    }
  }

  /** One more attempt lands exactly when the store is not yet full. */
  lemma AdmitSnoc<T>(n: nat, attempts: seq<T>, x: T)
    ensures Admit(n, attempts + [x]) ==
      Admit(n, attempts) + (if n + |Admit(n, attempts)| < MaxFireworks then [x] else [])
  {
    var m := Admitted(n, |attempts|);
    if n + m < MaxFireworks {
      assert Admitted(n, |attempts| + 1) == m + 1;
      assert (attempts + [x])[..m + 1] == attempts[..m] + [x];
    } else {
      assert Admitted(n, |attempts| + 1) == m;
      assert (attempts + [x])[..m] == attempts[..m];
    }
  }

  //------------------------------------------------------------------------------------
  // Generations: why one update pass ends
  //------------------------------------------------------------------------------------

  /** Generation of a type: simple stars and fancy peonies emit nothing, trail stars emit
      simple stars, rockets emit stars. */
  function Rank(t: FireworkType): nat
  {
    match t
    case StarSimple => 0
    case FancyPeonyRocket => 0
    case StarSmallTrail => 1
    case _ => 2
  }

  /** What every launch satisfies: a Peony's payload is not itself a rocket that emits. */
  predicate FinitePayload(u: FireworkUpdate)
  {
    u.kind == PeonyRocket ==> Rank(u.payloadTypeA) < 2
  }

  /** Every record a particle emits is of a lower generation than the particle, and is never
      a Peony, so it satisfies the launch assumption whatever its unset fields hold. */
  lemma EmittedLowerRank(u1: FireworkUpdate, k: nat, random: RandomOracle, d: nat, blank: FireworkUpdate)
    requires FinitePayload(u1)
    requires k > 0 ==> Rank(u1.kind) > 0
    ensures forall j :: 0 <= j < k ==>
      Rank(EmittedSims(u1, k, random, d, blank)[j].kind) < Rank(u1.kind) &&
      EmittedSims(u1, k, random, d, blank)[j].kind != PeonyRocket
  {
  }

  /** Number of records of generation `r` in `s`. */
  function RankCount(s: seq<FireworkUpdate>, r: nat): nat
  {
    if s == [] then 0 else (if Rank(s[0].kind) == r then 1 else 0) + RankCount(s[1..], r)
  }

  lemma {:induction false} RankCountAppend(s: seq<FireworkUpdate>, t: seq<FireworkUpdate>, r: nat)
    ensures RankCount(s + t, r) == RankCount(s, r) + RankCount(t, r)
  {
    if s == [] {
      assert s + t == t;
    } else {
      assert (s + t)[1..] == s[1..] + t;
      RankCountAppend(s[1..], t, r);
    }
  }

  lemma {:induction false} RankCountLower(s: seq<FireworkUpdate>, r: nat)
    requires forall k :: 0 <= k < |s| ==> Rank(s[k].kind) < r
    ensures RankCount(s, r) == 0 && RankCount(s, r + 1) == 0
  {
    if s != [] {
      RankCountLower(s[1..], r);
    }
  }

  /** Lexicographic order on the number of pending records of generations 2, 1 and 0. */
  predicate RankLess(s: seq<FireworkUpdate>, t: seq<FireworkUpdate>)
  {
    RankCount(s, 2) < RankCount(t, 2) ||
    (RankCount(s, 2) == RankCount(t, 2) &&
      (RankCount(s, 1) < RankCount(t, 1) ||
       (RankCount(s, 1) == RankCount(t, 1) && RankCount(s, 0) < RankCount(t, 0))))
  }

  /** Bringing the last record to the front keeps the count of each generation. */
  lemma RankCountRotate(s: seq<FireworkUpdate>, r: nat)
    ensures RankCount(Sequences.RotateRight(s), r) == RankCount(s, r)
  {
    if s != [] {
      assert s == s[..|s| - 1] + [s[|s| - 1]];
      RankCountAppend(s[..|s| - 1], [s[|s| - 1]], r);
      RankCountAppend([s[|s| - 1]], s[..|s| - 1], r);
    }
  }

  /** Visiting the pending record `x` removes it from the pending records and adds only
      records of lower generations, in whatever order the removal leaves them. */
  lemma {:induction false} VisitLowersPending(x: FireworkUpdate, rest: seq<FireworkUpdate>,
                                             born: seq<FireworkUpdate>, pending: seq<FireworkUpdate>)
    requires forall k :: 0 <= k < |born| ==> Rank(born[k].kind) < Rank(x.kind)
    requires pending == rest + born || pending == Sequences.RotateRight(rest + born)
    ensures RankLess(pending, [x] + rest)
  {
    forall r: nat ensures RankCount(pending, r) == RankCount(rest, r) + RankCount(born, r) {
      RankCountAppend(rest, born, r);
      RankCountRotate(rest + born, r);
    }
    RankCountAppend([x], rest, 2);
    RankCountAppend([x], rest, 1);
    RankCountAppend([x], rest, 0);
    RankCountLower(born, Rank(x.kind));
  }
}
