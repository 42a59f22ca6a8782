/** How far from the truth a cached area-of-interest list can be, over every run. */
module AoiAccuracy {
  import opened Geometry
  import opened QuadTreeSpec
  import opened GameModel
  import opened GameInvariant

  /** The farthest a player can move in one tick. */
  function PerTick(cfg: Config, maxDt: real): real { cfg.moveSpeed * maxDt }

  /** The farthest a player can move in a number of ticks. */
  function Reach(cfg: Config, maxDt: real, ticks: nat): real { PerTick(cfg, maxDt) * ticks as real }

  lemma ReachGrows(cfg: Config, maxDt: real, ticks: nat, more: nat)
    requires cfg.Valid() && 0.0 <= maxDt
    ensures Reach(cfg, maxDt, 0) == 0.0 && Reach(cfg, maxDt, 1) == PerTick(cfg, maxDt) && 0.0 <= PerTick(cfg, maxDt)
    ensures Reach(cfg, maxDt, ticks + more) == Reach(cfg, maxDt, ticks) + Reach(cfg, maxDt, more)
    ensures 0.0 <= Reach(cfg, maxDt, more)
  {}

  /** The farthest a viewer can be from where its list was taken: ten units, or two ticks of movement. */
  function ViewerSlack(cfg: Config, maxDt: real): real { Min(10.0, Reach(cfg, maxDt, 2)) }

  // ---------------------------------------------------------------- movement

  lemma ScaleWithin(d: Vec3, m: real, k: real)
    requires Within(d, ORIGIN, m) && 0.0 <= k
    ensures Within(d.Scale(k), ORIGIN, m * k)
  {}

  lemma ShiftWithin(p: Vec3, v: Vec3, d: real)
    requires Within(v, ORIGIN, d)
    ensures Within(p, p.Plus(v), d)
  {}

  lemma WithinSelf(p: Vec3, d: real)
    requires 0.0 <= d
    ensures Within(p, p, d)
  {}

  lemma VelocityBounded(cfg: Config, p: Player)
    requires cfg.Valid() && GoodPlayer(cfg, p)
    ensures Within(p.velocity, ORIGIN, cfg.moveSpeed)
  {}

  lemma DisplacementBounded(v: Vec3, speed: real, dt: real, maxDt: real)
    requires Within(v, ORIGIN, speed) && 0.0 <= dt <= maxDt
    ensures Within(v.Scale(dt), ORIGIN, speed * maxDt)
  {
    ScaleWithin(v, speed, dt);
    ProductMonotone(speed, speed, dt, maxDt);
    WithinMonotone(v.Scale(dt), ORIGIN, speed * dt, speed * maxDt);
  }

  /** One tick moves a player by at most its speed times the longest tick. */
  lemma MoveBounded(cfg: Config, p: Player, dt: real, maxDt: real)
    requires cfg.Valid() && GoodPlayer(cfg, p) && 0.0 <= dt <= maxDt
    ensures Within(p.position, Moved(cfg, p, dt).position, PerTick(cfg, maxDt))
  {
    VelocityBounded(cfg, p);
    DisplacementBounded(p.velocity, cfg.moveSpeed, dt, maxDt);
    ShiftWithin(p.position, p.velocity.Scale(dt), PerTick(cfg, maxDt));
    WithinSelf(p.position, PerTick(cfg, maxDt));
  }

  /** No step loses a player, turns the tick number back, or moves anyone farther than its ticks allow. */
  lemma StepDrift(cfg: Config, maxDt: real, s: State, step: Step, q: PlayerId)
    requires cfg.Valid() && 0.0 <= maxDt && Invariant(cfg, s) && LegalStep(cfg, maxDt, s, step) && q in s.world
    ensures var r := Next(cfg, s, step);
            && q in r.world && s.tick <= r.tick
            && Within(s.world[q].position, r.world[q].position, Reach(cfg, maxDt, r.tick - s.tick))
  {
    var r := Next(cfg, s, step);
    ReachGrows(cfg, maxDt, 0, 0);
    if step.Tick? {
      assert r.world == MovedWorld(cfg, s.world, step.dt, s.world.Keys);
      MoveBounded(cfg, s.world[q], step.dt, maxDt);
    } else {
      HandleStays(cfg, s, step.command, step.env, q);
      WithinSelf(s.world[q].position, 0.0);
    }
  }

  /** Commands neither move players nor advance the tick nor touch the caches. */
  lemma HandleStays(cfg: Config, s: State, c: GameCommand, env: Env, q: PlayerId)
    requires q in s.world
    ensures var r := ProcessGameCommand(cfg, s, c, env);
            q in r.world && r.world[q].position == s.world[q].position && r.tick == s.tick && r.cache == s.cache
  {}

  /** From one state to the next nobody disappears or moves farther than the ticks between allow. */
  ghost predicate SlowStep(cfg: Config, maxDt: real, a: State, b: State) {
    && a.tick <= b.tick
    && forall q :: q in a.world ==>
         q in b.world && Within(a.world[q].position, b.world[q].position, Reach(cfg, maxDt, b.tick - a.tick))
  }

  ghost predicate SlowRun(cfg: Config, maxDt: real, states: seq<State>) {
    forall i :: 0 <= i < |states| - 1 ==> SlowStep(cfg, maxDt, states[i], states[i + 1])
  }

  lemma RunIsSlow(cfg: Config, maxDt: real, states: seq<State>, steps: seq<Step>)
    requires cfg.Valid() && 0.0 <= maxDt && IsRun(cfg, maxDt, states, steps)
    ensures SlowRun(cfg, maxDt, states)
  {
    forall i | 0 <= i < |states| - 1 ensures SlowStep(cfg, maxDt, states[i], states[i + 1]) {
      RunInvariant(cfg, maxDt, states, steps, i);
      StepIsSlow(cfg, maxDt, states[i], steps[i]);
    }
  }

  lemma StepIsSlow(cfg: Config, maxDt: real, s: State, step: Step)
    requires cfg.Valid() && 0.0 <= maxDt && Invariant(cfg, s) && LegalStep(cfg, maxDt, s, step)
    ensures SlowStep(cfg, maxDt, s, Next(cfg, s, step))
  {
    forall q | q in s.world ensures
        var r := Next(cfg, s, step);
        && q in r.world && s.tick <= r.tick
        && Within(s.world[q].position, r.world[q].position, Reach(cfg, maxDt, r.tick - s.tick)) {
      StepDrift(cfg, maxDt, s, step, q);
    }
  }

  /** Between any two states of a run, a player moves at most one tick's distance per tick. */
  lemma {:induction false} Drift(cfg: Config, maxDt: real, states: seq<State>, j: nat, i: nat, q: PlayerId)
    requires cfg.Valid() && 0.0 <= maxDt && SlowRun(cfg, maxDt, states) && j <= i < |states| && q in states[j].world
    ensures q in states[i].world && states[j].tick <= states[i].tick
    ensures Within(states[j].world[q].position, states[i].world[q].position,
                   Reach(cfg, maxDt, states[i].tick - states[j].tick))
    decreases i
  {
    if i == j {
      ReachGrows(cfg, maxDt, 0, 0);
      WithinSelf(states[j].world[q].position, 0.0);
    } else {
      var before, s, now := states[j], states[i - 1], states[i];
      Drift(cfg, maxDt, states, j, i - 1, q);
      assert SlowStep(cfg, maxDt, s, states[i - 1 + 1]);
      AddLegs(cfg, maxDt, before.world[q].position, s.world[q].position, now.world[q].position,
              s.tick - before.tick, now.tick - s.tick);
    }
  }

  lemma AddLegs(cfg: Config, maxDt: real, p: Vec3, q: Vec3, r: Vec3, m: nat, n: nat)
    requires cfg.Valid() && 0.0 <= maxDt
    requires Within(p, q, Reach(cfg, maxDt, m)) && Within(q, r, Reach(cfg, maxDt, n))
    ensures Within(p, r, Reach(cfg, maxDt, m + n))
  {
    Triangle(p, q, r, Reach(cfg, maxDt, m), Reach(cfg, maxDt, n));
    ReachGrows(cfg, maxDt, m, n);
  }

  // ---------------------------------------------------------------- where a cached list comes from

  /** The list was taken in state `s`: from the viewer's position there, it names each active player in
      range once and nobody else. */
  ghost predicate TakenIn(cfg: Config, s: State, v: PlayerId, c: AoiCache) {
    && IsActive(s, v) && c.lastUpdateTick == s.tick && c.lastPosition == s.world[v].position
    && multiset(c.visible) == multiset(BruteForce(ActivePositions(s.world), c.lastPosition, cfg.aoiRange))
  }

  /** A list that may be served in `s`: taken there, or kept from `before`, at most two ticks old, and
      taken less than ten units from where the viewer is. */
  ghost predicate Servable(cfg: Config, before: map<PlayerId, AoiCache>, s: State, v: PlayerId, c: AoiCache) {
    && v in s.world
    && (TakenIn(cfg, s, v, c) || (v in before && c == before[v]))
    && c.lastUpdateTick <= s.tick <= c.lastUpdateTick + 2
    && Within(c.lastPosition, s.world[v].position, 10.0)
  }

  lemma UnderThreshold(p: Vec3, q: Vec3)
    requires DistSq(p, q) < AOI_POSITION_THRESHOLD * AOI_POSITION_THRESHOLD
    ensures Within(q, p, 10.0)
  {}

  lemma CacheForServable(cfg: Config, s: State, v: PlayerId)
    requires IndexAgrees(cfg, s.world, s.index) && IsActive(s, v)
    ensures Servable(cfg, s.cache, s, v, CacheFor(cfg, s, v, s.world[v].position))
  {
    var pos := s.world[v].position;
    if ShouldUpdateAoi(s, v, pos) {
      FreshListExact(cfg, s.world, s.index, pos);
      WithinSelf(pos, 10.0);
    } else {
      UnderThreshold(pos, s.cache[v].lastPosition);
    }
  }

  /** The state in which a tick serves its lists: the world updated and the tick counted. */
  function Serving(cfg: Config, s: State, step: Step): State
    requires step.Tick?
  {
    var u := UpdateWorld(cfg, s, step.dt, step.order);
    u.(tick := u.tick + 1)
  }

  /** What a tick leaves of that state, and the list each viewer ends up with. */
  lemma TickServes(cfg: Config, s: State, step: Step, v: PlayerId)
    requires step.Tick?
    ensures var r, mid := Next(cfg, s, step), Serving(cfg, s, step);
            && r.world == mid.world && r.tick == mid.tick == s.tick + 1 && mid.cache == s.cache
            && IsActive(r, v) == IsActive(s, v)
            && (if IsActive(r, v) then v in r.cache && r.cache[v] == CacheFor(cfg, mid, v, r.world[v].position)
                else v in r.cache ==> v in s.cache && r.cache[v] == s.cache[v])
  {}

  /** A tick leaves a servable list for each active viewer, and every other list as it was. */
  lemma TickCache(cfg: Config, maxDt: real, s: State, step: Step, v: PlayerId)
    requires Invariant(cfg, s) && LegalStep(cfg, maxDt, s, step) && step.Tick?
    ensures var r := Next(cfg, s, step);
            if IsActive(r, v) then v in r.cache && Servable(cfg, s.cache, r, v, r.cache[v])
            else v in r.cache ==> v in s.cache && r.cache[v] == s.cache[v]
  {
    var mid := Serving(cfg, s, step);
    ReindexedAgrees(cfg, s.world, s.index, step.dt, step.order);
    TickServes(cfg, s, step, v);
    if IsActive(mid, v) {
      CacheForServable(cfg, mid, v);
      SameServable(cfg, s.cache, mid, Next(cfg, s, step), v, CacheFor(cfg, mid, v, mid.world[v].position));
    }
  }

  lemma SameServable(cfg: Config, before: map<PlayerId, AoiCache>, s: State, r: State, v: PlayerId, c: AoiCache)
    requires Servable(cfg, before, s, v, c) && r.world == s.world && r.tick == s.tick
    ensures Servable(cfg, before, r, v, c)
  {}

  /** What a step may do to the caches. */
  ghost predicate CacheStep(cfg: Config, a: State, isTick: bool, b: State) {
    forall v :: if isTick && IsActive(b, v) then v in b.cache && Servable(cfg, a.cache, b, v, b.cache[v])
                else v in b.cache ==> v in a.cache && b.cache[v] == a.cache[v]
  }

  ghost predicate CacheRun(cfg: Config, states: seq<State>, steps: seq<Step>) {
    && |states| == |steps| + 1 && states[0].cache == map[]
    && forall i :: 0 <= i < |steps| ==> CacheStep(cfg, states[i], steps[i].Tick?, states[i + 1])
  }

  lemma StepCaches(cfg: Config, maxDt: real, s: State, step: Step)
    requires Invariant(cfg, s) && LegalStep(cfg, maxDt, s, step)
    ensures CacheStep(cfg, s, step.Tick?, Next(cfg, s, step))
  {
    if step.Tick? {
      forall v ensures var r := Next(cfg, s, step);
                       if IsActive(r, v) then v in r.cache && Servable(cfg, s.cache, r, v, r.cache[v])
                       else v in r.cache ==> v in s.cache && r.cache[v] == s.cache[v] {
        TickCache(cfg, maxDt, s, step, v);
      }
    } else {
      CommandsKeepCaches(cfg, s, step.command, step.env);
    }
  }

  lemma RunCaches(cfg: Config, maxDt: real, states: seq<State>, steps: seq<Step>)
    requires IsRun(cfg, maxDt, states, steps)
    ensures CacheRun(cfg, states, steps)
  {
    forall i | 0 <= i < |steps| ensures CacheStep(cfg, states[i], steps[i].Tick?, states[i + 1]) {
      RunInvariant(cfg, maxDt, states, steps, i);
      StepCaches(cfg, maxDt, states[i], steps[i]);
    }
  }

  /** Every cached list of every run was taken in some earlier state of that run. */
  lemma {:induction false} CacheOrigin(cfg: Config, states: seq<State>, steps: seq<Step>, i: nat, v: PlayerId)
    returns (j: nat)
    requires CacheRun(cfg, states, steps) && i < |states| && v in states[i].cache
    ensures j <= i && TakenIn(cfg, states[j], v, states[i].cache[v])
  {
    if TakenIn(cfg, states[i], v, states[i].cache[v]) {
      return i;
    }
    assert CacheStep(cfg, states[i - 1], steps[i - 1].Tick?, states[i - 1 + 1]);
    j := CacheOrigin(cfg, states, steps, i - 1, v);
  }

  lemma CommandsKeepCaches(cfg: Config, s: State, c: GameCommand, env: Env)
    ensures ProcessGameCommand(cfg, s, c, env).cache == s.cache
  {}

  // ---------------------------------------------------------------- accuracy

  /** Distance from `q` to `v` now, given their distance when the list was taken, or the reverse. */
  lemma Detour(q0: Vec3, q1: Vec3, v0: Vec3, v1: Vec3, dq: real, dv: real, d: real)
    requires Within(q0, q1, dq) && Within(v0, v1, dv)
    ensures Within(q0, v0, d) ==> Within(q1, v1, d + dv + dq)
    ensures Within(q1, v1, d) ==> Within(q0, v0, d + dv + dq)
  {
    WithinSymmetric(q0, q1, dq);
    WithinSymmetric(v0, v1, dv);
    if Within(q0, v0, d) {
      Triangle(q1, q0, v0, dq, d);
      Triangle(q1, v0, v1, dq + d, dv);
    }
    if Within(q1, v1, d) {
      Triangle(q0, q1, v1, dq, d);
      Triangle(q0, v1, v0, dq + d, dv);
    }
  }

  ghost predicate Near(cfg: Config, maxDt: real, s: State, q: PlayerId, v: PlayerId) {
    && q in s.world && v in s.world
    && Within(s.world[q].position, s.world[v].position, cfg.aoiRange + ViewerSlack(cfg, maxDt) + Reach(cfg, maxDt, 2))
  }

  ghost predicate WellInside(cfg: Config, maxDt: real, s: State, q: PlayerId, v: PlayerId) {
    && q in s.world && v in s.world
    && Within(s.world[q].position, s.world[v].position, cfg.aoiRange - ViewerSlack(cfg, maxDt) - Reach(cfg, maxDt, 2))
  }

  /** Drift over the at most two ticks that a served list can be old. */
  lemma DriftTwo(cfg: Config, maxDt: real, states: seq<State>, j: nat, i: nat, q: PlayerId)
    requires cfg.Valid() && 0.0 <= maxDt && SlowRun(cfg, maxDt, states) && j <= i < |states| && q in states[j].world
    requires states[i].tick <= states[j].tick + 2
    ensures q in states[i].world
    ensures Within(states[j].world[q].position, states[i].world[q].position, Reach(cfg, maxDt, 2))
  {
    Drift(cfg, maxDt, states, j, i, q);
    var age := states[i].tick - states[j].tick;
    ReachGrows(cfg, maxDt, age, 2 - age);
    WithinMonotone(states[j].world[q].position, states[i].world[q].position, Reach(cfg, maxDt, age), Reach(cfg, maxDt, 2));
  }

  /** Given how far each has moved since the list was taken, who is on it and who must be. */
  lemma ListQuality(cfg: Config, maxDt: real, past: State, now: State, c: AoiCache, q: PlayerId, v: PlayerId)
    requires TakenIn(cfg, past, v, c) && q in past.world && q in now.world && v in now.world && 0.0 <= cfg.aoiRange
    requires Within(past.world[q].position, now.world[q].position, Reach(cfg, maxDt, 2))
    requires Within(past.world[v].position, now.world[v].position, ViewerSlack(cfg, maxDt))
    ensures q in c.visible ==> Near(cfg, maxDt, now, q, v)
    ensures IsActive(past, q) && WellInside(cfg, maxDt, now, q, v) ==> q in c.visible
  {
    var q0, q1, v0, v1 := past.world[q].position, now.world[q].position, past.world[v].position, now.world[v].position;
    var dq, dv := Reach(cfg, maxDt, 2), ViewerSlack(cfg, maxDt);
    Detour(q0, q1, v0, v1, dq, dv, cfg.aoiRange);
    Detour(q0, q1, v0, v1, dq, dv, cfg.aoiRange - dv - dq);
    ListedIff(cfg, past, v, c, q);
  }

  lemma ListedIff(cfg: Config, s: State, v: PlayerId, c: AoiCache, q: PlayerId)
    requires TakenIn(cfg, s, v, c) && 0.0 <= cfg.aoiRange
    ensures q in c.visible <==> IsActive(s, q) && Within(s.world[q].position, s.world[v].position, cfg.aoiRange)
  {
    var range := BruteForce(ActivePositions(s.world), c.lastPosition, cfg.aoiRange);
    assert q in c.visible <==> q in multiset(c.visible);
    assert q in range <==> q in multiset(range);
  }

  lemma ListedKnown(cfg: Config, s: State, v: PlayerId, c: AoiCache, q: PlayerId)
    requires TakenIn(cfg, s, v, c) && 0.0 <= cfg.aoiRange && q in c.visible
    ensures q in s.world
  {
    ListedIff(cfg, s, v, c, q);
  }

  /** The list served to an active viewer at any tick of any run was taken in a state at most two ticks
      back; everyone on it is now within the range plus slack; and everyone who was active when it was
      taken and is now within the range minus slack is on it. */
  lemma AoiAccuracy(cfg: Config, maxDt: real, states: seq<State>, steps: seq<Step>, i: nat, v: PlayerId)
    returns (j: nat)
    requires cfg.Valid() && 0.0 <= maxDt && IsRun(cfg, maxDt, states, steps)
    requires 0 < i < |states| && steps[i - 1].Tick? && IsActive(states[i], v)
    ensures v in states[i].cache && j <= i && TakenIn(cfg, states[j], v, states[i].cache[v])
    ensures states[i].tick <= states[j].tick + 2
    ensures forall q :: q in states[i].cache[v].visible ==> Near(cfg, maxDt, states[i], q, v)
    ensures forall q :: IsActive(states[j], q) && WellInside(cfg, maxDt, states[i], q, v) ==> q in states[i].cache[v].visible
  {
    j := ServedOrigin(cfg, maxDt, states, steps, i, v);
    RunIsSlow(cfg, maxDt, states, steps);
    var past, now := states[j], states[i];
    var c := now.cache[v];
    forall q | q in c.visible ensures Near(cfg, maxDt, now, q, v) {
      ListedKnown(cfg, past, v, c, q);
      DriftTwo(cfg, maxDt, states, j, i, q);
      ListQuality(cfg, maxDt, past, now, c, q, v);
    }
    forall q | IsActive(past, q) && WellInside(cfg, maxDt, now, q, v) ensures q in c.visible {
      DriftTwo(cfg, maxDt, states, j, i, q);
      ListQuality(cfg, maxDt, past, now, c, q, v);
    }
  }

  /** The state in which a served list was taken, its age, and the viewer's move since. */
  lemma ServedOrigin(cfg: Config, maxDt: real, states: seq<State>, steps: seq<Step>, i: nat, v: PlayerId)
    returns (j: nat)
    requires cfg.Valid() && 0.0 <= maxDt && IsRun(cfg, maxDt, states, steps)
    requires 0 < i < |states| && steps[i - 1].Tick? && IsActive(states[i], v)
    ensures v in states[i].cache && j <= i && TakenIn(cfg, states[j], v, states[i].cache[v])
    ensures states[i].tick <= states[j].tick + 2
    ensures Within(states[j].world[v].position, states[i].world[v].position, ViewerSlack(cfg, maxDt))
  {
    RunCaches(cfg, maxDt, states, steps);
    assert CacheStep(cfg, states[i - 1], true, states[i - 1 + 1]);
    j := CacheOrigin(cfg, states, steps, i, v);
    RunIsSlow(cfg, maxDt, states, steps);
    DriftTwo(cfg, maxDt, states, j, i, v);
    EitherSlack(cfg, maxDt, states[j].world[v].position, states[i].world[v].position);
  }

  lemma EitherSlack(cfg: Config, maxDt: real, p: Vec3, q: Vec3)
    requires Within(p, q, 10.0) && Within(p, q, Reach(cfg, maxDt, 2))
    ensures Within(p, q, ViewerSlack(cfg, maxDt))
  {}

  /** A player active throughout the last two ticks and well inside the range is on the served list. */
  lemma LongActiveAreListed(cfg: Config, maxDt: real, states: seq<State>, steps: seq<Step>, i: nat, v: PlayerId, q: PlayerId)
    requires cfg.Valid() && 0.0 <= maxDt && IsRun(cfg, maxDt, states, steps)
    requires 0 < i < |states| && steps[i - 1].Tick? && IsActive(states[i], v)
    requires forall k :: 0 <= k <= i && states[i].tick <= states[k].tick + 2 ==> IsActive(states[k], q)
    requires WellInside(cfg, maxDt, states[i], q, v)
    ensures v in states[i].cache && q in states[i].cache[v].visible
  {
    var j := AoiAccuracy(cfg, maxDt, states, steps, i, v);
  }
}
