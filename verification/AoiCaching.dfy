/** When a cached area-of-interest list is served again and when it is taken afresh, over every run. */
module AoiCaching {
  import opened Geometry
  import opened QuadTreeSpec
  import opened GameModel
  import opened GameInvariant
  import opened AoiAccuracy
  import opened Snapshots

  /** A list of this age, taken that far from where its viewer is now, is not served again. */
  predicate Stale(age: int, from: Vec3, now: Vec3) {
    age >= 3 || (now.x - from.x) * (now.x - from.x) + (now.y - from.y) * (now.y - from.y) >= 100.0
  }

  /** What a tick leaves in the cache of an active viewer: a list taken in the new state exactly when there was
      none or a stale one, and else the one there was. */
  ghost predicate RefreshStep(cfg: Config, s: State, r: State, v: PlayerId) {
    && v in r.cache && v in r.world
    && (r.cache[v].lastUpdateTick == r.tick <==>
          v !in s.cache || Stale(r.tick - s.cache[v].lastUpdateTick, s.cache[v].lastPosition, r.world[v].position))
    && (if r.cache[v].lastUpdateTick == r.tick then TakenIn(cfg, r, v, r.cache[v]) else v in s.cache && r.cache[v] == s.cache[v])
  }

  lemma StaleIff(s: State, id: PlayerId, pos: Vec3)
    requires id in s.cache && s.cache[id].lastUpdateTick <= s.tick
    ensures ShouldUpdateAoi(s, id, pos) <==> Stale(s.tick - s.cache[id].lastUpdateTick, s.cache[id].lastPosition, pos)
  {
    assert DistSq(pos, s.cache[id].lastPosition) ==
           (pos.x - s.cache[id].lastPosition.x) * (pos.x - s.cache[id].lastPosition.x) +
           (pos.y - s.cache[id].lastPosition.y) * (pos.y - s.cache[id].lastPosition.y);
  }

  lemma TickRefresh(cfg: Config, maxDt: real, s: State, step: Step, v: PlayerId)
    requires Invariant(cfg, s) && LegalStep(cfg, maxDt, s, step) && step.Tick? && IsActive(Next(cfg, s, step), v)
    ensures RefreshStep(cfg, s, Next(cfg, s, step), v)
  {
    var mid, r := Serving(cfg, s, step), Next(cfg, s, step);
    TickServes(cfg, s, step, v);
    TickCache(cfg, maxDt, s, step, v);
    if v in s.cache {
      assert GoodCache(s.world, s.tick, v, s.cache[v]);
      StaleIff(mid, v, r.world[v].position);
    }
  }

  lemma StepKeepsCache(cfg: Config, s: State, step: Step, v: PlayerId)
    requires v in s.cache && !(step.Tick? && IsActive(Next(cfg, s, step), v))
    ensures v in Next(cfg, s, step).cache && Next(cfg, s, step).cache[v] == s.cache[v]
  {
    if step.Tick? {
      TickServes(cfg, s, step, v);
    } else {
      CommandsKeepCaches(cfg, s, step.command, step.env);
    }
  }

  /** At every tick of every run the list served to an active viewer is taken in the state just reached,
      exact, if and only if the viewer had none, or the one it had is three or more ticks old or was taken ten
      or more units away; else it is the very one it had. */
  lemma RefreshedIff(cfg: Config, maxDt: real, states: seq<State>, steps: seq<Step>, i: nat, v: PlayerId)
    requires IsRun(cfg, maxDt, states, steps) && i < |steps| && steps[i].Tick? && IsActive(states[i + 1], v)
    ensures RefreshStep(cfg, states[i], states[i + 1], v)
  {
    RunInvariant(cfg, maxDt, states, steps, i);
    TickRefresh(cfg, maxDt, states[i], steps[i], v);
  }

  /** In every step: refreshed or kept as above when a tick serves the viewer, and kept otherwise. */
  ghost predicate RefreshRun(cfg: Config, states: seq<State>, steps: seq<Step>, v: PlayerId) {
    && |states| == |steps| + 1
    && forall i :: 0 <= i < |steps| ==>
         if steps[i].Tick? && IsActive(states[i + 1], v) then RefreshStep(cfg, states[i], states[i + 1], v)
         else v in states[i].cache ==> v in states[i + 1].cache && states[i + 1].cache[v] == states[i].cache[v]
  }

  lemma RunRefreshes(cfg: Config, maxDt: real, states: seq<State>, steps: seq<Step>, v: PlayerId)
    requires IsRun(cfg, maxDt, states, steps)
    ensures RefreshRun(cfg, states, steps, v)
  {
    forall i | 0 <= i < |steps|
      ensures if steps[i].Tick? && IsActive(states[i + 1], v) then RefreshStep(cfg, states[i], states[i + 1], v)
              else v in states[i].cache ==> v in states[i + 1].cache && states[i + 1].cache[v] == states[i].cache[v]
    {
      RunInvariant(cfg, maxDt, states, steps, i);
      if steps[i].Tick? && IsActive(states[i + 1], v) {
        TickRefresh(cfg, maxDt, states[i], steps[i], v);
      } else if v in states[i].cache {
        StepKeepsCache(cfg, states[i], steps[i], v);
      }
    }
  }

  /** Whenever a tick served the viewer from state `j` to `k`, it was less than ten units from the point. */
  ghost predicate StaysNear(states: seq<State>, steps: seq<Step>, j: nat, k: nat, v: PlayerId, point: Vec3)
    requires k < |states| == |steps| + 1
  {
    forall m :: j < m <= k && steps[m - 1].Tick? && IsActive(states[m], v) ==>
      var p := states[m].world[v].position; !Stale(0, point, p)
  }

  lemma {:induction false} KeptWhileFresh(cfg: Config, states: seq<State>, steps: seq<Step>, j: nat, k: nat, v: PlayerId)
    requires RefreshRun(cfg, states, steps, v) && TicksGrow(states) && j <= k < |states| && v in states[j].cache
    requires states[k].tick <= states[j].cache[v].lastUpdateTick + 2
    requires StaysNear(states, steps, j, k, v, states[j].cache[v].lastPosition)
    ensures v in states[k].cache && states[k].cache[v] == states[j].cache[v]
    decreases k
  {
    if j < k {
      TickOrder(states, k - 1, k);
      KeptWhileFresh(cfg, states, steps, j, k - 1, v);
      var i := k - 1;
      if steps[i].Tick? && IsActive(states[i + 1], v) {
        assert RefreshStep(cfg, states[i], states[i + 1], v);
      } else {
        assert v in states[i].cache ==> v in states[i + 1].cache && states[i + 1].cache[v] == states[i].cache[v];
      }
    }
  }

  /** A list is served again for two ticks after the one it was taken at, as long as the viewer is less than
      ten units from where it was taken whenever it is served. */
  lemma ServedForThreeTicks(cfg: Config, maxDt: real, states: seq<State>, steps: seq<Step>, j: nat, k: nat, v: PlayerId)
    requires IsRun(cfg, maxDt, states, steps) && j <= k < |states| && v in states[j].cache
    requires states[k].tick <= states[j].cache[v].lastUpdateTick + 2
    requires StaysNear(states, steps, j, k, v, states[j].cache[v].lastPosition)
    ensures v in states[k].cache && states[k].cache[v] == states[j].cache[v]
  {
    RunRefreshes(cfg, maxDt, states, steps, v);
    RunTicksGrow(cfg, maxDt, states, steps);
    KeptWhileFresh(cfg, states, steps, j, k, v);
  }
}
