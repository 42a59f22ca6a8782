/** How runs of the game loop are put together: batches of commands followed by ticks. */
module GameRuns {
  import opened QuadTreeSpec
  import opened GameModel
  import GameInvariant

  /** Each state leads to the next by its step. */
  ghost predicate Linked<S, L>(leads: (S, L, S) -> bool, states: seq<S>, steps: seq<L>) {
    |states| == |steps| + 1 && forall i :: 0 <= i < |steps| ==> leads(states[i], steps[i], states[i + 1])
  }

  lemma AppendLink<S, L>(leads: (S, L, S) -> bool, states: seq<S>, steps: seq<L>, step: L, r: S)
    requires Linked(leads, states, steps) && leads(states[|steps|], step, r)
    ensures Linked(leads, states + [r], steps + [step])
  {}

  lemma AppendStep(cfg: Config, maxDt: real, states: seq<State>, steps: seq<Step>, step: Step, r: State)
    requires IsRun(cfg, maxDt, states, steps) && LegalStep(cfg, maxDt, states[|steps|], step) && r == Next(cfg, states[|steps|], step)
    ensures IsRun(cfg, maxDt, states + [r], steps + [step])
  {
    var leads := (s: State, l: Step, t: State) => LegalStep(cfg, maxDt, s, l) && t == Next(cfg, s, l);
    assert Linked(leads, states, steps);
    AppendLink(leads, states, steps, step, r);
  }

  /** The state after a batch of commands, each handled in its own surroundings. */
  function ProcessAll(cfg: Config, s: State, batch: seq<GameCommand>, envs: nat -> Env): State {
    if batch == [] then s
    else
      var n := |batch| - 1;
      ProcessGameCommand(cfg, ProcessAll(cfg, s, batch[..n], envs), batch[n], envs(n))
  }

  ghost predicate LegalEnvs(cfg: Config, envs: nat -> Env) {
    forall k: nat :: IsSpawnPoint(cfg, envs(k).spawn) && envs(k).checkedAt <= envs(k).stampedAt
  }

  function HandleSteps(batch: seq<GameCommand>, envs: nat -> Env): seq<Step> {
    if batch == [] then []
    else HandleSteps(batch[..|batch| - 1], envs) + [Handle(batch[|batch| - 1], envs(|batch| - 1))]
  }

  /** The states that handling a batch passes through, the first not included. */
  function HandleStates(cfg: Config, s: State, batch: seq<GameCommand>, envs: nat -> Env): seq<State> {
    if batch == [] then []
    else HandleStates(cfg, s, batch[..|batch| - 1], envs) + [ProcessAll(cfg, s, batch, envs)]
  }

  /** A batch of commands goes on with a run. */
  lemma {:induction false} BatchInRun(cfg: Config, maxDt: real, states: seq<State>, steps: seq<Step>, batch: seq<GameCommand>, envs: nat -> Env)
    requires IsRun(cfg, maxDt, states, steps) && LegalEnvs(cfg, envs)
    ensures var ss := states + HandleStates(cfg, states[|steps|], batch, envs);
            var ts := steps + HandleSteps(batch, envs);
            IsRun(cfg, maxDt, ss, ts) && ss[|ts|] == ProcessAll(cfg, states[|steps|], batch, envs)
  {
    var s := states[|steps|];
    if batch == [] {
      assert states + [] == states && steps + [] == steps;
    } else {
      var n := |batch| - 1;
      BatchInRun(cfg, maxDt, states, steps, batch[..n], envs);
      var ss, ts := states + HandleStates(cfg, s, batch[..n], envs), steps + HandleSteps(batch[..n], envs);
      var r := ProcessAll(cfg, s, batch, envs);
      AppendStep(cfg, maxDt, ss, ts, Handle(batch[n], envs(n)), r);
      assert states + HandleStates(cfg, s, batch, envs) == ss + [r];
      assert steps + HandleSteps(batch, envs) == ts + [Handle(batch[n], envs(n))];
    }
  }

  /** One iteration of the game loop goes on with a run: a batch of commands and a tick. */
  lemma IterationInRun(cfg: Config, maxDt: real, states: seq<State>, steps: seq<Step>, batch: seq<GameCommand>, envs: nat -> Env,
                       tick: Step, r: State)
    requires IsRun(cfg, maxDt, states, steps) && LegalEnvs(cfg, envs)
    requires var handled := ProcessAll(cfg, states[|steps|], batch, envs);
             tick.Tick? && 0.0 <= tick.dt <= maxDt && Enumerates(tick.order, handled.world.Keys) && r == Next(cfg, handled, tick)
    ensures var ss := states + HandleStates(cfg, states[|steps|], batch, envs) + [r];
            var ts := steps + HandleSteps(batch, envs) + [tick];
            IsRun(cfg, maxDt, ss, ts) && ss[|ts|] == r
  {
    BatchInRun(cfg, maxDt, states, steps, batch, envs);
    AppendStep(cfg, maxDt, states + HandleStates(cfg, states[|steps|], batch, envs), steps + HandleSteps(batch, envs), tick, r);
  }
}
