/** A player's state as a function of its past: who is active, through which session, and how a player
    moves, over every run. */
module PlayerHistory {
  import opened Geometry
  import opened QuadTreeSpec
  import opened GameModel
  import opened GameInvariant
  import opened InputRate

  // ---------------------------------------------------------------- activity

  /** Entering makes active, disconnecting inactive, nothing else matters; and only the entry that
      activates a player decides its session. */
  ghost predicate ActivityStep(s: State, step: Step, r: State, p: PlayerId) {
    && (IsActive(r, p) <==> Enters(step, p) || (IsActive(s, p) && !IsDisconnect(step, p)))
    && (IsActive(r, p) ==>
          r.world[p].session == if IsActive(s, p) then s.world[p].session else step.command.payload.session)
  }

  lemma NextActivity(cfg: Config, s: State, step: Step, p: PlayerId)
    ensures ActivityStep(s, step, Next(cfg, s, step), p)
  {
    if step.Tick? {
      assert Next(cfg, s, step).world == MovedWorld(cfg, s.world, step.dt, s.world.Keys);
    }
  }

  ghost predicate ActivityRun(states: seq<State>, steps: seq<Step>, p: PlayerId) {
    && |states| == |steps| + 1 && !IsActive(states[0], p)
    && forall i :: 0 <= i < |steps| ==> ActivityStep(states[i], steps[i], states[i + 1], p)
  }

  lemma RunActivity(cfg: Config, maxDt: real, states: seq<State>, steps: seq<Step>, p: PlayerId)
    requires IsRun(cfg, maxDt, states, steps)
    ensures ActivityRun(states, steps, p)
  {
    forall i | 0 <= i < |steps| ensures ActivityStep(states[i], steps[i], states[i + 1], p) {
      NextActivity(cfg, states[i], steps[i], p);
    }
  }

  /** Player `p` entered at step `i` and has not disconnected since. */
  ghost predicate StillIn(steps: seq<Step>, i: nat, k: nat, p: PlayerId) {
    i < k <= |steps| && Enters(steps[i], p) && forall m :: i < m < k ==> !IsDisconnect(steps[m], p)
  }

  lemma {:induction false} ActiveSince(states: seq<State>, steps: seq<Step>, k: nat, p: PlayerId)
    requires ActivityRun(states, steps, p) && k < |states|
    ensures IsActive(states[k], p) <==> exists i: nat :: StillIn(steps, i, k, p)
  {
    if k > 0 {
      ActiveSince(states, steps, k - 1, p);
      var last := steps[k - 1];
      assert ActivityStep(states[k - 1], last, states[k - 1 + 1], p);
      if IsActive(states[k], p) {
        if Enters(last, p) {
          assert StillIn(steps, k - 1, k, p);
        } else {
          var i: nat :| StillIn(steps, i, k - 1, p);
          assert StillIn(steps, i, k, p);
        }
      } else {
        forall i: nat ensures !StillIn(steps, i, k, p) {
          if StillIn(steps, i, k, p) {
            assert i < k - 1 ==> StillIn(steps, i, k - 1, p);
          }
        }
      }
    }
  }

  /** In every run a player is active exactly when it entered from a registered session and has not
      disconnected since. */
  lemma ActiveIff(cfg: Config, maxDt: real, states: seq<State>, steps: seq<Step>, k: nat, p: PlayerId)
    requires IsRun(cfg, maxDt, states, steps) && k < |states|
    ensures IsActive(states[k], p) <==> exists i: nat :: StillIn(steps, i, k, p)
  {
    RunActivity(cfg, maxDt, states, steps, p);
    ActiveSince(states, steps, k, p);
  }

  /** An active player's session is that of the entry that made it active, however often it entered
      again since. */
  lemma {:induction false} SessionSince(states: seq<State>, steps: seq<Step>, k: nat, p: PlayerId) returns (i: nat)
    requires ActivityRun(states, steps, p) && k < |states| && IsActive(states[k], p)
    ensures StillIn(steps, i, k, p) && !IsActive(states[i], p)
    ensures states[k].world[p].session == steps[i].command.payload.session
  {
    assert ActivityStep(states[k - 1], steps[k - 1], states[k - 1 + 1], p);
    if IsActive(states[k - 1], p) && !IsDisconnect(steps[k - 1], p) {
      i := SessionSince(states, steps, k - 1, p);
    } else {
      i := k - 1;
    }
  }

  lemma SessionIsEntry(cfg: Config, maxDt: real, states: seq<State>, steps: seq<Step>, k: nat, p: PlayerId) returns (i: nat)
    requires IsRun(cfg, maxDt, states, steps) && k < |states| && IsActive(states[k], p)
    ensures StillIn(steps, i, k, p) && !IsActive(states[i], p)
    ensures states[k].world[p].session == steps[i].command.payload.session
  {
    RunActivity(cfg, maxDt, states, steps, p);
    i := SessionSince(states, steps, k, p);
  }

  // ---------------------------------------------------------------- first entry

  /** Where a player that is new in the next state comes from. */
  lemma StepEntry(cfg: Config, s: State, step: Step, p: PlayerId)
    requires p !in s.world && p in Next(cfg, s, step).world
    ensures Enters(step, p)
    ensures Next(cfg, s, step).world[p] ==
            Player(step.env.spawn, Vec3(0.0, 0.0, 0.0), true, step.command.payload.session, 0, 0, 0)
  {
    assert step.Tick? ==> Next(cfg, s, step).world.Keys == s.world.Keys;
  }

  /** In every run a player that is new was brought in by an enter-zone command from a registered session. It
      stands at the spawn point drawn for it, in the world and in the index, at rest and with an empty
      input record. */
  lemma FirstEntry(cfg: Config, maxDt: real, states: seq<State>, steps: seq<Step>, i: nat, p: PlayerId)
    requires IsRun(cfg, maxDt, states, steps) && i < |steps| && p !in states[i].world && p in states[i + 1].world
    ensures Enters(steps[i], p)
    ensures states[i + 1].world[p] ==
            Player(steps[i].env.spawn, Vec3(0.0, 0.0, 0.0), true, steps[i].command.payload.session, 0, 0, 0)
    ensures p in states[i + 1].index.positions && states[i + 1].index.positions[p] == steps[i].env.spawn
  {
    StepEntry(cfg, states[i], steps[i], p);
    RunInvariant(cfg, maxDt, states, steps, i + 1);
  }

  /** A player is in the world exactly when it has ever entered from a registered session. */
  lemma KnownIff(cfg: Config, maxDt: real, states: seq<State>, steps: seq<Step>, k: nat, p: PlayerId)
    requires IsRun(cfg, maxDt, states, steps) && k < |states|
    ensures p in states[k].world <==> exists j :: 0 <= j < k && Enters(steps[j], p)
  {
    RunInputs(cfg, maxDt, states, steps, p);
    KnownSince(states, steps, k, p);
  }

  // ---------------------------------------------------------------- movement

  /** The move of a player that presses the keys W, S, A, D in the low four bits of the flags: opposite keys
      cancel out, and a diagonal is as long as a straight move. */
  predicate Steers(flags: nat, speed: real, v: Vec3) {
    var w, s, a, d := flags % 2, flags / 2 % 2, flags / 4 % 2, flags / 8 % 2;
    var dx, dy := d - a, w - s;
    var k := if dx != 0 && dy != 0 then 0.7071067 else 1.0;
    v == Vec3(speed * dx as real * k, speed * dy as real * k, 0.0)
  }

  lemma KeysSteer(flags: nat, speed: real)
    ensures Steers(flags, speed, Direction(flags).Scale(speed))
  {
    LowBits(flags);
  }

  lemma LowBits(flags: nat)
    ensures flags % 16 == flags % 2 + 2 * (flags / 2 % 2) + 4 * (flags / 4 % 2) + 8 * (flags / 8 % 2)
  {
    var h := flags / 2;
    var q := h / 2;
    var e := q / 2;
    assert flags / 4 == q && flags / 8 == e;
    var low := flags % 2 + 2 * (h % 2) + 4 * (q % 2) + 8 * (e % 2);
    assert flags == low + 16 * (e / 2) && 0 <= low < 16;
    Remainder(flags, e / 2, low);
  }

  lemma Remainder(n: nat, q: nat, r: nat)
    requires n == r + 16 * q && r < 16
    ensures n % 16 == r
  {}

  function FlagsOf(step: Step): nat { if step.Handle? && step.command.payload.PlayerInput? then step.command.payload.inputFlags else 0 }

  /** Only an input that takes effect changes a player's velocity, to where its keys say. */
  ghost predicate VelocityStep(speed: real, s: State, step: Step, r: State, p: PlayerId) {
    p in r.world ==>
      if p !in s.world then r.world[p].velocity == Vec3(0.0, 0.0, 0.0)
      else if Changes(s, step, r, p) then Steers(FlagsOf(step), speed, r.world[p].velocity)
      else r.world[p].velocity == s.world[p].velocity
  }

  lemma NextVelocity(cfg: Config, s: State, step: Step, p: PlayerId)
    ensures VelocityStep(cfg.moveSpeed, s, step, Next(cfg, s, step), p)
  {
    KeysSteer(FlagsOf(step), cfg.moveSpeed);
  }

  ghost predicate VelocityRun(speed: real, states: seq<State>, steps: seq<Step>, p: PlayerId) {
    && |states| == |steps| + 1 && p !in states[0].world
    && forall i :: 0 <= i < |steps| ==>
         (p in states[i].world ==> p in states[i + 1].world) && VelocityStep(speed, states[i], steps[i], states[i + 1], p)
  }

  lemma RunVelocity(cfg: Config, maxDt: real, states: seq<State>, steps: seq<Step>, p: PlayerId)
    requires IsRun(cfg, maxDt, states, steps)
    ensures VelocityRun(cfg.moveSpeed, states, steps, p)
  {
    RunInputs(cfg, maxDt, states, steps, p);
    forall i | 0 <= i < |steps|
      ensures (p in states[i].world ==> p in states[i + 1].world) && VelocityStep(cfg.moveSpeed, states[i], steps[i], states[i + 1], p)
    {
      assert InputStep(states[i], steps[i], states[i + 1], p);
      NextVelocity(cfg, states[i], steps[i], p);
    }
  }

  /** The last input of the player that took effect before state `k` is that of step `j`. */
  ghost predicate LastEffect(states: seq<State>, steps: seq<Step>, j: nat, k: nat, p: PlayerId) {
    j < k <= |steps| && TookEffect(states, steps, j, p) && forall m: nat :: j < m < k ==> !TookEffect(states, steps, m, p)
  }

  /** The velocity is that of the last input that took effect, or none. */
  ghost predicate VelocityIs(speed: real, states: seq<State>, steps: seq<Step>, k: nat, p: PlayerId, v: Vec3) {
    && ((forall j: nat :: j < k ==> !TookEffect(states, steps, j, p)) ==> v == Vec3(0.0, 0.0, 0.0))
    && (forall j: nat :: LastEffect(states, steps, j, k, p) ==> Steers(FlagsOf(steps[j]), speed, v))
  }

  lemma {:induction false} VelocitySince(speed: real, states: seq<State>, steps: seq<Step>, k: nat, p: PlayerId)
    requires VelocityRun(speed, states, steps, p) && k <= |steps| && p in states[k].world
    ensures VelocityIs(speed, states, steps, k, p, states[k].world[p].velocity)
  {
    assert k > 0 && VelocityStep(speed, states[k - 1], steps[k - 1], states[k - 1 + 1], p);
    if p in states[k - 1].world {
      VelocitySince(speed, states, steps, k - 1, p);
      if TookEffect(states, steps, k - 1, p) {
        NewEffect(speed, states, steps, k, p, states[k].world[p].velocity);
      } else {
        assert !Changes(states[k - 1], steps[k - 1], states[k - 1 + 1], p);
        NoNewEffect(speed, states, steps, k, p, states[k].world[p].velocity);
      }
    } else {
      NoEffectBefore(speed, states, steps, k - 1, p);
      AtRest(speed, states, steps, k, p, states[k].world[p].velocity);
    }
  }

  lemma AtRest(speed: real, states: seq<State>, steps: seq<Step>, k: nat, p: PlayerId, v: Vec3)
    requires k < |states| && v == Vec3(0.0, 0.0, 0.0) && forall j: nat :: j < k ==> p !in states[j].world
    ensures VelocityIs(speed, states, steps, k, p, v)
  {
    forall j: nat | j < k ensures !TookEffect(states, steps, j, p) {}
  }

  lemma NewEffect(speed: real, states: seq<State>, steps: seq<Step>, k: nat, p: PlayerId, v: Vec3)
    requires 0 < k <= |steps| && TookEffect(states, steps, k - 1, p) && Steers(FlagsOf(steps[k - 1]), speed, v)
    ensures VelocityIs(speed, states, steps, k, p, v)
  {}

  lemma NoNewEffect(speed: real, states: seq<State>, steps: seq<Step>, k: nat, p: PlayerId, v: Vec3)
    requires 0 < k <= |steps| && !TookEffect(states, steps, k - 1, p) && VelocityIs(speed, states, steps, k - 1, p, v)
    ensures VelocityIs(speed, states, steps, k, p, v)
  {
    forall j: nat | LastEffect(states, steps, j, k, p) ensures LastEffect(states, steps, j, k - 1, p) {}
  }

  lemma {:induction false} NoEffectBefore(speed: real, states: seq<State>, steps: seq<Step>, k: nat, p: PlayerId)
    requires VelocityRun(speed, states, steps, p) && k <= |steps| && p !in states[k].world
    ensures forall j: nat :: j <= k ==> p !in states[j].world
  {
    if k > 0 {
      assert p !in states[k - 1].world by { assert VelocityStep(speed, states[k - 1], steps[k - 1], states[k - 1 + 1], p); }
      NoEffectBefore(speed, states, steps, k - 1, p);
    }
  }

  /** In every run a player's velocity is where the keys of its last input that took effect steer, through
      any number of ticks, disconnects and reconnects; a player without any is at rest. */
  lemma VelocityIsLastInput(cfg: Config, maxDt: real, states: seq<State>, steps: seq<Step>, k: nat, p: PlayerId)
    requires IsRun(cfg, maxDt, states, steps) && k < |states| && p in states[k].world
    ensures (forall j: nat :: j < k ==> !TookEffect(states, steps, j, p)) ==> states[k].world[p].velocity == Vec3(0.0, 0.0, 0.0)
    ensures forall j: nat :: LastEffect(states, steps, j, k, p) ==>
              Steers(steps[j].command.payload.inputFlags, cfg.moveSpeed, states[k].world[p].velocity)
  {
    RunVelocity(cfg, maxDt, states, steps, p);
    VelocitySince(cfg.moveSpeed, states, steps, k, p);
  }

  /** Where one tick of length `dt` takes a player: by its velocity if it is active, unless that leaves the map. */
  predicate MovesTo(cfg: Config, a: Player, dt: real, b: Vec3) {
    var x, y := a.position.x + a.velocity.x * dt, a.position.y + a.velocity.y * dt;
    if a.active && 0.0 <= x < cfg.width && 0.0 <= y < cfg.height then b == Vec3(x, y, 0.0) else b == a.position
  }

  /** Ticks move players so, and nothing else moves anyone. */
  lemma TickMoves(cfg: Config, maxDt: real, states: seq<State>, steps: seq<Step>, i: nat, p: PlayerId)
    requires IsRun(cfg, maxDt, states, steps) && i < |steps| && p in states[i].world
    ensures p in states[i + 1].world
    ensures if steps[i].Tick? then MovesTo(cfg, states[i].world[p], steps[i].dt, states[i + 1].world[p].position)
            else states[i + 1].world[p].position == states[i].world[p].position
  {
    RunInvariant(cfg, maxDt, states, steps, i);
    StepMoves(cfg, states[i], steps[i], p);
  }

  lemma StepMoves(cfg: Config, s: State, step: Step, p: PlayerId)
    requires p in s.world && GoodPlayer(cfg, s.world[p])
    ensures var r := Next(cfg, s, step);
            p in r.world && if step.Tick? then MovesTo(cfg, s.world[p], step.dt, r.world[p].position)
                            else r.world[p].position == s.world[p].position
  {
    if step.Tick? {
      assert Next(cfg, s, step).world == MovedWorld(cfg, s.world, step.dt, s.world.Keys);
      StaysLevel(cfg, s.world[p]);
      MovedCoordinates(cfg, s.world[p], step.dt);
    }
  }

  lemma StaysLevel(cfg: Config, a: Player)
    requires GoodPlayer(cfg, a)
    ensures a.position.z == 0.0 && a.velocity.z == 0.0
  {
    KeysSteer(a.inputFlags, cfg.moveSpeed);
  }

  lemma MovedCoordinates(cfg: Config, a: Player, dt: real)
    requires a.position.z == 0.0 && a.velocity.z == 0.0
    ensures MovesTo(cfg, a, dt, Moved(cfg, a, dt).position)
  {}
}
