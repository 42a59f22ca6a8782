/** What every tick of every run sends: one snapshot per active player, stamped with that tick and
    showing its recipient once. */
module Snapshots {
  import opened QuadTreeSpec
  import opened GameModel
  import opened GameInvariant

  function IdsOf(ps: seq<PlayerState>): seq<PlayerId> { seq(|ps|, i requires 0 <= i < |ps| => ps[i].id) }

  function StateOf(w: map<PlayerId, Player>, id: PlayerId): PlayerState
    requires id in w
  {
    PlayerState(id, w[id].position, w[id].velocity, w[id].active)
  }

  /** A list of known players is shown entry by entry with their current state. */
  lemma {:induction false} StatesInOrder(w: map<PlayerId, Player>, ids: seq<PlayerId>)
    requires forall q :: q in ids ==> q in w
    ensures var ps := PlayerStates(w, ids);
            |ps| == |ids| && IdsOf(ps) == ids && forall k :: 0 <= k < |ids| ==> ps[k] == StateOf(w, ids[k])
  {
    if ids != [] {
      StatesInOrder(w, ids[..|ids| - 1]);
    }
  }

  /** The snapshot an active player gets in the state reached by a tick: this tick's number, and the
      served list with current states, the recipient on it exactly once. */
  ghost predicate IsSnapshotOf(s: State, p: PlayerId, serverTime: int, snap: Snapshot) {
    && p in s.cache && (forall q :: q in s.cache[p].visible ==> q in s.world)
    && snap.tick == s.tick && snap.serverTime == serverTime
    && |snap.players| == |s.cache[p].visible|
    && (forall k :: 0 <= k < |snap.players| ==> snap.players[k] == StateOf(s.world, s.cache[p].visible[k]))
    && multiset(IdsOf(snap.players))[p] == 1
  }

  lemma ServedSnapshot(cfg: Config, s: State, serverTime: int, p: PlayerId)
    requires Invariant(cfg, s) && IsActive(s, p)
    ensures var r := SendWorldSnapshots(cfg, s, serverTime);
            p in r.batches && |r.batches[p]| == 1 && IsSnapshotOf(r, p, serverTime, r.batches[p][0])
  {
    var t := s.(tick := s.tick + 1);
    CacheForGood(cfg, t, p);
    StatesInOrder(t.world, CacheFor(cfg, t, p, t.world[p].position).visible);
  }

  ghost predicate TickOutcome(s: State, mid: State, r: State, serverTime: int, p: PlayerId) {
    && IsActive(mid, p) == IsActive(s, p) && mid.tick == r.tick == s.tick + 1
    && (IsActive(s, p) ==> mid.world[p].session == s.world[p].session)
    && (if IsActive(mid, p) then |Batch(mid, p)| == 1 && IsSnapshotOf(mid, p, serverTime, Batch(mid, p)[0]) else Batch(mid, p) == [])
    && Batch(r, p) == []
  }

  lemma TickOutcomeHolds(cfg: Config, maxDt: real, s: State, step: Step, p: PlayerId)
    requires Invariant(cfg, s) && step.Tick? && LegalStep(cfg, maxDt, s, step)
    ensures TickOutcome(s, Batched(cfg, s, step), Next(cfg, s, step), step.serverTime, p)
  {
    var u := UpdateWorld(cfg, s, step.dt, step.order);
    UpdateWorldKeeps(cfg, s, step.dt, step.order);
    UpdateStays(cfg, s, step.dt, step.order, p);
    ServedOutcome(cfg, u, step.serverTime, p);
    FlushEmpties(Batched(cfg, s, step), p);
  }

  /** Moving the world changes neither who is active nor through which session. */
  lemma UpdateStays(cfg: Config, s: State, dt: real, order: seq<PlayerId>, p: PlayerId)
    ensures var u := UpdateWorld(cfg, s, dt, order);
            u.tick == s.tick && IsActive(u, p) == IsActive(s, p) && (IsActive(s, p) ==> u.world[p].session == s.world[p].session)
  {}

  lemma FlushEmpties(s: State, p: PlayerId)
    ensures Batch(FlushAllBatches(s), p) == [] && FlushAllBatches(s).tick == s.tick
  {}

  lemma ServedOutcome(cfg: Config, u: State, serverTime: int, p: PlayerId)
    requires Invariant(cfg, u)
    ensures var mid := SendWorldSnapshots(cfg, u, serverTime);
            && mid.world == u.world && mid.tick == u.tick + 1
            && (if IsActive(u, p) then |Batch(mid, p)| == 1 && IsSnapshotOf(mid, p, serverTime, Batch(mid, p)[0]) else Batch(mid, p) == [])
  {
    if IsActive(u, p) {
      ServedSnapshot(cfg, u, serverTime, p);
    }
  }

  /** At every tick of every run each active player has exactly one snapshot batched and nobody else has
      any; flushing leaves every batch empty. */
  lemma TickBatches(cfg: Config, maxDt: real, states: seq<State>, steps: seq<Step>, i: nat, p: PlayerId)
    requires IsRun(cfg, maxDt, states, steps) && i < |steps| && steps[i].Tick?
    ensures TickOutcome(states[i], Batched(cfg, states[i], steps[i]), states[i + 1], steps[i].serverTime, p)
  {
    RunInvariant(cfg, maxDt, states, steps, i);
    TickOutcomeHolds(cfg, maxDt, states[i], steps[i], p);
  }

  /** What leaves at tick `i`. */
  function SentAt(cfg: Config, states: seq<State>, steps: seq<Step>, i: nat): map<PlayerId, seq<Snapshot>>
    requires i < |states| && i < |steps| && steps[i].Tick?
  {
    Sent(Batched(cfg, states[i], steps[i]), steps[i].connected)
  }

  /** A player is sent one snapshot of the current tick exactly when it is active and its session is
      connected, and nothing otherwise. */
  lemma SentExactly(cfg: Config, maxDt: real, states: seq<State>, steps: seq<Step>, i: nat, p: PlayerId)
    requires IsRun(cfg, maxDt, states, steps) && i < |steps| && steps[i].Tick?
    ensures p in SentAt(cfg, states, steps, i) <==>
            IsActive(states[i], p) && states[i].world[p].session in steps[i].connected
    ensures p in SentAt(cfg, states, steps, i) ==>
            var sent := SentAt(cfg, states, steps, i)[p];
            |sent| == 1 && sent[0].tick == states[i].tick + 1 && IsSnapshotOf(states[i + 1], p, steps[i].serverTime, sent[0])
  {
    TickBatches(cfg, maxDt, states, steps, i, p);
    FlushShows(Batched(cfg, states[i], steps[i]));
  }

  lemma FlushShows(s: State)
    ensures var r := FlushAllBatches(s); r.world == s.world && r.cache == s.cache && r.tick == s.tick
  {}

  /** The ticks among the first `k` steps. */
  function TicksBefore(steps: seq<Step>, k: nat): set<nat> { set j: nat | j < k && j < |steps| && steps[j].Tick? }

  ghost predicate TicksCounted(states: seq<State>, steps: seq<Step>) {
    && |states| == |steps| + 1 && states[0].tick == 0
    && forall i :: 0 <= i < |steps| ==> states[i + 1].tick == if steps[i].Tick? then states[i].tick + 1 else states[i].tick
  }

  lemma RunTicksCounted(cfg: Config, maxDt: real, states: seq<State>, steps: seq<Step>)
    requires IsRun(cfg, maxDt, states, steps)
    ensures TicksCounted(states, steps)
  {
    forall i | 0 <= i < |steps| ensures states[i + 1].tick == if steps[i].Tick? then states[i].tick + 1 else states[i].tick {
      NextTick(cfg, states[i], steps[i]);
    }
  }

  lemma {:induction false} CountedTicks(states: seq<State>, steps: seq<Step>, k: nat)
    requires TicksCounted(states, steps) && k < |states|
    ensures states[k].tick == |TicksBefore(steps, k)|
  {
    if k == 0 {
      assert TicksBefore(steps, 0) == {};
    } else {
      var i := k - 1;
      CountedTicks(states, steps, i);
      assert states[i + 1].tick == if steps[i].Tick? then states[i].tick + 1 else states[i].tick;
      assert TicksBefore(steps, k) == TicksBefore(steps, i) + if steps[i].Tick? then {i} else {};
    }
  }

  /** The tick number is the number of ticks so far. */
  lemma TickIsCount(cfg: Config, maxDt: real, states: seq<State>, steps: seq<Step>, k: nat)
    requires IsRun(cfg, maxDt, states, steps) && k < |states|
    ensures states[k].tick == |TicksBefore(steps, k)|
  {
    RunTicksCounted(cfg, maxDt, states, steps);
    CountedTicks(states, steps, k);
  }

  ghost predicate TicksGrow(states: seq<State>) {
    forall i :: 0 <= i < |states| - 1 ==> states[i].tick <= states[i + 1].tick
  }

  lemma RunTicksGrow(cfg: Config, maxDt: real, states: seq<State>, steps: seq<Step>)
    requires IsRun(cfg, maxDt, states, steps)
    ensures TicksGrow(states)
  {}

  lemma {:induction false} TickOrder(states: seq<State>, i: nat, k: nat)
    requires TicksGrow(states) && i <= k < |states|
    ensures states[i].tick <= states[k].tick
    decreases k
  {
    if i < k {
      TickOrder(states, i, k - 1);
      assert states[k - 1].tick <= states[k - 1 + 1].tick;
    }
  }

  lemma NextTick(cfg: Config, s: State, step: Step)
    ensures Next(cfg, s, step).tick == if step.Tick? then s.tick + 1 else s.tick
  {}

  /** The tick numbers a player is sent strictly increase over every run. */
  lemma SentTicksIncrease(cfg: Config, maxDt: real, states: seq<State>, steps: seq<Step>, i: nat, k: nat, p: PlayerId)
    requires IsRun(cfg, maxDt, states, steps) && i < k < |steps| && steps[i].Tick? && steps[k].Tick?
    requires p in SentAt(cfg, states, steps, i) && p in SentAt(cfg, states, steps, k)
    ensures var a, b := SentAt(cfg, states, steps, i)[p], SentAt(cfg, states, steps, k)[p];
            |a| == |b| == 1 && a[0].tick < b[0].tick
  {
    SentExactly(cfg, maxDt, states, steps, i, p);
    SentExactly(cfg, maxDt, states, steps, k, p);
    TickNumbers(cfg, maxDt, states, steps, i, k);
  }

  lemma TickNumbers(cfg: Config, maxDt: real, states: seq<State>, steps: seq<Step>, i: nat, k: nat)
    requires IsRun(cfg, maxDt, states, steps) && i < k < |steps| && steps[i].Tick?
    ensures states[i].tick < states[k].tick
  {
    NextTick(cfg, states[i], steps[i]);
    RunTicksGrow(cfg, maxDt, states, steps);
    TickOrder(states, i + 1, k);
  }
}
