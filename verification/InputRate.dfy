/** Which inputs take effect, over every run, as a matter of the commands alone: their spacing in time and
    their sequence numbers, across disconnects and reconnects. */
module InputRate {
  import opened Geometry
  import opened QuadTreeSpec
  import opened GameModel

  /** An enter-zone command of player `p` from a registered session. */
  predicate Enters(step: Step, p: PlayerId) {
    && step.Handle? && step.command.payload.EnterZone? && step.command.payload.player == p
    && step.command.sender in step.env.registered
  }

  predicate IsDisconnect(step: Step, p: PlayerId) {
    step.Handle? && step.command.payload == PlayerDisconnect(p)
  }

  predicate IsInput(step: Step, p: PlayerId) {
    step.Handle? && step.command.payload.PlayerInput? && step.command.payload.player == p
  }

  /** The step is an input of a known player and changes something about it. */
  predicate Changes(s: State, step: Step, r: State, p: PlayerId) {
    IsInput(step, p) && p in s.world && p in r.world && r.world[p] != s.world[p]
  }

  predicate TookEffect(states: seq<State>, steps: seq<Step>, i: nat, p: PlayerId) {
    i < |steps| && i + 1 < |states| && Changes(states[i], steps[i], states[i + 1], p)
  }

  function StampOf(step: Step): int { if step.Handle? then step.env.stampedAt else 0 }
  function SequenceOf(step: Step): nat { if step.Handle? && step.command.payload.PlayerInput? then step.command.payload.sequence else 0 }

  // ---------------------------------------------------------------- one step

  /** One step's effect on a player's input record. A player that is new starts with an empty record; an
      input changes the player if it comes late enough and its number is large enough; a disconnect resets
      the number. */
  ghost predicate InputStep(s: State, step: Step, r: State, p: PlayerId) {
    && (p in s.world ==> p in r.world)
    && (p !in s.world && p in r.world ==> Enters(step, p) && r.world[p].lastInputTime == 0 && r.world[p].lastSequence == 0)
    && (p !in r.world ==> !Enters(step, p))
    && (p in s.world ==> InputRecorded(s.world[p], step, r.world[p], p))
  }

  ghost predicate InputRecorded(a: Player, step: Step, b: Player, p: PlayerId) {
    if IsInput(step, p) && b != a then
      && step.command.sender in step.env.registered
      && a.lastInputTime + 33_000_000 <= step.env.checkedAt <= step.env.stampedAt == b.lastInputTime
      && a.lastSequence < step.command.payload.sequence == b.lastSequence
    else
      && b.lastInputTime == a.lastInputTime
      && b.lastSequence == (if IsDisconnect(step, p) then 0 else a.lastSequence)
      && (IsInput(step, p) && step.command.sender in step.env.registered ==>
            step.env.checkedAt < a.lastInputTime + 33_000_000 || step.command.payload.sequence <= a.lastSequence)
  }

  lemma NextInput(cfg: Config, maxDt: real, s: State, step: Step, p: PlayerId)
    requires LegalStep(cfg, maxDt, s, step)
    ensures InputStep(s, step, Next(cfg, s, step), p)
  {
    if step.Tick? {
      assert Next(cfg, s, step).world == MovedWorld(cfg, s.world, step.dt, s.world.Keys);
    } else if IsInput(step, p) && p in s.world {
      GapInNanos(step.env.checkedAt - s.world[p].lastInputTime);
    }
  }

  lemma GapInNanos(d: int)
    ensures Millis(d) >= INPUT_RATE_LIMIT_MS <==> d >= 33_000_000
  {}

  ghost predicate InputRun(states: seq<State>, steps: seq<Step>, p: PlayerId) {
    && |states| == |steps| + 1 && p !in states[0].world
    && forall i :: 0 <= i < |steps| ==> InputStep(states[i], steps[i], states[i + 1], p)
  }

  lemma RunInputs(cfg: Config, maxDt: real, states: seq<State>, steps: seq<Step>, p: PlayerId)
    requires IsRun(cfg, maxDt, states, steps)
    ensures InputRun(states, steps, p)
  {
    forall i | 0 <= i < |steps| ensures InputStep(states[i], steps[i], states[i + 1], p) {
      NextInput(cfg, maxDt, states[i], steps[i], p);
    }
  }

  // ---------------------------------------------------------------- the record over a run

  /** A player is known once it has entered from a registered session, and from then on. */
  lemma {:induction false} KnownSince(states: seq<State>, steps: seq<Step>, k: nat, p: PlayerId)
    requires InputRun(states, steps, p) && k <= |steps|
    ensures p in states[k].world <==> exists j :: 0 <= j < k && Enters(steps[j], p)
  {
    if k > 0 {
      KnownSince(states, steps, k - 1, p);
      assert InputStep(states[k - 1], steps[k - 1], states[k - 1 + 1], p);
    }
  }

  /** The recorded time is the stamp of the last input that took effect, or 0. */
  ghost predicate TimeIsLast(states: seq<State>, steps: seq<Step>, k: nat, p: PlayerId)
    requires k < |states|
  {
    if p in states[k].world then
      var t := states[k].world[p].lastInputTime;
      && 0 <= t && (forall j: nat :: j < k && TookEffect(states, steps, j, p) ==> StampOf(steps[j]) <= t)
      && (t == 0 || exists j: nat :: j < k && TookEffect(states, steps, j, p) && StampOf(steps[j]) == t)
    else forall j: nat :: j < k ==> !TookEffect(states, steps, j, p)
  }

  lemma {:induction false} RecordedTime(states: seq<State>, steps: seq<Step>, k: nat, p: PlayerId)
    requires InputRun(states, steps, p) && k <= |steps|
    ensures TimeIsLast(states, steps, k, p)
  {
    if k > 0 {
      RecordedTime(states, steps, k - 1, p);
      assert InputStep(states[k - 1], steps[k - 1], states[k - 1 + 1], p);
    }
  }

  /** Step `j` took effect, and the player has not disconnected from then to `k`. */
  ghost predicate EffectiveSince(states: seq<State>, steps: seq<Step>, j: nat, k: nat, p: PlayerId) {
    j < k <= |steps| && TookEffect(states, steps, j, p) && forall m :: j < m < k ==> !IsDisconnect(steps[m], p)
  }

  /** The recorded number is that of the last input that took effect since the last disconnect, or 0. */
  ghost predicate SequenceIsLast(states: seq<State>, steps: seq<Step>, k: nat, p: PlayerId)
    requires k < |states|
  {
    p in states[k].world ==>
      var n := states[k].world[p].lastSequence;
      && (forall j: nat :: EffectiveSince(states, steps, j, k, p) ==> SequenceOf(steps[j]) <= n)
      && (n == 0 || exists j: nat :: EffectiveSince(states, steps, j, k, p) && SequenceOf(steps[j]) == n)
  }

  lemma {:induction false} RecordedSequence(states: seq<State>, steps: seq<Step>, k: nat, p: PlayerId)
    requires InputRun(states, steps, p) && k <= |steps|
    ensures SequenceIsLast(states, steps, k, p)
  {
    if k > 0 {
      RecordedSequence(states, steps, k - 1, p);
      RecordedTime(states, steps, k - 1, p);
      assert InputStep(states[k - 1], steps[k - 1], states[k - 1 + 1], p);
      if p in states[k].world { SequenceStep(states, steps, k, p); }
    }
  }

  lemma SequenceStep(states: seq<State>, steps: seq<Step>, k: nat, p: PlayerId)
    requires InputRun(states, steps, p) && 0 < k <= |steps| && p in states[k].world
    requires SequenceIsLast(states, steps, k - 1, p) && TimeIsLast(states, steps, k - 1, p)
    ensures SequenceIsLast(states, steps, k, p)
  {
    var n, last := states[k].world[p].lastSequence, steps[k - 1];
    assert InputStep(states[k - 1], last, states[k - 1 + 1], p);
    forall j: nat | EffectiveSince(states, steps, j, k, p) ensures SequenceOf(steps[j]) <= n {
      if j < k - 1 { assert EffectiveSince(states, steps, j, k - 1, p); }
    }
    if TookEffect(states, steps, k - 1, p) {
      assert EffectiveSince(states, steps, k - 1, k, p);
    } else if n != 0 {
      var j: nat :| EffectiveSince(states, steps, j, k - 1, p) && SequenceOf(steps[j]) == n;
      assert EffectiveSince(states, steps, j, k, p);
    }
  }

  // ---------------------------------------------------------------- which inputs take effect

  /** In every run an input takes effect exactly when its sender is registered, its player has entered at
      some time, it is checked at least 33 ms after the stamp of every earlier input of the player that took
      effect (and after the epoch), and its number is above 0 and above those of all inputs that took effect
      since the player's last disconnect. */
  lemma TakesEffectIff(cfg: Config, maxDt: real, states: seq<State>, steps: seq<Step>, i: nat, p: PlayerId)
    requires IsRun(cfg, maxDt, states, steps) && i < |steps| && IsInput(steps[i], p)
    ensures TookEffect(states, steps, i, p) <==>
            && steps[i].command.sender in steps[i].env.registered
            && (exists j :: 0 <= j < i && Enters(steps[j], p))
            && 33_000_000 <= steps[i].env.checkedAt
            && (forall j: nat :: j < i && TookEffect(states, steps, j, p) ==> StampOf(steps[j]) + 33_000_000 <= steps[i].env.checkedAt)
            && 0 < steps[i].command.payload.sequence
            && (forall j: nat :: EffectiveSince(states, steps, j, i, p) ==> SequenceOf(steps[j]) < steps[i].command.payload.sequence)
  {
    RunInputs(cfg, maxDt, states, steps, p);
    KnownSince(states, steps, i, p);
    RecordedTime(states, steps, i, p);
    RecordedSequence(states, steps, i, p);
    assert InputStep(states[i], steps[i], states[i + 1], p);
  }

  /** Of two inputs that took effect the later one is stamped at least 33 ms after the earlier, and carries a
      larger sequence number unless the player disconnected in between. */
  lemma EffectivePair(cfg: Config, maxDt: real, states: seq<State>, steps: seq<Step>, i: nat, k: nat, p: PlayerId)
    requires IsRun(cfg, maxDt, states, steps) && i < k < |steps|
    requires TookEffect(states, steps, i, p) && TookEffect(states, steps, k, p)
    ensures StampOf(steps[i]) + 33_000_000 <= StampOf(steps[k])
    ensures (forall m :: i < m < k ==> !IsDisconnect(steps[m], p)) ==> SequenceOf(steps[i]) < SequenceOf(steps[k])
  {
    TakesEffectIff(cfg, maxDt, states, steps, k, p);
    assert LegalStep(cfg, maxDt, states[k], steps[k]);
    if forall m :: i < m < k ==> !IsDisconnect(steps[m], p) { assert EffectiveSince(states, steps, i, k, p); }
  }

  /** Any N inputs of a player that took effect span at least 33 * (N - 1) milliseconds. */
  lemma {:induction false} EffectiveSpan(cfg: Config, maxDt: real, states: seq<State>, steps: seq<Step>, events: seq<nat>, p: PlayerId)
    requires IsRun(cfg, maxDt, states, steps) && events != []
    requires forall a :: 0 <= a < |events| ==> events[a] < |steps| && TookEffect(states, steps, events[a], p)
    requires forall a, b :: 0 <= a < b < |events| ==> events[a] < events[b]
    ensures StampOf(steps[events[0]]) + 33_000_000 * (|events| - 1) <= StampOf(steps[events[|events| - 1]])
  {
    var n := |events| - 1;
    if n > 0 {
      EffectiveSpan(cfg, maxDt, states, steps, events[..n], p);
      EffectivePair(cfg, maxDt, states, steps, events[n - 1], events[n], p);
    }
  }
}
