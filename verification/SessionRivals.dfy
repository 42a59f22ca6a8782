/** Whose disconnect takes a player out: a disconnect command deactivates its player whatever session it
    comes from. When only the player's own session's command can, and the cases where another's does. */
module SessionRivals {
  import opened SessionProtocol
  import opened SessionHistory

  /** The session, as things stand, ends in a disconnect command for the player: it has the player's id
      and its removal is still to come or its remover has yet to read, or the remover read that id. */
  predicate Heading(g: Registry, p: PlayerId, y: SessionId) {
    || ((y in g.registered || g.accept == Created(y)) && y in g.playerOf && g.playerOf[y] == p)
    || (y in g.removing && g.removing[y] == Erased && y in g.playerOf && g.playerOf[y] == p)
    || (y in g.removing && g.removing[y] == Read(p))
  }

  /** The session's disconnect command for the player is pending or on its way. */
  predicate Threatens(s: State, p: PlayerId, y: SessionId) {
    p != NO_PLAYER && (Pending(s, Disconnect(p, y)) || Heading(s.reg, p, y))
  }

  /** No session but `x` threatens the player. */
  ghost predicate NoRival(s: State, p: PlayerId, x: SessionId) { forall y: SessionId :: Threatens(s, p, y) ==> y == x }

  /** Command `c` is the disconnect command handled next, and its player is active. */
  predicate TakesOut(s: State, c: Command) {
    s.game.pc.Processing? && s.game.batch != [] && s.game.batch[0] == c && c.Disconnect? && IsActive(s.game, c.player)
  }

  lemma TakesOutThreatens(s: State, c: Command)
    requires PendingSound(s) && TakesOut(s, c)
    ensures Threatens(s, c.player, c.session)
  {
    assert Pending(s, c);
  }

  // ---------------------------------------------------------------- threats come from logins

  lemma NetThreatBefore(s: State, n: NetStep, p: PlayerId, y: SessionId)
    requires NetEnabled(s.reg, n) && SessionsOnce(s.reg) && Threatens(Apply(s, Net(n)), p, y)
    ensures Threatens(s, p, y) || n == SetPlayerId(y, p)
  {
    NetPending(s, n, Disconnect(p, y));
    assert SessionOnce(s.reg, y);
  }

  lemma GameThreatBefore(s: State, g: GameStep, p: PlayerId, y: SessionId)
    requires GameEnabled(s, g) && Threatens(Apply(s, Game(g)), p, y)
    ensures Threatens(s, p, y)
  {
    GamePending(s, g, Disconnect(p, y));
  }

  /** No step makes a session a threat to a player, except logging it in as that player. */
  lemma ThreatBefore(s: State, step: Step, p: PlayerId, y: SessionId)
    requires Enabled(s, step) && SessionsOnce(s.reg) && Threatens(Apply(s, step), p, y)
    ensures Threatens(s, p, y) || step == Net(SetPlayerId(y, p))
  {
    match step
    case Net(n) => NetThreatBefore(s, n, p, y);
    case Work(k) =>
    case Game(g) => GameThreatBefore(s, g, p, y);
  }

  /** The step logs a session other than `x` in as the player. */
  predicate LogsIn(step: Step, p: PlayerId, x: SessionId) {
    step.Net? && step.net.SetPlayerId? && step.net.player == p && step.net.session != x
  }

  lemma RunStepNoRival(states: seq<State>, steps: seq<Step>, j: nat, p: PlayerId, x: SessionId)
    requires IsRun(states, steps) && j < |steps| && NoRival(states[j], p, x) && !LogsIn(steps[j], p, x)
    ensures NoRival(states[j + 1], p, x)
  {
    RunInvariant(states, steps, j);
    var r := states[j + 1];
    forall y: SessionId | Threatens(r, p, y) ensures y == x { ThreatBefore(states[j], steps[j], p, y); }
  }

  ghost predicate RivalsKeptOut(states: seq<State>, i: nat, k: nat, p: PlayerId, x: SessionId) {
    k < |states| && forall j :: i <= j < k && NoRival(states[j], p, x) ==> NoRival(states[j + 1], p, x)
  }

  lemma RunRivals(states: seq<State>, steps: seq<Step>, i: nat, k: nat, p: PlayerId, x: SessionId)
    requires IsRun(states, steps) && i <= k < |states| && forall j :: i <= j < k ==> !LogsIn(steps[j], p, x)
    ensures RivalsKeptOut(states, i, k, p, x)
  {
    forall j | i <= j < k && NoRival(states[j], p, x) ensures NoRival(states[j + 1], p, x) {
      RunStepNoRival(states, steps, j, p, x);
    }
  }

  lemma {:induction false} NoRivalStays(states: seq<State>, i: nat, k: nat, p: PlayerId, x: SessionId)
    requires i <= k && RivalsKeptOut(states, i, k, p, x) && NoRival(states[i], p, x)
    ensures NoRival(states[k], p, x)
    decreases k - i
  {
    if i < k {
      NoRivalStays(states, i + 1, k, p, x);
    }
  }

  // ---------------------------------------------------------------- a rival can strike

  /** The run passes through `s` at `n` and logs nobody in after that. */
  ghost predicate GoesOn(states: seq<State>, steps: seq<Step>, n: nat, s: State) {
    IsRun(states, steps) && n <= |steps| && states[n] == s && forall j :: n <= j < |steps| ==> !IsLogin(steps[j])
  }

  predicate IsLogin(step: Step) { step.Net? && step.net.SetPlayerId? }

  lemma GoOn(states: seq<State>, steps: seq<Step>, n: nat, s: State, step: Step) returns (ss: seq<State>, ts: seq<Step>)
    requires GoesOn(states, steps, n, s) && Enabled(states[|steps|], step) && !IsLogin(step)
    ensures GoesOn(ss, ts, n, s) && ss[|ts|] == Apply(states[|steps|], step)
  {
    var r := Apply(states[|steps|], step);
    AppendStep(states, steps, step, r);
    ss, ts := states + [r], steps + [step];
  }

  /** The player is active through a registered session, and `y` is another. */
  predicate Exposed(s: State, p: PlayerId, x: SessionId, y: SessionId) {
    IsActive(s.game, p) && x in s.reg.registered && p != NO_PLAYER && x != y
  }

  /** A rival's removal goes its way until its command is pending. */
  lemma {:induction false} MakePending(states: seq<State>, steps: seq<Step>, n: nat, s: State, p: PlayerId, x: SessionId, y: SessionId)
    returns (ss: seq<State>, ts: seq<Step>)
    requires GoesOn(states, steps, n, s) && Exposed(states[|steps|], p, x, y) && Threatens(states[|steps|], p, y)
    ensures GoesOn(ss, ts, n, s) && Exposed(ss[|ts|], p, x, y) && Pending(ss[|ts|], Disconnect(p, y))
    decreases Distance(states[|steps|].reg, y)
  {
    var last := states[|steps|];
    if Pending(last, Disconnect(p, y)) {
      return states, steps;
    }
    RunInvariant(states, steps, |steps|);
    assert SessionOnce(last.reg, y) && SessionOnce(last.reg, x);
    var step := Net(Towards(last.reg, y));
    ss, ts := GoOn(states, steps, n, s, step);
    TowardsThreatens(last, p, y);
    if !Pending(ss[|ts|], Disconnect(p, y)) {
      ss, ts := MakePending(ss, ts, n, s, p, x, y);
    }
  }

  /** The next step of the session's removal. */
  function Towards(g: Registry, y: SessionId): NetStep {
    if g.accept == Created(y) then Register
    else if y in g.registered then Erase(y)
    else if y in g.removing && g.removing[y] == Erased then ReadPlayerId(y)
    else PushDisconnect(y)
  }

  function Distance(g: Registry, y: SessionId): nat {
    if g.accept == Created(y) then 3
    else if y in g.registered then 2
    else if y in g.removing && g.removing[y] == Erased then 1
    else 0
  }

  lemma TowardsThreatens(s: State, p: PlayerId, y: SessionId)
    requires SessionOnce(s.reg, y) && p != NO_PLAYER && Heading(s.reg, p, y)
    ensures var n := Towards(s.reg, y);
            NetEnabled(s.reg, n) && Threatens(Apply(s, Net(n)), p, y) &&
            (Pending(Apply(s, Net(n)), Disconnect(p, y)) || Distance(NextRegistry(s.reg, n), y) < Distance(s.reg, y))
  {}

  /** Where the game thread is with its batch. */
  function Rank(pc: GamePc): nat {
    match pc
    case Collecting => 0
    case Processing => 1
    case Checked(_, _) => 2
  }

  /** What the game thread does next when it has to get on to the pending command `d`. */
  function NextTowards(s: State, d: Command): GameStep {
    match s.game.pc
    case Collecting => if d in s.game.batch then StartBatch else Pop(d)
    case Processing => if s.game.batch == [] then FinishBatch else HandleNext
    case Checked(_, _) => EnterPlayer
  }

  /** How far the game thread is from handling `d`: first until it has popped it, then until it gets there. */
  function Phase(s: State, d: Command): nat {
    if d !in s.game.batch then 2 else if s.game.pc.Collecting? then 1 else 0
  }

  lemma StepTowards(s: State, p: PlayerId, x: SessionId, y: SessionId)
    requires Exposed(s, p, x, y) && Pending(s, Disconnect(p, y))
    requires s.game.pc.Processing? && s.game.batch != [] ==> !(s.game.batch[0].Disconnect? && s.game.batch[0].player == p)
    ensures var d := Disconnect(p, y);
            var g := NextTowards(s, d);
            && GameEnabled(s, g) && var r := Apply(s, Game(g));
            && Exposed(r, p, x, y) && Pending(r, d)
            && (Phase(r, d) < Phase(s, d) ||
                (Phase(r, d) == Phase(s, d) && 3 * |r.game.batch| + Rank(r.game.pc) < 3 * |s.game.batch| + Rank(s.game.pc)))
  {
    var d := Disconnect(p, y);
    GamePending(s, NextTowards(s, d), d);
    if s.game.pc.Processing? && s.game.batch != [] { assert s.game.batch == [s.game.batch[0]] + s.game.batch[1..]; }
  }

  /** The game thread gets to the pending command, or to another one that takes the player out. */
  lemma {:induction false} Strike(states: seq<State>, steps: seq<Step>, n: nat, s: State, p: PlayerId, x: SessionId, y: SessionId)
    returns (ss: seq<State>, ts: seq<Step>)
    requires GoesOn(states, steps, n, s) && Exposed(states[|steps|], p, x, y) && Pending(states[|steps|], Disconnect(p, y))
    ensures GoesOn(ss, ts, n, s) && ss[|ts|].game.batch != [] && TakesOut(ss[|ts|], ss[|ts|].game.batch[0])
    ensures ss[|ts|].game.batch[0].player == p && x in ss[|ts|].reg.registered
    decreases var last := states[|steps|]; Phase(last, Disconnect(p, y)),
              3 * |states[|steps|].game.batch| + Rank(states[|steps|].game.pc)
  {
    var last := states[|steps|];
    if last.game.pc.Processing? && last.game.batch != [] && last.game.batch[0].Disconnect? && last.game.batch[0].player == p {
      return states, steps;
    }
    StepTowards(last, p, x, y);
    ss, ts := GoOn(states, steps, n, s, Game(NextTowards(last, Disconnect(p, y))));
    ss, ts := Strike(ss, ts, n, s, p, x, y);
  }

  // ---------------------------------------------------------------- the exact condition

  /** The run passes through `s` at `i`, and until `k` no session but `x` logs in as the player. */
  ghost predicate WithoutRivalLogin(states: seq<State>, steps: seq<Step>, i: nat, k: nat, s: State, p: PlayerId, x: SessionId) {
    IsRun(states, steps) && i <= k < |states| && states[i] == s && forall j :: i <= j < k ==> !LogsIn(steps[j], p, x)
  }

  /** However it goes on from here, as long as no other session logs in as the player, no command but that
      of session `x` takes the player out. */
  ghost predicate OnlyOwn(s: State, p: PlayerId, x: SessionId) {
    forall states: seq<State>, steps: seq<Step>, i: nat, k: nat, c: Command ::
      WithoutRivalLogin(states, steps, i, k, s, p, x) && TakesOut(states[k], c) && c.player == p ==> c.session == x
  }

  lemma OnlyOwnWithoutRival(s: State, p: PlayerId, x: SessionId)
    requires NoRival(s, p, x)
    ensures OnlyOwn(s, p, x)
  {
    forall states: seq<State>, steps: seq<Step>, i: nat, k: nat, c: Command |
      WithoutRivalLogin(states, steps, i, k, s, p, x) && TakesOut(states[k], c) && c.player == p
      ensures c.session == x
    {
      RunRivals(states, steps, i, k, p, x);
      NoRivalStays(states, i, k, p, x);
      RunInvariant(states, steps, k);
      TakesOutThreatens(states[k], c);
    }
  }

  /** A rival can take the player out while its own session is registered, without any further login. */
  lemma RivalStrikes(s: State, p: PlayerId, x: SessionId, y: SessionId) returns (states: seq<State>, steps: seq<Step>, n: nat)
    requires Reachable(s) && IsActive(s.game, p) && x in s.reg.registered && Threatens(s, p, y) && y != x
    ensures GoesOn(states, steps, n, s) && states[|steps|].game.batch != []
    ensures var c := states[|steps|].game.batch[0]; TakesOut(states[|steps|], c) && c.player == p && c.session != x
    ensures x in states[|steps|].reg.registered
  {
    states, steps :| IsRun(states, steps) && states[|steps|] == s;
    n := |steps|;
    states, steps := MakePending(states, steps, n, s, p, x, y);
    states, steps := Strike(states, steps, n, s, p, x, y);
    var last := states[|steps|];
    RunInvariant(states, steps, |steps|);
    assert Pending(last, last.game.batch[0]) && SessionOnce(last.reg, x);
  }

  /** Only the player's own session's command can ever take the player out, until another session logs in
      as the player, exactly when there is no rival now. */
  lemma OnlyOwnIff(s: State, p: PlayerId)
    requires Reachable(s) && IsActive(s.game, p) && s.game.players[p].session in s.reg.registered
    ensures OnlyOwn(s, p, s.game.players[p].session) <==> NoRival(s, p, s.game.players[p].session)
  {
    var x := s.game.players[p].session;
    if NoRival(s, p, x) {
      OnlyOwnWithoutRival(s, p, x);
    } else {
      var y: SessionId :| Threatens(s, p, y) && y != x;
      var states, steps, n := RivalStrikes(s, p, x, y);
      assert WithoutRivalLogin(states, steps, n, |steps|, s, p, x);
    }
  }

  // ---------------------------------------------------------------- logins that leave no rival

  /** At most one session at a time threatens a player. */
  ghost predicate OneThreat(s: State) {
    forall p: PlayerId, x: SessionId, y: SessionId :: Threatens(s, p, x) && Threatens(s, p, y) ==> x == y
  }

  /** Nobody logs in as a player whom another session threatens. */
  ghost predicate Exclusive(s: State, step: Step) { IsLogin(step) ==> NoRival(s, step.net.player, step.net.session) }

  ghost predicate ExclusiveRun(states: seq<State>, steps: seq<Step>) {
    DisciplinedRun(states, steps) && forall i :: 0 <= i < |steps| ==> Exclusive(states[i], steps[i])
  }

  lemma StepOneThreat(s: State, step: Step)
    requires Enabled(s, step) && SessionsOnce(s.reg) && Exclusive(s, step) && OneThreat(s)
    ensures OneThreat(Apply(s, step))
  {
    forall p: PlayerId, x: SessionId, y: SessionId | Threatens(Apply(s, step), p, x) && Threatens(Apply(s, step), p, y) ensures x == y {
      ThreatBefore(s, step, p, x);
      ThreatBefore(s, step, p, y);
    }
  }

  lemma {:induction false} RunOneThreat(states: seq<State>, steps: seq<Step>, i: nat)
    requires ExclusiveRun(states, steps) && i < |states|
    ensures OneThreat(states[i])
  {
    if i > 0 {
      RunOneThreat(states, steps, i - 1);
      RunInvariant(states, steps, i - 1);
      StepOneThreat(states[i - 1], steps[i - 1]);
    }
  }

  /** If disciplined logins also wait until no other session threatens the player, then in the whole run no
      active player has a rival, and each is taken out by its own session's disconnect only. */
  lemma OwnDisconnect(states: seq<State>, steps: seq<Step>, i: nat, p: PlayerId)
    requires ExclusiveRun(states, steps) && i < |states| && IsActive(states[i].game, p)
    ensures NoRival(states[i], p, states[i].game.players[p].session)
    ensures forall c :: TakesOut(states[i], c) && c.player == p ==> c.session == states[i].game.players[p].session
  {
    var s := states[i];
    var x := s.game.players[p].session;
    RunInvariant(states, steps, i);
    RunOneThreat(states, steps, i);
    RunIdsAgree(states, steps, i);
    ActiveIsCovered(states, steps, i, p);
    assert Attached(s.game, p, x);
    assert Threatens(s, p, x);
    forall c | TakesOut(s, c) && c.player == p ensures c.session == x { TakesOutThreatens(s, c); }
  }

  /** In any run, a player taken out by its own session's disconnect had lost that session for good. */
  lemma OwnDisconnectIsOut(states: seq<State>, steps: seq<Step>, i: nat, k: nat, c: Command)
    requires IsRun(states, steps) && i <= k < |states| && TakesOut(states[i], c)
    requires states[i].game.players[c.player].session == c.session
    ensures c.session !in states[k].reg.registered
  {
    RunInvariant(states, steps, i);
    assert Pending(states[i], c) && SessionOnce(states[i].reg, c.session);
    StaysOut(states, steps, i, k, c.session);
  }

  // ---------------------------------------------------------------- a client that comes back

  const GONE_REG := Registry(1, map[0 := 7], {}, Accepting, map[], multiset{0}, map[0 := 7])
  const GONE := State(GONE_REG, multiset{}, multiset{Disconnect(7, 0)}, INIT.game)

  /** Session 0 logs in as player 7 and goes without entering; its disconnect command is pending. */
  lemma GoneReachable()
    ensures Reachable(GONE)
  {
    OneSessionReachable();
    var g := ONE_SESSION.reg.(playerOf := map[0 := 7]);
    var logged := ONE_SESSION.(reg := g);
    var erased := ONE_SESSION.(reg := g.(registered := {}, removing := map[0 := Erased]));
    var read := ONE_SESSION.(reg := g.(registered := {}, removing := map[0 := Read(7)]));
    ReachStep(ONE_SESSION, Net(SetPlayerId(0, 7)), logged);
    assert g.registered - {0} == {};
    ReachStep(logged, Net(Erase(0)), erased);
    ReachStep(erased, Net(ReadPlayerId(0)), read);
    assert read.reg.removing - {0} == map[];
    ReachStep(read, Net(PushDisconnect(0)), GONE);
  }

  const ADDED := GONE.(reg := GONE_REG.(nextSession := 2, playerOf := map[0 := 7, 1 := NO_PLAYER], registered := {1}))

  lemma AddedReachable()
    ensures Reachable(ADDED)
  {
    GoneReachable();
    var admitted := GONE.(reg := GONE_REG.(accept := Admitted));
    var created := ADDED.(reg := ADDED.reg.(accept := Created(1), registered := {}));
    ReachStep(GONE, Net(Admit), admitted);
    ReachStep(admitted, Net(Create), created);
    assert created.reg.registered + {1} == {1};
    ReachStep(created, Net(Register), ADDED);
  }

  const LOGGED := ADDED.(reg := ADDED.reg.(playerOf := map[0 := 7, 1 := 7]))

  lemma LoggedReachable()
    ensures Reachable(LOGGED)
  {
    AddedReachable();
    SetSecond();
    ReachStep(ADDED, Net(SetPlayerId(1, 7)), LOGGED);
  }

  lemma SetSecond()
    ensures (map[0 := 7, 1 := NO_PLAYER])[1 := 7] == map[0 := 7, 1 := 7]
  {}

  const BACK := LOGGED.(queue := multiset{Disconnect(7, 0), EnterZone(7, 1)})

  /** Session 1 logs in as the same player and enters. */
  lemma BackReachable()
    ensures Reachable(BACK)
  {
    LoggedReachable();
    var e := Entry(7, 1);
    var read := LOGGED.(entries := multiset{e});
    ReachStep(LOGGED, Work(ReadEntry(1)), read);
    assert read.entries - multiset{e} == multiset{};
    ReachStep(read, Work(PushEntry(e)), BACK);
  }

  const BATCHED := State(BACK.reg, multiset{}, multiset{}, GameThread(Processing, [EnterZone(7, 1), Disconnect(7, 0)], map[]))

  /** The queue hands out the new session's command first. */
  lemma BatchedReachable()
    ensures Reachable(BATCHED)
  {
    BackReachable();
    var c, d := EnterZone(7, 1), Disconnect(7, 0);
    var popped := BACK.(queue := multiset{d}, game := GameThread(Collecting, [c], map[]));
    var both := BATCHED.(game := GameThread(Collecting, [c, d], map[]));
    assert BACK.queue - multiset{c} == multiset{d};
    ReachStep(BACK, Game(Pop(c)), popped);
    ReachStep(popped, Game(Pop(d)), both);
    ReachStep(both, Game(StartBatch), BATCHED);
  }

  const LATE := BATCHED.(game := GameThread(Processing, [Disconnect(7, 0)], map[7 := Player(true, 1)]))

  lemma LateReachable()
    ensures Reachable(LATE)
  {
    BatchedReachable();
    var entering := BATCHED.(game := GameThread(Checked(7, 1), [Disconnect(7, 0)], map[]));
    ReachStep(BATCHED, Game(HandleNext), entering);
    ReachStep(entering, Game(EnterPlayer), LATE);
  }

  /** Without waiting logins it happens: the disconnect of a player's earlier session takes the player out
      while its own session is registered. */
  lemma LateDisconnect()
    ensures Reachable(LATE) && TakesOut(LATE, Disconnect(7, 0)) && LATE.game.players[7].session == 1 && 1 in LATE.reg.registered
    ensures !IsActive(Apply(LATE, Game(HandleNext)).game, 7) && 1 in Apply(LATE, Game(HandleNext)).reg.registered
  {
    LateReachable();
  }
}
