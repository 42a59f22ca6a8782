/** Sessions and players over whole runs of the session protocol: when a session is registered, when a
    Disconnect is final, what a remover will read, and what happens to players without a login. */
module SessionHistory {
  import opened SessionProtocol

  /** What no step ends, holds from then on. */
  lemma {:induction false} Stays(holds: seq<bool>, i: nat, k: nat)
    requires i <= k < |holds| && holds[i] && forall j :: 0 <= j < |holds| - 1 && holds[j] ==> holds[j + 1]
    ensures holds[k]
    decreases k
  {
    if i < k {
      Stays(holds, i, k - 1);
    }
  }

  // ---------------------------------------------------------------- reaching states

  ghost predicate Reachable(s: State) {
    exists states, steps :: IsRun(states, steps) && states[|steps|] == s
  }

  lemma AppendStep(states: seq<State>, steps: seq<Step>, step: Step, r: State)
    requires IsRun(states, steps) && Enabled(states[|steps|], step) && r == Apply(states[|steps|], step)
    ensures IsRun(states + [r], steps + [step])
  {
    var ss, ts := states + [r], steps + [step];
    forall i | 0 <= i < |ts| ensures Enabled(ss[i], ts[i]) && ss[i + 1] == Apply(ss[i], ts[i]) {
      assert ss[i] == states[i];
      if i < |steps| {
        assert ts[i] == steps[i] && ss[i + 1] == states[i + 1];
      }
    }
  }

  lemma ReachStep(s: State, step: Step, r: State)
    requires Reachable(s) && Enabled(s, step) && r == Apply(s, step)
    ensures Reachable(r)
  {
    var states, steps :| IsRun(states, steps) && states[|steps|] == s;
    AppendStep(states, steps, step, r);
    assert (states + [r])[|steps + [step]|] == r;
  }

  lemma ReachableInvariant(s: State)
    requires Reachable(s)
    ensures Invariant(s)
  {
    var states, steps :| IsRun(states, steps) && states[|steps|] == s;
    RunInvariant(states, steps, |steps|);
  }

  // ---------------------------------------------------------------- registration

  predicate Registers(s: State, step: Step, x: SessionId) { step == Net(Register) && s.reg.accept == Created(x) }

  predicate NotErased(steps: seq<Step>, x: SessionId, i: nat, k: nat) {
    forall j :: i <= j < k && j < |steps| ==> steps[j] != Net(Erase(x))
  }

  lemma RegistrationStep(s: State, step: Step, x: SessionId)
    requires Enabled(s, step)
    ensures x in Apply(s, step).reg.registered <==> Registers(s, step, x) || (x in s.reg.registered && step != Net(Erase(x)))
  {}

  /** What each step of a run does to one session's registration. */
  ghost predicate RegistrationSteps(states: seq<State>, steps: seq<Step>, x: SessionId) {
    && |states| == |steps| + 1 && x !in states[0].reg.registered
    && forall i :: 0 <= i < |steps| ==>
         (x in states[i + 1].reg.registered <==>
          Registers(states[i], steps[i], x) || (x in states[i].reg.registered && steps[i] != Net(Erase(x))))
  }

  lemma RunRegistrations(states: seq<State>, steps: seq<Step>, x: SessionId)
    requires IsRun(states, steps)
    ensures RegistrationSteps(states, steps, x)
  {
    forall i | 0 <= i < |steps|
      ensures x in states[i + 1].reg.registered <==>
              Registers(states[i], steps[i], x) || (x in states[i].reg.registered && steps[i] != Net(Erase(x)))
    {
      RegistrationStep(states[i], steps[i], x);
    }
  }

  ghost predicate AddedSince(states: seq<State>, steps: seq<Step>, k: nat, x: SessionId)
    requires |states| > |steps| >= k
  {
    exists i :: 0 <= i < k && Registers(states[i], steps[i], x) && NotErased(steps, x, i + 1, k)
  }

  lemma {:induction false} AddedSinceIff(states: seq<State>, steps: seq<Step>, k: nat, x: SessionId)
    requires RegistrationSteps(states, steps, x) && k <= |steps|
    ensures x in states[k].reg.registered <==> AddedSince(states, steps, k, x)
  {
    if k > 0 {
      AddedSinceIff(states, steps, k - 1, x);
      if Registers(states[k - 1], steps[k - 1], x) {
        assert NotErased(steps, x, k, k);
      } else if AddedSince(states, steps, k - 1, x) && steps[k - 1] != Net(Erase(x)) {
        var i :| 0 <= i < k - 1 && Registers(states[i], steps[i], x) && NotErased(steps, x, i + 1, k - 1);
        assert NotErased(steps, x, i + 1, k);
      }
    }
  }

  /** A session is registered exactly when its AddSession has happened and no Disconnect of it came
      after. So a session whose Disconnect calls all came before its AddSession stays registered. */
  lemma RegisteredIff(states: seq<State>, steps: seq<Step>, k: nat, x: SessionId)
    requires IsRun(states, steps) && k < |states|
    ensures x in states[k].reg.registered <==>
            exists i :: 0 <= i < k && Registers(states[i], steps[i], x) && NotErased(steps, x, i + 1, k)
  {
    RunRegistrations(states, steps, x);
    AddedSinceIff(states, steps, k, x);
  }

  function FirstSessions(n: nat): set<SessionId> { if n == 0 then {} else FirstSessions(n - 1) + {n - 1} }

  function WithoutPlayers(n: nat): map<SessionId, PlayerId> { if n == 0 then map[] else WithoutPlayers(n - 1)[n - 1 := NO_PLAYER] }

  /** Sessions 0 to n - 1 are registered, and that is all. */
  function Filled(n: nat): State {
    INIT.(reg := INIT.reg.(nextSession := n, playerOf := WithoutPlayers(n), registered := FirstSessions(n)))
  }

  lemma {:induction false} FilledSize(n: nat)
    ensures |FirstSessions(n)| == n && forall x :: x in FirstSessions(n) ==> x < n
  {
    if n > 0 { FilledSize(n - 1); }
  }

  /** The server takes any number of sessions up to 600 at once. */
  lemma {:induction false} TakesUpTo(n: nat)
    requires n <= 600
    ensures Reachable(Filled(n)) && |Filled(n).reg.registered| == n
  {
    FilledSize(n);
    if n == 0 {
      assert IsRun([INIT], []);
      assert Filled(0) == INIT;
    } else {
      TakesUpTo(n - 1);
      var s := Filled(n - 1);
      var created := Filled(n).(reg := Filled(n).reg.(accept := Created(n - 1), registered := s.reg.registered));
      ReachStep(s, Net(Admit), s.(reg := s.reg.(accept := Admitted)));
      ReachStep(s.(reg := s.reg.(accept := Admitted)), Net(Create), created);
      ReachStep(created, Net(Register), Filled(n));
    }
  }

  // ---------------------------------------------------------------- when a Disconnect is final

  predicate IsOut(g: Registry, x: SessionId) { x in g.playerOf && x !in g.registered && g.accept != Created(x) }

  lemma StepStaysOut(s: State, step: Step, x: SessionId)
    requires Enabled(s, step) && SessionOnce(s.reg, x) && IsOut(s.reg, x)
    ensures IsOut(Apply(s, step).reg, x)
  {}

  lemma RunStepStaysOut(states: seq<State>, steps: seq<Step>, j: nat, x: SessionId)
    requires IsRun(states, steps) && j < |steps| && IsOut(states[j].reg, x)
    ensures IsOut(states[j + 1].reg, x)
  {
    RunInvariant(states, steps, j);
    assert SessionOnce(states[j].reg, x);
    StepStaysOut(states[j], steps[j], x);
  }

  /** A started session that is not registered stays out for good, unless the accept loop still has its
      AddSession to do. */
  lemma StaysOut(states: seq<State>, steps: seq<Step>, i: nat, k: nat, x: SessionId)
    requires IsRun(states, steps) && i <= k < |states| && IsOut(states[i].reg, x)
    ensures IsOut(states[k].reg, x)
  {
    var holds := seq(|states|, j requires 0 <= j < |states| => IsOut(states[j].reg, x));
    forall j | 0 <= j < |holds| - 1 && holds[j] ensures holds[j + 1] { RunStepStaysOut(states, steps, j, x); }
    Stays(holds, i, k);
  }

  /** In no run that takes this Disconnect here is the session registered at any time after it. */
  ghost predicate EraseIsFinal(s: State, x: SessionId) {
    forall states: seq<State>, steps: seq<Step>, j, k ::
      IsRun(states, steps) && 0 <= j < |steps| && states[j] == s && steps[j] == Net(Erase(x)) && j < k < |states| ==>
        x !in states[k].reg.registered
  }

  lemma EraseLeavesOut(s: State, x: SessionId)
    requires x in s.reg.playerOf && s.reg.accept != Created(x)
    ensures IsOut(Apply(s, Net(Erase(x))).reg, x)
  {}

  lemma FinalWhenAdded(s: State, x: SessionId)
    requires x in s.reg.playerOf && s.reg.accept != Created(x)
    ensures EraseIsFinal(s, x)
  {
    forall states: seq<State>, steps: seq<Step>, j, k |
      IsRun(states, steps) && 0 <= j < |steps| && states[j] == s && steps[j] == Net(Erase(x)) && j < k < |states|
      ensures x !in states[k].reg.registered
    {
      EraseLeavesOut(s, x);
      StaysOut(states, steps, j + 1, k, x);
    }
  }

  /** A Disconnect before the AddSession removes nothing, and the session is registered after it. */
  lemma LeaksWhenEarly(s: State, x: SessionId) returns (states: seq<State>, steps: seq<Step>)
    requires Reachable(s) && s.reg.accept == Created(x)
    ensures IsRun(states, steps) && |steps| >= 2 && states[|steps| - 2] == s && steps[|steps| - 2] == Net(Erase(x))
    ensures x in states[|steps|].reg.registered
  {
    ReachableInvariant(s);
    assert SessionOnce(s.reg, x);
    states, steps :| IsRun(states, steps) && states[|steps|] == s;
    var n := |steps|;
    AppendStep(states, steps, Net(Erase(x)), s);
    states, steps := states + [s], steps + [Net(Erase(x))];
    var added := Apply(s, Net(Register));
    AppendStep(states, steps, Net(Register), added);
    states, steps := states + [added], steps + [Net(Register)];
  }

  /** A Disconnect is final exactly when the accept loop is not between starting that session and adding
      it. */
  lemma EraseFinalIff(s: State, x: SessionId)
    requires Reachable(s) && x in s.reg.playerOf
    ensures EraseIsFinal(s, x) <==> s.reg.accept != Created(x)
  {
    if s.reg.accept == Created(x) {
      var states, steps := LeaksWhenEarly(s, x);
    } else {
      FinalWhenAdded(s, x);
    }
  }

  const STARTED := INIT.(reg := INIT.reg.(accept := Created(0), nextSession := 1, playerOf := map[0 := NO_PLAYER]))

  lemma StartedReachable()
    ensures Reachable(STARTED)
  {
    assert IsRun([INIT], []);
    var admitted := INIT.(reg := INIT.reg.(accept := Admitted));
    ReachStep(INIT, Net(Admit), admitted);
    ReachStep(admitted, Net(Create), STARTED);
  }

  /** It does happen: the very first session may be registered after its Disconnect. */
  lemma EarlyDisconnectLeaks() returns (states: seq<State>, steps: seq<Step>)
    ensures Reachable(STARTED) && !EraseIsFinal(STARTED, 0)
    ensures IsRun(states, steps) && Net(Erase(0)) in steps && 0 in states[|steps|].reg.registered
  {
    StartedReachable();
    states, steps := LeaksWhenEarly(STARTED, 0);
  }

  // ---------------------------------------------------------------- players without a login

  const ONE_SESSION := INIT.(reg := INIT.reg.(nextSession := 1, playerOf := map[0 := NO_PLAYER], registered := {0}))

  lemma OneSessionReachable()
    ensures Reachable(ONE_SESSION)
  {
    StartedReachable();
    assert STARTED.reg.registered + {0} == {0};
    ReachStep(STARTED, Net(Register), ONE_SESSION);
  }

  const UNNAMED_PLAYER := ONE_SESSION.(game := GameThread(Processing, [], map[NO_PLAYER := Player(true, 0)]))

  lemma UnnamedPlayerReachable()
    ensures Reachable(UNNAMED_PLAYER)
  {
    OneSessionReachable();
    var c := EnterZone(NO_PLAYER, 0);
    var read := ONE_SESSION.(entries := multiset{Entry(NO_PLAYER, 0)});
    var pushed := ONE_SESSION.(queue := multiset{c});
    var popped := ONE_SESSION.(game := GameThread(Collecting, [c], map[]));
    var started := ONE_SESSION.(game := GameThread(Processing, [c], map[]));
    var checked := ONE_SESSION.(game := GameThread(Checked(NO_PLAYER, 0), [], map[]));
    ReachStep(ONE_SESSION, Work(ReadEntry(0)), read);
    ReachStep(read, Work(PushEntry(Entry(NO_PLAYER, 0))), pushed);
    ReachStep(pushed, Game(Pop(c)), popped);
    ReachStep(popped, Game(StartBatch), started);
    ReachStep(started, Game(HandleNext), checked);
    ReachStep(checked, Game(EnterPlayer), UNNAMED_PLAYER);
  }

  const ABANDONED := UNNAMED_PLAYER.(reg := ONE_SESSION.reg.(registered := {}, readAs := map[0 := NO_PLAYER]))

  lemma AbandonedReachable()
    ensures Reachable(ABANDONED)
  {
    UnnamedPlayerReachable();
    var g := ONE_SESSION.reg;
    var erased := UNNAMED_PLAYER.(reg := g.(registered := {}, removing := map[0 := Erased]));
    var read := UNNAMED_PLAYER.(reg := g.(registered := {}, removing := map[0 := Read(NO_PLAYER)]));
    assert g.registered - {0} == {};
    ReachStep(UNNAMED_PLAYER, Net(Erase(0)), erased);
    ReachStep(erased, Net(ReadPlayerId(0)), read);
    assert read.reg.removing - {0} == map[];
    ReachStep(read, Net(PushDisconnect(0)), ABANDONED);
  }

  lemma StepKeepsUnnamed(s: State, step: Step)
    requires Enabled(s, step) && PendingSound(s) && IsActive(s.game, NO_PLAYER)
    ensures IsActive(Apply(s, step).game, NO_PLAYER)
  {
    if step == Game(HandleNext) { assert Pending(s, s.game.batch[0]); }
  }

  lemma RunStepKeepsUnnamed(states: seq<State>, steps: seq<Step>, j: nat)
    requires IsRun(states, steps) && j < |steps| && IsActive(states[j].game, NO_PLAYER)
    ensures IsActive(states[j + 1].game, NO_PLAYER)
  {
    RunInvariant(states, steps, j);
    StepKeepsUnnamed(states[j], steps[j]);
  }

  /** In every run, once player 0 is active it is active for good. */
  lemma UnnamedForGood(states: seq<State>, steps: seq<Step>, i: nat, k: nat)
    requires IsRun(states, steps) && i <= k < |states| && IsActive(states[i].game, NO_PLAYER)
    ensures IsActive(states[k].game, NO_PLAYER)
  {
    var holds := seq(|states|, j requires 0 <= j < |states| => IsActive(states[j].game, NO_PLAYER));
    forall j | 0 <= j < |holds| - 1 && holds[j] ensures holds[j + 1] { RunStepKeepsUnnamed(states, steps, j); }
    Stays(holds, i, k);
  }

  /** The promise of ActiveIsCovered fails without its assumption: a client that enters the zone before
      logging in becomes player 0. Its session goes, and player 0 is active in every later state of every
      run. */
  lemma UnnamedPlayerStays()
    ensures Reachable(ABANDONED) && IsActive(ABANDONED.game, NO_PLAYER) && !Covered(ABANDONED, NO_PLAYER, 0)
    ensures forall states: seq<State>, steps: seq<Step>, i, k ::
              IsRun(states, steps) && 0 <= i < k < |states| && states[i] == ABANDONED ==> IsActive(states[k].game, NO_PLAYER)
  {
    AbandonedReachable();
    forall states: seq<State>, steps: seq<Step>, i, k | IsRun(states, steps) && 0 <= i < k < |states| && states[i] == ABANDONED
      ensures IsActive(states[k].game, NO_PLAYER)
    {
      UnnamedForGood(states, steps, i, k);
    }
  }

  // ---------------------------------------------------------------- a second login

  const NAMED := INIT.(reg := ONE_SESSION.reg.(playerOf := map[0 := 7]))

  lemma NamedReachable()
    ensures Reachable(NAMED)
  {
    OneSessionReachable();
    ReachStep(ONE_SESSION, Net(SetPlayerId(0, 7)), NAMED);
  }

  const PLAYING := NAMED.(game := GameThread(Processing, [], map[7 := Player(true, 0)]))

  lemma PlayingReachable()
    ensures Reachable(PLAYING)
  {
    NamedReachable();
    var c, e := EnterZone(7, 0), Entry(7, 0);
    var read := NAMED.(entries := multiset{e});
    var pushed := NAMED.(queue := multiset{c});
    var popped := NAMED.(game := GameThread(Collecting, [c], map[]));
    var started := NAMED.(game := GameThread(Processing, [c], map[]));
    var checked := NAMED.(game := GameThread(Checked(7, 0), [], map[]));
    ReachStep(NAMED, Work(ReadEntry(0)), read);
    ReachStep(read, Work(PushEntry(e)), pushed);
    ReachStep(pushed, Game(Pop(c)), popped);
    ReachStep(popped, Game(StartBatch), started);
    ReachStep(started, Game(HandleNext), checked);
    ReachStep(checked, Game(EnterPlayer), PLAYING);
  }

  const RENAMED := PLAYING.(reg := ONE_SESSION.reg.(playerOf := map[0 := 8]))

  lemma RenamedReachable()
    ensures Reachable(RENAMED)
  {
    PlayingReachable();
    ReachStep(PLAYING, Net(SetPlayerId(0, 8)), RENAMED);
  }

  const RENAMED_GONE :=
    RENAMED.(reg := RENAMED.reg.(registered := {}, sent := multiset{0}, readAs := map[0 := 8]), queue := multiset{Disconnect(8, 0)})

  /** A second way to be left behind: a client that logs in again as another player after entering. Its
      disconnect names the second player, and nothing covers the first. */
  lemma RenamedPlayerStays()
    ensures Reachable(RENAMED_GONE) && IsActive(RENAMED_GONE.game, 7) && !Covered(RENAMED_GONE, 7, 0)
    ensures Pending(RENAMED_GONE, Disconnect(8, 0))
  {
    RenamedReachable();
    var g := RENAMED.reg;
    var erased := RENAMED.(reg := g.(registered := {}, removing := map[0 := Erased]));
    var read := RENAMED.(reg := g.(registered := {}, removing := map[0 := Read(8)]));
    assert g.registered - {0} == {};
    ReachStep(RENAMED, Net(Erase(0)), erased);
    ReachStep(erased, Net(ReadPlayerId(0)), read);
    assert read.reg.removing - {0} == map[];
    ReachStep(read, Net(PushDisconnect(0)), RENAMED_GONE);
  }

  // ---------------------------------------------------------------- what the remover will read

  predicate SetsId(step: Step, x: SessionId) { step.Net? && step.net.SetPlayerId? && step.net.session == x }

  /** The session is being removed or gone, and its remover read the id `q` or will read it. */
  predicate ReadsAs(g: Registry, x: SessionId, q: PlayerId) {
    && x in g.playerOf && g.playerOf[x] == q && x !in g.registered && g.accept != Created(x)
    && (x in g.removing || x in g.readAs)
    && (x in g.removing ==> g.removing[x] == Erased || g.removing[x] == Read(q)) && (x in g.readAs ==> g.readAs[x] == q)
  }

  lemma StepReadsAs(s: State, step: Step, x: SessionId, q: PlayerId)
    requires Enabled(s, step) && SessionsOnce(s.reg) && ReadsAs(s.reg, x, q) && !SetsId(step, x)
    ensures ReadsAs(Apply(s, step).reg, x, q)
  {
    assert SessionOnce(s.reg, x) && SessionOnce(s.reg, s.reg.nextSession);
  }

  lemma RunStepReadsAs(states: seq<State>, steps: seq<Step>, j: nat, x: SessionId, q: PlayerId)
    requires IsRun(states, steps) && j < |steps| && ReadsAs(states[j].reg, x, q) && !SetsId(steps[j], x)
    ensures ReadsAs(states[j + 1].reg, x, q)
  {
    RunInvariant(states, steps, j);
    StepReadsAs(states[j], steps[j], x, q);
  }

  lemma EraseReadsAs(s: State, x: SessionId)
    requires x in s.reg.registered && SessionOnce(s.reg, x)
    ensures ReadsAs(Apply(s, Net(Erase(x))).reg, x, s.reg.playerOf[x])
  {}

  lemma RunReadsAs(states: seq<State>, steps: seq<Step>, j: nat, i: nat, x: SessionId)
    requires IsRun(states, steps) && j < i < |states| && steps[j] == Net(Erase(x)) && x in states[j].reg.registered
    requires forall m :: j < m < i ==> !SetsId(steps[m], x)
    ensures x in states[j].reg.playerOf && ReadsAs(states[i].reg, x, states[j].reg.playerOf[x])
  {
    RunInvariant(states, steps, j);
    assert SessionOnce(states[j].reg, x);
    var q := states[j].reg.playerOf[x];
    EraseReadsAs(states[j], x);
    var holds := seq(i - j, m requires 0 <= m < i - j => ReadsAs(states[j + 1 + m].reg, x, q));
    forall m | 0 <= m < |holds| - 1 && holds[m] ensures holds[m + 1] { RunStepReadsAs(states, steps, j + 1 + m, x, q); }
    Stays(holds, 0, i - j - 1);
  }

  /** What decides is the id at the moment the session is removed, if it is not changed after that: a
      player still active through the session is covered exactly when that id is the player's and not 0,
      or the remover has yet to read it. */
  lemma CoveredAfterErase(states: seq<State>, steps: seq<Step>, j: nat, i: nat, p: PlayerId, x: SessionId)
    requires IsRun(states, steps) && j < i < |states| && steps[j] == Net(Erase(x)) && x in states[j].reg.registered
    requires forall m :: j < m < i ==> !SetsId(steps[m], x)
    requires IsActive(states[i].game, p) && states[i].game.players[p].session == x
    ensures x in states[j].reg.playerOf
    ensures Covered(states[i], p, x) <==>
            states[j].reg.playerOf[x] == p != NO_PLAYER || (x in states[i].reg.removing && states[i].reg.removing[x] == Erased)
  {
    RunReadsAs(states, steps, j, i, x);
    CoveredIff(states, steps, i, p);
    RunInvariant(states, steps, i);
    assert SessionOnce(states[i].reg, x);
  }
}
