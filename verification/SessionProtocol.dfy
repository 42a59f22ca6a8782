/** Accepting, registering and removing sessions, the commands this puts in the game queue, and the
    single game thread that handles them, as atomic steps in any interleaving. */
module SessionProtocol {
  type SessionId = nat
  type PlayerId = nat

  const NO_PLAYER: PlayerId := 0
  const MAX_CONCURRENT_CONNECTIONS := 600

  datatype Command = EnterZone(player: PlayerId, session: SessionId) | Disconnect(player: PlayerId, session: SessionId)

  /** The accept loop: waiting, past the connection check, or between starting a session and adding it. */
  datatype AcceptPc = Accepting | Admitted | Created(session: SessionId)

  /** A remover, after it erased a session: about to read the player id, then about to push. */
  datatype RemoverPc = Erased | Read(player: PlayerId)

  /** The network side. `playerOf` has every session created so far, `sent` counts the disconnect
      commands each session caused, and `readAs` is the player id read by each remover that finished. */
  datatype Registry = Registry(nextSession: SessionId, playerOf: map<SessionId, PlayerId>, registered: set<SessionId>,
                               accept: AcceptPc, removing: map<SessionId, RemoverPc>,
                               sent: multiset<SessionId>, readAs: map<SessionId, PlayerId>)

  /** The game thread: collecting a batch, handling it, or between finding the sender's session and
      entering the player. */
  datatype GamePc = Collecting | Processing | Checked(player: PlayerId, session: SessionId)

  datatype Player = Player(active: bool, session: SessionId)
  datatype GameThread = GameThread(pc: GamePc, batch: seq<Command>, players: map<PlayerId, Player>)

  /** What a worker that handles an enter-zone packet has read from its session and not yet pushed. */
  datatype Entry = Entry(player: PlayerId, session: SessionId)

  datatype State = State(reg: Registry, entries: multiset<Entry>, queue: multiset<Command>, game: GameThread)

  datatype NetStep =
    | Admit
    | Reject
    | Create
    | Register
    | SetPlayerId(session: SessionId, player: PlayerId)
    | Erase(session: SessionId)
    | ReadPlayerId(session: SessionId)
    | PushDisconnect(session: SessionId)

  datatype WorkStep = ReadEntry(session: SessionId) | PushEntry(entry: Entry)

  datatype GameStep = Pop(command: Command) | StartBatch | HandleNext | EnterPlayer | FinishBatch

  datatype Step = Net(net: NetStep) | Work(work: WorkStep) | Game(game: GameStep)

  // ---------------------------------------------------------------- network steps

  predicate NetEnabled(g: Registry, step: NetStep) {
    match step
    case Admit => g.accept.Accepting? && |g.registered| < MAX_CONCURRENT_CONNECTIONS
    case Reject => g.accept.Accepting? && |g.registered| >= MAX_CONCURRENT_CONNECTIONS
    case Create => g.accept.Admitted?
    case Register => g.accept.Created?
    case SetPlayerId(x, _) => x in g.playerOf
    case Erase(x) => x in g.playerOf
    case ReadPlayerId(x) => x in g.removing && g.removing[x].Erased? && x in g.playerOf
    case PushDisconnect(x) => x in g.removing && g.removing[x].Read?
  }

  function NextRegistry(g: Registry, step: NetStep): Registry
    requires NetEnabled(g, step)
  {
    match step
    case Admit => g.(accept := Admitted)
    case Reject => g
    case Create =>
      g.(accept := Created(g.nextSession), nextSession := g.nextSession + 1, playerOf := g.playerOf[g.nextSession := NO_PLAYER])
    case Register => g.(accept := Accepting, registered := g.registered + {g.accept.session})
    case SetPlayerId(x, p) => g.(playerOf := g.playerOf[x := p])
    case Erase(x) =>
      if x in g.registered then g.(registered := g.registered - {x}, removing := g.removing[x := Erased]) else g
    case ReadPlayerId(x) => g.(removing := g.removing[x := Read(g.playerOf[x])])
    case PushDisconnect(x) =>
      var p := g.removing[x].player;
      g.(removing := g.removing - {x}, readAs := g.readAs[x := p],
         sent := if p == NO_PLAYER then g.sent else g.sent + multiset{x})
  }

  /** The commands a network step pushes. A session without a player causes no disconnect command. */
  function Pushes(g: Registry, step: NetStep): multiset<Command>
    requires NetEnabled(g, step)
  {
    match step
    case PushDisconnect(x) =>
      if g.removing[x].player == NO_PLAYER then multiset{} else multiset{Disconnect(g.removing[x].player, x)}
    case _ => multiset{}
  }

  // ---------------------------------------------------------------- worker steps

  predicate WorkEnabled(s: State, step: WorkStep) {
    match step
    case ReadEntry(x) => x in s.reg.playerOf
    case PushEntry(e) => e in s.entries
  }

  function NextWork(s: State, step: WorkStep): State
    requires WorkEnabled(s, step)
  {
    match step
    case ReadEntry(x) => s.(entries := s.entries + multiset{Entry(s.reg.playerOf[x], x)})
    case PushEntry(e) => s.(entries := s.entries - multiset{e}, queue := s.queue + multiset{EnterZone(e.player, e.session)})
  }

  // ---------------------------------------------------------------- game thread steps

  predicate GameEnabled(s: State, step: GameStep) {
    match step
    case Pop(c) => s.game.pc.Collecting? && c in s.queue
    case StartBatch => s.game.pc.Collecting?
    case HandleNext => s.game.pc.Processing? && s.game.batch != []
    case EnterPlayer => s.game.pc.Checked?
    case FinishBatch => s.game.pc.Processing? && s.game.batch == []
  }

  predicate IsActive(t: GameThread, p: PlayerId) { p in t.players && t.players[p].active }

  /** The handler of the command taken from the head of the batch. */
  function Handle(t: GameThread, registered: set<SessionId>, c: Command): GameThread {
    match c
    case Disconnect(p, _) =>
      if p in t.players then t.(players := t.players[p := t.players[p].(active := false)]) else t
    case EnterZone(p, x) => if x in registered then t.(pc := Checked(p, x)) else t
  }

  function NextGame(s: State, step: GameStep): GameThread
    requires GameEnabled(s, step)
  {
    var t := s.game;
    match step
    case Pop(c) => t.(batch := t.batch + [c])
    case StartBatch => t.(pc := Processing)
    case HandleNext => Handle(t.(batch := t.batch[1..]), s.reg.registered, t.batch[0])
    case EnterPlayer =>
      var p := t.pc.player;
      if IsActive(t, p) then t.(pc := Processing)
      else t.(pc := Processing, players := t.players[p := Player(true, t.pc.session)])
    case FinishBatch => t.(pc := Collecting)
  }

  // ---------------------------------------------------------------- runs

  predicate Enabled(s: State, step: Step) {
    match step
    case Net(n) => NetEnabled(s.reg, n)
    case Work(k) => WorkEnabled(s, k)
    case Game(g) => GameEnabled(s, g)
  }

  function Apply(s: State, step: Step): State
    requires Enabled(s, step)
  {
    match step
    case Net(n) => s.(reg := NextRegistry(s.reg, n), queue := s.queue + Pushes(s.reg, n))
    case Work(k) => NextWork(s, k)
    case Game(g) => s.(queue := if g.Pop? then s.queue - multiset{g.command} else s.queue, game := NextGame(s, g))
  }

  const INIT := State(Registry(0, map[], {}, Accepting, map[], multiset{}, map[]), multiset{}, multiset{}, GameThread(Collecting, [], map[]))

  ghost predicate IsRun(states: seq<State>, steps: seq<Step>) {
    && |states| == |steps| + 1 && states[0] == INIT
    && forall i :: 0 <= i < |steps| ==> Enabled(states[i], steps[i]) && states[i + 1] == Apply(states[i], steps[i])
  }

  // ---------------------------------------------------------------- the registry by itself

  ghost predicate Capped(g: Registry) {
    |g.registered| <= 600 && (!g.accept.Accepting? ==> |g.registered| < 600)
  }

  /** Each session is not yet added, registered, being removed, or removed, in that order and only once. */
  ghost predicate SessionOnce(g: Registry, x: SessionId) {
    && (x in g.playerOf <==> x < g.nextSession)
    && (g.accept == Created(x) ==> x in g.playerOf && x !in g.registered && x !in g.removing && x !in g.readAs)
    && (x !in g.playerOf ==> x !in g.registered && x !in g.removing && x !in g.readAs)
    && (x in g.registered ==> x !in g.removing && x !in g.readAs)
    && (x in g.removing ==> x !in g.readAs)
    && g.sent[x] == (if x in g.readAs && g.readAs[x] != NO_PLAYER then 1 else 0)
  }

  ghost predicate SessionsOnce(g: Registry) { forall x: SessionId :: SessionOnce(g, x) }

  lemma NetKeepsCap(g: Registry, step: NetStep)
    requires NetEnabled(g, step) && Capped(g)
    ensures Capped(NextRegistry(g, step))
  {}

  lemma NetKeepsOnce(g: Registry, step: NetStep)
    requires NetEnabled(g, step) && SessionsOnce(g)
    ensures SessionsOnce(NextRegistry(g, step))
  {
    forall x: SessionId ensures SessionOnce(NextRegistry(g, step), x) {
      assert SessionOnce(g, x);
      match step
      case Create => CreateKeepsOnce(g, x);
      case Register => RegisterKeepsOnce(g, x);
      case Erase(y) => EraseKeepsOnce(g, y, x);
      case ReadPlayerId(y) => ReadKeepsOnce(g, y, x);
      case PushDisconnect(y) => PushKeepsOnce(g, y, x);
      case _ =>
    }
  }

  lemma CreateKeepsOnce(g: Registry, x: SessionId)
    requires NetEnabled(g, Create) && SessionOnce(g, x)
    ensures SessionOnce(NextRegistry(g, Create), x)
  {}

  lemma RegisterKeepsOnce(g: Registry, x: SessionId)
    requires NetEnabled(g, Register) && SessionOnce(g, x)
    ensures SessionOnce(NextRegistry(g, Register), x)
  {}

  lemma EraseKeepsOnce(g: Registry, y: SessionId, x: SessionId)
    requires NetEnabled(g, Erase(y)) && SessionOnce(g, x)
    ensures SessionOnce(NextRegistry(g, Erase(y)), x)
  {}

  lemma ReadKeepsOnce(g: Registry, y: SessionId, x: SessionId)
    requires NetEnabled(g, ReadPlayerId(y)) && SessionOnce(g, x)
    ensures SessionOnce(NextRegistry(g, ReadPlayerId(y)), x)
  {}

  lemma PushKeepsOnce(g: Registry, y: SessionId, x: SessionId)
    requires NetEnabled(g, PushDisconnect(y)) && SessionOnce(g, x)
    ensures SessionOnce(NextRegistry(g, PushDisconnect(y)), x)
  {}

  // ---------------------------------------------------------------- nobody is left behind

  predicate Pending(s: State, c: Command) { c in s.queue || c in s.game.batch }

  /** A disconnect command is pending only for what the remover of its session read. */
  ghost predicate PendingSound(s: State) {
    forall c :: Pending(s, c) && c.Disconnect? ==> c.session in s.reg.readAs && s.reg.readAs[c.session] == c.player != NO_PLAYER
  }

  /** The session is registered, or its remover is on the way to pushing this player's disconnect. */
  ghost predicate Held(g: Registry, p: PlayerId, x: SessionId) {
    || x in g.registered
    || (x in g.removing && (g.removing[x] == Erased || (g.removing[x] == Read(p) && p != NO_PLAYER)))
  }

  /** The session is held, or the player's disconnect command is pending. */
  ghost predicate Covered(s: State, p: PlayerId, x: SessionId) { Held(s.reg, p, x) || Pending(s, Disconnect(p, x)) }

  /** The remover of the session read something else than this player's id, or no id at all. */
  ghost predicate Misread(g: Registry, p: PlayerId, x: SessionId) {
    || (x in g.removing && g.removing[x].Read? && (g.removing[x].player != p || p == NO_PLAYER))
    || (x in g.readAs && (g.readAs[x] != p || p == NO_PLAYER))
  }

  /** The player the game thread has active through the session, or is about to enter through it. */
  ghost predicate Attached(t: GameThread, p: PlayerId, x: SessionId) {
    (IsActive(t, p) && t.players[p].session == x) || t.pc == Checked(p, x)
  }

  ghost predicate Explained(s: State, p: PlayerId, x: SessionId) { Covered(s, p, x) || Misread(s.reg, p, x) }

  ghost predicate AllExplained(s: State) { forall p, x :: Attached(s.game, p, x) ==> Explained(s, p, x) }

  ghost predicate Invariant(s: State) { Capped(s.reg) && SessionsOnce(s.reg) && PendingSound(s) && AllExplained(s) }

  lemma NetPending(s: State, n: NetStep, c: Command)
    requires NetEnabled(s.reg, n)
    ensures Pending(Apply(s, Net(n)), c) <==> Pending(s, c) || c in Pushes(s.reg, n)
  {}

  /** What the game thread has yet to handle only shrinks by the command it handles. */
  lemma GamePending(s: State, g: GameStep, c: Command)
    requires GameEnabled(s, g)
    ensures Pending(Apply(s, Game(g)), c) ==> Pending(s, c)
    ensures Pending(s, c) && !(g.HandleNext? && s.game.batch[0] == c) ==> Pending(Apply(s, Game(g)), c)
  {
    if g.HandleNext? {
      assert s.game.batch == [s.game.batch[0]] + s.game.batch[1..];
    }
  }

  lemma NetKeepsPending(s: State, n: NetStep)
    requires NetEnabled(s.reg, n) && SessionsOnce(s.reg) && PendingSound(s)
    ensures PendingSound(Apply(s, Net(n)))
  {
    forall c | Pending(Apply(s, Net(n)), c) && c.Disconnect?
      ensures var g := NextRegistry(s.reg, n); c.session in g.readAs && g.readAs[c.session] == c.player != NO_PLAYER
    {
      NetPending(s, n, c);
      assert SessionOnce(s.reg, c.session);
    }
  }

  lemma WorkKeepsPending(s: State, k: WorkStep)
    requires WorkEnabled(s, k) && PendingSound(s)
    ensures PendingSound(NextWork(s, k))
  {}

  lemma GameKeepsPending(s: State, g: GameStep)
    requires GameEnabled(s, g) && PendingSound(s)
    ensures PendingSound(Apply(s, Game(g)))
  {}

  /** Removing a session hands its cover on, from the registry to the remover to the queue, unless the
      remover reads another id. */
  lemma NetKeepsExplained(s: State, n: NetStep, p: PlayerId, x: SessionId)
    requires NetEnabled(s.reg, n) && Explained(s, p, x)
    ensures Explained(Apply(s, Net(n)), p, x)
  {}

  /** The game thread ends a player's cover only by making the player inactive. */
  lemma GameKeepsExplained(s: State, g: GameStep, p: PlayerId, x: SessionId)
    requires GameEnabled(s, g) && AllExplained(s) && Attached(NextGame(s, g), p, x)
    ensures Explained(Apply(s, Game(g)), p, x)
  {
    GamePending(s, g, Disconnect(p, x));
    GameAttached(s, g, p, x);
  }

  /** A player becomes attached only through a session that is registered at that moment, and is not
      attached any more right after its disconnect was handled. */
  lemma GameAttached(s: State, g: GameStep, p: PlayerId, x: SessionId)
    requires GameEnabled(s, g) && Attached(NextGame(s, g), p, x)
    ensures Attached(s.game, p, x) || (x in s.reg.registered && g.HandleNext? && s.game.batch[0] == EnterZone(p, x))
    ensures g.HandleNext? ==> s.game.batch[0] != Disconnect(p, x)
  {}

  lemma StepKeeps(s: State, step: Step)
    requires Enabled(s, step) && Invariant(s)
    ensures Invariant(Apply(s, step))
  {
    match step
    case Net(n) =>
      NetKeepsCap(s.reg, n);
      NetKeepsOnce(s.reg, n);
      NetKeepsPending(s, n);
      forall p, x | Attached(s.game, p, x) ensures Explained(Apply(s, step), p, x) { NetKeepsExplained(s, n, p, x); }
    case Work(k) => WorkKeepsPending(s, k);
    case Game(g) =>
      GameKeepsPending(s, g);
      forall p, x | Attached(NextGame(s, g), p, x) ensures Explained(Apply(s, step), p, x) { GameKeepsExplained(s, g, p, x); }
  }

  lemma {:induction false} RunInvariant(states: seq<State>, steps: seq<Step>, i: nat)
    requires IsRun(states, steps) && i < |states|
    ensures Invariant(states[i])
  {
    if i > 0 {
      RunInvariant(states, steps, i - 1);
      StepKeeps(states[i - 1], steps[i - 1]);
    }
  }

  // ---------------------------------------------------------------- theorems over every interleaving

  /** At most 600 sessions are registered at any time, and no session ever causes two disconnect
      commands. */
  lemma CapAndOnce(states: seq<State>, steps: seq<Step>, i: nat, x: SessionId)
    requires IsRun(states, steps) && i < |states|
    ensures |states[i].reg.registered| <= 600 && states[i].reg.sent[x] <= 1
  {
    RunInvariant(states, steps, i);
    assert SessionOnce(states[i].reg, x);
  }

  /** Without any assumption on logins: an active player is covered exactly when the remover of its
      session, if there was one, read that player's id and the id is not 0. */
  lemma CoveredIff(states: seq<State>, steps: seq<Step>, i: nat, p: PlayerId)
    requires IsRun(states, steps) && i < |states| && IsActive(states[i].game, p)
    ensures var x := states[i].game.players[p].session;
            Covered(states[i], p, x) <==> !Misread(states[i].reg, p, x)
  {
    var s := states[i];
    var x := s.game.players[p].session;
    RunInvariant(states, steps, i);
    assert Attached(s.game, p, x);
    assert SessionOnce(s.reg, x);
  }

  /** Each session's player id is set once, to a player, before a worker reads it for an enter-zone packet. */
  predicate Disciplined(g: Registry, step: Step) {
    match step
    case Net(SetPlayerId(x, p)) => x in g.playerOf && g.playerOf[x] == NO_PLAYER && p != NO_PLAYER
    case Work(ReadEntry(x)) => x in g.playerOf && g.playerOf[x] != NO_PLAYER
    case _ => true
  }

  ghost predicate DisciplinedRun(states: seq<State>, steps: seq<Step>) {
    IsRun(states, steps) && forall i :: 0 <= i < |steps| ==> Disciplined(states[i].reg, steps[i])
  }

  ghost predicate Knows(g: Registry, p: PlayerId, x: SessionId) { x in g.playerOf && g.playerOf[x] == p != NO_PLAYER }

  /** Enter-zone commands, pushed or not, and players attached through them, carry their session's player id; and the
      remover of such a session read that id. */
  ghost predicate IdsAgree(s: State) {
    && (forall e :: e in s.entries ==> Knows(s.reg, e.player, e.session))
    && (forall c :: Pending(s, c) && c.EnterZone? ==> Knows(s.reg, c.player, c.session))
    && (forall p, x :: Attached(s.game, p, x) ==> Knows(s.reg, p, x) && !Misread(s.reg, p, x))
  }

  lemma KnowsKept(g: Registry, n: NetStep, p: PlayerId, x: SessionId)
    requires NetEnabled(g, n) && SessionsOnce(g) && Disciplined(g, Net(n)) && Knows(g, p, x)
    ensures Knows(NextRegistry(g, n), p, x)
    ensures !Misread(g, p, x) ==> !Misread(NextRegistry(g, n), p, x)
  {
    assert SessionOnce(g, g.nextSession);
  }

  lemma NetKeepsIds(s: State, n: NetStep)
    requires NetEnabled(s.reg, n) && SessionsOnce(s.reg) && IdsAgree(s) && Disciplined(s.reg, Net(n))
    ensures IdsAgree(Apply(s, Net(n)))
  {
    forall e | e in s.entries ensures Knows(NextRegistry(s.reg, n), e.player, e.session) { KnowsKept(s.reg, n, e.player, e.session); }
    forall c | Pending(Apply(s, Net(n)), c) && c.EnterZone? ensures Knows(NextRegistry(s.reg, n), c.player, c.session) {
      NetPending(s, n, c);
      KnowsKept(s.reg, n, c.player, c.session);
    }
    forall p, x | Attached(s.game, p, x) ensures Knows(NextRegistry(s.reg, n), p, x) && !Misread(NextRegistry(s.reg, n), p, x) {
      KnowsKept(s.reg, n, p, x);
    }
  }

  lemma WorkKeepsIds(s: State, k: WorkStep)
    requires WorkEnabled(s, k) && IdsAgree(s) && Disciplined(s.reg, Work(k))
    ensures IdsAgree(NextWork(s, k))
  {}

  lemma GameKeepsIds(s: State, g: GameStep)
    requires GameEnabled(s, g) && SessionsOnce(s.reg) && IdsAgree(s)
    ensures IdsAgree(Apply(s, Game(g)))
  {
    forall c | Pending(Apply(s, Game(g)), c) ensures Pending(s, c) { GamePending(s, g, c); }
    forall p, x | Attached(NextGame(s, g), p, x) ensures Knows(s.reg, p, x) && !Misread(s.reg, p, x) {
      GameAttached(s, g, p, x);
      assert SessionOnce(s.reg, x);
      if !Attached(s.game, p, x) { assert Pending(s, EnterZone(p, x)); }
    }
  }

  lemma {:induction false} RunIdsAgree(states: seq<State>, steps: seq<Step>, i: nat)
    requires DisciplinedRun(states, steps) && i < |states|
    ensures IdsAgree(states[i])
  {
    if i > 0 {
      RunIdsAgree(states, steps, i - 1);
      RunInvariant(states, steps, i - 1);
      match steps[i - 1]
      case Net(n) => NetKeepsIds(states[i - 1], n);
      case Work(k) => WorkKeepsIds(states[i - 1], k);
      case Game(g) => GameKeepsIds(states[i - 1], g);
    }
  }

  /** With disciplined logins, in every interleaving and however the queue reorders commands: an active
      player's session is registered, or its remover is about to push, or the player's disconnect
      command is pending. */
  lemma ActiveIsCovered(states: seq<State>, steps: seq<Step>, i: nat, p: PlayerId)
    requires DisciplinedRun(states, steps) && i < |states| && IsActive(states[i].game, p)
    ensures Covered(states[i], p, states[i].game.players[p].session)
  {
    RunIdsAgree(states, steps, i);
    CoveredIff(states, steps, i, p);
    assert Attached(states[i].game, p, states[i].game.players[p].session);
  }
}
