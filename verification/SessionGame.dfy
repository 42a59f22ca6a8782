/** The players of the session protocol are those of the game: every run of the protocol goes along with a
    run of the game loop that has the same players active, through the same sessions. */
module SessionGame {
  import opened Geometry
  import opened QuadTreeSpec
  import opened GameModel
  import GameInvariant
  import GameRuns
  import P = SessionProtocol

  /** Who is active and through which session, of what a world knows. */
  function Players(w: map<PlayerId, Player>): map<PlayerId, P.Player> {
    map id | id in w :: P.Player(w[id].active, w[id].session)
  }

  /** The game command behind a command of the protocol. */
  function CommandOf(c: P.Command): GameCommand {
    match c
    case EnterZone(p, x) => GameCommand(EnterZone(p, x), x)
    case Disconnect(p, x) => GameCommand(PlayerDisconnect(p), x)
  }

  // ---------------------------------------------------------------- one command

  lemma SetPlayer(w: map<PlayerId, Player>, id: PlayerId, p: Player)
    ensures Players(w[id := p]) == Players(w)[id := P.Player(p.active, p.session)]
  {}

  lemma SameDisconnect(g: State, t: P.GameThread, p: PlayerId, x: SessionId, registered: set<SessionId>)
    requires t.players == Players(g.world)
    ensures P.Handle(t, registered, P.Disconnect(p, x)).players == Players(HandlePlayerDisconnect(g, p).world)
  {
    if p in g.world { SetPlayer(g.world, p, g.world[p].(active := false, lastSequence := 0)); }
  }

  lemma SameEntry(g: State, s: P.State, spawn: Vec3)
    requires s.game.players == Players(g.world) && s.game.pc.Checked?
    ensures P.NextGame(s, P.EnterPlayer).players == Players(HandleEnterZone(g, s.game.pc.player, s.game.pc.session, spawn).world)
  {
    var p, x := s.game.pc.player, s.game.pc.session;
    if p in g.world {
      SetPlayer(g.world, p, g.world[p].(active := true, session := x));
    } else {
      SetPlayer(g.world, p, NewPlayer(spawn, x));
    }
  }

  /** Handling the next command in the protocol, with the second step that enters a player if it comes to it. */
  function Handled(s: P.State): P.State
    requires P.GameEnabled(s, P.HandleNext)
  {
    var r := P.Apply(s, P.Game(P.HandleNext));
    if r.game.pc.Checked? then P.Apply(r, P.Game(P.EnterPlayer)) else r
  }

  /** The two models handle a command alike. */
  lemma SameHandling(cfg: Config, g: State, s: P.State, env: Env)
    requires P.GameEnabled(s, P.HandleNext) && s.game.players == Players(g.world) && env.registered == s.reg.registered
    ensures Handled(s).game.players == Players(ProcessGameCommand(cfg, g, CommandOf(s.game.batch[0]), env).world)
  {
    var r := P.Apply(s, P.Game(P.HandleNext));
    match s.game.batch[0]
    case Disconnect(p, x) => SameDisconnect(g, s.game.(batch := s.game.batch[1..]), p, x, s.reg.registered);
    case EnterZone(p, x) => if x in s.reg.registered { SameEntry(g, r, env.spawn); }
  }

  /** What the protocol leaves out, inputs and ticks, does not change who is active through which session. */
  lemma OthersKeepPlayers(cfg: Config, g: State, step: Step)
    requires step.Tick? || step.command.payload.PlayerInput? || step.command.payload.PlayerSpawn?
    ensures Players(Next(cfg, g, step).world) == Players(g.world)
  {
    if step.Tick? {
      MovedPlayers(cfg, g.world, step.dt, g.world.Keys);
    } else if step.command.payload.PlayerInput? {
      var c := step.command.payload;
      if AcceptsInput(g, c.player, c.sequence, step.env.checkedAt) {
        InputPlayers(cfg, g, c.player, c.inputFlags, c.sequence, step.env);
      }
    }
  }

  lemma MovedPlayers(cfg: Config, w: map<PlayerId, Player>, dt: real, done: set<PlayerId>)
    ensures Players(MovedWorld(cfg, w, dt, done)) == Players(w)
  {}

  lemma InputPlayers(cfg: Config, g: State, id: PlayerId, inputFlags: nat, sequence: nat, env: Env)
    requires id in g.world
    ensures Players(HandlePlayerInput(cfg, g, id, inputFlags, sequence, env).world) == Players(g.world)
  {
    SetPlayer(g.world, id, HandlePlayerInput(cfg, g, id, inputFlags, sequence, env).world[id]);
  }

  // ---------------------------------------------------------------- whole runs

  /** The game step that goes with a step of the protocol, if any. The registry is looked up when a command is
      handled, which may be long before the player is entered. */
  predicate IsHandling(s: P.State, step: P.Step) {
    step.Game? && (step.game.EnterPlayer? || (step.game.HandleNext? && s.game.batch != [] && s.game.batch[0].Disconnect?))
  }

  function GameStep(s: P.State, step: P.Step, spawn: Vec3): Step
    requires P.Enabled(s, step) && IsHandling(s, step)
  {
    if step.game.EnterPlayer?
    then Handle(CommandOf(P.EnterZone(s.game.pc.player, s.game.pc.session)), Env({s.game.pc.session}, 0, 0, spawn))
    else Handle(CommandOf(s.game.batch[0]), Env(s.reg.registered, 0, 0, spawn))
  }

  lemma StepMirrored(cfg: Config, g: State, s: P.State, step: P.Step, spawn: Vec3)
    requires P.Enabled(s, step) && s.game.players == Players(g.world)
    ensures P.Apply(s, step).game.players ==
            if IsHandling(s, step) then Players(Next(cfg, g, GameStep(s, step, spawn)).world) else Players(g.world)
  {
    if IsHandling(s, step) {
      if step.game.EnterPlayer? {
        SameEntry(g, s, spawn);
      } else {
        var c := s.game.batch[0];
        SameDisconnect(g, s.game.(batch := s.game.batch[1..]), c.player, c.session, s.reg.registered);
      }
    }
  }

  /** Every run of the protocol is mirrored by a run of the game with the same players. */
  lemma {:induction false} Mirror(cfg: Config, maxDt: real, states: seq<P.State>, steps: seq<P.Step>, k: nat)
    returns (gs: seq<State>, ts: seq<Step>)
    requires cfg.Valid() && P.IsRun(states, steps) && k < |states|
    ensures IsRun(cfg, maxDt, gs, ts) && Players(gs[|ts|].world) == states[k].game.players
  {
    if k == 0 {
      return [Init(cfg)], [];
    }
    gs, ts := Mirror(cfg, maxDt, states, steps, k - 1);
    var s, step, spawn := states[k - 1], steps[k - 1], Vec3(20.0, 20.0, 0.0);
    StepMirrored(cfg, gs[|ts|], s, step, spawn);
    if IsHandling(s, step) {
      var next := GameStep(s, step, spawn);
      GameRuns.AppendStep(cfg, maxDt, gs, ts, next, Next(cfg, gs[|ts|], next));
      gs, ts := gs + [Next(cfg, gs[|ts|], next)], ts + [next];
    }
  }

  /** With disciplined logins: in every state of the protocol the players that the mirroring game has in its
      index are the active ones, and each has its session registered or its disconnect on the way. */
  lemma IndexedAreCovered(cfg: Config, maxDt: real, states: seq<P.State>, steps: seq<P.Step>, k: nat)
    returns (gs: seq<State>, ts: seq<Step>)
    requires cfg.Valid() && P.DisciplinedRun(states, steps) && k < |states|
    ensures IsRun(cfg, maxDt, gs, ts) && Players(gs[|ts|].world) == states[k].game.players
    ensures forall p :: p in gs[|ts|].index.positions <==> P.IsActive(states[k].game, p)
    ensures forall p :: p in gs[|ts|].index.positions ==> p in gs[|ts|].world && P.Covered(states[k], p, gs[|ts|].world[p].session)
  {
    gs, ts := Mirror(cfg, maxDt, states, steps, k);
    GameInvariant.RunInvariant(cfg, maxDt, gs, ts, |ts|);
    var g := gs[|ts|];
    forall p | p in g.index.positions ensures P.IsActive(states[k].game, p) && p in g.world && P.Covered(states[k], p, g.world[p].session) {
      assert p in Players(g.world);
      P.ActiveIsCovered(states, steps, k, p);
    }
  }
}
