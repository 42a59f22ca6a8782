/** The game manager: its fields updated in place by the command handlers and the phases of a tick,
    each proved to compute the transition of GameModel. */
module GameManager {
  import opened Options
  import opened Geometry
  import opened QuadTreeSpec
  import opened GameModel
  import opened GameRuns
  import GameInvariant
  import AoiAccuracy
  import QuadTree

  /** Pending commands. The concurrent queue promises no order across its producers. */
  class GameLogicQueue {
    var commands: seq<GameCommand>

    constructor ()
      ensures commands == []
    {
      commands := [];
    }

    method PushGameCommand(c: GameCommand)
      modifies this
      ensures multiset(commands) == old(multiset(commands)) + multiset{c}
    {
      commands := commands + [c];
    }

    method TryPopGameCommand() returns (r: Option<GameCommand>)
      modifies this
      ensures r.None? <==> old(commands) == []
      ensures r.None? ==> commands == []
      ensures r.Some? ==> old(multiset(commands)) == multiset(commands) + multiset{r.value}
    {
      if commands == [] {
        return None;
      }
      var i :| 0 <= i < |commands|;
      r := Some(commands[i]);
      assert commands == commands[..i] + [commands[i]] + commands[i + 1..];
      commands := commands[..i] + commands[i + 1..];
    }
  }

  /** A batch of commands and a tick, as the game loop runs them, keep the invariant. */
  lemma {:induction false} ProcessAllKeeps(cfg: Config, s: State, batch: seq<GameCommand>, envs: nat -> Env)
    requires GameInvariant.Invariant(cfg, s) && LegalEnvs(cfg, envs)
    ensures GameInvariant.Invariant(cfg, ProcessAll(cfg, s, batch, envs))
  {
    if batch != [] {
      var n := |batch| - 1;
      ProcessAllKeeps(cfg, s, batch[..n], envs);
      GameInvariant.NextKeeps(cfg, 0.0, ProcessAll(cfg, s, batch[..n], envs), Handle(batch[n], envs(n)));
    }
  }

  lemma IterationKeeps(cfg: Config, s: State, batch: seq<GameCommand>, envs: nat -> Env, tick: Step)
    requires GameInvariant.Invariant(cfg, s) && LegalEnvs(cfg, envs) && tick.Tick? && 0.0 <= tick.dt
    requires Enumerates(tick.order, ProcessAll(cfg, s, batch, envs).world.Keys)
    ensures GameInvariant.Invariant(cfg, Next(cfg, ProcessAll(cfg, s, batch, envs), tick))
  {
    ProcessAllKeeps(cfg, s, batch, envs);
    TickKeeps(cfg, ProcessAll(cfg, s, batch, envs), tick);
  }

  lemma TickKeeps(cfg: Config, s: State, tick: Step)
    requires GameInvariant.Invariant(cfg, s) && tick.Tick? && Enumerates(tick.order, s.world.Keys) && 0.0 <= tick.dt
    ensures GameInvariant.Invariant(cfg, Next(cfg, s, tick))
  {
    GameInvariant.NextKeeps(cfg, tick.dt, s, tick);
  }

  /** Serving other players does not affect what a player is served. */
  lemma ServedIndependently(cfg: Config, s: State, serverTime: int, done: set<PlayerId>, id: PlayerId, pos: Vec3)
    requires id !in done
    ensures var now := Served(cfg, s, serverTime, done);
            CacheFor(cfg, now, id, pos) == CacheFor(cfg, s, id, pos) && Batch(now, id) == Batch(s, id)
  {}

  lemma ServeOneCache(cfg: Config, s: State, serverTime: int, done: set<PlayerId>, id: PlayerId)
    requires id in s.world && id !in done
    ensures Served(cfg, s, serverTime, done + {id}).cache ==
            if s.world[id].active then Served(cfg, s, serverTime, done).cache[id := CacheFor(cfg, s, id, s.world[id].position)]
            else Served(cfg, s, serverTime, done).cache
  {}

  lemma ServeOneBatch(cfg: Config, s: State, serverTime: int, done: set<PlayerId>, id: PlayerId)
    requires id in s.world && id !in done
    ensures Served(cfg, s, serverTime, done + {id}).batches ==
            if s.world[id].active
            then Served(cfg, s, serverTime, done).batches[id := Batch(s, id) + [SnapshotFor(cfg, s, id, serverTime)]]
            else Served(cfg, s, serverTime, done).batches
  {}

  /** Serving one more player changes that player's cache entry and batch only. */
  lemma ServeOne(cfg: Config, s: State, serverTime: int, done: set<PlayerId>, id: PlayerId)
    requires id in s.world && id !in done
    ensures var now := Served(cfg, s, serverTime, done);
            var next := Served(cfg, s, serverTime, done + {id});
            if s.world[id].active then
              var c := CacheFor(cfg, now, id, s.world[id].position);
              var snap := Snapshot(s.tick, serverTime, PlayerStates(s.world, c.visible));
              next == now.(cache := now.cache[id := c], batches := now.batches[id := Batch(now, id) + [snap]])
            else next == now
  {
    ServedIndependently(cfg, s, serverTime, done, id, s.world[id].position);
    ServeOneCache(cfg, s, serverTime, done, id);
    ServeOneBatch(cfg, s, serverTime, done, id);
  }

  lemma MoveOne(cfg: Config, w: map<PlayerId, Player>, dt: real, done: set<PlayerId>, id: PlayerId)
    requires id in w && id !in done
    ensures MovedWorld(cfg, w, dt, done)[id] == w[id]
    ensures MovedWorld(cfg, w, dt, done + {id}) == MovedWorld(cfg, w, dt, done)[id := Moved(cfg, w[id], dt)]
  {}

  lemma ServeNone(cfg: Config, s: State, serverTime: int)
    ensures Served(cfg, s, serverTime, {}) == s
  {}

  lemma MoveNone(cfg: Config, w: map<PlayerId, Player>, dt: real)
    ensures MovedWorld(cfg, w, dt, {}) == w
  {}

  lemma ReindexOne(cfg: Config, w: map<PlayerId, Player>, ix: Index, dt: real, order: seq<PlayerId>, id: PlayerId)
    requires id in w
    ensures var r := Reindexed(cfg, w, ix, dt, order);
            Reindexed(cfg, w, ix, dt, order + [id]) == if w[id].active then Update(r, id, Moved(cfg, w[id], dt).position) else r
  {}

  lemma EnumerateOne(order: seq<PlayerId>, done: set<PlayerId>, id: PlayerId)
    requires Enumerates(order, done) && id !in done
    ensures Enumerates(order + [id], done + {id})
  {}

  class GameManager {
    const cfg: Config
    const commandBatchSize: nat
    const quadTree: QuadTree.QuadTree
    var world: map<PlayerId, Player>
    var aoiCache: map<PlayerId, AoiCache>
    var playerBatches: map<PlayerId, seq<Snapshot>>
    var tickNumber: nat

    /** What the game loop has done so far. */
    ghost var states: seq<State>
    ghost var steps: seq<Step>

    ghost predicate Valid()
      reads this, quadTree, quadTree.nodes
    {
      quadTree.Valid()
    }

    ghost function View(): State
      reads this, quadTree, quadTree.root
    {
      State(world, quadTree.View(), aoiCache, playerBatches, tickNumber)
    }

    ghost predicate LedTo(maxDt: real, states: seq<State>, steps: seq<Step>, s: State) {
      IsRun(cfg, maxDt, states, steps) && states[|steps|] == s
    }

    /** The steps so far are a run of the model, with ticks of at most `maxDt`, that leads to this state. */
    ghost predicate InRun(maxDt: real)
      reads this, quadTree, quadTree.root
    {
      LedTo(maxDt, states, steps, View())
    }

    constructor (cfg: Config, commandBatchSize: nat)
      requires 0.0 < cfg.width && 0.0 < cfg.height
      ensures Valid() && fresh(quadTree) && fresh(quadTree.nodes) && this.cfg == cfg && View() == Init(cfg)
      ensures forall maxDt :: InRun(maxDt)
    {
      this.cfg := cfg;
      this.commandBatchSize := commandBatchSize;
      quadTree := new QuadTree.QuadTree(cfg.MapBounds());
      world, aoiCache, playerBatches, tickNumber := map[], map[], map[], 0;
      states, steps := [Init(cfg)], [];
    }

    // ---------------------------------------------------------------- commands

    method HandlePlayerInput(id: PlayerId, inputFlags: nat, sequence: nat, env: Env)
      requires Valid()
      modifies this`world
      ensures Valid() && View() == GameModel.HandlePlayerInput(cfg, old(View()), id, inputFlags, sequence, env)
    {
      if id !in world {
        return;
      }
      var player := world[id];
      if !IsInputAllowed(player, env.checkedAt) {
        return;
      }
      if sequence <= player.lastSequence {
        return;
      }
      player := player.(lastInputTime := env.stampedAt);
      player := player.(lastSequence := sequence);
      player := player.(inputFlags := inputFlags);
      player := player.(velocity := Direction(inputFlags).Scale(cfg.moveSpeed));
      world := world[id := player];
    }

    method HandleEnterZone(id: PlayerId, session: SessionId, spawn: Vec3)
      requires Valid()
      modifies this`world, quadTree, quadTree.nodes
      ensures Valid() && fresh(quadTree.nodes - old(quadTree.nodes))
      ensures View() == GameModel.HandleEnterZone(old(View()), id, session, spawn)
    {
      if id in world {
        var player := world[id];
        if player.active {
          return;
        }
        player := player.(active := true);
        player := player.(session := session);
        world := world[id := player];
        quadTree.Insert(id, player.position);
        return;
      }
      world := world[id := NewPlayer(spawn, session)];
      quadTree.Insert(id, spawn);
    }

    method HandlePlayerDisconnect(id: PlayerId)
      requires Valid()
      modifies this`world, quadTree, quadTree.nodes
      ensures Valid() && fresh(quadTree.nodes - old(quadTree.nodes))
      ensures View() == GameModel.HandlePlayerDisconnect(old(View()), id)
    {
      if id !in world {
        return;
      }
      world := world[id := world[id].(active := false, lastSequence := 0)];
      quadTree.Remove(id);
    }

    method ProcessGameCommand(c: GameCommand, env: Env)
      requires Valid()
      modifies this`world, quadTree, quadTree.nodes
      ensures Valid() && fresh(quadTree.nodes - old(quadTree.nodes))
      ensures View() == GameModel.ProcessGameCommand(cfg, old(View()), c, env)
    {
      if c.payload.PlayerDisconnect? {
        HandlePlayerDisconnect(c.payload.player);
        return;
      }
      if c.sender !in env.registered {
        return;
      }
      match c.payload
      case PlayerInput(id, flags, sequence) => HandlePlayerInput(id, flags, sequence, env);
      case EnterZone(id, session) => HandleEnterZone(id, session, env.spawn);
      case _ =>
    }

    /** Collects at most a batch of commands, fewer when the time for collecting runs out after `budget`
        pops or the queue is empty, and handles them in the order collected. */
    method ProcessPendingCommands(queue: GameLogicQueue, budget: nat, envs: nat -> Env)
      returns (batch: seq<GameCommand>)
      requires Valid()
      modifies this`world, quadTree, quadTree.nodes, queue
      ensures Valid() && fresh(quadTree.nodes - old(quadTree.nodes))
      ensures old(multiset(queue.commands)) == multiset(batch) + multiset(queue.commands)
      ensures |batch| <= commandBatchSize && |batch| <= budget
      ensures |batch| < commandBatchSize && |batch| < budget ==> queue.commands == []
      ensures View() == ProcessAll(cfg, old(View()), batch, envs)
    {
      batch := [];
      while |batch| < commandBatchSize
        invariant unchanged(this) && unchanged(quadTree) && unchanged(quadTree.nodes)
        invariant old(multiset(queue.commands)) == multiset(batch) + multiset(queue.commands)
        invariant |batch| <= commandBatchSize && |batch| <= budget
        decreases commandBatchSize - |batch|
      {
        if |batch| == budget {
          break;
        }
        var next := queue.TryPopGameCommand();
        if next.None? {
          break;
        }
        batch := batch + [next.value];
      }
      ghost var rest := queue.commands;
      for i := 0 to |batch|
        invariant Valid() && fresh(quadTree.nodes - old(quadTree.nodes)) && queue.commands == rest
        invariant View() == ProcessAll(cfg, old(View()), batch[..i], envs)
      {
        assert batch[..i + 1][..i] == batch[..i];
        ProcessGameCommand(batch[i], envs(i));
      }
      assert batch[..|batch|] == batch;
    }

    // ---------------------------------------------------------------- tick

    /** Moves one player if it is active and stays on the map, and re-enters it in the index. */
    method UpdatePlayer(id: PlayerId, dt: real)
      requires Valid() && id in world
      modifies this`world, quadTree, quadTree.nodes
      ensures Valid() && fresh(quadTree.nodes - old(quadTree.nodes))
      ensures world == old(world)[id := Moved(cfg, old(world)[id], dt)]
      ensures quadTree.View() == if old(world)[id].active then Update(old(quadTree.View()), id, world[id].position)
                                 else old(quadTree.View())
    {
      var player := world[id];
      if player.active {
        var newPos := player.position.Plus(player.velocity.Scale(dt));
        if cfg.MapBounds().Contains(newPos) {
          player := player.(position := newPos);
        }
        world := world[id := player];
        quadTree.Update(id, player.position);
      } else {
        assert world[id := player] == world;
      }
    }

    /** World and index stand where the model has them once the players in `order` were updated. */
    ghost predicate UpdatedSoFar(start: State, dt: real, done: set<PlayerId>, order: seq<PlayerId>)
      reads this, quadTree, quadTree.root
    {
      && Enumerates(order, done) && done <= start.world.Keys
      && world == MovedWorld(cfg, start.world, dt, done)
      && quadTree.View() == Reindexed(cfg, start.world, start.index, dt, order)
    }

    method UpdateNext(id: PlayerId, dt: real, ghost start: State, ghost done: set<PlayerId>, ghost order: seq<PlayerId>)
      requires Valid() && id in start.world && id !in done && UpdatedSoFar(start, dt, done, order)
      modifies this`world, quadTree, quadTree.nodes
      ensures Valid() && fresh(quadTree.nodes - old(quadTree.nodes))
      ensures UpdatedSoFar(start, dt, done + {id}, order + [id])
    {
      MoveOne(cfg, start.world, dt, done, id);
      ReindexOne(cfg, start.world, start.index, dt, order, id);
      EnumerateOne(order, done, id);
      UpdatePlayer(id, dt);
    }

    /** Updates every player, in an arbitrary order, which is returned. */
    method UpdateWorld(dt: real) returns (ghost order: seq<PlayerId>)
      requires Valid()
      modifies this`world, quadTree, quadTree.nodes
      ensures Valid() && fresh(quadTree.nodes - old(quadTree.nodes))
      ensures Enumerates(order, old(world.Keys)) && View() == GameModel.UpdateWorld(cfg, old(View()), dt, order)
    {
      order := [];
      var remaining := world.Keys;
      ghost var done: set<PlayerId> := {};
      MoveNone(cfg, world, dt);
      while remaining != {}
        invariant Valid() && fresh(quadTree.nodes - old(quadTree.nodes))
        invariant remaining == old(world.Keys) - done
        invariant UpdatedSoFar(old(View()), dt, done, order)
        decreases remaining
      {
        var id :| id in remaining;
        UpdateNext(id, dt, old(View()), done, order);
        remaining, done, order := remaining - {id}, done + {id}, order + [id];
      }
      assert done == old(world.Keys);
    }

    predicate ShouldUpdateAOI(id: PlayerId, pos: Vec3)
      reads this
    {
      if id !in aoiCache then true
      else
        var cache := aoiCache[id];
        tickNumber < cache.lastUpdateTick || tickNumber - cache.lastUpdateTick >= AOI_UPDATE_INTERVAL ||
        DistSq(pos, cache.lastPosition) >= AOI_POSITION_THRESHOLD * AOI_POSITION_THRESHOLD
    }

    method GetCachedPlayersInAOI(id: PlayerId, pos: Vec3) returns (visible: seq<PlayerId>)
      requires Valid()
      modifies this`aoiCache
      ensures Valid() && id in aoiCache && visible == aoiCache[id].visible
      ensures aoiCache == old(aoiCache)[id := CacheFor(cfg, old(View()), id, pos)]
    {
      if ShouldUpdateAOI(id, pos) {
        visible := quadTree.Query(pos, cfg.aoiRange);
        aoiCache := aoiCache[id := AoiCache(visible, tickNumber, pos)];
      } else {
        visible := aoiCache[id].visible;
      }
    }

    method AddSnapshotToPlayerBatch(id: PlayerId, visible: seq<PlayerId>, serverTime: int)
      modifies this`playerBatches
      ensures playerBatches ==
              old(playerBatches)[id := (if id in old(playerBatches) then old(playerBatches)[id] else []) +
                                       [Snapshot(tickNumber, serverTime, PlayerStates(world, visible))]]
    {
      var states: seq<PlayerState> := [];
      for i := 0 to |visible|
        invariant states == PlayerStates(world, visible[..i])
      {
        assert visible[..i + 1][..i] == visible[..i];
        var q := visible[i];
        if q in world {
          states := states + [PlayerState(q, world[q].position, world[q].velocity, world[q].active)];
        }
      }
      assert visible[..|visible|] == visible;
      var packets := if id in playerBatches then playerBatches[id] else [];
      playerBatches := playerBatches[id := packets + [Snapshot(tickNumber, serverTime, states)]];
    }

    method SendWorldSnapshots(serverTime: int)
      requires Valid()
      modifies this`aoiCache, this`playerBatches, this`tickNumber
      ensures Valid() && View() == GameModel.SendWorldSnapshots(cfg, old(View()), serverTime)
    {
      tickNumber := tickNumber + 1;
      ghost var start := View();
      ServeNone(cfg, start, serverTime);
      var remaining := world.Keys;
      ghost var done: set<PlayerId> := {};
      while remaining != {}
        invariant Valid() && tickNumber == old(tickNumber) + 1
        invariant done !! remaining && done + remaining == world.Keys
        invariant View() == Served(cfg, start, serverTime, done)
        decreases remaining
      {
        var id :| id in remaining;
        ServeOne(cfg, start, serverTime, done, id);
        if world[id].active {
          var visible := GetCachedPlayersInAOI(id, world[id].position);
          AddSnapshotToPlayerBatch(id, visible, serverTime);
        }
        remaining, done := remaining - {id}, done + {id};
      }
      assert done == world.Keys;
    }

    /** Sends each deliverable batch and clears every one; `sent` is what left, by player. */
    method FlushAllBatches(connected: set<SessionId>) returns (sent: map<PlayerId, seq<Snapshot>>)
      requires Valid()
      modifies this`playerBatches
      ensures Valid() && View() == GameModel.FlushAllBatches(old(View()))
      ensures sent == Sent(old(View()), connected)
    {
      sent := map[];
      var remaining := playerBatches.Keys;
      while remaining != {}
        invariant remaining <= old(playerBatches.Keys) == playerBatches.Keys
        invariant forall id :: id in playerBatches ==> playerBatches[id] == if id in remaining then old(playerBatches)[id] else []
        invariant forall id :: id in sent <==> id !in remaining && Deliverable(old(View()), id, connected)
        invariant forall id :: id in sent ==> sent[id] == old(playerBatches)[id]
        decreases remaining
      {
        var id :| id in remaining;
        var packets := playerBatches[id];
        remaining := remaining - {id};
        if packets != [] {
          if id in world && world[id].session in connected {
            sent := sent[id := packets];
          }
          playerBatches := playerBatches[id := []];
        }
      }
      assert playerBatches == GameModel.FlushAllBatches(old(View())).batches;
      assert sent == Sent(old(View()), connected);
    }

    /** The phases of an iteration: commands, world update, snapshots, flush. */
    method Iterate(queue: GameLogicQueue, budget: nat, envs: nat -> Env, dt: real, serverTime: int, connected: set<SessionId>)
      returns (batch: seq<GameCommand>, sent: map<PlayerId, seq<Snapshot>>, ghost order: seq<PlayerId>)
      requires Valid()
      modifies this`world, this`aoiCache, this`playerBatches, this`tickNumber, quadTree, quadTree.nodes, queue
      ensures Valid() && fresh(quadTree.nodes - old(quadTree.nodes))
      ensures var handled := ProcessAll(cfg, old(View()), batch, envs);
              var tick := Tick(dt, order, serverTime, connected);
              && Enumerates(order, handled.world.Keys)
              && View() == Next(cfg, handled, tick) && sent == Sent(Batched(cfg, handled, tick), connected)
    {
      batch := ProcessPendingCommands(queue, budget, envs);
      order := UpdateWorld(dt);
      SendWorldSnapshots(serverTime);
      sent := FlushAllBatches(connected);
    }

    /** One iteration of the game loop. It takes the steps of the model: while the environment keeps its
        part, the steps of all iterations so far are a run. */
    method RunTick(queue: GameLogicQueue, budget: nat, envs: nat -> Env, dt: real, serverTime: int, connected: set<SessionId>)
      returns (batch: seq<GameCommand>, sent: map<PlayerId, seq<Snapshot>>, ghost order: seq<PlayerId>)
      requires Valid()
      modifies this, quadTree, quadTree.nodes, queue
      ensures Valid() && fresh(quadTree.nodes - old(quadTree.nodes))
      ensures var handled := ProcessAll(cfg, old(View()), batch, envs);
              var tick := Tick(dt, order, serverTime, connected);
              && Enumerates(order, handled.world.Keys)
              && View() == Next(cfg, handled, tick) && sent == Sent(Batched(cfg, handled, tick), connected)
      ensures steps == old(steps) + HandleSteps(batch, envs) + [Tick(dt, order, serverTime, connected)]
      ensures forall maxDt :: old(InRun(maxDt)) && LegalEnvs(cfg, envs) && 0.0 <= dt <= maxDt ==> InRun(maxDt)
      ensures GameInvariant.Invariant(cfg, old(View())) && LegalEnvs(cfg, envs) && 0.0 <= dt ==> GameInvariant.Invariant(cfg, View())
    {
      ghost var start := View();
      batch, sent, order := Iterate(queue, budget, envs, dt, serverTime, connected);
      ghost var tick := Tick(dt, order, serverTime, connected);
      if GameInvariant.Invariant(cfg, start) && LegalEnvs(cfg, envs) && 0.0 <= dt {
        IterationKeeps(cfg, start, batch, envs, tick);
      }
      Record(start, batch, envs, tick);
    }

    /** Of the object itself, after any iterations: the list last served to an active player was taken at most
        two ticks ago, shows nobody far out of range, and misses nobody well inside who was active then. */
    lemma ServesAccurately(maxDt: real, v: PlayerId) returns (j: nat)
      requires cfg.Valid() && 0.0 <= maxDt && InRun(maxDt) && steps != [] && steps[|steps| - 1].Tick? && IsActive(View(), v)
      ensures v in aoiCache && j < |states| && tickNumber <= states[j].tick + 2
      ensures forall q :: q in aoiCache[v].visible ==> AoiAccuracy.Near(cfg, maxDt, View(), q, v)
      ensures forall q :: IsActive(states[j], q) && AoiAccuracy.WellInside(cfg, maxDt, View(), q, v) ==> q in aoiCache[v].visible
    {
      j := AoiAccuracy.AoiAccuracy(cfg, maxDt, states, steps, |steps|, v);
    }

    /** Adds an iteration to the history. */
    ghost method Record(start: State, batch: seq<GameCommand>, envs: nat -> Env, tick: Step)
      requires var handled := ProcessAll(cfg, start, batch, envs);
               tick.Tick? && Enumerates(tick.order, handled.world.Keys) && View() == Next(cfg, handled, tick)
      modifies this`states, this`steps
      ensures steps == old(steps) + HandleSteps(batch, envs) + [tick]
      ensures View() == old(View())
      ensures forall maxDt :: LedTo(maxDt, old(states), old(steps), start) && LegalEnvs(cfg, envs) && 0.0 <= tick.dt <= maxDt ==>
                InRun(maxDt)
    {
      forall maxDt | LedTo(maxDt, states, steps, start) && LegalEnvs(cfg, envs) && 0.0 <= tick.dt <= maxDt
        ensures var ss := states + HandleStates(cfg, start, batch, envs) + [View()];
                var ts := steps + HandleSteps(batch, envs) + [tick];
                IsRun(cfg, maxDt, ss, ts) && ss[|ts|] == View()
      {
        IterationInRun(cfg, maxDt, states, steps, batch, envs, tick, View());
      }
      states, steps := states + HandleStates(cfg, start, batch, envs) + [View()], steps + HandleSteps(batch, envs) + [tick];
    }
  }
}
