/** What every step of the game loop keeps: the spatial index is exactly the active players at their
    world positions, players stay on the map, caches are well formed, and batches are empty between
    ticks. */
module GameInvariant {
  import opened Geometry
  import opened QuadTreeSpec
  import opened GameModel
  import QuadTreeProofs

  function ActivePositions(w: map<PlayerId, Player>): map<PlayerId, Vec3> {
    map id | id in w && w[id].active :: w[id].position
  }

  /** On the map, in its plane, and moving as its input flags say. */
  ghost predicate GoodPlayer(cfg: Config, p: Player) {
    && cfg.MapBounds().Contains(p.position) && p.position.z == 0.0
    && p.velocity == Direction(p.inputFlags).Scale(cfg.moveSpeed)
  }

  ghost predicate GoodWorld(cfg: Config, w: map<PlayerId, Player>) {
    forall id :: id in w ==> GoodPlayer(cfg, w[id])
  }

  ghost predicate IndexAgrees(cfg: Config, w: map<PlayerId, Player>, ix: Index) {
    Consistent(ix) && ix.root.bounds == cfg.MapBounds() && ix.positions == ActivePositions(w)
  }

  /** A cached list names its viewer exactly once and only players of the world. */
  ghost predicate GoodCache(w: map<PlayerId, Player>, tick: nat, v: PlayerId, c: AoiCache) {
    v in w && c.lastUpdateTick <= tick && multiset(c.visible)[v] == 1 && forall q :: q in c.visible ==> q in w
  }

  ghost predicate GoodCaches(s: State) {
    forall v :: v in s.cache ==> GoodCache(s.world, s.tick, v, s.cache[v])
  }

  ghost predicate BatchesEmpty(s: State) { forall id :: id in s.batches ==> s.batches[id] == [] }

  ghost predicate Invariant(cfg: Config, s: State) {
    GoodWorld(cfg, s.world) && IndexAgrees(cfg, s.world, s.index) && GoodCaches(s) && BatchesEmpty(s)
  }

  // ---------------------------------------------------------------- commands

  lemma InputKeeps(cfg: Config, s: State, id: PlayerId, inputFlags: nat, sequence: nat, env: Env)
    requires Invariant(cfg, s)
    ensures Invariant(cfg, HandlePlayerInput(cfg, s, id, inputFlags, sequence, env))
  {}

  /** Caches stay well formed as long as no player leaves the world. */
  lemma CachesKeep(s: State, r: State)
    requires GoodCaches(s) && r.cache == s.cache && r.tick == s.tick && s.world.Keys <= r.world.Keys
    ensures GoodCaches(r)
  {}

  lemma ActiveAfter(w: map<PlayerId, Player>, id: PlayerId, p: Player)
    ensures p.active ==> ActivePositions(w[id := p]) == ActivePositions(w)[id := p.position]
    ensures !p.active ==> ActivePositions(w[id := p]) == ActivePositions(w) - {id}
  {}

  lemma EnterIndex(cfg: Config, w: map<PlayerId, Player>, ix: Index, id: PlayerId, p: Player)
    requires IndexAgrees(cfg, w, ix) && (id in w ==> !w[id].active)
    requires p.active && cfg.MapBounds().Contains(p.position)
    ensures IndexAgrees(cfg, w[id := p], Insert(ix, id, p.position))
  {
    QuadTreeProofs.InsertConsistentIff(ix, id, p.position);
    ActiveAfter(w, id, p);
  }

  lemma LeaveIndex(cfg: Config, w: map<PlayerId, Player>, ix: Index, id: PlayerId, p: Player)
    requires IndexAgrees(cfg, w, ix) && !p.active
    ensures IndexAgrees(cfg, w[id := p], Remove(ix, id))
  {
    QuadTreeProofs.RemoveConsistent(ix, id);
    ActiveAfter(w, id, p);
  }

  lemma EnteredKeeps(cfg: Config, s: State, id: PlayerId, p: Player)
    requires Invariant(cfg, s) && !IsActive(s, id) && p.active && GoodPlayer(cfg, p)
    ensures Invariant(cfg, Entered(s, id, p))
  {
    WorldAfter(cfg, s.world, id, p);
    EnterIndex(cfg, s.world, s.index, id, p);
    CachesKeep(s, Entered(s, id, p));
  }

  lemma EnterKeeps(cfg: Config, s: State, id: PlayerId, session: SessionId, spawn: Vec3)
    requires Invariant(cfg, s) && IsSpawnPoint(cfg, spawn)
    ensures Invariant(cfg, HandleEnterZone(s, id, session, spawn))
  {
    if id !in s.world {
      SpawnGood(cfg, spawn, session);
      EnteredKeeps(cfg, s, id, NewPlayer(spawn, session));
    } else if !s.world[id].active {
      EnteredKeeps(cfg, s, id, s.world[id].(active := true, session := session));
    }
  }

  lemma SpawnGood(cfg: Config, spawn: Vec3, session: SessionId)
    requires IsSpawnPoint(cfg, spawn)
    ensures GoodPlayer(cfg, NewPlayer(spawn, session))
  {}

  lemma WorldAfter(cfg: Config, w: map<PlayerId, Player>, id: PlayerId, p: Player)
    requires GoodWorld(cfg, w) && GoodPlayer(cfg, p)
    ensures GoodWorld(cfg, w[id := p])
  {}

  lemma DisconnectKeeps(cfg: Config, s: State, id: PlayerId)
    requires Invariant(cfg, s)
    ensures Invariant(cfg, HandlePlayerDisconnect(s, id))
  {
    if id in s.world {
      var r := HandlePlayerDisconnect(s, id);
      LeaveIndex(cfg, s.world, s.index, id, r.world[id]);
      CachesKeep(s, r);
    }
  }

  // ---------------------------------------------------------------- the tick

  /** Re-entering moved players keeps the index consistent, and records the new position of each
      active player traversed so far. */
  lemma {:induction false} ReindexedKeeps(cfg: Config, w: map<PlayerId, Player>, ix: Index, dt: real, order: seq<PlayerId>)
    requires GoodWorld(cfg, w) && IndexAgrees(cfg, w, ix)
    ensures var r := Reindexed(cfg, w, ix, dt, order);
            && Consistent(r) && r.root.bounds == cfg.MapBounds() && r.positions.Keys == ix.positions.Keys
            && forall id :: id in r.positions ==>
                 r.positions[id] == if id in order then Moved(cfg, w[id], dt).position else w[id].position
  {
    if order != [] {
      var n := |order| - 1;
      ReindexedKeeps(cfg, w, ix, dt, order[..n]);
      assert order == order[..n] + [order[n]];
      var id := order[n];
      if id in w && w[id].active {
        QuadTreeProofs.UpdateConsistentIff(Reindexed(cfg, w, ix, dt, order[..n]), id, Moved(cfg, w[id], dt).position);
      }
    }
  }

  lemma MovedPositions(cfg: Config, w: map<PlayerId, Player>, dt: real, m: map<PlayerId, Vec3>)
    requires m.Keys == ActivePositions(w).Keys && forall id :: id in m ==> m[id] == Moved(cfg, w[id], dt).position
    ensures m == ActivePositions(MovedWorld(cfg, w, dt, w.Keys))
  {}

  lemma ReindexedAgrees(cfg: Config, w: map<PlayerId, Player>, ix: Index, dt: real, order: seq<PlayerId>)
    requires GoodWorld(cfg, w) && IndexAgrees(cfg, w, ix) && Enumerates(order, w.Keys)
    ensures IndexAgrees(cfg, MovedWorld(cfg, w, dt, w.Keys), Reindexed(cfg, w, ix, dt, order))
  {
    ReindexedKeeps(cfg, w, ix, dt, order);
    forall id | id in w ensures id in order { assert id in multiset(order); }
    MovedPositions(cfg, w, dt, Reindexed(cfg, w, ix, dt, order).positions);
  }

  lemma MovedGood(cfg: Config, p: Player, dt: real)
    requires GoodPlayer(cfg, p)
    ensures GoodPlayer(cfg, Moved(cfg, p, dt))
  {}

  lemma MovedWorldGood(cfg: Config, w: map<PlayerId, Player>, dt: real)
    requires GoodWorld(cfg, w)
    ensures GoodWorld(cfg, MovedWorld(cfg, w, dt, w.Keys))
  {
    forall id | id in w ensures GoodPlayer(cfg, Moved(cfg, w[id], dt)) { MovedGood(cfg, w[id], dt); }
  }

  lemma UpdateWorldKeeps(cfg: Config, s: State, dt: real, order: seq<PlayerId>)
    requires Invariant(cfg, s) && Enumerates(order, s.world.Keys)
    ensures Invariant(cfg, UpdateWorld(cfg, s, dt, order))
  {
    MovedWorldGood(cfg, s.world, dt);
    ReindexedAgrees(cfg, s.world, s.index, dt, order);
    CachesKeep(s, UpdateWorld(cfg, s, dt, order));
  }

  /** A freshly taken list is exact: it has each active player in range once. */
  lemma FreshListExact(cfg: Config, w: map<PlayerId, Player>, ix: Index, pos: Vec3)
    requires IndexAgrees(cfg, w, ix)
    ensures multiset(Query(ix, pos, cfg.aoiRange)) == multiset(BruteForce(ActivePositions(w), pos, cfg.aoiRange))
  {
    QuadTreeProofs.QueryExact(ix, pos, cfg.aoiRange);
  }

  /** The list served to an active player is well formed, fresh or cached. */
  lemma CacheForGood(cfg: Config, s: State, id: PlayerId)
    requires IndexAgrees(cfg, s.world, s.index) && GoodCaches(s) && IsActive(s, id)
    ensures GoodCache(s.world, s.tick, id, CacheFor(cfg, s, id, s.world[id].position))
  {
    var pos := s.world[id].position;
    if ShouldUpdateAoi(s, id, pos) {
      var visible := Query(s.index, pos, cfg.aoiRange);
      var inRange := BruteForce(ActivePositions(s.world), pos, cfg.aoiRange);
      FreshListExact(cfg, s.world, s.index, pos);
      SqNonNegative(cfg.aoiRange);
      assert id in inRange;
      assert id in multiset(inRange);
      forall q | q in visible ensures q in s.world { assert q in multiset(visible); }
    }
  }

  lemma SnapshotsKeep(cfg: Config, s: State, serverTime: int)
    requires Invariant(cfg, s)
    ensures var r := SendWorldSnapshots(cfg, s, serverTime);
            GoodWorld(cfg, r.world) && IndexAgrees(cfg, r.world, r.index) && GoodCaches(r)
  {
    var t := s.(tick := s.tick + 1);
    forall id | IsActive(t, id) ensures GoodCache(t.world, t.tick, id, CacheFor(cfg, t, id, t.world[id].position)) {
      CacheForGood(cfg, t, id);
    }
  }

  lemma NextKeeps(cfg: Config, maxDt: real, s: State, step: Step)
    requires Invariant(cfg, s) && LegalStep(cfg, maxDt, s, step)
    ensures Invariant(cfg, Next(cfg, s, step))
  {
    match step
    case Handle(c, env) =>
      match c.payload {
        case PlayerInput(id, flags, sequence) => InputKeeps(cfg, s, id, flags, sequence, env);
        case EnterZone(id, session) => EnterKeeps(cfg, s, id, session, env.spawn);
        case PlayerDisconnect(id) => DisconnectKeeps(cfg, s, id);
        case PlayerSpawn(_) =>
      }
    case Tick(dt, order, serverTime, _) =>
      UpdateWorldKeeps(cfg, s, dt, order);
      SnapshotsKeep(cfg, UpdateWorld(cfg, s, dt, order), serverTime);
  }

  lemma InitGood(cfg: Config)
    ensures Invariant(cfg, Init(cfg))
  {}

  /** World and index agree in every state of every run. */
  lemma {:induction false} RunInvariant(cfg: Config, maxDt: real, states: seq<State>, steps: seq<Step>, i: nat)
    requires IsRun(cfg, maxDt, states, steps) && i < |states|
    ensures Invariant(cfg, states[i])
  {
    if i == 0 {
      InitGood(cfg);
    } else {
      RunInvariant(cfg, maxDt, states, steps, i - 1);
      NextKeeps(cfg, maxDt, states[i - 1], steps[i - 1]);
    }
  }

  // ---------------------------------------------------------------- callers of Insert

  /** One call of the index's Insert: the index it is called on and its arguments. */
  datatype InsertCall = InsertCall(on: Index, id: PlayerId, pos: Vec3) {
    predicate IsLegal() { id !in on.positions && on.root.bounds.Contains(pos) }
  }

  function ReindexCalls(cfg: Config, w: map<PlayerId, Player>, ix: Index, dt: real, order: seq<PlayerId>): seq<InsertCall> {
    if order == [] then []
    else
      var n := |order| - 1;
      var id := order[n];
      ReindexCalls(cfg, w, ix, dt, order[..n]) +
      if id in w && w[id].active
      then [InsertCall(Remove(Reindexed(cfg, w, ix, dt, order[..n]), id), id, Moved(cfg, w[id], dt).position)]
      else []
  }

  function InsertCalls(cfg: Config, s: State, step: Step): seq<InsertCall> {
    match step
    case Handle(GameCommand(EnterZone(id, _), sender), env) =>
      if sender in env.registered && !IsActive(s, id)
      then [InsertCall(s.index, id, if id in s.world then s.world[id].position else env.spawn)]
      else []
    case Handle(_, _) => []
    case Tick(dt, order, _, _) => ReindexCalls(cfg, s.world, s.index, dt, order)
  }

  lemma {:induction false} ReindexCallsLegal(cfg: Config, w: map<PlayerId, Player>, ix: Index, dt: real, order: seq<PlayerId>)
    requires GoodWorld(cfg, w) && IndexAgrees(cfg, w, ix)
    ensures forall c :: c in ReindexCalls(cfg, w, ix, dt, order) ==> c.IsLegal()
  {
    if order != [] {
      var n := |order| - 1;
      ReindexCallsLegal(cfg, w, ix, dt, order[..n]);
      ReindexedKeeps(cfg, w, ix, dt, order[..n]);
      QuadTreeProofs.RemoveConsistent(Reindexed(cfg, w, ix, dt, order[..n]), order[n]);
    }
  }

  /** In no run is Insert ever called for a player already indexed or for a point off the map. */
  lemma InsertCallsLegal(cfg: Config, maxDt: real, states: seq<State>, steps: seq<Step>, i: nat)
    requires IsRun(cfg, maxDt, states, steps) && i < |steps|
    ensures forall c :: c in InsertCalls(cfg, states[i], steps[i]) ==> c.IsLegal()
  {
    var s, step := states[i], steps[i];
    RunInvariant(cfg, maxDt, states, steps, i);
    if step.Tick? {
      ReindexCallsLegal(cfg, s.world, s.index, step.dt, step.order);
    }
  }
}
