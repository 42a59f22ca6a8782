/** The game loop's state and what each handler and each phase of a tick computes. */
module GameModel {
  import opened Geometry
  import opened QuadTreeSpec

  type SessionId = nat

  datatype Config = Config(width: real, height: real, aoiRange: real, moveSpeed: real) {
    /** A spawn range [20, side - 20] exists, and distances and speeds are not negative. */
    predicate Valid() { 40.0 <= width && 40.0 <= height && 0.0 <= aoiRange && 0.0 <= moveSpeed }

    function MapBounds(): Bounds { Bounds(0.0, 0.0, width, height) }
  }

  const AOI_UPDATE_INTERVAL := 3
  const AOI_POSITION_THRESHOLD := 10.0
  const INPUT_RATE_LIMIT_MS := 33
  const NANOS_PER_MILLI := 1_000_000

  /** Clock readings are nanoseconds; a fresh player's last input is at the clock's epoch, 0. */
  datatype Player = Player(position: Vec3, velocity: Vec3, active: bool, session: SessionId,
                           inputFlags: nat, lastSequence: nat, lastInputTime: int)

  datatype AoiCache = AoiCache(visible: seq<PlayerId>, lastUpdateTick: nat, lastPosition: Vec3)

  datatype PlayerState = PlayerState(id: PlayerId, position: Vec3, velocity: Vec3, active: bool)
  datatype Snapshot = Snapshot(tick: nat, serverTime: int, players: seq<PlayerState>)

  datatype State = State(world: map<PlayerId, Player>, index: Index, cache: map<PlayerId, AoiCache>,
                         batches: map<PlayerId, seq<Snapshot>>, tick: nat)

  datatype Payload =
    | PlayerInput(player: PlayerId, inputFlags: nat, sequence: nat)
    | EnterZone(player: PlayerId, session: SessionId)
    | PlayerSpawn(player: PlayerId)
    | PlayerDisconnect(player: PlayerId)

  datatype GameCommand = GameCommand(payload: Payload, sender: SessionId)

  /** What the surroundings supply while a command is handled: the registered sessions, two clock
      readings, and the random spawn point. */
  datatype Env = Env(registered: set<SessionId>, checkedAt: int, stampedAt: int, spawn: Vec3)

  function Init(cfg: Config): State { State(map[], Empty(cfg.MapBounds()), map[], map[], 0) }

  // ---------------------------------------------------------------- commands

  const DIAGONAL := 0.7071067

  /** The low four bits (W, S, A, D) select the direction; opposite keys cancel out. */
  function Direction(inputFlags: nat): Vec3 {
    match inputFlags % 16
    case 1 => Vec3(0.0, 1.0, 0.0)
    case 2 => Vec3(0.0, -1.0, 0.0)
    case 4 => Vec3(-1.0, 0.0, 0.0)
    case 5 => Vec3(-DIAGONAL, DIAGONAL, 0.0)
    case 6 => Vec3(-DIAGONAL, -DIAGONAL, 0.0)
    case 7 => Vec3(-1.0, 0.0, 0.0)
    case 8 => Vec3(1.0, 0.0, 0.0)
    case 9 => Vec3(DIAGONAL, DIAGONAL, 0.0)
    case 10 => Vec3(DIAGONAL, -DIAGONAL, 0.0)
    case 11 => Vec3(1.0, 0.0, 0.0)
    case 13 => Vec3(0.0, 1.0, 0.0)
    case 14 => Vec3(0.0, -1.0, 0.0)
    case _ => ORIGIN
  }

  /** Whole milliseconds of a duration, truncated toward zero. */
  function Millis(nanos: int): int {
    if nanos >= 0 then nanos / NANOS_PER_MILLI else -((-nanos) / NANOS_PER_MILLI)
  }

  predicate IsInputAllowed(p: Player, now: int) { Millis(now - p.lastInputTime) >= INPUT_RATE_LIMIT_MS }

  /** The guard of HandlePlayerInput: known player, rate limit passed, and a newer sequence number. */
  predicate AcceptsInput(s: State, id: PlayerId, sequence: nat, checkedAt: int) {
    id in s.world && IsInputAllowed(s.world[id], checkedAt) && sequence > s.world[id].lastSequence
  }

  function HandlePlayerInput(cfg: Config, s: State, id: PlayerId, inputFlags: nat, sequence: nat, env: Env): State {
    if AcceptsInput(s, id, sequence, env.checkedAt) then
      var p := s.world[id].(lastInputTime := env.stampedAt, lastSequence := sequence, inputFlags := inputFlags,
                            velocity := Direction(inputFlags).Scale(cfg.moveSpeed));
      s.(world := s.world[id := p])
    else s
  }

  /** Player `p` takes its place in the world and in the index. */
  function Entered(s: State, id: PlayerId, p: Player): State {
    s.(world := s.world[id := p], index := Insert(s.index, id, p.position))
  }

  function HandleEnterZone(s: State, id: PlayerId, session: SessionId, spawn: Vec3): State {
    if id in s.world then
      if s.world[id].active then s
      else Entered(s, id, s.world[id].(active := true, session := session))
    else
      Entered(s, id, NewPlayer(spawn, session))
  }

  function NewPlayer(spawn: Vec3, session: SessionId): Player { Player(spawn, ORIGIN, true, session, 0, 0, 0) }

  function HandlePlayerDisconnect(s: State, id: PlayerId): State {
    if id in s.world then
      s.(world := s.world[id := s.world[id].(active := false, lastSequence := 0)], index := Remove(s.index, id))
    else s
  }

  /** Disconnects bypass the session check; every other command needs its sender registered. */
  function ProcessGameCommand(cfg: Config, s: State, c: GameCommand, env: Env): State {
    match c.payload
    case PlayerDisconnect(id) => HandlePlayerDisconnect(s, id)
    case PlayerInput(id, inputFlags, sequence) =>
      if c.sender in env.registered then HandlePlayerInput(cfg, s, id, inputFlags, sequence, env) else s
    case EnterZone(id, session) =>
      if c.sender in env.registered then HandleEnterZone(s, id, session, env.spawn) else s
    case PlayerSpawn(_) => s
  }

  // ---------------------------------------------------------------- world update

  function Moved(cfg: Config, p: Player, dt: real): Player {
    var newPos := p.position.Plus(p.velocity.Scale(dt));
    if p.active && cfg.MapBounds().Contains(newPos) then p.(position := newPos) else p
  }

  /** The world once the players in `done` have been moved. */
  function MovedWorld(cfg: Config, w: map<PlayerId, Player>, dt: real, done: set<PlayerId>): map<PlayerId, Player> {
    map id | id in w :: if id in done then Moved(cfg, w[id], dt) else w[id]
  }

  /** The index once the active players among `order` have been re-entered at their new positions. */
  function Reindexed(cfg: Config, w: map<PlayerId, Player>, ix: Index, dt: real, order: seq<PlayerId>): Index {
    if order == [] then ix
    else
      var n := |order| - 1;
      var rest := Reindexed(cfg, w, ix, dt, order[..n]);
      var id := order[n];
      if id in w && w[id].active then Update(rest, id, Moved(cfg, w[id], dt).position) else rest
  }

  /** `order` is the unspecified order in which the player table is traversed. */
  function UpdateWorld(cfg: Config, s: State, dt: real, order: seq<PlayerId>): State {
    s.(world := MovedWorld(cfg, s.world, dt, s.world.Keys), index := Reindexed(cfg, s.world, s.index, dt, order))
  }

  // ---------------------------------------------------------------- snapshots

  /** Refresh when nothing is cached, when the cache is three ticks old, or when the viewer is ten
      units away from where it was filled. A tick number ahead of the clock wraps to a huge age. */
  predicate ShouldUpdateAoi(s: State, id: PlayerId, pos: Vec3) {
    id !in s.cache ||
    s.tick < s.cache[id].lastUpdateTick || s.tick - s.cache[id].lastUpdateTick >= AOI_UPDATE_INTERVAL ||
    DistSq(pos, s.cache[id].lastPosition) >= AOI_POSITION_THRESHOLD * AOI_POSITION_THRESHOLD
  }

  function CacheFor(cfg: Config, s: State, id: PlayerId, pos: Vec3): AoiCache {
    if ShouldUpdateAoi(s, id, pos) then AoiCache(Query(s.index, pos, cfg.aoiRange), s.tick, pos) else s.cache[id]
  }

  function PlayerStates(w: map<PlayerId, Player>, ids: seq<PlayerId>): seq<PlayerState> {
    if ids == [] then []
    else
      var n := |ids| - 1;
      PlayerStates(w, ids[..n]) +
      (if ids[n] in w then [PlayerState(ids[n], w[ids[n]].position, w[ids[n]].velocity, w[ids[n]].active)] else [])
  }

  function Batch(s: State, id: PlayerId): seq<Snapshot> { if id in s.batches then s.batches[id] else [] }

  function SnapshotFor(cfg: Config, s: State, id: PlayerId, serverTime: int): Snapshot
    requires id in s.world
  {
    Snapshot(s.tick, serverTime, PlayerStates(s.world, CacheFor(cfg, s, id, s.world[id].position).visible))
  }

  predicate IsActive(s: State, id: PlayerId) { id in s.world && s.world[id].active }

  /** Caches and batches once the active players in `done` have been served; `s.tick` is this tick. */
  function Served(cfg: Config, s: State, serverTime: int, done: set<PlayerId>): State {
    s.(cache := map id | id in s.cache.Keys + done && (id in s.cache || IsActive(s, id)) ::
                  if id in done && IsActive(s, id) then CacheFor(cfg, s, id, s.world[id].position) else s.cache[id],
       batches := map id | id in s.batches.Keys + done && (id in s.batches || IsActive(s, id)) ::
                  if id in done && IsActive(s, id) then Batch(s, id) + [SnapshotFor(cfg, s, id, serverTime)] else s.batches[id])
  }

  function SendWorldSnapshots(cfg: Config, s: State, serverTime: int): State {
    Served(cfg, s.(tick := s.tick + 1), serverTime, s.world.Keys)
  }

  // ---------------------------------------------------------------- flush

  /** A batch leaves when it is not empty and its player's session is connected. */
  predicate Deliverable(s: State, id: PlayerId, connected: set<SessionId>) {
    id in s.batches && s.batches[id] != [] && id in s.world && s.world[id].session in connected
  }

  function Sent(s: State, connected: set<SessionId>): map<PlayerId, seq<Snapshot>> {
    map id | id in s.batches && Deliverable(s, id, connected) :: s.batches[id]
  }

  function FlushAllBatches(s: State): State { s.(batches := map id | id in s.batches :: []) }

  // ---------------------------------------------------------------- runs

  datatype Step =
    | Handle(command: GameCommand, env: Env)
    | Tick(dt: real, order: seq<PlayerId>, serverTime: int, connected: set<SessionId>)

  /** The state in which the snapshots of a tick are batched but not yet flushed. */
  function Batched(cfg: Config, s: State, t: Step): State
    requires t.Tick?
  {
    SendWorldSnapshots(cfg, UpdateWorld(cfg, s, t.dt, t.order), t.serverTime)
  }

  function Next(cfg: Config, s: State, step: Step): State {
    match step
    case Handle(c, env) => ProcessGameCommand(cfg, s, c, env)
    case Tick(_, _, _, _) => FlushAllBatches(Batched(cfg, s, step))
  }

  predicate Enumerates(order: seq<PlayerId>, ids: set<PlayerId>) {
    multiset(order) == multiset(ids)
  }

  predicate IsSpawnPoint(cfg: Config, p: Vec3) {
    20.0 <= p.x <= cfg.width - 20.0 && 20.0 <= p.y <= cfg.height - 20.0 && p.z == 0.0
  }

  /** The environment keeps its part: spawn points from the spawn range, clock readings in order,
      ticks of bounded length that traverse the player table. */
  predicate LegalStep(cfg: Config, maxDt: real, s: State, step: Step) {
    match step
    case Handle(_, env) => IsSpawnPoint(cfg, env.spawn) && env.checkedAt <= env.stampedAt
    case Tick(dt, order, _, _) => 0.0 <= dt <= maxDt && Enumerates(order, s.world.Keys)
  }

  ghost predicate IsRun(cfg: Config, maxDt: real, states: seq<State>, steps: seq<Step>) {
    && |states| == |steps| + 1 && states[0] == Init(cfg)
    && forall i :: 0 <= i < |steps| ==>
         LegalStep(cfg, maxDt, states[i], steps[i]) && states[i + 1] == Next(cfg, states[i], steps[i])
  }
}
