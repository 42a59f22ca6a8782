# Verification of the CppMMO game server core

A Dafny 4.11 model of the parts of the server where correctness is not visible from any one function:
the quadtree that indexes players, the tick loop that moves them and sends snapshots, the job queue and
its worker threads, the life of sessions, the wire format, the object pools, and the chat text format.
`dafny verify dfyconfig.toml` checks everything.

How the files fit together:

- `Geometry.dfy` – plane geometry: half-open rectangles, quadrants, the pruning test, and a triangle
  inequality stated without square roots. `float` is modelled as `real`.
- `QuadTreeSpec.dfy` – the quadtree as a value; `QuadTreeLookups.dfy` – position lookups, which add missing
  ids to the map; `QuadTreeProofs.dfy` – the quadtree's theorems; `QuadTreeQueries.dfy` – which trees answer
  every query right, and when an insertion leads to one; `QuadTreeCounts.dfy` – what is counted;
  `QuadTree.dfy` – the mutable tree of heap nodes, each method proved to compute the operation of the same
  name on values.
  The heap invariant is local: every node agrees with the shapes of its children, and during an update
  only the ancestors of the changed node are out of date.
- `GameModel.dfy` – the game state, the command handlers and the phases of a tick as functions;
  `GameInvariant.dfy`, `AoiAccuracy.dfy`, `AoiCaching.dfy`, `Snapshots.dfy`, `InputRate.dfy`,
  `PlayerHistory.dfy` – theorems over every run of these steps; `GameRuns.dfy` – how runs are put together; `GameManager.dfy` – the manager as a
  class whose methods, with the source's loops, are proved to take exactly these steps. It records what it
  did, and that record is a run of the model.
- `JobQueue.dfy`, `SessionProtocol.dfy` – interleaving protocols as atomic steps over program counters;
  the concurrent queues are bags. `SessionHistory.dfy` – sessions and players over whole runs of the
  session protocol, with the cases where its promises fail; `SessionRivals.dfy` – whose disconnect command
  takes a player out; `SessionGame.dfy` – the protocol's players are those of the game.
- `Framing.dfy` – frames, the read loop, `Send` and `SendBatch`, and runs of any calls of them interleaved
  with the write loop; the class `Session` records its calls and is always in the state they lead to.
- `MemoryPool.dfy` – pools and wrappers as operations on values, and where every object is;
  `PooledObjects.dfy` – the classes, each operation proved to take the value model's step. A ghost ledger,
  empty at first (`StartValid`), names the heap's pools, wrappers and objects. That a released object is not
  already in the queue is what `std::unique_ptr` ensures in the source; here it is a precondition, and the
  ledger discharges it.
- `ChatCodec.dfy` – the `id|message` text, with `stoll` as it really parses.
- `Options.dfy` – a value that may be missing.

What the environment supplies becomes a parameter: clock readings, random spawn points, the set of
registered or connected sessions, the traversal order of hash tables, the time left for collecting
commands. Player table traversals take an arbitrary order.

Places where the code does not do what it says, each with a concrete input and the exact condition:

- `QuadTree::Insert` documents "insert or update", but inserting a known id leaves its old entry behind
  (`InsertTwiceReportsTwice`). The index stays consistent exactly when the id is new and the point is in
  bounds (`InsertConsistentIff`). Callers see no wrong answer in two more cases, on the map's edge, and in no
  other (`InsertExactIff`). The game manager only ever makes calls of the first kind (`InsertCallsLegal`).
- A client that enters the zone before logging in becomes player 0. Its disconnect is never announced, and
  player 0 is active for good (`UnnamedPlayerStays`, `UnnamedForGood`). A player's disconnect is always on
  its way exactly when the session's remover reads that player's id and the id is not 0 (`CoveredIff`),
  which is decided by the id at the moment of removal if nobody changes it then (`CoveredAfterErase`), and
  which logins that set the id once, before entering, guarantee (`ActiveIsCovered`). A client that logs in
  again as another player after entering leaves the first one behind (`RenamedPlayerStays`).
- A session whose `Disconnect` runs before the accept loop has added it is registered after it
  (`EarlyDisconnectLeaks`). A `Disconnect` is final exactly when the accept loop is not between starting
  that session and adding it (`EraseFinalIff`). In general a session is registered exactly when it was added
  and no `Disconnect` came after that (`RegisteredIff`), so one whose two loops both ended before stays.
- A disconnect command takes its player out whatever session it comes from: a client that comes back
  quickly can be taken out by its earlier session's command while connected (`LateDisconnect`). Until another
  session logs in as the player, only the own session's command can do so exactly when no other session's
  command is pending or on its way (`OnlyOwnIff`); if one is, it can strike (`RivalStrikes`). Logins that wait
  for that keep it so throughout (`OwnDisconnect`).
- `Send` accepts bodies that the peer's read loop does not: all bodies arrive exactly when each has 1 to
  100000 bytes (`RoundTripIff`, `EndToEnd`).

## Model

| member | source | states |
|---|---|---|
| Geometry.Triangle | src/Game/Managers/GameManager.cpp:826-828 | Euclidean distances in the plane obey the triangle inequality |
| Geometry.QuadrantsTile | src/Game/Spatial/QuadTree.cpp:264-273 | the four half-open quadrants tile their parent: a point of the parent is in exactly one, a point of a quadrant is in the parent |
| Geometry.PruneSound | src/Game/Spatial/QuadTree.cpp:127-134 | a rectangle that holds a point of the circle is never pruned |
| QuadTreeSpec.Find | src/Game/Spatial/QuadTree.cpp:209 | the first occurrence of an id, or the length |
| QuadTreeSpec.RemoveNode | src/Game/Spatial/QuadTree.cpp:202-221 | a removal that reports failure changed nothing |
| QuadTreeLookups.ReinsertOne | src/Game/Spatial/QuadTree.cpp:164-177 | what lookups add to the map in the middle of a redistribution changes nothing of where the players go |
| QuadTreeLookups.InsertRecords | src/Game/Spatial/QuadTree.cpp:27-31 | on a consistent index, splits included, an insertion records the new position and changes nothing else in the map |
| QuadTreeProofs.InsertShape | src/Game/Spatial/QuadTree.cpp:152-191 | insertion of any point into a well-shaped tree keeps it well shaped and loses no node |
| QuadTreeProofs.InsertContents | src/Game/Spatial/QuadTree.cpp:152-191 | insertion of a point in bounds adds one entry of the id, loses none through cascading splits, and places it in a leaf that holds it |
| QuadTreeProofs.RemoveContents | src/Game/Spatial/QuadTree.cpp:202-221 | removal at the recorded position succeeds exactly when the id is stored and takes exactly one entry |
| QuadTreeProofs.NodeCountOneModFour | src/Game/Spatial/QuadTree.cpp:290-302 | the node count of every tree is 1 modulo 4 |
| QuadTreeProofs.HeightBound | src/Game/Spatial/QuadTree.h:68 | no node is below depth 6 |
| QuadTreeProofs.NodeBound | src/Game/Spatial/QuadTree.cpp:290-302 | a tree has no more nodes than a complete one of its height |
| QuadTreeCounts.PathsExact | src/Game/Spatial/QuadTree.cpp:290-302 | the set of paths holds exactly the sequences of quadrants that lead from the root to a node |
| QuadTreeCounts.CountsNodes | src/Game/Spatial/QuadTree.cpp:290-302 | the node count is the number of quadrant paths that lead to a node |
| QuadTreeCounts.SplitsIff | src/Game/Spatial/QuadTree.cpp:154-160 | a leaf splits exactly for a fifth player above depth 6, else it keeps its players and the new one |
| QuadTreeProofs.QueryCount | src/Game/Spatial/QuadTree.cpp:232-257 | the pruned search reports an id as often as it is stored if it is in the circle, else never |
| QuadTreeProofs.QueryExact | src/Game/Spatial/QuadTree.cpp:65-70 | a query returns each player in the circle exactly once and nobody else, as a scan of the map would |
| QuadTreeProofs.CountPlayersExact | src/Game/Spatial/QuadTree.cpp:309-321 | the entries stored in the tree number as many as the map has players |
| QuadTreeProofs.InsertConsistentIff | src/Game/Spatial/QuadTree.cpp:27-31 | Insert keeps the representation invariant if and only if the id is new and the point in bounds |
| QuadTreeProofs.InsertTwiceReportsTwice | src/Game/Spatial/QuadTree.cpp:23-31 | inserting a player twice makes a query report it twice although the map has it once |
| QuadTreeProofs.ConsistentInBounds | src/Game/Spatial/QuadTree.cpp:182-189 | a consistent index records no position outside its bounds |
| QuadTreeProofs.RemoveConsistent | src/Game/Spatial/QuadTree.cpp:37-45 | Remove, of any id, keeps the invariant and removes exactly that id from the map |
| QuadTreeProofs.UpdateConsistentIff | src/Game/Spatial/QuadTree.cpp:51-55 | Update, of a known or unknown id, keeps the invariant if and only if the point is in bounds |
| QuadTreeProofs.RemoveUndoesInsert | src/Game/Spatial/QuadTree.cpp:27-45 | removing a player just inserted restores the map and the stored entries |
| QuadTreeProofs.RunRefinesMap | src/Game/Spatial/QuadTree.cpp:27-98 | after every run of legal operations the tree is consistent and its map is what the same operations make of a plain map |
| QuadTreeProofs.RunConsistentIff | src/Game/Spatial/QuadTree.cpp:27-98 | a run stays consistent throughout if and only if each of its operations was legal |
| QuadTreeProofs.QueryAfterRun | src/Game/Spatial/QuadTree.cpp:65-70 | after every legal run, a query equals a brute-force scan of the plain map, and the player counts agree |
| QuadTreeProofs.NodesOverRun | src/Game/Spatial/QuadTree.cpp:290-302 | over every run at all, the node count is 1 modulo 4, at most 5461, at depth at most 6, and falls only at Clear |
| QuadTreeQueries.AlwaysExactIff | src/Game/Spatial/QuadTree.cpp:232-257 | a well-shaped tree answers every query as a scan of the map if and only if each mapped player is stored once, in a leaf that touches its recorded position |
| QuadTreeQueries.InsertExactIff | src/Game/Spatial/QuadTree.cpp:27-31 | after Insert into a consistent index every query answers right if and only if the id is new and the point in bounds, or one of two cases on the map's edge holds |
| QuadTreeQueries.UpdateExactIff | src/Game/Spatial/QuadTree.cpp:51-55 | the same for Update, after the removal of the old entry |
| QuadTreeQueries.SplitAddsAtOrigin | src/Game/Spatial/QuadTree.cpp:164-166 | when a leaf splits, the ids it holds that have no position get the origin, and nothing else changes in the map |
| QuadTreeQueries.RemovalKeepsOrder | src/Game/Spatial/QuadTree.cpp:207-215 | a removal from a leaf takes the first entry of the id and keeps the others in order |
| QuadTree.Create | src/Game/Spatial/QuadTree.cpp:15-21 | construction fails exactly for a rectangle without positive width and height, else gives an empty index |
| QuadTree.FindId | src/Game/Spatial/QuadTree.cpp:209 | the linear search finds the first occurrence |
| QuadTree.QuadTree.SubdivideNode | src/Game/Spatial/QuadTree.cpp:264-273 | the node gets four new empty children covering its quadrants; no other node changes |
| QuadTree.QuadTree.InsertIntoNode | src/Game/Spatial/QuadTree.cpp:152-191 | the subtree becomes the insertion result and the map what the lookups make of it; only nodes below change; terminates on every input |
| QuadTree.QuadTree.Redistribute | src/Game/Spatial/QuadTree.cpp:164-177 | the loop over a split leaf's players computes the redistribution one by one, on the map as it is by then |
| QuadTree.QuadTree.PositionOf | src/Game/Spatial/QuadTree.cpp:166 | the lookup adds a missing id at the origin, and returns the given position for the id being inserted |
| QuadTree.QuadTree.InsertIntoChild | src/Game/Spatial/QuadTree.cpp:169-176 | the point goes to the first quadrant that holds it, or nowhere |
| QuadTree.QuadTree.RemoveFromNode | src/Game/Spatial/QuadTree.cpp:202-221 | subtree and return value are the removal result; failure changes nothing |
| QuadTree.QuadTree.QueryNode | src/Game/Spatial/QuadTree.cpp:232-257 | appends the pruned search's result to what was found before |
| QuadTree.QuadTree.ScanLeaf | src/Game/Spatial/QuadTree.cpp:239-250 | appends exactly the ids of the leaf in the circle, in order, skipping unknown ones |
| QuadTree.QuadTree.CountNodes | src/Game/Spatial/QuadTree.cpp:290-302 | counts the quadrant paths that lead to a node of the subtree |
| QuadTree.QuadTree.CountPlayers | src/Game/Spatial/QuadTree.cpp:309-321 | counts the entries of the subtree, repeated ones too |
| QuadTree.QuadTree.Insert | src/Game/Spatial/QuadTree.cpp:27-31 | map and tree become the insertion result; nodes are only added |
| QuadTree.QuadTree.Remove | src/Game/Spatial/QuadTree.cpp:37-45 | map and tree become the removal result; nodes stay |
| QuadTree.QuadTree.Update | src/Game/Spatial/QuadTree.cpp:51-55 | removal then insertion, for known and unknown ids |
| QuadTree.QuadTree.Query | src/Game/Spatial/QuadTree.cpp:65-70 | on a consistent index, each player in the circle once and nobody else |
| QuadTree.QuadTree.Clear | src/Game/Spatial/QuadTree.cpp:90-98 | empty map and a root without children |
| QuadTree.QuadTree.GetTotalNodes | src/Game/Spatial/QuadTree.cpp:78 | the number of quadrant paths that lead to a node of the tree |
| QuadTree.QuadTree.GetTotalPlayers | src/Game/Spatial/QuadTree.cpp:84 | the map size, which on a consistent index is the number of entries in the tree |
| GameInvariant.EnterKeeps | src/Game/Managers/GameManager.cpp:422-451 | entering, first time or again, keeps world and index in agreement |
| GameInvariant.DisconnectKeeps | src/Game/Managers/GameManager.cpp:458-474 | disconnecting keeps world and index in agreement |
| GameInvariant.InputKeeps | src/Game/Managers/GameManager.cpp:384-415 | input keeps the invariant: velocity stays what the input flags say |
| GameInvariant.ReindexedKeeps | src/Game/Managers/GameManager.cpp:283-294 | re-entering moved players in any order keeps the index consistent and records each new position |
| GameInvariant.UpdateWorldKeeps | src/Game/Managers/GameManager.cpp:279-295 | the world update keeps players on the map and the index in agreement |
| GameInvariant.CacheForGood | src/Game/Managers/GameManager.cpp:781-806 | the list served to an active player names it exactly once and only players of the world |
| GameInvariant.RunInvariant | src/Game/Managers/GameManager.cpp:160-210 | in every state of every run the index holds exactly the active players at their world positions, all players are on the map with z = 0, and batches are empty between ticks |
| GameInvariant.InsertCallsLegal | src/Game/Managers/GameManager.cpp:435-447 | in no run is the index's Insert called for a player already indexed or a point off the map |
| AoiAccuracy.VelocityBounded | src/Game/Managers/GameManager.cpp:545-567 | whatever the input flags, no player is faster than the move speed |
| AoiAccuracy.MoveBounded | src/Game/Managers/GameManager.cpp:287-291 | one tick moves a player at most move speed times the longest tick |
| AoiAccuracy.Drift | src/Game/Managers/GameManager.cpp:279-295 | between any two states of a run a player moves at most one tick's distance per tick, and nobody disappears |
| AoiAccuracy.CacheForServable | src/Game/Managers/GameManager.cpp:811-834 | a served list is fresh or kept, at most two ticks old, taken within ten units of the viewer |
| AoiAccuracy.CacheOrigin | src/Game/Managers/GameManager.cpp:839-845 | every cached list of a run was taken, exactly, in an earlier state of that run |
| AoiAccuracy.AoiAccuracy | src/Game/Managers/GameManager.cpp:302-319 | at every tick of every run the served list is at most two ticks old, everyone on it is now within the range plus min(10, 2s) + 2s, and everyone active when it was taken and now within the range minus that is on it |
| AoiAccuracy.LongActiveAreListed | src/Game/Managers/GameManager.h:55-56 | a player active throughout the last two ticks and well inside the range is on the served list |
| AoiCaching.RefreshedIff | src/Game/Managers/GameManager.cpp:781-845 | at every tick of every run an active viewer's list is taken exactly in the state just reached if and only if there was none, or it is three ticks old, or it was taken ten units away; else it is the very same list |
| AoiCaching.ServedForThreeTicks | src/Game/Managers/GameManager.cpp:781-834 | a list is kept for the two ticks after the one it was taken at, as long as the viewer is less than ten units away whenever served |
| Snapshots.StatesInOrder | src/Game/Managers/GameManager.cpp:687-698 | a snapshot shows the listed players entry by entry with their current state |
| Snapshots.TickBatches | src/Game/Managers/GameManager.cpp:302-319 | at every tick each active player has exactly one snapshot batched, stamped with that tick and showing the recipient once; nobody else has any; flushing leaves all batches empty |
| Snapshots.SentExactly | src/Game/Managers/GameManager.cpp:734-776 | a player is sent one snapshot, of the current tick and showing the players of its list as they are, if and only if it is active and its session connected |
| Snapshots.TickIsCount | src/Game/Managers/GameManager.cpp:305 | the tick number is the number of ticks so far |
| Snapshots.SentTicksIncrease | src/Game/Managers/GameManager.cpp:305 | the tick numbers a player is sent strictly increase |
| InputRate.NextInput | src/Game/Managers/GameManager.cpp:384-415 | what each step does to a player's input record: empty at entry, reset by a disconnect, changed by an input that is late and new enough |
| InputRate.TakesEffectIff | src/Game/Managers/GameManager.cpp:384-415 | in every run an input takes effect if and only if its sender is registered, its player has entered, it is checked 33 ms after the stamps of all earlier effective ones and after the epoch, and its number is above 0 and above those effective since the player's last disconnect |
| InputRate.EffectivePair | src/Game/Managers/GameManager.cpp:394-408 | of two inputs that took effect the later is at least 33 ms after the earlier and has a larger sequence number unless the player disconnected between |
| InputRate.EffectiveSpan | src/Game/Models/Player.cpp:41-53 | any N inputs that took effect, across reconnects too, span at least 33 * (N - 1) ms |
| PlayerHistory.ActiveIff | src/Game/Managers/GameManager.cpp:422-474 | a player is active exactly when it entered from a registered session and has not disconnected since |
| PlayerHistory.SessionIsEntry | src/Game/Managers/GameManager.cpp:425-444 | an active player's session is that of the entry that activated it, whatever entered later |
| PlayerHistory.KnownIff | src/Game/Managers/GameManager.cpp:422-447 | a player is in the world exactly when it has ever entered from a registered session |
| PlayerHistory.FirstEntry | src/Game/Managers/GameManager.cpp:441-447 | a player that is new was brought in by an enter-zone command and stands at the spawn point drawn for it, in world and index, at rest, through the command's session and with an empty input record |
| PlayerHistory.KeysSteer | src/Game/Managers/GameManager.cpp:545-567 | for every flags value the direction is that of its keys W, S, A, D in the low four bits, opposite keys cancelling out, times 0.7071067 on diagonals |
| PlayerHistory.VelocityIsLastInput | src/Game/Managers/GameManager.cpp:409-412 | a player's velocity is where the keys of its last input that took effect steer at the move speed, through ticks and reconnects, and zero without any |
| PlayerHistory.TickMoves | src/Game/Managers/GameManager.cpp:283-293 | a tick moves an active player from (x, y) to (x + vx dt, y + vy dt) if that is on the map; nothing else moves anyone |
| GameManager.GameManager.HandlePlayerInput | src/Game/Managers/GameManager.cpp:384-415 | takes the model's input step |
| GameManager.GameManager.HandleEnterZone | src/Game/Managers/GameManager.cpp:422-451 | takes the model's enter-zone step, on the mutable tree |
| GameManager.GameManager.HandlePlayerDisconnect | src/Game/Managers/GameManager.cpp:458-474 | takes the model's disconnect step, on the mutable tree |
| GameManager.GameManager.ProcessGameCommand | src/Game/Managers/GameManager.cpp:339-377 | disconnects bypass the session check, other commands need a registered sender |
| GameManager.GameManager.ProcessPendingCommands | src/Game/Managers/GameManager.cpp:217-270 | commands are collected up to the batch size, the time limit or an empty queue, none is lost or duplicated, and they are handled in the order collected |
| GameManager.GameManager.UpdateWorld | src/Game/Managers/GameManager.cpp:279-295 | the loop over the players, in whatever order, computes the model's world update |
| GameManager.GameManager.UpdatePlayer | src/Game/Managers/GameManager.cpp:285-293 | one player is moved and re-entered in the index if active |
| GameManager.GameManager.GetCachedPlayersInAOI | src/Game/Managers/GameManager.cpp:781-806 | serves and records the fresh or the cached list |
| GameManager.GameManager.AddSnapshotToPlayerBatch | src/Game/Managers/GameManager.cpp:677-725 | appends one snapshot of the listed players to that player's batch only |
| GameManager.GameManager.SendWorldSnapshots | src/Game/Managers/GameManager.cpp:302-319 | the loop serves every active player once, independently of the order |
| GameManager.GameManager.FlushAllBatches | src/Game/Managers/GameManager.cpp:734-776 | every non-empty batch of a connected player is sent once, and every batch is empty afterwards |
| GameRuns.IterationInRun | src/Game/Managers/GameManager.cpp:160-210 | a batch of commands and a tick go on with a run |
| GameManager.GameManager.RunTick | src/Game/Managers/GameManager.cpp:171-183 | one loop iteration takes the model's steps and keeps the invariant; with legal surroundings the recorded steps of all iterations so far are a run of the model that leads to the object's state |
| GameManager.GameManager.ServesAccurately | src/Game/Managers/GameManager.cpp:302-319 | of the object after any iterations: the list last served to an active player is at most two ticks old, with both error bounds |
| GameManager.GameLogicQueue.TryPopGameCommand | src/Game/GameLogicQueue.cpp:38-46 | takes one pending command, any of them, and fails only when there is none |
| GameManager.GameLogicQueue.PushGameCommand | src/Game/GameLogicQueue.cpp:11-21 | adds one pending command |
| JobQueue.StepKeepsWakeup | src/Utils/JobQueue.cpp:13-42 | every step of every thread keeps: while a worker sleeps, queued jobs are at most pushers yet to notify plus woken workers yet to retry |
| JobQueue.StepConserves | src/Utils/JobQueue.cpp:13-42 | every job pushed is still queued or was taken, exactly as often as pushed |
| JobQueue.RunInvariant | src/Utils/JobQueue.cpp:13-42 | mutual exclusion, no lost wakeup, conservation and signal counts hold in every interleaving |
| JobQueue.QuiescentNeverStuck | src/Utils/JobQueue.cpp:20-34 | a quiescent state never has both a job and a sleeping worker |
| JobQueue.SignalsMatchWorkers | src/Utils/JobProcessor.cpp:55-60 | once Stop has pushed its signals, signals left equal workers left |
| JobQueue.StopProgress | src/Utils/JobProcessor.cpp:61-67 | until every worker is gone some thread can take a step that is neither a new push nor a spurious wakeup |
| JobQueue.AwakeWorker | src/Utils/JobProcessor.cpp:72-82 | while there is a job the live workers are never all asleep with nobody about to wake one |
| JobQueue.JobProgress | src/Utils/JobQueue.cpp:13-42 | while there are a job and a worker, some thread can take a step that is neither a new push nor a spurious wakeup |
| JobQueue.EveryJobIsTaken | src/Utils/JobQueue.cpp:13-42 | in every run any idle thread can push any packet, and every schedule that lets the threads finish ends with all jobs pushed taken, unless every worker is gone |
| JobQueue.PopReturnsJob | src/Utils/JobQueue.cpp:24-42 | PopJob returns only with a job of the queue; a worker ends exactly with a shutdown signal |
| JobQueue.InternalStepsEnd | src/Utils/JobQueue.cpp:13-42 | each such step reduces the work left |
| JobQueue.EveryScheduleEnds | src/Utils/JobProcessor.cpp:49-70 | however the threads are scheduled, such steps run out |
| JobQueue.EveryScheduleStops | src/Utils/JobProcessor.cpp:49-70 | in every run, after the signals are sent, every schedule that leaves nothing under way ends with all workers gone, in a bounded number of steps |
| JobQueue.StopCompletes | src/Utils/JobProcessor.cpp:49-70 | from every reachable state with all signals sent, all workers can exit, so all joins return |
| JobQueue.StopCanAlwaysComplete | src/Utils/JobProcessor.cpp:49-70 | from every state of every run Stop can push one signal for each worker and all workers can exit |
| SessionProtocol.NetKeepsOnce | src/Network/SessionManager.cpp:13-38 | each session is registered at most once and removed at most once, however often Disconnect is called |
| SessionProtocol.NetKeepsExplained | src/Network/SessionManager.cpp:20-38 | removal hands a player's cover on from the registry to the remover to the queue, unless the remover reads another id |
| SessionProtocol.GameAttached | src/Game/Managers/GameManager.cpp:339-376 | a player is entered only through a session registered at that moment, and is inactive after its disconnect is handled |
| SessionProtocol.RunInvariant | src/Network/SessionManager.cpp:13-100 | the connection cap, single passage of sessions and cover of players hold in every interleaving |
| SessionProtocol.CapAndOnce | src/Network/TcpServer.cpp:115-154 | registered sessions never exceed 600 and no session causes two disconnect commands |
| SessionHistory.TakesUpTo | src/Network/TcpServer.cpp:125-134 | the server does take every number of sessions up to 600 at once |
| SessionProtocol.CoveredIff | src/Network/SessionManager.cpp:81-100 | with no assumption on logins, and workers that read the id first and push later, an active player's disconnect is guaranteed exactly when the session's remover, if any, read that player's non-zero id |
| SessionProtocol.ActiveIsCovered | src/Utils/JobProcessor.cpp:181-193 | if ids are set once before entering, an active player's session is registered, or its remover is about to push, or its disconnect is pending, even when the queue reorders commands |
| SessionHistory.RegisteredIff | src/Network/SessionManager.cpp:13-30 | in every interleaving a session is registered exactly when its AddSession has happened and no Disconnect of it came after |
| SessionHistory.StaysOut | src/Network/TcpServer.cpp:140-149 | a started session that is not registered never becomes registered unless its AddSession is still to come |
| SessionHistory.EraseFinalIff | src/Network/TcpServer.cpp:140-149 | in every reachable state, no run that takes a session's Disconnect there ever has it registered afterwards if and only if the accept loop is not between starting and adding it |
| SessionHistory.LeaksWhenEarly | src/Network/TcpServer.cpp:145-149 | from every reachable state with the session started and not added, a run that takes its Disconnect ends with it registered |
| SessionHistory.EarlyDisconnectLeaks | src/Network/TcpServer.cpp:145-149 | such a state is reachable: the first session can be registered after its Disconnect |
| SessionHistory.UnnamedForGood | src/Network/SessionManager.cpp:83-85 | in every run, once player 0 is active it is active in every later state |
| SessionHistory.UnnamedPlayerStays | src/Network/SessionManager.cpp:83-85 | a client that enters before logging in leaves an active player 0 without a session, active in every later state of every run |
| SessionHistory.RenamedPlayerStays | src/Game/PacketHandlers/LoginPacketHandler.cpp:73 | a reachable state in which a client that logged in again as another player after entering has gone, and the first player is active with nothing on the way to disconnect it |
| SessionHistory.CoveredAfterErase | src/Network/SessionManager.cpp:20-38 | if the id is not changed after a session's removal, a player still active through it is covered exactly when the id at the removal is the player's and not 0, or the remover has yet to read it |
| SessionRivals.OnlyOwnIff | src/Game/Managers/GameManager.cpp:458-470 | in every reachable state, for a player active through a registered session: in no run that goes on without another session logging in as the player does any but that session's disconnect take the player out, if and only if no other session has its disconnect pending or is on the way to it |
| SessionRivals.RivalStrikes | src/Game/Managers/GameManager.cpp:458-470 | if there is such a session, some run goes on from there, without any login, to its command taking the player out while the player's session is registered |
| SessionRivals.ThreatBefore | src/Network/SessionManager.cpp:81-96 | in any interleaving, a session gets on the way to disconnecting a player only by logging in as that player |
| SessionRivals.OwnDisconnect | src/Game/Managers/GameManager.cpp:458-470 | in every run whose logins wait until no other session threatens the player, no active player has such a rival, and each is taken out by its own session's disconnect only |
| SessionRivals.OwnDisconnectIsOut | src/Game/Managers/GameManager.cpp:347-351 | in any run, when a player's own session's disconnect is handled that session is gone from the registry for good |
| SessionRivals.LateDisconnect | src/Game/Managers/GameManager.cpp:458-470 | a reachable case without that wait: an earlier session's disconnect takes the player out while its own session is registered |
| SessionGame.SameHandling | src/Game/Managers/GameManager.cpp:339-474 | handling a command in the protocol does to who is active through which session what the game's handlers do |
| SessionGame.OthersKeepPlayers | src/Game/Managers/GameManager.cpp:279-415 | inputs and ticks do not change who is active through which session |
| SessionGame.Mirror | src/Game/Managers/GameManager.cpp:339-474 | every run of the protocol goes along with a run of the game that has the same players active through the same sessions |
| SessionGame.IndexedAreCovered | src/Game/Managers/GameManager.cpp:339-474 | with disciplined logins, the players in that game's spatial index are the protocol's active ones, each with its session registered or its disconnect on the way |
| Framing.LengthRoundTrip | src/Network/Session.cpp:83-92 | a 32-bit length survives the header |
| Framing.LittleEndian | src/Network/Session.cpp:88-92 | the header's bytes are those of the length, the least significant first |
| Framing.EncodeDecode | src/Network/Session.cpp:174-175 | every four bytes are the header of the length they decode to |
| Framing.ReadLoop | src/Network/Session.cpp:160-225 | the loop delivers the complete acceptable frames up to the first that is not |
| Framing.RoundTrip | src/Network/Session.cpp:81-100 | bodies of 1 to 100000 bytes come back whole and in order, whatever bytes follow |
| Framing.RoundTripIff | src/Network/Session.cpp:81-195 | whatever bodies are sent, they all come back if and only if each has 1 to 100000 bytes |
| Framing.DeliveredAcceptable | src/Network/Session.cpp:189-195 | every delivered body has 1 to 100000 bytes |
| Framing.DeliveredIsParse | src/Network/Session.cpp:160-225 | the stream is the frames of what is delivered and a rest that starts with no complete frame |
| Framing.ParseUnique | src/Network/Session.cpp:160-225 | no other reading of a stream is possible |
| Framing.PrefixDelivery | src/Network/Session.cpp:160-225 | what a prefix delivers is a prefix of what the whole stream delivers |
| Framing.NothingAfterBadFrame | src/Network/Session.cpp:189-205 | a truncated last frame is not delivered, and nothing after an invalid header |
| Framing.Session.Send | src/Network/Session.cpp:81-100 | the session is in the state its calls lead to, with this send, which enqueues one frame, added |
| Framing.FitsBatch | src/Network/Session.cpp:106-123 | the 64-bit size computation never wraps and accepts exactly the batches of at most 64 MiB |
| Framing.Combine | src/Network/Session.cpp:126-139 | the combined buffer is the concatenation of the individual frames |
| Framing.BuildBatch | src/Network/Session.cpp:102-139 | all or nothing: one buffer with the frames of all packets, or nothing exactly when there is none or their size exceeds 64 MiB; no length is truncated |
| Framing.Session.SendBatch | src/Network/Session.cpp:102-147 | the same with this batch added, in 64-bit arithmetic |
| Framing.Session.WriteNext | src/Network/Session.cpp:245-252 | the same with one turn of the write loop added, which writes some waiting buffer, any of them, if there is one |
| Framing.RunCarries | src/Network/Session.cpp:81-252 | after any calls, the elements sent and not dropped are exactly those waiting and those written, and the wire holds the latter's frames in order |
| Framing.EndToEnd | src/Network/Session.cpp:81-252 | for any Send and SendBatch calls and any order of dequeuing, the elements written were sent, each once, and are all of them once nothing waits; the peer gets their packets whole, in that order and nothing else if and only if all have 1 to 100000 bytes |
| Framing.EndToEndAcceptable | src/Network/Session.cpp:81-252 | with such bodies only, everything written is delivered, and a connection cut anywhere delivers the first of it |
| MemoryPool.StepKeepsPlaces | src/Utils/MemoryPool.cpp:14-110 | pool creation, construction, moves and destruction keep every object that exists in exactly one place, its own pool's queue or one wrapper of that pool |
| MemoryPool.MoveAssignBalances | src/Utils/MemoryPool.cpp:94-110 | move assignment, to itself too and across pools, keeps every pool's balance |
| MemoryPool.StepBalances | src/Utils/MemoryPool.cpp:28-110 | available <= size <= available + outstanding is kept by every operation |
| MemoryPool.RunInvariant | src/Utils/MemoryPool.cpp:14-110 | over every sequence of operations from nothing: exactly one place, in its own pool or a wrapper of it, for every object created and not dropped, and the balance of every pool |
| MemoryPool.OnePlace | src/Utils/MemoryPool.cpp:14-110 | in every state of every run such an object is at a place that belongs to the pool that created it, and at no other |
| MemoryPool.DroppedIff | src/Utils/MemoryPool.cpp:53-60 | an object is gone exactly when at some earlier time a wrapper gave it back to a pool that was full |
| MemoryPool.FirstInFirstOut | src/Utils/MemoryPool.cpp:28-58 | over every run, as long as an object stays idle every object behind it in the queue stays behind it |
| MemoryPool.FullWhenAllGone | src/Utils/MemoryPool.cpp:156-254 | once no wrapper holds anything of a pool, the pool is exactly full |
| PooledObjects.ObjectPool.constructor | src/Utils/MemoryPool.cpp:14-26 | the pool starts with its size of distinct new empty objects |
| PooledObjects.ObjectPool.Acquire | src/Utils/MemoryPool.cpp:28-45 | the object idle longest, or a new one, always empty |
| PooledObjects.ObjectPool.Release | src/Utils/MemoryPool.cpp:47-61 | a null is ignored, a full pool lets the object go, else it is cleared and kept |
| PooledObjects.Pooled.constructor | src/Utils/MemoryPool.cpp:75-78 | takes an object out of the pool |
| PooledObjects.Pooled.MoveFrom | src/Utils/MemoryPool.cpp:88-92 | both fields pass over and the source is left empty |
| PooledObjects.Pooled.MoveAssign | src/Utils/MemoryPool.cpp:94-110 | the old object returns to its own pool, the source's is taken over; self-assignment changes nothing |
| PooledObjects.Pooled.Destroy | src/Utils/MemoryPool.cpp:80-86 | the object returns to its pool, a moved-from wrapper returns nothing |
| PooledObjects.NewPoolStep | src/Utils/MemoryPool.cpp:14-26 | creating a pool takes the value model's step |
| PooledObjects.ConstructStep | src/Utils/MemoryPool.cpp:75-78 | so does constructing a wrapper, which gets an empty object |
| PooledObjects.MoveConstructStep | src/Utils/MemoryPool.cpp:88-92 | so does the move constructor |
| PooledObjects.MoveAssignStep | src/Utils/MemoryPool.cpp:94-110 | so does move assignment, to itself too |
| PooledObjects.DestroyStep | src/Utils/MemoryPool.cpp:80-86 | so does the destructor |
| PooledObjects.WriteStep | src/Utils/MemoryPool.h:57-60 | writing through a wrapper changes no idle object and no other wrapper's object |
| PooledObjects.HeldAlone | src/Utils/MemoryPool.h:65 | on the heap, an object that a wrapper holds is idle in no pool and held by no other wrapper |
| PooledObjects.FullOnHeap | src/Utils/MemoryPool.cpp:14-110 | on the heap, once no wrapper points to a pool its queue is exactly full |
| ChatCodec.NumberRoundTrip | src/Game/Managers/ChatManager.cpp:84 | a printed 64-bit number parses back to itself |
| ChatCodec.PrintedForm | src/Game/PacketHandlers/ChatPacketHandler.cpp:36 | a number prints as a minus sign if negative and its decimal digits without leading zeros |
| ChatCodec.NumberForm | src/Game/Managers/ChatManager.cpp:84 | white space, a sign and digits are read as that number whatever follows, and refused without digits or beyond 64 bits |
| ChatCodec.RefusedIff | src/Game/Managers/ChatManager.cpp:73-85 | a text is refused exactly when it has no bar or no number before the first |
| ChatCodec.RoundTrip | src/Game/Managers/ChatManager.cpp:73-85 | every 64-bit id and every message, bars included, come back as printed |
| ChatCodec.SessionRoundTrip | src/Game/PacketHandlers/ChatPacketHandler.cpp:33-36 | a session's unsigned id comes back modulo 2^64 as a signed number, and as itself below 2^63, with the message |
| ChatCodec.PrintInjective | src/Game/PacketHandlers/ChatPacketHandler.cpp:36 | different messages print differently |

## Left out

- Floating-point rounding: coordinates, distances and times of movement are reals; nothing is claimed about the last digits of `float` results.
- FlatBuffers: building, verifying and reading packets; packets are byte sequences or datatype values, and a snapshot is the list of player states it carries.
- The zone-entered, player-joined and player-left packets that handlers send directly: the first goes to the entering session with the players near it, the others to the connected sessions of all other players.
- Behaviour after a queue's `Shutdown`, where `PopJob` and `PopGameCommand` dequeue a second time and drop an item, and commands dropped by a stopping game loop.
- Exceptions thrown while a command or a tick is handled; runs are exception free.
- Reconnect-timeout expiry (`Player::ShouldRemove`, `World::RemovePlayer`), which nothing calls.
- GameManager.GameManager.ProcessPendingCommands: the time limit is a number of pops, given as a parameter.
- JobQueue.StopCompletes: assumes threads keep running; spurious wakeups and new pushes are excluded from the bound on steps, not from the invariants.
- Framing.Session.SendBatch: like Framing.BuildBatch and Framing.FitsBatch it assumes span sizes of at most 2^64 - 5 bytes, which every C++ object satisfies; above that the size check itself wraps.
- Timers, sockets, coroutines, the logger, configuration loading, statistics, the authentication server, the Redis connection and the login handler.
- `StringCache`, which keeps up to a fixed number of `Player_<id>` strings, and the `ObjectPool` template of the memory pool header, which nothing uses.
- `Session::Disconnect` emptying the write queue and closing the socket in the middle of a write: the runs of calls do not contain it. What a cut stream delivers is in `Framing.EndToEndAcceptable`.
- Pool destruction: pools live as long as the program.
- Tick numbers, session ids and sequence numbers are unbounded; their wrap-around at 2^64 or 2^32 is not modelled.
