/** The quadtree as a value: what each operation of the mutable tree computes, the representation
    invariant, and the theorem that the tree answers queries like a scan of the position map. */
module QuadTreeSpec {
  import opened Geometry

  type PlayerId = nat

  const MAX_PLAYERS_PER_NODE := 4
  const MAX_DEPTH := 6

  datatype Tree =
    | Leaf(bounds: Bounds, ids: seq<PlayerId>)
    | Branch(bounds: Bounds, nw: Tree, ne: Tree, sw: Tree, se: Tree)

  /** The tree beside its flat map of recorded positions. */
  datatype Index = Index(root: Tree, positions: map<PlayerId, Vec3>)

  // ---------------------------------------------------------------- operations

  function Lookup(m: map<PlayerId, Vec3>, id: PlayerId): Vec3 {
    if id in m then m[id] else ORIGIN
  }

  function Split(b: Bounds): Tree {
    Branch(b, Leaf(b.NW(), []), Leaf(b.NE(), []), Leaf(b.SW(), []), Leaf(b.SE(), []))
  }

  function Levels(depth: nat): nat { if depth < MAX_DEPTH then MAX_DEPTH - depth else 0 }

  /** Insertion at `depth`. The measure needs no invariant of the tree: above the depth limit each call
      goes one level down, and below it only the children of a branch are visited. */
  function InsertNode(t: Tree, id: PlayerId, pos: Vec3, depth: nat, m: map<PlayerId, Vec3>): Tree
    decreases 2 * Levels(depth), t, 1
  {
    match t
    case Leaf(b, ids) =>
      if |ids| + 1 > MAX_PLAYERS_PER_NODE && depth < MAX_DEPTH then
        Reinsert(Split(b), ids + [id], id, pos, depth + 1, m)
      else
        Leaf(b, ids + [id])
    case Branch(_, _, _, _, _) => InsertBelow(t, id, pos, depth + 1, m)
  }

  /** Insertion into the first quadrant that holds the point; a point in none of them is dropped. */
  function InsertBelow(t: Tree, id: PlayerId, pos: Vec3, below: nat, m: map<PlayerId, Vec3>): (r: Tree)
    requires t.Branch?
    ensures r.Branch? && r.bounds == t.bounds
    decreases 2 * Levels(below), t, 0
  {
    if t.nw.bounds.Contains(pos) then t.(nw := InsertNode(t.nw, id, pos, below, m))
    else if t.ne.bounds.Contains(pos) then t.(ne := InsertNode(t.ne, id, pos, below, m))
    else if t.sw.bounds.Contains(pos) then t.(sw := InsertNode(t.sw, id, pos, below, m))
    else if t.se.bounds.Contains(pos) then t.(se := InsertNode(t.se, id, pos, below, m))
    else t
  }

  /** Redistribution of `ids`, first to last, below a freshly split node. */
  function Reinsert(t: Tree, ids: seq<PlayerId>, id: PlayerId, pos: Vec3, below: nat, m: map<PlayerId, Vec3>): (r: Tree)
    requires t.Branch?
    ensures r.Branch? && r.bounds == t.bounds
    decreases 2 * Levels(below) + 1, |ids|
  {
    if ids == [] then t
    else
      var n := |ids| - 1;
      var pid := ids[n];
      InsertBelow(Reinsert(t, ids[..n], id, pos, below, m), pid, ReinsertAt(pid, id, pos, m), below, m)
  }

  function ReinsertAt(pid: PlayerId, id: PlayerId, pos: Vec3, m: map<PlayerId, Vec3>): Vec3 {
    if pid == id then pos else Lookup(m, pid)
  }

  /** Looking up another id than the one being inserted adds it at the origin if it has no position. */
  function Noted(m: map<PlayerId, Vec3>, pid: PlayerId, id: PlayerId): map<PlayerId, Vec3> {
    if pid == id then m else m[pid := Lookup(m, pid)]
  }

  /** The recorded positions after InsertNode, with what its lookups added. */
  function InsertMap(t: Tree, id: PlayerId, pos: Vec3, depth: nat, m: map<PlayerId, Vec3>): map<PlayerId, Vec3>
    decreases 2 * Levels(depth), t, 1
  {
    match t
    case Leaf(b, ids) =>
      if |ids| + 1 > MAX_PLAYERS_PER_NODE && depth < MAX_DEPTH then
        ReinsertMap(Split(b), ids + [id], id, pos, depth + 1, m)
      else
        m
    case Branch(_, _, _, _, _) => BelowMap(t, id, pos, depth + 1, m)
  }

  function BelowMap(t: Tree, id: PlayerId, pos: Vec3, below: nat, m: map<PlayerId, Vec3>): map<PlayerId, Vec3>
    requires t.Branch?
    decreases 2 * Levels(below), t, 0
  {
    if t.nw.bounds.Contains(pos) then InsertMap(t.nw, id, pos, below, m)
    else if t.ne.bounds.Contains(pos) then InsertMap(t.ne, id, pos, below, m)
    else if t.sw.bounds.Contains(pos) then InsertMap(t.sw, id, pos, below, m)
    else if t.se.bounds.Contains(pos) then InsertMap(t.se, id, pos, below, m)
    else m
  }

  function ReinsertMap(t: Tree, ids: seq<PlayerId>, id: PlayerId, pos: Vec3, below: nat, m: map<PlayerId, Vec3>): map<PlayerId, Vec3>
    requires t.Branch?
    decreases 2 * Levels(below) + 1, |ids|
  {
    if ids == [] then m
    else
      var n := |ids| - 1;
      var pid := ids[n];
      BelowMap(Reinsert(t, ids[..n], id, pos, below, m), pid, ReinsertAt(pid, id, pos, m), below,
               Noted(ReinsertMap(t, ids[..n], id, pos, below, m), pid, id))
  }

  /** Index of the first occurrence of `id`, or the length if there is none. */
  function Find(ids: seq<PlayerId>, id: PlayerId): (i: nat)
    ensures i <= |ids| && (forall k :: 0 <= k < i ==> ids[k] != id) && (i < |ids| ==> ids[i] == id)
  {
    if ids == [] || ids[0] == id then 0 else 1 + Find(ids[1..], id)
  }

  function EraseAt(ids: seq<PlayerId>, i: nat): seq<PlayerId>
    requires i < |ids|
  {
    ids[..i] + ids[i + 1..]
  }

  /** Removal along the nodes whose bounds hold the point, stopping at the first success. */
  function RemoveNode(t: Tree, id: PlayerId, pos: Vec3): (r: (Tree, bool))
    ensures r.0.bounds == t.bounds && (!r.1 ==> r.0 == t)
  {
    if !t.bounds.Contains(pos) then (t, false)
    else match t
      case Leaf(b, ids) =>
        var i := Find(ids, id);
        if i < |ids| then (Leaf(b, EraseAt(ids, i)), true) else (t, false)
      case Branch(_, nw, ne, sw, se) =>
        var a := RemoveNode(nw, id, pos);
        if a.1 then (t.(nw := a.0), true) else
        var b := RemoveNode(ne, id, pos);
        if b.1 then (t.(ne := b.0), true) else
        var c := RemoveNode(sw, id, pos);
        if c.1 then (t.(sw := c.0), true) else
        var d := RemoveNode(se, id, pos);
        (t.(se := d.0), d.1)
  }

  predicate IsHit(id: PlayerId, m: map<PlayerId, Vec3>, center: Vec3, radius: real) {
    id in m && DistSq(m[id], center) <= radius * radius
  }

  /** The ids of a list that lie in the circle, in list order. */
  function Hits(ids: seq<PlayerId>, m: map<PlayerId, Vec3>, center: Vec3, radius: real): seq<PlayerId> {
    if ids == [] then []
    else
      var n := |ids| - 1;
      Hits(ids[..n], m, center, radius) + (if IsHit(ids[n], m, center, radius) then [ids[n]] else [])
  }

  function QueryNode(t: Tree, center: Vec3, radius: real, m: map<PlayerId, Vec3>): seq<PlayerId> {
    if !t.bounds.Intersects(center, radius) then []
    else match t
      case Leaf(_, ids) => Hits(ids, m, center, radius)
      case Branch(_, nw, ne, sw, se) =>
        QueryNode(nw, center, radius, m) + QueryNode(ne, center, radius, m) +
        QueryNode(sw, center, radius, m) + QueryNode(se, center, radius, m)
  }

  function CountNodes(t: Tree): nat {
    match t
    case Leaf(_, _) => 1
    case Branch(_, nw, ne, sw, se) => 1 + CountNodes(nw) + CountNodes(ne) + CountNodes(sw) + CountNodes(se)
  }

  function CountPlayers(t: Tree): nat {
    match t
    case Leaf(_, ids) => |ids|
    case Branch(_, nw, ne, sw, se) => CountPlayers(nw) + CountPlayers(ne) + CountPlayers(sw) + CountPlayers(se)
  }

  function Empty(b: Bounds): Index { Index(Leaf(b, []), map[]) }

  function Insert(ix: Index, id: PlayerId, pos: Vec3): Index {
    var m := ix.positions[id := pos];
    Index(InsertNode(ix.root, id, pos, 0, m), InsertMap(ix.root, id, pos, 0, m))
  }

  function Remove(ix: Index, id: PlayerId): Index {
    if id in ix.positions
    then Index(RemoveNode(ix.root, id, ix.positions[id]).0, ix.positions - {id})
    else ix
  }

  function Update(ix: Index, id: PlayerId, pos: Vec3): Index { Insert(Remove(ix, id), id, pos) }

  function Clear(ix: Index): Index { Empty(ix.root.bounds) }

  function Query(ix: Index, center: Vec3, radius: real): seq<PlayerId> {
    QueryNode(ix.root, center, radius, ix.positions)
  }

  // ---------------------------------------------------------------- what the operations mean

  /** Every stored id, as often as it is stored. */
  function Bag(t: Tree): multiset<PlayerId> {
    match t
    case Leaf(_, ids) => multiset(ids)
    case Branch(_, nw, ne, sw, se) => Bag(nw) + Bag(ne) + Bag(sw) + Bag(se)
  }

  /** The children are the quadrants of their parent and well shaped one level down. */
  ghost predicate TiledBelow(t: Tree, below: nat)
    requires t.Branch?
    decreases t, 0
  {
    && t.nw.bounds == t.bounds.NW() && t.ne.bounds == t.bounds.NE()
    && t.sw.bounds == t.bounds.SW() && t.se.bounds == t.bounds.SE()
    && Tiled(t.nw, below) && Tiled(t.ne, below) && Tiled(t.sw, below) && Tiled(t.se, below)
  }

  /** No branch at the depth limit, and no more than four ids in a leaf above it. */
  ghost predicate Tiled(t: Tree, depth: nat)
    decreases t, 1
  {
    match t
    case Leaf(_, ids) => |ids| <= 4 || depth >= 6
    case Branch(_, _, _, _, _) => depth < 6 && TiledBelow(t, depth + 1)
  }

  /** Every id, `loose` ones excepted, sits in a leaf that contains its recorded position. */
  ghost predicate Placed(t: Tree, m: map<PlayerId, Vec3>, loose: set<PlayerId>) {
    match t
    case Leaf(b, ids) => forall x :: x in ids && x !in loose ==> x in m && b.Contains(m[x])
    case Branch(_, nw, ne, sw, se) =>
      Placed(nw, m, loose) && Placed(ne, m, loose) && Placed(sw, m, loose) && Placed(se, m, loose)
  }

  /** The representation invariant: each mapped id is in exactly one leaf, once, and that leaf's
      bounds hold its recorded position; nothing else is stored. */
  ghost predicate Consistent(ix: Index) {
    && Tiled(ix.root, 0)
    && Placed(ix.root, ix.positions, {})
    && Bag(ix.root) == multiset(ix.positions.Keys)
  }

  /** The reference answer: a scan of the map. */
  function BruteForce(m: map<PlayerId, Vec3>, center: Vec3, radius: real): set<PlayerId> {
    set id | id in m && IsHit(id, m, center, radius)
  }
}
