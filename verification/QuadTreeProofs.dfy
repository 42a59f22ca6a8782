/** Theorems about the quadtree: shape, contents, queries, and runs of operations. */
module QuadTreeProofs {
  import opened Geometry
  import opened QuadTreeSpec
  import opened QuadTreeLookups

  // ---------------------------------------------------------------- shape, for every input

  /** Insertion keeps the tree well shaped and never drops a node, wherever the point lies. */
  lemma {:induction false} InsertShape(t: Tree, id: PlayerId, pos: Vec3, depth: nat, m: map<PlayerId, Vec3>)
    requires Tiled(t, depth)
    ensures var r := InsertNode(t, id, pos, depth, m);
            Tiled(r, depth) && r.bounds == t.bounds && CountNodes(t) <= CountNodes(r)
    decreases 2 * Levels(depth), t, 1
  {
    match t
    case Leaf(b, ids) =>
      if |ids| + 1 > MAX_PLAYERS_PER_NODE && depth < MAX_DEPTH {
        ReinsertShape(Split(b), ids + [id], id, pos, depth + 1, m);
      }
    case Branch(_, _, _, _, _) => InsertBelowShape(t, id, pos, depth + 1, m);
  }

  lemma {:induction false} InsertBelowShape(t: Tree, id: PlayerId, pos: Vec3, below: nat, m: map<PlayerId, Vec3>)
    requires t.Branch? && TiledBelow(t, below)
    ensures var r := InsertBelow(t, id, pos, below, m);
            TiledBelow(r, below) && CountNodes(t) <= CountNodes(r)
    decreases 2 * Levels(below), t, 0
  {
    if t.nw.bounds.Contains(pos) { InsertShape(t.nw, id, pos, below, m); }
    else if t.ne.bounds.Contains(pos) { InsertShape(t.ne, id, pos, below, m); }
    else if t.sw.bounds.Contains(pos) { InsertShape(t.sw, id, pos, below, m); }
    else if t.se.bounds.Contains(pos) { InsertShape(t.se, id, pos, below, m); }
  }

  lemma {:induction false} ReinsertShape(t: Tree, ids: seq<PlayerId>, id: PlayerId, pos: Vec3, below: nat, m: map<PlayerId, Vec3>)
    requires t.Branch? && TiledBelow(t, below)
    ensures var r := Reinsert(t, ids, id, pos, below, m);
            TiledBelow(r, below) && CountNodes(t) <= CountNodes(r)
    decreases 2 * Levels(below) + 1, |ids|
  {
    if ids != [] {
      var n := |ids| - 1;
      ReinsertShape(t, ids[..n], id, pos, below, m);
      InsertBelowShape(Reinsert(t, ids[..n], id, pos, below, m), ids[n], ReinsertAt(ids[n], id, pos, m), below, m);
    }
  }

  /** Removal leaves the nodes alone. */
  lemma {:induction false} RemoveShape(t: Tree, id: PlayerId, pos: Vec3, depth: nat)
    requires Tiled(t, depth)
    ensures var r := RemoveNode(t, id, pos).0; Tiled(r, depth) && CountNodes(r) == CountNodes(t)
  {
    if t.Branch? {
      RemoveShape(t.nw, id, pos, depth + 1);
      RemoveShape(t.ne, id, pos, depth + 1);
      RemoveShape(t.sw, id, pos, depth + 1);
      RemoveShape(t.se, id, pos, depth + 1);
    }
  }

  function Height(t: Tree): nat {
    match t
    case Leaf(_, _) => 0
    case Branch(_, nw, ne, sw, se) => 1 + MaxOf(MaxOf(Height(nw), Height(ne)), MaxOf(Height(sw), Height(se)))
  }

  function MaxOf(a: nat, b: nat): nat { if a < b then b else a }

  /** Nodes of a complete quadtree with the given number of levels below the root. */
  function FullCount(levels: nat): nat { if levels == 0 then 1 else 1 + 4 * FullCount(levels - 1) }

  /** The node count of every tree is 1 modulo 4. */
  lemma {:induction false} NodeCountOneModFour(t: Tree)
    ensures CountNodes(t) % 4 == 1
  {
    if t.Branch? {
      NodeCountOneModFour(t.nw);
      NodeCountOneModFour(t.ne);
      NodeCountOneModFour(t.sw);
      NodeCountOneModFour(t.se);
      OneModFour(CountNodes(t.nw), CountNodes(t.ne), CountNodes(t.sw), CountNodes(t.se));
    }
  }

  /** A well shaped tree has no node below the depth limit. */
  lemma {:induction false} HeightBound(t: Tree, depth: nat)
    requires Tiled(t, depth) && depth <= 6
    ensures depth + Height(t) <= 6
  {
    if t.Branch? {
      HeightBound(t.nw, depth + 1);
      HeightBound(t.ne, depth + 1);
      HeightBound(t.sw, depth + 1);
      HeightBound(t.se, depth + 1);
    }
  }

  /** Hence it has no more nodes than a complete one. */
  lemma {:induction false} NodeBound(t: Tree, levels: nat)
    requires Height(t) <= levels
    ensures CountNodes(t) <= FullCount(levels)
  {
    if t.Branch? {
      NodeBound(t.nw, levels - 1);
      NodeBound(t.ne, levels - 1);
      NodeBound(t.sw, levels - 1);
      NodeBound(t.se, levels - 1);
    } else {
      FullCountPositive(levels);
    }
  }

  lemma OneModFour(a: nat, b: nat, c: nat, d: nat)
    requires a % 4 == 1 && b % 4 == 1 && c % 4 == 1 && d % 4 == 1
    ensures (1 + a + b + c + d) % 4 == 1
  {}

  lemma {:induction false} FullCountPositive(levels: nat)
    ensures 1 <= FullCount(levels)
  {}

  // ---------------------------------------------------------------- contents

  /** The position of every placed id lies in the bounds of the whole subtree. */
  lemma {:induction false} PlacedInBounds(t: Tree, m: map<PlayerId, Vec3>, loose: set<PlayerId>, depth: nat, x: PlayerId)
    requires Tiled(t, depth) && Placed(t, m, loose) && x in Bag(t) && x !in loose
    ensures x in m && t.bounds.Contains(m[x])
  {
    if t.Branch? {
      if x in Bag(t.nw) { PlacedInBounds(t.nw, m, loose, depth + 1, x); }
      else if x in Bag(t.ne) { PlacedInBounds(t.ne, m, loose, depth + 1, x); }
      else if x in Bag(t.sw) { PlacedInBounds(t.sw, m, loose, depth + 1, x); }
      else { PlacedInBounds(t.se, m, loose, depth + 1, x); }
      QuadrantsTile(t.bounds, m[x]);
    }
  }

  /** Placement only depends on the positions of the stored ids that are not loose. */
  lemma {:induction false} PlacedAgree(t: Tree, m: map<PlayerId, Vec3>, loose: set<PlayerId>, m': map<PlayerId, Vec3>, loose': set<PlayerId>)
    requires Placed(t, m, loose)
    requires forall x :: x in Bag(t) && x !in loose' ==> x !in loose && (x in m ==> x in m' && m'[x] == m[x])
    ensures Placed(t, m', loose')
  {
    if t.Branch? {
      PlacedAgree(t.nw, m, loose, m', loose');
      PlacedAgree(t.ne, m, loose, m', loose');
      PlacedAgree(t.sw, m, loose, m', loose');
      PlacedAgree(t.se, m, loose, m', loose');
    }
  }

  lemma ChildHolds(t: Tree, below: nat, pos: Vec3)
    requires t.Branch? && TiledBelow(t, below) && t.bounds.Contains(pos)
    ensures t.nw.bounds.Contains(pos) || t.ne.bounds.Contains(pos) || t.sw.bounds.Contains(pos) || t.se.bounds.Contains(pos)
  {}

  /** Inserting a point of the node's bounds adds exactly one entry for the id and loses none. The
      id being inserted may itself be loose: a stale entry of it elsewhere does no harm here. */
  lemma {:induction false} InsertContents(t: Tree, id: PlayerId, pos: Vec3, depth: nat, m: map<PlayerId, Vec3>, loose: set<PlayerId>)
    requires Tiled(t, depth) && Placed(t, m, loose) && loose <= {id}
    requires id in m && m[id] == pos && t.bounds.Contains(pos)
    ensures var r := InsertNode(t, id, pos, depth, m);
            Placed(r, m, loose) && Bag(r) == Bag(t) + multiset{id}
    decreases 2 * Levels(depth), t, 1
  {
    match t
    case Leaf(b, ids) =>
      if |ids| + 1 > MAX_PLAYERS_PER_NODE && depth < MAX_DEPTH {
        var all := ids + [id];
        ReinsertContents(Split(b), all, id, pos, depth + 1, m);
        PlacedAgree(Reinsert(Split(b), all, id, pos, depth + 1, m), m, {}, m, loose);
        assert Bag(Split(b)) == multiset{};
        assert multiset(all) == multiset(ids) + multiset{id};
      }
    case Branch(_, _, _, _, _) => InsertBelowContents(t, id, pos, depth + 1, m, loose);
  }

  lemma {:induction false} InsertBelowContents(t: Tree, id: PlayerId, pos: Vec3, below: nat, m: map<PlayerId, Vec3>, loose: set<PlayerId>)
    requires t.Branch? && TiledBelow(t, below) && Placed(t, m, loose) && loose <= {id}
    requires id in m && m[id] == pos && t.bounds.Contains(pos)
    ensures var r := InsertBelow(t, id, pos, below, m);
            Placed(r, m, loose) && Bag(r) == Bag(t) + multiset{id}
    decreases 2 * Levels(below), t, 0
  {
    ChildHolds(t, below, pos);
    if t.nw.bounds.Contains(pos) { InsertContents(t.nw, id, pos, below, m, loose); }
    else if t.ne.bounds.Contains(pos) { InsertContents(t.ne, id, pos, below, m, loose); }
    else if t.sw.bounds.Contains(pos) { InsertContents(t.sw, id, pos, below, m, loose); }
    else { InsertContents(t.se, id, pos, below, m, loose); }
  }

  lemma {:induction false} ReinsertContents(t: Tree, ids: seq<PlayerId>, id: PlayerId, pos: Vec3, below: nat, m: map<PlayerId, Vec3>)
    requires t.Branch? && TiledBelow(t, below) && Placed(t, m, {})
    requires id in m && m[id] == pos
    requires forall x :: x in ids ==> x in m && t.bounds.Contains(m[x])
    ensures var r := Reinsert(t, ids, id, pos, below, m);
            Placed(r, m, {}) && Bag(r) == Bag(t) + multiset(ids)
    decreases 2 * Levels(below) + 1, |ids|
  {
    if ids != [] {
      var n := |ids| - 1;
      var r := Reinsert(t, ids[..n], id, pos, below, m);
      assert ids == ids[..n] + [ids[n]];
      ReinsertContents(t, ids[..n], id, pos, below, m);
      ReinsertShape(t, ids[..n], id, pos, below, m);
      assert ids[n] in ids;
      InsertBelowContents(r, ids[n], m[ids[n]], below, m, {});
    }
  }

  lemma EraseBag(ids: seq<PlayerId>, i: nat)
    requires i < |ids|
    ensures multiset(EraseAt(ids, i)) == multiset(ids) - multiset{ids[i]}
  {
    assert ids == ids[..i] + [ids[i]] + ids[i + 1..];
  }

  lemma {:induction false} RemovePlaced(t: Tree, id: PlayerId, pos: Vec3, m: map<PlayerId, Vec3>)
    requires Placed(t, m, {})
    ensures Placed(RemoveNode(t, id, pos).0, m, {})
  {
    if t.Branch? {
      RemovePlaced(t.nw, id, pos, m);
      RemovePlaced(t.ne, id, pos, m);
      RemovePlaced(t.sw, id, pos, m);
      RemovePlaced(t.se, id, pos, m);
    }
  }

  /** Removal at the recorded position finds the id exactly when it is stored, and takes one entry. */
  lemma {:induction false} RemoveContents(t: Tree, id: PlayerId, m: map<PlayerId, Vec3>, depth: nat)
    requires Tiled(t, depth) && Placed(t, m, {}) && id in m
    ensures TookOne(t, id, m[id])
  {
    if !t.bounds.Contains(m[id]) {
      if id in Bag(t) { PlacedInBounds(t, m, {}, depth, id); }
    } else if t.Leaf? {
      var i := Find(t.ids, id);
      if i < |t.ids| { EraseBag(t.ids, i); }
    } else {
      RemoveContents(t.nw, id, m, depth + 1);
      RemoveContents(t.ne, id, m, depth + 1);
      RemoveContents(t.sw, id, m, depth + 1);
      RemoveContents(t.se, id, m, depth + 1);
      RemoveBranchBag(t, id, m[id]);
    }
  }

  lemma RemoveBranchBag(t: Tree, id: PlayerId, pos: Vec3)
    requires t.Branch? && t.bounds.Contains(pos)
    requires TookOne(t.nw, id, pos) && TookOne(t.ne, id, pos) && TookOne(t.sw, id, pos) && TookOne(t.se, id, pos)
    ensures TookOne(t, id, pos)
  {
    SubtractFromSum(Bag(t.nw), Bag(t.ne), Bag(t.sw), Bag(t.se), id);
  }

  ghost predicate TookOne(t: Tree, id: PlayerId, pos: Vec3) {
    var r := RemoveNode(t, id, pos);
    (r.1 <==> id in Bag(t)) && Bag(r.0) == Bag(t) - multiset{id}
  }

  lemma SubtractFromSum(a: multiset<PlayerId>, b: multiset<PlayerId>, c: multiset<PlayerId>, d: multiset<PlayerId>, x: PlayerId)
    ensures x in a ==> (a - multiset{x}) + b + c + d == a + b + c + d - multiset{x}
    ensures x in b ==> a + (b - multiset{x}) + c + d == a + b + c + d - multiset{x}
    ensures x in c ==> a + b + (c - multiset{x}) + d == a + b + c + d - multiset{x}
    ensures x in d ==> a + b + c + (d - multiset{x}) == a + b + c + d - multiset{x}
  {}

  // ---------------------------------------------------------------- queries

  lemma {:induction false} HitsCount(ids: seq<PlayerId>, m: map<PlayerId, Vec3>, center: Vec3, radius: real, x: PlayerId)
    ensures multiset(Hits(ids, m, center, radius))[x] == if IsHit(x, m, center, radius) then multiset(ids)[x] else 0
  {
    if ids != [] {
      var n := |ids| - 1;
      assert ids == ids[..n] + [ids[n]];
      HitsCount(ids[..n], m, center, radius, x);
    }
  }

  /** The pruned search reports an id as often as it is stored if it is in the circle, and never
      otherwise. */
  lemma {:induction false} QueryCount(t: Tree, m: map<PlayerId, Vec3>, center: Vec3, radius: real, depth: nat, x: PlayerId)
    requires Tiled(t, depth) && Placed(t, m, {})
    ensures multiset(QueryNode(t, center, radius, m))[x] == if IsHit(x, m, center, radius) then Bag(t)[x] else 0
  {
    if !t.bounds.Intersects(center, radius) {
      if x in Bag(t) && IsHit(x, m, center, radius) {
        PlacedInBounds(t, m, {}, depth, x);
        PruneSound(t.bounds, m[x], center, radius);
      }
    } else if t.Leaf? {
      HitsCount(t.ids, m, center, radius, x);
    } else {
      QueryCount(t.nw, m, center, radius, depth + 1, x);
      QueryCount(t.ne, m, center, radius, depth + 1, x);
      QueryCount(t.sw, m, center, radius, depth + 1, x);
      QueryCount(t.se, m, center, radius, depth + 1, x);
    }
  }

  /** A query of a consistent index returns each player in the circle exactly once and nobody else. */
  lemma QueryExact(ix: Index, center: Vec3, radius: real)
    requires Consistent(ix)
    ensures multiset(Query(ix, center, radius)) == multiset(BruteForce(ix.positions, center, radius))
  {
    forall x: PlayerId
      ensures multiset(Query(ix, center, radius))[x] == multiset(BruteForce(ix.positions, center, radius))[x]
    {
      QueryCount(ix.root, ix.positions, center, radius, 0, x);
    }
  }

  /** The stored entries number as many as the map has players. */
  lemma {:induction false} CountIsBagSize(t: Tree)
    ensures CountPlayers(t) == |Bag(t)|
  {
    if t.Branch? {
      CountIsBagSize(t.nw);
      CountIsBagSize(t.ne);
      CountIsBagSize(t.sw);
      CountIsBagSize(t.se);
    }
  }

  lemma CountPlayersExact(ix: Index)
    requires Consistent(ix)
    ensures CountPlayers(ix.root) == |ix.positions|
  {
    CountIsBagSize(ix.root);
    assert |multiset(ix.positions.Keys)| == |ix.positions.Keys|;
  }

  // ---------------------------------------------------------------- the index operations

  /** What is stored after inserting a point in bounds: one more entry of the id. */
  lemma InsertAddsEntry(ix: Index, id: PlayerId, pos: Vec3)
    requires Consistent(ix) && ix.root.bounds.Contains(pos)
    ensures var r := Insert(ix, id, pos);
            Bag(r.root) == Bag(ix.root) + multiset{id} && (id !in ix.positions ==> Placed(r.root, r.positions, {}))
  {
    InsertRecords(ix, id, pos);
    var m := ix.positions[id := pos];
    var loose := if id in ix.positions then {id} else {};
    forall x | x in Bag(ix.root) ensures x in ix.positions {
      assert x in multiset(ix.positions.Keys);
    }
    PlacedAgree(ix.root, ix.positions, {}, m, loose);
    InsertContents(ix.root, id, pos, 0, m, loose);
  }

  lemma InsertConsistent(ix: Index, id: PlayerId, pos: Vec3)
    requires Consistent(ix) && id !in ix.positions && ix.root.bounds.Contains(pos)
    ensures Consistent(Insert(ix, id, pos)) && Insert(ix, id, pos).positions == ix.positions[id := pos]
  {
    InsertRecords(ix, id, pos);
    InsertAddsEntry(ix, id, pos);
    InsertShape(ix.root, id, pos, 0, ix.positions[id := pos]);
    assert ix.positions[id := pos].Keys == ix.positions.Keys + {id};
  }

  lemma InsertPresentBreaks(ix: Index, id: PlayerId, pos: Vec3)
    requires Consistent(ix) && id in ix.positions && ix.root.bounds.Contains(pos)
    ensures !Consistent(Insert(ix, id, pos))
  {
    InsertRecords(ix, id, pos);
    InsertAddsEntry(ix, id, pos);
    assert id in multiset(ix.positions.Keys);
    assert Bag(Insert(ix, id, pos).root)[id] == 2;
    assert multiset(ix.positions[id := pos].Keys)[id] == 1;
  }

  /** A consistent index never records a position outside its bounds. */
  lemma ConsistentInBounds(ix: Index, id: PlayerId)
    requires Consistent(ix) && id in ix.positions
    ensures ix.root.bounds.Contains(ix.positions[id])
  {
    assert id in multiset(ix.positions.Keys);
    PlacedInBounds(ix.root, ix.positions, {}, 0, id);
  }

  /** Insertion keeps the index consistent exactly when the id is new and the point in bounds: a
      known id leaves its old entry behind, and a point out of bounds ends up in no leaf that
      holds it. */
  lemma InsertConsistentIff(ix: Index, id: PlayerId, pos: Vec3)
    requires Consistent(ix)
    ensures Consistent(Insert(ix, id, pos)) <==> id !in ix.positions && ix.root.bounds.Contains(pos)
    ensures Insert(ix, id, pos).root.bounds == ix.root.bounds && Insert(ix, id, pos).positions == ix.positions[id := pos]
  {
    InsertRecords(ix, id, pos);
    InsertShape(ix.root, id, pos, 0, ix.positions[id := pos]);
    if !ix.root.bounds.Contains(pos) {
      if Consistent(Insert(ix, id, pos)) { ConsistentInBounds(Insert(ix, id, pos), id); }
    } else if id in ix.positions {
      InsertPresentBreaks(ix, id, pos);
    } else {
      InsertConsistent(ix, id, pos);
    }
  }

  lemma RemoveConsistent(ix: Index, id: PlayerId)
    requires Consistent(ix)
    ensures Consistent(Remove(ix, id)) && Remove(ix, id).root.bounds == ix.root.bounds
    ensures Remove(ix, id).positions == ix.positions - {id}
  {
    if id in ix.positions {
      var r := Remove(ix, id);
      RemoveShape(ix.root, id, ix.positions[id], 0);
      RemoveContents(ix.root, id, ix.positions, 0);
      RemovePlaced(ix.root, id, ix.positions[id], ix.positions);
      assert id in multiset(ix.positions.Keys);
      assert r.positions.Keys == ix.positions.Keys - {id};
      assert Bag(r.root) == multiset(r.positions.Keys);
      PlacedAgree(r.root, ix.positions, {}, r.positions, {});
    }
  }

  lemma MapReplace(m: map<PlayerId, Vec3>, id: PlayerId, pos: Vec3)
    ensures (m - {id})[id := pos] == m[id := pos]
    ensures id !in m ==> m[id := pos] - {id} == m
  {}

  /** Moving a player, known or not, keeps the index consistent exactly when the point is in bounds. */
  lemma UpdateConsistentIff(ix: Index, id: PlayerId, pos: Vec3)
    requires Consistent(ix)
    ensures Consistent(Update(ix, id, pos)) <==> ix.root.bounds.Contains(pos)
    ensures Update(ix, id, pos).root.bounds == ix.root.bounds
    ensures Update(ix, id, pos).positions == ix.positions[id := pos]
  {
    RemoveConsistent(ix, id);
    InsertConsistentIff(Remove(ix, id), id, pos);
    MapReplace(ix.positions, id, pos);
  }

  /** Removing a player that was just inserted restores the map and the stored entries. */
  lemma RemoveUndoesInsert(ix: Index, id: PlayerId, pos: Vec3)
    requires Consistent(ix) && id !in ix.positions && ix.root.bounds.Contains(pos)
    ensures var r := Remove(Insert(ix, id, pos), id);
            Consistent(r) && r.positions == ix.positions && Bag(r.root) == Bag(ix.root)
  {
    InsertConsistent(ix, id, pos);
    RemoveConsistent(Insert(ix, id, pos), id);
    MapReplace(ix.positions, id, pos);
  }

  lemma FirstInsertion(b: Bounds, p: Vec3)
    requires b.Contains(p)
    ensures Insert(Empty(b), 1, p) == Index(Leaf(b, [1]), map[1 := p])
  {
    assert InsertNode(Leaf(b, []), 1, p, 0, map[1 := p]) == Leaf(b, [1]);
  }

  lemma SecondInsertion(b: Bounds, p: Vec3)
    requires b.Contains(p)
    ensures Insert(Index(Leaf(b, [1]), map[1 := p]), 1, p) == Index(Leaf(b, [1, 1]), map[1 := p])
  {
    assert (map[1 := p])[1 := p] == map[1 := p];
    assert InsertNode(Leaf(b, [1]), 1, p, 0, map[1 := p]) == Leaf(b, [1, 1]);
  }

  lemma StoredTwice(b: Bounds, p: Vec3)
    requires b.Contains(p)
    ensures multiset(Query(Index(Leaf(b, [1, 1]), map[1 := p]), p, 1.0))[1] == 2
  {
    QueryCount(Leaf(b, [1, 1]), map[1 := p], p, 1.0, 0, 1);
    assert Bag(Leaf(b, [1, 1]))[1] == 2;
  }

  /** The documented "insert or update" does not hold of Insert: inserting player 1 twice at the same
      point makes a query there report that player twice. */
  lemma InsertTwiceReportsTwice(b: Bounds, p: Vec3)
    requires b.Contains(p)
    ensures var ix := Insert(Insert(Empty(b), 1, p), 1, p);
            ix.positions == map[1 := p] && multiset(Query(ix, p, 1.0))[1] == 2
  {
    FirstInsertion(b, p);
    SecondInsertion(b, p);
    StoredTwice(b, p);
  }

  // ---------------------------------------------------------------- runs

  datatype Op = InsertOp(id: PlayerId, pos: Vec3) | RemoveOp(id: PlayerId) | UpdateOp(id: PlayerId, pos: Vec3) | ClearOp

  function Apply(ix: Index, op: Op): Index {
    match op
    case InsertOp(id, pos) => Insert(ix, id, pos)
    case RemoveOp(id) => Remove(ix, id)
    case UpdateOp(id, pos) => Update(ix, id, pos)
    case ClearOp => Clear(ix)
  }

  function Run(b: Bounds, ops: seq<Op>): Index {
    if ops == [] then Empty(b) else Apply(Run(b, ops[..|ops| - 1]), ops[|ops| - 1])
  }

  /** The reference: the same operations on a plain map. */
  function ApplyToMap(m: map<PlayerId, Vec3>, op: Op): map<PlayerId, Vec3> {
    match op
    case InsertOp(id, pos) => m[id := pos]
    case RemoveOp(id) => m - {id}
    case UpdateOp(id, pos) => m[id := pos]
    case ClearOp => map[]
  }

  function MapRun(ops: seq<Op>): map<PlayerId, Vec3> {
    if ops == [] then map[] else ApplyToMap(MapRun(ops[..|ops| - 1]), ops[|ops| - 1])
  }

  /** What a caller can check beforehand: points in bounds, and Insert only for new ids. */
  predicate Legal(b: Bounds, m: map<PlayerId, Vec3>, op: Op) {
    match op
    case InsertOp(id, pos) => id !in m && b.Contains(pos)
    case UpdateOp(_, pos) => b.Contains(pos)
    case _ => true
  }

  predicate LegalRun(b: Bounds, ops: seq<Op>) {
    ops == [] || (LegalRun(b, ops[..|ops| - 1]) && Legal(b, MapRun(ops[..|ops| - 1]), ops[|ops| - 1]))
  }

  lemma ApplyConsistentIff(ix: Index, op: Op)
    requires Consistent(ix)
    ensures Consistent(Apply(ix, op)) <==> Legal(ix.root.bounds, ix.positions, op)
    ensures Apply(ix, op).root.bounds == ix.root.bounds
    ensures Apply(ix, op).positions == ApplyToMap(ix.positions, op)
  {
    match op
    case InsertOp(id, pos) => InsertConsistentIff(ix, id, pos);
    case RemoveOp(id) => RemoveConsistent(ix, id);
    case UpdateOp(id, pos) => UpdateConsistentIff(ix, id, pos);
    case ClearOp => ClearConsistent(ix);
  }

  lemma ClearConsistent(ix: Index)
    ensures Consistent(Clear(ix))
  {
    var c := Clear(ix);
    assert Bag(c.root) == multiset{} && c.positions.Keys == {};
  }

  /** Every run of legal operations keeps the representation invariant and refines the plain map. */
  lemma {:induction false} RunRefinesMap(b: Bounds, ops: seq<Op>)
    requires LegalRun(b, ops)
    ensures var ix := Run(b, ops); Consistent(ix) && ix.positions == MapRun(ops) && ix.root.bounds == b
  {
    if ops == [] {
      assert Bag(Empty(b).root) == multiset{};
    } else {
      RunRefinesMap(b, ops[..|ops| - 1]);
      ApplyConsistentIff(Run(b, ops[..|ops| - 1]), ops[|ops| - 1]);
    }
  }

  ghost predicate ConsistentThroughout(b: Bounds, ops: seq<Op>) {
    Consistent(Run(b, ops)) && (ops == [] || ConsistentThroughout(b, ops[..|ops| - 1]))
  }

  /** A run stays consistent all along exactly when every operation in it was legal. */
  lemma {:induction false} RunConsistentIff(b: Bounds, ops: seq<Op>)
    ensures ConsistentThroughout(b, ops) <==> LegalRun(b, ops)
  {
    if ops == [] {
      RunRefinesMap(b, ops);
    } else {
      var front := ops[..|ops| - 1];
      RunConsistentIff(b, front);
      if LegalRun(b, front) {
        RunRefinesMap(b, front);
        ApplyConsistentIff(Run(b, front), ops[|ops| - 1]);
      }
    }
  }

  /** Pruned search after any legal run is a brute-force scan of the plain map. */
  lemma QueryAfterRun(b: Bounds, ops: seq<Op>, center: Vec3, radius: real)
    requires LegalRun(b, ops)
    ensures multiset(Query(Run(b, ops), center, radius)) == multiset(BruteForce(MapRun(ops), center, radius))
    ensures CountPlayers(Run(b, ops).root) == |MapRun(ops)|
  {
    RunRefinesMap(b, ops);
    QueryExact(Run(b, ops), center, radius);
    CountPlayersExact(Run(b, ops));
  }

  /** Every run at all, legal or not, keeps the shape. */
  lemma {:induction false} RunShape(b: Bounds, ops: seq<Op>)
    ensures Tiled(Run(b, ops).root, 0)
  {
    if ops != [] {
      RunShape(b, ops[..|ops| - 1]);
      ApplyShape(Run(b, ops[..|ops| - 1]), ops[|ops| - 1]);
    }
  }

  lemma ApplyShape(ix: Index, op: Op)
    requires Tiled(ix.root, 0)
    ensures Tiled(Apply(ix, op).root, 0)
    ensures !op.ClearOp? ==> CountNodes(ix.root) <= CountNodes(Apply(ix, op).root)
  {
    var kept := if op.UpdateOp? then Remove(ix, op.id) else ix;
    if (op.RemoveOp? || op.UpdateOp?) && op.id in ix.positions {
      RemoveShape(ix.root, op.id, ix.positions[op.id], 0);
    }
    if op.InsertOp? || op.UpdateOp? {
      InsertShape(kept.root, op.id, op.pos, 0, kept.positions[op.id := op.pos]);
    }
  }

  /** The node count over every run: 1 modulo 4, at most 5461, and never falling except at Clear. */
  lemma NodesOverRun(b: Bounds, ops: seq<Op>, op: Op)
    ensures var t := Run(b, ops).root;
            CountNodes(t) % 4 == 1 && CountNodes(t) <= 5461 && Height(t) <= 6
    ensures !op.ClearOp? ==> CountNodes(Run(b, ops).root) <= CountNodes(Run(b, ops + [op]).root)
  {
    RunShape(b, ops);
    NodeCountOneModFour(Run(b, ops).root);
    HeightBound(Run(b, ops).root, 0);
    NodeBound(Run(b, ops).root, 6);
    FullCountAtLimit();
    ApplyShape(Run(b, ops), op);
    assert (ops + [op])[..|ops|] == ops;
  }

  lemma FullCountAtLimit()
    ensures FullCount(6) == 5461
  {}
}
