/** The mutable quadtree: nodes on the heap, each owning its four children, beside the position map.
    Every method is proved to compute the operation of the same name in QuadTreeSpec. */
module QuadTree {
  import opened Geometry
  import opened QuadTreeSpec
  import opened QuadTreeLookups
  import QuadTreeProofs
  import QuadTreeCounts

  class Node {
    const bounds: Bounds
    var playerIds: seq<PlayerId>
    var nw: Node?
    var ne: Node?
    var sw: Node?
    var se: Node?

    // Ownership, fixed at creation: the one parent, the quadrant of it, and the distance to the root.
    ghost const parent: Node?
    ghost const quadrant: nat
    ghost const level: nat
    ghost var shape: Tree  // the subtree as a value

    ghost predicate Owns(child: Node?, q: nat, t: Tree, nodes: set<Node>)
      reads nodes
    {
      && child != null && child in nodes && child.shape == t && child.bounds == t.bounds
      && child.parent == this && child.quadrant == q && child.level == level + 1
    }

    /** This node's fields agree with its shape and with the shapes of its children. */
    ghost predicate Agrees(nodes: set<Node>)
      reads this, nodes
    {
      match shape
      case Leaf(b, ids) =>
        b == bounds && ids == playerIds && nw == null && ne == null && sw == null && se == null
      case Branch(b, t0, t1, t2, t3) =>
        && b == bounds && playerIds == []
        && Owns(nw, 0, t0, nodes) && Owns(ne, 1, t1, nodes)
        && Owns(sw, 2, t2, nodes) && Owns(se, 3, t3, nodes)
    }

    /** A node agrees as long as neither it nor a child of it changes. */
    twostate lemma StillAgrees(before: set<Node>, new after: set<Node>)
      requires before <= after && old(Agrees(before)) && unchanged(this)
      requires forall c :: c in before && c.parent == this && c.level == level + 1 ==> c.shape == old(c.shape)
      ensures Agrees(after)
    {}

    constructor (b: Bounds, ghost parent: Node?, ghost quadrant: nat, ghost level: nat)
      ensures shape == Leaf(b, []) && bounds == b && playerIds == [] && nw == ne == sw == se == null
      ensures this.parent == parent && this.quadrant == quadrant && this.level == level
    {
      bounds := b;
      playerIds := [];
      nw, ne, sw, se := null, null, null, null;
      shape := Leaf(b, []);
      this.parent, this.quadrant, this.level := parent, quadrant, level;
    }

    ghost predicate IsEmptyQuadrant(owner: Node, q: nat, b: Bounds)
      reads this
    {
      && bounds == b && shape == Leaf(b, []) && playerIds == [] && nw == ne == sw == se == null
      && parent == owner && quadrant == q && level == owner.level + 1
    }

    predicate IsLeaf()
      reads this
    {
      nw == null
    }
  }

  class QuadTree {
    var root: Node
    var positions: map<PlayerId, Vec3>
    ghost var nodes: set<Node>

    /** Every node at `level` or deeper agrees with its shape. During a recursive update the
        ancestors of the node being changed are out of date, and only they. */
    ghost predicate AgreeFrom(level: nat)
      reads this, nodes
    {
      forall n {:trigger n.Agrees(nodes)} :: n in nodes && n.level >= level ==> n.Agrees(nodes)
    }

    ghost predicate Valid()
      reads this, nodes
    {
      root in nodes && root.level == 0 && AgreeFrom(0)
    }

    /** The abstract value of the tree. */
    ghost function View(): Index
      reads this, root
    {
      Index(root.shape, positions)
    }

    constructor (b: Bounds)
      ensures Valid() && fresh(nodes) && View() == Empty(b)
    {
      root := new Node(b, null, 0, 0);
      positions := map[];
      new;
      nodes := {root};
    }

    /** Nodes were added, all of them below `node`. */
    twostate predicate GrewBelow(node: Node)
      reads this
    {
      old(nodes) <= nodes && forall n :: n in nodes && n !in old(nodes) ==> fresh(n) && n.level > node.level
    }

    /** `node` was changed, and nodes below it may have been; no other node at its level was. */
    twostate predicate OnlyBelow(node: Node)
      reads this, nodes
    {
      old(nodes) <= nodes && forall n :: n in old(nodes) && n.level <= node.level && n != node ==> unchanged(n)
    }

    /** Once the changed node agrees again, so do all nodes at its level. */
    twostate lemma OthersAgree(node: Node)
      requires old(AgreeFrom(node.level)) && GrewBelow(node) && OnlyBelow(node)
      requires forall n :: n in old(nodes) && n.level == node.level + 1 && n.parent != node ==> n.shape == old(n.shape)
      requires node.Agrees(nodes) && AgreeFrom(node.level + 1)
      ensures AgreeFrom(node.level)
    {
      forall n | n in nodes && n.level >= node.level
        ensures n.Agrees(nodes)
      {
        if n.level == node.level && n != node {
          assert n in old(nodes);
          n.StillAgrees(old(nodes), nodes);
        }
      }
    }

    twostate lemma AllAgree(node: Node)
      requires node in old(nodes) && old(AgreeFrom(node.level)) && GrewBelow(node) && node.Agrees(nodes)
      requires forall n :: n in old(nodes) && n != node ==> unchanged(n)
      requires forall n :: n in nodes && n !in old(nodes) ==> n.Agrees(nodes)
      ensures AgreeFrom(node.level)
    {
      forall n | n in nodes && n.level >= node.level
        ensures n.Agrees(nodes)
      {
        if n in old(nodes) && n != node {
          n.StillAgrees(old(nodes), nodes);
        }
      }
    }

    method CreateQuadrants(b: Bounds, ghost node: Node) returns (nw: Node, ne: Node, sw: Node, se: Node)
      ensures fresh({nw, ne, sw, se})
      ensures nw.IsEmptyQuadrant(node, 0, b.NW()) && ne.IsEmptyQuadrant(node, 1, b.NE())
      ensures sw.IsEmptyQuadrant(node, 2, b.SW()) && se.IsEmptyQuadrant(node, 3, b.SE())
    {
      var halfWidth, halfHeight := b.width * 0.5, b.height * 0.5;
      nw := new Node(Bounds(b.x, b.y, halfWidth, halfHeight), node, 0, node.level + 1);
      ne := new Node(Bounds(b.x + halfWidth, b.y, halfWidth, halfHeight), node, 1, node.level + 1);
      sw := new Node(Bounds(b.x, b.y + halfHeight, halfWidth, halfHeight), node, 2, node.level + 1);
      se := new Node(Bounds(b.x + halfWidth, b.y + halfHeight, halfWidth, halfHeight), node, 3, node.level + 1);
    }

    /** Rewriting the shape of a node does not touch the agreement of deeper ones. */
    ghost method SetShape(node: Node, t: Tree)
      requires node in nodes && AgreeFrom(node.level + 1)
      modifies node`shape
      ensures AgreeFrom(node.level + 1) && node.shape == t
    {
      node.shape := t;
      forall n | n in nodes && n.level >= node.level + 1
        ensures n.Agrees(nodes)
      {
        n.StillAgrees(nodes, nodes);
      }
    }

    /** Splits a leaf into four empty quadrants; its own ids are dropped. */
    method SubdivideNode(node: Node)
      requires node in nodes && AgreeFrom(node.level) && node.IsLeaf()
      modifies this`nodes, node
      ensures AgreeFrom(node.level) && GrewBelow(node) && OnlyBelow(node)
      ensures node.shape == Split(node.bounds)
    {
      var nw, ne, sw, se := CreateQuadrants(node.bounds, node);
      node.nw, node.ne, node.sw, node.se := nw, ne, sw, se;
      node.playerIds := [];
      node.shape := Split(node.bounds);
      nodes := nodes + {nw, ne, sw, se};
      AllAgree(node);
    }

    /** The position of a player being redistributed. A lookup in the map adds a missing id at the origin. */
    method PositionOf(pid: PlayerId, id: PlayerId, pos: Vec3) returns (p: Vec3)
      modifies this`positions
      ensures positions == Noted(old(positions), pid, id) && p == ReinsertAt(pid, id, pos, positions)
    {
      if pid == id {
        return pos;
      }
      if pid !in positions {
        positions := positions[pid := ORIGIN];
      }
      assert positions == Noted(old(positions), pid, id);
      return positions[pid];
    }

    method InsertIntoNode(node: Node, id: PlayerId, pos: Vec3, depth: nat)
      requires node in nodes && AgreeFrom(node.level)
      modifies this`nodes, this`positions, nodes
      ensures AgreeFrom(node.level) && GrewBelow(node)
      ensures OnlyBelow(node)
      ensures node.shape == InsertNode(old(node.shape), id, pos, depth, old(positions))
      ensures positions == InsertMap(old(node.shape), id, pos, depth, old(positions))
      decreases 2 * Levels(depth), node.shape, 1
    {
      assert node.Agrees(nodes);
      if node.IsLeaf() {
        var toReinsert := node.playerIds + [id];
        if |toReinsert| > MAX_PLAYERS_PER_NODE && depth < MAX_DEPTH {
          SubdivideNode(node);
          Redistribute(node, toReinsert, id, pos, depth + 1);
        } else {
          node.playerIds := toReinsert;
          node.shape := Leaf(node.bounds, toReinsert);
          AllAgree(node);
        }
      } else {
        InsertIntoChild(node, id, pos, depth + 1);
      }
    }

    /** The loop that puts the players of a split leaf into its quadrants. */
    method Redistribute(node: Node, toReinsert: seq<PlayerId>, id: PlayerId, pos: Vec3, below: nat)
      requires node in nodes && AgreeFrom(node.level) && node.shape.Branch?
      modifies this`nodes, this`positions, nodes
      ensures AgreeFrom(node.level) && GrewBelow(node)
      ensures OnlyBelow(node)
      ensures node.shape == Reinsert(old(node.shape), toReinsert, id, pos, below, old(positions))
      ensures positions == ReinsertMap(old(node.shape), toReinsert, id, pos, below, old(positions))
      decreases 2 * Levels(below) + 1, node.shape, 0
    {
      ghost var split := node.shape;
      for i := 0 to |toReinsert|
        invariant AgreeFrom(node.level) && GrewBelow(node)
        invariant OnlyBelow(node)
        invariant node.shape == Reinsert(split, toReinsert[..i], id, pos, below, old(positions))
        invariant positions == ReinsertMap(split, toReinsert[..i], id, pos, below, old(positions))
      {
        var pid := toReinsert[i];
        assert toReinsert[..i + 1] == toReinsert[..i] + [pid];
        ReinsertOne(split, toReinsert[..i], pid, id, pos, below, old(positions));
        var playerPos := PositionOf(pid, id, pos);
        InsertIntoChild(node, pid, playerPos, below);
      }
      assert toReinsert[..|toReinsert|] == toReinsert;
    }

    method InsertIntoChild(node: Node, id: PlayerId, pos: Vec3, below: nat)
      requires node in nodes && AgreeFrom(node.level) && node.shape.Branch?
      modifies this`nodes, this`positions, nodes
      ensures AgreeFrom(node.level) && GrewBelow(node)
      ensures OnlyBelow(node)
      ensures node.shape == InsertBelow(old(node.shape), id, pos, below, old(positions))
      ensures positions == BelowMap(old(node.shape), id, pos, below, old(positions))
      decreases 2 * Levels(below), node.shape, 0
    {
      assert node.Agrees(nodes);
      if node.nw.bounds.Contains(pos) {
        InsertIntoNode(node.nw, id, pos, below);
        SetShape(node, node.shape.(nw := node.nw.shape));
      } else if node.ne.bounds.Contains(pos) {
        InsertIntoNode(node.ne, id, pos, below);
        SetShape(node, node.shape.(ne := node.ne.shape));
      } else if node.sw.bounds.Contains(pos) {
        InsertIntoNode(node.sw, id, pos, below);
        SetShape(node, node.shape.(sw := node.sw.shape));
      } else if node.se.bounds.Contains(pos) {
        InsertIntoNode(node.se, id, pos, below);
        SetShape(node, node.shape.(se := node.se.shape));
      }
      OthersAgree(node);
    }

    method RemoveFromNode(node: Node, id: PlayerId, pos: Vec3) returns (found: bool)
      requires node in nodes && AgreeFrom(node.level)
      modifies nodes
      ensures AgreeFrom(node.level) && OnlyBelow(node)
      ensures !found ==> forall n :: n in nodes ==> unchanged(n)
      ensures (node.shape, found) == RemoveNode(old(node.shape), id, pos)
      decreases node.shape, 2
    {
      assert node.Agrees(nodes);
      if !node.bounds.Contains(pos) {
        return false;
      }
      if node.IsLeaf() {
        found := RemoveFromLeaf(node, id);
      } else {
        found := RemoveFromChildren(node, id, pos);
      }
    }

    method RemoveFromLeaf(node: Node, id: PlayerId) returns (found: bool)
      requires node in nodes && AgreeFrom(node.level) && node.shape.Leaf?
      modifies node
      ensures AgreeFrom(node.level) && node.shape.Leaf?
      ensures found == (Find(old(node.shape).ids, id) < |old(node.shape).ids|)
      ensures if found then node.shape == Leaf(node.bounds, EraseAt(old(node.shape).ids, Find(old(node.shape).ids, id)))
              else unchanged(node)
    {
      assert node.Agrees(nodes);
      var i := FindId(node.playerIds, id);
      found := i < |node.playerIds|;
      if found {
        node.playerIds := EraseAt(node.playerIds, i);
        node.shape := Leaf(node.bounds, node.playerIds);
        AllAgree(node);
      }
    }

    /** The short-circuit disjunction of two removals in sibling nodes. */
    method RemoveFromEither(a: Node, b: Node, id: PlayerId, pos: Vec3, ghost whole: Tree) returns (found: bool)
      requires a in nodes && b in nodes && a != b && a.level == b.level && AgreeFrom(a.level)
      requires a.shape < whole && b.shape < whole
      modifies nodes
      ensures AgreeFrom(a.level)
      ensures forall n :: n in nodes && n.level <= a.level && n != a && n != b ==> unchanged(n)
      ensures !found ==> forall n :: n in nodes ==> unchanged(n)
      ensures var first := RemoveNode(old(a.shape), id, pos);
              var second := RemoveNode(old(b.shape), id, pos);
              && a.shape == first.0 && b.shape == (if first.1 then old(b.shape) else second.0)
              && found == (first.1 || second.1)
      decreases whole, 0
    {
      found := RemoveFromNode(a, id, pos);
      if !found {
        found := RemoveFromNode(b, id, pos);
      }
    }

    /** The four recursive calls, each made only if the ones before it found nothing. */
    method RemoveFromChildren(node: Node, id: PlayerId, pos: Vec3) returns (found: bool)
      requires node in nodes && AgreeFrom(node.level) && node.shape.Branch? && node.bounds.Contains(pos)
      modifies nodes
      ensures AgreeFrom(node.level) && OnlyBelow(node)
      ensures !found ==> forall n :: n in nodes ==> unchanged(n)
      ensures (node.shape, found) == RemoveNode(old(node.shape), id, pos)
      decreases node.shape, 1
    {
      assert node.Agrees(nodes);
      found := RemoveFromEither(node.nw, node.ne, id, pos, node.shape);
      if !found {
        found := RemoveFromEither(node.sw, node.se, id, pos, node.shape);
      }
      if found {
        SetShape(node, Branch(node.bounds, node.nw.shape, node.ne.shape, node.sw.shape, node.se.shape));
        OthersAgree(node);
      }
    }

    /** Appends the ids of a leaf whose recorded position is in the circle; unknown ids are skipped. */
    method ScanLeaf(ids: seq<PlayerId>, center: Vec3, radius: real, found: seq<PlayerId>) returns (result: seq<PlayerId>)
      ensures result == found + Hits(ids, positions, center, radius)
    {
      result := found;
      for i := 0 to |ids|
        invariant result == found + Hits(ids[..i], positions, center, radius)
      {
        assert ids[..i + 1][..i] == ids[..i];
        if ids[i] in positions && DistSq(positions[ids[i]], center) <= radius * radius {
          result := result + [ids[i]];
        }
      }
      assert ids[..|ids|] == ids;
    }

    lemma QueryOfBranch(t: Tree, center: Vec3, radius: real, m: map<PlayerId, Vec3>, found: seq<PlayerId>)
      requires t.Branch? && t.bounds.Intersects(center, radius)
      ensures found + QuadTreeSpec.QueryNode(t, center, radius, m) ==
              found + QuadTreeSpec.QueryNode(t.nw, center, radius, m) + QuadTreeSpec.QueryNode(t.ne, center, radius, m) +
              QuadTreeSpec.QueryNode(t.sw, center, radius, m) + QuadTreeSpec.QueryNode(t.se, center, radius, m)
    {}

    method QueryNode(node: Node, center: Vec3, radius: real, found: seq<PlayerId>) returns (result: seq<PlayerId>)
      requires node in nodes && AgreeFrom(node.level)
      ensures result == found + QuadTreeSpec.QueryNode(node.shape, center, radius, positions)
      decreases node.shape
    {
      assert node.Agrees(nodes);
      result := found;
      if !node.bounds.Intersects(center, radius) {
        return;
      }
      if node.IsLeaf() {
        result := ScanLeaf(node.playerIds, center, radius, result);
      } else {
        QueryOfBranch(node.shape, center, radius, positions, found);
        result := QueryNode(node.nw, center, radius, result);
        result := QueryNode(node.ne, center, radius, result);
        result := QueryNode(node.sw, center, radius, result);
        result := QueryNode(node.se, center, radius, result);
      }
    }

    method CountNodes(node: Node) returns (count: nat)
      requires node in nodes && AgreeFrom(node.level)
      ensures count == QuadTreeSpec.CountNodes(node.shape) == |QuadTreeCounts.Paths(node.shape)|
      decreases node.shape
    {
      QuadTreeCounts.CountIsPaths(node.shape);
      assert node.Agrees(nodes);
      count := 1;
      if !node.IsLeaf() {
        var a := CountNodes(node.nw);
        var b := CountNodes(node.ne);
        var c := CountNodes(node.sw);
        var d := CountNodes(node.se);
        count := count + a + b + c + d;
      }
    }

    method CountPlayers(node: Node) returns (count: nat)
      requires node in nodes && AgreeFrom(node.level)
      ensures count == QuadTreeSpec.CountPlayers(node.shape) == |Bag(node.shape)|
      decreases node.shape
    {
      QuadTreeProofs.CountIsBagSize(node.shape);
      assert node.Agrees(nodes);
      count := |node.playerIds|;
      if !node.IsLeaf() {
        var a := CountPlayers(node.nw);
        var b := CountPlayers(node.ne);
        var c := CountPlayers(node.sw);
        var d := CountPlayers(node.se);
        count := count + a + b + c + d;
      }
    }

    method Insert(id: PlayerId, pos: Vec3)
      requires Valid()
      modifies this, nodes
      ensures Valid() && old(nodes) <= nodes && fresh(nodes - old(nodes))
      ensures View() == QuadTreeSpec.Insert(old(View()), id, pos)
    {
      positions := positions[id := pos];
      InsertIntoNode(root, id, pos, 0);
    }

    method Remove(id: PlayerId)
      requires Valid()
      modifies this, nodes
      ensures Valid() && nodes == old(nodes)
      ensures View() == QuadTreeSpec.Remove(old(View()), id)
    {
      if id in positions {
        var pos := positions[id];
        positions := positions - {id};
        var _ := RemoveFromNode(root, id, pos);
      }
    }

    method Update(id: PlayerId, newPosition: Vec3)
      requires Valid()
      modifies this, nodes
      ensures Valid() && old(nodes) <= nodes && fresh(nodes - old(nodes))
      ensures View() == QuadTreeSpec.Update(old(View()), id, newPosition)
    {
      Remove(id);
      Insert(id, newPosition);
    }

    method Query(center: Vec3, radius: real) returns (result: seq<PlayerId>)
      requires Valid()
      ensures result == QuadTreeSpec.Query(View(), center, radius)
      ensures Consistent(View()) ==> multiset(result) == multiset(BruteForce(positions, center, radius))
    {
      result := QueryNode(root, center, radius, []);
      if Consistent(View()) {
        QuadTreeProofs.QueryExact(View(), center, radius);
      }
    }

    method GetTotalNodes() returns (count: nat)
      requires Valid()
      ensures count == |QuadTreeCounts.Paths(View().root)|
    {
      count := CountNodes(root);
    }

    method GetTotalPlayers() returns (count: nat)
      requires Valid()
      ensures count == |positions|
      ensures Consistent(View()) ==> count == QuadTreeSpec.CountPlayers(View().root)
    {
      count := |positions|;
      if Consistent(View()) {
        QuadTreeProofs.CountPlayersExact(View());
      }
    }

    method Clear()
      requires Valid()
      modifies this, nodes
      ensures Valid() && nodes <= old(nodes)
      ensures View() == QuadTreeSpec.Clear(old(View()))
    {
      assert root.Agrees(nodes);
      positions := map[];
      root.playerIds := [];
      root.nw, root.ne, root.sw, root.se := null, null, null, null;
      root.shape := Leaf(root.bounds, []);
      nodes := {root};
    }
  }

  /** A linear search, as `std::find` does it. */
  method FindId(ids: seq<PlayerId>, id: PlayerId) returns (i: nat)
    ensures i == Find(ids, id)
  {
    i := 0;
    while i < |ids| && ids[i] != id
      invariant i <= Find(ids, id)
    {
      i := i + 1;
    }
  }

  /** Construction, which throws for a rectangle without extent. */
  method Create(x: real, y: real, width: real, height: real) returns (r: Result)
    ensures r.Ok? <==> width > 0.0 && height > 0.0
    ensures r.Ok? ==> fresh(r.tree) && r.tree.Valid() && fresh(r.tree.nodes) && r.tree.View() == Empty(Bounds(x, y, width, height))
  {
    if width <= 0.0 || height <= 0.0 {
      return InvalidArgument("QuadTree bounds must have positive width and height");
    }
    var t := new QuadTree(Bounds(x, y, width, height));
    return Ok(t);
  }

  datatype Result = Ok(tree: QuadTree) | InvalidArgument(message: string)
}
