/** What the tree counts: nodes as paths of quadrants from the root, and when a leaf splits. */
module QuadTreeCounts {
  import opened Geometry
  import opened QuadTreeSpec

  /** A path takes the child 0, 1, 2 or 3 of each node: north-west, north-east, south-west, south-east. */
  type Path = seq<nat>

  function Child(t: Tree, q: nat): Tree
    requires t.Branch? && q < 4
  {
    if q == 0 then t.nw else if q == 1 then t.ne else if q == 2 then t.sw else t.se
  }

  /** The path leads from the root of the tree to a node of it. */
  predicate LeadsToNode(t: Tree, path: Path) {
    path == [] || (t.Branch? && path[0] < 4 && LeadsToNode(Child(t, path[0]), path[1..]))
  }

  function Below(q: nat, paths: set<Path>): set<Path> { set p | p in paths :: [q] + p }

  function Paths(t: Tree): set<Path> {
    match t
    case Leaf(_, _) => {[]}
    case Branch(_, nw, ne, sw, se) =>
      {[]} + Below(0, Paths(nw)) + Below(1, Paths(ne)) + Below(2, Paths(sw)) + Below(3, Paths(se))
  }

  lemma {:induction false} PathsExact(t: Tree, path: Path)
    ensures path in Paths(t) <==> LeadsToNode(t, path)
  {
    if t.Branch? && path != [] {
      var q, rest := path[0], path[1..];
      assert path == [q] + rest;
      if q < 4 { PathsExact(Child(t, q), rest); }
      BelowHas(0, Paths(t.nw), path);
      BelowHas(1, Paths(t.ne), path);
      BelowHas(2, Paths(t.sw), path);
      BelowHas(3, Paths(t.se), path);
    }
  }

  lemma BelowHas(q: nat, paths: set<Path>, path: Path)
    requires path != []
    ensures path in Below(q, paths) <==> path[0] == q && path[1..] in paths
  {
    assert path == [path[0]] + path[1..];
    if path in Below(q, paths) {
      var p :| p in paths && path == [q] + p;
      assert path[1..] == p;
    }
  }

  lemma {:induction false} BelowSize(q: nat, paths: set<Path>)
    ensures |Below(q, paths)| == |paths|
  {
    if paths != {} {
      var p :| p in paths;
      BelowSize(q, paths - {p});
      assert [q] + p !in Below(q, paths - {p}) by { BelowHas(q, paths - {p}, [q] + p); assert ([q] + p)[1..] == p; }
      assert Below(q, paths) == Below(q, paths - {p}) + {[q] + p};
    }
  }

  lemma FourBelow(a: set<Path>, b: set<Path>, c: set<Path>, d: set<Path>)
    ensures |{[]} + Below(0, a) + Below(1, b) + Below(2, c) + Below(3, d)| == 1 + |a| + |b| + |c| + |d|
  {
    BelowSize(0, a);
    BelowSize(1, b);
    BelowSize(2, c);
    BelowSize(3, d);
    FirstStep(0, a);
    FirstStep(1, b);
    FirstStep(2, c);
    FirstStep(3, d);
  }

  lemma FirstStep(q: nat, paths: set<Path>)
    ensures forall p :: p in Below(q, paths) ==> p != [] && p[0] == q
  {}

  lemma {:induction false} CountIsPaths(t: Tree)
    ensures CountNodes(t) == |Paths(t)|
  {
    if t.Branch? {
      CountIsPaths(t.nw);
      CountIsPaths(t.ne);
      CountIsPaths(t.sw);
      CountIsPaths(t.se);
      FourBelow(Paths(t.nw), Paths(t.ne), Paths(t.sw), Paths(t.se));
    }
  }

  /** The node count of a tree is the number of paths that lead to a node of it. */
  lemma CountsNodes(t: Tree, nodes: set<Path>)
    requires forall path :: path in nodes <==> LeadsToNode(t, path)
    ensures CountNodes(t) == |nodes|
  {
    CountIsPaths(t);
    forall path ensures path in nodes <==> path in Paths(t) { PathsExact(t, path); }
    assert nodes == Paths(t);
  }

  /** A leaf splits exactly for a fifth player above depth six; otherwise it keeps all its players and the new
      one. */
  lemma SplitsIff(b: Bounds, ids: seq<PlayerId>, id: PlayerId, pos: Vec3, depth: nat, m: map<PlayerId, Vec3>)
    ensures var r := InsertNode(Leaf(b, ids), id, pos, depth, m);
            && (r.Branch? <==> |ids| >= 4 && depth < 6)
            && (r.Leaf? ==> r == Leaf(b, ids + [id]))
  {}
}
