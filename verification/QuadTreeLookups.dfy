/** Position lookups during an insertion: an id without a position is added at the origin. What this
    changes for the tree, and that it never happens while every stored id has a position. */
module QuadTreeLookups {
  import opened Geometry
  import opened QuadTreeSpec

  /** The maps differ at most in ids recorded at the origin. */
  ghost predicate SameLookups(m: map<PlayerId, Vec3>, n: map<PlayerId, Vec3>) {
    forall x: PlayerId {:trigger Lookup(n, x)} :: Lookup(m, x) == Lookup(n, x)
  }

  // ---------------------------------------------------------------- the tree depends on lookups only

  lemma {:induction false} InsertNodeSame(t: Tree, id: PlayerId, pos: Vec3, depth: nat, m: map<PlayerId, Vec3>, n: map<PlayerId, Vec3>)
    requires SameLookups(m, n)
    ensures InsertNode(t, id, pos, depth, m) == InsertNode(t, id, pos, depth, n)
    decreases 2 * Levels(depth), t, 1
  {
    if t.Branch? {
      InsertBelowSame(t, id, pos, depth + 1, m, n);
    } else if |t.ids| + 1 > MAX_PLAYERS_PER_NODE && depth < MAX_DEPTH {
      ReinsertSame(Split(t.bounds), t.ids + [id], id, pos, depth + 1, m, n);
    }
  }

  lemma {:induction false} InsertBelowSame(t: Tree, id: PlayerId, pos: Vec3, below: nat, m: map<PlayerId, Vec3>, n: map<PlayerId, Vec3>)
    requires t.Branch? && SameLookups(m, n)
    ensures InsertBelow(t, id, pos, below, m) == InsertBelow(t, id, pos, below, n)
    decreases 2 * Levels(below), t, 0
  {
    InsertNodeSame(t.nw, id, pos, below, m, n);
    InsertNodeSame(t.ne, id, pos, below, m, n);
    InsertNodeSame(t.sw, id, pos, below, m, n);
    InsertNodeSame(t.se, id, pos, below, m, n);
  }

  lemma {:induction false} ReinsertSame(t: Tree, ids: seq<PlayerId>, id: PlayerId, pos: Vec3, below: nat, m: map<PlayerId, Vec3>,
                                        n: map<PlayerId, Vec3>)
    requires t.Branch? && SameLookups(m, n)
    ensures Reinsert(t, ids, id, pos, below, m) == Reinsert(t, ids, id, pos, below, n)
    decreases 2 * Levels(below) + 1, |ids|
  {
    if ids != [] {
      var k := |ids| - 1;
      ReinsertSame(t, ids[..k], id, pos, below, m, n);
      assert Lookup(m, ids[k]) == Lookup(n, ids[k]);
      InsertBelowSame(Reinsert(t, ids[..k], id, pos, below, m), ids[k], ReinsertAt(ids[k], id, pos, m), below, m, n);
    }
  }

  // ---------------------------------------------------------------- lookups are not changed

  lemma NotedSame(m: map<PlayerId, Vec3>, n: map<PlayerId, Vec3>, pid: PlayerId, id: PlayerId)
    requires SameLookups(m, n)
    ensures SameLookups(m, Noted(n, pid, id))
  {
    forall x: PlayerId ensures Lookup(m, x) == Lookup(Noted(n, pid, id), x) { assert Lookup(m, x) == Lookup(n, x); }
  }

  lemma {:induction false} InsertMapSame(t: Tree, id: PlayerId, pos: Vec3, depth: nat, m: map<PlayerId, Vec3>, n: map<PlayerId, Vec3>)
    requires SameLookups(m, n)
    ensures SameLookups(m, InsertMap(t, id, pos, depth, n))
    decreases 2 * Levels(depth), t, 1
  {
    if t.Branch? {
      BelowMapSame(t, id, pos, depth + 1, m, n);
    } else if |t.ids| + 1 > MAX_PLAYERS_PER_NODE && depth < MAX_DEPTH {
      ReinsertMapSame(Split(t.bounds), t.ids + [id], id, pos, depth + 1, m, n);
    }
  }

  lemma {:induction false} BelowMapSame(t: Tree, id: PlayerId, pos: Vec3, below: nat, m: map<PlayerId, Vec3>, n: map<PlayerId, Vec3>)
    requires t.Branch? && SameLookups(m, n)
    ensures SameLookups(m, BelowMap(t, id, pos, below, n))
    decreases 2 * Levels(below), t, 0
  {
    InsertMapSame(t.nw, id, pos, below, m, n);
    InsertMapSame(t.ne, id, pos, below, m, n);
    InsertMapSame(t.sw, id, pos, below, m, n);
    InsertMapSame(t.se, id, pos, below, m, n);
  }

  lemma {:induction false} ReinsertMapSame(t: Tree, ids: seq<PlayerId>, id: PlayerId, pos: Vec3, below: nat, m: map<PlayerId, Vec3>,
                                           n: map<PlayerId, Vec3>)
    requires t.Branch? && SameLookups(m, n)
    ensures SameLookups(m, ReinsertMap(t, ids, id, pos, below, n))
    decreases 2 * Levels(below) + 1, |ids|
  {
    if ids != [] {
      var k := |ids| - 1;
      ReinsertMapSame(t, ids[..k], id, pos, below, m, n);
      var noted := ReinsertMap(t, ids[..k], id, pos, below, n);
      NotedSame(m, noted, ids[k], id);
      BelowMapSame(Reinsert(t, ids[..k], id, pos, below, n), ids[k], ReinsertAt(ids[k], id, pos, n), below, m, Noted(noted, ids[k], id));
    }
  }

  /** One round of the redistribution loop, with the positions as they are by then. */
  lemma ReinsertOne(t: Tree, ids: seq<PlayerId>, pid: PlayerId, id: PlayerId, pos: Vec3, below: nat, m: map<PlayerId, Vec3>)
    requires t.Branch?
    ensures var n := Noted(ReinsertMap(t, ids, id, pos, below, m), pid, id);
            var sub := Reinsert(t, ids, id, pos, below, m);
            var at := ReinsertAt(pid, id, pos, n);
            && Lookup(ReinsertMap(t, ids, id, pos, below, m), pid) == Lookup(m, pid)
            && Reinsert(t, ids + [pid], id, pos, below, m) == InsertBelow(sub, pid, at, below, n)
            && ReinsertMap(t, ids + [pid], id, pos, below, m) == BelowMap(sub, pid, at, below, n)
  {
    var seen := ReinsertMap(t, ids, id, pos, below, m);
    var n := Noted(seen, pid, id);
    ReinsertMapSame(t, ids, id, pos, below, m, m);
    NotedSame(m, seen, pid, id);
    assert Lookup(m, pid) == Lookup(seen, pid) && Lookup(m, pid) == Lookup(n, pid);
    InsertBelowSame(Reinsert(t, ids, id, pos, below, m), pid, ReinsertAt(pid, id, pos, m), below, m, n);
    assert (ids + [pid])[..|ids|] == ids;
  }

  // ---------------------------------------------------------------- nothing is added to a complete map

  /** Every stored id has a position. */
  predicate Tracked(t: Tree, m: map<PlayerId, Vec3>) {
    match t
    case Leaf(_, ids) => forall x :: x in ids ==> x in m
    case Branch(_, nw, ne, sw, se) => Tracked(nw, m) && Tracked(ne, m) && Tracked(sw, m) && Tracked(se, m)
  }

  lemma {:induction false} InsertTracked(t: Tree, id: PlayerId, pos: Vec3, depth: nat, m: map<PlayerId, Vec3>)
    requires Tracked(t, m) && id in m
    ensures Tracked(InsertNode(t, id, pos, depth, m), m) && InsertMap(t, id, pos, depth, m) == m
    decreases 2 * Levels(depth), t, 1
  {
    if t.Branch? {
      BelowTracked(t, id, pos, depth + 1, m);
    } else if |t.ids| + 1 > MAX_PLAYERS_PER_NODE && depth < MAX_DEPTH {
      ReinsertTracked(Split(t.bounds), t.ids + [id], id, pos, depth + 1, m);
    }
  }

  lemma {:induction false} BelowTracked(t: Tree, id: PlayerId, pos: Vec3, below: nat, m: map<PlayerId, Vec3>)
    requires t.Branch? && Tracked(t, m) && id in m
    ensures Tracked(InsertBelow(t, id, pos, below, m), m) && BelowMap(t, id, pos, below, m) == m
    decreases 2 * Levels(below), t, 0
  {
    InsertTracked(t.nw, id, pos, below, m);
    InsertTracked(t.ne, id, pos, below, m);
    InsertTracked(t.sw, id, pos, below, m);
    InsertTracked(t.se, id, pos, below, m);
  }

  lemma {:induction false} ReinsertTracked(t: Tree, ids: seq<PlayerId>, id: PlayerId, pos: Vec3, below: nat, m: map<PlayerId, Vec3>)
    requires t.Branch? && Tracked(t, m) && forall x :: x in ids ==> x in m
    ensures Tracked(Reinsert(t, ids, id, pos, below, m), m) && ReinsertMap(t, ids, id, pos, below, m) == m
    decreases 2 * Levels(below) + 1, |ids|
  {
    if ids != [] {
      var k := |ids| - 1;
      ReinsertTracked(t, ids[..k], id, pos, below, m);
      assert Noted(m, ids[k], id) == m;
      BelowTracked(Reinsert(t, ids[..k], id, pos, below, m), ids[k], ReinsertAt(ids[k], id, pos, m), below, m);
    }
  }

  lemma {:induction false} TrackedByBag(t: Tree, m: map<PlayerId, Vec3>)
    requires forall x :: x in Bag(t) ==> x in m
    ensures Tracked(t, m)
  {
    if t.Branch? {
      TrackedByBag(t.nw, m);
      TrackedByBag(t.ne, m);
      TrackedByBag(t.sw, m);
      TrackedByBag(t.se, m);
    }
  }

  /** On a consistent index an insertion records the new position and nothing else. */
  lemma InsertRecords(ix: Index, id: PlayerId, pos: Vec3)
    requires Consistent(ix)
    ensures Insert(ix, id, pos).positions == ix.positions[id := pos]
  {
    var m := ix.positions[id := pos];
    forall x | x in Bag(ix.root) ensures x in m { assert x in multiset(ix.positions.Keys); }
    TrackedByBag(ix.root, m);
    InsertTracked(ix.root, id, pos, 0, m);
  }
}
