/** What callers see of the quadtree: exactly which trees answer every query right, and exactly when an
    insertion leads to one. This allows more than the representation invariant: a point on the high edge
    of the map is found as long as it is stored in a node that reaches that edge. */
module QuadTreeQueries {
  import opened Geometry
  import opened QuadTreeSpec
  import opened QuadTreeLookups
  import opened QuadTreeProofs

  /** The point is in the rectangle or on any of its edges. */
  predicate Touches(b: Bounds, p: Vec3) { b.x <= p.x <= b.x + b.width && b.y <= p.y <= b.y + b.height }

  predicate Proper(b: Bounds) { 0.0 <= b.width && 0.0 <= b.height }

  /** The ids stored in leaves that touch the point, as often as they are stored there. */
  function Seen(t: Tree, p: Vec3): multiset<PlayerId> {
    match t
    case Leaf(b, ids) => if Touches(b, p) then multiset(ids) else multiset{}
    case Branch(_, nw, ne, sw, se) => Seen(nw, p) + Seen(ne, p) + Seen(sw, p) + Seen(se, p)
  }

  /** How often an id is stored. */
  function Stored(t: Tree, x: PlayerId): nat {
    match t
    case Leaf(_, ids) => multiset(ids)[x]
    case Branch(_, nw, ne, sw, se) => Stored(nw, x) + Stored(ne, x) + Stored(sw, x) + Stored(se, x)
  }

  lemma {:induction false} StoredIsBag(t: Tree, x: PlayerId)
    ensures Stored(t, x) == Bag(t)[x]
  {
    if t.Branch? {
      StoredIsBag(t.nw, x);
      StoredIsBag(t.ne, x);
      StoredIsBag(t.sw, x);
      StoredIsBag(t.se, x);
    }
  }

  /** How often a query reports an id. */
  function Reports(t: Tree, m: map<PlayerId, Vec3>, center: Vec3, radius: real, x: PlayerId): nat {
    multiset(QueryNode(t, center, radius, m))[x]
  }

  /** Every query, of any circle, answers as a scan of the map. */
  ghost predicate AlwaysExact(ix: Index) {
    forall center: Vec3, radius: real ::
      multiset(Query(ix, center, radius)) == multiset(BruteForce(ix.positions, center, radius))
  }

  // ---------------------------------------------------------------- circles of radius 0 and large ones

  lemma TouchesIsIntersects(b: Bounds, p: Vec3)
    requires Proper(b)
    ensures b.Intersects(p, 0.0) <==> Touches(b, p)
  {
    var dx, dy := p.x - Max(b.x, Min(p.x, b.x + b.width)), p.y - Max(b.y, Min(p.y, b.y + b.height));
    assert Sq(dx) + Sq(dy) <= 0.0 <==> dx == 0.0 && dy == 0.0 by { SumOfSquares(dx, dy); }
  }

  lemma SumOfSquares(a: real, b: real)
    ensures Sq(a) + Sq(b) <= 0.0 <==> a == 0.0 && b == 0.0
  {
    SqNonNegative(a);
    SqNonNegative(b);
    SqPositive(a);
    SqPositive(b);
  }

  lemma SqPositive(a: real)
    ensures a != 0.0 ==> 0.0 < Sq(a)
  {
    if a > 0.0 { SqStrict(0.0, a); } else if a < 0.0 { SqStrict(0.0, -a); }
  }

  lemma ClampTouching(lo: real, hi: real, c: real, p: real)
    requires lo <= p <= hi
    ensures Sq(c - Max(lo, Min(c, hi))) <= Sq(p - c)
  {
    var d := c - Max(lo, Min(c, hi));
    SqWithin(d, if p < c then c - p else p - c);
    assert Sq(c - p) == Sq(p - c);
  }

  /** A rectangle that touches a point of the circle is not pruned. */
  lemma TouchedNotPruned(b: Bounds, p: Vec3, center: Vec3, radius: real)
    requires Touches(b, p) && DistSq(p, center) <= radius * radius
    ensures b.Intersects(center, radius)
  {
    ClampTouching(b.x, b.x + b.width, center.x, p.x);
    ClampTouching(b.y, b.y + b.height, center.y, p.y);
  }

  lemma QuadrantTouches(b: Bounds, p: Vec3)
    requires Proper(b)
    ensures Touches(b.NW(), p) || Touches(b.NE(), p) || Touches(b.SW(), p) || Touches(b.SE(), p) ==> Touches(b, p)
    ensures Proper(b.NW()) && Proper(b.NE()) && Proper(b.SW()) && Proper(b.SE())
  {}

  lemma {:induction false} SeenTouches(t: Tree, depth: nat, p: Vec3, x: PlayerId)
    requires Tiled(t, depth) && Proper(t.bounds) && x in Seen(t, p)
    ensures Touches(t.bounds, p)
  {
    if t.Branch? {
      QuadrantTouches(t.bounds, p);
      if x in Seen(t.nw, p) { SeenTouches(t.nw, depth + 1, p, x); }
      else if x in Seen(t.ne, p) { SeenTouches(t.ne, depth + 1, p, x); }
      else if x in Seen(t.sw, p) { SeenTouches(t.sw, depth + 1, p, x); }
      else { SeenTouches(t.se, depth + 1, p, x); }
    }
  }

  lemma ReportsBranch(t: Tree, m: map<PlayerId, Vec3>, center: Vec3, radius: real, x: PlayerId)
    requires t.Branch? && t.bounds.Intersects(center, radius)
    ensures Reports(t, m, center, radius, x) ==
            Reports(t.nw, m, center, radius, x) + Reports(t.ne, m, center, radius, x) +
            Reports(t.sw, m, center, radius, x) + Reports(t.se, m, center, radius, x)
  {}

  /** A query reports an id in its circle at least where it is seen and at most where it is stored. */
  lemma {:induction false} ReportsBounds(t: Tree, depth: nat, m: map<PlayerId, Vec3>, center: Vec3, radius: real, x: PlayerId)
    requires Tiled(t, depth) && Proper(t.bounds) && IsHit(x, m, center, radius)
    ensures Seen(t, m[x])[x] <= Reports(t, m, center, radius, x) <= Bag(t)[x]
  {
    if !t.bounds.Intersects(center, radius) {
      if x in Seen(t, m[x]) {
        SeenTouches(t, depth, m[x], x);
        TouchedNotPruned(t.bounds, m[x], center, radius);
      }
    } else if t.Leaf? {
      HitsCount(t.ids, m, center, radius, x);
    } else {
      QuadrantTouches(t.bounds, m[x]);
      ReportsBranch(t, m, center, radius, x);
      ReportsBounds(t.nw, depth + 1, m, center, radius, x);
      ReportsBounds(t.ne, depth + 1, m, center, radius, x);
      ReportsBounds(t.sw, depth + 1, m, center, radius, x);
      ReportsBounds(t.se, depth + 1, m, center, radius, x);
    }
  }

  lemma {:induction false} NoHitNoReport(t: Tree, m: map<PlayerId, Vec3>, center: Vec3, radius: real, x: PlayerId)
    requires !IsHit(x, m, center, radius)
    ensures Reports(t, m, center, radius, x) == 0
  {
    if t.bounds.Intersects(center, radius) {
      if t.Leaf? {
        HitsCount(t.ids, m, center, radius, x);
      } else {
        NoHitNoReport(t.nw, m, center, radius, x);
        NoHitNoReport(t.ne, m, center, radius, x);
        NoHitNoReport(t.sw, m, center, radius, x);
        NoHitNoReport(t.se, m, center, radius, x);
      }
    }
  }

  /** A circle that meets only rectangles touching the player's position reports the player at most where it
      is seen. */
  lemma {:induction false} NarrowQuery(t: Tree, depth: nat, m: map<PlayerId, Vec3>, center: Vec3, radius: real, x: PlayerId)
    requires Tiled(t, depth) && Proper(t.bounds) && x in m
    requires forall b :: Proper(b) && b.Intersects(center, radius) ==> Touches(b, m[x])
    ensures Reports(t, m, center, radius, x) <= Seen(t, m[x])[x]
  {
    if t.bounds.Intersects(center, radius) {
      if t.Leaf? {
        HitsCount(t.ids, m, center, radius, x);
      } else {
        QuadrantTouches(t.bounds, m[x]);
        ReportsBranch(t, m, center, radius, x);
        NarrowQuery(t.nw, depth + 1, m, center, radius, x);
        NarrowQuery(t.ne, depth + 1, m, center, radius, x);
        NarrowQuery(t.sw, depth + 1, m, center, radius, x);
        NarrowQuery(t.se, depth + 1, m, center, radius, x);
      }
    }
  }

  /** The circle of radius 0 around the position is such a circle. */
  lemma PointQuery(t: Tree, m: map<PlayerId, Vec3>, x: PlayerId)
    requires Tiled(t, 0) && Proper(t.bounds) && x in m
    ensures Reports(t, m, m[x], 0.0, x) <= Seen(t, m[x])[x]
  {
    forall b | Proper(b) && b.Intersects(m[x], 0.0) ensures Touches(b, m[x]) { TouchesIsIntersects(b, m[x]); }
    NarrowQuery(t, 0, m, m[x], 0.0, x);
  }

  /** Both edges of the rectangle are within `d` of the point, on each axis. */
  predicate Near(b: Bounds, c: Vec3, d: real) {
    -d <= b.x - c.x && b.x + b.width - c.x <= d && -d <= b.y - c.y && b.y + b.height - c.y <= d
  }

  lemma QuadrantsNear(b: Bounds, c: Vec3, d: real)
    requires Proper(b) && Near(b, c, d)
    ensures Near(b.NW(), c, d) && Near(b.NE(), c, d) && Near(b.SW(), c, d) && Near(b.SE(), c, d)
  {}

  lemma NearIntersects(b: Bounds, c: Vec3, d: real)
    requires Proper(b) && Near(b, c, d)
    ensures b.Intersects(c, 2.0 * d)
  {
    var dx, dy := c.x - Max(b.x, Min(c.x, b.x + b.width)), c.y - Max(b.y, Min(c.y, b.y + b.height));
    SqWithin(dx, d);
    SqWithin(dy, d);
    assert (2.0 * d) * (2.0 * d) == 4.0 * Sq(d);
    SqNonNegative(d);
  }

  lemma SqWithin(a: real, d: real)
    requires -d <= a <= d
    ensures Sq(a) <= Sq(d)
  {
    ProductMonotone(if a < 0.0 then -a else a, d, if a < 0.0 then -a else a, d);
  }

  /** The circle meets every node. */
  predicate MeetsAll(t: Tree, center: Vec3, radius: real) {
    t.bounds.Intersects(center, radius) &&
    (t.Branch? ==> MeetsAll(t.nw, center, radius) && MeetsAll(t.ne, center, radius) &&
                   MeetsAll(t.sw, center, radius) && MeetsAll(t.se, center, radius))
  }

  lemma {:induction false} NearMeetsAll(t: Tree, depth: nat, c: Vec3, d: real)
    requires Tiled(t, depth) && Proper(t.bounds) && Near(t.bounds, c, d)
    ensures MeetsAll(t, c, 2.0 * d)
  {
    NearIntersects(t.bounds, c, d);
    if t.Branch? {
      QuadrantTouches(t.bounds, c);
      QuadrantsNear(t.bounds, c, d);
      NearMeetsAll(t.nw, depth + 1, c, d);
      NearMeetsAll(t.ne, depth + 1, c, d);
      NearMeetsAll(t.sw, depth + 1, c, d);
      NearMeetsAll(t.se, depth + 1, c, d);
    }
  }

  /** Such a circle reports a player in it as often as it is stored. */
  lemma {:induction false} MeetingQuery(t: Tree, m: map<PlayerId, Vec3>, center: Vec3, radius: real, x: PlayerId)
    requires MeetsAll(t, center, radius) && IsHit(x, m, center, radius)
    ensures Reports(t, m, center, radius, x) == Stored(t, x)
  {
    if t.Leaf? {
      HitsCount(t.ids, m, center, radius, x);
    } else {
      ReportsBranch(t, m, center, radius, x);
      MeetingQuery(t.nw, m, center, radius, x);
      MeetingQuery(t.ne, m, center, radius, x);
      MeetingQuery(t.sw, m, center, radius, x);
      MeetingQuery(t.se, m, center, radius, x);
    }
  }

  lemma WideQuery(t: Tree, m: map<PlayerId, Vec3>, x: PlayerId, d: real)
    requires Tiled(t, 0) && Proper(t.bounds) && x in m && Near(t.bounds, m[x], d)
    ensures Reports(t, m, m[x], 2.0 * d, x) == Bag(t)[x]
  {
    NearMeetsAll(t, 0, m[x], d);
    WideHit(m, x, d);
    MeetingQuery(t, m, m[x], 2.0 * d, x);
    StoredIsBag(t, x);
  }

  lemma WideHit(m: map<PlayerId, Vec3>, x: PlayerId, d: real)
    requires x in m
    ensures IsHit(x, m, m[x], 2.0 * d)
  {
    SqNonNegative(2.0 * d);
  }

  // ---------------------------------------------------------------- the trees that answer right

  /** The player is stored once, in a leaf that touches its recorded position. */
  predicate FoundOnce(ix: Index, x: PlayerId) {
    x in ix.positions ==> Bag(ix.root)[x] == 1 && Seen(ix.root, ix.positions[x])[x] == 1
  }

  ghost predicate AllFoundOnce(ix: Index) { forall x: PlayerId :: FoundOnce(ix, x) }

  lemma ExactFindsOnce(ix: Index, x: PlayerId)
    requires Tiled(ix.root, 0) && Proper(ix.root.bounds) && AlwaysExact(ix)
    ensures FoundOnce(ix, x)
  {
    if x in ix.positions {
      var m, b, c := ix.positions, ix.root.bounds, ix.positions[x];
      var d := Max(Max(c.x - b.x, b.x + b.width - c.x), Max(c.y - b.y, b.y + b.height - c.y));
      WideQuery(ix.root, m, x, d);
      WideHit(m, x, d);
      PointQuery(ix.root, m, x);
      assert DistSq(c, c) == 0.0;
      assert IsHit(x, m, c, 0.0);
      ReportsBounds(ix.root, 0, m, c, 0.0, x);
      assert multiset(Query(ix, c, 2.0 * d))[x] == multiset(BruteForce(m, c, 2.0 * d))[x];
      assert multiset(Query(ix, c, 0.0))[x] == multiset(BruteForce(m, c, 0.0))[x];
    }
  }

  /** A well-shaped tree answers every query right exactly when each player is stored once, in a leaf that
      touches its recorded position. What else is stored does not matter. */
  lemma AlwaysExactIff(ix: Index)
    requires Tiled(ix.root, 0) && Proper(ix.root.bounds)
    ensures AlwaysExact(ix) <==> AllFoundOnce(ix)
  {
    if AlwaysExact(ix) {
      forall x: PlayerId ensures FoundOnce(ix, x) { ExactFindsOnce(ix, x); }
    }
    if AllFoundOnce(ix) {
      forall center: Vec3, radius: real ensures multiset(Query(ix, center, radius)) == multiset(BruteForce(ix.positions, center, radius)) {
        FoundOnceQuery(ix, center, radius);
      }
    }
  }

  lemma FoundOnceQuery(ix: Index, center: Vec3, radius: real)
    requires Tiled(ix.root, 0) && Proper(ix.root.bounds) && AllFoundOnce(ix)
    ensures multiset(Query(ix, center, radius)) == multiset(BruteForce(ix.positions, center, radius))
  {
    forall x: PlayerId
      ensures multiset(Query(ix, center, radius))[x] == multiset(BruteForce(ix.positions, center, radius))[x]
    {
      assert FoundOnce(ix, x);
      if IsHit(x, ix.positions, center, radius) {
        ReportsBounds(ix.root, 0, ix.positions, center, radius, x);
      } else {
        NoHitNoReport(ix.root, ix.positions, center, radius, x);
      }
    }
  }

  // ---------------------------------------------------------------- insertion

  lemma {:induction false} PlacedSeen(t: Tree, m: map<PlayerId, Vec3>, x: PlayerId)
    requires Placed(t, m, {}) && x in m
    ensures Seen(t, m[x])[x] == Bag(t)[x]
  {
    if t.Branch? {
      PlacedSeen(t.nw, m, x);
      PlacedSeen(t.ne, m, x);
      PlacedSeen(t.sw, m, x);
      PlacedSeen(t.se, m, x);
    }
  }

  lemma {:induction false} SeenAtMostStored(t: Tree, p: Vec3, x: PlayerId)
    ensures Seen(t, p)[x] <= Bag(t)[x]
  {
    if t.Branch? {
      SeenAtMostStored(t.nw, p, x);
      SeenAtMostStored(t.ne, p, x);
      SeenAtMostStored(t.sw, p, x);
      SeenAtMostStored(t.se, p, x);
    }
  }

  lemma ConsistentFound(ix: Index, x: PlayerId)
    requires Consistent(ix)
    ensures FoundOnce(ix, x) && (x in Bag(ix.root) <==> x in ix.positions)
  {
    assert multiset(ix.positions.Keys)[x] == if x in ix.positions then 1 else 0;
    if x in ix.positions { PlacedSeen(ix.root, ix.positions, x); }
  }

  function One(x: PlayerId, id: PlayerId): nat { if x == id then 1 else 0 }

  lemma OneMore(ids: seq<PlayerId>, id: PlayerId, x: PlayerId)
    ensures multiset(ids + [id])[x] == multiset(ids)[x] + One(x, id)
  {}

  lemma SplitIsEmpty(b: Bounds)
    ensures forall x :: Stored(Split(b), x) == 0
  {}

  /** An insertion stores at most one more entry, of the id it inserts, whatever it drops. */
  lemma {:induction false} InsertAtMostOne(t: Tree, id: PlayerId, pos: Vec3, depth: nat, m: map<PlayerId, Vec3>, x: PlayerId)
    ensures Stored(InsertNode(t, id, pos, depth, m), x) <= Stored(t, x) + One(x, id)
    decreases 2 * Levels(depth), t, 1
  {
    if t.Branch? {
      InsertBelowAtMostOne(t, id, pos, depth + 1, m, x);
      assert InsertNode(t, id, pos, depth, m) == InsertBelow(t, id, pos, depth + 1, m);
    } else if |t.ids| + 1 > MAX_PLAYERS_PER_NODE && depth < MAX_DEPTH {
      OneMore(t.ids, id, x);
      SplitIsEmpty(t.bounds);
      ReinsertAtMost(Split(t.bounds), t.ids + [id], id, pos, depth + 1, m, x);
      assert InsertNode(t, id, pos, depth, m) == Reinsert(Split(t.bounds), t.ids + [id], id, pos, depth + 1, m);
    } else {
      OneMore(t.ids, id, x);
      assert InsertNode(t, id, pos, depth, m) == Leaf(t.bounds, t.ids + [id]);
    }
  }

  lemma {:induction false} InsertBelowAtMostOne(t: Tree, id: PlayerId, pos: Vec3, below: nat, m: map<PlayerId, Vec3>, x: PlayerId)
    requires t.Branch?
    ensures Stored(InsertBelow(t, id, pos, below, m), x) <= Stored(t, x) + One(x, id)
    decreases 2 * Levels(below), t, 0
  {
    if t.nw.bounds.Contains(pos) { InsertAtMostOne(t.nw, id, pos, below, m, x); }
    else if t.ne.bounds.Contains(pos) { InsertAtMostOne(t.ne, id, pos, below, m, x); }
    else if t.sw.bounds.Contains(pos) { InsertAtMostOne(t.sw, id, pos, below, m, x); }
    else if t.se.bounds.Contains(pos) { InsertAtMostOne(t.se, id, pos, below, m, x); }
  }

  lemma {:induction false} ReinsertAtMost(t: Tree, ids: seq<PlayerId>, id: PlayerId, pos: Vec3, below: nat, m: map<PlayerId, Vec3>, x: PlayerId)
    requires t.Branch?
    ensures Stored(Reinsert(t, ids, id, pos, below, m), x) <= Stored(t, x) + multiset(ids)[x]
    decreases 2 * Levels(below) + 1, |ids|
  {
    if ids != [] {
      var n := |ids| - 1;
      assert ids == ids[..n] + [ids[n]];
      OneMore(ids[..n], ids[n], x);
      ReinsertAtMost(t, ids[..n], id, pos, below, m, x);
      InsertBelowAtMostOne(Reinsert(t, ids[..n], id, pos, below, m), ids[n], ReinsertAt(ids[n], id, pos, m), below, m, x);
    }
  }

  /** A point outside goes to no quadrant. */
  lemma OutsideIsDropped(t: Tree, id: PlayerId, pos: Vec3, below: nat, m: map<PlayerId, Vec3>)
    requires t.Branch? && TiledBelow(t, below) && !t.bounds.Contains(pos)
    ensures InsertBelow(t, id, pos, below, m) == t
  {
    QuadrantsTile(t.bounds, pos);
  }

  /** So a leaf that splits for a point outside loses the id it inserts, old entries too. */
  lemma {:induction false} SplitDropsOutside(t: Tree, ids: seq<PlayerId>, id: PlayerId, pos: Vec3, below: nat, m: map<PlayerId, Vec3>)
    requires t.Branch? && TiledBelow(t, below) && !t.bounds.Contains(pos)
    ensures Stored(Reinsert(t, ids, id, pos, below, m), id) <= Stored(t, id)
    decreases |ids|
  {
    if ids != [] {
      var n := |ids| - 1;
      SplitDropsOutside(t, ids[..n], id, pos, below, m);
      ReinsertShape(t, ids[..n], id, pos, below, m);
      var sub := Reinsert(t, ids[..n], id, pos, below, m);
      if ids[n] == id {
        OutsideIsDropped(sub, id, pos, below, m);
      } else {
        InsertBelowAtMostOne(sub, ids[n], ReinsertAt(ids[n], id, pos, m), below, m, id);
      }
    }
  }

  lemma SplitLeafDropsOutside(b: Bounds, ids: seq<PlayerId>, id: PlayerId, pos: Vec3, m: map<PlayerId, Vec3>)
    requires |ids| >= 4 && !b.Contains(pos)
    ensures Bag(InsertNode(Leaf(b, ids), id, pos, 0, m))[id] == 0
  {
    SplitIsEmpty(b);
    SplitDropsOutside(Split(b), ids + [id], id, pos, 1, m);
    StoredIsBag(InsertNode(Leaf(b, ids), id, pos, 0, m), id);
  }

  /** What a caller can check before an Insert. */
  predicate MayInsert(ix: Index, id: PlayerId, pos: Vec3) {
    if ix.root.bounds.Contains(pos) then id !in ix.positions
    else if id !in ix.positions then ix.root.Leaf? && |ix.root.ids| < 4 && Touches(ix.root.bounds, pos)
    else ix.root.Branch? && id in Seen(ix.root, pos)
  }

  /** Inside the bounds exactly new ids come out right; a known one is stored twice. */
  lemma InsideIff(ix: Index, id: PlayerId, pos: Vec3)
    requires Consistent(ix) && Proper(ix.root.bounds) && ix.root.bounds.Contains(pos)
    ensures AllFoundOnce(Insert(ix, id, pos)) <==> id !in ix.positions
  {
    var r := Insert(ix, id, pos);
    InsertRecords(ix, id, pos);
    if id in ix.positions {
      InsertAddsEntry(ix, id, pos);
      ConsistentFound(ix, id);
      assert !FoundOnce(r, id);
    } else {
      InsertConsistent(ix, id, pos);
      forall x: PlayerId ensures FoundOnce(r, x) { ConsistentFound(r, x); }
    }
  }

  /** Outside the bounds of an unsplit root with room the entry is kept; it is found if the root touches the
      point. */
  lemma OutsideLeafIff(ix: Index, id: PlayerId, pos: Vec3)
    requires Consistent(ix) && !ix.root.bounds.Contains(pos) && ix.root.Leaf?
    ensures AllFoundOnce(Insert(ix, id, pos)) <==>
            id !in ix.positions && |ix.root.ids| < 4 && Touches(ix.root.bounds, pos)
  {
    var r := Insert(ix, id, pos);
    InsertRecords(ix, id, pos);
    ConsistentFound(ix, id);
    if |ix.root.ids| >= 4 {
      SplitLeafDropsOutside(ix.root.bounds, ix.root.ids, id, pos, ix.positions[id := pos]);
      assert !FoundOnce(r, id);
    } else {
      assert r.root == Leaf(ix.root.bounds, ix.root.ids + [id]);
      forall x: PlayerId | x != id ensures FoundOnce(r, x) { ConsistentFound(ix, x); }
      assert FoundOnce(r, id) <==> id !in ix.positions && Touches(ix.root.bounds, pos);
    }
  }

  /** Outside the bounds of a split root nothing is stored; an old entry is found if its leaf touches the point. */
  lemma OutsideBranchIff(ix: Index, id: PlayerId, pos: Vec3)
    requires Consistent(ix) && !ix.root.bounds.Contains(pos) && ix.root.Branch?
    ensures AllFoundOnce(Insert(ix, id, pos)) <==> id in ix.positions && id in Seen(ix.root, pos)
  {
    var r := Insert(ix, id, pos);
    InsertRecords(ix, id, pos);
    OutsideIsDropped(ix.root, id, pos, 1, ix.positions[id := pos]);
    forall x: PlayerId | x != id ensures FoundOnce(r, x) { ConsistentFound(ix, x); }
    ConsistentFound(ix, id);
    SeenAtMostStored(ix.root, pos, id);
    assert FoundOnce(r, id) <==> id in ix.positions && id in Seen(ix.root, pos);
  }

  /** After an Insert into a consistent index, every query answers right exactly when the point is in bounds
      and the id new, or one of two edge cases holds: a new id on the edge of an unsplit map with room, or a
      known id moved onto the edge of the map that its leaf touches. */
  lemma InsertExactIff(ix: Index, id: PlayerId, pos: Vec3)
    requires Consistent(ix) && Proper(ix.root.bounds)
    ensures AlwaysExact(Insert(ix, id, pos)) <==> MayInsert(ix, id, pos)
  {
    InsertShape(ix.root, id, pos, 0, ix.positions[id := pos]);
    AlwaysExactIff(Insert(ix, id, pos));
    if ix.root.bounds.Contains(pos) {
      InsideIff(ix, id, pos);
    } else if ix.root.Leaf? {
      OutsideLeafIff(ix, id, pos);
    } else {
      OutsideBranchIff(ix, id, pos);
    }
  }

  /** The same for Update, which removes the old entry first. */
  lemma UpdateExactIff(ix: Index, id: PlayerId, pos: Vec3)
    requires Consistent(ix) && Proper(ix.root.bounds)
    ensures AlwaysExact(Update(ix, id, pos)) <==> MayInsert(Remove(ix, id), id, pos)
  {
    RemoveConsistent(ix, id);
    InsertExactIff(Remove(ix, id), id, pos);
  }

  // ---------------------------------------------------------------- what a split adds to the map

  lemma ReinsertStores(t: Tree, ids: seq<PlayerId>, id: PlayerId, pos: Vec3, below: nat, m: map<PlayerId, Vec3>)
    requires t.Branch?
    ensures forall x :: x in Bag(Reinsert(t, ids, id, pos, below, m)) ==> x in Bag(t) || x in ids
  {
    forall x | x in Bag(Reinsert(t, ids, id, pos, below, m)) ensures x in Bag(t) || x in ids {
      ReinsertAtMost(t, ids, id, pos, below, m, x);
      StoredIsBag(Reinsert(t, ids, id, pos, below, m), x);
      StoredIsBag(t, x);
    }
  }

  lemma {:induction false} ReinsertAdds(t: Tree, ids: seq<PlayerId>, id: PlayerId, pos: Vec3, below: nat, m: map<PlayerId, Vec3>)
    requires t.Branch? && id in m && forall x :: x in Bag(t) ==> x in m
    ensures forall x :: x in ReinsertMap(t, ids, id, pos, below, m) <==> x in m || x in ids
  {
    if ids != [] {
      var k := |ids| - 1;
      ReinsertAdds(t, ids[..k], id, pos, below, m);
      ReinsertStores(t, ids[..k], id, pos, below, m);
      var sub := Reinsert(t, ids[..k], id, pos, below, m);
      var n := Noted(ReinsertMap(t, ids[..k], id, pos, below, m), ids[k], id);
      TrackedByBag(sub, n);
      BelowTracked(sub, ids[k], ReinsertAt(ids[k], id, pos, m), below, n);
      assert ids == ids[..k] + [ids[k]];
    }
  }

  /** When a leaf splits, the ids it holds that have no position get the origin, and nothing else changes in
      the map. */
  lemma SplitAddsAtOrigin(b: Bounds, ids: seq<PlayerId>, id: PlayerId, pos: Vec3, depth: nat, m: map<PlayerId, Vec3>)
    requires id in m && |ids| >= 4 && depth < 6
    ensures var r := InsertMap(Leaf(b, ids), id, pos, depth, m);
            && (forall x :: x in r <==> x in m || x in ids)
            && (forall x :: x in r ==> r[x] == if x in m then m[x] else Vec3(0.0, 0.0, 0.0))
  {
    SplitIsEmpty(b);
    forall x ensures x !in Bag(Split(b)) { StoredIsBag(Split(b), x); }
    ReinsertAdds(Split(b), ids + [id], id, pos, depth + 1, m);
    InsertMapSame(Leaf(b, ids), id, pos, depth, m, m);
    var r := InsertMap(Leaf(b, ids), id, pos, depth, m);
    forall x | x in r ensures r[x] == if x in m then m[x] else Vec3(0.0, 0.0, 0.0) { assert Lookup(m, x) == Lookup(r, x); }
  }

  /** A removal from a leaf takes the first entry of the id and keeps the others in order. */
  lemma RemovalKeepsOrder(b: Bounds, ids: seq<PlayerId>, id: PlayerId, pos: Vec3)
    requires b.Contains(pos) && id in ids
    ensures var (r, found) := RemoveNode(Leaf(b, ids), id, pos);
            && found && r.Leaf? && |r.ids| == |ids| - 1
            && exists i :: 0 <= i < |ids| && ids[i] == id && id !in ids[..i] && r.ids[..i] == ids[..i] && r.ids[i..] == ids[i + 1..]
  {
    var i := Find(ids, id);
    assert i < |ids|;
    assert ids[i] == id && id !in ids[..i];
  }
}
