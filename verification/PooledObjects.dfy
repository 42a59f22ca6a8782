/** Pools, wrappers and the objects they pass around, updated in place. A ghost ledger names them all:
    every operation takes the step of MemoryPool of the same name, so conservation holds of the heap. */
module PooledObjects {
  import opened Options
  import opened MemoryPool

  // ---------------------------------------------------------------- the ledger

  /** The objects, pools and wrappers of a program by name, and the state they are in. */
  datatype Ledger = Ledger(state: State, objects: seq<Buffer>, pools: map<PoolId, ObjectPool>, wrappers: map<WrapperId, Pooled>)

  /** The two fields of a wrapper. */
  datatype Held = Held(pool: ObjectPool?, buffer: Buffer?)

  const NOTHING := Held(null, null)

  ghost function Queues(pools: map<PoolId, ObjectPool>): map<PoolId, seq<Buffer>>
    reads pools.Values
  {
    map p | p in pools :: pools[p].available
  }

  ghost function Fields(wrappers: map<WrapperId, Pooled>): map<WrapperId, Held>
    reads wrappers.Values
  {
    map w | w in wrappers :: Held(wrappers[w].pool, wrappers[w].buffer)
  }

  predicate Distinct(objects: seq<Buffer>) { forall x, y :: 0 <= x < y < |objects| ==> objects[x] != objects[y] }

  predicate Injective<T(==)>(m: map<nat, T>) { forall p, q :: p in m && q in m && p != q ==> m[p] != m[q] }

  /** Everything has one name. */
  ghost predicate Named(l: Ledger) {
    && |l.objects| == |l.state.homes| && l.pools.Keys == l.state.pools.Keys && l.wrappers.Keys == l.state.wrappers.Keys
    && Distinct(l.objects) && Injective(l.pools) && Injective(l.wrappers)
  }

  /** The queue has the named objects in this order. */
  predicate IsQueue(objects: seq<Buffer>, names: seq<Obj>, queue: seq<Buffer>) {
    |queue| == |names| && forall i :: 0 <= i < |names| ==> names[i] < |objects| && queue[i] == objects[names[i]]
  }

  /** The fields of a wrapper are the named pool and object, or null. */
  predicate AreFields(objects: seq<Buffer>, pools: map<PoolId, ObjectPool>, v: Wrapper, f: Held) {
    && (match v.pool case None => f.pool == null case Some(p) => p in pools && f.pool == pools[p])
    && (match v.obj case None => f.buffer == null case Some(x) => x < |objects| && f.buffer == objects[x])
  }

  ghost predicate QueuesShown(objects: seq<Buffer>, pools: map<PoolId, ObjectPool>, values: map<PoolId, Pool>, qs: map<PoolId, seq<Buffer>>) {
    && pools.Keys == values.Keys == qs.Keys
    && forall p :: p in pools ==> pools[p].poolSize == values[p].poolSize && IsQueue(objects, values[p].available, qs[p])
  }

  ghost predicate FieldsShown(objects: seq<Buffer>, pools: map<PoolId, ObjectPool>, values: map<WrapperId, Wrapper>, fs: map<WrapperId, Held>) {
    values.Keys == fs.Keys && forall w :: w in fs ==> AreFields(objects, pools, values[w], fs[w])
  }

  /** These queues and fields are what the state says. */
  ghost predicate ShownBy(l: Ledger, qs: map<PoolId, seq<Buffer>>, fs: map<WrapperId, Held>) {
    && Named(l) && QueuesShown(l.objects, l.pools, l.state.pools, qs) && FieldsShown(l.objects, l.pools, l.state.wrappers, fs)
  }

  ghost predicate AllEmpty(queue: seq<Buffer>)
    reads queue
  {
    forall b :: b in queue ==> b.contents == []
  }

  /** Every idle object is empty. */
  ghost predicate IdleEmpty(objects: seq<Buffer>, qs: map<PoolId, seq<Buffer>>)
    reads objects
  {
    forall p, b :: p in qs && b in qs[p] && b in objects ==> b.contents == []
  }

  /** The heap is as the state says, idle objects are empty, and the operations lead to this state. */
  ghost predicate Valid(l: Ledger)
    reads l.pools.Values, l.wrappers.Values, l.objects
  {
    ShownBy(l, Queues(l.pools), Fields(l.wrappers)) && IdleEmpty(l.objects, Queues(l.pools)) && Reached(l.state)
  }

  // ---------------------------------------------------------------- objects

  /** A reusable object, such as a packet builder or a vector of player states. */
  class Buffer {
    var contents: seq<int>

    constructor ()
      ensures contents == []
    {
      contents := [];
    }

    method Clear()
      modifies this
      ensures contents == []
    {
      contents := [];
    }
  }

  class ObjectPool {
    const poolSize: nat
    var available: seq<Buffer>

    constructor (poolSize: nat)
      ensures this.poolSize == poolSize == |available| && Distinct(available)
      ensures forall b :: b in available ==> fresh(b) && b.contents == []
    {
      this.poolSize := poolSize;
      available := [];
      new;
      for k := 0 to poolSize
        invariant |available| == k && Distinct(available)
        invariant forall b :: b in available ==> fresh(b) && b.contents == []
      {
        var b := new Buffer();
        available := available + [b];
      }
    }

    /** Hands out the object idle the longest, or a new one; always an empty one. */
    method Acquire() returns (b: Buffer)
      modifies this, if available == [] then {} else {available[0]}
      ensures b.contents == []
      ensures if old(available) == [] then fresh(b) && available == []
              else b == old(available[0]) && available == old(available[1..])
    {
      if available != [] {
        b := available[0];
        available := available[1..];
        b.Clear();
        return;
      }
      b := new Buffer();
    }

    /** Takes back an object that the caller owns, unless the pool is full. */
    method Release(b: Buffer?)
      requires b !in available
      modifies this, b
      ensures b == null ==> available == old(available)
      ensures b != null ==> available == Put(old(available), poolSize, b)
      ensures b != null ==> b.contents == if |old(available)| < poolSize then [] else old(b.contents)
    {
      if b == null {
        return;
      }
      if |available| < poolSize {
        b.Clear();
        available := available + [b];
      }
    }
  }

  /** A pool's queue after an object was offered to it. */
  function Put(queue: seq<Buffer>, poolSize: nat, b: Buffer): seq<Buffer> {
    if |queue| < poolSize then queue + [b] else queue
  }

  /** A pool's queue after an object was taken from it. */
  function Rest(queue: seq<Buffer>): seq<Buffer> { if queue == [] then [] else queue[1..] }

  /** Owns one object for a while and gives it back at the end. */
  class Pooled {
    var pool: ObjectPool?
    var buffer: Buffer?

    constructor (p: ObjectPool)
      modifies p, if p.available == [] then {} else {p.available[0]}
      ensures pool == p && buffer != null && buffer.contents == []
      ensures if old(p.available) == [] then fresh(buffer) && p.available == []
              else buffer == old(p.available[0]) && p.available == old(p.available[1..])
    {
      pool := p;
      buffer := null;
      new;
      buffer := p.Acquire();
    }

    /** The move constructor: both fields pass over, and nothing is left behind. */
    constructor MoveFrom(other: Pooled)
      modifies other
      ensures pool == old(other.pool) && buffer == old(other.buffer) && other.pool == null && other.buffer == null
    {
      pool := other.pool;
      buffer := other.buffer;
      new;
      other.buffer := null;
      other.pool := null;
    }

    /** Gives the object back, if there is one; a wrapper moved from gives nothing back. */
    method GiveBack()
      requires pool != null && buffer != null ==> buffer !in pool.available
      modifies pool, buffer
      ensures pool != null ==> pool.available == if buffer == null then old(pool.available) else Put(old(pool.available), pool.poolSize, buffer)
      ensures buffer != null ==>
                buffer.contents == if pool != null && |old(pool.available)| < pool.poolSize then [] else old(buffer.contents)
    {
      if pool != null && buffer != null {
        pool.Release(buffer);
      }
    }

    /** The destructor. */
    method Destroy()
      requires pool != null && buffer != null ==> buffer !in pool.available
      modifies this, pool, buffer
      ensures pool == old(pool) && buffer == null
      ensures pool != null ==>
                pool.available == if old(buffer) == null then old(pool.available) else Put(old(pool.available), pool.poolSize, old(buffer))
      ensures old(buffer) != null ==>
                old(buffer).contents == if pool != null && |old(pool.available)| < pool.poolSize then [] else old(buffer.contents)
    {
      GiveBack();
      buffer := null;
    }

    /** Move assignment: the old object goes back to its own pool before the new one is taken over;
        assigning a wrapper to itself changes nothing. */
    method MoveAssign(other: Pooled)
      requires pool != null && buffer != null ==> buffer !in pool.available
      modifies if this == other then {} else {this, other, pool, buffer}
      ensures this != other ==> pool == old(other.pool) && buffer == old(other.buffer) && other.pool == null && other.buffer == null
      ensures this != other && old(pool) != null ==>
                old(pool).available == if old(buffer) == null then old(pool.available)
                                       else Put(old(pool.available), old(pool).poolSize, old(buffer))
      ensures this != other && old(buffer) != null ==>
                old(buffer).contents == if old(pool) != null && |old(pool.available)| < old(pool).poolSize then [] else old(buffer.contents)
    {
      if this != other {
        GiveBack();
        pool := other.pool;
        buffer := other.buffer;
        other.buffer := null;
        other.pool := null;
      }
    }
  }

  // ---------------------------------------------------------------- the ledger after each operation
  //
  // Lemmas named `...Shown` are about queues and fields as values, those named `...Valid` about the heap.

  function WithPool(l: Ledger, p: PoolId, pool: ObjectPool, preallocated: seq<Buffer>): Ledger
    requires p !in l.state.pools
  {
    l.(state := Apply(l.state, NewPool(p, |preallocated|)), objects := l.objects + preallocated, pools := l.pools[p := pool])
  }

  function Constructed(l: Ledger, w: WrapperId, p: PoolId, wrapper: Pooled, b: Buffer): Ledger
    requires Enabled(l.state, Construct(w, p))
  {
    l.(state := Apply(l.state, Construct(w, p)), wrappers := l.wrappers[w := wrapper],
       objects := if l.state.pools[p].available == [] then l.objects + [b] else l.objects)
  }

  function MoveConstructed(l: Ledger, w: WrapperId, from: WrapperId, wrapper: Pooled): Ledger
    requires Enabled(l.state, MoveConstruct(w, from))
  {
    l.(state := Apply(l.state, MoveConstruct(w, from)), wrappers := l.wrappers[w := wrapper])
  }

  function MoveAssigned(l: Ledger, w: WrapperId, from: WrapperId): Ledger
    requires Enabled(l.state, MoveAssign(w, from))
  {
    l.(state := Apply(l.state, MoveAssign(w, from)))
  }

  function Destroyed(l: Ledger, w: WrapperId): Ledger
    requires Enabled(l.state, Destroy(w))
  {
    l.(state := Apply(l.state, Destroy(w)), wrappers := l.wrappers - {w})
  }

  lemma DistinctConcat(a: seq<Buffer>, b: seq<Buffer>)
    requires Distinct(a) && Distinct(b) && forall x :: x in b ==> x !in a
    ensures Distinct(a + b)
  {
    forall x, y | 0 <= x < y < |a + b| ensures (a + b)[x] != (a + b)[y] {
      if x < |a| <= y { assert b[y - |a|] in b; }
    }
  }

  lemma InjectiveUpdate<T>(m: map<nat, T>, k: nat, x: T)
    requires Injective(m) && k !in m && x !in m.Values
    ensures Injective(m[k := x])
  {}

  lemma SetQueue(objects: seq<Buffer>, pools: map<PoolId, ObjectPool>, values: map<PoolId, Pool>, qs: map<PoolId, seq<Buffer>>,
                 p: PoolId, v: Pool, q: seq<Buffer>)
    requires QueuesShown(objects, pools, values, qs) && p in pools && pools[p].poolSize == v.poolSize && IsQueue(objects, v.available, q)
    ensures QueuesShown(objects, pools, values[p := v], qs[p := q])
  {}

  lemma MoreObjects(objects: seq<Buffer>, more: seq<Buffer>, pools: map<PoolId, ObjectPool>, s: State, qs: map<PoolId, seq<Buffer>>,
                    fs: map<WrapperId, Held>)
    requires QueuesShown(objects, pools, s.pools, qs) && FieldsShown(objects, pools, s.wrappers, fs)
    ensures QueuesShown(objects + more, pools, s.pools, qs) && FieldsShown(objects + more, pools, s.wrappers, fs)
  {}

  lemma SetFields(objects: seq<Buffer>, pools: map<PoolId, ObjectPool>, values: map<WrapperId, Wrapper>, fs: map<WrapperId, Held>,
                  w: WrapperId, v: Wrapper, f: Held)
    requires FieldsShown(objects, pools, values, fs) && AreFields(objects, pools, v, f)
    ensures FieldsShown(objects, pools, values[w := v], fs[w := f])
  {}

  lemma SetPool(objects: seq<Buffer>, pools: map<PoolId, ObjectPool>, s: State, qs: map<PoolId, seq<Buffer>>, fs: map<WrapperId, Held>,
                p: PoolId, pool: ObjectPool, v: Pool, q: seq<Buffer>)
    requires QueuesShown(objects, pools, s.pools, qs) && FieldsShown(objects, pools, s.wrappers, fs)
    requires p !in pools && pool.poolSize == v.poolSize && IsQueue(objects, v.available, q)
    ensures QueuesShown(objects, pools[p := pool], s.pools[p := v], qs[p := q])
    ensures FieldsShown(objects, pools[p := pool], s.wrappers, fs)
  {}

  lemma WithPoolShown(l: Ledger, qs: map<PoolId, seq<Buffer>>, fs: map<WrapperId, Held>, p: PoolId, pool: ObjectPool, added: seq<Buffer>)
    requires ShownBy(l, qs, fs) && p !in l.pools && pool !in l.pools.Values && |added| == pool.poolSize
    requires Distinct(added) && forall b :: b in added ==> b !in l.objects
    ensures ShownBy(WithPool(l, p, pool, added), qs[p := added], fs)
  {
    DistinctConcat(l.objects, added);
    InjectiveUpdate(l.pools, p, pool);
    MoreObjects(l.objects, added, l.pools, l.state, qs, fs);
    SetPool(l.objects + added, l.pools, l.state, qs, fs, p, pool, WithPool(l, p, pool, added).state.pools[p], added);
  }

  lemma WithPoolValid(l: Ledger, p: PoolId, pool: ObjectPool)
    requires Valid(l) && p !in l.pools && pool !in l.pools.Values && |pool.available| == pool.poolSize
    requires Distinct(pool.available) && AllEmpty(pool.available) && forall b :: b in pool.available ==> b !in l.objects
    ensures Valid(WithPool(l, p, pool, pool.available))
  {
    ReachedNext(l.state, NewPool(p, pool.poolSize));
    WithPoolShown(l, Queues(l.pools), Fields(l.wrappers), p, pool, pool.available);
    assert Queues(l.pools[p := pool]) == Queues(l.pools)[p := pool.available];
  }

  lemma ConstructedShown(l: Ledger, qs: map<PoolId, seq<Buffer>>, fs: map<WrapperId, Held>, w: WrapperId, p: PoolId, wrapper: Pooled, b: Buffer)
    requires ShownBy(l, qs, fs) && w !in l.wrappers && p in l.pools && wrapper !in l.wrappers.Values
    requires if qs[p] == [] then b !in l.objects else b == qs[p][0]
    ensures ShownBy(Constructed(l, w, p, wrapper, b), qs[p := Rest(qs[p])], fs[w := Held(l.pools[p], b)])
  {
    var r := Constructed(l, w, p, wrapper, b);
    InjectiveUpdate(l.wrappers, w, wrapper);
    if qs[p] == [] {
      DistinctConcat(l.objects, [b]);
      MoreObjects(l.objects, [b], l.pools, l.state, qs, fs);
      assert qs[p := []] == qs;
    } else {
      SetQueue(l.objects, l.pools, l.state.pools, qs, p, r.state.pools[p], qs[p][1..]);
    }
    SetFields(r.objects, l.pools, l.state.wrappers, fs, w, r.state.wrappers[w], Held(l.pools[p], b));
  }

  lemma Moved(objects: seq<Buffer>, pools: map<PoolId, ObjectPool>, values: map<WrapperId, Wrapper>, fs: map<WrapperId, Held>,
              w: WrapperId, from: WrapperId)
    requires FieldsShown(objects, pools, values, fs) && from in fs
    ensures FieldsShown(objects, pools, values[w := values[from]][from := MOVED_FROM], fs[w := fs[from]][from := NOTHING])
  {
    SetFields(objects, pools, values, fs, w, values[from], fs[from]);
    SetFields(objects, pools, values[w := values[from]], fs[w := fs[from]], from, MOVED_FROM, NOTHING);
  }

  lemma MoveConstructedShown(l: Ledger, qs: map<PoolId, seq<Buffer>>, fs: map<WrapperId, Held>, w: WrapperId, from: WrapperId, wrapper: Pooled)
    requires ShownBy(l, qs, fs) && w !in l.wrappers && from in l.wrappers && wrapper !in l.wrappers.Values
    ensures ShownBy(MoveConstructed(l, w, from, wrapper), qs, fs[w := fs[from]][from := NOTHING])
  {
    InjectiveUpdate(l.wrappers, w, wrapper);
    Moved(l.objects, l.pools, l.state.wrappers, fs, w, from);
  }

  /** The queues after a wrapper gave its object back to its pool, if it had both. */
  function Returned(pools: map<PoolId, ObjectPool>, qs: map<PoolId, seq<Buffer>>, v: Wrapper, f: Held): map<PoolId, seq<Buffer>> {
    if v.pool.Some? && v.pool.value in qs && v.pool.value in pools && f.buffer != null
    then qs[v.pool.value := Put(qs[v.pool.value], pools[v.pool.value].poolSize, f.buffer)]
    else qs
  }

  lemma ReturnedShown(l: Ledger, qs: map<PoolId, seq<Buffer>>, fs: map<WrapperId, Held>, w: WrapperId)
    requires ShownBy(l, qs, fs) && w in l.wrappers
    ensures QueuesShown(l.objects, l.pools, GiveBack(l.state, l.state.wrappers[w]).pools, Returned(l.pools, qs, l.state.wrappers[w], fs[w]))
  {
    var v := l.state.wrappers[w];
    assert AreFields(l.objects, l.pools, v, fs[w]);
    if GivesBack(l.state, v) {
      var p := v.pool.value;
      SetQueue(l.objects, l.pools, l.state.pools, qs, p, GiveBack(l.state, v).pools[p], Put(qs[p], l.pools[p].poolSize, fs[w].buffer));
    }
  }

  lemma MoveAssignedShown(l: Ledger, qs: map<PoolId, seq<Buffer>>, fs: map<WrapperId, Held>, w: WrapperId, from: WrapperId)
    requires ShownBy(l, qs, fs) && w in l.wrappers && from in l.wrappers && w != from
    ensures ShownBy(MoveAssigned(l, w, from), Returned(l.pools, qs, l.state.wrappers[w], fs[w]), fs[w := fs[from]][from := NOTHING])
  {
    ReturnedShown(l, qs, fs, w);
    Moved(l.objects, l.pools, l.state.wrappers, fs, w, from);
    assert l.wrappers.Keys == MoveAssigned(l, w, from).state.wrappers.Keys;
  }

  lemma DestroyedShown(l: Ledger, qs: map<PoolId, seq<Buffer>>, fs: map<WrapperId, Held>, w: WrapperId)
    requires ShownBy(l, qs, fs) && w in l.wrappers
    ensures ShownBy(Destroyed(l, w), Returned(l.pools, qs, l.state.wrappers[w], fs[w]), fs - {w})
  {
    ReturnedShown(l, qs, fs, w);
  }

  predicate NotIdle(qs: map<PoolId, seq<Buffer>>, b: Buffer) { forall q :: q in qs ==> b !in qs[q] }

  /** Offering a pool an object that it empties keeps every idle object empty. */
  lemma ReturnedEmpty(objects: seq<Buffer>, pools: map<PoolId, ObjectPool>, qs: map<PoolId, seq<Buffer>>, v: Wrapper, f: Held)
    requires IdleEmpty(objects, qs)
    requires Returned(pools, qs, v, f) == qs || (f.buffer != null && f.buffer.contents == [])
    ensures IdleEmpty(objects, Returned(pools, qs, v, f))
  {}

  /** No sharing: an object that a wrapper holds is idle in no pool and held by no other wrapper. */
  lemma HeldAlone(l: Ledger, w: WrapperId)
    requires Valid(l) && w in l.wrappers && l.wrappers[w].buffer != null
    ensures NotIdle(Queues(l.pools), l.wrappers[w].buffer)
    ensures forall v :: v in l.wrappers && v != w ==> l.wrappers[v].buffer != l.wrappers[w].buffer
  {
    var s := l.state;
    ReachedInvariant(s);
    var x := s.wrappers[w].obj.value;
    assert At(s, x, InWrapper(w));
    forall q, i | q in l.pools && 0 <= i < |l.pools[q].available| ensures l.pools[q].available[i] != l.wrappers[w].buffer {
      assert IsQueue(l.objects, s.pools[q].available, Queues(l.pools)[q]);
      assert At(s, s.pools[q].available[i], InPool(q, i));
    }
    forall v | v in l.wrappers && v != w ensures l.wrappers[v].buffer != l.wrappers[w].buffer {
      if l.wrappers[v].buffer != null { assert At(s, s.wrappers[v].obj.value, InWrapper(v)); }
    }
  }

  /** The wrappers have these fields. */
  ghost predicate HaveFields(wrappers: map<WrapperId, Pooled>, fs: map<WrapperId, Held>)
    reads wrappers.Values
  {
    wrappers.Keys == fs.Keys && forall w :: w in wrappers ==> wrappers[w].pool == fs[w].pool && wrappers[w].buffer == fs[w].buffer
  }

  lemma FieldsAre(wrappers: map<WrapperId, Pooled>, fs: map<WrapperId, Held>)
    ensures HaveFields(wrappers, fs) <==> Fields(wrappers) == fs
  {}

  ghost predicate HaveQueues(pools: map<PoolId, ObjectPool>, qs: map<PoolId, seq<Buffer>>)
    reads pools.Values
  {
    pools.Keys == qs.Keys && forall p :: p in pools ==> pools[p].available == qs[p]
  }

  lemma QueuesAre(pools: map<PoolId, ObjectPool>, qs: map<PoolId, seq<Buffer>>)
    ensures HaveQueues(pools, qs) <==> Queues(pools) == qs
  {}

  lemma FieldsUpdate(wrappers: map<WrapperId, Pooled>, w: WrapperId, wrapper: Pooled)
    ensures Fields(wrappers[w := wrapper]) == Fields(wrappers)[w := Held(wrapper.pool, wrapper.buffer)]
  {}

  lemma SwapUpdates(fs: map<WrapperId, Held>, v: WrapperId, w: WrapperId, f: Held, g: Held)
    requires v != w
    ensures fs[v := f][w := g] == fs[w := g][v := f]
  {}

  lemma MoveConstructedValid(l: Ledger, qs: map<PoolId, seq<Buffer>>, fs: map<WrapperId, Held>, w: WrapperId, from: WrapperId, wrapper: Pooled)
    requires ShownBy(l, qs, fs) && Reached(l.state) && w !in l.wrappers && from in l.wrappers && wrapper !in l.wrappers.Values
    requires HaveQueues(l.pools, qs) && IdleEmpty(l.objects, qs)
    requires HaveFields(l.wrappers, fs[from := NOTHING]) && Held(wrapper.pool, wrapper.buffer) == fs[from]
    ensures Valid(MoveConstructed(l, w, from, wrapper))
  {
    ReachedNext(l.state, MoveConstruct(w, from));
    QueuesAre(l.pools, qs);
    MoveConstructedShown(l, qs, fs, w, from, wrapper);
    FieldsAre(l.wrappers, fs[from := NOTHING]);
    FieldsUpdate(l.wrappers, w, wrapper);
    SwapUpdates(fs, w, from, fs[from], NOTHING);
  }

  lemma ConstructedValid(l: Ledger, qs: map<PoolId, seq<Buffer>>, fs: map<WrapperId, Held>, w: WrapperId, p: PoolId, wrapper: Pooled, b: Buffer)
    requires ShownBy(l, qs, fs) && Reached(l.state) && w !in l.wrappers && p in l.pools && wrapper !in l.wrappers.Values
    requires if qs[p] == [] then b !in l.objects else b == qs[p][0]
    requires HaveQueues(l.pools, qs[p := Rest(qs[p])]) && HaveFields(l.wrappers, fs)
    requires IdleEmpty(l.objects, qs) && wrapper.pool == l.pools[p] && wrapper.buffer == b && b.contents == []
    ensures Valid(Constructed(l, w, p, wrapper, b))
  {
    ReachedNext(l.state, Construct(w, p));
    ConstructedShown(l, qs, fs, w, p, wrapper, b);
    QueuesAre(l.pools, qs[p := Rest(qs[p])]);
    FieldsAre(l.wrappers, fs);
    FieldsUpdate(l.wrappers, w, wrapper);
  }

  lemma MoveAssignedValid(l: Ledger, qs: map<PoolId, seq<Buffer>>, fs: map<WrapperId, Held>, w: WrapperId, from: WrapperId)
    requires ShownBy(l, qs, fs) && Reached(l.state) && w in l.wrappers && from in l.wrappers && w != from
    requires HaveQueues(l.pools, Returned(l.pools, qs, l.state.wrappers[w], fs[w]))
    requires HaveFields(l.wrappers, fs[w := fs[from]][from := NOTHING])
    requires IdleEmpty(l.objects, Returned(l.pools, qs, l.state.wrappers[w], fs[w]))
    ensures Valid(MoveAssigned(l, w, from))
  {
    ReachedNext(l.state, MoveAssign(w, from));
    MoveAssignedShown(l, qs, fs, w, from);
    QueuesAre(l.pools, Returned(l.pools, qs, l.state.wrappers[w], fs[w]));
    FieldsAre(l.wrappers, fs[w := fs[from]][from := NOTHING]);
  }

  lemma DestroyedValid(l: Ledger, qs: map<PoolId, seq<Buffer>>, fs: map<WrapperId, Held>, w: WrapperId)
    requires ShownBy(l, qs, fs) && Reached(l.state) && w in l.wrappers
    requires HaveQueues(l.pools, Returned(l.pools, qs, l.state.wrappers[w], fs[w]))
    requires HaveFields(l.wrappers - {w}, fs - {w})
    requires IdleEmpty(l.objects, Returned(l.pools, qs, l.state.wrappers[w], fs[w]))
    ensures Valid(Destroyed(l, w))
  {
    ReachedNext(l.state, Destroy(w));
    DestroyedShown(l, qs, fs, w);
    QueuesAre(l.pools, Returned(l.pools, qs, l.state.wrappers[w], fs[w]));
    FieldsAre(l.wrappers - {w}, fs - {w});
  }

  // ---------------------------------------------------------------- every operation takes its step
  //
  // Each `...Step` method performs one operation on the heap and shows that a valid ledger, moved on by
  // the operation of the same name in MemoryPool, is valid again. The `...Fields` methods beside them say
  // the same in terms of queues and fields only.

  method NewPoolStep(poolSize: nat, ghost l: Ledger, ghost p: PoolId) returns (pool: ObjectPool)
    requires Valid(l) && p !in l.pools
    ensures Valid(WithPool(l, p, pool, pool.available)) && pool.poolSize == poolSize
  {
    pool := new ObjectPool(poolSize);
    WithPoolValid(l, p, pool);
  }

  method ConstructFields(p: ObjectPool, ghost l: Ledger, ghost qs: map<PoolId, seq<Buffer>>, ghost fs: map<WrapperId, Held>, ghost id: PoolId)
    returns (r: Pooled)
    requires Injective(l.pools) && id in l.pools && l.pools[id] == p
    requires HaveQueues(l.pools, qs) && HaveFields(l.wrappers, fs) && IdleEmpty(l.objects, qs)
    modifies p, if p.available == [] then {} else {p.available[0]}
    ensures HaveQueues(l.pools, qs[id := Rest(qs[id])]) && HaveFields(l.wrappers, fs) && IdleEmpty(l.objects, qs)
    ensures r !in l.wrappers.Values && r.pool == p && r.buffer != null && r.buffer.contents == []
    ensures if qs[id] == [] then r.buffer !in l.objects else r.buffer == qs[id][0]
  {
    r := new Pooled(p);
  }

  method ConstructStep(p: ObjectPool, ghost l: Ledger, ghost w: WrapperId, ghost id: PoolId) returns (r: Pooled)
    requires Valid(l) && w !in l.wrappers && id in l.pools && l.pools[id] == p
    modifies p, if p.available == [] then {} else {p.available[0]}
    ensures r.buffer != null && r.buffer.contents == [] && Valid(Constructed(l, w, id, r, r.buffer))
  {
    ghost var qs, fs := Queues(l.pools), Fields(l.wrappers);
    QueuesAre(l.pools, qs);
    FieldsAre(l.wrappers, fs);
    r := ConstructFields(p, l, qs, fs, id);
    ConstructedValid(l, qs, fs, w, id, r, r.buffer);
  }

  method MoveConstructStep(other: Pooled, ghost l: Ledger, ghost w: WrapperId, ghost from: WrapperId) returns (r: Pooled)
    requires Valid(l) && w !in l.wrappers && from in l.wrappers && l.wrappers[from] == other
    modifies other
    ensures Valid(MoveConstructed(l, w, from, r))
  {
    ghost var qs, fs := Queues(l.pools), Fields(l.wrappers);
    r := new Pooled.MoveFrom(other);
    QueuesAre(l.pools, qs);
    FieldsAre(l.wrappers, fs[from := NOTHING]);
    MoveConstructedValid(l, qs, fs, w, from, r);
  }

  lemma MovedFields(wrappers: map<WrapperId, Pooled>, fs: map<WrapperId, Held>, w: WrapperId, from: WrapperId)
    requires wrappers.Keys == fs.Keys && w in fs && from in fs && w != from
    requires forall v :: v in wrappers && v != w && v != from ==> wrappers[v].pool == fs[v].pool && wrappers[v].buffer == fs[v].buffer
    requires wrappers[w].pool == fs[from].pool && wrappers[w].buffer == fs[from].buffer
    requires wrappers[from].pool == null && wrappers[from].buffer == null
    ensures HaveFields(wrappers, fs[w := fs[from]][from := NOTHING])
  {}

  lemma ReturnedQueues(pools: map<PoolId, ObjectPool>, qs: map<PoolId, seq<Buffer>>, v: Wrapper, f: Held)
    requires pools.Keys == qs.Keys && (v.pool.Some? <==> f.pool != null) && (v.pool.Some? ==> v.pool.value in pools)
    requires forall q :: q in pools && v.pool != Some(q) ==> pools[q].available == qs[q]
    requires v.pool.Some? ==>
               pools[v.pool.value].available ==
                 if f.buffer == null then qs[v.pool.value] else Put(qs[v.pool.value], pools[v.pool.value].poolSize, f.buffer)
    ensures HaveQueues(pools, Returned(pools, qs, v, f))
  {}

  /** The wrapper and its fields, and that its object is nowhere else. */
  ghost predicate Owns(l: Ledger, qs: map<PoolId, seq<Buffer>>, fs: map<WrapperId, Held>, w: WrapperId, r: Pooled) {
    && Injective(l.pools) && Injective(l.wrappers) && w in l.wrappers && l.wrappers[w] == r
    && w in l.state.wrappers && w in fs && AreFields(l.objects, l.pools, l.state.wrappers[w], fs[w])
    && (fs[w].buffer != null ==> NotIdle(qs, fs[w].buffer))
  }

  lemma OwnsHeld(l: Ledger, w: WrapperId)
    requires Valid(l) && w in l.wrappers
    ensures Owns(l, Queues(l.pools), Fields(l.wrappers), w, l.wrappers[w])
  {
    if l.wrappers[w].buffer != null { HeldAlone(l, w); }
  }

  method AssignFields(r: Pooled, other: Pooled, ghost l: Ledger, ghost qs: map<PoolId, seq<Buffer>>, ghost fs: map<WrapperId, Held>,
                      ghost w: WrapperId, ghost from: WrapperId)
    requires Owns(l, qs, fs, w, r) && from in l.wrappers && l.wrappers[from] == other && w != from
    requires HaveQueues(l.pools, qs) && HaveFields(l.wrappers, fs) && IdleEmpty(l.objects, qs)
    modifies r, other, r.pool, r.buffer
    ensures HaveQueues(l.pools, Returned(l.pools, qs, l.state.wrappers[w], fs[w]))
    ensures HaveFields(l.wrappers, fs[w := fs[from]][from := NOTHING])
    ensures IdleEmpty(l.objects, Returned(l.pools, qs, l.state.wrappers[w], fs[w]))
  {
    r.MoveAssign(other);
    MovedFields(l.wrappers, fs, w, from);
    ReturnedQueues(l.pools, qs, l.state.wrappers[w], fs[w]);
    assert IdleEmpty(l.objects, qs);
    ReturnedEmpty(l.objects, l.pools, qs, l.state.wrappers[w], fs[w]);
  }

  method DestroyFields(r: Pooled, ghost l: Ledger, ghost qs: map<PoolId, seq<Buffer>>, ghost fs: map<WrapperId, Held>, ghost w: WrapperId)
    requires Owns(l, qs, fs, w, r) && HaveQueues(l.pools, qs) && HaveFields(l.wrappers, fs) && IdleEmpty(l.objects, qs)
    modifies r, r.pool, r.buffer
    ensures HaveQueues(l.pools, Returned(l.pools, qs, l.state.wrappers[w], fs[w]))
    ensures HaveFields(l.wrappers - {w}, fs - {w})
    ensures IdleEmpty(l.objects, Returned(l.pools, qs, l.state.wrappers[w], fs[w]))
  {
    r.Destroy();
    ReturnedQueues(l.pools, qs, l.state.wrappers[w], fs[w]);
    assert IdleEmpty(l.objects, qs);
    ReturnedEmpty(l.objects, l.pools, qs, l.state.wrappers[w], fs[w]);
  }

  method MoveAssignOther(r: Pooled, other: Pooled, ghost l: Ledger, ghost w: WrapperId, ghost from: WrapperId)
    requires Valid(l) && w in l.wrappers && l.wrappers[w] == r && from in l.wrappers && l.wrappers[from] == other && r != other
    modifies r, other, r.pool, r.buffer
    ensures Valid(MoveAssigned(l, w, from))
  {
    ghost var qs, fs := Queues(l.pools), Fields(l.wrappers);
    QueuesAre(l.pools, qs);
    FieldsAre(l.wrappers, fs);
    OwnsHeld(l, w);
    AssignFields(r, other, l, qs, fs, w, from);
    MoveAssignedValid(l, qs, fs, w, from);
  }

  method AssignSelfFields(r: Pooled, ghost l: Ledger, ghost qs: map<PoolId, seq<Buffer>>, ghost fs: map<WrapperId, Held>, ghost w: WrapperId)
    requires Owns(l, qs, fs, w, r) && HaveQueues(l.pools, qs) && HaveFields(l.wrappers, fs) && IdleEmpty(l.objects, qs)
    ensures HaveQueues(l.pools, qs) && HaveFields(l.wrappers, fs) && IdleEmpty(l.objects, qs)
  {
    r.MoveAssign(r);
  }

  method MoveAssignSelf(r: Pooled, ghost l: Ledger, ghost w: WrapperId)
    requires Valid(l) && w in l.wrappers && l.wrappers[w] == r
    ensures Valid(MoveAssigned(l, w, w))
  {
    ghost var qs, fs := Queues(l.pools), Fields(l.wrappers);
    QueuesAre(l.pools, qs);
    FieldsAre(l.wrappers, fs);
    OwnsHeld(l, w);
    AssignSelfFields(r, l, qs, fs, w);
    QueuesAre(l.pools, qs);
    FieldsAre(l.wrappers, fs);
  }

  method MoveAssignStep(r: Pooled, other: Pooled, ghost l: Ledger, ghost w: WrapperId, ghost from: WrapperId)
    requires Valid(l) && w in l.wrappers && l.wrappers[w] == r && from in l.wrappers && l.wrappers[from] == other
    modifies r, other, r.pool, r.buffer
    ensures Valid(MoveAssigned(l, w, from))
  {
    if r == other {
      assert w == from;
      MoveAssignSelf(r, l, w);
    } else {
      MoveAssignOther(r, other, l, w, from);
    }
  }

  method DestroyStep(r: Pooled, ghost l: Ledger, ghost w: WrapperId)
    requires Valid(l) && w in l.wrappers && l.wrappers[w] == r
    modifies r, r.pool, r.buffer
    ensures Valid(Destroyed(l, w))
  {
    ghost var qs, fs := Queues(l.pools), Fields(l.wrappers);
    QueuesAre(l.pools, qs);
    FieldsAre(l.wrappers, fs);
    OwnsHeld(l, w);
    DestroyFields(r, l, qs, fs, w);
    DestroyedValid(l, qs, fs, w);
  }

  method WriteField(r: Pooled, contents: seq<int>, ghost l: Ledger, ghost qs: map<PoolId, seq<Buffer>>, ghost fs: map<WrapperId, Held>,
                    ghost w: WrapperId)
    requires Owns(l, qs, fs, w, r) && HaveQueues(l.pools, qs) && HaveFields(l.wrappers, fs) && IdleEmpty(l.objects, qs)
    requires r.buffer != null
    modifies r.buffer
    ensures HaveQueues(l.pools, qs) && HaveFields(l.wrappers, fs) && IdleEmpty(l.objects, qs) && r.buffer.contents == contents
  {
    r.buffer.contents := contents;
  }

  /** Writing through a wrapper changes no idle object and no other wrapper's object. */
  method WriteStep(r: Pooled, contents: seq<int>, ghost l: Ledger, ghost w: WrapperId)
    requires Valid(l) && w in l.wrappers && l.wrappers[w] == r && r.buffer != null
    modifies r.buffer
    ensures Valid(l) && r.buffer.contents == contents
    ensures forall v :: v in l.wrappers && v != w && l.wrappers[v].buffer != null ==> unchanged(l.wrappers[v].buffer)
  {
    ghost var qs, fs := Queues(l.pools), Fields(l.wrappers);
    QueuesAre(l.pools, qs);
    FieldsAre(l.wrappers, fs);
    OwnsHeld(l, w);
    HeldAlone(l, w);
    WriteField(r, contents, l, qs, fs, w);
    QueuesAre(l.pools, qs);
    FieldsAre(l.wrappers, fs);
  }

  // ---------------------------------------------------------------- on the heap

  /** A program starts with nothing. */
  lemma StartValid()
    ensures Valid(Ledger(INIT, [], map[], map[]))
  {
    ReachedFirst();
  }

  /** Once no wrapper points to a pool, the pool is exactly full. */
  lemma FullOnHeap(l: Ledger, p: PoolId)
    requires Valid(l) && p in l.pools && forall w :: w in l.wrappers ==> l.wrappers[w].pool != l.pools[p]
    ensures |l.pools[p].available| == l.pools[p].poolSize
  {
    ReachedInvariant(l.state);
    assert Balanced(l.state, p);
    forall w | w in l.state.wrappers ensures l.state.wrappers[w].pool != Some(p) {
      assert AreFields(l.objects, l.pools, l.state.wrappers[w], Fields(l.wrappers)[w]);
    }
    assert Holders(l.state.wrappers, p) == {};
  }
}
