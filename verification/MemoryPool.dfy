/** Object pools and the wrappers that return their object when they go: where every object is, over
    every sequence of constructions, moves and destructions. */
module MemoryPool {
  import opened Options

  type Obj = nat
  type PoolId = nat
  type WrapperId = nat

  /** A pool keeps up to `poolSize` idle objects, first in first out. */
  datatype Pool = Pool(poolSize: nat, available: seq<Obj>) {
    predicate IsFull() { |available| >= poolSize }
  }

  /** A wrapper's two fields; both are null once it has been moved from. */
  datatype Wrapper = Wrapper(pool: Option<PoolId>, obj: Option<Obj>)

  const MOVED_FROM := Wrapper(None, None)

  /** Objects are numbered as they are created; `homes[x]` is the pool that created object `x`. The
      objects that a full pool let go are `dropped`. */
  datatype State = State(pools: map<PoolId, Pool>, wrappers: map<WrapperId, Wrapper>, homes: seq<PoolId>, dropped: set<Obj>)

  const INIT := State(map[], map[], [], {})

  datatype Op =
    | NewPool(pool: PoolId, poolSize: nat)
    | Construct(w: WrapperId, pool: PoolId)
    | MoveConstruct(w: WrapperId, from: WrapperId)
    | MoveAssign(w: WrapperId, from: WrapperId)
    | Destroy(w: WrapperId)

  /** Pools and wrappers are constructed under new names, and only existing wrappers are moved or destroyed. */
  predicate Enabled(s: State, op: Op) {
    match op
    case NewPool(p, _) => p !in s.pools
    case Construct(w, p) => w !in s.wrappers && p in s.pools
    case MoveConstruct(w, from) => w !in s.wrappers && from in s.wrappers
    case MoveAssign(w, from) => w in s.wrappers && from in s.wrappers
    case Destroy(w) => w in s.wrappers
  }

  /** The pool a wrapper's object goes back to, if the wrapper has both. */
  predicate GivesBack(s: State, w: Wrapper) { w.pool.Some? && w.obj.Some? && w.pool.value in s.pools }

  /** Returns the wrapper's object to its pool; a full pool lets the object go. */
  function GiveBack(s: State, w: Wrapper): State {
    if !GivesBack(s, w) then s
    else
      var pool, x := s.pools[w.pool.value], w.obj.value;
      if pool.IsFull() then s.(dropped := s.dropped + {x})
      else s.(pools := s.pools[w.pool.value := pool.(available := pool.available + [x])])
  }

  function Apply(s: State, op: Op): State
    requires Enabled(s, op)
  {
    match op
    case NewPool(p, size) =>
      s.(pools := s.pools[p := Pool(size, seq(size, i => |s.homes| + i))], homes := s.homes + seq(size, i => p))
    case Construct(w, p) =>
      var pool := s.pools[p];
      if pool.available != [] then
        s.(pools := s.pools[p := pool.(available := pool.available[1..])],
           wrappers := s.wrappers[w := Wrapper(Some(p), Some(pool.available[0]))])
      else
        s.(wrappers := s.wrappers[w := Wrapper(Some(p), Some(|s.homes|))], homes := s.homes + [p])
    case MoveConstruct(w, from) => s.(wrappers := s.wrappers[w := s.wrappers[from]][from := MOVED_FROM])
    case MoveAssign(w, from) =>
      if w == from then s
      else GiveBack(s, s.wrappers[w]).(wrappers := s.wrappers[w := s.wrappers[from]][from := MOVED_FROM])
    case Destroy(w) => GiveBack(s, s.wrappers[w]).(wrappers := s.wrappers - {w})
  }

  ghost predicate IsRun(states: seq<State>, ops: seq<Op>) {
    && |states| == |ops| + 1 && states[0] == INIT
    && forall i :: 0 <= i < |ops| ==> Enabled(states[i], ops[i]) && states[i + 1] == Apply(states[i], ops[i])
  }

  // ---------------------------------------------------------------- one place per object

  /** Where an object can be: a position in a pool's queue, or a wrapper. */
  datatype Place = InPool(pool: PoolId, index: nat) | InWrapper(wrapper: WrapperId)

  predicate At(s: State, x: Obj, a: Place) {
    match a
    case InPool(p, i) => p in s.pools && i < |s.pools[p].available| && s.pools[p].available[i] == x
    case InWrapper(w) => w in s.wrappers && s.wrappers[w].obj == Some(x)
  }

  /** The place belongs to the pool: in its queue, or in a wrapper that will return there. */
  predicate Belongs(s: State, a: Place, p: PoolId) {
    match a
    case InPool(q, _) => q == p
    case InWrapper(w) => w in s.wrappers && s.wrappers[w].pool == Some(p)
  }

  predicate Alive(s: State, x: Obj) { x < |s.homes| && x !in s.dropped }

  /** Whatever is at a place is alive and at home there. */
  ghost predicate AtHome(s: State) {
    forall x: Obj, a :: At(s, x, a) ==> Alive(s, x) && Belongs(s, a, s.homes[x])
  }

  ghost predicate NoTwoPlaces(s: State) { forall x: Obj, a, b :: At(s, x, a) && At(s, x, b) ==> a == b }

  ghost predicate SomePlace(s: State) { forall x: Obj :: Alive(s, x) ==> exists a :: At(s, x, a) }

  ghost predicate DroppedKnown(s: State) { forall x :: x in s.dropped ==> x < |s.homes| }

  /** Every object that was created and not let go by a full pool is in exactly one place: its own pool's
      queue, or one wrapper of that pool. Nothing else is anywhere. */
  ghost predicate ExactlyOnePlace(s: State) { AtHome(s) && NoTwoPlaces(s) && SomePlace(s) && DroppedKnown(s) }

  /** A wrapper has a pool exactly when it has an object, and the pool is known. */
  ghost predicate GoodWrappers(s: State) {
    forall w :: w in s.wrappers ==>
      s.wrappers[w].pool.Some? == s.wrappers[w].obj.Some? && (s.wrappers[w].pool.Some? ==> s.wrappers[w].pool.value in s.pools)
  }

  /** The wrappers that hold an object of a pool. */
  function Holders(wrappers: map<WrapperId, Wrapper>, p: PoolId): set<WrapperId> {
    set w | w in wrappers && wrappers[w].pool == Some(p)
  }

  /** A pool never overflows, and what is missing from it is outstanding. */
  ghost predicate Balanced(s: State, p: PoolId)
    requires p in s.pools
  {
    |s.pools[p].available| <= s.pools[p].poolSize <= |s.pools[p].available| + |Holders(s.wrappers, p)|
  }

  ghost predicate AllBalanced(s: State) { forall p :: p in s.pools ==> Balanced(s, p) }

  ghost predicate Invariant(s: State) { ExactlyOnePlace(s) && GoodWrappers(s) && AllBalanced(s) }

  // ---------------------------------------------------------------- where objects come from

  /** Where the object at place `a` after an operation was before it. */
  function Before(s: State, op: Op, a: Place): Place
    requires Enabled(s, op)
  {
    match op
    case NewPool(_, _) => a
    case Construct(w, p) =>
      if a == InWrapper(w) then InPool(p, 0)
      else if a.InPool? && a.pool == p && s.pools[p].available != [] then InPool(p, a.index + 1)
      else a
    case MoveConstruct(w, from) => if a == InWrapper(w) then InWrapper(from) else a
    case MoveAssign(w, from) =>
      if w == from then a
      else if a == InWrapper(w) then InWrapper(from)
      else GivenBackFrom(s, w, a)
    case Destroy(w) => GivenBackFrom(s, w, a)
  }

  /** A pool position that was not there before was filled from the wrapper. */
  function GivenBackFrom(s: State, w: WrapperId, a: Place): Place {
    if a.InPool? && a.pool in s.pools && a.index == |s.pools[a.pool].available| then InWrapper(w) else a
  }

  /** The place at which an operation puts the objects it creates. */
  predicate Birthplace(s: State, op: Op, x: Obj, a: Place) {
    match op
    case NewPool(p, _) => x >= |s.homes| && a == InPool(p, x - |s.homes|)
    case Construct(w, p) => x == |s.homes| && a == InWrapper(w)
    case _ => false
  }

  lemma CameFrom(s: State, op: Op, x: Obj, a: Place)
    requires Enabled(s, op) && GoodWrappers(s) && At(Apply(s, op), x, a)
    ensures At(s, x, Before(s, op, a)) || (|s.homes| <= x < |Apply(s, op).homes| && Birthplace(s, op, x, a))
  {}

  lemma BeforeInjective(s: State, op: Op, x: Obj, a: Place, b: Place)
    requires Enabled(s, op) && GoodWrappers(s) && At(Apply(s, op), x, a) && At(Apply(s, op), x, b)
    requires Before(s, op, a) == Before(s, op, b)
    ensures a == b
  {}

  lemma StepNoTwoPlaces(s: State, op: Op)
    requires Enabled(s, op) && GoodWrappers(s) && AtHome(s) && NoTwoPlaces(s)
    ensures NoTwoPlaces(Apply(s, op))
  {
    var r := Apply(s, op);
    forall x: Obj, a, b | At(r, x, a) && At(r, x, b) ensures a == b {
      CameFrom(s, op, x, a);
      CameFrom(s, op, x, b);
      if !Birthplace(s, op, x, a) && !Birthplace(s, op, x, b) { BeforeInjective(s, op, x, a, b); }
    }
  }

  // ---------------------------------------------------------------- where objects go

  /** The operation takes the object out of a wrapper and offers it to a full pool. */
  predicate Drops(s: State, op: Op, x: Obj) {
    && (op.Destroy? || (op.MoveAssign? && op.w != op.from)) && op.w in s.wrappers
    && GivesBack(s, s.wrappers[op.w]) && s.wrappers[op.w].obj == Some(x) && s.pools[s.wrappers[op.w].pool.value].IsFull()
  }

  lemma DroppedOnlyByFull(s: State, op: Op, x: Obj)
    requires Enabled(s, op)
    ensures x in Apply(s, op).dropped <==> x in s.dropped || Drops(s, op, x)
  {}

  lemma StepDroppedKnown(s: State, op: Op)
    requires Enabled(s, op) && AtHome(s) && DroppedKnown(s)
    ensures DroppedKnown(Apply(s, op))
  {
    forall x | x in Apply(s, op).dropped ensures x < |s.homes| {
      DroppedOnlyByFull(s, op, x);
      if x !in s.dropped { assert At(s, x, InWrapper(op.w)); }
    }
  }

  /** An object that a full pool lets go is nowhere afterwards. */
  lemma DroppedIsNowhere(s: State, op: Op, x: Obj, a: Place)
    requires Enabled(s, op) && GoodWrappers(s) && NoTwoPlaces(s) && Drops(s, op, x)
    ensures !At(Apply(s, op), x, a)
  {
    assert At(s, x, InWrapper(op.w));
    if At(Apply(s, op), x, a) {
      CameFrom(s, op, x, a);
    }
  }

  lemma StepAlive(s: State, op: Op, x: Obj, a: Place)
    requires Enabled(s, op) && GoodWrappers(s) && AtHome(s) && NoTwoPlaces(s) && DroppedKnown(s) && At(Apply(s, op), x, a)
    ensures Alive(Apply(s, op), x)
  {
    CameFrom(s, op, x, a);
    DroppedOnlyByFull(s, op, x);
    if Drops(s, op, x) { DroppedIsNowhere(s, op, x, a); }
  }

  lemma StepBelongs(s: State, op: Op, x: Obj, a: Place)
    requires Enabled(s, op) && GoodWrappers(s) && AtHome(s) && At(Apply(s, op), x, a) && x < |Apply(s, op).homes|
    ensures Belongs(Apply(s, op), a, Apply(s, op).homes[x])
  {
    CameFrom(s, op, x, a);
  }

  /** Where the object at place `a` before an operation is after it, unless it is dropped. */
  function After(s: State, op: Op, a: Place): Place
    requires Enabled(s, op)
  {
    match op
    case NewPool(_, _) => a
    case Construct(w, p) =>
      if a == InPool(p, 0) then InWrapper(w)
      else if a.InPool? && a.pool == p then InPool(p, a.index - 1)
      else a
    case MoveConstruct(w, from) => if a == InWrapper(from) then InWrapper(w) else a
    case MoveAssign(w, from) =>
      if w == from then a
      else if a == InWrapper(from) then InWrapper(w)
      else if a == InWrapper(w) then ReturnedTo(s, w)
      else a
    case Destroy(w) => if a == InWrapper(w) then ReturnedTo(s, w) else a
  }

  /** The end of the queue of the wrapper's pool. */
  function ReturnedTo(s: State, w: WrapperId): Place
    requires w in s.wrappers
  {
    if GivesBack(s, s.wrappers[w]) then InPool(s.wrappers[w].pool.value, |s.pools[s.wrappers[w].pool.value].available|)
    else InWrapper(w)
  }

  /** No operation loses an object, except by offering it to a full pool. */
  lemma GoesTo(s: State, op: Op, x: Obj, a: Place)
    requires Enabled(s, op) && GoodWrappers(s) && At(s, x, a) && !Drops(s, op, x)
    ensures At(Apply(s, op), x, After(s, op, a))
  {}

  lemma BornAt(s: State, op: Op, x: Obj) returns (a: Place)
    requires Enabled(s, op) && |s.homes| <= x < |Apply(s, op).homes|
    ensures At(Apply(s, op), x, a)
  {
    a := if op.NewPool? then InPool(op.pool, x - |s.homes|) else InWrapper(op.w);
  }

  lemma StepSomePlace(s: State, op: Op)
    requires Enabled(s, op) && GoodWrappers(s) && SomePlace(s)
    ensures SomePlace(Apply(s, op))
  {
    var r := Apply(s, op);
    forall x: Obj | Alive(r, x) ensures exists a :: At(r, x, a) {
      DroppedOnlyByFull(s, op, x);
      if x < |s.homes| {
        assert Alive(s, x);
        var a :| At(s, x, a);
        GoesTo(s, op, x, a);
      } else {
        var a := BornAt(s, op, x);
      }
    }
  }

  lemma StepKeepsPlaces(s: State, op: Op)
    requires Enabled(s, op) && GoodWrappers(s) && ExactlyOnePlace(s)
    ensures ExactlyOnePlace(Apply(s, op))
  {
    forall x: Obj, a | At(Apply(s, op), x, a)
      ensures var r := Apply(s, op); Alive(r, x) && Belongs(r, a, r.homes[x])
    {
      StepAlive(s, op, x, a);
      StepBelongs(s, op, x, a);
    }
    StepDroppedKnown(s, op);
    StepNoTwoPlaces(s, op);
    StepSomePlace(s, op);
  }

  lemma StepKeepsWrappers(s: State, op: Op)
    requires Enabled(s, op) && GoodWrappers(s)
    ensures GoodWrappers(Apply(s, op))
  {}

  // ---------------------------------------------------------------- the balance

  lemma HoldersUpdate(wrappers: map<WrapperId, Wrapper>, w: WrapperId, x: Wrapper, p: PoolId)
    ensures Holders(wrappers[w := x], p) == if x.pool == Some(p) then Holders(wrappers, p) + {w} else Holders(wrappers, p) - {w}
  {}

  lemma HoldersRemove(wrappers: map<WrapperId, Wrapper>, w: WrapperId, p: PoolId)
    ensures Holders(wrappers - {w}, p) == Holders(wrappers, p) - {w}
  {}

  lemma ConstructBalances(s: State, w: WrapperId, p: PoolId, q: PoolId)
    requires Enabled(s, Construct(w, p)) && q in s.pools && Balanced(s, q)
    ensures Balanced(Apply(s, Construct(w, p)), q)
  {
    HoldersUpdate(s.wrappers, w, Apply(s, Construct(w, p)).wrappers[w], q);
  }

  /** A move leaves the number of holders of each pool as it was. */
  lemma MoveHolders(wrappers: map<WrapperId, Wrapper>, w: WrapperId, from: WrapperId, p: PoolId)
    requires from in wrappers && w != from && (w in wrappers ==> wrappers[w].pool != Some(p))
    ensures |Holders(wrappers[w := wrappers[from]][from := MOVED_FROM], p)| == |Holders(wrappers, p)|
  {
    HoldersUpdate(wrappers, w, wrappers[from], p);
    HoldersUpdate(wrappers[w := wrappers[from]], from, MOVED_FROM, p);
    if from in Holders(wrappers, p) {
      assert Holders(wrappers, p) + {w} - {from} == Holders(wrappers, p) - {from} + {w};
    } else {
      assert Holders(wrappers, p) - {w} - {from} == Holders(wrappers, p);
    }
  }

  /** Dropping a wrapper and giving its object back keeps every pool balanced. */
  lemma GiveBackBalances(s: State, w: WrapperId, q: PoolId)
    requires w in s.wrappers && GoodWrappers(s) && q in s.pools && Balanced(s, q)
    ensures Balanced(GiveBack(s, s.wrappers[w]).(wrappers := s.wrappers - {w}), q)
  {
    HoldersRemove(s.wrappers, w, q);
  }

  lemma MoveAssignBalances(s: State, w: WrapperId, from: WrapperId, q: PoolId)
    requires Enabled(s, MoveAssign(w, from)) && GoodWrappers(s) && q in s.pools && Balanced(s, q)
    ensures Balanced(Apply(s, MoveAssign(w, from)), q)
  {
    if w != from {
      GiveBackBalances(s, w, q);
      var rest := s.wrappers - {w};
      MoveHolders(rest, w, from, q);
      assert rest[w := rest[from]][from := MOVED_FROM] == s.wrappers[w := s.wrappers[from]][from := MOVED_FROM];
    }
  }

  /** `available <= size <= available + outstanding` holds of every pool after every operation, if it did
      before. */
  lemma StepBalances(s: State, op: Op, q: PoolId)
    requires Enabled(s, op) && GoodWrappers(s) && AllBalanced(s) && q in Apply(s, op).pools
    ensures Balanced(Apply(s, op), q)
  {
    if q in s.pools {
      assert Balanced(s, q);
    }
    match op
    case NewPool(_, _) =>
    case Construct(w, p) => ConstructBalances(s, w, p, q);
    case MoveConstruct(w, from) => MoveHolders(s.wrappers, w, from, q);
    case MoveAssign(w, from) => MoveAssignBalances(s, w, from, q);
    case Destroy(w) => GiveBackBalances(s, w, q);
  }

  lemma StepKeeps(s: State, op: Op)
    requires Enabled(s, op) && Invariant(s)
    ensures Invariant(Apply(s, op))
  {
    StepKeepsPlaces(s, op);
    StepKeepsWrappers(s, op);
    forall q | q in Apply(s, op).pools ensures Balanced(Apply(s, op), q) { StepBalances(s, op, q); }
  }

  // ---------------------------------------------------------------- over every run

  /** Conservation over every sequence of operations, from nothing: every object created and not let go
      by a full pool is in exactly one place, in its own pool's queue or in one wrapper of that pool; no
      pool overflows; and what is missing from a pool is held by wrappers. */
  lemma {:induction false} RunInvariant(states: seq<State>, ops: seq<Op>, i: nat)
    requires IsRun(states, ops) && i < |states|
    ensures Invariant(states[i])
  {
    if i > 0 {
      RunInvariant(states, ops, i - 1);
      StepKeeps(states[i - 1], ops[i - 1]);
    }
  }

  ghost predicate Reached(s: State) { exists states, ops :: IsRun(states, ops) && states[|ops|] == s }

  lemma ReachedFirst()
    ensures Reached(INIT)
  {
    assert IsRun([INIT], []);
  }

  lemma ReachedNext(s: State, op: Op)
    requires Reached(s) && Enabled(s, op)
    ensures Reached(Apply(s, op))
  {
    var states, ops :| IsRun(states, ops) && states[|ops|] == s;
    AppendStep(states, ops, op, Apply(s, op));
  }

  lemma AppendStep(states: seq<State>, ops: seq<Op>, op: Op, r: State)
    requires IsRun(states, ops) && Enabled(states[|ops|], op) && r == Apply(states[|ops|], op)
    ensures IsRun(states + [r], ops + [op]) && (states + [r])[|ops + [op]|] == r
  {}

  lemma ReachedInvariant(s: State)
    requires Reached(s)
    ensures Invariant(s)
  {
    var states, ops :| IsRun(states, ops) && states[|ops|] == s;
    RunInvariant(states, ops, |ops|);
  }

  /** In terms of one object: its place is unique, and where it belongs. */
  lemma OnePlace(states: seq<State>, ops: seq<Op>, i: nat, x: Obj) returns (a: Place)
    requires IsRun(states, ops) && i < |states| && x < |states[i].homes| && x !in states[i].dropped
    ensures At(states[i], x, a) && Belongs(states[i], a, states[i].homes[x])
    ensures forall b :: At(states[i], x, b) ==> b == a
  {
    RunInvariant(states, ops, i);
    assert Alive(states[i], x);
    a :| At(states[i], x, a);
  }

  /** An object is gone for good exactly when, at some time before, a wrapper gave it back to a pool that
      was full. */
  lemma {:induction false} DroppedIff(states: seq<State>, ops: seq<Op>, i: nat, x: Obj)
    requires IsRun(states, ops) && i < |states|
    ensures x in states[i].dropped <==> exists k :: 0 <= k < i && Drops(states[k], ops[k], x)
  {
    if i > 0 {
      DroppedIff(states, ops, i - 1, x);
      DroppedOnlyByFull(states[i - 1], ops[i - 1], x);
    }
  }

  /** `x` stands before `y` in the queue. */
  predicate Precedes(queue: seq<Obj>, x: Obj, y: Obj) {
    exists a, b :: 0 <= a < b < |queue| && queue[a] == x && queue[b] == y
  }

  /** A queue that changes loses its front or gains a back. */
  ghost predicate QueueStep(q: seq<Obj>, r: seq<Obj>) {
    r == q || (q != [] && r == q[1..]) || (r != [] && r[..|r| - 1] == q)
  }

  lemma StepMovesQueue(s: State, op: Op, p: PoolId)
    requires Enabled(s, op) && p in s.pools
    ensures p in Apply(s, op).pools && QueueStep(s.pools[p].available, Apply(s, op).pools[p].available)
  {}

  predicate NoRepeats(queue: seq<Obj>) { forall a, b :: 0 <= a < b < |queue| ==> queue[a] != queue[b] }

  lemma QueueNoRepeats(s: State, p: PoolId)
    requires NoTwoPlaces(s) && p in s.pools
    ensures NoRepeats(s.pools[p].available)
  {
    var q := s.pools[p].available;
    forall a, b | 0 <= a < b < |q| ensures q[a] != q[b] {
      assert At(s, q[a], InPool(p, a)) && At(s, q[b], InPool(p, b));
    }
  }

  lemma StepKeepsOrder(q: seq<Obj>, r: seq<Obj>, x: Obj, y: Obj)
    requires NoRepeats(q) && QueueStep(q, r) && Precedes(q, x, y) && x in r
    ensures Precedes(r, x, y)
  {
    var a, b :| 0 <= a < b < |q| && q[a] == x && q[b] == y;
    if q != [] && r == q[1..] {
      assert a > 0;
      assert r[a - 1] == x && r[b - 1] == y;
    } else {
      assert r[a] == x && r[b] == y;
    }
  }

  ghost predicate QueueRun(states: seq<State>, p: PoolId) {
    && (forall i :: 0 <= i < |states| && p in states[i].pools ==> NoRepeats(states[i].pools[p].available))
    && (forall i :: 0 <= i < |states| - 1 && p in states[i].pools ==>
          p in states[i + 1].pools && QueueStep(states[i].pools[p].available, states[i + 1].pools[p].available))
  }

  lemma RunMovesQueue(states: seq<State>, ops: seq<Op>, p: PoolId)
    requires IsRun(states, ops)
    ensures QueueRun(states, p)
  {
    forall i | 0 <= i < |states| && p in states[i].pools ensures NoRepeats(states[i].pools[p].available) {
      RunInvariant(states, ops, i);
      QueueNoRepeats(states[i], p);
    }
    forall i | 0 <= i < |states| - 1 && p in states[i].pools
      ensures p in states[i + 1].pools && QueueStep(states[i].pools[p].available, states[i + 1].pools[p].available)
    {
      StepMovesQueue(states[i], ops[i], p);
    }
  }

  lemma {:induction false} OrderKept(states: seq<State>, i: nat, k: nat, p: PoolId, x: Obj, y: Obj)
    requires QueueRun(states, p) && i <= k < |states| && p in states[i].pools && Precedes(states[i].pools[p].available, x, y)
    requires forall m :: i <= m <= k && p in states[m].pools ==> x in states[m].pools[p].available
    ensures p in states[k].pools && Precedes(states[k].pools[p].available, x, y)
    decreases k
  {
    if i < k {
      OrderKept(states, i, k - 1, p, x, y);
      var m := k - 1;
      assert p in states[m + 1].pools && QueueStep(states[m].pools[p].available, states[m + 1].pools[p].available);
      StepKeepsOrder(states[m].pools[p].available, states[k].pools[p].available, x, y);
    }
  }

  /** First in, first out, over every run: as long as an object stays idle in its pool's queue, every object
      behind it stays behind it, so it is handed out before them. */
  lemma FirstInFirstOut(states: seq<State>, ops: seq<Op>, i: nat, k: nat, p: PoolId, x: Obj, y: Obj)
    requires IsRun(states, ops) && i <= k < |states| && p in states[i].pools && Precedes(states[i].pools[p].available, x, y)
    requires forall m :: i <= m <= k && p in states[m].pools ==> x in states[m].pools[p].available
    ensures p in states[k].pools && Precedes(states[k].pools[p].available, x, y)
  {
    RunMovesQueue(states, ops, p);
    OrderKept(states, i, k, p, x, y);
  }

  /** Once no wrapper holds anything of a pool, the pool is exactly full again. */
  lemma FullWhenAllGone(states: seq<State>, ops: seq<Op>, i: nat, p: PoolId)
    requires IsRun(states, ops) && i < |states| && p in states[i].pools
    requires forall w :: w in states[i].wrappers ==> states[i].wrappers[w].pool != Some(p)
    ensures |states[i].pools[p].available| == states[i].pools[p].poolSize
  {
    RunInvariant(states, ops, i);
    assert Balanced(states[i], p);
    assert Holders(states[i].wrappers, p) == {};
  }
}
