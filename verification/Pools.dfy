/** A pool of equal slots, its free list threaded through the headers of the slots.
    A slot keeps its old link while it is in use. */
module Pools {

  /** The address of a slot in the memory at `base`. */
  datatype Ptr = Null | At(base: int, slot: int)

  datatype Pool = Pool(base: int, next: seq<Ptr>, head: Ptr, tail: Ptr)

  predicate Inside(p: Pool, q: Ptr) {
    q.At? && q.base == p.base && 0 <= q.slot < |p.next|
  }

  /** `free` is what the links spell from the head to the tail. The link of the tail
      itself is not looked at. */
  ghost predicate Threaded(p: Pool, free: seq<int>) {
    && (forall i :: 0 <= i < |free| ==> 0 <= free[i] < |p.next|)
    && (forall i, j :: 0 <= i < j < |free| ==> free[i] != free[j])
    && if free == [] then p.head == Null
       else
         && p.head == At(p.base, free[0])
         && p.tail == At(p.base, free[|free| - 1])
         && forall i :: 0 < i < |free| ==> p.next[free[i - 1]] == At(p.base, free[i])
  }

  /** The slots in use. */
  function Live(p: Pool, free: seq<int>): set<int> {
    set s | 0 <= s < |p.next| && s !in free
  }

  // ---------- the operations ----------

  function Created(base: int, count: nat): Pool
    requires count > 0
  {
    Pool(base, seq(count, i => if i < count - 1 then At(base, i + 1) else Null), At(base, 0), At(base, count - 1))
  }

  /** Links of the free list follow the memory to its new base; the last one goes to the
      first new slot. All other old links stay as they are, so they may point into the
      memory that is gone. */
  function OldLink(p: Pool, free: seq<int>, base: int, k: nat): Ptr
    requires k < |p.next|
  {
    if k !in free then p.next[k]
    else if free[|free| - 1] == k then At(base, |p.next|)
    else if p.next[k].At? then At(base, p.next[k].slot)
    else Null
  }

  /** The last new link is not written: it is whatever the memory holds, or, when there
      is one new slot only, a link of the slot to itself. */
  function NewLink(p: Pool, base: int, raw: seq<Ptr>, k: nat): Ptr
    requires |p.next| <= k < |p.next| + |raw|
  {
    if k < |p.next| + |raw| - 1 then At(base, k + 1)
    else if |raw| == 1 then At(base, k)
    else raw[|raw| - 1]
  }

  /** `raw` is what the new memory at `base` holds after the old slots. */
  function Extended(p: Pool, free: seq<int>, base: int, raw: seq<Ptr>): Pool
    requires |raw| > 0
  {
    var n := |p.next|;
    Pool(base,
         seq(n + |raw|, k requires 0 <= k < n + |raw| => if k < n then OldLink(p, free, base, k) else NewLink(p, base, raw, k)),
         if p.head.At? then At(base, p.head.slot) else At(base, n),
         At(base, n + |raw| - 1))
  }

  /** The slot at the head, and the pool without it. */
  function Got(p: Pool): (r: (Pool, int))
    requires Inside(p, p.head)
  {
    (p.(head := p.next[p.head.slot]), p.head.slot)
  }

  function Released(p: Pool, slot: int): Pool
    requires 0 <= slot < |p.next|
    requires p.head.At? ==> Inside(p, p.tail)
  {
    if p.head.Null? then p.(next := p.next[slot := Null], head := At(p.base, slot), tail := At(p.base, slot))
    else p.(next := p.next[p.tail.slot := At(p.base, slot)], tail := At(p.base, slot))
  }

  function Numbers(from: nat, count: nat): (s: seq<int>)
    ensures |s| == count && forall i :: 0 <= i < count ==> s[i] == from + i
  {
    seq(count, i => from + i)
  }

  // ---------- one operation ----------

  lemma {:induction false} ThreadedSame(p: Pool, f: seq<int>, g: seq<int>, k: nat)
    requires Threaded(p, f) && Threaded(p, g) && k <= |f| && k <= |g|
    ensures f[..k] == g[..k]
  {
    if k > 0 {
      ThreadedSame(p, f, g, k - 1);
      if k > 1 {
        assert f[k - 2] == f[..k - 1][k - 2] == g[..k - 1][k - 2] == g[k - 2];
      }
      assert f[k - 1] == g[k - 1];
      assert f[..k] == f[..k - 1] + [f[k - 1]] && g[..k] == g[..k - 1] + [g[k - 1]];
    }
  }

  /** The links spell one list only. */
  lemma ThreadedUnique(p: Pool, f: seq<int>, g: seq<int>)
    requires Threaded(p, f) && Threaded(p, g)
    ensures f == g
  {
    var k := if |f| <= |g| then |f| else |g|;
    ThreadedSame(p, f, g, k);
    assert f[..k] == g[..k];
    if k > 0 {
      assert f[..k][k - 1] == g[..k][k - 1];
    }
    assert f[..|f|] == f && g[..|g|] == g;
  }

  lemma CreatedThreaded(base: int, count: nat)
    requires count > 0
    ensures Threaded(Created(base, count), Numbers(0, count))
  {
  }

  lemma ReleasedThreaded(p: Pool, free: seq<int>, slot: int)
    requires Threaded(p, free) && slot in Live(p, free)
    ensures Threaded(Released(p, slot), free + [slot])
  {
    var q, f := Released(p, slot), free + [slot];
    forall i | 0 < i < |f| ensures q.next[f[i - 1]] == At(q.base, f[i]) {
      assert f[i - 1] == free[i - 1];
    }
  }

  /** Moving the memory keeps the free list, and the new slots come after it. */
  lemma ExtendedThreaded(p: Pool, free: seq<int>, base: int, raw: seq<Ptr>)
    requires Threaded(p, free) && |raw| > 0
    ensures Threaded(Extended(p, free, base, raw), free + Numbers(|p.next|, |raw|))
  {
    var q, f := Extended(p, free, base, raw), free + Numbers(|p.next|, |raw|);
    forall i | 0 < i < |f| ensures q.next[f[i - 1]] == At(q.base, f[i]) {
      if i <= |free| {
        assert f[i - 1] == free[i - 1] && free[i - 1] in free;
        if i == |free| { assert f[i] == |p.next|; } else { assert free[i - 1] != free[|free| - 1]; }
      } else {
        assert f[i - 1] == |p.next| + (i - 1 - |free|);
      }
    }
  }

  /** Taking the last slot makes the pool full only if that slot links nowhere. */
  predicate Clean(p: Pool)
    requires Inside(p, p.head)
  {
    p.head != p.tail || p.next[p.head.slot] == Null
  }

  /** Taking a slot leaves a list of the other free slots exactly when it is clean:
      otherwise no list that leaves the slot out is spelled by the links. */
  lemma GotThreaded(p: Pool, free: seq<int>)
    requires Threaded(p, free) && free != []
    ensures Inside(p, p.head)
    ensures Got(p).1 == free[0] && free[0] !in Live(p, free)
    ensures Clean(p) ==> Threaded(Got(p).0, free[1..])
    ensures Clean(p) <==> exists f :: Threaded(Got(p).0, f) && free[0] !in f
  {
    var q := Got(p).0;
    if Clean(p) {
      var f := free[1..];
      if f != [] {
        forall i | 0 < i < |f| ensures q.next[f[i - 1]] == At(q.base, f[i]) {
          assert f[i - 1] == free[i] && f[i] == free[i + 1];
        }
        assert free[1] == f[0];
      } else {
        assert |free| == 1;
      }
      assert Threaded(q, f);
    } else {
      assert |free| == 1;
      forall f | Threaded(q, f) ensures free[0] in f {
        assert f != [] && f[|f| - 1] == free[0];
      }
    }
  }

  // ---------- runs ----------

  /** `base` and `raw` are what the allocator gives if the pool has to grow. */
  datatype Op = Get(base: int, raw: seq<Ptr>) | Release(slot: int) | Extend(base: int, raw: seq<Ptr>)

  /** The promise: free slots are handed out in the order in which they came back. */
  datatype Queue = Queue(free: seq<int>, count: nat)

  /** What the client and the allocator keep to: only live slots come back, and memory
      grows, by doubling when `pool_get` needs it. */
  predicate Allowed(a: Queue, op: Op) {
    match op
    case Get(_, raw) => a.free != [] || (|raw| == a.count && a.count > 0)
    case Release(slot) => 0 <= slot < a.count && slot !in a.free
    case Extend(_, raw) => |raw| > 0
  }

  function Grown(a: Queue, op: Op): Queue {
    if op.Release? || (op.Get? && a.free != []) then a
    else Queue(a.free + Numbers(a.count, |op.raw|), a.count + |op.raw|)
  }

  function Promise(a: Queue, op: Op): Queue
    requires Allowed(a, op)
  {
    match op
    case Get(_, _) => Grown(a, op).(free := Grown(a, op).free[1..])
    case Release(slot) => a.(free := a.free + [slot])
    case Extend(_, _) => Grown(a, op)
  }

  /** The pool once it has grown, if `op` makes it. */
  function Room(p: Pool, free: seq<int>, op: Op): Pool
    requires op.Release? || (p.head.At? && op.Get?) || |op.raw| > 0
  {
    if op.Release? || (op.Get? && p.head.At?) then p else Extended(p, free, op.base, op.raw)
  }

  ghost predicate Tracks(p: Pool, a: Queue) {
    Threaded(p, a.free) && |p.next| == a.count
  }

  lemma RoomTracks(p: Pool, a: Queue, op: Op)
    requires Tracks(p, a) && Allowed(a, op)
    ensures Tracks(Room(p, a.free, op), Grown(a, op))
  {
    if !(op.Release? || (op.Get? && p.head.At?)) {
      ExtendedThreaded(p, a.free, op.base, op.raw);
    }
  }

  function Done(p: Pool, a: Queue, op: Op): Pool
    requires Tracks(p, a) && Allowed(a, op)
  {
    RoomTracks(p, a, op);
    match op
    case Get(_, _) => Got(Room(p, a.free, op)).0
    case Release(slot) => Released(p, slot)
    case Extend(_, _) => Room(p, a.free, op)
  }

  /** A test before the call: does this call take the last slot, and does that slot
      link somewhere? */
  predicate CleanOp(p: Pool, a: Queue, op: Op)
    requires Tracks(p, a) && Allowed(a, op)
  {
    RoomTracks(p, a, op);
    op.Get? ==> Clean(Room(p, a.free, op))
  }

  /** The call hands out the slot that is first in the promised queue, which is not in
      use, and leaves the pool at the promised queue, exactly when it is clean. */
  lemma StepTracks(p: Pool, a: Queue, op: Op)
    requires Tracks(p, a) && Allowed(a, op)
    ensures Tracks(Done(p, a, op), Promise(a, op)) <==> CleanOp(p, a, op)
    ensures op.Get? ==>
      var room := Room(p, a.free, op);
      Inside(room, room.head) && Grown(a, op).free != [] && Got(room).1 == Grown(a, op).free[0] && Got(room).1 !in Live(p, a.free)
  {
    RoomTracks(p, a, op);
    match op {
      case Get(_, _) =>
        var g := Grown(a, op);
        GotThreaded(Room(p, a.free, op), g.free);
        assert g.free[0] !in g.free[1..];
        if a.free != [] { assert g == a; } else { assert g.free[0] == a.count; }
      case Release(slot) => ReleasedThreaded(p, a.free, slot);
      case Extend(_, _) =>
    }
  }

  /** The client keeps to the rules over the whole run, whatever the pool does. */
  predicate AllowedRun(a: Queue, ops: seq<Op>)
    decreases |ops|
  {
    ops == [] || (Allowed(a, ops[0]) && AllowedRun(Promise(a, ops[0]), ops[1..]))
  }

  /** The pool is at the promised queue after every call. */
  ghost predicate TracksRun(p: Pool, a: Queue, ops: seq<Op>)
    requires AllowedRun(a, ops)
    decreases |ops|
  {
    Tracks(p, a) && (ops == [] || TracksRun(Done(p, a, ops[0]), Promise(a, ops[0]), ops[1..]))
  }

  /** Every call is clean when it is made, up to the first that is not. */
  ghost predicate CleanRun(p: Pool, a: Queue, ops: seq<Op>)
    requires Tracks(p, a) && AllowedRun(a, ops)
    decreases |ops|
  {
    ops == [] ||
    (CleanOp(p, a, ops[0]) &&
     (StepTracks(p, a, ops[0]); CleanRun(Done(p, a, ops[0]), Promise(a, ops[0]), ops[1..])))
  }

  /** Over any run from any good pool: it behaves as a queue of free slots throughout
      exactly when every call is clean. */
  lemma {:induction false} RunTracks(p: Pool, a: Queue, ops: seq<Op>)
    requires Tracks(p, a) && AllowedRun(a, ops)
    ensures TracksRun(p, a, ops) <==> CleanRun(p, a, ops)
    decreases |ops|
  {
    if ops != [] {
      StepTracks(p, a, ops[0]);
      if CleanOp(p, a, ops[0]) {
        RunTracks(Done(p, a, ops[0]), Promise(a, ops[0]), ops[1..]);
      }
    }
  }

  // ---------- runs that are clean, and runs that are not ----------

  /** A run that never gives a slot back, in memory that comes cleared. */
  predicate Arena(ops: seq<Op>) {
    forall op :: op in ops ==> !op.Release? && |op.raw| > 1 && op.raw[|op.raw| - 1] == Null
  }

  /** The free slots are the last ones, in order, and the last links nowhere. */
  predicate Fresh(p: Pool, a: Queue) {
    |p.next| == a.count && |a.free| <= a.count && a.free == Numbers(a.count - |a.free|, |a.free|)
    && (a.free != [] ==> p.next[a.count - 1] == Null)
  }

  lemma FreshRoom(p: Pool, a: Queue, op: Op)
    requires Tracks(p, a) && Allowed(a, op) && Arena([op]) && Fresh(p, a)
    ensures Fresh(Room(p, a.free, op), Grown(a, op))
  {
    assert op in [op];
  }

  lemma FreshGot(p: Pool, a: Queue)
    requires Tracks(p, a) && Fresh(p, a) && a.free != []
    ensures Inside(p, p.head) && Clean(p) && Got(p).1 == a.count - |a.free|
    ensures Fresh(Got(p).0, a.(free := a.free[1..]))
  {
    assert a.free[0] == a.count - |a.free| && a.free[|a.free| - 1] == a.count - 1;
    assert a.free[1..] == Numbers(a.count - |a.free| + 1, |a.free| - 1);
  }

  lemma FreshStep(p: Pool, a: Queue, op: Op)
    requires Tracks(p, a) && Allowed(a, op) && Arena([op]) && Fresh(p, a)
    ensures CleanOp(p, a, op) && Fresh(Done(p, a, op), Promise(a, op))
  {
    assert op in [op];
    FreshRoom(p, a, op);
    RoomTracks(p, a, op);
    if op.Get? {
      FreshGot(Room(p, a.free, op), Grown(a, op));
    }
  }

  /** Without releases such a pool hands out 0, 1, 2, ... and every run is clean. */
  lemma {:induction false} ArenaClean(p: Pool, a: Queue, ops: seq<Op>)
    requires Tracks(p, a) && AllowedRun(a, ops) && Arena(ops) && Fresh(p, a)
    ensures CleanRun(p, a, ops)
    decreases |ops|
  {
    if ops != [] {
      FreshStep(p, a, ops[0]);
      StepTracks(p, a, ops[0]);
      ArenaClean(Done(p, a, ops[0]), Promise(a, ops[0]), ops[1..]);
    }
  }

  // ---------- the addresses that clients keep ----------

  predicate Grows(a: Queue, op: Op) { op.Extend? || (op.Get? && a.free == []) }

  /** No call moves the memory. */
  predicate Stays(base: int, a: Queue, ops: seq<Op>)
    requires AllowedRun(a, ops)
    decreases |ops|
  {
    ops == [] || ((Grows(a, ops[0]) ==> ops[0].base == base) && Stays(base, Promise(a, ops[0]), ops[1..]))
  }

  /** The addresses handed out, once `op` is done. */
  function Kept(p: Pool, a: Queue, op: Op, kept: set<Ptr>): set<Ptr>
    requires Tracks(p, a) && Allowed(a, op)
  {
    RoomTracks(p, a, op);
    var room := Room(p, a.free, op);
    if op.Get? then kept + {At(room.base, Got(room).1)} else kept
  }

  ghost predicate AllInside(p: Pool, kept: set<Ptr>) { forall q :: q in kept ==> Inside(p, q) }

  /** After every call, all addresses handed out so far lead into the memory. */
  ghost predicate InsideRun(p: Pool, a: Queue, kept: set<Ptr>, ops: seq<Op>)
    requires Tracks(p, a) && AllowedRun(a, ops) && CleanRun(p, a, ops)
    decreases |ops|
  {
    ops == [] ||
    var more := Kept(p, a, ops[0], kept);
    StepTracks(p, a, ops[0]);
    AllInside(Done(p, a, ops[0]), more) && InsideRun(Done(p, a, ops[0]), Promise(a, ops[0]), more, ops[1..])
  }

  lemma InsideStep(p: Pool, a: Queue, op: Op, kept: set<Ptr>)
    requires Tracks(p, a) && Allowed(a, op) && AllInside(p, kept) && kept != {}
    ensures AllInside(Done(p, a, op), Kept(p, a, op, kept)) <==> (Grows(a, op) ==> op.base == p.base)
    ensures Done(p, a, op).base == if Grows(a, op) then op.base else p.base
  {
    RoomTracks(p, a, op);
    var room := Room(p, a.free, op);
    if Grows(a, op) && op.base != p.base {
      var q :| q in kept;
      assert Inside(p, q) && q in Kept(p, a, op, kept) && !Inside(Done(p, a, op), q);
    }
  }

  /** Over a run in which slots are in use from the start, their addresses stay good if and
      only if no call moves the memory. */
  lemma {:induction false} AddressesKept(p: Pool, a: Queue, kept: set<Ptr>, ops: seq<Op>)
    requires Tracks(p, a) && AllowedRun(a, ops) && CleanRun(p, a, ops) && AllInside(p, kept) && kept != {}
    ensures InsideRun(p, a, kept, ops) <==> Stays(p.base, a, ops)
    decreases |ops|
  {
    if ops != [] {
      InsideStep(p, a, ops[0], kept);
      StepTracks(p, a, ops[0]);
      if Grows(a, ops[0]) ==> ops[0].base == p.base {
        AddressesKept(Done(p, a, ops[0]), Promise(a, ops[0]), Kept(p, a, ops[0], kept), ops[1..]);
      }
    }
  }

  // ---------- cleanness from the operations alone ----------

  /** The promised queue, and the slots that hold a link, in use or not. */
  datatype Notes = Notes(queue: Queue, linked: set<int>)

  function Links(p: Pool): set<int> { set s | 0 <= s < |p.next| && p.next[s] != Null }

  /** Growing links every new slot; the last one as the memory comes. */
  function NewLinks(count: nat, raw: seq<Ptr>): set<int>
    requires |raw| > 0
  {
    var all := set s | s in Numbers(count, |raw|);
    if |raw| == 1 || raw[|raw| - 1] != Null then all else all - {count + |raw| - 1}
  }

  function LastOf(a: Queue): set<int> { if a.free == [] then {} else {a.free[|a.free| - 1]} }

  /** A slot gets a link when another one is queued behind it, and loses it only when
      it comes back to a pool that is full. */
  function Noted(n: Notes, op: Op): Notes
    requires Allowed(n.queue, op)
  {
    var a := n.queue;
    Notes(Promise(a, op),
          match op
          case Release(slot) => if a.free == [] then n.linked - {slot} else n.linked + LastOf(a)
          case Get(_, raw) => if a.free != [] then n.linked else n.linked + NewLinks(a.count, raw)
          case Extend(_, raw) => n.linked + LastOf(a) + NewLinks(a.count, raw))
  }

  /** The call does not take a last slot that holds a link. */
  predicate CleanNote(n: Notes, op: Op)
    requires Allowed(n.queue, op)
  {
    var g := Grown(n.queue, op);
    op.Get? && |g.free| == 1 ==>
      g.free[0] !in n.linked + if n.queue.free == [] then NewLinks(n.queue.count, op.raw) else {}
  }

  predicate CleanNotes(n: Notes, ops: seq<Op>)
    requires AllowedRun(n.queue, ops)
    decreases |ops|
  {
    ops == [] || (CleanNote(n, ops[0]) && CleanNotes(Noted(n, ops[0]), ops[1..]))
  }

  lemma RoomLinks(p: Pool, a: Queue, op: Op)
    requires Tracks(p, a) && Allowed(a, op)
    ensures Links(Room(p, a.free, op)) ==
      if op.Release? || (op.Get? && a.free != []) then Links(p) else Links(p) + LastOf(a) + NewLinks(a.count, op.raw)
  {
    if !(op.Release? || (op.Get? && a.free != [])) {
      var q := Extended(p, a.free, op.base, op.raw);
      var wanted := Links(p) + LastOf(a) + NewLinks(a.count, op.raw);
      forall s: int ensures s in Links(q) <==> s in wanted {
        if a.count <= s < a.count + |op.raw| {
          assert Numbers(a.count, |op.raw|)[s - a.count] == s;
        }
        if 0 <= s < |p.next| && s in a.free && a.free[|a.free| - 1] == s {
          assert q.next[s] == At(op.base, |p.next|);
        }
      }
    }
  }

  lemma NotedStep(p: Pool, a: Queue, op: Op)
    requires Tracks(p, a) && Allowed(a, op)
    ensures CleanOp(p, a, op) <==> CleanNote(Notes(a, Links(p)), op)
    ensures Links(Done(p, a, op)) == Noted(Notes(a, Links(p)), op).linked
  {
    RoomTracks(p, a, op);
    RoomLinks(p, a, op);
    var room, g := Room(p, a.free, op), Grown(a, op);
    match op {
      case Get(_, _) =>
        assert room.head == At(room.base, g.free[0]) && room.tail == At(room.base, g.free[|g.free| - 1]);
        assert |g.free| == 1 <==> room.head == room.tail;
        assert g.free[0] in Links(room) <==> room.next[g.free[0]] != Null;
        assert Links(Got(room).0) == Links(room);
        if a.free == [] {
          assert LastOf(a) == {};
        }
      case Release(slot) =>
        assert Links(Released(p, slot)) == if a.free == [] then Links(p) - {slot} else Links(p) + LastOf(a);
      case Extend(_, _) =>
    }
  }

  /** Whether a run is clean is decided by its operations, from the slots that hold a
      link at its start: memory need not be looked at again. */
  lemma {:induction false} CleanByOperations(p: Pool, a: Queue, ops: seq<Op>)
    requires Tracks(p, a) && AllowedRun(a, ops)
    ensures CleanRun(p, a, ops) <==> CleanNotes(Notes(a, Links(p)), ops)
    decreases |ops|
  {
    if ops != [] {
      NotedStep(p, a, ops[0]);
      StepTracks(p, a, ops[0]);
      if CleanOp(p, a, ops[0]) {
        CleanByOperations(Done(p, a, ops[0]), Promise(a, ops[0]), ops[1..]);
      }
    }
  }

  /** Taking all free slots. */
  function Drain(n: nat): (ops: seq<Op>)
    ensures |ops| == n
  {
    if n == 0 then [] else [Get(0, [])] + Drain(n - 1)
  }

  /** Taking all free slots is clean exactly when the last of them holds no link. */
  lemma {:induction false} Draining(n: Notes)
    ensures AllowedRun(n.queue, Drain(|n.queue.free|))
    ensures CleanNotes(n, Drain(|n.queue.free|)) <==> LastOf(n.queue) !! n.linked
    decreases |n.queue.free|
  {
    if n.queue.free != [] {
      var ops := Drain(|n.queue.free|);
      assert ops[0] == Get(0, []) && ops[1..] == Drain(|n.queue.free| - 1);
      Draining(Noted(n, ops[0]));
    }
  }

  /** Giving slots back in some order. */
  function Releases(slots: seq<int>): (ops: seq<Op>)
    ensures |ops| == |slots|
  {
    if slots == [] then [] else [Release(slots[0])] + Releases(slots[1..])
  }

  predicate Returnable(a: Queue, slots: seq<int>) {
    && (forall i :: 0 <= i < |slots| ==> 0 <= slots[i] < a.count && slots[i] !in a.free)
    && (forall i, j :: 0 <= i < j < |slots| ==> slots[i] != slots[j])
  }

  lemma ReleaseStep(n: Notes, slots: seq<int>)
    requires Returnable(n.queue, slots) && |slots| > 1
    ensures Allowed(n.queue, Release(slots[0]))
    ensures var next := Noted(n, Release(slots[0]));
      && Returnable(next.queue, slots[1..]) && next.queue.free != [] && |next.queue.free| == |n.queue.free| + 1
      && (slots[|slots| - 1] in next.linked <==> slots[|slots| - 1] in n.linked)
  {
    assert slots[0] != slots[|slots| - 1];
  }

  /** Slots that come back and are then all taken again: clean exactly when the last one
      that came back held no link, or came back alone to a full pool. */
  lemma {:induction false} ReleasedDraining(n: Notes, slots: seq<int>)
    requires Returnable(n.queue, slots) && slots != []
    ensures var ops := Releases(slots) + Drain(|n.queue.free| + |slots|);
      && AllowedRun(n.queue, ops)
      && (CleanNotes(n, ops) <==> slots[|slots| - 1] !in n.linked || (n.queue.free == [] && |slots| == 1))
    decreases |slots|
  {
    hide AllowedRun, CleanNotes, Noted, Releases, Drain, LastOf;
    var ops := Releases(slots) + Drain(|n.queue.free| + |slots|);
    var next := Noted(n, Release(slots[0]));
    ReleasesSplit(slots, Drain(|n.queue.free| + |slots|));
    ReleaseFirst(n, ops);
    if |slots| == 1 {
      OneReleased(n, slots[0]);
      Draining(next);
    } else {
      ReleaseStep(n, slots);
      ReleasedDraining(next, slots[1..]);
    }
  }

  lemma OneReleased(n: Notes, slot: int)
    requires Returnable(n.queue, [slot])
    ensures Allowed(n.queue, Release(slot))
    ensures var next := Noted(n, Release(slot));
      && |next.queue.free| == |n.queue.free| + 1
      && (LastOf(next.queue) !! next.linked <==> slot !in n.linked || n.queue.free == [])
  {
    assert [slot][0] == slot;
  }

  lemma {:induction false} ReleasesSplit(slots: seq<int>, more: seq<Op>)
    requires slots != []
    ensures var ops := Releases(slots) + more;
      ops[0] == Release(slots[0]) && ops[1..] == if |slots| == 1 then more else Releases(slots[1..]) + more
  {
    if |slots| == 1 {
      assert slots[1..] == [] && Releases(slots) == [Release(slots[0])] + [];
    }
  }

  lemma ReleaseFirst(n: Notes, ops: seq<Op>)
    requires ops != [] && ops[0].Release? && Allowed(n.queue, ops[0])
    ensures AllowedRun(n.queue, ops) <==> AllowedRun(Noted(n, ops[0]).queue, ops[1..])
    ensures AllowedRun(n.queue, ops) ==> (CleanNotes(n, ops) <==> CleanNotes(Noted(n, ops[0]), ops[1..]))
  {
  }

  /** So one slot of a new pool that is taken and given back, as the parser does with an
      expression it has converted, spoils the pool by the time all slots are taken. */
  lemma ReturnedThenDrained(base: int, count: nat)
    requires count > 1
    ensures var p := Got(Created(base, count)).0;
      var a := Queue(Numbers(1, count - 1), count);
      var ops := [Release(0)] + Drain(count);
      Tracks(p, a) && AllowedRun(a, ops) && !CleanRun(p, a, ops)
  {
    var p, a := Got(Created(base, count)).0, Queue(Numbers(1, count - 1), count);
    CreatedThreaded(base, count);
    GotThreaded(Created(base, count), Numbers(0, count));
    assert Numbers(0, count)[1..] == Numbers(1, count - 1);
    ReleasedDraining(Notes(a, Links(p)), [0]);
    assert Releases([0]) == [Release(0)] by { assert [0][1..] == []; }
    assert 0 in Links(p);
    CleanByOperations(p, a, [Release(0)] + Drain(count));
  }

  /** Two slots, both taken and given back in the other order: of the next three calls
      the last returns a slot that is in use. */
  lemma ReleasedOutOfOrder(base: int)
    ensures var p1 := Created(base, 2);
      var (p2, a) := Got(p1);
      var (p3, b) := Got(p2);
      var p4 := Released(Released(p3, b), a);
      var (p5, c) := Got(p4);
      Inside(p5, p5.head) && var (p6, d) := Got(p5);
      Inside(p6, p6.head) && var (p7, e) := Got(p6);
      c != d && e == c
  {
  }

  /** A pool created with one slot hands out its second slot twice. */
  lemma OneSlot(base: int, moved: int, raw: Ptr)
    ensures var (p1, a) := Got(Created(base, 1));
      var p2 := Extended(p1, [], moved, [raw]);
      var (p3, b) := Got(p2);
      Inside(p3, p3.head) && Got(p3).1 == b
  {
  }
}
