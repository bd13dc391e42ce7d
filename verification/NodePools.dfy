/** A pool of nodes in the hands of the parser: nodes are taken one by one, and now and then
    one of the last two comes back. When does such a run get along with the slots the pool
    was made with? */
module NodePools {
  import opened Wrappers
  import opened Pools

  /** The node that comes back was taken `age` nodes ago. */
  datatype Event = Take | Back(age: nat)

  /** Before a node comes back, two have been taken since the last that did; it is one
      of the last two. */
  predicate Shaped(events: seq<Event>, since: nat)
    decreases |events|
  {
    events == [] ||
    match events[0]
    case Take => Shaped(events[1..], since + 1)
    case Back(age) => 1 <= age <= 2 <= since && Shaped(events[1..], 0)
  }

  /** A bound that is counted: `live` nodes are in use. There is a slot for every node; and
      once a node has come back to a pool that was not full, the last slot stays free. */
  predicate Roomy(count: nat, live: nat, given: bool, events: seq<Event>)
    decreases |events|
  {
    events == [] ||
    match events[0]
    case Take => live < count && (given ==> live + 1 < count) && Roomy(count, live + 1, given, events[1..])
    case Back(_) => live > 0 && Roomy(count, live - 1, given || live < count, events[1..])
  }

  /** The calls on the pool, `taken` being the slots handed out so far. The pool is not
      offered more memory. */
  function Ops(a: Queue, taken: seq<int>, events: seq<Event>): seq<Op>
    decreases |events|
  {
    if events == [] then []
    else
      match events[0]
      case Take =>
        if a.free == [] then [Get(0, [])] + Ops(a, taken, events[1..])
        else [Get(0, [])] + Ops(a.(free := a.free[1..]), taken + [a.free[0]], events[1..])
      case Back(age) =>
        var slot := if 1 <= age <= |taken| then taken[|taken| - age] else -1;
        [Release(slot)] + Ops(a.(free := a.free + [slot]), taken, events[1..])
  }

  function Whole(count: nat): Queue { Queue(Numbers(0, count), count) }

  /** Made with `count` slots, the pool needs no more, hands out a slot that is not in use
      each time, and is at the promised queue after every call. */
  ghost predicate Serves(base: int, count: nat, events: seq<Event>)
    requires count > 0
  {
    CreatedThreaded(base, count);
    var ops := Ops(Whole(count), [], events);
    AllowedRun(Whole(count), ops) && TracksRun(Created(base, count), Whole(count), ops)
  }

  /** The last `k` slots handed out are in use, each once, and hold a link unless the
      pool is full. */
  ghost predicate Recent(n: Notes, taken: seq<int>, k: nat) {
    && k <= |taken|
    && (forall i :: |taken| - k <= i < |taken| ==> 0 <= taken[i] < n.queue.count && taken[i] !in n.queue.free)
    && (n.queue.free != [] ==> forall i :: |taken| - k <= i < |taken| ==> taken[i] in n.linked)
  }

  /** Where a run is. All free slots but the last hold a link, the last one if a node has
      come back behind it. */
  ghost predicate Inv(n: Notes, taken: seq<int>, live: nat, given: bool, since: nat) {
    && n.queue.count > 0 && live + |n.queue.free| == n.queue.count && (if since > 2 then 2 else since) <= live
    && (forall i :: 0 <= i < |n.queue.free| ==> 0 <= n.queue.free[i] < n.queue.count)
    && (forall i, j :: 0 <= i < j < |n.queue.free| ==> n.queue.free[i] != n.queue.free[j])
    && (forall i :: 0 <= i < |n.queue.free| - 1 ==> n.queue.free[i] in n.linked)
    && (n.queue.free != [] ==> (n.queue.free[|n.queue.free| - 1] in n.linked <==> given))
    && (n.queue.free == [] ==> !given)
    && Recent(n, taken, if since > 2 then 2 else since)
  }

  lemma TakeStep(n: Notes, taken: seq<int>, live: nat, given: bool, since: nat)
    requires Inv(n, taken, live, given, since) && n.queue.free != []
    ensures Allowed(n.queue, Get(0, []))
    ensures CleanNote(n, Get(0, [])) <==> (given ==> live + 1 < n.queue.count)
    ensures Noted(n, Get(0, [])) == n.(queue := n.queue.(free := n.queue.free[1..]))
    ensures (given ==> live + 1 < n.queue.count) ==>
      Inv(Noted(n, Get(0, [])), taken + [n.queue.free[0]], live + 1, given, since + 1)
  {
  }

  lemma BackStep(n: Notes, taken: seq<int>, live: nat, given: bool, since: nat, age: nat)
    requires Inv(n, taken, live, given, since) && 1 <= age <= 2 <= since
    ensures live > 0 && age <= |taken|
    ensures var slot := taken[|taken| - age];
      && Allowed(n.queue, Release(slot)) && CleanNote(n, Release(slot))
      && Noted(n, Release(slot)).queue == n.queue.(free := n.queue.free + [slot])
      && Inv(Noted(n, Release(slot)), taken, live - 1, given || live < n.queue.count, 0)
  {
    var slot := taken[|taken| - age];
    var f := n.queue.free + [slot];
    assert 0 <= slot < n.queue.count && slot !in n.queue.free;
    if n.queue.free == [] {
      assert live == n.queue.count;
    } else {
      assert slot in n.linked;
      forall i | 0 <= i < |f| - 1 ensures f[i] in Noted(n, Release(slot)).linked {
        assert f[i] == n.queue.free[i];
      }
    }
  }

  /** The bound decides the run. */
  lemma {:induction false} RoomyExactly(n: Notes, taken: seq<int>, live: nat, given: bool, since: nat, events: seq<Event>)
    requires Inv(n, taken, live, given, since) && Shaped(events, since)
    ensures Roomy(n.queue.count, live, given, events) <==>
      AllowedRun(n.queue, Ops(n.queue, taken, events)) && CleanNotes(n, Ops(n.queue, taken, events))
    decreases |events|
  {
    hide Inv;
    if events != [] {
      var ops := Ops(n.queue, taken, events);
      match events[0]
      case Take =>
        FreeOrFull(n, taken, live, given, since);
        if n.queue.free != [] {
          TakeStep(n, taken, live, given, since);
          var more := Ops(n.queue.(free := n.queue.free[1..]), taken + [n.queue.free[0]], events[1..]);
          assert ops == [Get(0, [])] + more && ops[1..] == more;
          if given ==> live + 1 < n.queue.count {
            RoomyExactly(Noted(n, Get(0, [])), taken + [n.queue.free[0]], live + 1, given, since + 1, events[1..]);
          }
        }
      case Back(age) =>
        BackStep(n, taken, live, given, since, age);
        var slot := taken[|taken| - age];
        var more := Ops(n.queue.(free := n.queue.free + [slot]), taken, events[1..]);
        assert ops == [Release(slot)] + more && ops[1..] == more;
        RoomyExactly(Noted(n, Release(slot)), taken, live - 1, given || live < n.queue.count, 0, events[1..]);
    }
  }

  lemma FreeOrFull(n: Notes, taken: seq<int>, live: nat, given: bool, since: nat)
    requires Inv(n, taken, live, given, since)
    ensures n.queue.free == [] <==> live >= n.queue.count
    ensures n.queue.free == [] ==> !Allowed(n.queue, Get(0, []))
  {
  }

  /** A pool made with `count` slots serves the run if and only if there is room for it: in
      every such run, whatever memory it is made in. */
  lemma ServesExactly(base: int, count: nat, events: seq<Event>)
    requires count > 0 && Shaped(events, 0)
    ensures Serves(base, count, events) <==> Roomy(count, 0, false, events)
  {
    hide Inv, Roomy, Shaped, Ops, AllowedRun, CleanNotes, TracksRun, CleanRun;
    var p, a := Created(base, count), Whole(count);
    CreatedThreaded(base, count);
    NewPool(base, count);
    var ops := Ops(a, [], events);
    RoomyExactly(Notes(a, Links(p)), [], 0, false, 0, events);
    if AllowedRun(a, ops) {
      CleanByOperations(p, a, ops);
      RunTracks(p, a, ops);
    }
  }

  lemma NewPool(base: int, count: nat)
    requires count > 0
    ensures Inv(Notes(Whole(count), Links(Created(base, count))), [], 0, false, 0)
  {
  }

  // ---------- what the nodes hold ----------

  /** `at` are the slots of all nodes in the order in which they were taken, `used` those
      in use, and `held` tells for a slot which node was written there last. */
  datatype Memory = Memory(pool: Pool, at: seq<int>, used: set<nat>, held: map<int, nat>)

  /** The calls of the program, as the links stand; None where the pool has to grow. */
  function Step(m: Memory, e: Event): Option<Memory> {
    match e
    case Take =>
      if !Inside(m.pool, m.pool.head) then None
      else
        var (q, slot) := Got(m.pool);
        Some(Memory(q, m.at + [slot], m.used + {|m.at|}, m.held[slot := |m.at|]))
    case Back(age) =>
      var k := |m.at| - age;
      if k < 0 || age == 0 || !(0 <= m.at[k] < |m.pool.next|) || (m.pool.head.At? && !Inside(m.pool, m.pool.tail)) then None
      else Some(m.(pool := Released(m.pool, m.at[k]), used := m.used - {k}))
  }

  function Run(m: Memory, events: seq<Event>): Option<Memory>
    decreases |events|
  {
    if events == [] then Some(m)
    else
      var next := Step(m, events[0]);
      if next.None? then None else Run(next.value, events[1..])
  }

  function New(base: int, count: nat): Memory
    requires count > 0
  {
    Memory(Created(base, count), [], {}, map[])
  }

  /** Every node in use holds what was written to it. */
  ghost predicate InPlace(m: Memory) {
    forall n :: n in m.used ==> n < |m.at| && m.at[n] in m.held && m.held[m.at[n]] == n
  }

  /** No link leads out of the memory. */
  ghost predicate LinksInside(p: Pool) {
    forall s :: 0 <= s < |p.next| && p.next[s].At? ==> Inside(p, p.next[s])
  }

  /** The nodes in use are those written to the slots in `live`, one to each. */
  ghost predicate Filled(m: Memory, live: set<int>) {
    && InPlace(m) && (forall k :: k in m.used ==> m.at[k] in live)
    && (forall s :: s in live ==> s in m.held && m.held[s] in m.used && m.at[m.held[s]] == s)
  }

  lemma FillMore(m: Memory, live: set<int>, slot: int, p: Pool)
    requires Filled(m, live) && slot !in live
    ensures Filled(Memory(p, m.at + [slot], m.used + {|m.at|}, m.held[slot := |m.at|]), live + {slot})
  {
  }

  lemma FillLess(m: Memory, live: set<int>, k: nat, p: Pool)
    requires Filled(m, live) && k in m.used
    ensures Filled(m.(pool := p, used := m.used - {k}), live - {m.at[k]})
  {
  }

  /** The last `k` nodes are in use. */
  ghost predicate LastUsed(m: Memory, k: nat) { forall i: nat :: i < |m.at| && i >= |m.at| - k ==> i in m.used }

  /** The memory of a run that has been clean so far. */
  ghost predicate Good(m: Memory, n: Notes, since: nat) {
    && Tracks(m.pool, n.queue) && Links(m.pool) == n.linked && LinksInside(m.pool)
    && Filled(m, Live(m.pool, n.queue.free)) && LastUsed(m, if since > 2 then 2 else since)
  }

  lemma GoodTake(m: Memory, n: Notes, live: nat, given: bool, since: nat)
    requires Inv(n, m.at, live, given, since) && Good(m, n, since) && n.queue.free != [] && (given ==> live + 1 < n.queue.count)
    ensures Step(m, Take).Some? && Good(Step(m, Take).value, Noted(n, Get(0, [])), since + 1)
    ensures Step(m, Take).value.at == m.at + [n.queue.free[0]]
  {
    hide Inv, Filled;
    TakeStep(n, m.at, live, given, since);
    NotedStep(m.pool, n.queue, Get(0, []));
    StepTracks(m.pool, n.queue, Get(0, []));
    var r := Step(m, Take).value;
    var slot := n.queue.free[0];
    FreeFirst(n.queue.free);
    FillMore(m, Live(m.pool, n.queue.free), slot, r.pool);
    assert Live(r.pool, n.queue.free[1..]) == Live(m.pool, n.queue.free) + {slot};
  }

  lemma FreeFirst(free: seq<int>)
    requires free != []
    ensures forall s :: s in free <==> s == free[0] || s in free[1..]
  {
    assert free == [free[0]] + free[1..];
  }

  lemma GoodBack(m: Memory, n: Notes, live: nat, given: bool, since: nat, age: nat)
    requires Inv(n, m.at, live, given, since) && Good(m, n, since) && 1 <= age <= 2 <= since
    ensures age <= |m.at| && Allowed(n.queue, Release(m.at[|m.at| - age]))
    ensures Step(m, Back(age)).Some? && Good(Step(m, Back(age)).value, Noted(n, Release(m.at[|m.at| - age])), 0)
    ensures Step(m, Back(age)).value.at == m.at
  {
    hide Inv, Filled;
    BackStep(n, m.at, live, given, since, age);
    var k := |m.at| - age;
    var slot := m.at[k];
    NotedStep(m.pool, n.queue, Release(slot));
    StepTracks(m.pool, n.queue, Release(slot));
    var r := Step(m, Back(age)).value;
    FillLess(m, Live(m.pool, n.queue.free), k, r.pool);
    assert Live(r.pool, n.queue.free + [slot]) == Live(m.pool, n.queue.free) - {slot};
  }

  /** How many nodes are in use at the end, and whether one has come back to a pool that
      was not full. */
  function After(count: nat, live: nat, given: bool, events: seq<Event>): (r: (nat, bool))
    decreases |events|
  {
    if events == [] then (live, given)
    else if events[0].Take? then After(count, live + 1, given, events[1..])
    else After(count, if live == 0 then 0 else live - 1, given || live < count, events[1..])
  }

  lemma {:induction false} Follows(m: Memory, n: Notes, live: nat, given: bool, since: nat, events: seq<Event>)
      returns (r: Memory, n2: Notes, since2: nat)
    requires Inv(n, m.at, live, given, since) && Good(m, n, since) && Shaped(events, since)
    requires Roomy(n.queue.count, live, given, events)
    ensures Run(m, events) == Some(r) && n2.queue.count == n.queue.count && Good(r, n2, since2)
    ensures var (l, g) := After(n.queue.count, live, given, events); Inv(n2, r.at, l, g, since2)
    decreases |events|
  {
    hide Inv, Good, Step;
    if events == [] {
      return m, n, since;
    }
    match events[0]
    case Take =>
      FreeOrFull(n, m.at, live, given, since);
      TakeStep(n, m.at, live, given, since);
      GoodTake(m, n, live, given, since);
      r, n2, since2 := Follows(Step(m, Take).value, Noted(n, Get(0, [])), live + 1, given, since + 1, events[1..]);
    case Back(age) =>
      BackStep(n, m.at, live, given, since, age);
      GoodBack(m, n, live, given, since, age);
      var slot := m.at[|m.at| - age];
      r, n2, since2 := Follows(Step(m, Back(age)).value, Noted(n, Release(slot)), live - 1, given || live < n.queue.count, 0, events[1..]);
  }

  lemma NewGood(base: int, count: nat)
    requires count > 0
    ensures Inv(Notes(Whole(count), Links(Created(base, count))), New(base, count).at, 0, false, 0)
    ensures Good(New(base, count), Notes(Whole(count), Links(Created(base, count))), 0)
  {
    NewPool(base, count);
    CreatedThreaded(base, count);
    forall s | 0 <= s < count ensures s in Numbers(0, count) {
      assert Numbers(0, count)[s] == s;
    }
    assert Live(Created(base, count), Numbers(0, count)) == {};
  }

  /** If there is room, every node in use holds what was written to it, at the end and at
      every point before it. */
  lemma NodesKept(base: int, count: nat, events: seq<Event>, k: nat)
    requires count > 0 && Shaped(events, 0) && Roomy(count, 0, false, events) && k <= |events|
    ensures Run(New(base, count), events[..k]).Some? && InPlace(Run(New(base, count), events[..k]).value)
  {
    hide Inv, Roomy, Shaped;
    Before(count, 0, false, 0, events, k);
    NewGood(base, count);
    var r, n, since := Follows(New(base, count), Notes(Whole(count), Links(Created(base, count))), 0, false, 0, events[..k]);
  }

  lemma {:induction false} Before(count: nat, live: nat, given: bool, since: nat, events: seq<Event>, k: nat)
    requires Shaped(events, since) && Roomy(count, live, given, events) && k <= |events|
    ensures Shaped(events[..k], since) && Roomy(count, live, given, events[..k])
    decreases k
  {
    if k > 0 {
      assert events[..k][0] == events[0] && events[..k][1..] == events[1..][..k - 1];
      match events[0]
      case Take => Before(count, live + 1, given, since + 1, events[1..], k - 1);
      case Back(_) => Before(count, live - 1, given || live < count, 0, events[1..], k - 1);
    }
  }

  lemma {:induction false} RunSplit(m: Memory, a: seq<Event>, b: seq<Event>)
    requires Run(m, a).Some?
    ensures Run(m, a + b) == Run(Run(m, a).value, b)
    decreases |a|
  {
    hide Step;
    if a == [] {
      assert a + b == b;
    } else {
      assert (a + b)[1..] == a[1..] + b;
      RunSplit(Step(m, a[0]).value, a[1..], b);
    }
  }

  /** If there is no room for a node because as many as the pool has slots are in use, the
      pool has to ask for more memory. */
  lemma Outgrown(base: int, count: nat, events: seq<Event>)
    requires count > 0 && Shaped(events, 0) && Roomy(count, 0, false, events) && After(count, 0, false, events).0 == count
    ensures Run(New(base, count), events + [Take]).None?
  {
    hide Roomy, Shaped, After;
    NewGood(base, count);
    var r, n, since := Follows(New(base, count), Notes(Whole(count), Links(Created(base, count))), 0, false, 0, events);
    RunSplit(New(base, count), events, [Take]);
    assert Step(r, Take).None?;
  }

  /** If there is no room for it because a node has come back, the node after it is written
      over one that is in use. */
  lemma WrittenOver(base: int, count: nat, events: seq<Event>)
    requires count > 0 && Shaped(events, 0) && Roomy(count, 0, false, events) && After(count, 0, false, events) == (count - 1, true)
    ensures Run(New(base, count), events + [Take, Take]).Some?
    ensures !InPlace(Run(New(base, count), events + [Take, Take]).value)
  {
    hide Roomy, Shaped, After;
    NewGood(base, count);
    var r, n, since := Follows(New(base, count), Notes(Whole(count), Links(Created(base, count))), 0, false, 0, events);
    RunSplit(New(base, count), events, [Take, Take]);
    OverLast(r, n, count - 1, since);
  }

  lemma OverLast(m: Memory, n: Notes, live: nat, since: nat)
    requires Inv(n, m.at, live, true, since) && Good(m, n, since) && live + 1 == n.queue.count
    ensures Run(m, [Take, Take]).Some? && !InPlace(Run(m, [Take, Take]).value)
  {
    var slot := n.queue.free[0];
    assert n.queue.free == [slot] && slot in Links(m.pool);
    var m1 := Step(m, Take).value;
    var t := m.pool.next[slot].slot;
    assert m1.pool.head == m.pool.next[slot];
    FillMore(m, Live(m.pool, n.queue.free), slot, m1.pool);
    assert t in Live(m.pool, n.queue.free) + {slot};
    var k := m1.held[t];
    var m2 := Step(m1, Take).value;
    assert k in m2.used && m2.at[k] == t && m2.held[t] == |m1.at| && k < |m1.at|;
    assert [Take, Take][1..] == [Take] && [Take][1..] == [];
    assert Run(m1, [Take]) == Run(m2, []);
  }

  /** There are no other ways to have no room. */
  lemma {:induction false} NoRoom(count: nat, live: nat, given: bool, since: nat, events: seq<Event>) returns (k: nat)
    requires Shaped(events, since) && !Roomy(count, live, given, events) && (if since > 2 then 2 else since) <= live <= count
    ensures k < |events| && events[k].Take? && Roomy(count, live, given, events[..k])
    ensures After(count, live, given, events[..k]).0 == count || After(count, live, given, events[..k]) == (count - 1, true)
    decreases |events|
  {
    if events[0].Take? && (live == count || (given && live + 1 == count)) {
      assert events[..0] == [];
      return 0;
    }
    match events[0] {
      case Take => k := NoRoom(count, live + 1, given, since + 1, events[1..]);
      case Back(_) => k := NoRoom(count, live - 1, given || live < count, 0, events[1..]);
    }
    k := k + 1;
    assert events[..k][0] == events[0] && events[..k][1..] == events[1..][..k - 1];
  }
}
