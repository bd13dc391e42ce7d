/** The pool as an object: the links live in an array that is reallocated to grow. */
module SlotPools {
  import opened Pools

  class SlotPool {
    var base: int
    var next: array<Ptr>
    var head: Ptr
    var tail: Ptr
    /** What the links spell from the head to the tail. */
    ghost var free: seq<int>

    ghost predicate Valid()
      reads this, next
    {
      next.Length > 0 && Threaded(State(), free)
    }

    ghost function State(): Pool
      reads this, next
    {
      Pool(base, next[..], head, tail)
    }

    constructor (memory: int, count: nat)
      requires count > 0
      ensures Valid() && fresh(next) && free == Numbers(0, count)
      ensures State() == Created(memory, count)
    {
      var links := new Ptr[count];
      var last := 0;
      for i := 0 to count
        invariant last == if i == 0 then 0 else i - 1
        invariant forall k :: 0 <= k < i - 1 ==> links[k] == At(memory, k + 1)
      {
        links[last] := At(memory, i);
        last := i;
      }
      links[last] := Null;
      base, next, free := memory, links, Numbers(0, count);
      head, tail := At(memory, 0), At(memory, last);
      assert links[..] == Created(memory, count).next;
      CreatedThreaded(memory, count);
    }

    predicate Full()
      reads this
    {
      head == Null
    }

    /** The number of slots in use. */
    method Count() returns (n: nat)
      requires Valid()
      ensures n == |Live(State(), free)|
    {
      LiveCount(State(), free);
      if Full() {
        return next.Length;
      }
      var freeCount := 0;
      var ptr := head;
      while ptr != tail
        invariant 0 <= freeCount < |free| && ptr == At(base, free[freeCount])
        decreases |free| - freeCount
      {
        freeCount := freeCount + 1;
        ptr := next[ptr.slot];
      }
      freeCount := freeCount + 1;
      n := next.Length - freeCount;
    }

    /** Grow by as many slots as `raw` has, in memory that may have moved. */
    method Extend(memory: int, raw: seq<Ptr>)
      requires Valid() && |raw| > 0
      modifies this
      ensures Valid() && fresh(next) && free == old(free) + Numbers(old(next.Length), |raw|)
      ensures State() == Extended(old(State()), old(free), memory, raw)
    {
      ghost var p := State();
      var oldCount := next.Length;
      Grow(memory, raw);
      ghost var links, was := next[..], free;
      Join(oldCount);
      LinksExtended(p, was, memory, raw, links);
      ExtendedThreaded(p, was, memory, raw);
      free := was + Numbers(oldCount, |raw|);
      assert State() == Extended(p, was, memory, raw);
    }

    /** The new slots come after the old free ones. */
    method Join(oldCount: nat)
      requires 0 < oldCount < next.Length
      requires head.At? ==> tail.At? && 0 <= tail.slot < oldCount
      modifies this`head, this`tail, next
      ensures head == (if old(head).At? then old(head) else At(base, oldCount)) && tail == At(base, next.Length - 1)
      ensures next[..] == if old(head).At? then old(next[..])[old(tail).slot := At(base, oldCount)] else old(next[..])
    {
      if Full() {
        head := At(base, oldCount);
      } else {
        next[tail.slot] := At(base, oldCount);
      }
      tail := At(base, next.Length - 1);
    }

    /** Larger memory, in which the old free list is moved and the new slots are linked,
        but the two are not joined. */
    method Grow(memory: int, raw: seq<Ptr>)
      requires Valid() && |raw| > 0
      modifies this
      ensures fresh(next) && next.Length == old(next.Length) + |raw| && base == memory && free == old(free)
      ensures head == (if old(head).At? then At(memory, old(head).slot) else Null)
      ensures tail == (if old(tail).At? then At(memory, old(tail).slot) else Null)
      ensures forall k :: 0 <= k < old(next.Length) && k !in free ==> next[k] == old(next[..])[k]
      ensures forall i :: 0 < i < |free| ==> next[free[i - 1]] == At(memory, free[i])
      ensures forall k :: old(next.Length) <= k < next.Length ==> next[k] == NewLink(old(State()), memory, raw, k)
    {
      ghost var p := State();
      var oldCount := next.Length;
      var full := Full();
      Reallocate(memory, raw);
      if !full {
        Relocate(p);
      }
      ghost var moved := next[..oldCount];
      assert forall k :: 0 <= k < oldCount && k !in free ==> moved[k] == p.next[k];
      assert forall i :: 0 < i < |free| ==> moved[free[i - 1]] == At(memory, free[i]);
      assert next[oldCount..] == raw;
      ThreadNew(oldCount, raw);
      assert forall k :: 0 <= k < oldCount ==> next[k] == next[..oldCount][k];
    }

    /** The new slots in order; the link of the last one is left as it is found, except
        that a single new slot links to itself. */
    method ThreadNew(from: nat, raw: seq<Ptr>)
      requires from + |raw| == next.Length && |raw| > 0 && next[from..] == raw
      modifies next
      ensures next[..from] == old(next[..from])
      ensures forall k :: from <= k < next.Length - 1 ==> next[k] == At(base, k + 1)
      ensures next[next.Length - 1] == if |raw| == 1 then At(base, from) else raw[|raw| - 1]
    {
      assert forall k :: from <= k < next.Length ==> next[k] == next[from..][k - from];
      var last := from;
      for i := from to next.Length
        invariant last == if i == from then from else i - 1
        invariant next[..from] == old(next[..from])
        invariant forall k :: from <= k < i - 1 ==> next[k] == At(base, k + 1)
        invariant i == from + 1 ==> next[from] == At(base, from)
        invariant forall k :: i <= k < next.Length && k != last ==> next[k] == raw[k - from]
        invariant i > from + 1 ==> next[last] == raw[last - from]
      {
        next[last] := At(base, i);
        last := i;
      }
    }

    /** The old links in larger memory, head and tail at the same offsets. */
    method Reallocate(memory: int, raw: seq<Ptr>)
      requires Valid() && |raw| > 0
      modifies this
      ensures fresh(next) && next[..] == old(next[..]) + raw && base == memory && free == old(free)
      ensures head == (if old(head).At? then At(memory, old(head).slot) else Null)
      ensures tail == (if old(tail).At? then At(memory, old(tail).slot) else Null)
    {
      var links := next[..] + raw;
      next := new Ptr[|links|](i requires 0 <= i < |links| => links[i]);
      base := memory;
      head := if head.At? then At(memory, head.slot) else Null;
      tail := if tail.At? then At(memory, tail.slot) else Null;
    }

    /** The links before the tail, moved to the new memory. */
    method Relocate(ghost p: Pool)
      requires Threaded(p, free) && free != [] && |p.next| <= next.Length
      requires forall k :: 0 <= k < |p.next| ==> next[k] == p.next[k]
      requires head == At(base, free[0]) && tail == At(base, free[|free| - 1])
      modifies next
      ensures forall i :: 0 < i < |free| ==> next[free[i - 1]] == At(base, free[i])
      ensures forall k :: 0 <= k < next.Length && k !in free[..|free| - 1] ==> next[k] == old(next[k])
    {
      var ptr := head;
      ghost var n := 0;
      while ptr != tail
        invariant 0 <= n < |free| && ptr == At(base, free[n])
        invariant forall i :: 0 < i <= n ==> next[free[i - 1]] == At(base, free[i])
        invariant forall k :: 0 <= k < next.Length && k !in free[..n] ==> next[k] == old(next[k])
        decreases |free| - n
      {
        assert p.next[free[n + 1 - 1]] == At(p.base, free[n + 1]);
        assert free[n] !in free[..n];
        assert free[..n + 1] == free[..n] + [free[n]];
        next[ptr.slot] := At(base, next[ptr.slot].slot);
        ptr := next[ptr.slot];
        n := n + 1;
      }
    }

    /** A slot, from a larger pool when there is none left. */
    method Get(memory: int, raw: seq<Ptr>) returns (slot: int)
      requires Valid() && (Full() ==> |raw| == next.Length)
      modifies this
      ensures var op := Op.Get(memory, raw);
        var room := Room(old(State()), old(free), op);
        && Inside(room, room.head)
        && (State(), slot) == Got(room)
        && slot !in Live(old(State()), old(free))
        && free == Promise(Queue(old(free), old(next.Length)), op).free
        && (Valid() <==> Clean(room))
      ensures if old(Full()) then fresh(next) else next == old(next)
    {
      ghost var p, op := State(), Op.Get(memory, raw);
      ghost var a := Queue(free, next.Length);
      if Full() {
        Extend(memory, raw);
      }
      StepTracks(p, a, op);
      slot := head.slot;
      head := next[head.slot];
      free := free[1..];
    }

    method Release(slot: int)
      requires Valid() && slot in Live(State(), free)
      modifies this, next
      ensures Valid() && next == old(next) && free == old(free) + [slot]
      ensures State() == Released(old(State()), slot)
    {
      ghost var p := State();
      if Full() {
        head := At(base, slot);
        next[slot] := Null;
        tail := head;
      } else {
        next[tail.slot] := At(base, slot);
        tail := At(base, slot);
      }
      ReleasedThreaded(p, free, slot);
      free := free + [slot];
      assert next[..] == Released(p, slot).next;
    }
  }

  /** Moved links, once they are joined, are those of the extended pool. */
  lemma LinksExtended(p: Pool, free: seq<int>, base: int, raw: seq<Ptr>, links: seq<Ptr>)
    requires Threaded(p, free) && |raw| > 0 && |links| == |p.next| + |raw|
    requires forall i :: 0 < i < |free| ==> links[free[i - 1]] == At(base, free[i])
    requires forall k :: 0 <= k < |p.next| && k !in free ==> links[k] == p.next[k]
    requires forall k :: |p.next| <= k < |links| ==> links[k] == NewLink(p, base, raw, k)
    ensures (if free == [] then links else links[free[|free| - 1] := At(base, |p.next|)]) == Extended(p, free, base, raw).next
  {
    forall k | 0 <= k < |p.next| && (free == [] || k != free[|free| - 1]) ensures links[k] == OldLink(p, free, base, k) {
      if k in free {
        var i :| 0 <= i < |free| && free[i] == k;
        assert free[i + 1 - 1] == k && p.next[k] == At(p.base, free[i + 1]);
      }
    }
  }

  lemma {:induction false} DistinctCount(free: seq<int>, n: nat)
    requires forall i :: 0 <= i < |free| ==> 0 <= free[i] < n
    requires forall i, j :: 0 <= i < j < |free| ==> free[i] != free[j]
    ensures |set s | 0 <= s < n && s !in free| == n - |free|
    decreases |free|, n
  {
    if free == [] {
      if n > 0 {
        DistinctCount([], n - 1);
        assert (set s | 0 <= s < n && s !in free) == (set s | 0 <= s < n - 1 && s !in free) + {n - 1};
      }
    } else {
      var rest, x := free[1..], free[0];
      DistinctCount(rest, n);
      assert (set s | 0 <= s < n && s !in free) == (set s | 0 <= s < n && s !in rest) - {x} by {
        assert free == [x] + rest;
      }
    }
  }

  /** Free and live slots share out the memory. */
  lemma LiveCount(p: Pool, free: seq<int>)
    requires Threaded(p, free)
    ensures |Live(p, free)| + |free| == |p.next|
  {
    DistinctCount(free, |p.next|);
  }
}
