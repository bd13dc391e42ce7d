/** The queue of linked items, pushed and popped at both ends. Popping does not clear
    the outward link of the item that becomes the new end. */
module Queues {

  class Item {
    var prev: Item?
    var next: Item?

    constructor () {
    }
  }

  datatype Op<T> = PushFront(x: T) | PushBack(x: T) | PopFront | PopBack

  /** The items in order, and which ends link to an item that was popped. */
  datatype Deque<T> = Deque(items: seq<T>, frontLoose: bool, backLoose: bool)

  /** Popping the only item follows its link away from that end: the queue gets empty
      only if the link leads nowhere. */
  predicate Safe<T>(d: Deque<T>, op: Op<T>) {
    match op
    case PopFront => |d.items| == 1 ==> !d.backLoose
    case PopBack => |d.items| == 1 ==> !d.frontLoose
    case _ => true
  }

  /** The promised queue. */
  function Step<T>(d: Deque<T>, op: Op<T>): Deque<T> {
    var n := |d.items|;
    match op
    case PushFront(x) => Deque([x] + d.items, false, n > 0 && d.backLoose)
    case PushBack(x) => Deque(d.items + [x], n > 0 && d.frontLoose, false)
    case PopFront => if n == 0 then d else Deque(d.items[1..], n > 1, n > 1 && d.backLoose)
    case PopBack => if n == 0 then d else Deque(d.items[..n - 1], n > 1 && d.frontLoose, n > 1)
  }

  class Queue {
    var first: Item?
    var last: Item?
    var size: int
    ghost var items: seq<Item>

    /** Links between neighbours, in both directions. The outward links of the two ends
        may lead anywhere. */
    ghost predicate Valid()
      reads this, items
    {
      && size == |items|
      && (forall i, j :: 0 <= i < j < |items| ==> items[i] != items[j])
      && (forall i :: 0 < i < |items| ==> items[i].prev == items[i - 1])
      && (forall i :: 0 <= i < |items| - 1 ==> items[i].next == items[i + 1])
      && (if items == [] then first == null && last == null
          else first == items[0] && last == items[|items| - 1])
    }

    ghost function State(): Deque<Item>
      reads this, items
      requires Valid()
    {
      if items == [] then Deque([], false, false)
      else Deque(items, items[0].prev != null, items[|items| - 1].next != null)
    }

    constructor ()
      ensures Valid() && State() == Deque([], false, false)
    {
      first, last, size, items := null, null, 0, [];
    }

    method PushFront() returns (item: Item)
      requires Valid()
      modifies this, items
      ensures fresh(item) && Valid() && State() == Step(old(State()), Op.PushFront(item))
    {
      size := size + 1;
      item := new Item();
      item.prev := null;
      if first == null {
        item.next := null;
        last := item;
      } else {
        item.next := first;
        first.prev := item;
      }
      first := item;
      items := [item] + items;
    }

    method PushBack() returns (item: Item)
      requires Valid()
      modifies this, items
      ensures fresh(item) && Valid() && State() == Step(old(State()), Op.PushBack(item))
    {
      size := size + 1;
      item := new Item();
      item.next := null;
      if first == null {
        item.prev := null;
        first := item;
      } else {
        item.prev := last;
        last.next := item;
      }
      last := item;
      items := items + [item];
    }

    /** Exactly the safe call leaves a queue behind; the other one leaves an empty queue
        whose first item is one that was popped before. */
    method PopFront() returns (item: Item?)
      requires Valid()
      modifies this, items
      ensures item == if old(items) == [] then null else old(items)[0]
      ensures items == Step(old(State()), Op.PopFront).items
      ensures Valid() <==> Safe(old(State()), Op.PopFront)
      ensures Valid() ==> State() == Step(old(State()), Op.PopFront)
      ensures !Valid() ==> size == 0 && first != null
    {
      if first == null {
        return null;
      }
      size := size - 1;
      item := first;
      if first == last {
        last := null;
      }
      first.prev := null;
      first := first.next;
      items := items[1..];
    }

    method PopBack() returns (item: Item?)
      requires Valid()
      modifies this, items
      ensures item == if old(items) == [] then null else old(items)[|old(items)| - 1]
      ensures items == Step(old(State()), Op.PopBack).items
      ensures Valid() <==> Safe(old(State()), Op.PopBack)
      ensures Valid() ==> State() == Step(old(State()), Op.PopBack)
      ensures !Valid() ==> size == 0 && last != null
    {
      if last == null {
        return null;
      }
      size := size - 1;
      item := last;
      if last == first {
        first := null;
      }
      last.next := null;
      last := last.prev;
      items := items[..|items| - 1];
    }

    /** Take the last item off and add another one at once. */
    method ReplaceBack() returns (item: Item)
      requires Valid() && items != [] && Safe(State(), Op.PopBack)
      modifies this, items
      ensures Valid() && fresh(item) && size == old(size)
      ensures items == old(items)[..|old(items)| - 1] + [item]
      ensures !State().backLoose
    {
      var gone := PopBack();
      item := PushBack();
    }

    /** Free the items from the front on, up to the last one. The program's loop is over
        then exactly when `first` is null; else it goes on to what the last item links to. */
    method Destroy() returns (ghost freed: seq<Item>)
      requires Valid()
      modifies this
      ensures freed == old(items)
      ensures first == null <==> !old(State()).backLoose
    {
      freed := [];
      while first != null
        invariant items == old(items) && |freed| <= |items| && freed == items[..|freed|] && last == old(last)
        invariant |freed| < |items| ==> first == items[|freed|]
        invariant |freed| == |items| ==> first == null && !old(State()).backLoose
        decreases |items| - |freed|
      {
        var done := first == last;
        freed := freed + [first];
        first := first.next;
        if done {
          break;
        }
      }
    }
  }

  // ---------- runs ----------

  function Run<T>(d: Deque<T>, ops: seq<Op<T>>): Deque<T>
    decreases |ops|
  {
    if ops == [] then d else Run(Step(d, ops[0]), ops[1..])
  }

  /** No call of the run empties the queue over a loose link. */
  predicate SafeRun<T>(d: Deque<T>, ops: seq<Op<T>>)
    decreases |ops|
  {
    ops == [] || (Safe(d, ops[0]) && SafeRun(Step(d, ops[0]), ops[1..]))
  }

  /** Runs that pop at the front only are safe from any queue with a closed back end. */
  lemma {:induction false} FrontOnly<T>(d: Deque<T>, ops: seq<Op<T>>)
    requires PopBack !in ops && !d.backLoose
    ensures SafeRun(d, ops) && !Run(d, ops).backLoose
    decreases |ops|
  {
    if ops != [] {
      assert ops[0] in ops;
      FrontOnly(Step(d, ops[0]), ops[1..]);
    }
  }

  lemma {:induction false} BackOnly<T>(d: Deque<T>, ops: seq<Op<T>>)
    requires PopFront !in ops && !d.frontLoose
    ensures SafeRun(d, ops) && !Run(d, ops).frontLoose
    decreases |ops|
  {
    if ops != [] {
      assert ops[0] in ops;
      BackOnly(Step(d, ops[0]), ops[1..]);
    }
  }

  function Times<T>(op: Op<T>, n: nat): (ops: seq<Op<T>>)
    ensures |ops| == n
  {
    if n == 0 then [] else [op] + Times(op, n - 1)
  }

  /** From any queue, popping it empty at the front is safe exactly when its back end is
      closed. */
  lemma {:induction false} Emptying<T>(d: Deque<T>)
    ensures SafeRun(d, Times(PopFront, |d.items|)) <==> d.items == [] || !d.backLoose
    decreases |d.items|
  {
    if d.items != [] {
      Emptying(Step(d, PopFront));
      assert Times<T>(PopFront, |d.items|)[1..] == Times(PopFront, |d.items| - 1);
    }
  }

  /** So a pop at the back, unless a push at the back follows it, spoils emptying at
      the front. */
  lemma BothEnds<T>(d: Deque<T>, x: T)
    requires |d.items| > 1
    ensures !SafeRun(d, [PopBack] + Times(PopFront, |d.items| - 1))
    ensures SafeRun(d, [PopBack, PushBack(x)] + Times(PopFront, |d.items|))
  {
    var e := Step(d, PopBack);
    Emptying(e);
    assert ([PopBack] + Times<T>(PopFront, |d.items| - 1))[1..] == Times(PopFront, |d.items| - 1);
    var f := Step(e, PushBack(x));
    Emptying(f);
    var rest := [PushBack(x)] + Times(PopFront, |d.items|);
    assert ([PopBack, PushBack(x)] + Times(PopFront, |d.items|))[1..] == rest && rest[1..] == Times(PopFront, |d.items|);
    assert SafeRun(e, rest);
  }
}
