/** What the hash table computes when it doubles its buckets, and the moving of items
    from old buckets into new ones. */
module Expansion {
  import opened Buckets

  function Power(bits: nat): (n: nat)
    ensures n > 0
  {
    if bits == 0 then 1 else 2 * Power(bits - 1)
  }

  /** The low bits of a number: what the mask for `Power(bits)` leaves. */
  function Low(n: nat, bits: nat): (r: nat)
    ensures r < Power(bits)
  {
    if bits == 0 then 0 else n % 2 + 2 * Low(n / 2, bits - 1)
  }

  /** A shift to the right. */
  function Shifted(n: nat, bits: nat): nat {
    if bits == 0 then n else Shifted(n / 2, bits - 1)
  }

  lemma Doubled(q: nat, p: nat)
    ensures q * (2 * p) == 2 * (q * p)
  {
  }

  lemma OneMore(q: nat, p: nat)
    ensures (q + 1) * p == q * p + p
  {
  }

  lemma {:induction false} LowAndShifted(n: nat, bits: nat)
    ensures n == Shifted(n, bits) * Power(bits) + Low(n, bits)
  {
    if bits > 0 {
      LowAndShifted(n / 2, bits - 1);
      Doubled(Shifted(n / 2, bits - 1), Power(bits - 1));
    }
  }

  /** Twice as many buckets part each bucket in two: an item stays or moves up by the
      old number of buckets. */
  lemma {:induction false} LowTwice(n: nat, bits: nat)
    ensures Low(n, bits + 1) == Low(n, bits) || Low(n, bits + 1) == Low(n, bits) + Power(bits)
  {
    if bits > 0 {
      LowTwice(n / 2, bits - 1);
    } else {
      assert Low(n / 2, 0) == 0;
    }
  }

  /** The chain length when `items` are spread evenly. */
  function Ideal(items: nat, bits: nat): nat {
    Shifted(items, bits) + if Low(items, bits) != 0 then 1 else 0
  }

  /** That is the quotient, rounded up. */
  lemma IdealIsCeiling(items: nat, bits: nat)
    ensures items <= Ideal(items, bits) * Power(bits) < items + Power(bits)
  {
    LowAndShifted(items, bits);
    OneMore(Shifted(items, bits), Power(bits));
  }

  function Elems(s: seq<Handle>): (r: set<Handle>)
  {
    set h | h in s
  }

  /** The buckets hold the items of `s` and no others, each in its slot. */
  ghost predicate Holds(bs: seq<Bucket>, bits: nat, s: set<Handle>)
    reads bs`head, bs`count, bs`chain, s`hhPrev, s`hhNext, s`hashv
  {
    && |bs| == Power(bits)
    && (forall b, c :: 0 <= b < c < |bs| ==> bs[b] != bs[c])
    && (forall b :: 0 <= b < |bs| ==> InSlot(bs, bits, b, s))
    && (forall h :: h in s ==> h in bs[Low(h.hashv, bits)].chain)
  }

  ghost predicate InSlot(bs: seq<Bucket>, bits: nat, b: nat, s: set<Handle>)
    requires b < |bs|
    reads bs`head, bs`count, bs`chain, s`hhPrev, s`hhNext, s`hashv
  {
    (forall h :: h in bs[b].chain ==> h in s && Low(h.hashv, bits) == b) && bs[b].Valid()
  }

  // ---------- what expansion counts ----------

  /** The items past the first `ideal` ones of each bucket. */
  function Excess(counts: seq<nat>, ideal: nat): nat {
    if counts == [] then 0
    else (if counts[0] > ideal then counts[0] - ideal else 0) + Excess(counts[1..], ideal)
  }

  function Bumped(counts: seq<nat>, b: nat): seq<nat>
    requires b < |counts|
  {
    counts[b := counts[b] + 1]
  }

  lemma {:induction false} ExcessMore(counts: seq<nat>, b: nat, ideal: nat)
    requires b < |counts|
    ensures Excess(Bumped(counts, b), ideal) == Excess(counts, ideal) + if counts[b] + 1 > ideal then 1 else 0
  {
    var more := Bumped(counts, b);
    if b > 0 {
      ExcessMore(counts[1..], b - 1, ideal);
      assert more[1..] == Bumped(counts[1..], b - 1);
    } else {
      assert more[1..] == counts[1..];
    }
  }

  /** Sizes of the chains. */
  ghost function Counts(bs: seq<Bucket>): (r: seq<nat>)
    reads bs`count
    ensures |r| == |bs| && forall b :: 0 <= b < |bs| ==> r[b] == bs[b].count
  {
    if bs == [] then [] else Counts(bs[..|bs| - 1]) + [bs[|bs| - 1].count]
  }

  /** How often `ideal` goes into `count`. */
  function Times(count: nat, ideal: nat): nat
    requires ideal > 0
  {
    if count < ideal then 0 else 1 + Times(count - ideal, ideal)
  }

  lemma {:induction false} TimesDivides(count: nat, ideal: nat)
    requires ideal > 0
    ensures Times(count, ideal) * ideal <= count < Times(count, ideal) * ideal + ideal
    ensures Times(count, ideal) == count / ideal
  {
    if count >= ideal {
      TimesDivides(count - ideal, ideal);
      OneMore(Times(count - ideal, ideal), ideal);
    }
    QuotientUnique(count, ideal, Times(count, ideal));
  }

  lemma QuotientUnique(a: nat, b: nat, q: nat)
    requires b > 0 && q * b <= a < q * b + b
    ensures a / b == q
  {
    var p, r := a / b, a % b;
    assert a == b * p + r;
    ProductOrder(b, p, q);
    ProductOrder(b, q, p);
  }

  lemma ProductOrder(b: nat, p: nat, q: nat)
    ensures p < q ==> p * b + b <= q * b
  {
    if p < q {
      OneMore(p, b);
      var d := q - p - 1;
      assert q * b == (p + 1) * b + d * b;
    }
  }

  /** How often the capacity of a bucket is taken for one that is longer than ideal. */
  function Multiplier(count: nat, ideal: nat): nat
    requires ideal > 0
  {
    if count > ideal then Times(count, ideal) else 0
  }

  ghost function Multipliers(bs: seq<Bucket>): (r: seq<nat>)
    reads bs`expandMult
    ensures |r| == |bs| && forall b :: 0 <= b < |bs| ==> r[b] == bs[b].expandMult
  {
    if bs == [] then [] else Multipliers(bs[..|bs| - 1]) + [bs[|bs| - 1].expandMult]
  }

  /** Each bucket has the multiplier for its chain. */
  predicate Spread(multipliers: seq<nat>, counts: seq<nat>, ideal: nat)
    requires ideal > 0
  {
    |multipliers| == |counts| && forall b :: 0 <= b < |counts| ==> multipliers[b] == Multiplier(counts[b], ideal)
  }

  lemma SpreadMore(multipliers: seq<nat>, counts: seq<nat>, ideal: nat, b: nat)
    requires ideal > 0 && Spread(multipliers, counts, ideal) && b < |counts|
    ensures Spread(multipliers[b := Multiplier(counts[b] + 1, ideal)], Bumped(counts, b), ideal)
  {
  }

  ghost predicate Linked(chain: seq<Handle>)
    reads chain`hhNext
  {
    && (chain != [] ==> chain[|chain| - 1].hhNext == null)
    && forall i :: 0 <= i < |chain| - 1 ==> chain[i].hhNext == chain[i + 1]
  }

  /** One more item in its bucket. */
  method AddItem(h: Handle, bs: seq<Bucket>, bits: nat, ghost s: set<Handle>) returns (bucket: Bucket)
    requires Holds(bs, bits, s) && h !in s
    modifies bs`head, bs`count, bs`chain, h`hhPrev, h`hhNext, s`hhPrev
    ensures Holds(bs, bits, s + {h})
    ensures bucket == bs[Low(h.hashv, bits)] && Counts(bs) == Bumped(old(Counts(bs)), Low(h.hashv, bits))
  {
    ghost var counts := Counts(bs);
    var b := Low(h.hashv, bits);
    bucket := bs[b];
    assert InSlot(bs, bits, b, s);
    bucket.Add(h);
    forall c | 0 <= c < |bs| && c != b ensures bs[c] != bs[b] && bs[c].count == counts[c] {
      if c < b { assert bs[c] != bs[b]; } else { assert bs[b] != bs[c]; }
    }
    assert Counts(bs) == Bumped(counts, b);
    forall c | 0 <= c < |bs| ensures InSlot(bs, bits, c, s + {h}) {
      if c != b {
        assert old(InSlot(bs, bits, c, s)) && bs[c].chain == old(bs[c].chain);
        forall i | 0 <= i < |bs[c].chain| ensures unchanged(bs[c].chain[i]) {
          assert bs[c].chain[i] in bs[c].chain;
        }
        assert bs[c].Valid();
      }
    }
  }

  /** One item less in its bucket. */
  method DeleteItem(h: Handle, bs: seq<Bucket>, bits: nat, ghost s: set<Handle>)
    requires Holds(bs, bits, s) && h in s
    modifies bs`head, bs`count, bs`chain, s`hhPrev, s`hhNext
    ensures Holds(bs, bits, s - {h})
  {
    var b := Low(h.hashv, bits);
    assert InSlot(bs, bits, b, s);
    ghost var chain := bs[b].chain;
    ghost var i :| 0 <= i < |chain| && chain[i] == h;
    WithoutElems(chain, i);
    bs[b].Delete(h, i);
    forall c | 0 <= c < |bs| ensures InSlot(bs, bits, c, s - {h}) {
      if c != b {
        assert old(InSlot(bs, bits, c, s)) && bs[c].chain == old(bs[c].chain);
        forall i | 0 <= i < |bs[c].chain| ensures unchanged(bs[c].chain[i]) {
          assert bs[c].chain[i] in bs[c].chain;
        }
      }
    }
  }

  /** The statistics of expansion are those of the chains. */
  ghost predicate Weighed(bs: seq<Bucket>, ideal: nat, nonideal: nat)
    reads bs`count, bs`expandMult
  {
    ideal > 0 && Spread(Multipliers(bs), Counts(bs), ideal) && nonideal == Excess(Counts(bs), ideal)
  }

  /** One item into the new buckets; its old links are lost. */
  method MoveTo(h: Handle, bs: seq<Bucket>, bits: nat, ideal: nat, nonideal: nat, ghost moved: set<Handle>) returns (r: nat)
    requires Holds(bs, bits, moved) && h !in moved && Weighed(bs, ideal, nonideal)
    modifies bs`head, bs`count, bs`chain, bs`expandMult, h`hhPrev, h`hhNext, moved`hhPrev
    ensures Holds(bs, bits, moved + {h}) && Weighed(bs, ideal, r)
  {
    ghost var counts, multipliers, b := Counts(bs), Multipliers(bs), Low(h.hashv, bits);
    r := Weigh(h, bs, bits, ideal, nonideal);
    assert Counts(bs) == counts;
    ghost var more := Multipliers(bs);
    assert more == multipliers[b := Multiplier(counts[b] + 1, ideal)];
    var bucket := AddItem(h, bs, bits, moved);
    assert Multipliers(bs) == more;
    assert Counts(bs) == Bumped(counts, b);
    WeighedMore(bs, ideal, counts, multipliers, nonideal, b, r);
  }

  lemma WeighedMore(bs: seq<Bucket>, ideal: nat, counts: seq<nat>, multipliers: seq<nat>, nonideal: nat, b: nat, r: nat)
    requires ideal > 0 && b < |counts| && Spread(multipliers, counts, ideal) && nonideal == Excess(counts, ideal)
    requires Counts(bs) == Bumped(counts, b)
    requires Multipliers(bs) == multipliers[b := Multiplier(counts[b] + 1, ideal)]
    requires r == nonideal + if counts[b] + 1 > ideal then 1 else 0
    ensures Weighed(bs, ideal, r)
  {
    ExcessMore(counts, b, ideal);
    SpreadMore(multipliers, counts, ideal, b);
  }

  /** What one more item changes in the statistics. */
  method Weigh(h: Handle, bs: seq<Bucket>, bits: nat, ideal: nat, nonideal: nat) returns (r: nat)
    requires |bs| == Power(bits) && Weighed(bs, ideal, nonideal)
    requires forall b, c :: 0 <= b < c < |bs| ==> bs[b] != bs[c]
    modifies bs`expandMult
    ensures var b := Low(h.hashv, bits);
      && r == nonideal + (if Counts(bs)[b] + 1 > ideal then 1 else 0)
      && Multipliers(bs) == old(Multipliers(bs))[b := Multiplier(Counts(bs)[b] + 1, ideal)]
  {
    ghost var b, multipliers := Low(h.hashv, bits), Multipliers(bs);
    var bucket := bs[Low(h.hashv, bits)];
    r := nonideal;
    if bucket.count + 1 > ideal {
      r := r + 1;
      bucket.expandMult := (bucket.count + 1) / ideal;
      TimesDivides(bucket.count + 1, ideal);
    }
    assert Multipliers(bs) == multipliers[b := Multiplier(bs[b].count + 1, ideal)];
  }

  /** All items of a chain into the new buckets. The next item is read before the links
      of the present one are lost. */
  method MoveChain(first: Handle?, ghost chain: seq<Handle>, bs: seq<Bucket>, bits: nat, ideal: nat, nonideal: nat, ghost moved: set<Handle>)
    returns (r: nat)
    requires Holds(bs, bits, moved) && Weighed(bs, ideal, nonideal)
    requires Chained(first, chain) && Elems(chain) !! moved
    modifies bs`head, bs`count, bs`chain, bs`expandMult, Elems(chain)`hhPrev, Elems(chain)`hhNext, moved`hhPrev
    ensures Holds(bs, bits, moved + Elems(chain)) && Weighed(bs, ideal, r)
  {
    r := nonideal;
    var thh := first;
    ghost var rest, done := chain, moved;
    while thh != null
      invariant Chained(thh, rest) && Elems(rest) !! done && Elems(rest) <= Elems(chain)
      invariant done + Elems(rest) == moved + Elems(chain)
      invariant Holds(bs, bits, done) && Weighed(bs, ideal, r)
      decreases |rest|
    {
      ChainedStep(thh, rest);
      ghost var h := thh;
      thh, r := MoveFirst(thh, rest, bs, bits, ideal, r, done);
      done := done + {h};
      rest := rest[1..];
    }
    assert done == moved + Elems(chain);
  }

  /** The first item of a chain; what is left is still a chain. */
  method MoveFirst(thh: Handle, ghost rest: seq<Handle>, bs: seq<Bucket>, bits: nat, ideal: nat, nonideal: nat, ghost done: set<Handle>)
    returns (next: Handle?, r: nat)
    requires Holds(bs, bits, done) && Weighed(bs, ideal, nonideal)
    requires Chained(thh, rest) && Elems(rest) !! done
    modifies bs`head, bs`count, bs`chain, bs`expandMult, thh`hhPrev, thh`hhNext, done`hhPrev
    ensures Holds(bs, bits, done + {thh}) && Weighed(bs, ideal, r)
    ensures rest != [] && Chained(next, rest[1..])
  {
    ChainedStep(thh, rest);
    next := thh.hhNext;
    r := MoveTo(thh, bs, bits, ideal, nonideal, done);
  }

  /** A chain from `first` on, by its forward links. */
  ghost predicate Chained(first: Handle?, chain: seq<Handle>)
    reads chain`hhNext
  {
    Distinct(chain) && Linked(chain) && first == if chain == [] then null else chain[0]
  }

  lemma ChainedStep(first: Handle, chain: seq<Handle>)
    requires Chained(first, chain)
    ensures chain != [] && Chained(first.hhNext, chain[1..])
    ensures Elems(chain) == {first} + Elems(chain[1..]) && first !in Elems(chain[1..])
  {
    assert chain == [first] + chain[1..];
    var rest := chain[1..];
    assert first == chain[0] && rest != [] ==> chain[|chain| - 1] == rest[|rest| - 1];
    forall i | 0 <= i < |rest| - 1 ensures rest[i].hhNext == rest[i + 1] {
      assert chain[i + 1].hhNext == chain[i + 1 + 1];
    }
  }

  /** Empty buckets in new memory. */
  method NewBuckets(n: nat) returns (bs: seq<Bucket>)
    ensures |bs| == n && forall b :: 0 <= b < n ==> fresh(bs[b]) && bs[b].Valid() && bs[b].chain == [] && bs[b].expandMult == 0
    ensures forall b, c :: 0 <= b < c < n ==> bs[b] != bs[c]
  {
    bs := [];
    for i := 0 to n
      invariant |bs| == i && forall b :: 0 <= b < i ==> fresh(bs[b]) && bs[b].Valid() && bs[b].chain == [] && bs[b].expandMult == 0
      invariant forall b, c :: 0 <= b < c < i ==> bs[b] != bs[c]
    {
      var bucket := new Bucket();
      bs := bs + [bucket];
    }
  }

  lemma NothingWeighed(bs: seq<Bucket>, ideal: nat)
    requires ideal > 0 && forall b :: 0 <= b < |bs| ==> bs[b].count == 0 && bs[b].expandMult == 0
    ensures Weighed(bs, ideal, 0)
  {
    NoExcess(Counts(bs), ideal);
  }

  lemma {:induction false} NoExcess(counts: seq<nat>, ideal: nat)
    requires forall b :: 0 <= b < |counts| ==> counts[b] == 0
    ensures Excess(counts, ideal) == 0
  {
    if counts != [] {
      NoExcess(counts[1..], ideal);
    }
  }

  /** The items of `s` in the first `i` of `Power(bits)` buckets. */
  ghost function Before(s: set<Handle>, bits: nat, i: nat): set<Handle>
    reads s`hashv
  {
    set h | h in s && Low(h.hashv, bits) < i
  }

  /** The items of one bucket; the buckets after it are as they were. */
  method MoveBucket(was: seq<Bucket>, i: nat, bs: seq<Bucket>, bits: nat, ideal: nat, nonideal: nat, ghost s: set<Handle>) returns (r: nat)
    requires i < |was| && Holds(bs, bits + 1, Before(s, bits, i)) && Weighed(bs, ideal, nonideal)
    requires AllWaiting(was, bits, i, s)
    requires forall b :: b in bs ==> b !in was
    modifies bs`head, bs`count, bs`chain, bs`expandMult, s`hhPrev, s`hhNext
    ensures Holds(bs, bits + 1, Before(s, bits, i + 1)) && Weighed(bs, ideal, r)
    ensures AllWaiting(was, bits, i + 1, s)
  {
    hide Chained, Linked, Low, Weighed, Power;
    ghost var chain := was[i].chain;
    assert Waiting(was, bits, i, s);
    assert Elems(chain) == Among(s, bits, i);
    assert Before(s, bits, i + 1) == Before(s, bits, i) + Elems(chain);
    r := MoveChain(was[i].head, chain, bs, bits + 1, ideal, nonideal, Before(s, bits, i));
    forall j | i < j < |was| ensures Waiting(was, bits, j, s) {
      assert old(Waiting(was, bits, j, s));
      assert was[j] !in bs;
      forall h | h in was[j].chain ensures h !in Elems(chain) && h.hhNext == old(h.hhNext) {
        assert h in Elems(was[j].chain) && h in Among(s, bits, j);
      }
    }
  }

  /** The items of `s` that belong in bucket `j`. */
  ghost function Among(s: set<Handle>, bits: nat, j: nat): set<Handle>
    reads s`hashv
  {
    set h | h in s && Low(h.hashv, bits) == j
  }

  /** All items of `was` into the new ones. */
  method Redistribute(was: seq<Bucket>, bs: seq<Bucket>, bits: nat, ideal: nat, ghost s: set<Handle>) returns (nonideal: nat)
    requires |was| == Power(bits) && AllWaiting(was, bits, 0, s)
    requires Holds(bs, bits + 1, Before(s, bits, 0)) && Weighed(bs, ideal, 0)
    requires forall b :: b in bs ==> b !in was
    modifies bs`head, bs`count, bs`chain, bs`expandMult, s`hhPrev, s`hhNext
    ensures Holds(bs, bits + 1, Before(s, bits, |was|)) && Weighed(bs, ideal, nonideal)
  {
    hide Holds, Weighed, AllWaiting, Before;
    nonideal := 0;
    var i := 0;
    while i < |was|
      invariant 0 <= i <= |was|
      invariant Holds(bs, bits + 1, Before(s, bits, i)) && Weighed(bs, ideal, nonideal)
      invariant AllWaiting(was, bits, i, s)
    {
      nonideal := MoveBucket(was, i, bs, bits, ideal, nonideal, s);
      i := i + 1;
      assert Weighed(bs, ideal, nonideal);
    }
    assert i == |was|;
    assert Holds(bs, bits + 1, Before(s, bits, |was|));
  }

  /** Bucket `j` still has its items, linked forward. */
  ghost predicate Waiting(was: seq<Bucket>, bits: nat, j: nat, s: set<Handle>)
    requires j < |was|
    reads was`head, was`chain, s`hashv, s`hhNext
  {
    && (forall h :: h in was[j].chain ==> h in s)
    && Elems(was[j].chain) == Among(s, bits, j)
    && Chained(was[j].head, was[j].chain)
  }

  ghost predicate AllWaiting(was: seq<Bucket>, bits: nat, i: nat, s: set<Handle>)
    reads was`head, was`chain, s`hashv, s`hhNext
  {
    forall j :: i <= j < |was| ==> Waiting(was, bits, j, s)
  }

  lemma HeldWaiting(was: seq<Bucket>, bits: nat, s: set<Handle>)
    requires Holds(was, bits, s)
    ensures AllWaiting(was, bits, 0, s)
  {
    forall j | 0 <= j < |was| ensures Waiting(was, bits, j, s) {
      assert InSlot(was, bits, j, s);
    }
  }

  /** Twice as many buckets with the same items, and their statistics. */
  method ExpandBuckets(was: seq<Bucket>, bits: nat, numItems: nat, ghost s: set<Handle>)
    returns (bs: seq<Bucket>, ideal: nat, nonideal: nat)
    requires Holds(was, bits, s) && numItems > 0
    modifies s`hhPrev, s`hhNext
    ensures Holds(bs, bits + 1, s) && ideal == Ideal(numItems, bits + 1) && Weighed(bs, ideal, nonideal)
    ensures forall b :: 0 <= b < |bs| ==> fresh(bs[b])
  {
    bs := NewBuckets(2 * |was|);
    ideal := Ideal(numItems, bits + 1);
    IdealIsCeiling(numItems, bits + 1);
    NothingWeighed(bs, ideal);
    HeldWaiting(was, bits, s);
    NothingHeld(bs, bits + 1, Before(s, bits, 0));
    nonideal := Redistribute(was, bs, bits, ideal, s);
    assert Before(s, bits, |was|) == s;
  }

  lemma NothingHeld(bs: seq<Bucket>, bits: nat, s: set<Handle>)
    requires |bs| == Power(bits) && s == {}
    requires forall b :: 0 <= b < |bs| ==> bs[b].Valid() && bs[b].chain == []
    requires forall b, c :: 0 <= b < c < |bs| ==> bs[b] != bs[c]
    ensures Holds(bs, bits, s)
  {
  }
}
