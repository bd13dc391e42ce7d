/** One bucket of the hash table: a chain of items, linked both ways through the items. */
module Buckets {

  /** An item's place in its table: `prev` and `next` in the order of insertion,
      `hhPrev` and `hhNext` in its bucket. */
  class Handle {
    var prev: Handle?
    var next: Handle?
    var hhPrev: Handle?
    var hhNext: Handle?
    var key: string
    var hashv: nat
    /** What the client stores with the key. */
    const value: int

    constructor (v: int)
      ensures value == v
    {
      value := v;
    }
  }

  /** `s` without what is at `i`. */
  function Without<T>(s: seq<T>, i: nat): seq<T>
    requires i < |s|
  {
    s[..i] + s[i + 1..]
  }

  ghost predicate Distinct(s: seq<Handle>) {
    forall i, j :: 0 <= i < j < |s| ==> s[i] != s[j]
  }

  lemma WithoutElems(s: seq<Handle>, i: nat)
    requires Distinct(s) && i < |s|
    ensures forall h :: h in Without(s, i) <==> h in s && h != s[i]
  {
    var r := Without(s, i);
    forall h | h in s && h != s[i] ensures h in r {
      var k :| 0 <= k < |s| && s[k] == h;
      assert r[if k < i then k else k - 1] == h;
    }
    forall h | h in r ensures h in s && h != s[i] {
      var k :| 0 <= k < |r| && r[k] == h;
      assert s[if k < i then k else k + 1] == h;
    }
  }

  class Bucket {
    var head: Handle?
    var count: nat
    var expandMult: nat
    ghost var chain: seq<Handle>

    ghost predicate Valid()
      reads this`head, this`count, this`chain, chain`hhPrev, chain`hhNext
    {
      && count == |chain| && Distinct(chain)
      && (if chain == [] then head == null else head == chain[0] && chain[0].hhPrev == null && chain[|chain| - 1].hhNext == null)
      && (forall i :: 0 < i < |chain| ==> chain[i].hhPrev == chain[i - 1])
      && (forall i :: 0 <= i < |chain| - 1 ==> chain[i].hhNext == chain[i + 1])
    }

    constructor ()
      ensures Valid() && chain == [] && expandMult == 0
    {
      head, count, expandMult, chain := null, 0, 0, [];
    }

    /** A new item goes to the front. */
    method Add(h: Handle)
      requires Valid() && h !in chain
      modifies this`head, this`count, this`chain, h`hhPrev, h`hhNext, chain`hhPrev
      ensures Valid() && chain == [h] + old(chain)
    {
      count := count + 1;
      h.hhNext := head;
      h.hhPrev := null;
      if head != null {
        head.hhPrev := h;
      }
      head := h;
      chain := [h] + chain;
    }

    /** The others keep their order. */
    method Delete(h: Handle, ghost i: nat)
      requires Valid() && i < |chain| && chain[i] == h
      modifies this`head, this`count, this`chain, chain`hhPrev, chain`hhNext
      ensures Valid() && chain == Without(old(chain), i)
    {
      ghost var was := chain;
      assert h.hhPrev == (if i == 0 then null else chain[i - 1]);
      assert h.hhNext == (if i == |chain| - 1 then null else chain[i + 1]);
      count := count - 1;
      if head == h {
        head := h.hhNext;
      }
      if h.hhPrev != null {
        h.hhPrev.hhNext := h.hhNext;
      }
      if h.hhNext != null {
        h.hhNext.hhPrev := h.hhPrev;
      }
      chain := Without(chain, i);
      assert forall k :: 0 <= k < |chain| ==> chain[k] == was[if k < i then k else k + 1];
    }

    /** The first item of the chain with this hash value and key, or null. */
    method Find(key: string, hashv: nat) returns (out: Handle?)
      requires Valid()
      ensures out != null ==> out in chain && out.hashv == hashv && out.key == key
      ensures out == null ==> forall h :: h in chain ==> h.hashv != hashv || h.key != key
    {
      out := head;
      ghost var n := 0;
      while out != null && !(out.hashv == hashv && out.key == key)
        invariant 0 <= n <= |chain| && out == if n < |chain| then chain[n] else null
        invariant forall i :: 0 <= i < n ==> chain[i].hashv != hashv || chain[i].key != key
        decreases |chain| - n
      {
        out := out.hhNext;
        n := n + 1;
      }
    }
  }
}
