/** The hash table: its items in the order of insertion, and the same items in buckets. */
module HashTables {
  import opened Buckets
  import opened Expansion
  import opened Sorting

  const INITIAL_BITS: nat := 5
  const CAPACITY: nat := 10

  class HashTable {
    /** Any fixed function from keys to hash values. */
    const hash: string -> nat
    var head: Handle?
    var tail: Handle?
    var buckets: seq<Bucket>
    /** The binary logarithm of the number of buckets. */
    var bits: nat
    var numItems: nat
    var idealChainMaxlen: nat
    var nonidealItems: nat
    var ineffExpands: nat
    var noexpand: bool
    ghost var items: seq<Handle>

    /** The list in order of insertion, linked both ways. */
    ghost predicate Ordered()
      reads this`head, this`tail, this`items, items`prev, items`next
    {
      && Distinct(items)
      && (if items == [] then head == null
          else head == items[0] && tail == items[|items| - 1] && head.prev == null && tail.next == null)
      && (forall i, j :: 0 <= i < j < |items| && j == i + 1 ==> items[i].next == items[j] && items[j].prev == items[i])
    }

    ghost predicate Keyed()
      reads this`items, items`key, items`hashv
    {
      KeyedList(items)
    }

    ghost predicate KeyedList(s: seq<Handle>)
      reads s`key, s`hashv
    {
      && (forall i :: 0 <= i < |s| ==> s[i].hashv == hash(s[i].key))
      && (forall i, j :: 0 <= i < j < |s| ==> s[i].key != s[j].key)
    }

    lemma KeyedWithout(s: seq<Handle>, i: nat)
      requires KeyedList(s) && i < |s|
      ensures KeyedList(Without(s, i))
    {
      var r := Without(s, i);
      assert forall k :: 0 <= k < |r| ==> r[k] == s[if k < i then k else k + 1];
    }

    /** The integrity check of the library, and the keys. The table proper exists only
        while there are items. */
    ghost predicate Valid()
      reads this, items, buckets
    {
      && Ordered() && Keyed()
      && (items != [] ==> numItems == |items| && Holds(buckets, bits, Elems(items)))
    }

    constructor (hash: string -> nat)
      ensures Valid() && items == [] && buckets == [] && this.hash == hash
    {
      this.hash := hash;
      head, tail, items, buckets, bits := null, null, [], [], 0;
    }

    /** The item with this key, or null. */
    method Find(key: string) returns (out: Handle?)
      requires Valid()
      ensures out != null ==> out in items && out.key == key
      ensures out == null ==> forall h :: h in items ==> h.key != key
    {
      out := null;
      if head != null {
        var hashv := hash(key);
        var b := Low(hashv, bits);
        assert InSlot(buckets, bits, b, Elems(items));
        out := buckets[b].Find(key, hashv);
        forall h | out == null && h in items ensures h.key != key {
          assert h in Elems(items);
        }
      }
    }

    /** Twice as many buckets for the items of `s`, and new statistics. */
    method Expand(ghost s: set<Handle>)
      requires Holds(buckets, bits, s) && numItems > 0
      modifies this`buckets, this`bits, this`idealChainMaxlen, this`nonidealItems, this`ineffExpands, this`noexpand
      modifies s`hhPrev, s`hhNext
      ensures Holds(buckets, bits, s) && bits == old(bits) + 1
      ensures forall i :: 0 <= i < |buckets| ==> fresh(buckets[i])
      ensures idealChainMaxlen == Ideal(numItems, bits) && Weighed(buckets, idealChainMaxlen, nonidealItems)
      ensures ineffExpands == if nonidealItems > numItems / 2 then old(ineffExpands) + 1 else 0
      ensures noexpand == (old(noexpand) || ineffExpands > 1)
    {
      hide Holds, Weighed, Ideal;
      var k := bits;
      var bs, ideal, nonideal := ExpandBuckets(buckets, k, numItems, s);
      Install(bs, ideal, nonideal);
      assert Holds(bs, k + 1, s);
      assert bits == k + 1;
    }

    /** The new buckets take the place of the old ones. Two expansions in a row that leave
        most items in long chains are the last ones. */
    method Install(bs: seq<Bucket>, ideal: nat, nonideal: nat)
      modifies this`buckets, this`bits, this`idealChainMaxlen, this`nonidealItems, this`ineffExpands, this`noexpand
      ensures buckets == bs && bits == old(bits) + 1 && idealChainMaxlen == ideal && nonidealItems == nonideal
      ensures ineffExpands == if nonideal > numItems / 2 then old(ineffExpands) + 1 else 0
      ensures noexpand == (old(noexpand) || ineffExpands > 1)
    {
      buckets, bits, idealChainMaxlen, nonidealItems := bs, bits + 1, ideal, nonideal;
      ineffExpands := if nonidealItems > numItems / 2 then ineffExpands + 1 else 0;
      if ineffExpands > 1 {
        noexpand := true;
      }
    }

    /** `h`, the one item of `s` that the buckets lack. A chain that gets too long doubles
        the buckets. */
    method AddToBucket(h: Handle, ghost s: set<Handle>)
      requires h in s && Holds(buckets, bits, s - {h}) && numItems > 0
      modifies this`buckets, this`bits, this`idealChainMaxlen, this`nonidealItems, this`ineffExpands, this`noexpand
      modifies buckets, s`hhPrev, s`hhNext
      ensures Holds(buckets, bits, s)
      ensures var bucket := old(buckets[Low(h.hashv, bits)]);
        bits == old(bits) + if old(bucket.count) + 1 >= (bucket.expandMult + 1) * 10 && !old(noexpand) then 1 else 0
      ensures bits == old(bits) ==> buckets == old(buckets)
      ensures bits != old(bits) ==> forall i :: 0 <= i < |buckets| ==> fresh(buckets[i])
    {
      hide Holds, Weighed;
      var bs, k := buckets, bits;
      var bucket := AddItem(h, bs, k, s - {h});
      assert s - {h} + {h} == s;
      assert Holds(bs, k, s) && bits == k;
      if bucket.count >= (bucket.expandMult + 1) * CAPACITY && !noexpand {
        Expand(s);
      }
    }

    /** At the end of the list. */
    method Append(h: Handle)
      requires Ordered() && items != [] && h !in items
      modifies this`tail, this`items, h`prev, h`next, items`next
      ensures Ordered() && items == old(items) + [h]
    {
      h.next := null;
      h.prev := tail;
      tail.next := h;
      tail := h;
      items := items + [h];
    }

    /** The first item makes the table. */
    method MakeTable(h: Handle)
      requires items == []
      modifies this, h`prev, h`next
      ensures Ordered() && items == [h] && numItems == 0
      ensures bits == 5 && |buckets| == 32 && Holds(buckets, bits, {}) && !noexpand && ineffExpands == 0
      ensures forall i :: 0 <= i < |buckets| ==> fresh(buckets[i])
    {
      h.next, h.prev := null, null;
      head, tail, items := h, h, [h];
      numItems, idealChainMaxlen, nonidealItems, ineffExpands, noexpand := 0, 0, 0, 0, false;
      bits := INITIAL_BITS;
      buckets := NewBuckets(Power(INITIAL_BITS));
      NothingHeld(buckets, bits, {});
    }

    /** One more item in the list; the buckets still lack it. */
    method Enlist(h: Handle)
      requires Ordered() && h !in items
      requires items != [] ==> numItems == |items| && Holds(buckets, bits, Elems(items))
      modifies this, h`prev, h`next, items`next
      ensures Ordered() && items == old(items) + [h] && numItems == |items|
      ensures Holds(buckets, bits, Elems(old(items)))
      ensures buckets == old(buckets) || forall i :: 0 <= i < |buckets| ==> fresh(buckets[i])
    {
      if head == null {
        MakeTable(h);
        assert Elems(old(items)) == {};
      } else {
        ghost var bs, k, s := buckets, bits, Elems(items);
        Append(h);
        assert Holds(bs, k, s);
      }
      numItems := numItems + 1;
    }

    /** The key and the place in the list. */
    method Enroll(h: Handle, key: string)
      requires Valid() && h !in items && forall g :: g in items ==> g.key != key
      modifies this, h`prev, h`next, h`key, h`hashv, items`next
      ensures Ordered() && Keyed() && items == old(items) + [h] && numItems == |items| && h.key == key
      ensures Holds(buckets, bits, Elems(old(items)))
      ensures buckets == old(buckets) || forall i :: 0 <= i < |buckets| ==> fresh(buckets[i])
    {
      h.hashv := hash(key);
      h.key := key;
      Enlist(h);
    }

    /** The item that is in the list but not yet in a bucket. */
    method Place(h: Handle)
      requires Ordered() && Keyed() && h in items && numItems == |items| && Holds(buckets, bits, Elems(items) - {h})
      modifies this`buckets, this`bits, this`idealChainMaxlen, this`nonidealItems, this`ineffExpands, this`noexpand
      modifies buckets, items`hhPrev, items`hhNext
      ensures Valid()
      ensures buckets == old(buckets) || forall i :: 0 <= i < |buckets| ==> fresh(buckets[i])
    {
      ghost var keyed, ordered, s := Keyed(), Ordered(), Elems(items);
      AddToBucket(h, s);
      assert Keyed() == keyed && Ordered() == ordered;
    }

    /** A new item with a new key. */
    method Add(h: Handle, key: string)
      requires Valid() && h !in items && forall g :: g in items ==> g.key != key
      modifies this, buckets, h, items`next, items`hhPrev, items`hhNext
      ensures Valid() && items == old(items) + [h] && h.key == key
      ensures buckets == old(buckets) || forall i :: 0 <= i < |buckets| ==> fresh(buckets[i])
    {
      Enroll(h, key);
      assert Elems(items) - {h} == Elems(old(items));
      Place(h);
    }

    /** Out of a list that has other items. */
    method Unlink(h: Handle, ghost i: nat)
      requires Ordered() && i < |items| && items[i] == h && |items| > 1
      modifies this`head, this`tail, this`items, items`prev, items`next
      ensures Ordered() && items == Without(old(items), i)
    {
      ghost var was := items;
      assert h.prev == (if i == 0 then null else items[i - 1]);
      assert h.next == (if i == |items| - 1 then null else items[i + 1]);
      if h == tail {
        tail := h.prev;
      }
      if h.prev != null {
        h.prev.next := h.next;
      } else {
        head := h.next;
      }
      if h.next != null {
        h.next.prev := h.prev;
      }
      items := Without(items, i);
      assert forall k :: 0 <= k < |items| ==> items[k] == was[if k < i then k else k + 1];
    }

    /** Out of the list; the buckets still have it. */
    method Delist(h: Handle, ghost i: nat)
      requires Valid() && i < |items| && items[i] == h && |items| > 1
      modifies this`head, this`tail, this`items, items`prev, items`next
      ensures Ordered() && Keyed() && items == Without(old(items), i) && Elems(items) == Elems(old(items)) - {h}
      ensures Holds(buckets, bits, Elems(old(items)))
    {
      WithoutElems(items, i);
      KeyedWithout(items, i);
      ghost var s, rest := Elems(items), Without(items, i);
      ghost var held, keyed := Holds(buckets, bits, s), KeyedList(rest);
      Unlink(h, i);
      assert Holds(buckets, bits, s) == held && KeyedList(rest) == keyed;
    }

    /** Out of its bucket, after it left the list. */
    method Displace(h: Handle, ghost s: set<Handle>)
      requires Ordered() && Keyed() && items != [] && numItems == |items| + 1
      requires Holds(buckets, bits, s) && h in s && s - {h} == Elems(items)
      modifies this`numItems, buckets, s`hhPrev, s`hhNext
      ensures Valid()
    {
      hide Holds, Distinct, KeyedList;
      ghost var keyed, ordered := Keyed(), Ordered();
      DeleteItem(h, buckets, bits, s);
      numItems := numItems - 1;
      assert Keyed() == keyed && Ordered() == ordered;
    }

    /** The last item takes the table with it. */
    method Delete(h: Handle, ghost i: nat)
      requires Valid() && i < |items| && items[i] == h
      modifies this, buckets, items`prev, items`next, items`hhPrev, items`hhNext
      ensures Valid() && items == Without(old(items), i) && buckets == old(buckets)
    {
      ghost var s := Elems(items);
      assert h.prev == (if i == 0 then null else items[i - 1]);
      assert h.next == (if i == |items| - 1 then null else items[i + 1]);
      if h.prev == null && h.next == null {
        head, items := null, [];
      } else {
        Delist(h, i);
        Displace(h, s);
      }
    }

    /** Every item in turn, deleted while the iteration is under way: each of them once. */
    method Clear() returns (ghost freed: seq<Handle>)
      requires Valid()
      modifies this, buckets, Elems(items)`prev, Elems(items)`next, Elems(items)`hhPrev, Elems(items)`hhNext
      ensures Valid() && items == [] && freed == old(items) && buckets == old(buckets)
    {
      hide HashTable.Valid;
      ghost var was, bs, all := items, buckets, Elems(items);
      freed := [];
      var obj, tmp := FirstTwo();
      while obj != null
        invariant Valid() && buckets == bs && Elems(items) <= all && was == freed + items
        invariant AtFirst(obj, tmp)
        decreases |items|
      {
        Shift(freed, items);
        freed := freed + [items[0]];
        obj, tmp := Drop(obj, tmp, bs, all);
      }
    }

    /** The first item and the one after it. */
    ghost predicate AtFirst(obj: Handle?, tmp: Handle?)
      reads this
    {
      obj == (if items == [] then null else items[0]) && tmp == (if |items| > 1 then items[1] else null)
    }

    method FirstTwo() returns (obj: Handle?, tmp: Handle?)
      requires Valid()
      ensures AtFirst(obj, tmp)
    {
      obj := head;
      Following(obj, 0);
      tmp := if obj != null then obj.next else null;
    }

    /** Delete the first item; the one after the next. */
    method Drop(obj: Handle, tmp: Handle?, ghost bs: seq<Bucket>, ghost all: set<Handle>) returns (next: Handle?, following: Handle?)
      requires Valid() && buckets == bs && Elems(items) <= all && items != [] && AtFirst(obj, tmp)
      modifies this, bs, all`prev, all`next, all`hhPrev, all`hhNext
      ensures Valid() && items == old(items)[1..] && buckets == bs && Elems(items) <= all
      ensures AtFirst(next, following)
    {
      WithoutFirst(items);
      assert forall i :: 0 <= i < |items| ==> items[i] in Elems(items);
      Delete(obj, 0);
      Following(tmp, 0);
      next := tmp;
      following := if tmp != null then tmp.next else null;
    }

    lemma Following(h: Handle?, i: nat)
      requires Valid() && h == if i < |items| then items[i] else null
      ensures h != null ==> h.next == if i + 1 < |items| then items[i + 1] else null
    {
    }

    /** Merge sort of the list, by any total preorder on the items. The buckets stay as
        they are. */
    method Sort(le: (Handle, Handle) -> bool)
      requires Valid()
      modifies this`head, this`tail, this`items, items`prev, items`next
      ensures Valid() && items == SortFrom(old(items), 1, le)
      ensures Preorder(old(items), le) ==> Sorted(items, le) && Stable(old(items), items, le)
    {
      hide Holds, SortFrom;
      ghost var was := items;
      assert was != [] ==> Holds(buckets, bits, Elems(was));
      if head != null {
        SortLinks(le);
      } else {
        SortsNothing(le);
      }
      SortItems(was, 1, le);
      SameItems(was, items);
      KeyedMoved(was, items);
      assert Elems(items) == Elems(was);
      if Preorder(was, le) {
        Sorts(was, le);
      }
    }

    lemma KeyedMoved(s: seq<Handle>, r: seq<Handle>)
      requires KeyedList(s) && Distinct(r) && forall h :: h in r ==> h in s
      ensures KeyedList(r)
    {
      forall i | 0 <= i < |r| ensures r[i].hashv == hash(r[i].key) {
        assert r[i] in s;
      }
      forall i, j | 0 <= i < j < |r| ensures r[i].key != r[j].key {
        assert r[i] in s && r[j] in s;
        var a :| 0 <= a < |s| && s[a] == r[i];
        var b :| 0 <= b < |s| && s[b] == r[j];
      }
    }

    method SortLinks(le: (Handle, Handle) -> bool)
      requires Ordered() && items != []
      modifies this`head, this`tail, this`items, items`prev, items`next
      ensures Ordered() && items == SortFrom(old(items), 1, le)
    {
      hide Pass;
      ghost var was, all := items, set x | x in items;
      ghost var s := items;
      var w, list, looping := 1, head, true;
      while looping
        invariant items == was && w > 0 && s != [] && Distinct(s) && Ending(s) && all == set x | x in s
        invariant if looping then list == s[0] && SortFrom(s, w, le) == SortFrom(was, 1, le) && |s| == |was|
                  else Done(s) && s == SortFrom(was, 1, le) && head == s[0] && tail == s[|s| - 1]
        decreases looping, |was| - w
      {
        PassItems(s, w, le);
        SameItems(s, Pass(s, w, le));
        var first, last, merges := MergePass(list, w, le, s, all);
        s := Pass(s, w, le);
        list := first;
        if merges <= 1 {
          looping := false;
          tail := last;
          head := first;
        }
        w := w * 2;
      }
      items := s;
    }
  }

  lemma WithoutFirst<T>(s: seq<T>)
    requires s != []
    ensures Without(s, 0) == s[1..]
    ensures |s| > 1 ==> s[1..][0] == s[1]
    ensures |s| > 2 ==> s[1..][1] == s[2]
  {
  }

  lemma Shift<T>(freed: seq<T>, items: seq<T>)
    requires items != []
    ensures freed + items == (freed + [items[0]]) + items[1..]
    ensures forall i :: 0 <= i < |items| ==> items[i] == (freed + items)[|freed| + i]
  {
  }
}
