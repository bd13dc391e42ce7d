/** The bottom-up merge sort of the table's list: what it makes of a sequence, and the
    same thing done on the links. */
module Sorting {
  import opened Buckets

  // ---------- on sequences ----------

  function Min(a: nat, b: nat): nat { if a < b then a else b }

  /** On a tie the item of the first list comes first. */
  function Merge<T>(a: seq<T>, b: seq<T>, le: (T, T) -> bool): (r: seq<T>)
    ensures |r| == |a| + |b|
    decreases |a| + |b|
  {
    if a == [] then b
    else if b == [] then a
    else if le(a[0], b[0]) then [a[0]] + Merge(a[1..], b, le)
    else [b[0]] + Merge(a, b[1..], le)
  }

  /** Runs of `w` items, merged two by two. */
  function Pass<T>(s: seq<T>, w: nat, le: (T, T) -> bool): (r: seq<T>)
    requires w > 0
    ensures |r| == |s|
    decreases |s|
  {
    if s == [] then []
    else
      var m, e := Min(w, |s|), Min(2 * w, |s|);
      Merge(s[..m], s[m..e], le) + Pass(s[e..], w, le)
  }

  /** Passes with runs of `w`, `2w`, ... until one pass merges at most once. */
  function SortFrom<T>(s: seq<T>, w: nat, le: (T, T) -> bool): (r: seq<T>)
    requires w > 0
    ensures |r| == |s|
    decreases |s| - w
  {
    if |s| <= 2 * w then Pass(s, w, le) else SortFrom(Pass(s, w, le), 2 * w, le)
  }

  /** A total preorder on the items of `s`. */
  ghost predicate Preorder<T>(s: seq<T>, le: (T, T) -> bool) {
    && (forall x, y :: x in s && y in s ==> le(x, y) || le(y, x))
    && (forall x, y, z :: x in s && y in s && z in s && le(x, y) && le(y, z) ==> le(x, z))
  }

  ghost predicate Sorted<T>(s: seq<T>, le: (T, T) -> bool) {
    forall i, j :: 0 <= i < j < |s| ==> le(s[i], s[j])
  }

  /** The items of `s` that rank with `x`, in order. */
  function Alike<T>(s: seq<T>, x: T, le: (T, T) -> bool): seq<T>
    decreases |s|
  {
    if s == [] then []
    else (if le(x, s[0]) && le(s[0], x) then [s[0]] else []) + Alike(s[1..], x, le)
  }

  /** The same items, those of equal rank in the same order. */
  ghost predicate Stable<T>(s: seq<T>, r: seq<T>, le: (T, T) -> bool) {
    multiset(r) == multiset(s) && forall x :: x in s ==> Alike(r, x, le) == Alike(s, x, le)
  }

  lemma {:induction false} AlikeMore<T>(a: seq<T>, b: seq<T>, x: T, le: (T, T) -> bool)
    ensures Alike(a + b, x, le) == Alike(a, x, le) + Alike(b, x, le)
    decreases |a|
  {
    if a == [] {
      assert a + b == b;
    } else {
      assert (a + b)[1..] == a[1..] + b;
      AlikeMore(a[1..], b, x, le);
    }
  }

  lemma {:induction false} NoneAlike<T>(a: seq<T>, x: T, le: (T, T) -> bool)
    requires forall i :: 0 <= i < |a| ==> !(le(x, a[i]) && le(a[i], x))
    ensures Alike(a, x, le) == []
    decreases |a|
  {
    if a != [] {
      NoneAlike(a[1..], x, le);
    }
  }

  lemma {:induction false} MergeItems<T>(a: seq<T>, b: seq<T>, le: (T, T) -> bool)
    ensures multiset(Merge(a, b, le)) == multiset(a) + multiset(b)
    decreases |a| + |b|
  {
    if a != [] && b != [] {
      if le(a[0], b[0]) {
        MergeItems(a[1..], b, le);
        FirstItem(a, Merge(a[1..], b, le));
      } else {
        MergeItems(a, b[1..], le);
        FirstItem(b, Merge(a, b[1..], le));
      }
    }
  }

  lemma FirstItem<T>(s: seq<T>, r: seq<T>)
    requires s != []
    ensures multiset([s[0]] + r) == multiset{s[0]} + multiset(r)
    ensures multiset(s) == multiset{s[0]} + multiset(s[1..])
  {
    assert s == [s[0]] + s[1..];
  }

  lemma InMerge<T>(a: seq<T>, b: seq<T>, le: (T, T) -> bool, x: T)
    ensures x in Merge(a, b, le) <==> x in a || x in b
  {
    MergeItems(a, b, le);
    assert x in multiset(Merge(a, b, le)) <==> x in multiset(a) + multiset(b);
  }

  lemma {:induction false} MergeSorted<T>(a: seq<T>, b: seq<T>, le: (T, T) -> bool)
    requires Sorted(a, le) && Sorted(b, le) && Preorder(a + b, le)
    ensures Sorted(Merge(a, b, le), le)
    decreases |a| + |b|
  {
    if a != [] && b != [] {
      if le(a[0], b[0]) {
        PreorderLess(a + b, a[1..] + b, le);
        MergeSorted(a[1..], b, le);
        SmallestFirst(a[0], a[1..], b, le, a + b);
      } else {
        PreorderLess(a + b, a + b[1..], le);
        MergeSorted(a, b[1..], le);
        SmallestFirst(b[0], a, b[1..], le, a + b);
      }
    }
  }

  lemma PreorderLess<T>(s: seq<T>, r: seq<T>, le: (T, T) -> bool)
    requires Preorder(s, le) && forall x :: x in r ==> x in s
    ensures Preorder(r, le)
  {
  }

  /** An item that ranks below both heads goes before a merge. */
  lemma SmallestFirst<T>(x: T, a: seq<T>, b: seq<T>, le: (T, T) -> bool, all: seq<T>)
    requires Preorder(all, le) && x in all && (forall y :: y in a || y in b ==> y in all)
    requires Sorted(a, le) && Sorted(b, le) && Sorted(Merge(a, b, le), le)
    requires (a != [] ==> le(x, a[0])) && (b != [] ==> le(x, b[0]))
    ensures Sorted([x] + Merge(a, b, le), le)
  {
    var m := Merge(a, b, le);
    forall j | 0 <= j < |m| ensures le(x, m[j]) {
      InMerge(a, b, le, m[j]);
      if m[j] in a {
        var k :| 0 <= k < |a| && a[k] == m[j];
        assert k == 0 || le(a[0], a[k]);
      } else {
        var k :| 0 <= k < |b| && b[k] == m[j];
        assert k == 0 || le(b[0], b[k]);
      }
    }
  }

  lemma {:induction false} MergeAlike<T>(a: seq<T>, b: seq<T>, x: T, le: (T, T) -> bool)
    requires Sorted(a, le) && Preorder(a + b + [x], le)
    ensures Alike(Merge(a, b, le), x, le) == Alike(a, x, le) + Alike(b, x, le)
    decreases |a| + |b|
  {
    hide Preorder, Sorted;
    if a != [] && b != [] {
      Shorter(a, b, x, le);
      if le(a[0], b[0]) {
        MergeAlike(a[1..], b, x, le);
        AlikeLeft(a, b, Merge(a[1..], b, le), x, le);
      } else {
        if le(x, b[0]) && le(b[0], x) {
          BehindAlike(a, b, x, le);
        }
        MergeAlike(a, b[1..], x, le);
        AlikeRight(a, b, Merge(a, b[1..], le), x, le);
      }
    }
  }

  lemma AlikeLeft<T>(a: seq<T>, b: seq<T>, m: seq<T>, x: T, le: (T, T) -> bool)
    requires a != [] && Alike(m, x, le) == Alike(a[1..], x, le) + Alike(b, x, le)
    ensures Alike([a[0]] + m, x, le) == Alike(a, x, le) + Alike(b, x, le)
  {
    assert ([a[0]] + m)[1..] == m;
  }

  lemma AlikeRight<T>(a: seq<T>, b: seq<T>, m: seq<T>, x: T, le: (T, T) -> bool)
    requires b != [] && Alike(m, x, le) == Alike(a, x, le) + Alike(b[1..], x, le)
    requires le(x, b[0]) && le(b[0], x) ==> Alike(a, x, le) == []
    ensures Alike([b[0]] + m, x, le) == Alike(a, x, le) + Alike(b, x, le)
  {
    hide Alike;
    var p, q := Alike(a, x, le), Alike(b[1..], x, le);
    AlikeFirst(b[0], m, x, le);
    AlikeFirst(b[0], b[1..], x, le);
    assert [b[0]] + b[1..] == b;
    if le(x, b[0]) && le(b[0], x) {
      assert p + q == q && p + ([b[0]] + q) == [b[0]] + q;
    } else {
      assert [] + (p + q) == p + q && [] + q == q;
    }
  }

  lemma AlikeFirst<T>(y: T, s: seq<T>, x: T, le: (T, T) -> bool)
    ensures Alike([y] + s, x, le) == (if le(x, y) && le(y, x) then [y] else []) + Alike(s, x, le)
  {
    assert ([y] + s)[1..] == s;
  }

  lemma Shorter<T>(a: seq<T>, b: seq<T>, x: T, le: (T, T) -> bool)
    requires Sorted(a, le) && Preorder(a + b + [x], le) && a != [] && b != []
    ensures Sorted(a[1..], le) && Preorder(a[1..] + b + [x], le) && Preorder(a + b[1..] + [x], le)
  {
    PreorderLess(a + b + [x], a[1..] + b + [x], le);
    PreorderLess(a + b + [x], a + b[1..] + [x], le);
  }

  /** When the second list goes first, nothing of the first ranks with its head. */
  lemma BehindAlike<T>(a: seq<T>, b: seq<T>, x: T, le: (T, T) -> bool)
    requires a != [] && b != [] && !le(a[0], b[0]) && le(x, b[0])
    requires Sorted(a, le) && Preorder(a + b + [x], le)
    ensures Alike(a, x, le) == []
  {
    var all := a + b + [x];
    forall i | 0 <= i < |a| ensures !(le(x, a[i]) && le(a[i], x)) {
      assert a[i] in all && a[0] in all && b[0] in all && x in all;
      assert i == 0 || le(a[0], a[i]);
      assert le(a[0], a[0]);
    }
    NoneAlike(a, x, le);
  }

  // ---------- passes ----------

  /** Runs of `w` items, each of them sorted. */
  ghost predicate Runs<T>(s: seq<T>, w: nat, le: (T, T) -> bool)
    requires w > 0
    decreases |s|
  {
    s == [] || (Sorted(s[..Min(w, |s|)], le) && Runs(s[Min(w, |s|)..], w, le))
  }

  lemma {:induction false} RunsOfOne<T>(s: seq<T>, le: (T, T) -> bool)
    ensures Runs(s, 1, le)
    decreases |s|
  {
    if s != [] {
      RunsOfOne(s[1..], le);
    }
  }

  /** The first two runs, and the rest. */
  lemma {:induction false} TwoRuns<T>(s: seq<T>, w: nat, le: (T, T) -> bool)
    requires w > 0 && s != [] && Runs(s, w, le)
    ensures var m, e := Min(w, |s|), Min(2 * w, |s|);
      Sorted(s[..m], le) && Sorted(s[m..e], le) && Runs(s[e..], w, le) && s == s[..m] + s[m..e] + s[e..]
  {
    var m, e := Min(w, |s|), Min(2 * w, |s|);
    var r := s[m..];
    if r != [] {
      assert r[..Min(w, |r|)] == s[m..e] && r[Min(w, |r|)..] == s[e..];
    }
  }

  lemma {:induction false} PassRuns<T>(s: seq<T>, w: nat, le: (T, T) -> bool)
    requires w > 0 && Runs(s, w, le) && Preorder(s, le)
    ensures Runs(Pass(s, w, le), 2 * w, le) && Stable(s, Pass(s, w, le), le)
    decreases |s|
  {
    hide Runs, Stable, Preorder, Sorted, Merge;
    if s == [] {
      NoRuns(w, le);
    } else {
      var m, e := Min(w, |s|), Min(2 * w, |s|);
      var a, b, c := s[..m], s[m..e], s[e..];
      TwoRuns(s, w, le);
      PreorderLess(s, c, le);
      PassRuns(c, w, le);
      PassJoin(s, w, le, a, b, c, Pass(c, w, le));
    }
  }

  lemma NoRuns<T>(w: nat, le: (T, T) -> bool)
    requires w > 0
    ensures Runs<T>([], 2 * w, le) && Stable<T>([], [], le)
  {
  }

  /** Two merged runs in front of the others. */
  lemma PassJoin<T>(s: seq<T>, w: nat, le: (T, T) -> bool, a: seq<T>, b: seq<T>, c: seq<T>, t: seq<T>)
    requires w > 0 && s != [] && Preorder(s, le) && s == a + b + c && Sorted(a, le) && Sorted(b, le)
    requires |a| + |b| == Min(2 * w, |s|) && Runs(t, 2 * w, le) && Stable(c, t, le)
    ensures Runs(Merge(a, b, le) + t, 2 * w, le) && Stable(s, Merge(a, b, le) + t, le)
  {
    var h, e := Merge(a, b, le), Min(2 * w, |s|);
    PreorderLess(s, a + b, le);
    MergeSorted(a, b, le);
    assert |h| == e && (h + t)[..e] == h && (h + t)[e..] == t;
    PassStable(s, a, b, c, h, t, le);
  }

  lemma PassStable<T>(s: seq<T>, a: seq<T>, b: seq<T>, c: seq<T>, h: seq<T>, t: seq<T>, le: (T, T) -> bool)
    requires s == a + b + c && Preorder(s, le) && Sorted(a, le)
    requires h == Merge(a, b, le) && multiset(t) == multiset(c) && Stable(c, t, le)
    ensures Stable(s, h + t, le)
  {
    MergeItems(a, b, le);
    forall x | x in s ensures Alike(h + t, x, le) == Alike(s, x, le) {
      PreorderLess(s, a + b + [x], le);
      MergeAlike(a, b, x, le);
      AlikeMore(h, t, x, le);
      AlikeMore(a + b, c, x, le);
      AlikeMore(a, b, x, le);
      RestAlike(c, t, x, le, s);
    }
  }

  /** Also for items that are not in the list. */
  lemma RestAlike<T>(c: seq<T>, t: seq<T>, x: T, le: (T, T) -> bool, s: seq<T>)
    requires Stable(c, t, le) && Preorder(s, le) && x in s && forall y :: y in c ==> y in s
    ensures Alike(t, x, le) == Alike(c, x, le)
  {
    if y :| y in c && le(x, y) && le(y, x) {
      SameRank(c, x, y, le, s);
      forall z | z in t ensures z in s { assert z in multiset(t); }
      SameRank(t, x, y, le, s);
    } else {
      NoneAlike(c, x, le);
      forall i | 0 <= i < |t| ensures !(le(x, t[i]) && le(t[i], x)) {
        assert t[i] in multiset(t);
        assert t[i] in c;
      }
      NoneAlike(t, x, le);
    }
  }

  lemma {:induction false} SameRank<T>(c: seq<T>, x: T, y: T, le: (T, T) -> bool, s: seq<T>)
    requires Preorder(s, le) && x in s && y in s && le(x, y) && le(y, x) && forall z :: z in c ==> z in s
    ensures Alike(c, x, le) == Alike(c, y, le)
    decreases |c|
  {
    if c != [] {
      SameRank(c[1..], x, y, le, s);
      assert c[0] in s;
    }
  }

  lemma StableThen<T>(s: seq<T>, r: seq<T>, t: seq<T>, le: (T, T) -> bool)
    requires Stable(s, r, le) && Stable(r, t, le)
    ensures Stable(s, t, le)
  {
    forall x | x in s ensures Alike(t, x, le) == Alike(s, x, le) {
      assert x in multiset(s);
      assert x in multiset(r);
    }
  }

  /** From any runs that are sorted: a sorted list of the same items, stable. */
  lemma {:induction false} SortsFrom<T>(s: seq<T>, w: nat, le: (T, T) -> bool)
    requires w > 0 && Runs(s, w, le) && Preorder(s, le)
    ensures Sorted(SortFrom(s, w, le), le) && Stable(s, SortFrom(s, w, le), le)
    decreases |s| - w
  {
    var r := Pass(s, w, le);
    PassRuns(s, w, le);
    if |s| <= 2 * w {
      assert r == [] || r[..Min(2 * w, |r|)] == r;
    } else {
      forall x | x in r ensures x in s { assert x in multiset(r); }
      PreorderLess(s, r, le);
      SortsFrom(r, 2 * w, le);
      StableThen(s, r, SortFrom(r, 2 * w, le), le);
    }
  }

  /** For every total preorder and every list. */
  lemma Sorts<T>(s: seq<T>, le: (T, T) -> bool)
    requires Preorder(s, le)
    ensures Sorted(SortFrom(s, 1, le), le) && Stable(s, SortFrom(s, 1, le), le)
  {
    RunsOfOne(s, le);
    SortsFrom(s, 1, le);
  }

  /** The same items, whatever `le` is. */
  lemma {:induction false} PassItems<T>(s: seq<T>, w: nat, le: (T, T) -> bool)
    requires w > 0
    ensures multiset(Pass(s, w, le)) == multiset(s)
    decreases |s|
  {
    hide Merge;
    if s != [] {
      var m, e := Min(w, |s|), Min(2 * w, |s|);
      var h, t := Merge(s[..m], s[m..e], le), Pass(s[e..], w, le);
      assert Pass(s, w, le) == h + t;
      MergeItems(s[..m], s[m..e], le);
      PassItems(s[e..], w, le);
      assert multiset(h + t) == multiset(h) + multiset(t);
      ThreeParts(s, m, e);
    }
  }

  lemma ThreeParts<T>(s: seq<T>, m: nat, e: nat)
    requires m <= e <= |s|
    ensures multiset(s) == multiset(s[..m]) + multiset(s[m..e]) + multiset(s[e..])
  {
    assert s == s[..m] + s[m..e] + s[e..];
  }

  lemma {:induction false} SortItems<T>(s: seq<T>, w: nat, le: (T, T) -> bool)
    requires w > 0
    ensures multiset(SortFrom(s, w, le)) == multiset(s)
    decreases |s| - w
  {
    PassItems(s, w, le);
    if |s| > 2 * w {
      SortItems(Pass(s, w, le), 2 * w, le);
    }
  }

  lemma SortsNothing<T>(le: (T, T) -> bool)
    ensures SortFrom([], 1, le) == []
  {
  }

  lemma SameItems<T>(s: seq<T>, r: seq<T>)
    requires multiset(r) == multiset(s)
    ensures (forall x :: x in r ==> x in s) && forall x :: x in s ==> x in r
  {
    forall x | x in r ensures x in s { assert x in multiset(r); }
    forall x | x in s ensures x in r { assert x in multiset(s); }
  }

  // ---------- on the links ----------

  /** Each item of `s` links to the next one. */
  ghost predicate Forward(s: seq<Handle>)
    reads s`next
  {
    forall i, j :: 0 <= i < j < |s| && j == i + 1 ==> s[i].next == s[j]
  }

  ghost predicate Backward(s: seq<Handle>)
    reads s`prev
  {
    && (s != [] ==> s[0].prev == null)
    && forall i, j :: 0 <= i < j < |s| && j == i + 1 ==> s[j].prev == s[i]
  }

  function First(s: seq<Handle>): Handle? { if s == [] then null else s[0] }
  function Last(s: seq<Handle>): Handle? { if s == [] then null else s[|s| - 1] }

  /** The rest of a list, up to its end. */
  ghost predicate Ending(s: seq<Handle>)
    reads s`next
  {
    Forward(s) && (s != [] ==> s[|s| - 1].next == null)
  }

  /** Items that are merged already. */
  ghost predicate Done(s: seq<Handle>)
    reads s`next, s`prev
  {
    Forward(s) && Backward(s)
  }

  /** One more item behind those that are done. Only links of the last one and of the
      new one are written. */
  method Attach(list: Handle?, tail: Handle?, e: Handle, ghost done: seq<Handle>) returns (first: Handle)
    requires Done(done) && list == First(done) && tail == Last(done) && e !in done && Distinct(done)
    modifies (if tail == null then {} else {tail})`next, e`prev
    ensures Done(done + [e]) && first == First(done + [e])
    ensures tail != null ==> tail.next == e
  {
    if tail != null {
      tail.next := e;
      first := list;
    } else {
      first := e;
    }
    e.prev := tail;
    ghost var r := done + [e];
    forall i, j | 0 <= i < j < |r| && j == i + 1 ensures r[i].next == r[j] && r[j].prev == r[i] {
      if j < |done| {
        assert done[i].next == done[j] && done[i] != done[|done| - 1];
      }
    }
  }

  /** What is done, the two runs, and the rest are apart. */
  ghost predicate Apart(done: seq<Handle>, a: seq<Handle>, rest: seq<Handle>) {
    Distinct(done + (a + rest))
  }

  lemma ApartItems(done: seq<Handle>, a: seq<Handle>, rest: seq<Handle>)
    requires Apart(done, a, rest)
    ensures forall h :: h in done ==> h !in a && h !in rest
    ensures forall h :: h in a ==> h !in rest
    ensures Distinct(done) && Distinct(a) && Distinct(rest)
  {
    var all := done + (a + rest);
    assert forall i :: 0 <= i < |done| ==> all[i] == done[i];
    assert forall i :: 0 <= i < |a| ==> all[|done| + i] == a[i];
    assert forall i :: 0 <= i < |rest| ==> all[|done| + |a| + i] == rest[i];
  }

  lemma ApartLeft(done: seq<Handle>, a: seq<Handle>, rest: seq<Handle>)
    requires Apart(done, a, rest) && a != []
    ensures Apart(done + [a[0]], a[1..], rest)
  {
    assert (done + [a[0]]) + (a[1..] + rest) == done + (a + rest);
  }

  lemma ApartRight(done: seq<Handle>, a: seq<Handle>, rest: seq<Handle>)
    requires Apart(done, a, rest) && rest != []
    ensures Apart(done + [rest[0]], a, rest[1..])
  {
    var was, now := done + (a + rest), (done + [rest[0]]) + (a + rest[1..]);
    forall i, j | 0 <= i < j < |now| ensures now[i] != now[j] {
      assert now[i] == was[Before(i, |done|, |a|)] && now[j] == was[Before(j, |done|, |a|)];
    }
  }

  /** Where the item at `i` was before the one behind `a` came to stand behind `done`. */
  function Before(i: nat, done: nat, a: nat): nat {
    if i < done then i else if i == done then done + a else if i <= done + a then i - 1 else i
  }

  /** Which run the next item comes from. */
  predicate FromLeft(a: seq<Handle>, b: seq<Handle>, le: (Handle, Handle) -> bool)
  {
    a != [] && (b == [] || le(a[0], b[0]))
  }

  lemma MergeStep(done: seq<Handle>, a: seq<Handle>, b: seq<Handle>, le: (Handle, Handle) -> bool)
    requires a != [] || b != []
    ensures done + Merge(a, b, le) ==
      if FromLeft(a, b, le) then (done + [a[0]]) + Merge(a[1..], b, le) else (done + [b[0]]) + Merge(a, b[1..], le)
  {
    if a == [] {
      assert b == [b[0]] + b[1..];
      Behind(done, b[0], b[1..]);
    } else if b == [] {
      assert a == [a[0]] + a[1..];
      Behind(done, a[0], a[1..]);
    } else {
      Behind(done, a[0], Merge(a[1..], b, le));
      Behind(done, b[0], Merge(a, b[1..], le));
    }
  }

  lemma Behind<T>(s: seq<T>, x: T, m: seq<T>)
    ensures s + ([x] + m) == (s + [x]) + m
  {
  }

  /** Takes the item of the left run. */
  method TakeLeft(list: Handle?, tail: Handle?, e: Handle, ghost done: seq<Handle>, ghost a: seq<Handle>, ghost rest: seq<Handle>)
    returns (first: Handle, next: Handle?)
    requires Apart(done, a, rest) && Done(done) && Forward(a) && Ending(rest)
    requires list == First(done) && tail == Last(done) && a != [] && e == a[0]
    modifies (if tail == null then {} else {tail})`next, e`prev
    ensures Apart(done + [e], a[1..], rest) && Done(done + [e]) && Forward(a[1..]) && Ending(rest)
    ensures first == First(done + [e]) && (|a| > 1 ==> next == a[1])
  {
    ApartItems(done, a, rest);
    ApartLeft(done, a, rest);
    assert tail != null ==> tail in done && tail !in a && tail !in rest;
    assert Forward(a[1..]);
    next := e.next;
    first := Attach(list, tail, e, done);
  }

  /** Takes the first item after the left run. */
  method TakeRight(list: Handle?, tail: Handle?, e: Handle, ghost done: seq<Handle>, ghost a: seq<Handle>, ghost rest: seq<Handle>)
    returns (first: Handle, next: Handle?)
    requires Apart(done, a, rest) && Done(done) && Forward(a) && Ending(rest)
    requires list == First(done) && tail == Last(done) && rest != [] && e == rest[0]
    modifies (if tail == null then {} else {tail})`next, e`prev
    ensures Apart(done + [e], a, rest[1..]) && Done(done + [e]) && Forward(a) && Ending(rest[1..])
    ensures first == First(done + [e]) && next == First(rest[1..])
  {
    ApartItems(done, a, rest);
    ApartRight(done, a, rest);
    assert tail != null ==> tail in done && tail !in a && tail !in rest;
    assert Ending(rest[1..]);
    next := e.next;
    first := Attach(list, tail, e, done);
  }

  /** One round of the inner loop: merges the runs `a` and `b`, behind which comes `rest`,
      and gives the new end of what is done and the item after the two runs. */
  method MergeRuns(list: Handle?, tail: Handle?, p: Handle, q: Handle?, psize: nat, qsize: nat, le: (Handle, Handle) -> bool,
                   ghost done: seq<Handle>, ghost a: seq<Handle>, ghost b: seq<Handle>, ghost rest: seq<Handle>)
    returns (first: Handle?, last: Handle?, after: Handle?)
    requires Apart(done, a, b + rest) && Done(done) && Forward(a) && Ending(b + rest)
    requires list == First(done) && tail == Last(done) && a != [] && p == a[0] && q == First(b + rest)
    requires psize == |a| && |b| <= qsize && (|b| < qsize ==> rest == [])
    modifies (set x | x in done + (a + b))`next, (set x | x in a + b)`prev
    ensures Apart(done + Merge(a, b, le), [], rest) && Done(done + Merge(a, b, le)) && Ending(rest) && after == First(rest)
    ensures first == First(done + Merge(a, b, le)) && last == Last(done + Merge(a, b, le))
  {
    hide Apart, Done, Forward, Ending, Merge;
    first, last := list, tail;
    var l: Handle?, r := p, q;
    var lsize, rsize := psize, qsize;
    ghost var out, u, v := done, a, b;
    while lsize > 0 || (rsize > 0 && r != null)
      invariant Apart(out, u, v + rest) && Done(out) && Forward(u) && Ending(v + rest)
      invariant first == First(out) && last == Last(out) && (u != [] ==> l == u[0]) && r == First(v + rest)
      invariant lsize == |u| && |v| <= rsize && (|v| < rsize ==> rest == [])
      invariant done + Merge(a, b, le) == out + Merge(u, v, le)
      invariant forall h :: h in out ==> h in done + (a + b)
      invariant forall h :: h in u || h in v ==> h in a + b
      decreases |u| + |v|
    {
      MergeStep(out, u, v, le);
      if lsize == 0 || (rsize > 0 && r != null && !le(l, r)) {
        assert v != [] && (v + rest)[1..] == v[1..] + rest;
        ghost var e: Handle := v[0];
        var next;
        first, next := TakeRight(first, last, r, out, u, v + rest);
        last := r;
        r := next;
        rsize := rsize - 1;
        out, v := out + [e], v[1..];
      } else {
        ghost var e := u[0];
        var next;
        first, next := TakeLeft(first, last, l, out, u, v + rest);
        last := l;
        l := next;
        lsize := lsize - 1;
        out, u := out + [e], u[1..];
      }
    }
    after := r;
    assert u == [] && v == [] && v + rest == rest;
    MergeNothing<Handle>(le);
    assert out + [] == out;
  }

  lemma MergeNothing<T>(le: (T, T) -> bool)
    ensures Merge([], [], le) == []
  {
  }

  /** Steps over at most `w` items. */
  method StepOver(p: Handle, w: nat, ghost s: seq<Handle>) returns (q: Handle?, size: nat)
    requires Ending(s) && s != [] && p == s[0]
    ensures size == Min(w, |s|) && q == First(s[size..])
  {
    q, size := p, 0;
    for i := 0 to w
      invariant size == i && i < |s| && q == s[i]
    {
      assert i < |s| - 1 ==> q.next == s[i + 1];
      size := size + 1;
      q := q.next;
      if q == null {
        assert size == |s| && s[size..] == [];
        break;
      }
    }
  }

  lemma PassMore(done: seq<Handle>, s: seq<Handle>, w: nat, le: (Handle, Handle) -> bool)
    requires w > 0 && s != []
    ensures var m, e := Min(w, |s|), Min(2 * w, |s|);
      done + Pass(s, w, le) == (done + Merge(s[..m], s[m..e], le)) + Pass(s[e..], w, le)
  {
    var m, e := Min(w, |s|), Min(2 * w, |s|);
    var h, t := Merge(s[..m], s[m..e], le), Pass(s[e..], w, le);
    assert done + (h + t) == (done + h) + t;
  }

  /** The two runs at the front of a list, and what is behind them. */
  lemma FrontRuns(done: seq<Handle>, s: seq<Handle>, w: nat)
    requires w > 0 && s != [] && Apart(done, [], s) && Ending(s)
    ensures var m, e := Min(w, |s|), Min(2 * w, |s|);
      && Apart(done, s[..m], s[m..e] + s[e..]) && Forward(s[..m]) && Ending(s[m..e] + s[e..])
      && s[m..e] + s[e..] == s[m..] && |s[m..e]| <= w && (|s[m..e]| < w ==> s[e..] == [])
      && forall h :: h in s[..m] + s[m..e] ==> h in s
  {
    var m, e := Min(w, |s|), Min(2 * w, |s|);
    assert s[m..e] + s[e..] == s[m..];
    assert [] + s == s[..m] + s[m..];
  }

  /** What the front of a list becomes. */
  function Front(s: seq<Handle>, w: nat, le: (Handle, Handle) -> bool): (r: seq<Handle>)
    ensures |r| == Min(2 * w, |s|)
  {
    var m, e := Min(w, |s|), Min(2 * w, |s|);
    Merge(s[..m], s[m..e], le)
  }

  /** Merges the two runs at `p`. */
  method MergeFront(list: Handle?, tail: Handle?, p: Handle, w: nat, le: (Handle, Handle) -> bool,
                    ghost done: seq<Handle>, ghost s: seq<Handle>, ghost all: set<Handle>)
    returns (first: Handle?, last: Handle?, after: Handle?)
    requires w > 0 && s != [] && Apart(done, [], s) && Done(done) && Ending(s) && p == s[0]
    requires list == First(done) && tail == Last(done)
    requires (forall h :: h in done ==> h in all) && forall h :: h in s ==> h in all
    modifies all`next, all`prev
    ensures var r, rest := done + Front(s, w, le), s[Min(2 * w, |s|)..];
      && Apart(r, [], rest) && Done(r) && Ending(rest) && after == First(rest) && first == First(r) && last == Last(r)
      && r + Pass(rest, w, le) == done + Pass(s, w, le)
    ensures forall h :: h in Front(s, w, le) ==> h in all
  {
    hide Apart, Done, Forward, Merge, Pass;
    ghost var m, e := Min(w, |s|), Min(2 * w, |s|);
    FrontRuns(done, s, w);
    PassMore(done, s, w, le);
    MergeSubset(s[..m], s[m..e], le, s);
    var q, psize := StepOver(p, w, s);
    first, last, after := MergeRuns(list, tail, p, q, psize, w, le, done, s[..m], s[m..e], s[e..]);
  }

  /** All rounds of a pass. */
  method MergeRounds(list: Handle, w: nat, le: (Handle, Handle) -> bool, ghost s: seq<Handle>, ghost all: set<Handle>)
    returns (first: Handle?, last: Handle?, merges: nat)
    requires w > 0 && s != [] && Distinct(s) && Ending(s) && list == s[0] && all == set x | x in s
    modifies all`next, all`prev
    ensures var r := Pass(s, w, le);
      Distinct(r) && Done(r) && first == First(r) && last == Last(r) && forall h :: h in r ==> h in all
    ensures merges <= 1 <==> |s| <= 2 * w
  {
    hide Pass, Front, Done, Ending;
    var p: Handle? := list;
    ghost var out: seq<Handle>, rest := [], s;
    first, last, merges := null, null, 0;
    BeginPass(s, w, le);
    while p != null
      invariant Apart(out, [], rest) && Done(out) && Ending(rest) && p == First(rest)
      invariant first == First(out) && last == Last(out) && out + Pass(rest, w, le) == Pass(s, w, le)
      invariant |out| + |rest| == |s| && if merges == 0 then out == [] else if merges == 1 then |out| == Min(2 * w, |s|) else |out| > 2 * w
      invariant (forall h :: h in out ==> h in all) && forall h :: h in rest ==> h in all
      decreases |rest|
    {
      merges := merges + 1;
      first, last, p := MergeFront(first, last, p, w, le, out, rest, all);
      out, rest := out + Front(rest, w, le), rest[Min(2 * w, |rest|)..];
    }
    EndPass(out, w, le);
  }

  /** One pass over the whole list. */
  method MergePass(list: Handle, w: nat, le: (Handle, Handle) -> bool, ghost s: seq<Handle>, ghost all: set<Handle>)
    returns (first: Handle, last: Handle, merges: nat)
    requires w > 0 && s != [] && Distinct(s) && Ending(s) && list == s[0] && all == set x | x in s
    modifies all`next, all`prev
    ensures var r := Pass(s, w, le);
      && Distinct(r) && Done(r) && Ending(r) && first == r[0] && last == r[|r| - 1] && forall h :: h in r ==> h in all
    ensures merges <= 1 <==> |s| <= 2 * w
  {
    hide Pass;
    var head, tail;
    head, tail, merges := MergeRounds(list, w, le, s, all);
    ghost var r := Pass(s, w, le);
    assert r[|r| - 1] in r;
    first, last := head, tail;
    CloseEnd(last, r);
  }

  lemma BeginPass(s: seq<Handle>, w: nat, le: (Handle, Handle) -> bool)
    requires w > 0 && Distinct(s)
    ensures Apart([], [], s) && Done([]) && [] + Pass(s, w, le) == Pass(s, w, le)
  {
    assert [] + ([] + s) == s;
  }

  lemma EndPass(out: seq<Handle>, w: nat, le: (Handle, Handle) -> bool)
    requires w > 0 && Apart(out, [], [])
    ensures Distinct(out) && out + Pass([], w, le) == out
  {
    assert out + ([] + []) == out && out + [] == out;
  }

  lemma MergeSubset(a: seq<Handle>, b: seq<Handle>, le: (Handle, Handle) -> bool, s: seq<Handle>)
    requires forall h :: h in a + b ==> h in s
    ensures forall h :: h in Merge(a, b, le) ==> h in s
  {
    forall h | h in Merge(a, b, le) ensures h in s {
      InMerge(a, b, le, h);
      assert h in a + b;
    }
  }

  /** The last item links to nothing any more. */
  method CloseEnd(last: Handle, ghost s: seq<Handle>)
    requires s != [] && last == s[|s| - 1] && Distinct(s) && Done(s)
    modifies last`next
    ensures Done(s) && Ending(s)
  {
    last.next := null;
  }
}
