/** Nested scopes, each a hash table from names to objects. */
module Scopes {
  import opened Wrappers
  import opened Buckets
  import opened HashTables

  // ---------- the specification: a stack of maps, innermost first ----------

  type Stack = seq<map<string, int>>

  /** A name that is in the innermost scope keeps its object. */
  function Inserted(s: Stack, name: string, obj: int): (r: (Stack, bool))
    requires s != []
  {
    if name in s[0] then (s, false) else ([s[0][name := obj]] + s[1..], true)
  }

  /** The object of the innermost scope that has the name. */
  function Found(s: Stack, name: string): Option<int> {
    if s == [] then None
    else if name in s[0] then Some(s[0][name])
    else Found(s[1..], name)
  }

  /** The object is the one that the name has in the innermost scope that has the name. */
  lemma {:induction false} FoundExactly(s: Stack, name: string, obj: int)
    ensures Found(s, name) == Some(obj) <==>
      exists i :: 0 <= i < |s| && name in s[i] && s[i][name] == obj && forall j :: 0 <= j < i ==> name !in s[j]
    decreases |s|
  {
    if s != [] {
      FoundExactly(s[1..], name, obj);
      if name !in s[0] {
        if Found(s, name) == Some(obj) {
          var i :| 0 <= i < |s[1..]| && name in s[1..][i] && s[1..][i][name] == obj && forall j :: 0 <= j < i ==> name !in s[1..][j];
          assert name in s[i + 1] && s[i + 1][name] == obj;
          forall j | 0 <= j < i + 1 ensures name !in s[j] {
            if j > 0 { assert name !in s[1..][j - 1]; }
          }
        }
        if i :| 0 <= i < |s| && name in s[i] && s[i][name] == obj && forall j :: 0 <= j < i ==> name !in s[j] {
          assert i > 0 && s[1..][i - 1] == s[i];
          forall j | 0 <= j < i - 1 ensures name !in s[1..][j] { assert s[1..][j] == s[j + 1]; }
        }
      }
    }
  }

  /** A name is not found exactly when no scope has it. */
  lemma {:induction false} NotFound(s: Stack, name: string)
    ensures Found(s, name) == None <==> forall i :: 0 <= i < |s| ==> name !in s[i]
    decreases |s|
  {
    if s != [] {
      NotFound(s[1..], name);
      assert forall i :: 0 < i < |s| ==> s[i] == s[1..][i - 1];
    }
  }

  datatype Op = Enter | Insert(name: string, obj: int) | Exit

  function Step(s: Stack, op: Op): Stack
    requires s != [] || op.Enter?
  {
    match op
    case Enter => [map[]] + s
    case Insert(name, obj) => Inserted(s, name, obj).0
    case Exit => s[1..]
  }

  /** A name declared in a new scope is found there, whatever it means outside; other names
      are found as before. */
  lemma Shadows(s: Stack, name: string, obj: int, other: string)
    ensures Found(Step(Step(s, Enter), Insert(name, obj)), name) == Some(obj)
    ensures other != name ==> Found(Step(Step(s, Enter), Insert(name, obj)), other) == Found(s, other)
    ensures Step(Step(Step(s, Enter), Insert(name, obj)), Exit) == s
  {
    var t := Step(Step(s, Enter), Insert(name, obj));
    assert t[1..] == s;
  }

  /** How many of the scopes it entered a run is in, after one more call. */
  function Depth(op: Op, depth: nat): int {
    match op
    case Enter => depth + 1
    case Insert(_, _) => depth
    case Exit => depth - 1
  }

  /** The run leaves each scope it enters, and no other. */
  predicate Balanced(ops: seq<Op>, depth: nat)
    decreases |ops|
  {
    if ops == [] then depth == 0
    else Depth(ops[0], depth) >= 0 && Balanced(ops[1..], Depth(ops[0], depth))
  }

  function Run(s: Stack, ops: seq<Op>, depth: nat): Stack
    requires |s| > depth && Balanced(ops, depth)
    decreases |ops|
  {
    if ops == [] then s else Run(Step(s, ops[0]), ops[1..], Depth(ops[0], depth))
  }

  /** All bindings of `a` are in `b`, with the same objects. */
  predicate Extends(a: map<string, int>, b: map<string, int>) {
    forall k :: k in a ==> k in b && b[k] == a[k]
  }

  lemma StepKeeps(s: Stack, op: Op, depth: nat)
    requires |s| > depth && Depth(op, depth) >= 0
    ensures var d, t := Depth(op, depth), Step(s, op);
      |t| > d && |t| - d == |s| - depth && t[d + 1..] == s[depth + 1..] && Extends(s[depth], t[d])
  {
    var d, t := Depth(op, depth), Step(s, op);
    match op
    case Enter =>
      assert forall i :: 0 <= i < |s| ==> t[i + 1] == s[i];
    case Insert(name, obj) =>
      assert forall i :: 0 < i < |s| ==> t[i] == s[i];
      assert Extends(s[0], t[0]);
    case Exit =>
      assert forall i :: 0 <= i < |t| ==> t[i] == s[i + 1];
  }

  /** A balanced run leaves the scopes outside as they were, and only adds to the scope
      it starts in. */
  lemma {:induction false} RunKeeps(s: Stack, ops: seq<Op>, depth: nat)
    requires |s| > depth && Balanced(ops, depth)
    ensures var r := Run(s, ops, depth); |r| == |s| - depth && r[1..] == s[depth + 1..] && Extends(s[depth], r[0])
    decreases |ops|
  {
    if ops != [] {
      StepKeeps(s, ops[0], depth);
      RunKeeps(Step(s, ops[0]), ops[1..], Depth(ops[0], depth));
    }
  }

  /** Entering a scope, any balanced run in it, and leaving it again: every name is
      found as before. */
  lemma BlockKeeps(s: Stack, ops: seq<Op>, name: string)
    requires s != [] && Balanced(ops, 0)
    ensures var inner := Run(Step(s, Enter), ops, 0);
      inner != [] && Step(inner, Exit) == s &&
      (name !in inner[0] ==> Found(inner, name) == Found(s, name))
  {
    var e := Step(s, Enter);
    RunKeeps(e, ops, 0);
    assert e[1..] == s;
  }

  // ---------- the scopes ----------

  /** What the items of a table bind. */
  ghost function Bindings(items: seq<Handle>): map<string, int>
    reads items`key
  {
    if items == [] then map[]
    else
      var last := items[|items| - 1];
      Bindings(items[..|items| - 1])[last.key := last.value]
  }

  lemma {:induction false} BindingsOf(items: seq<Handle>)
    requires forall i, j :: 0 <= i < j < |items| ==> items[i].key != items[j].key
    ensures forall i :: 0 <= i < |items| ==> items[i].key in Bindings(items) && Bindings(items)[items[i].key] == items[i].value
    ensures forall k :: k in Bindings(items) ==> exists i :: 0 <= i < |items| && items[i].key == k
  {
    if items != [] {
      var rest := items[..|items| - 1];
      BindingsOf(rest);
      forall i | 0 <= i < |items| ensures items[i].key in Bindings(items) && Bindings(items)[items[i].key] == items[i].value {
        if i < |items| - 1 { assert rest[i] == items[i]; }
      }
      forall k | k in Bindings(items) ensures exists i :: 0 <= i < |items| && items[i].key == k {
        if k != items[|items| - 1].key {
          assert k in Bindings(rest);
          var i :| 0 <= i < |rest| && rest[i].key == k;
          assert items[i].key == k;
        }
      }
    }
  }

  class Scope {
    const outer: Scope?
    const table: HashTable
    /** The scope, its table, and the table's items and buckets. */
    ghost var repr: set<object>

    ghost predicate Valid()
      reads this, repr
    {
      && this in repr && table in repr
      && (forall i :: 0 <= i < |table.items| ==> table.items[i] in repr)
      && (forall i :: 0 <= i < |table.buckets| ==> table.buckets[i] in repr)
      && table.Valid()
    }

    ghost function Map(): map<string, int>
      reads this, repr
      requires Valid()
    {
      Bindings(table.items)
    }

    constructor (outer: Scope?, hash: string -> nat)
      ensures this.outer == outer && Valid() && fresh(repr) && Map() == map[]
    {
      this.outer := outer;
      table := new HashTable(hash);
      new;
      repr := {this, table};
    }

    /** The object bound to the name in this scope. */
    method Look(name: string) returns (r: Option<int>)
      requires Valid()
      ensures r == if name in Map() then Some(Map()[name]) else None
    {
      var h := table.Find(name);
      BindingsOf(table.items);
      r := if h == null then None else Some(h.value);
    }

    /** A new item binds a new name. */
    method Bind(name: string, h: Handle)
      requires Valid() && name !in Map() && h !in repr
      modifies repr, h
      ensures Valid() && fresh(repr - old(repr) - {h}) && Map() == old(Map())[name := h.value]
    {
      hide HashTable.Valid, Bindings;
      ghost var buckets := table.buckets;
      BindIn(table, name, h);
      ghost var more: set<object> := {h};
      if table.buckets != buckets {
        more := more + set i | 0 <= i < |table.buckets| :: table.buckets[i];
      }
      assert fresh(more - {h});
      Cover(more);
    }

    /** A name that is bound stays as it is. */
    method Insert(name: string, obj: int) returns (done: bool)
      requires Valid()
      modifies repr
      ensures Valid() && fresh(repr - old(repr)) && done == (name !in old(Map()))
      ensures Map() == if done then old(Map())[name := obj] else old(Map())
    {
      ghost var m, valid := Map(), Valid();
      var found := Look(name);
      assert Valid() == valid && Map() == m;
      if found.Some? {
        return false;
      }
      var h := new Handle(obj);
      assert Valid() == valid && Map() == m;
      Bind(name, h);
      return true;
    }

    /** Free the objects of the scope, each of them once. */
    method Free() returns (ghost freed: seq<Handle>)
      requires Valid()
      modifies repr
      ensures freed == old(table.items) && table.items == []
    {
      assert forall h :: h in Expansion.Elems(table.items) ==> h in repr;
      freed := table.Clear();
    }

    /** The table's new parts belong to the scope. */
    ghost method Cover(more: set<object>)
      requires this in repr && table in repr && table.Valid()
      requires forall i :: 0 <= i < |table.items| ==> table.items[i] in repr + more
      requires forall i :: 0 <= i < |table.buckets| ==> table.buckets[i] in repr + more
      modifies this`repr
      ensures Valid() && repr == old(repr) + more && Map() == old(Bindings(table.items))
    {
      ghost var m, valid := Bindings(table.items), table.Valid();
      repr := repr + more;
      assert Bindings(table.items) == m && table.Valid() == valid;
    }
  }

  /** A new item binds the name in a table that does not have it. */
  method BindIn(t: HashTable, name: string, h: Handle)
    requires t.Valid() && name !in Bindings(t.items) && h !in t.items
    modifies t, t.items, t.buckets, h
    ensures t.Valid() && t.items == old(t.items) + [h]
    ensures t.buckets == old(t.buckets) || forall i :: 0 <= i < |t.buckets| ==> fresh(t.buckets[i])
    ensures Bindings(t.items) == old(Bindings(t.items))[name := h.value]
  {
    ghost var was := t.items;
    Unbound(t, name);
    t.Add(h, name);
    BindingsSame(was);
    BindingsMore(was, h);
  }

  lemma Unbound(t: HashTable, name: string)
    requires t.Valid() && name !in Bindings(t.items)
    ensures forall g :: g in t.items ==> g.key != name
  {
    BindingsOf(t.items);
  }

  lemma BindingsMore(items: seq<Handle>, h: Handle)
    ensures Bindings(items + [h]) == Bindings(items)[h.key := h.value]
  {
    assert (items + [h])[..|items|] == items;
  }

  twostate lemma BindingsSame(items: seq<Handle>)
    requires forall i :: 0 <= i < |items| ==> items[i].key == old(items[i].key)
    ensures Bindings(items) == old(Bindings(items))
  {
    if items != [] {
      BindingsSame(items[..|items| - 1]);
    }
  }

  ghost predicate Has(repr: set<object>, s: Scope, m: map<string, int>)
    reads repr
  {
    s in repr && s.repr <= repr && s.Valid() && s.Map() == m
  }

  /** Scopes inside `repr` that share nothing, and what they bind. */
  ghost predicate Apart(repr: set<object>, scopes: seq<Scope>, contents: Stack)
    reads repr
  {
    && |contents| == |scopes|
    && (forall i :: 0 <= i < |scopes| ==> Has(repr, scopes[i], contents[i]))
    && (forall i, j :: 0 <= i < j < |scopes| ==> scopes[i].repr !! scopes[j].repr)
  }

  lemma ApartMore(repr: set<object>, s: Scope, scopes: seq<Scope>, contents: Stack)
    requires Apart(repr, scopes, contents) && s.Valid() && s.repr !! repr
    ensures Apart(repr + s.repr, [s] + scopes, [s.Map()] + contents)
  {
    var ss, cs := [s] + scopes, [s.Map()] + contents;
    forall i | 0 <= i < |ss| ensures Has(repr + s.repr, ss[i], cs[i]) {
      if i > 0 { assert Has(repr, scopes[i - 1], contents[i - 1]); }
    }
    forall i, j | 0 <= i < j < |ss| ensures ss[i].repr !! ss[j].repr {
      assert Has(repr, scopes[j - 1], contents[j - 1]);
    }
  }

  lemma ApartLess(repr: set<object>, scopes: seq<Scope>, contents: Stack)
    requires Apart(repr, scopes, contents) && scopes != []
    ensures Has(repr, scopes[0], contents[0])
    ensures Apart(repr - scopes[0].repr, scopes[1..], contents[1..])
  {
    forall i | 0 <= i < |scopes| - 1 ensures Has(repr - scopes[0].repr, scopes[1..][i], contents[1..][i]) {
      assert Has(repr, scopes[i + 1], contents[i + 1]);
    }
  }

  class ScopeStack {
    const hash: string -> nat
    /** The innermost scope. */
    var scope: Scope?
    /** The scopes from the innermost on, what they bind, and all their parts. */
    ghost var scopes: seq<Scope>
    ghost var contents: Stack
    ghost var repr: set<object>

    ghost predicate Linked()
      reads this
    {
      && (if scopes == [] then scope == null else scope == scopes[0] && scopes[|scopes| - 1].outer == null)
      && (forall i, j :: 0 <= i < j < |scopes| && j == i + 1 ==> scopes[i].outer == scopes[j])
    }

    ghost predicate Valid()
      reads this, repr
    {
      this !in repr && Linked() && Apart(repr, scopes, contents)
    }

    constructor (hash: string -> nat)
      ensures Valid() && contents == [] && fresh(repr) && this.hash == hash
    {
      this.hash := hash;
      scope, scopes, contents, repr := null, [], [], {};
    }

    method Enter()
      requires Valid()
      modifies this
      ensures Valid() && contents == Step(old(contents), Op.Enter) && fresh(repr - old(repr))
    {
      ghost var apart := Apart(repr, scopes, contents);
      var inner := new Scope(scope, hash);
      assert Apart(repr, scopes, contents) == apart;
      Put(inner);
    }

    /** A scope inside the others. */
    method Put(inner: Scope)
      requires Valid() && inner.Valid() && inner.repr !! repr + {this} && inner.outer == scope
      modifies this
      ensures Valid() && contents == [inner.Map()] + old(contents) && repr == old(repr) + inner.repr
    {
      ghost var was, ss, cs := repr, scopes, contents;
      ApartMore(was, inner, ss, cs);
      ghost var apart := Apart(was + inner.repr, [inner] + ss, [inner.Map()] + cs);
      scope, scopes, contents, repr := inner, [inner] + ss, [inner.Map()] + cs, was + inner.repr;
      assert Apart(repr, scopes, contents) == apart;
    }

    /** Bind a name in the innermost scope. */
    method Insert(name: string, obj: int) returns (done: bool)
      requires Valid() && scope != null
      modifies this, repr
      ensures Valid() && (contents, done) == Inserted(old(contents), name, obj) && fresh(repr - old(repr))
    {
      ApartLess(repr, scopes, contents);
      ghost var rest, ss, cs := repr - scope.repr, scopes[1..], contents[1..];
      ghost var apart := Apart(rest, ss, cs);
      assert contents == [contents[0]] + cs && scopes == [scope] + ss;
      done := scope.Insert(name, obj);
      assert Apart(rest, ss, cs) == apart;
      Renew(rest, ss, cs);
    }

    /** What the innermost scope binds now. */
    ghost method Renew(rest: set<object>, ss: seq<Scope>, cs: Stack)
      requires Linked() && scope != null && scopes == [scope] + ss
      requires Apart(rest, ss, cs) && scope.Valid() && scope.repr !! rest && this !in rest + scope.repr
      modifies this`repr, this`contents
      ensures Valid() && contents == [scope.Map()] + cs && repr == rest + scope.repr
    {
      ApartMore(rest, scope, ss, cs);
      ghost var apart := Apart(rest + scope.repr, [scope] + ss, [scope.Map()] + cs);
      repr, contents := rest + scope.repr, [scope.Map()] + cs;
      assert Apart(repr, scopes, contents) == apart;
    }

    /** The object that the innermost scope with this name binds it to. */
    method Find(name: string) returns (r: Option<int>)
      requires Valid()
      ensures r == Found(contents, name)
    {
      var s := scope;
      ghost var n := 0;
      while s != null
        invariant Valid() && n <= |scopes| && s == (if n < |scopes| then scopes[n] else null)
        invariant Found(contents, name) == Found(contents[n..], name)
        decreases |scopes| - n
      {
        assert Has(repr, scopes[n], contents[n]);
        r := s.Look(name);
        if r.Some? {
          return;
        }
        s := s.outer;
        n := n + 1;
      }
      r := None;
    }

    /** Leave the innermost scope, whose objects are freed. */
    method Exit() returns (ghost freed: seq<Handle>)
      requires Valid() && scope != null
      modifies this, repr
      ensures Valid() && contents == Step(old(contents), Op.Exit)
      ensures freed == old(scope.table.items)
    {
      ApartLess(repr, scopes, contents);
      ghost var rest, ss, cs := repr - scope.repr, scopes[1..], contents[1..];
      ghost var apart := Apart(rest, ss, cs);
      freed := scope.Free();
      scope := scope.outer;
      repr, scopes, contents := rest, ss, cs;
      assert Apart(rest, ss, cs) == apart;
    }
  }
}
