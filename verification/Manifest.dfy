/** rpc_manifest.go: the manifest, a tree of plugin groups, flattened into a map of dotted names. */
module Manifest {
  import opened Base

  type Method = seq<string>

  /** A decoded manifest: a string is a method's call type, an object is a plugin group. */
  datatype Node = Leaf(typ: string) | Group(kids: Tree) | Unhandled
  type Tree = map<string, Node>

  /** Where a method path leads in the tree. */
  function Lookup(tree: Tree, path: Method): Option<string>
    decreases |path|
  {
    if path == [] || path[0] !in tree then None
    else match tree[path[0]]
      case Leaf(typ) => if |path| == 1 then Some(typ) else None
      case Group(kids) => Lookup(kids, path[1..])
      case Unhandled => None
  }

  /** Every value in the tree is a string or an object. */
  predicate Clean(tree: Tree) { forall k | k in tree :: CleanNode(tree[k]) }

  predicate CleanNode(n: Node) {
    match n
    case Leaf(_) => true
    case Group(kids) => forall k | k in kids :: CleanNode(kids[k])
    case Unhandled => false
  }

  // ---- what flattening has to produce ----

  type Entry = (string, string)

  /** The names and call types of the methods below `keys` of a tree that sits at `prefix`. */
  ghost function Entries(tree: Tree, prefix: Method, keys: set<string>): iset<Entry> {
    iset path: Method, typ: string
      | path != [] && path[0] in keys && Lookup(tree, path) == Some(typ)
      :: (Join(prefix + path), typ)
  }

  ghost predicate Names(es: iset<Entry>, name: string) { exists typ :: (name, typ) in es }

  /** `m` is `before` with every entry stored; where entries share a name, one of them won. */
  ghost predicate Stored(before: map<string, string>, es: iset<Entry>, m: map<string, string>) {
    forall name: string ::
      && (name in m <==> name in before || Names(es, name))
      && (name in m ==> (name, m[name]) in es || (!Names(es, name) && m[name] == before[name]))
  }

  lemma StoredThen(a: map<string, string>, e1: iset<Entry>, b: map<string, string>, e2: iset<Entry>,
                   c: map<string, string>)
    requires Stored(a, e1, b) && Stored(b, e2, c)
    ensures Stored(a, e1 + e2, c)
  {
    forall name: string
      ensures name in c <==> name in a || Names(e1 + e2, name)
      ensures name in c ==> (name, c[name]) in e1 + e2 || (!Names(e1 + e2, name) && c[name] == a[name])
    {
      assert Names(e1, name) ==> Names(e1 + e2, name) by {
        if Names(e1, name) {
          var t :| (name, t) in e1;
          assert (name, t) in e1 + e2;
        }
      }
      assert Names(e2, name) ==> Names(e1 + e2, name) by {
        if Names(e2, name) {
          var t :| (name, t) in e2;
          assert (name, t) in e1 + e2;
        }
      }
    }
  }

  lemma StoredNothing(m: map<string, string>)
    ensures Stored(m, iset{}, m)
  {
  }

  lemma StoredOne(m: map<string, string>, name: string, typ: string)
    ensures Stored(m, iset{(name, typ)}, m[name := typ])
  {
    assert (name, typ) in iset{(name, typ)};
  }

  // ---- entries, key by key ----

  lemma EntriesNone(tree: Tree, prefix: Method)
    ensures Entries(tree, prefix, {}) == iset{}
  {
  }

  lemma EntriesSplit(tree: Tree, prefix: Method, done: set<string>, k: string)
    ensures Entries(tree, prefix, done + {k}) == Entries(tree, prefix, done) + Entries(tree, prefix, {k})
  {
  }

  lemma EntriesLeaf(tree: Tree, prefix: Method, k: string)
    requires k in tree && tree[k].Leaf?
    ensures Entries(tree, prefix, {k}) == iset{(Join(prefix + [k]), tree[k].typ)}
  {
    assert Lookup(tree, [k]) == Some(tree[k].typ);
    forall path: Method, typ | path != [] && path[0] in {k} && Lookup(tree, path) == Some(typ)
      ensures path == [k] && typ == tree[k].typ
    {
    }
  }

  lemma EntriesGroup(tree: Tree, prefix: Method, k: string)
    requires k in tree && tree[k].Group?
    ensures Entries(tree, prefix, {k}) == Entries(tree[k].kids, prefix + [k], tree[k].kids.Keys)
  {
    var kids := tree[k].kids;
    var inner := Entries(kids, prefix + [k], kids.Keys);
    forall e | e in Entries(tree, prefix, {k})
      ensures e in inner
    {
      var path: Method, typ
        :| path != [] && path[0] in {k} && Lookup(tree, path) == Some(typ) && e == (Join(prefix + path), typ);
      assert Lookup(kids, path[1..]) == Some(typ);
      assert prefix + path == prefix + [k] + path[1..];
    }
    forall e | e in inner
      ensures e in Entries(tree, prefix, {k})
    {
      var path: Method, typ
        :| path != [] && path[0] in kids.Keys && Lookup(kids, path) == Some(typ)
           && e == (Join(prefix + [k] + path), typ);
      assert ([k] + path)[1..] == path;
      assert Lookup(tree, [k] + path) == Some(typ);
      assert prefix + ([k] + path) == prefix + [k] + path;
    }
  }

  // ---- the order in which Go visits the keys ----

  /** One key of a tree and, if it is a group, the order for the group below it. */
  datatype Visit = Visit(key: string, below: seq<Visit>)

  /** The map after visiting these keys of a tree at `prefix`. */
  function Fill(tree: Tree, prefix: Method, order: seq<Visit>, before: map<string, string>): map<string, string>
    decreases Group(tree), |order|
  {
    if order == [] then before
    else
      var v := order[|order| - 1];
      var m := Fill(tree, prefix, order[..|order| - 1], before);
      if v.key !in tree then m
      else match tree[v.key]
        case Leaf(typ) => m[Join(prefix + [v.key]) := typ]
        case Group(kids) => Fill(kids, prefix + [v.key], v.below, m)
        case Unhandled => m
  }

  lemma FillNothing(tree: Tree, prefix: Method, before: map<string, string>)
    ensures Fill(tree, prefix, [], before) == before
  {
  }

  lemma FillSnoc(tree: Tree, prefix: Method, order: seq<Visit>, v: Visit, before: map<string, string>)
    requires v.key in tree
    ensures var m, n := Fill(tree, prefix, order, before), tree[v.key];
            Fill(tree, prefix, order + [v], before) ==
            if n.Leaf? then m[Join(prefix + [v.key]) := n.typ]
            else if n.Group? then Fill(n.kids, prefix + [v.key], v.below, m)
            else m
  {
    assert (order + [v])[..|order|] == order;
  }

  function Visited(order: seq<Visit>): set<string> { set v | v in order :: v.key }

  predicate Distinct(order: seq<Visit>) { forall i, j | 0 <= i < j < |order| :: order[i].key != order[j].key }

  /** The order visits each key of these once, and so below. */
  predicate Follows(tree: Tree, order: seq<Visit>, keys: set<string>)
    decreases Group(tree)
  {
    && keys <= tree.Keys && Visited(order) == keys && Distinct(order)
    && forall v | v in order ::
         v.key in tree && (tree[v.key].Group? ==> Follows(tree[v.key].kids, v.below, tree[v.key].kids.Keys))
  }

  lemma FollowsSnoc(tree: Tree, order: seq<Visit>, keys: set<string>, v: Visit)
    requires Follows(tree, order, keys) && v.key in tree && v.key !in keys
    requires tree[v.key].Group? ==> Follows(tree[v.key].kids, v.below, tree[v.key].kids.Keys)
    ensures Follows(tree, order + [v], keys + {v.key})
  {
    assert Visited(order + [v]) == Visited(order) + {v.key};
    forall i, j | 0 <= i < j < |order + [v]|
      ensures (order + [v])[i].key != (order + [v])[j].key
    {
      assert order[i] in order;
      assert order[i].key in Visited(order);
    }
  }

  lemma FollowsFront(tree: Tree, order: seq<Visit>, keys: set<string>)
    requires Follows(tree, order, keys) && order != []
    ensures var v := order[|order| - 1];
            && v.key in keys && v.key in tree
            && (tree[v.key].Group? ==> Follows(tree[v.key].kids, v.below, tree[v.key].kids.Keys))
            && Follows(tree, order[..|order| - 1], keys - {v.key})
  {
    var v := order[|order| - 1];
    var front := order[..|order| - 1];
    assert v in order && order == front + [v];
    assert forall u | u in front :: u in order;
    assert v.key in Visited(order);
    forall u | u in front
      ensures u.key != v.key
    {
      var i :| 0 <= i < |front| && front[i] == u;
    }
    assert Visited(order) == Visited(front) + {v.key};
    assert v.key !in Visited(front);
  }

  /** Whatever the order, the map has every method of the tree, and where methods share a name one of
      them. */
  lemma {:induction false} FillStored(tree: Tree, prefix: Method, order: seq<Visit>, keys: set<string>,
                                      before: map<string, string>)
    requires Clean(tree) && Follows(tree, order, keys)
    ensures Stored(before, Entries(tree, prefix, keys), Fill(tree, prefix, order, before))
    decreases Group(tree), |order|
  {
    hide Lookup, Stored, Entries;
    if order == [] {
      assert keys == {};
      EntriesNone(tree, prefix);
      StoredNothing(before);
    } else {
      var v := order[|order| - 1];
      var front := order[..|order| - 1];
      FollowsFront(tree, order, keys);
      FillStored(tree, prefix, front, keys - {v.key}, before);
      var m := Fill(tree, prefix, front, before);
      EntriesSplit(tree, prefix, keys - {v.key}, v.key);
      assert keys - {v.key} + {v.key} == keys;
      assert CleanNode(tree[v.key]);
      match tree[v.key] {
        case Leaf(typ) =>
          EntriesLeaf(tree, prefix, v.key);
          StoredOne(m, Join(prefix + [v.key]), typ);
        case Group(kids) =>
          EntriesGroup(tree, prefix, v.key);
          FillStored(kids, prefix + [v.key], v.below, kids.Keys, m);
        case Unhandled =>
      }
      StoredThen(before, Entries(tree, prefix, keys - {v.key}), m, Entries(tree, prefix, {v.key}),
                 Fill(tree, prefix, order, before));
    }
  }

  // ---- Go slices: a shared backing array and a length ----

  datatype Slice = Slice(arr: array<string>, len: nat)

  ghost predicate Fits(s: Slice) { s.len <= s.arr.Length }

  ghost function Contents(s: Slice): Method
    requires Fits(s)
    reads s.arr
  {
    s.arr[..s.len]
  }

  /** Go's append: it writes into the backing array if there is room, and may leave any room when it
      has to allocate. Either way the elements of `s` stay. */
  method Append(s: Slice, k: string) returns (r: Slice)
    requires Fits(s)
    modifies s.arr
    ensures Fits(r) && Contents(r) == old(Contents(s)) + [k]
    ensures r.arr == s.arr || fresh(r.arr)
    ensures s.arr[..s.len] == old(s.arr[..s.len])
  {
    if s.len < s.arr.Length {
      s.arr[s.len] := k;
      r := Slice(s.arr, s.len + 1);
    } else {
      var room: nat :| true;
      var arr := new string[s.len + 1 + room](_ => "");
      forall i | 0 <= i < s.len {
        arr[i] := s.arr[i];
      }
      arr[s.len] := k;
      r := Slice(arr, s.len + 1);
      assert arr[..s.len] == s.arr[..s.len];
    }
  }

  /** The map that recurseMap fills. */
  class Methods {
    var names: map<string, string>

    constructor ()
      ensures names == map[]
    {
      names := map[];
    }
  }

  /** Visits the keys in any order. It fails exactly if some value is neither string nor object;
      otherwise the map is what that order makes of the tree, so every method is stored, and the caller's
      prefix is intact although all levels append to the same backing array. */
  method RecurseMap(methods: Methods, tree: Tree, prefix: Slice) returns (err: Option<Error>, ghost order: seq<Visit>)
    requires Fits(prefix)
    modifies methods, prefix.arr
    ensures prefix.arr[..prefix.len] == old(prefix.arr[..prefix.len])
    ensures err.None? <==> Clean(tree)
    ensures err.None? ==> Follows(tree, order, tree.Keys)
                          && methods.names == Fill(tree, old(Contents(prefix)), order, old(methods.names))
    ensures err.None? ==> Stored(old(methods.names), Entries(tree, old(Contents(prefix)), tree.Keys), methods.names)
    decreases Group(tree)
  {
    hide Lookup, Stored, Entries, Follows, Fill;
    var todo := tree.Keys;
    ghost var at := Contents(prefix);
    ghost var before := methods.names;
    order := [];
    FollowsNothing(tree);
    FillNothing(tree, at, before);
    assert tree.Keys - todo == {};
    while todo != {}
      invariant todo <= tree.Keys
      invariant prefix.arr[..prefix.len] == at
      invariant forall k | k in tree.Keys - todo :: CleanNode(tree[k])
      invariant Follows(tree, order, tree.Keys - todo)
      invariant methods.names == Fill(tree, at, order, before)
      decreases todo
    {
      var k :| k in todo;
      ghost var done := tree.Keys - todo;
      ghost var below: seq<Visit> := [];
      assert tree.Keys - (todo - {k}) == done + {k};
      match tree[k] {
        case Leaf(typ) =>
          var m := Append(prefix, k);
          methods.names := methods.names[Join(m.arr[..m.len]) := typ];
        case Group(kids) =>
          var m := Append(prefix, k);
          ghost var shared := m.arr[..m.len];
          err, below := RecurseMap(methods, kids, m);
          if err.Some? {
            return;
          }
          assert m.arr[..m.len][..prefix.len] == shared[..prefix.len];
        case Unhandled =>
          return Some(Other("unhandled type in map")), order;
      }
      FollowsSnoc(tree, order, done, Visit(k, below));
      FillSnoc(tree, at, order, Visit(k, below), before);
      order := order + [Visit(k, below)];
      todo := todo - {k};
    }
    assert tree.Keys - todo == tree.Keys;
    FillStored(tree, at, order, tree.Keys, before);
    return None, order;
  }

  lemma FollowsNothing(tree: Tree)
    ensures Follows(tree, [], {})
  {
  }

  // ---- names without dots ----

  predicate DotFree(s: string) { '.' !in s }

  predicate DotFreePath(path: Method) { forall i | 0 <= i < |path| :: DotFree(path[i]) }

  predicate DotFreeNode(n: Node) {
    n.Group? ==> forall k | k in n.kids :: DotFree(k) && DotFreeNode(n.kids[k])
  }

  predicate DotFreeTree(tree: Tree) { DotFreeNode(Group(tree)) }

  /** Two dotted names with the same first element: the first dot decides. */
  lemma FirstDot(a: string, b: string, x: string, y: string)
    requires DotFree(a) && DotFree(b) && a + "." + x == b + "." + y
    ensures a == b && x == y
  {
    var s := a + "." + x;
    var t := b + "." + y;
    assert s[|a|] == '.' && t[|b|] == '.';
    assert forall i | 0 <= i < |a| :: s[i] == a[i];
    assert forall i | 0 <= i < |b| :: t[i] == b[i];
    assert |a| == |b|;
    assert s[..|a|] == a && t[..|b|] == b;
    assert s[|a| + 1..] == x && t[|b| + 1..] == y;
  }

  lemma NoDot(a: string, b: string, y: string)
    requires DotFree(a)
    ensures a != b + "." + y
  {
    assert (b + "." + y)[|b|] == '.';
  }

  /** On non-empty paths of dot-free elements the dotted name determines the path. */
  lemma {:induction false} JoinInjective(p: Method, q: Method)
    requires p != [] && q != [] && DotFreePath(p) && DotFreePath(q)
    requires Join(p) == Join(q)
    ensures p == q
    decreases |p|
  {
    if |p| == 1 && |q| == 1 {
      assert p == [p[0]] && q == [q[0]];
    } else if |p| == 1 {
      NoDot(p[0], q[0], Join(q[1..]));
    } else if |q| == 1 {
      NoDot(q[0], p[0], Join(p[1..]));
    } else {
      FirstDot(p[0], q[0], Join(p[1..]), Join(q[1..]));
      JoinInjective(p[1..], q[1..]);
      assert p == [p[0]] + p[1..] && q == [q[0]] + q[1..];
    }
  }

  /** Paths that lead somewhere in a dot-free tree are dot-free. */
  lemma {:induction false} LookupDotFree(tree: Tree, path: Method)
    requires DotFreeTree(tree) && Lookup(tree, path).Some?
    ensures path != [] && DotFreePath(path)
    decreases |path|
  {
    if tree[path[0]].Group? {
      LookupDotFree(tree[path[0]].kids, path[1..]);
      assert path == [path[0]] + path[1..];
    }
  }

  /** In a flattened dot-free tree, the name of a non-empty dot-free path is stored exactly if the path
      leads to a method, with that method's call type. */
  lemma FlatAgreesWithTree(tree: Tree, m: map<string, string>, path: Method)
    requires DotFreeTree(tree) && Stored(map[], Entries(tree, [], tree.Keys), m)
    requires path != [] && DotFreePath(path)
    ensures Join(path) in m <==> Lookup(tree, path).Some?
    ensures Join(path) in m ==> Lookup(tree, path) == Some(m[Join(path)])
  {
    var es := Entries(tree, [], tree.Keys);
    var name := Join(path);
    if Lookup(tree, path).Some? {
      assert [] + path == path;
      assert (name, Lookup(tree, path).value) in es;
      assert Names(es, name);
    }
    if name in m {
      assert (name, m[name]) in es;
      var q: Method, typ
        :| q != [] && q[0] in tree.Keys && Lookup(tree, q) == Some(typ) && (name, m[name]) == (Join([] + q), typ);
      assert [] + q == q;
      LookupDotFree(tree, q);
      JoinInjective(path, q);
    }
  }

  // ---- when the order makes a difference ----

  function Flatten(tree: Tree, order: seq<Visit>): map<string, string> { Fill(tree, [], order, map[]) }

  ghost function AnyOrder(tree: Tree, keys: set<string>): (order: seq<Visit>)
    requires keys <= tree.Keys
    ensures Follows(tree, order, keys)
    decreases Group(tree), keys
  {
    if keys == {} then []
    else
      var k :| k in keys;
      var below := match tree[k] case Group(kids) => AnyOrder(kids, kids.Keys) case _ => [];
      FollowsSnoc(tree, AnyOrder(tree, keys - {k}), keys - {k}, Visit(k, below));
      assert keys - {k} + {k} == keys;
      AnyOrder(tree, keys - {k}) + [Visit(k, below)]
  }

  /** An order that comes to this method last. */
  ghost function LastOrder(tree: Tree, path: Method): (order: seq<Visit>)
    requires Lookup(tree, path).Some?
    ensures Follows(tree, order, tree.Keys)
    decreases |path|
  {
    var k := path[0];
    var below := match tree[k] case Group(kids) => LastOrder(kids, path[1..]) case _ => [];
    FollowsSnoc(tree, AnyOrder(tree, tree.Keys - {k}), tree.Keys - {k}, Visit(k, below));
    assert tree.Keys - {k} + {k} == tree.Keys;
    AnyOrder(tree, tree.Keys - {k}) + [Visit(k, below)]
  }

  lemma {:induction false} LastWins(tree: Tree, prefix: Method, path: Method, before: map<string, string>)
    requires Lookup(tree, path).Some?
    ensures var m := Fill(tree, prefix, LastOrder(tree, path), before);
            Join(prefix + path) in m && m[Join(prefix + path)] == Lookup(tree, path).value
    decreases |path|
  {
    hide Follows;
    var k := path[0];
    var front := AnyOrder(tree, tree.Keys - {k});
    var order := LastOrder(tree, path);
    assert order[..|order| - 1] == front;
    if tree[k].Group? {
      LastWins(tree[k].kids, prefix + [k], path[1..], Fill(tree, prefix, front, before));
      assert prefix + [k] + path[1..] == prefix + path;
    } else {
      assert path == [k];
    }
  }

  /** No two methods share a dotted name, unless they have the same call type. */
  ghost predicate OneTypePerName(tree: Tree) {
    forall p, q: Method | Join(p) == Join(q) && Lookup(tree, p).Some? && Lookup(tree, q).Some? ::
      Lookup(tree, p) == Lookup(tree, q)
  }

  /** All orders of visiting the keys give the same map if and only if no two methods share a dotted name
      with different call types. */
  lemma OrdersAgreeExactly(tree: Tree)
    requires Clean(tree)
    ensures (forall o1, o2 | Follows(tree, o1, tree.Keys) && Follows(tree, o2, tree.Keys) ::
               Flatten(tree, o1) == Flatten(tree, o2))
            <==> OneTypePerName(tree)
  {
    hide Follows, Fill, Lookup, Join, Stored, Entries;
    if forall o1, o2 | Follows(tree, o1, tree.Keys) && Follows(tree, o2, tree.Keys) ::
         Flatten(tree, o1) == Flatten(tree, o2)
    {
      forall p, q: Method | Join(p) == Join(q) && Lookup(tree, p).Some? && Lookup(tree, q).Some?
        ensures Lookup(tree, p) == Lookup(tree, q)
      {
        LastWins(tree, [], p, map[]);
        LastWins(tree, [], q, map[]);
        assert [] + p == p && [] + q == q;
        assert Flatten(tree, LastOrder(tree, p)) == Flatten(tree, LastOrder(tree, q));
      }
    }
    if OneTypePerName(tree) {
      forall o1, o2 | Follows(tree, o1, tree.Keys) && Follows(tree, o2, tree.Keys)
        ensures Flatten(tree, o1) == Flatten(tree, o2)
      {
        FillStored(tree, [], o1, tree.Keys, map[]);
        FillStored(tree, [], o2, tree.Keys, map[]);
        FlatIsUnique(tree, Flatten(tree, o1), Flatten(tree, o2));
      }
    }
  }

  /** Maps that have every method of such a tree, and nothing else, are the same. */
  lemma FlatIsUnique(tree: Tree, m1: map<string, string>, m2: map<string, string>)
    requires OneTypePerName(tree)
    requires Stored(map[], Entries(tree, [], tree.Keys), m1) && Stored(map[], Entries(tree, [], tree.Keys), m2)
    ensures m1 == m2
  {
    hide Lookup, Join, Entries;
    var es := Entries(tree, [], tree.Keys);
    assert forall name: string :: name in m1 <==> Names(es, name);
    assert forall name: string :: name in m2 <==> Names(es, name);
    forall name | name in m1
      ensures m1[name] == m2[name]
    {
      var p := StoredPath(tree, m1, name);
      var q := StoredPath(tree, m2, name);
    }
  }

  /** Dot-free keys are enough. */
  lemma DotFreeNames(tree: Tree)
    requires DotFreeTree(tree)
    ensures OneTypePerName(tree)
  {
    hide Lookup, DotFreeTree, Join;
    forall p, q: Method | Join(p) == Join(q) && Lookup(tree, p).Some? && Lookup(tree, q).Some?
      ensures Lookup(tree, p) == Lookup(tree, q)
    {
      LookupDotFree(tree, p);
      LookupDotFree(tree, q);
      JoinInjective(p, q);
    }
  }

  /** With a dot in a key two orders can give different maps. */
  lemma DottedKeysDisagree()
    ensures var tree: Tree := map["a.b" := Leaf("async"), "a" := Group(map["b" := Leaf("sync")])];
            Clean(tree) && !OneTypePerName(tree)
  {
    var kids: Tree := map["b" := Leaf("sync")];
    var tree: Tree := map["a.b" := Leaf("async"), "a" := Group(kids)];
    var p, q := ["a.b"], ["a", "b"];
    assert q[1..] == ["b"] && Lookup(kids, ["b"]) == Some("sync");
    assert Join(q) == "a" + "." + Join(["b"]);
    assert Lookup(tree, p) == Some("async") && Lookup(tree, q) == Some("sync") && Join(p) == Join(q);
  }

  lemma StoredPath(tree: Tree, m: map<string, string>, name: string) returns (q: Method)
    requires Stored(map[], Entries(tree, [], tree.Keys), m) && name in m
    ensures Join(q) == name && Lookup(tree, q) == Some(m[name])
  {
    assert (name, m[name]) in Entries(tree, [], tree.Keys);
    var p: Method, typ :| p != [] && p[0] in tree.Keys && Lookup(tree, p) == Some(typ)
                          && (name, m[name]) == (Join([] + p), typ);
    assert [] + p == p;
    q := p;
  }

  /** For any non-empty path: the flat map and the tree disagree exactly if an element of the path has
      a dot and the dotted name is that of a method, which then sits elsewhere in the tree. */
  lemma DisagreesExactly(tree: Tree, m: map<string, string>, path: Method)
    requires DotFreeTree(tree) && Stored(map[], Entries(tree, [], tree.Keys), m) && path != []
    ensures (Join(path) in m) != Lookup(tree, path).Some? <==>
            !DotFreePath(path) && exists q: Method :: q != path && Join(q) == Join(path) && Lookup(tree, q).Some?
  {
    hide Stored, Entries, Lookup, DotFreeTree, DotFreePath, Join;
    if DotFreePath(path) {
      FlatAgreesWithTree(tree, m, path);
    } else {
      if Lookup(tree, path).Some? {
        LookupDotFree(tree, path);
      }
      if Join(path) in m {
        var q := StoredPath(tree, m, Join(path));
        assert q != path;
      }
      forall q: Method | q != path && Lookup(tree, q).Some? && Join(q) == Join(path)
        ensures Join(path) in m
      {
        LookupDotFree(tree, q);
        FlatAgreesWithTree(tree, m, q);
      }
    }
  }

  /** Without the condition on the path it fails: a path with a dot in an element is reported as
      handled although it leads nowhere. */
  lemma DottedPathMisleads()
    ensures var tree: Tree := map["a" := Group(map["b" := Leaf("async")])];
            DotFreeTree(tree) && Lookup(tree, ["a.b"]) == None && Lookup(tree, ["a", "b"]) == Some("async")
            && Join(["a.b"]) == Join(["a", "b"])
  {
    var kids: Tree := map["b" := Leaf("async")];
    var tree: Tree := map["a" := Group(kids)];
    var path := ["a", "b"];
    assert path[1..] == ["b"];
    assert Lookup(kids, ["b"]) == Some("async");
    assert Join(["a", "b"]) == "a" + "." + Join(["b"]);
  }

  // ---- the object ----

  class ManifestStruct {
    var missing: bool
    var methods: map<string, string>

    constructor ()
      ensures missing
    {
      missing := true;
      methods := map[];
    }

    /** A decoded manifest replaces the old one, or on an error nothing changes. */
    method Load(tree: Tree) returns (err: Option<Error>)
      modifies this
      ensures err.None? <==> Clean(tree)
      ensures err.None? ==> !missing && Stored(map[], Entries(tree, [], tree.Keys), methods)
      ensures err.Some? ==> missing == old(missing) && methods == old(methods)
    {
      hide Stored, Entries;
      var loaded := new Methods();
      var none := new string[0];
      var prefix := Slice(none, 0);
      assert Contents(prefix) == [];
      ghost var order;
      err, order := RecurseMap(loaded, tree, prefix);
      if err.Some? {
        return;
      }
      methods := loaded.names;
      missing := false;
    }

    method Handled(m: Method) returns (callType: string, yes: bool)
      ensures missing ==> callType == "" && yes
      ensures !missing ==> yes == (Join(m) in methods) && callType == if yes then methods[Join(m)] else ""
    {
      if missing {
        return "", true;
      }
      yes := Join(m) in methods;
      callType := if yes then methods[Join(m)] else "";
    }
  }

  /** Load, then Handled: for a clean, dot-free manifest the answer is that of the tree. */
  method LoadThenAsk(tree: Tree, m: Method) returns (callType: string, yes: bool)
    requires Clean(tree) && DotFreeTree(tree) && m != [] && DotFreePath(m)
    ensures yes <==> Lookup(tree, m).Some?
    ensures yes ==> Lookup(tree, m) == Some(callType)
  {
    hide Stored, Entries, Lookup;
    var ms := new ManifestStruct();
    var err := ms.Load(tree);
    callType, yes := ms.Handled(m);
    FlatAgreesWithTree(tree, ms.methods, m);
  }
}
