/** The namespace tree and the lookup of type references in it.

  A `Space` is what the tree means: the set of paths that have a node (packages
  and symbols share it) and the symbol defined at a path, if any.
 */
module Namespace {
  import opened Symbols

  type Name = string
  type Path = seq<Name>

  /** A defined symbol, with the kind its lookup depends on. */
  datatype Def = Def(id: nat, kind: Kind)

  datatype Space = Space(nodes: set<Path>, defs: map<Path, Def>)

  ghost predicate PrefixClosed(s: Space) {
    && [] in s.nodes
    && (forall p :: p in s.defs ==> p in s.nodes)
    && (forall p: Path :: p in s.nodes && p != [] ==> p[..|p| - 1] in s.nodes)
  }

  lemma PrefixIn(s: Space, p: Path, k: nat)
    requires PrefixClosed(s) && p in s.nodes && k <= |p|
    ensures p[..k] in s.nodes
    decreases |p|
  {
    if k < |p| {
      PrefixIn(s, p[..|p| - 1], k);
      assert p[..|p| - 1][..k] == p[..k];
    } else {
      assert p[..k] == p;
    }
  }

  /** A path without a node has nothing below it. */
  lemma NothingBelow(s: Space, p: Path, more: Path)
    requires PrefixClosed(s) && p !in s.nodes
    ensures p + more !in s.nodes && p + more !in s.defs
  {
    assert (p + more)[..|p|] == p;
    if p + more in s.nodes {
      PrefixIn(s, p + more, |p|);
    }
  }

  function Lookup(s: Space, p: Path): Option<Def> {
    if p in s.defs then Some(s.defs[p]) else None
  }

  // ---- what a reference means -------------------------------------------------

  /** A written type path; `messageOnly` marks rpc signatures. */
  datatype RawRef = RawRef(leadingDot: bool, segs: seq<Name>, messageOnly: bool)

  /** The grammar has no empty paths. */
  type Ref = r: RawRef | r.segs != [] witness RawRef(false, ["x"], false)

  predicate IsType(k: Kind) {
    k.Message? || k.Enum?
  }

  /** Does the scope `base` decide the lookup?

    A compound path is anchored by a package prefix or a definition; a single
    name by a message or an enum, or by anything at all in a signature. */
  predicate Anchors(s: Space, base: Path, ref: Ref) {
    var p := base + [ref.segs[0]];
    && p in s.nodes
    && (if |ref.segs| > 1 then p in s.defs ==> IsDef(s.defs[p].kind)
        else ref.messageOnly || (p in s.defs && IsType(s.defs[p].kind)))
  }

  /** The innermost scope around `scope` that decides the lookup has length `k`. */
  ghost predicate Innermost(s: Space, scope: Path, ref: Ref, k: nat) {
    && k <= |scope| && Anchors(s, scope[..k], ref)
    && forall j: nat :: k < j <= |scope| ==> !Anchors(s, scope[..j], ref)
  }

  /** `r` is what the reference resolves to: an absolute path from the root, a relative one inside its anchor. */
  ghost predicate Resolves(s: Space, scope: Path, ref: Ref, r: Option<Def>) {
    if ref.leadingDot then r == Lookup(s, ref.segs)
    else
      || (exists k: nat :: Innermost(s, scope, ref, k) && r == Lookup(s, scope[..k] + ref.segs))
      || (r == None && forall k: nat :: k <= |scope| ==> !Anchors(s, scope[..k], ref))
  }

  /** A reference has at most one meaning (`ResolvePath` finds it). */
  lemma ResolutionUnique(s: Space, scope: Path, ref: Ref, q: Option<Def>, r: Option<Def>)
    requires Resolves(s, scope, ref, q) && Resolves(s, scope, ref, r)
    ensures q == r
  {
  }

  // ---- the tree -----------------------------------------------------------------

  datatype Node = Node(parent: nat, name: Name, def: Option<Def>)

  ghost predicate Rooted(nodes: seq<Node>) {
    nodes != [] && forall i :: 0 < i < |nodes| ==> nodes[i].parent < i
  }

  /** The path from the root to a node. */
  ghost function PathOf(nodes: seq<Node>, i: nat): Path
    requires Rooted(nodes) && i < |nodes|
  {
    if i == 0 then [] else PathOf(nodes, nodes[i].parent) + [nodes[i].name]
  }

  /** The index holds exactly the tree's edges. */
  ghost predicate Indexed(nodes: seq<Node>, index: map<(nat, Name), nat>) {
    && (forall i :: 0 < i < |nodes| ==> (nodes[i].parent, nodes[i].name) in index && index[(nodes[i].parent, nodes[i].name)] == i)
    && (forall e :: e in index ==> 0 < index[e] < |nodes| && nodes[index[e]].parent == e.0 && nodes[index[e]].name == e.1)
  }

  ghost predicate Reached(nodes: seq<Node>, p: Path)
    requires Rooted(nodes)
  {
    exists i: nat :: i < |nodes| && PathOf(nodes, i) == p
  }

  /** The tree means the space `s`. */
  ghost predicate Means(nodes: seq<Node>, s: Space) {
    && Rooted(nodes)
    && (forall i: nat :: i < |nodes| ==> PathOf(nodes, i) in s.nodes && Lookup(s, PathOf(nodes, i)) == nodes[i].def)
    && (forall p: Path {:trigger Reached(nodes, p)} :: p in s.nodes ==> Reached(nodes, p))
    && (forall p :: p in s.defs ==> p in s.nodes)
  }

  lemma {:induction false} PathInjective(nodes: seq<Node>, index: map<(nat, Name), nat>, i: nat, j: nat)
    requires Rooted(nodes) && Indexed(nodes, index) && i < |nodes| && j < |nodes|
    requires PathOf(nodes, i) == PathOf(nodes, j)
    ensures i == j
  {
    if i > 0 && j > 0 {
      var p, q := PathOf(nodes, nodes[i].parent), PathOf(nodes, nodes[j].parent);
      assert p == (p + [nodes[i].name])[..|p|] && q == (q + [nodes[j].name])[..|q|];
      assert |p| == |q| && nodes[i].name == (p + [nodes[i].name])[|p|] == (q + [nodes[j].name])[|q|];
      PathInjective(nodes, index, nodes[i].parent, nodes[j].parent);
    }
  }

  /** A node of the tree is reached from its parent through the index, and only so. */
  lemma ChildExact(nodes: seq<Node>, index: map<(nat, Name), nat>, s: Space, base: nat, name: Name)
    requires Means(nodes, s) && Indexed(nodes, index) && base < |nodes|
    ensures (base, name) in index <==> PathOf(nodes, base) + [name] in s.nodes
    ensures (base, name) in index ==> index[(base, name)] < |nodes| && PathOf(nodes, index[(base, name)]) == PathOf(nodes, base) + [name]
  {
    var p := PathOf(nodes, base) + [name];
    if p in s.nodes {
      assert Reached(nodes, p);
      var i: nat :| i < |nodes| && PathOf(nodes, i) == p;
      assert i > 0;
      var q := PathOf(nodes, nodes[i].parent);
      assert q == p[..|p| - 1] == PathOf(nodes, base) && nodes[i].name == p[|p| - 1] == name;
      PathInjective(nodes, index, nodes[i].parent, base);
    }
  }

  lemma {:induction false} PathsAreStable(nodes: seq<Node>, node: Node, i: nat)
    requires Rooted(nodes + [node]) && Rooted(nodes) && i < |nodes|
    ensures PathOf(nodes + [node], i) == PathOf(nodes, i)
  {
    if i > 0 {
      PathsAreStable(nodes, node, nodes[i].parent);
    }
  }

  lemma {:induction false} PathsIgnoreDefs(nodes: seq<Node>, at: nat, def: Option<Def>, i: nat)
    requires Rooted(nodes) && at < |nodes| && i < |nodes|
    ensures Rooted(nodes[at := nodes[at].(def := def)])
    ensures PathOf(nodes[at := nodes[at].(def := def)], i) == PathOf(nodes, i)
  {
    if i > 0 {
      PathsIgnoreDefs(nodes, at, def, nodes[i].parent);
    }
  }

  lemma {:induction false} MeansPrefixClosed(nodes: seq<Node>, s: Space)
    requires Means(nodes, s)
    ensures PrefixClosed(s)
  {
    assert PathOf(nodes, 0) == [];
    forall p: Path | p in s.nodes && p != []
      ensures p[..|p| - 1] in s.nodes
    {
      assert Reached(nodes, p);
      var i: nat :| i < |nodes| && PathOf(nodes, i) == p;
      assert PathOf(nodes, nodes[i].parent) == p[..|p| - 1];
    }
  }

  /** A new node adds exactly its path. */
  lemma InternMeans(nodes: seq<Node>, index: map<(nat, Name), nat>, s: Space, parent: nat, name: Name)
    requires Means(nodes, s) && Indexed(nodes, index) && parent < |nodes| && (parent, name) !in index
    ensures var more := nodes + [Node(parent, name, None)];
      && Means(more, s.(nodes := s.nodes + {PathOf(nodes, parent) + [name]}))
      && Indexed(more, index[(parent, name) := |nodes|])
      && PathOf(more, |nodes|) == PathOf(nodes, parent) + [name]
      && forall i: nat :: i < |nodes| ==> PathOf(more, i) == PathOf(nodes, i)
  {
    var node := Node(parent, name, None);
    var more := nodes + [node];
    var p := PathOf(nodes, parent) + [name];
    assert Rooted(more);
    ChildExact(nodes, index, s, parent, name);
    NewNodePaths(nodes, node);
    NewNodeMeans(nodes, node, s);
  }

  lemma NewNodePaths(nodes: seq<Node>, node: Node)
    requires Rooted(nodes) && node.parent < |nodes| && node.def.None?
    ensures Rooted(nodes + [node]) && PathOf(nodes + [node], |nodes|) == PathOf(nodes, node.parent) + [node.name]
    ensures forall i: nat :: i < |nodes| ==> PathOf(nodes + [node], i) == PathOf(nodes, i)
  {
    assert Rooted(nodes + [node]);
    forall i: nat | i < |nodes| ensures PathOf(nodes + [node], i) == PathOf(nodes, i) {
      PathsAreStable(nodes, node, i);
    }
  }

  lemma NewNodeMeans(nodes: seq<Node>, node: Node, s: Space)
    requires Means(nodes, s) && node.parent < |nodes| && node.def.None?
    requires PathOf(nodes, node.parent) + [node.name] !in s.nodes
    ensures Means(nodes + [node], s.(nodes := s.nodes + {PathOf(nodes, node.parent) + [node.name]}))
  {
    NewNodePaths(nodes, node);
    var more := nodes + [node];
    var t := s.(nodes := s.nodes + {PathOf(nodes, node.parent) + [node.name]});
    forall p | p in t.nodes ensures Reached(more, p) {
      if p in s.nodes {
        assert Reached(nodes, p);
        var i: nat :| i < |nodes| && PathOf(nodes, i) == p;
        assert PathOf(more, i) == p;
      } else {
        assert PathOf(more, |nodes|) == p;
      }
    }
  }

  /** Defining a node defines exactly its path. */
  lemma DefineMeans(nodes: seq<Node>, index: map<(nat, Name), nat>, s: Space, id: nat, def: Def)
    requires Means(nodes, s) && Indexed(nodes, index) && id < |nodes|
    ensures var defined := nodes[id := nodes[id].(def := Some(def))];
      && Means(defined, s.(defs := s.defs[PathOf(nodes, id) := def])) && Indexed(defined, index)
      && forall i: nat :: i < |nodes| ==> PathOf(defined, i) == PathOf(nodes, i)
  {
    var defined := nodes[id := nodes[id].(def := Some(def))];
    var t := s.(defs := s.defs[PathOf(nodes, id) := def]);
    forall i: nat | i < |nodes|
      ensures PathOf(defined, i) == PathOf(nodes, i) && Lookup(t, PathOf(defined, i)) == defined[i].def
    {
      PathsIgnoreDefs(nodes, id, Some(def), i);
      if PathOf(nodes, i) == PathOf(nodes, id) {
        PathInjective(nodes, index, i, id);
      }
    }
    forall p | p in t.nodes ensures Reached(defined, p) {
      assert Reached(nodes, p);
      var i: nat :| i < |nodes| && PathOf(nodes, i) == p;
      assert PathOf(defined, i) == p;
    }
  }

  class Tree {
    var nodes: seq<Node>
    var index: map<(nat, Name), nat>
    ghost var space: Space

    ghost predicate Valid()
      reads this
    {
      Means(nodes, space) && Indexed(nodes, index)
    }

    constructor ()
      ensures Valid() && space == Space({[]}, map[])
    {
      nodes := [Node(0, "", None)];
      index := map[];
      space := Space({[]}, map[]);
      new;
      assert PathOf(nodes, 0) == [];
    }

    /** Node for `name` under `parent`, created if absent. */
    method Intern(parent: nat, name: Name) returns (id: nat)
      requires Valid() && parent < |nodes|
      modifies this
      ensures Valid() && old(nodes) <= nodes
      ensures id < |nodes| && PathOf(nodes, id) == PathOf(old(nodes), parent) + [name]
      ensures forall i: nat :: i < |old(nodes)| ==> PathOf(nodes, i) == PathOf(old(nodes), i)
      ensures space == old(space).(nodes := old(space).nodes + {PathOf(old(nodes), parent) + [name]})
    {
      ChildExact(nodes, index, space, parent, name);
      if (parent, name) in index {
        id := index[(parent, name)];
        space := space.(nodes := space.nodes + {PathOf(nodes, parent) + [name]});
        return;
      }
      InternMeans(nodes, index, space, parent, name);
      space := space.(nodes := space.nodes + {PathOf(nodes, parent) + [name]});
      id := |nodes|;
      nodes := nodes + [Node(parent, name, None)];
      index := index[(parent, name) := id];
    }

    /** Defines a symbol under `scope`; a second definition of the same path is refused. */
    method Define(scope: nat, name: Name, def: Def) returns (ok: bool, id: nat)
      requires Valid() && scope < |nodes|
      modifies this
      ensures Valid() && |old(nodes)| <= |nodes|
      ensures ok <==> PathOf(old(nodes), scope) + [name] !in old(space).defs
      ensures id < |nodes| && PathOf(nodes, id) == PathOf(old(nodes), scope) + [name]
      ensures forall i: nat :: i < |old(nodes)| ==> PathOf(nodes, i) == PathOf(old(nodes), i)
      ensures ok ==>
        var p := PathOf(old(nodes), scope) + [name];
        space == Space(old(space).nodes + {p}, old(space).defs[p := def])
    {
      id := Intern(scope, name);
      if nodes[id].def.Some? {
        return false, id;
      }
      DefineMeans(nodes, index, space, id, def);
      space := space.(defs := space.defs[PathOf(nodes, id) := def]);
      nodes := nodes[id := nodes[id].(def := Some(def))];
      ok := true;
    }

    /** Descends `segs` from `base`; only an actual symbol counts. */
    method DescendSyms(base: nat, segs: seq<Name>) returns (r: Option<Def>)
      requires Valid() && base < |nodes|
      ensures r == Lookup(space, PathOf(nodes, base) + segs)
    {
      MeansPrefixClosed(nodes, space);
      ghost var goal := PathOf(nodes, base) + segs;
      var ns: nat, k := base, 0;
      while k < |segs|
        invariant 0 <= k <= |segs| && ns < |nodes|
        invariant PathOf(nodes, ns) + segs[k..] == goal
      {
        ChildExact(nodes, index, space, ns, segs[k]);
        assert segs[k..] == [segs[k]] + segs[k + 1..];
        ghost var here := PathOf(nodes, ns) + [segs[k]];
        assert here + segs[k + 1..] == goal;
        if (ns, segs[k]) !in index {
          NothingBelow(space, here, segs[k + 1..]);
          return None;
        }
        ns := index[(ns, segs[k])];
        k := k + 1;
      }
      assert PathOf(nodes, ns) == goal;
      r := nodes[ns].def;
    }

    /** Resolves a reference written in the scope `start`, walking outward. */
    method ResolvePath(start: nat, ref: Ref) returns (r: Option<Def>)
      requires Valid() && start < |nodes|
      ensures Resolves(space, PathOf(nodes, start), ref, r)
    {
      if ref.leadingDot {
        r := DescendSyms(0, ref.segs);
        assert [] + ref.segs == ref.segs;
        return;
      }
      var first, rest := ref.segs[0], ref.segs[1..];
      ghost var scope := PathOf(nodes, start);
      var base: nat := start;
      while true
        invariant base < |nodes| && |PathOf(nodes, base)| <= |scope|
        invariant PathOf(nodes, base) == scope[..|PathOf(nodes, base)|]
        invariant forall j: nat :: |PathOf(nodes, base)| < j <= |scope| ==> !Anchors(space, scope[..j], ref)
        decreases base
      {
        ghost var k := |PathOf(nodes, base)|;
        ChildExact(nodes, index, space, base, first);
        assert scope[..k] + ref.segs == scope[..k] + [first] + rest;
        if (base, first) in index {
          var ns := index[(base, first)];
          var sym := nodes[ns].def;
          if rest != [] {
            if sym.None? || IsDef(sym.value.kind) {
              assert Innermost(space, scope, ref, k);
              r := DescendSyms(ns, rest);
              return;
            }
          } else if sym.Some? {
            assert ref.segs == [first];
            if ref.messageOnly || IsType(sym.value.kind) {
              assert Innermost(space, scope, ref, k);
              return sym;
            }
          } else if ref.messageOnly {
            assert ref.segs == [first];
            assert Innermost(space, scope, ref, k);
            return None;
          }
        }
        assert !Anchors(space, scope[..k], ref);
        if base == 0 {
          return None;
        }
        assert PathOf(nodes, nodes[base].parent) == scope[..k - 1];
        base := nodes[base].parent;
      }
    }
  }
}
