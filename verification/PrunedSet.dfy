/** Pruning seen from the semantic layer: what survives analyses again, to the same meaning. */
module PrunedSet {
  import opened Symbols
  import opened Decisions
  import opened Closure
  import opened Selection
  import opened Namespace
  import opened Resolution
  import opened Imports
  import opened Bridges

  // ---- survivors -----------------------------------------------------------------

  /** A symbol survives if it is marked and not cascaded away. */
  predicate IsKept(sel: Selected, s: nat)
    requires s < |sel.marks| && s < |sel.cascade|
  {
    !sel.marks[s].Unmarked? && !sel.cascade[s]
  }

  ghost function Survivors(t: Table, d: Decided, sel: Selected): set<nat>
    requires Inputs(t, d) && Selects(t, d, sel)
  {
    set s: nat | s < |t.syms| && IsKept(sel, s)
  }

  /** A surviving field or method is a full keep, and everything it refers to survives. */
  lemma TargetsSurvive(t: Table, d: Decided, sel: Selected, s: nat, target: nat)
    requires Inputs(t, d) && Selects(t, d, sel)
    requires s in Survivors(t, d, sel) && target in t.refs[s]
    ensures target < |t.syms| && target in Survivors(t, d, sel) && t.syms[s].file.Some?
  {
    assert WellReferring(t, s) && WellPlaced(t.syms, s);
    LeastIsClosed(t, d);
    if s !in Least(t, d) {
      var c: nat :| c in Least(t, d) && StrictAncestor(t, s, c);
      AncestorsAreDefs(t, s, c);
    }
    LeastIsJustified(t, d, s);
    FreeTargets(t, d, s, target);
    assert Reference(t, s, target);
    NoRefsIsFree(t, d, target);
    assert target in Least(t, d);
    OneVerdict(t, d, target);
  }

  lemma {:induction false} AncestorsAreDefs(t: Table, a: nat, s: nat)
    requires WellFormed(t) && a < |t.syms| && s < |t.syms| && StrictAncestor(t, a, s)
    ensures IsDef(t.syms[a].kind)
    decreases s
  {
    assert WellPlaced(t.syms, s);
    if t.syms[s].parent != Some(a) {
      AncestorsAreDefs(t, a, t.syms[s].parent.value);
    }
  }

  lemma NoRefsIsFree(t: Table, d: Decided, s: nat)
    requires Inputs(t, d) && s < |d| && !CarriesRefs(t.syms[s].kind)
    ensures Free(t, d, s)
  {
    assert WellReferring(t, s);
  }

  /** Whatever survives, its enclosing definitions survive too. */
  lemma KeptUpwards(t: Table, d: Decided, sel: Selected, s: nat)
    requires Inputs(t, d) && Selects(t, d, sel)
    requires s in Survivors(t, d, sel) && t.syms[s].parent.Some?
    ensures t.syms[s].parent.value in Survivors(t, d, sel)
  {
    assert WellPlaced(t.syms, s);
    var p := t.syms[s].parent.value;
    assert AncestorOrSelf(t, p, s);
    if s in Least(t, d) {
      assert StrictAncestor(t, p, s);
    } else {
      var c: nat :| c in Least(t, d) && StrictAncestor(t, s, c);
      AncestorTransitive(t, p, s, c);
      AncestorBound(t, s, c);
      assert StrictAncestor(t, p, c);
    }
    NoRefsIsFree(t, d, p);
    OneVerdict(t, d, p);
  }

  // ---- which files keep definitions ---------------------------------------------------

  predicate SubtreeKept(t: Table, sel: Selected, s: nat)
    requires |sel.marks| == |sel.cascade| == |t.syms| == |t.children| && s < |t.syms|
    requires forall p: nat, k: nat :: p < |t.syms| && k < |t.children[p]| ==> p < t.children[p][k] < |t.syms|
    decreases |t.syms| - s
  {
    IsKept(sel, s) || exists k: nat :: k < |t.children[s]| && SubtreeKept(t, sel, t.children[s][k])
  }

  lemma ChildrenAfter(t: Table)
    requires WellFormed(t)
    ensures forall p: nat, k: nat :: p < |t.syms| && k < |t.children[p]| ==> p < t.children[p][k] < |t.syms|
  {
    forall p: nat, k: nat | p < |t.syms| && k < |t.children[p]|
      ensures p < t.children[p][k] < |t.syms|
    {
      assert t.children[p][k] in t.children[p] && WellPlaced(t.syms, t.children[p][k]);
    }
  }

  /** A subtree is kept iff some symbol at or below its root is. */
  lemma {:induction false} SubtreeKeptExact(t: Table, sel: Selected, s: nat)
    requires WellFormed(t) && |sel.marks| == |sel.cascade| == |t.syms| && s < |t.syms|
    ensures forall p: nat, k: nat :: p < |t.syms| && k < |t.children[p]| ==> p < t.children[p][k] < |t.syms|
    ensures SubtreeKept(t, sel, s) <==> exists c: nat :: c < |t.syms| && AncestorOrSelf(t, s, c) && IsKept(sel, c)
    decreases |t.syms| - s
  {
    ChildrenAfter(t);
    forall k: nat | k < |t.children[s]|
      ensures SubtreeKept(t, sel, t.children[s][k]) <==>
        exists c: nat :: c < |t.syms| && AncestorOrSelf(t, t.children[s][k], c) && IsKept(sel, c)
    {
      SubtreeKeptExact(t, sel, t.children[s][k]);
    }
    if k: nat :| k < |t.children[s]| && SubtreeKept(t, sel, t.children[s][k]) {
      var child := t.children[s][k];
      var c: nat :| c < |t.syms| && AncestorOrSelf(t, child, c) && IsKept(sel, c);
      assert child in t.children[s];
      assert AncestorOrSelf(t, s, child);
      AncestorTransitive(t, s, child, c);
    }
    if c: nat :| c < |t.syms| && AncestorOrSelf(t, s, c) && IsKept(sel, c) && c != s {
      var child := FirstStep(t, s, c);
      var k :| 0 <= k < |t.children[s]| && t.children[s][k] == child;
    }
  }

  /** The child of `s` on the way down to `c`. */
  lemma {:induction false} FirstStep(t: Table, s: nat, c: nat) returns (child: nat)
    requires WellFormed(t) && s < |t.syms| && c < |t.syms| && StrictAncestor(t, s, c)
    ensures child in t.children[s] && AncestorOrSelf(t, child, c)
    decreases c
  {
    assert WellPlaced(t.syms, c);
    var p := t.syms[c].parent.value;
    if p == s {
      child := c;
    } else {
      child := FirstStep(t, s, p);
    }
  }

  /** The top-level definitions of each file. */
  ghost predicate TopsOf(t: Table, tops: seq<seq<nat>>) {
    forall f: nat, s: nat :: f < |tops| ==> (s in tops[f] <==> IsTop(t, f, s))
  }

  predicate IsTop(t: Table, f: nat, s: nat) {
    s < |t.syms| && t.syms[s].parent.None? && t.syms[s].file == Some(f)
  }

  ghost predicate KeepsDefs(t: Table, sel: Selected, f: nat)
    requires |sel.marks| == |sel.cascade| == |t.syms|
  {
    exists c: nat :: c < |t.syms| && t.syms[c].file == Some(f) && IsKept(sel, c)
  }

  lemma {:induction false} RootOf(t: Table, s: nat) returns (root: nat)
    requires WellFormed(t) && s < |t.syms|
    ensures root < |t.syms| && AncestorOrSelf(t, root, s)
    ensures t.syms[root].parent.None? && t.syms[root].file == t.syms[s].file
    decreases s
  {
    assert WellPlaced(t.syms, s);
    if t.syms[s].parent.None? {
      root := s;
    } else {
      root := RootOf(t, t.syms[s].parent.value);
    }
  }

  lemma {:induction false} SameFile(t: Table, a: nat, s: nat)
    requires WellFormed(t) && s < |t.syms| && AncestorOrSelf(t, a, s)
    ensures a < |t.syms| && t.syms[a].file == t.syms[s].file
    decreases s
  {
    if a != s {
      assert WellPlaced(t.syms, s);
      SameFile(t, a, t.syms[s].parent.value);
    }
  }

  lemma TopsAreSymbols(t: Table, tops: seq<seq<nat>>, f: nat)
    requires TopsOf(t, tops) && f < |tops|
    ensures forall j :: 0 <= j < |tops[f]| ==> tops[f][j] in tops[f] && tops[f][j] < |t.syms|
  {
    forall j | 0 <= j < |tops[f]| ensures tops[f][j] < |t.syms| {
      assert IsTop(t, f, tops[f][j]);
    }
  }

  /** A file keeps definitions iff one of its top-level subtrees is kept. */
  method HasKeptDefs(t: Table, sel: Selected, tops: seq<seq<nat>>) returns (hasDefs: seq<bool>)
    requires WellFormed(t) && |sel.marks| == |sel.cascade| == |t.syms| && TopsOf(t, tops)
    ensures |hasDefs| == |tops|
    ensures forall f: nat :: f < |tops| ==> (hasDefs[f] <==> KeepsDefs(t, sel, f))
  {
    hasDefs := [];
    ChildrenAfter(t);
    while |hasDefs| < |tops|
      invariant |hasDefs| <= |tops|
      invariant forall f: nat :: f < |hasDefs| ==> (hasDefs[f] <==> KeepsDefs(t, sel, f))
    {
      var f := |hasDefs|;
      var k := 0;
      TopsAreSymbols(t, tops, f);
      while k < |tops[f]| && !SubtreeKept(t, sel, tops[f][k])
        invariant 0 <= k <= |tops[f]| && forall j :: 0 <= j < |tops[f]| ==> tops[f][j] < |t.syms|
        invariant forall j :: 0 <= j < k ==> !SubtreeKept(t, sel, tops[f][j])
      {
        k := k + 1;
      }
      TopKept(t, sel, tops[f], f, k);
      hasDefs := hasDefs + [k < |tops[f]|];
    }
  }

  lemma TopKept(t: Table, sel: Selected, tops: seq<nat>, f: nat, k: nat)
    requires WellFormed(t) && |sel.marks| == |sel.cascade| == |t.syms| && k <= |tops|
    requires forall p: nat, k: nat :: p < |t.syms| && k < |t.children[p]| ==> p < t.children[p][k] < |t.syms|
    requires forall s: nat :: s in tops <==> IsTop(t, f, s)
    requires forall j :: 0 <= j < |tops| ==> tops[j] in tops && tops[j] < |t.syms|
    requires forall j :: 0 <= j < k ==> !SubtreeKept(t, sel, tops[j])
    requires k < |tops| ==> SubtreeKept(t, sel, tops[k])
    ensures k < |tops| <==> KeepsDefs(t, sel, f)
  {
    if k < |tops| {
      SubtreeKeptExact(t, sel, tops[k]);
      var c: nat :| c < |t.syms| && AncestorOrSelf(t, tops[k], c) && IsKept(sel, c);
      SameFile(t, tops[k], c);
    } else if c: nat :| c < |t.syms| && t.syms[c].file == Some(f) && IsKept(sel, c) {
      var root := RootOf(t, c);
      assert root in tops;
      SubtreeKeptExact(t, sel, root);
    }
  }

  // ---- demand of the survivors ------------------------------------------------------------

  function ProviderOf(t: Table, s: nat): Provider
    requires s < |t.syms| && WellPlaced(t.syms, s)
  {
    if t.syms[s].file.Some? then InFile(t.syms[s].file.value) else WktFile(t.syms[s].wkt.value)
  }

  /** Some surviving symbol of file `f` refers to `x`, outside `f`. */
  ghost predicate Needs(t: Table, sel: Selected, f: nat, x: Provider)
    requires WellFormed(t) && |sel.marks| == |sel.cascade| == |t.syms|
  {
    exists s: nat, k: nat :: NeedsBy(t, sel, f, x, s, k)
  }

  ghost predicate NeedsBy(t: Table, sel: Selected, f: nat, x: Provider, s: nat, k: nat)
    requires WellFormed(t) && |sel.marks| == |sel.cascade| == |t.syms|
  {
    && s < |t.syms| && t.syms[s].file == Some(f) && IsKept(sel, s)
    && k < |t.refs[s]| && t.refs[s][k] < |t.syms| && WellPlaced(t.syms, t.refs[s][k])
    && ProviderOf(t, t.refs[s][k]) == x && x != InFile(f)
  }

  method NeededProviders(t: Table, sel: Selected, n: nat) returns (needed: seq<Providers>)
    requires WellFormed(t) && |sel.marks| == |sel.cascade| == |t.syms|
    requires forall s: nat :: s < |t.syms| && t.syms[s].file.Some? ==> t.syms[s].file.value < n
    ensures |needed| == n
    ensures forall f: nat, x :: f < n ==> (x in needed[f] <==> Needs(t, sel, f, x))
  {
    needed := seq(n, _ => {});
    var s := 0;
    while s < |t.syms|
      invariant 0 <= s <= |t.syms| && |needed| == n
      invariant forall f: nat, x :: f < n && x in needed[f] ==> Needs(t, sel, f, x)
      invariant forall f: nat, x, q: nat, k: nat :: f < n && q < s && NeedsBy(t, sel, f, x, q, k) ==> x in needed[f]
    {
      if t.syms[s].file.Some? && IsKept(sel, s) {
        var f := t.syms[s].file.value;
        var k := 0;
        assert WellReferring(t, s);
        while k < |t.refs[s]|
          invariant 0 <= k <= |t.refs[s]| && |needed| == n
          invariant forall g: nat, x :: g < n && x in needed[g] ==> Needs(t, sel, g, x)
          invariant forall g: nat, x, q: nat, j: nat :: g < n && q < s && NeedsBy(t, sel, g, x, q, j) ==> x in needed[g]
          invariant forall x, j: nat :: j < k && NeedsBy(t, sel, f, x, s, j) ==> x in needed[f]
        {
          assert WellPlaced(t.syms, t.refs[s][k]);
          var x := ProviderOf(t, t.refs[s][k]);
          if x != InFile(f) {
            assert NeedsBy(t, sel, f, x, s, k);
            needed := needed[f := needed[f] + {x}];
          }
          k := k + 1;
        }
      }
      s := s + 1;
    }
  }

  // ---- import lines ------------------------------------------------------------------------

  /** Decides whether an import line survives. */
  predicate ImportSurvives(fs: Files, provided: seq<Providers>, kept: seq<bool>, need: Providers, imp: Import)
    requires Sane(fs) && |provided| == |kept| == |fs.paths|
  {
    var index := Index(fs);
    if imp.path in index then
      var t := index[imp.path];
      kept[t] && (imp.kind.Public? || provided[t] * need != {})
    else imp.kind.Public? || WktFile(imp.path) in need
  }

  function LinesLeft(fs: Files, provided: seq<Providers>, kept: seq<bool>, need: Providers,
      lines: seq<Import>): (left: seq<Import>)
    requires Sane(fs) && |provided| == |kept| == |fs.paths|
    ensures forall imp :: imp in left <==> imp in lines && ImportSurvives(fs, provided, kept, need, imp)
  {
    if lines == [] then []
    else
      var rest := LinesLeft(fs, provided, kept, need, lines[1..]);
      assert lines == [lines[0]] + lines[1..];
      if ImportSurvives(fs, provided, kept, need, lines[0]) then [lines[0]] + rest else rest
  }

  /** The pruned file set: surviving files with their surviving import lines. */
  function FilesLeft(fs: Files, provided: seq<Providers>, kept: seq<bool>, needed: seq<Providers>): Files
    requires Sane(fs) && |provided| == |kept| == |needed| == |fs.paths|
  {
    Files(fs.paths,
          seq(|fs.paths|, f requires 0 <= f < |fs.paths| => LinesLeft(fs, provided, kept, needed[f], fs.imports[f])),
          set f | f in fs.alive && kept[f])
  }

  lemma LeftIsSane(fs: Files, provided: seq<Providers>, kept: seq<bool>, needed: seq<Providers>)
    requires Sane(fs) && |provided| == |kept| == |needed| == |fs.paths|
    ensures Sane(FilesLeft(fs, provided, kept, needed))
  {
  }

  /** Surviving import lines still name an input or a well-known file, and never a dropped file. */
  lemma SurvivingImportsKnown(fs: Files, provided: seq<Providers>, kept: seq<bool>, needed: seq<Providers>, f: nat,
      imp: Import)
    requires Sane(fs) && |provided| == |kept| == |needed| == |fs.paths| && EveryImportKnown(fs)
    requires var left := FilesLeft(fs, provided, kept, needed); f in left.alive && imp in left.imports[f]
    ensures var left := FilesLeft(fs, provided, kept, needed);
      Sane(left) && !Unknown(left, imp) && forall g :: g in fs.alive && fs.paths[g] == imp.path ==> kept[g]
  {
    assert !Unknown(fs, imp);
  }

  /** Along a chain of surviving files the public lines survive. */
  lemma {:induction false} ChainSurvives(fs: Files, provided: seq<Providers>, kept: seq<bool>,
      needed: seq<Providers>, p: seq<nat>)
    requires Sane(fs) && |provided| == |kept| == |needed| == |fs.paths| && PublicChain(fs, p)
    requires forall i :: 0 <= i < |p| ==> kept[p[i]]
    ensures var left := FilesLeft(fs, provided, kept, needed); Sane(left) && PublicChain(left, p)
  {
    var left := FilesLeft(fs, provided, kept, needed);
    LeftIsSane(fs, provided, kept, needed);
    forall i | 0 <= i < |p| - 1
      ensures PublicEdge(left, p[i], p[i + 1])
    {
      assert PublicEdge(fs, p[i], p[i + 1]);
      var imp :| imp in fs.imports[p[i]] && imp.kind.Public? && imp.path == fs.paths[p[i + 1]];
      assert imp in left.imports[p[i]];
    }
  }

  /** Every file on the way from an import of `f` to a provider that `f` needs is required. */
  lemma {:induction false} WayIsRequired(fs: Files, hasDefs: seq<bool>, needed: seq<Providers>, f: nat, g: nat,
      p: seq<nat>, t: nat, x: Provider, i: nat)
    requires Sane(fs) && |hasDefs| == |needed| == |fs.paths|
    requires f in fs.alive && hasDefs[f] && x in needed[f] && Direct(fs, f, g)
    requires ChainFromTo(fs, p, g, t) && Provides(fs, t, x) && i < |p|
    ensures RequiredFile(fs, hasDefs, needed, p[i])
  {
    assert ChainFromTo(fs, p[..i + 1], g, p[i]) && ChainFromTo(fs, p[i..], p[i], t);
    ProvidesAlong(fs, p[i..], p[i], t, x);
    assert Enters(fs, hasDefs, needed, g, x);
    assert Carries(fs, hasDefs, needed, p[i], x);
  }

  /** Whatever a surviving file needs and sees, it still sees after pruning, from surviving files. */
  lemma VisibilitySurvives(fs: Files, provided: seq<Providers>, hasDefs: seq<bool>, needed: seq<Providers>,
      kept: seq<bool>, f: nat, x: Provider)
    requires Demands(fs, provided, hasDefs, needed) && |kept| == |fs.paths|
    requires forall t :: t in fs.alive ==> (kept[t] <==> RequiredFile(fs, hasDefs, needed, t))
    requires f in fs.alive && hasDefs[f] && x in needed[f] && x != InFile(f) && Visible(fs, f, x)
    ensures var left := FilesLeft(fs, provided, kept, needed);
      Sane(left) && Visible(left, f, x) && (x.InFile? ==> x.file in left.alive)
  {
    var left := FilesLeft(fs, provided, kept, needed);
    LeftIsSane(fs, provided, kept, needed);
    if x.WktFile? && DirectWkt(fs, f, x.path) {
      var imp :| imp in fs.imports[f] && imp.path == x.path;
      assert imp in left.imports[f];
      assert DirectWkt(left, f, x.path);
    } else {
      var g :| Direct(fs, f, g) && Provides(fs, g, x);
      var t := if x.InFile? then x.file else (var t :| Reaches(fs, g, t) && PublicWkt(fs, t, x.path); t);
      var p: seq<nat> :| ChainFromTo(fs, p, g, t);
      ReachesSelf(fs, t);
      forall i: nat | i < |p| ensures kept[p[i]] {
        WayIsRequired(fs, hasDefs, needed, f, g, p, t, x, i);
      }
      ChainSurvives(fs, provided, kept, needed, p);
      assert ChainFromTo(left, p, g, t);
      LineSurvives(fs, provided, kept, needed, f, g, x);
      if x.WktFile? {
        var imp :| imp in fs.imports[t] && imp.kind.Public? && imp.path == x.path;
        assert imp in left.imports[t];
        assert PublicWkt(left, t, x.path);
      }
    }
  }

  /** The import line through which `f` sees `x` survives. */
  lemma LineSurvives(fs: Files, provided: seq<Providers>, kept: seq<bool>, needed: seq<Providers>, f: nat, g: nat,
      x: Provider)
    requires Sane(fs) && AllProvides(fs, provided) && |kept| == |needed| == |fs.paths|
    requires Direct(fs, f, g) && Provides(fs, g, x) && x in needed[f] && kept[f] && kept[g]
    ensures var left := FilesLeft(fs, provided, kept, needed); Sane(left) && Direct(left, f, g)
  {
    var left := FilesLeft(fs, provided, kept, needed);
    LeftIsSane(fs, provided, kept, needed);
    var imp :| imp in fs.imports[f] && imp.path == fs.paths[g];
    assert x in provided[g] * needed[f];
    assert imp in left.imports[f];
  }

  // ---- the pruned set as an analysis input ----------------------------------------------------

  /** An analysed file set: symbols with paths, files, and the references as they are written. */
  datatype Source = Source(g: Program, fs: Files, written: seq<seq<Ref>>)

  /** The scope a symbol's references are written in: its enclosing definition. */
  ghost function ScopeOf(src: Source, s: nat): Path
    requires Shaped(src) && s < |src.g.t.syms|
  {
    assert WellPlaced(src.g.t.syms, s);
    if src.g.t.syms[s].parent.Some? then src.g.paths[src.g.t.syms[s].parent.value] else []
  }

  /** Reference `k` of `s` resolves, in this space and file set, to the recorded target; it has a legal kind and is visible. */
  ghost predicate Binds(src: Source, space: Space, fs: Files, s: nat, k: nat)
    requires Shaped(src) && Sane(fs) && s < |src.g.t.syms| && k < |src.g.t.refs[s]|
  {
    var t := src.g.t;
    assert WellReferring(t, s) && WellPlaced(t.syms, t.refs[s][k]);
    var target, ref := t.refs[s][k], src.written[s][k];
    && Resolves(space, ScopeOf(src, s), ref, Some(Def(target, t.syms[target].kind)))
    && (ref.messageOnly ==> t.syms[target].kind.Message?)
    && t.syms[s].file.Some? && Visible(fs, t.syms[s].file.value, ProviderOf(t, target))
  }

  ghost predicate Shaped(src: Source) {
    && Collected(src.g) && Sane(src.fs)
    && |src.g.pkgs| == |src.fs.paths| && src.fs.alive == (set f: nat | f < |src.fs.paths| && InSet(src.fs, f))
    && |src.written| == |src.g.t.syms|
    && (forall s: nat :: s < |src.written| ==> |src.written[s]| == |src.g.t.refs[s]|)
  }

  /** The file set passed analysis. */
  ghost predicate Analyzed(src: Source) {
    && Shaped(src) && EveryImportKnown(src.fs)
    && (forall s: nat, k: nat :: s < |src.g.t.syms| && k < |src.g.t.refs[s]| ==>
          Binds(src, FullSpace(src.g), src.fs, s, k))
  }

  /** The outcome of pruning at the level of files and import lines. */
  datatype Pruned = Pruned(left: Files, dropped: set<nat>)

  ghost function SpaceOfPruned(src: Source, d: Decided, sel: Selected, out: Pruned): Space
    requires Shaped(src) && Inputs(src.g.t, d) && Selects(src.g.t, d, sel)
  {
    SpaceLeft(src.g, Survivors(src.g.t, d, sel), out.left.alive)
  }

  /** What a correct pruning leaves: everything that survives analyses again to the same targets,
    except where a package has come to shadow a name. */
  ghost predicate PrunesWell(src: Source, d: Decided, sel: Selected, out: Pruned)
    requires Shaped(src) && Inputs(src.g.t, d) && Selects(src.g.t, d, sel)
  {
    var t := src.g.t;
    && Sane(out.left) && EveryImportKnown(out.left)
    && out.left.alive + out.dropped == src.fs.alive && out.left.alive !! out.dropped
    && (forall s: nat :: s in Survivors(t, d, sel) && t.syms[s].file.Some? ==> t.syms[s].file.value in out.left.alive)
    && (forall s: nat, k: nat :: s in Survivors(t, d, sel) && k < |t.refs[s]| ==> KeepsMeaning(src, d, sel, out, s, k))
  }

  ghost predicate KeepsMeaning(src: Source, d: Decided, sel: Selected, out: Pruned, s: nat, k: nat)
    requires Shaped(src) && Inputs(src.g.t, d) && Selects(src.g.t, d, sel) && Sane(out.left)
    requires s < |src.g.t.syms| && k < |src.g.t.refs[s]|
  {
    var t := src.g.t;
    assert WellReferring(t, s);
    var space := SpaceOfPruned(src, d, sel, out);
    && t.refs[s][k] in Survivors(t, d, sel)
    && (Binds(src, space, out.left, s, k) <==>
         !Shadowed(FullSpace(src.g), space, ScopeOf(src, s), src.written[s][k]))
  }

  // ---- what goes --------------------------------------------------------------------------------

  /** Some symbol of file `f` survives. */
  ghost predicate HasSurvivor(t: Table, d: Decided, sel: Selected, f: nat)
    requires Inputs(t, d) && Selects(t, d, sel)
  {
    exists s: nat :: s in Survivors(t, d, sel) && t.syms[s].file == Some(f)
  }

  /** Some survivor of file `f` refers to a symbol of `x`, which is not `f` itself. */
  ghost predicate RefersInto(t: Table, d: Decided, sel: Selected, f: nat, x: Provider)
    requires Inputs(t, d) && Selects(t, d, sel)
  {
    exists s: nat, target: nat :: RefersFrom(t, d, sel, f, x, s, target)
  }

  ghost predicate RefersFrom(t: Table, d: Decided, sel: Selected, f: nat, x: Provider, s: nat, target: nat)
    requires Inputs(t, d) && Selects(t, d, sel)
  {
    && s in Survivors(t, d, sel) && t.syms[s].file == Some(f) && target in t.refs[s] && target < |t.syms|
    && match x
       case InFile(g) => t.syms[target].file == Some(g) && g != f
       case WktFile(w) => t.syms[target].file.None? && t.syms[target].wkt == Some(w)
  }

  /** File `f` lies on a public chain from a direct import of `user` to `x`, which `user` refers into. */
  ghost predicate OnTheWay(src: Source, d: Decided, sel: Selected, f: nat, user: nat, first: nat, x: Provider)
    requires Shaped(src) && Inputs(src.g.t, d) && Selects(src.g.t, d, sel)
  {
    && user in src.fs.alive && HasSurvivor(src.g.t, d, sel, user) && RefersInto(src.g.t, d, sel, user, x)
    && Direct(src.fs, user, first) && Reaches(src.fs, first, f) && Provides(src.fs, f, x)
  }

  /** The import line of `f` is still of use. */
  ghost predicate LineStays(src: Source, d: Decided, sel: Selected, alive: set<nat>, f: nat, imp: Import)
    requires Shaped(src) && Inputs(src.g.t, d) && Selects(src.g.t, d, sel)
  {
    if exists g :: g in src.fs.alive && src.fs.paths[g] == imp.path then
      exists g :: g in alive && g in src.fs.alive && src.fs.paths[g] == imp.path
                  && (imp.kind.Public? || exists x :: RefersInto(src.g.t, d, sel, f, x) && Provides(src.fs, g, x))
    else imp.kind.Public? || RefersInto(src.g.t, d, sel, f, WktFile(imp.path))
  }

  /** `left` has the lines at these indices, in order. */
  ghost predicate TakesInOrder(lines: seq<Import>, left: seq<Import>, picks: seq<nat>) {
    && |picks| == |left|
    && (forall i :: 0 <= i < |picks| ==> picks[i] < |lines| && left[i] == lines[picks[i]])
    && (forall i, j :: 0 <= i < j < |picks| ==> picks[i] < picks[j])
  }

  /** `picks` lists the indices in `wanted` in order, and `left` has the lines there. */
  ghost predicate Picked(lines: seq<Import>, left: seq<Import>, wanted: set<nat>, picks: seq<nat>) {
    TakesInOrder(lines, left, picks) && forall k: nat :: k in picks <==> k in wanted
  }

  ghost function OfUse(src: Source, d: Decided, sel: Selected, alive: set<nat>, f: nat, lines: seq<Import>): set<nat>
    requires Shaped(src) && Inputs(src.g.t, d) && Selects(src.g.t, d, sel)
  {
    set k: nat | k < |lines| && LineStays(src, d, sel, alive, f, lines[k])
  }

  /** The lines left are the lines that are still of use, in their order and as often as they were written. */
  ghost predicate LinesPicked(src: Source, d: Decided, sel: Selected, alive: set<nat>, f: nat, lines: seq<Import>,
      left: seq<Import>)
    requires Shaped(src) && Inputs(src.g.t, d) && Selects(src.g.t, d, sel)
  {
    exists picks: seq<nat> :: Picked(lines, left, OfUse(src, d, sel, alive, f, lines), picks)
  }

  ghost predicate Useless(src: Source, d: Decided, sel: Selected, f: nat)
    requires Shaped(src) && Inputs(src.g.t, d) && Selects(src.g.t, d, sel)
  {
    !HasSurvivor(src.g.t, d, sel, f) && !exists user, first, x :: OnTheWay(src, d, sel, f, user, first, x)
  }

  /** What a correct pruning drops: files and lines that are of no use, and nothing else. */
  ghost predicate DropsWell(src: Source, d: Decided, sel: Selected, out: Pruned)
    requires Shaped(src) && Inputs(src.g.t, d) && Selects(src.g.t, d, sel)
  {
    && out.left.paths == src.fs.paths && |out.left.imports| == |src.fs.imports|
    && out.left.alive == src.fs.alive - out.dropped
    && (forall f :: f in out.dropped <==> f in src.fs.alive && Useless(src, d, sel, f))
    && (forall f :: f in out.left.alive ==>
          LinesPicked(src, d, sel, out.left.alive, f, src.fs.imports[f], out.left.imports[f]))
  }

  /** What the passes over the symbols computed is what their contracts say about survivors. */
  ghost predicate Counted(src: Source, d: Decided, sel: Selected, hasDefs: seq<bool>, needed: seq<Providers>)
    requires Shaped(src) && Inputs(src.g.t, d) && Selects(src.g.t, d, sel)
  {
    && |hasDefs| == |needed| == |src.fs.paths|
    && (forall f: nat :: f < |hasDefs| ==> (hasDefs[f] <==> HasSurvivor(src.g.t, d, sel, f)))
    && (forall f: nat, x :: f < |needed| ==> (x in needed[f] <==> RefersInto(src.g.t, d, sel, f, x)))
  }

  lemma SurvivorsKeepDefs(t: Table, d: Decided, sel: Selected, f: nat)
    requires Inputs(t, d) && Selects(t, d, sel)
    ensures KeepsDefs(t, sel, f) <==> HasSurvivor(t, d, sel, f)
  {
    if c: nat :| c < |t.syms| && t.syms[c].file == Some(f) && IsKept(sel, c) {
      assert c in Survivors(t, d, sel);
    }
  }

  lemma NeedsAreReferences(t: Table, d: Decided, sel: Selected, f: nat, x: Provider)
    requires Inputs(t, d) && Selects(t, d, sel)
    ensures Needs(t, sel, f, x) <==> RefersInto(t, d, sel, f, x)
  {
    if s: nat, k: nat :| NeedsBy(t, sel, f, x, s, k) {
      assert s in Survivors(t, d, sel) && t.refs[s][k] in t.refs[s];
      assert RefersFrom(t, d, sel, f, x, s, t.refs[s][k]);
    }
    if s: nat, target: nat :| RefersFrom(t, d, sel, f, x, s, target) {
      var k: nat :| k < |t.refs[s]| && t.refs[s][k] == target;
      assert WellPlaced(t.syms, target);
      assert NeedsBy(t, sel, f, x, s, k);
    }
  }

  lemma CountedBy(src: Source, d: Decided, sel: Selected, hasDefs: seq<bool>, needed: seq<Providers>)
    requires Shaped(src) && Inputs(src.g.t, d) && Selects(src.g.t, d, sel)
    requires |hasDefs| == |needed| == |src.fs.paths|
    requires forall f: nat :: f < |hasDefs| ==> (hasDefs[f] <==> KeepsDefs(src.g.t, sel, f))
    requires forall f: nat, x :: f < |needed| ==> (x in needed[f] <==> Needs(src.g.t, sel, f, x))
    ensures Counted(src, d, sel, hasDefs, needed)
  {
    forall f: nat | f < |hasDefs| ensures hasDefs[f] <==> HasSurvivor(src.g.t, d, sel, f) {
      SurvivorsKeepDefs(src.g.t, d, sel, f);
    }
    forall f: nat, x | f < |needed| ensures x in needed[f] <==> RefersInto(src.g.t, d, sel, f, x) {
      NeedsAreReferences(src.g.t, d, sel, f, x);
    }
  }

  lemma RequiredIsUsed(src: Source, d: Decided, sel: Selected, hasDefs: seq<bool>, needed: seq<Providers>, f: nat)
    requires Shaped(src) && Inputs(src.g.t, d) && Selects(src.g.t, d, sel)
    requires Counted(src, d, sel, hasDefs, needed) && f in src.fs.alive
    ensures RequiredFile(src.fs, hasDefs, needed, f) <==> !Useless(src, d, sel, f)
  {
    var fs := src.fs;
    if x :| Carries(fs, hasDefs, needed, f, x) {
      var first :| Enters(fs, hasDefs, needed, first, x) && Reaches(fs, first, f);
      var user :| user in fs.alive && hasDefs[user] && x in needed[user] && Direct(fs, user, first);
      assert OnTheWay(src, d, sel, f, user, first, x);
    }
    if user: nat, first: nat, x :| OnTheWay(src, d, sel, f, user, first, x) {
      assert Enters(fs, hasDefs, needed, first, x);
      assert Carries(fs, hasDefs, needed, f, x);
    }
  }

  lemma SurvivesIfOfUse(src: Source, d: Decided, sel: Selected, provided: seq<Providers>, hasDefs: seq<bool>,
      kept: seq<bool>, needed: seq<Providers>, alive: set<nat>, f: nat, imp: Import)
    requires Shaped(src) && Inputs(src.g.t, d) && Selects(src.g.t, d, sel) && AllProvides(src.fs, provided)
    requires Counted(src, d, sel, hasDefs, needed) && |kept| == |src.fs.paths| && f < |needed|
    requires alive == set g | g in src.fs.alive && kept[g]
    ensures ImportSurvives(src.fs, provided, kept, needed[f], imp) <==> LineStays(src, d, sel, alive, f, imp)
  {
    var fs := src.fs;
    if imp.path in Index(fs) {
      var g := Index(fs)[imp.path];
      assert g in fs.alive && fs.paths[g] == imp.path;
      if x :| x in provided[g] * needed[f] {
        assert Provides(fs, g, x) && RefersInto(src.g.t, d, sel, f, x);
      }
      if x :| RefersInto(src.g.t, d, sel, f, x) && Provides(fs, g, x) {
        assert x in provided[g] * needed[f];
      }
    }
  }

  /** One more line in front: the indices of all others move up by one. */
  function MovedUp(picks: seq<nat>): (r: seq<nat>) {
    seq(|picks|, i requires 0 <= i < |picks| => picks[i] + 1)
  }

  lemma MovedUpHas(picks: seq<nat>, k: nat)
    ensures k in MovedUp(picks) <==> k > 0 && k - 1 in picks
  {
    if k > 0 && k - 1 in picks {
      var i :| 0 <= i < |picks| && picks[i] == k - 1;
      assert MovedUp(picks)[i] == k;
    }
  }

  lemma TakesMoved(lines: seq<Import>, left: seq<Import>, picks: seq<nat>)
    requires lines != [] && TakesInOrder(lines[1..], left, picks)
    ensures TakesInOrder(lines, left, MovedUp(picks))
    ensures TakesInOrder(lines, [lines[0]] + left, [0] + MovedUp(picks))
  {
  }

  lemma PickFirst(lines: seq<Import>, left: seq<Import>, wanted: set<nat>, tail: set<nat>, picks: seq<nat>)
    requires lines != [] && Picked(lines[1..], left, tail, picks)
    requires forall k: nat :: k > 0 ==> (k in wanted <==> k - 1 in tail)
    ensures
      if 0 in wanted then Picked(lines, [lines[0]] + left, wanted, [0] + MovedUp(picks))
      else Picked(lines, left, wanted, MovedUp(picks))
  {
    TakesMoved(lines, left, picks);
    forall k: nat ensures k in MovedUp(picks) <==> k > 0 && k in wanted {
      MovedUpHas(picks, k);
    }
  }

  lemma {:induction false} LeftIsPicked(src: Source, d: Decided, sel: Selected, provided: seq<Providers>,
      hasDefs: seq<bool>, kept: seq<bool>, needed: seq<Providers>, alive: set<nat>, f: nat, lines: seq<Import>)
    requires Shaped(src) && Inputs(src.g.t, d) && Selects(src.g.t, d, sel) && AllProvides(src.fs, provided)
    requires Counted(src, d, sel, hasDefs, needed) && |kept| == |src.fs.paths| && f < |needed|
    requires alive == set g | g in src.fs.alive && kept[g]
    ensures LinesPicked(src, d, sel, alive, f, lines, LinesLeft(src.fs, provided, kept, needed[f], lines))
  {
    var wanted := OfUse(src, d, sel, alive, f, lines);
    if lines == [] {
      assert Picked([], [], wanted, []);
    } else {
      var left, tail := LinesLeft(src.fs, provided, kept, needed[f], lines[1..]), OfUse(src, d, sel, alive, f, lines[1..]);
      LeftIsPicked(src, d, sel, provided, hasDefs, kept, needed, alive, f, lines[1..]);
      SurvivesIfOfUse(src, d, sel, provided, hasDefs, kept, needed, alive, f, lines[0]);
      var picks: seq<nat> :| Picked(lines[1..], left, tail, picks);
      PickFirst(lines, left, wanted, tail, picks);
    }
  }

  lemma LeftDropsWell(src: Source, d: Decided, sel: Selected, provided: seq<Providers>, hasDefs: seq<bool>,
      kept: seq<bool>, needed: seq<Providers>, out: Pruned)
    requires Shaped(src) && Inputs(src.g.t, d) && Selects(src.g.t, d, sel) && AllProvides(src.fs, provided)
    requires Counted(src, d, sel, hasDefs, needed) && |kept| == |src.fs.paths|
    requires forall f :: f in src.fs.alive ==> (kept[f] <==> RequiredFile(src.fs, hasDefs, needed, f))
    requires out.left == FilesLeft(src.fs, provided, kept, needed) && out.dropped == set f | f in src.fs.alive && !kept[f]
    ensures DropsWell(src, d, sel, out)
  {
    forall f | f in src.fs.alive ensures kept[f] <==> !Useless(src, d, sel, f) {
      RequiredIsUsed(src, d, sel, hasDefs, needed, f);
    }
    forall f | f in out.left.alive
      ensures LinesPicked(src, d, sel, out.left.alive, f, src.fs.imports[f], out.left.imports[f])
    {
      LeftIsPicked(src, d, sel, provided, hasDefs, kept, needed, out.left.alive, f, src.fs.imports[f]);
    }
  }

  /** Prunes the file set: drops files without kept definitions or demand, and stale import lines. */
  method Prune(src: Source, ghost d: Decided, sel: Selected, tops: seq<seq<nat>>,
      provided: seq<Providers>) returns (out: Pruned)
    requires Analyzed(src) && Inputs(src.g.t, d) && Selects(src.g.t, d, sel)
    requires TopsOf(src.g.t, tops) && |tops| == |src.fs.paths| && AllProvides(src.fs, provided)
    ensures PrunesWell(src, d, sel, out)
    ensures DropsWell(src, d, sel, out)
  {
    var t, fs := src.g.t, src.fs;
    var hasDefs := HasKeptDefs(t, sel, tops);
    var needed := NeededProviders(t, sel, |fs.paths|);
    var kept := RequiredFiles(fs, provided, hasDefs, needed);
    out := Pruned(FilesLeft(fs, provided, kept, needed), set f | f in fs.alive && !kept[f]);
    CountedBy(src, d, sel, hasDefs, needed);
    LeftDropsWell(src, d, sel, provided, hasDefs, kept, needed, out);
    LeftIsSane(fs, provided, kept, needed);
    forall f, imp | f in out.left.alive && imp in out.left.imports[f]
      ensures !Unknown(out.left, imp)
    {
      SurvivingImportsKnown(fs, provided, kept, needed, f, imp);
    }
    forall s: nat | s in Survivors(t, d, sel) && t.syms[s].file.Some?
      ensures t.syms[s].file.value in out.left.alive
    {
      assert InSet(fs, t.syms[s].file.value) && KeepsDefs(t, sel, t.syms[s].file.value);
      assert RequiredFile(fs, hasDefs, needed, t.syms[s].file.value);
    }
    forall s: nat, k: nat | s in Survivors(t, d, sel) && k < |t.refs[s]|
      ensures KeepsMeaning(src, d, sel, out, s, k)
    {
      StillVisible(src, d, sel, provided, hasDefs, needed, kept, s, k);
      StillBinds(src, d, sel, out, s, k);
    }
  }

  lemma StillVisible(src: Source, d: Decided, sel: Selected, provided: seq<Providers>, hasDefs: seq<bool>,
      needed: seq<Providers>, kept: seq<bool>, s: nat, k: nat)
    requires Analyzed(src) && Inputs(src.g.t, d) && Selects(src.g.t, d, sel)
    requires Demands(src.fs, provided, hasDefs, needed) && |kept| == |src.fs.paths|
    requires forall f: nat :: f < |hasDefs| ==> (hasDefs[f] <==> KeepsDefs(src.g.t, sel, f))
    requires forall f: nat, x :: f < |needed| ==> (x in needed[f] <==> Needs(src.g.t, sel, f, x))
    requires forall f :: f in src.fs.alive ==> (kept[f] <==> RequiredFile(src.fs, hasDefs, needed, f))
    requires s in Survivors(src.g.t, d, sel) && k < |src.g.t.refs[s]|
    ensures var t := src.g.t;
      && t.syms[s].file.Some? && t.refs[s][k] < |t.syms| && WellPlaced(t.syms, t.refs[s][k])
      && Sane(FilesLeft(src.fs, provided, kept, needed))
      && Visible(FilesLeft(src.fs, provided, kept, needed), t.syms[s].file.value, ProviderOf(t, t.refs[s][k]))
  {
    var t, fs := src.g.t, src.fs;
    assert Binds(src, FullSpace(src.g), fs, s, k);
    assert WellReferring(t, s) && WellPlaced(t.syms, t.refs[s][k]);
    LeftIsSane(fs, provided, kept, needed);
    var f, x := t.syms[s].file.value, ProviderOf(t, t.refs[s][k]);
    assert InSet(fs, f) && KeepsDefs(t, sel, f);
    if x == InFile(f) {
      assert RequiredFile(fs, hasDefs, needed, f);
    } else {
      assert NeedsBy(t, sel, f, x, s, k);
      VisibilitySurvives(fs, provided, hasDefs, needed, kept, f, x);
    }
  }

  lemma StillBinds(src: Source, d: Decided, sel: Selected, out: Pruned, s: nat, k: nat)
    requires Analyzed(src) && Inputs(src.g.t, d) && Selects(src.g.t, d, sel) && Sane(out.left)
    requires s in Survivors(src.g.t, d, sel) && k < |src.g.t.refs[s]|
    requires var t := src.g.t;
      && t.syms[s].file.Some? && t.refs[s][k] < |t.syms| && WellPlaced(t.syms, t.refs[s][k])
      && Visible(out.left, t.syms[s].file.value, ProviderOf(t, t.refs[s][k]))
    ensures KeepsMeaning(src, d, sel, out, s, k)
  {
    var t, g := src.g.t, src.g;
    var target := t.refs[s][k];
    TargetsSurvive(t, d, sel, s, target);
    assert Binds(src, FullSpace(g), src.fs, s, k);
    MeaningLeft(g, Survivors(t, d, sel), out.left.alive, ScopeOf(src, s), src.written[s][k],
                Def(target, t.syms[target].kind));
  }

  /** Without a package path through a dropped leaf, every surviving reference binds as before. */
  lemma PruningPreservesMeaning(src: Source, d: Decided, sel: Selected, out: Pruned)
    requires Analyzed(src) && Inputs(src.g.t, d) && Selects(src.g.t, d, sel) && PrunesWell(src, d, sel, out)
    requires forall m: nat :: m < |src.g.paths| && m !in Survivors(src.g.t, d, sel) ==>
      !PackageThrough(src.g, out.left.alive, m)
    ensures forall s: nat, k: nat :: s in Survivors(src.g.t, d, sel) && k < |src.g.t.refs[s]| ==>
      Binds(src, SpaceOfPruned(src, d, sel, out), out.left, s, k)
  {
    var t := src.g.t;
    forall s: nat, k: nat | s in Survivors(t, d, sel) && k < |t.refs[s]|
      ensures Binds(src, SpaceOfPruned(src, d, sel, out), out.left, s, k)
    {
      assert KeepsMeaning(src, d, sel, out, s, k);
      NothingShadowed(src.g, Survivors(t, d, sel), out.left.alive, ScopeOf(src, s), src.written[s][k]);
    }
  }
}
