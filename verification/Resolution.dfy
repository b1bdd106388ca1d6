/** Name resolution before and after definitions and packages disappear. */
module Resolution {
  import opened Symbols
  import opened Namespace

  // ---- two spaces -------------------------------------------------------------

  /** `p` is what is left of `s`. */
  ghost predicate Within(p: Space, s: Space) {
    && p.nodes <= s.nodes
    && (forall q :: q in p.defs ==> q in s.defs && p.defs[q] == s.defs[q])
  }

  /** No symbol is defined at two paths. */
  ghost predicate Distinct(s: Space) {
    forall p, q :: p in s.defs && q in s.defs && s.defs[p] == s.defs[q] ==> p == q
  }

  /** The scope of length `j` now anchors a compound path that used to pass over a leaf there. */
  ghost predicate Exposes(s: Space, p: Space, scope: Path, ref: Ref, j: nat)
    requires j <= |scope|
  {
    var q := scope[..j] + [ref.segs[0]];
    |ref.segs| > 1 && q in p.nodes && q !in p.defs && q in s.defs && !IsDef(s.defs[q].kind)
  }

  /** Some scope inside the original anchor has become an anchor. */
  ghost predicate Shadowed(s: Space, p: Space, scope: Path, ref: Ref) {
    && !ref.leadingDot
    && exists k: nat, j: nat :: Innermost(s, scope, ref, k) && k < j <= |scope| && Exposes(s, p, scope, ref, j)
  }

  /** A scope anchors in what is left iff it anchored before and its node survives, or a leaf was uncovered there. */
  lemma AnchorsLeft(s: Space, p: Space, scope: Path, ref: Ref, j: nat)
    requires Within(p, s) && j <= |scope|
    ensures Anchors(p, scope[..j], ref) && !Anchors(s, scope[..j], ref) <==> Exposes(s, p, scope, ref, j)
  {
  }

  /** A surviving target keeps its anchor. */
  lemma AnchorSurvives(s: Space, p: Space, base: Path, ref: Ref)
    requires Within(p, s) && PrefixClosed(p) && Anchors(s, base, ref) && base + ref.segs in p.defs
    ensures Anchors(p, base, ref)
  {
    PrefixIn(p, base + ref.segs, |base| + 1);
    assert (base + ref.segs)[..|base| + 1] == base + [ref.segs[0]];
    if |ref.segs| == 1 {
      assert ref.segs == [ref.segs[0]];
    }
  }

  /** Losing parts of the space keeps the meaning of a reference to a survivor exactly when nothing shadows it. */
  lemma ResolutionPreserved(s: Space, p: Space, scope: Path, ref: Ref, target: Def)
    requires PrefixClosed(p) && Within(p, s) && Distinct(s)
    requires Resolves(s, scope, ref, Some(target))
    requires forall q :: q in s.defs && s.defs[q] == target ==> q in p.defs
    ensures Resolves(p, scope, ref, Some(target)) <==> !Shadowed(s, p, scope, ref)
  {
    if !ref.leadingDot {
      var k: nat :| Innermost(s, scope, ref, k) && Lookup(s, scope[..k] + ref.segs) == Some(target);
      AnchorSurvives(s, p, scope[..k], ref);
      if Shadowed(s, p, scope, ref) {
        var k': nat, j: nat :| Innermost(s, scope, ref, k') && k' < j <= |scope| && Exposes(s, p, scope, ref, j);
        AnchorsLeft(s, p, scope, ref, j);
        assert k' == k;
        forall i: nat | Innermost(p, scope, ref, i)
          ensures Lookup(p, scope[..i] + ref.segs) != Some(target)
        {
          assert j <= i;
          assert |scope[..i] + ref.segs| != |scope[..k] + ref.segs|;
        }
      } else {
        forall j: nat | k < j <= |scope|
          ensures !Anchors(p, scope[..j], ref)
        {
          AnchorsLeft(s, p, scope, ref, j);
        }
        assert Innermost(p, scope, ref, k);
      }
    }
  }

  // ---- the spaces of a program ---------------------------------------------------

  /** A symbol table with fully-qualified paths, and the package of every file. */
  datatype Program = Program(t: Table, paths: seq<Path>, pkgs: seq<Path>)

  const WKT_PACKAGE: Path := ["google", "protobuf"]

  function PackageOf(g: Program, s: nat): Path
    requires s < |g.t.syms| && (g.t.syms[s].file.Some? ==> g.t.syms[s].file.value < |g.pkgs|)
  {
    if g.t.syms[s].file.Some? then g.pkgs[g.t.syms[s].file.value] else WKT_PACKAGE
  }

  /** What symbol collection establishes: paths extend the parent's path or the package, and are distinct. */
  ghost predicate Collected(g: Program) {
    && WellFormed(g.t) && |g.paths| == |g.t.syms|
    && (forall s: nat :: s < |g.t.syms| && g.t.syms[s].file.Some? ==> g.t.syms[s].file.value < |g.pkgs|)
    && (forall s: nat :: s < |g.t.syms| ==> Extends(g, s))
    && (forall r: nat, s: nat :: r < |g.paths| && s < |g.paths| && g.paths[r] == g.paths[s] ==> r == s)
  }

  ghost predicate Extends(g: Program, s: nat)
    requires WellFormed(g.t) && |g.paths| == |g.t.syms| && s < |g.t.syms|
    requires g.t.syms[s].file.Some? ==> g.t.syms[s].file.value < |g.pkgs|
  {
    assert WellPlaced(g.t.syms, s);
    g.paths[s] != [] &&
    g.paths[s][..|g.paths[s]| - 1] ==
      if g.t.syms[s].parent.Some? then g.paths[g.t.syms[s].parent.value] else PackageOf(g, s)
  }

  /** Builtins are always present. */
  predicate Present(g: Program, kept: set<nat>, s: nat) {
    s < |g.t.syms| && (s in kept || g.t.syms[s].file.None?)
  }

  /** The namespace that collecting only `kept` symbols of only `files` builds. */
  ghost function SpaceLeft(g: Program, kept: set<nat>, files: set<nat>): Space
    requires Collected(g)
  {
    Space((set s: nat, k: nat | s < |g.paths| && Present(g, kept, s) && k <= |g.paths[s]| :: g.paths[s][..k]) +
          (set f: nat, k: nat | f < |g.pkgs| && f in files && k <= |g.pkgs[f]| :: g.pkgs[f][..k]) +
          {[], WKT_PACKAGE[..1], WKT_PACKAGE},
          map s: nat | s < |g.paths| && Present(g, kept, s) :: g.paths[s] := Def(s, g.t.syms[s].kind))
  }

  predicate IsSymbol(g: Program, s: nat) {
    s < |g.t.syms|
  }

  predicate IsFile(g: Program, f: nat) {
    f < |g.pkgs|
  }

  ghost function FullSpace(g: Program): Space
    requires Collected(g)
  {
    SpaceLeft(g, set s: nat | s < |g.t.syms| && IsSymbol(g, s), set f: nat | f < |g.pkgs| && IsFile(g, f))
  }

  lemma SpacesNest(g: Program, kept: set<nat>, files: set<nat>)
    requires Collected(g)
    ensures Within(SpaceLeft(g, kept, files), FullSpace(g)) && Distinct(FullSpace(g))
  {
  }

  lemma SpaceIsPrefixClosed(g: Program, kept: set<nat>, files: set<nat>)
    requires Collected(g)
    ensures PrefixClosed(SpaceLeft(g, kept, files))
  {
    var x := SpaceLeft(g, kept, files);
    forall p | p in x.defs
      ensures p in x.nodes
    {
      assert p[..|p|] == p;
    }
    forall p: Path | p in x.nodes && p != []
      ensures p[..|p| - 1] in x.nodes
    {
      if s: nat, k: nat :| s < |g.paths| && Present(g, kept, s) && k <= |g.paths[s]| && p == g.paths[s][..k] {
        assert p[..|p| - 1] == g.paths[s][..k - 1];
      } else if f: nat, k: nat :| f < |g.pkgs| && f in files && k <= |g.pkgs[f]| && p == g.pkgs[f][..k] {
        assert p[..|p| - 1] == g.pkgs[f][..k - 1];
      } else {
        assert p == WKT_PACKAGE[..1] || p == WKT_PACKAGE;
      }
    }
  }

  /** The full space defines every symbol at its path, and nothing else. */
  lemma DefinedInFull(g: Program, s: nat)
    requires Collected(g) && s < |g.paths|
    ensures PrefixClosed(FullSpace(g))
    ensures Lookup(FullSpace(g), g.paths[s]) == Some(Def(s, g.t.syms[s].kind)) && g.paths[s] in FullSpace(g).nodes
  {
    assert IsSymbol(g, s);
    SpaceIsPrefixClosed(g, set s: nat | s < |g.t.syms| && IsSymbol(g, s), set f: nat | f < |g.pkgs| && IsFile(g, f));
  }

  // ---- what can go wrong, and when ---------------------------------------------------

  /** A surviving package path runs through the path of the leaf `m`. */
  ghost predicate PackageThrough(g: Program, files: set<nat>, m: nat)
    requires Collected(g) && m < |g.paths|
  {
    && !IsDef(g.t.syms[m].kind)
    && (|| IsPrefix(g.paths[m], WKT_PACKAGE)
        || exists f: nat :: f in files && f < |g.pkgs| && IsPrefix(g.paths[m], g.pkgs[f]))
  }

  predicate IsPrefix(p: Path, q: Path) {
    p <= q
  }

  /** A leaf path that is a prefix of another symbol's path is a prefix of that symbol's package. */
  lemma {:induction false} OnlyPackagesBelowLeaves(g: Program, m: nat, e: nat)
    requires Collected(g) && m < |g.paths| && e < |g.paths| && m != e
    requires !IsDef(g.t.syms[m].kind) && IsPrefix(g.paths[m], g.paths[e])
    ensures IsPrefix(g.paths[m], PackageOf(g, e))
    decreases e
  {
    assert Extends(g, e) && WellPlaced(g.t.syms, e);
    assert g.paths[m] != g.paths[e];
    var up := g.paths[e][..|g.paths[e]| - 1];
    assert g.paths[m] <= up;
    if g.t.syms[e].parent.Some? {
      OnlyPackagesBelowLeaves(g, m, g.t.syms[e].parent.value);
    }
  }

  /** An uncovered leaf is one that a surviving package path runs through. */
  lemma ExposedLeaf(g: Program, kept: set<nat>, files: set<nat>, scope: Path, ref: Ref, j: nat) returns (m: nat)
    requires Collected(g) && j <= |scope|
    requires forall s: nat :: s in kept && s < |g.paths| && g.t.syms[s].file.Some? ==> g.t.syms[s].file.value in files
    requires Exposes(FullSpace(g), SpaceLeft(g, kept, files), scope, ref, j)
    ensures m < |g.paths| && m !in kept && PackageThrough(g, files, m)
  {
    var x := SpaceLeft(g, kept, files);
    var q := scope[..j] + [ref.segs[0]];
    m := FullSpace(g).defs[q].id;
    assert g.paths[m] == q && !Present(g, kept, m);
    if e: nat, k: nat :| e < |g.paths| && Present(g, kept, e) && k <= |g.paths[e]| && q == g.paths[e][..k] {
      OnlyPackagesBelowLeaves(g, m, e);
    }
  }

  /** After deletion, a reference to a survivor keeps its meaning exactly when nothing shadows it. */
  lemma MeaningLeft(g: Program, kept: set<nat>, files: set<nat>, scope: Path, ref: Ref, target: Def)
    requires Collected(g) && target.id < |g.paths| && Present(g, kept, target.id)
    requires Resolves(FullSpace(g), scope, ref, Some(target))
    ensures Resolves(SpaceLeft(g, kept, files), scope, ref, Some(target)) <==>
      !Shadowed(FullSpace(g), SpaceLeft(g, kept, files), scope, ref)
  {
    SpacesNest(g, kept, files);
    SpaceIsPrefixClosed(g, kept, files);
    ResolutionPreserved(FullSpace(g), SpaceLeft(g, kept, files), scope, ref, target);
  }

  /** When no surviving package path runs through a dropped leaf, nothing is shadowed. */
  lemma NothingShadowed(g: Program, kept: set<nat>, files: set<nat>, scope: Path, ref: Ref)
    requires Collected(g)
    requires forall s: nat :: s in kept && s < |g.paths| && g.t.syms[s].file.Some? ==> g.t.syms[s].file.value in files
    requires forall m: nat :: m < |g.paths| && m !in kept ==> !PackageThrough(g, files, m)
    ensures !Shadowed(FullSpace(g), SpaceLeft(g, kept, files), scope, ref)
  {
    var s, p := FullSpace(g), SpaceLeft(g, kept, files);
    forall k: nat, j: nat | Innermost(s, scope, ref, k) && k < j <= |scope|
      ensures !Exposes(s, p, scope, ref, j)
    {
      if Exposes(s, p, scope, ref, j) {
        var _ := ExposedLeaf(g, kept, files, scope, ref, j);
      }
    }
  }
}
