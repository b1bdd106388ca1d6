/** Import lines, `import public` reachability and visibility. */
module Imports {
  import opened Symbols

  datatype ImportKind = Plain | Public | Weak

  datatype Import = Import(kind: ImportKind, path: string)

  /** A file set: the files in `alive`, with their import lines. */
  datatype Files = Files(paths: seq<string>, imports: seq<seq<Import>>, alive: set<nat>)

  /** What an import can bring into view: an input file or a well-known file. */
  datatype Provider = InFile(file: nat) | WktFile(path: string)

  const WKT_FILES: set<string> := {
    "google/protobuf/any.proto", "google/protobuf/api.proto", "google/protobuf/duration.proto",
    "google/protobuf/empty.proto", "google/protobuf/field_mask.proto", "google/protobuf/source_context.proto",
    "google/protobuf/struct.proto", "google/protobuf/timestamp.proto", "google/protobuf/type.proto",
    "google/protobuf/wrappers.proto"}

  /** Input paths are unique, and the well-known namespace is not an input. */
  ghost predicate Sane(fs: Files) {
    && |fs.paths| == |fs.imports|
    && (forall f :: f in fs.alive ==> f < |fs.paths|)
    && (forall f, g :: f in fs.alive && g in fs.alive && fs.paths[f] == fs.paths[g] ==> f == g)
    && (forall f :: f in fs.alive ==> fs.paths[f] !in WKT_FILES)
  }

  /** The path-keyed index of the set. */
  function Index(fs: Files): map<string, nat>
    requires Sane(fs)
  {
    map f | f in fs.alive :: fs.paths[f] := f
  }

  // ---- the import graph ----------------------------------------------------------

  ghost predicate Names(imports: seq<Import>, path: string) {
    exists imp :: imp in imports && imp.path == path
  }

  ghost predicate NamesPublicly(imports: seq<Import>, path: string) {
    exists imp :: imp in imports && imp.kind.Public? && imp.path == path
  }

  ghost predicate Direct(fs: Files, f: nat, g: nat)
    requires Sane(fs)
  {
    f in fs.alive && g in fs.alive && Names(fs.imports[f], fs.paths[g])
  }

  ghost predicate PublicEdge(fs: Files, f: nat, g: nat)
    requires Sane(fs)
  {
    f in fs.alive && g in fs.alive && NamesPublicly(fs.imports[f], fs.paths[g])
  }

  ghost predicate DirectWkt(fs: Files, f: nat, w: string)
    requires Sane(fs)
  {
    f in fs.alive && w in WKT_FILES && Names(fs.imports[f], w)
  }

  ghost predicate PublicWkt(fs: Files, f: nat, w: string)
    requires Sane(fs)
  {
    f in fs.alive && w in WKT_FILES && NamesPublicly(fs.imports[f], w)
  }

  /** `p` follows `import public` lines. */
  ghost predicate PublicChain(fs: Files, p: seq<nat>)
    requires Sane(fs)
  {
    && p != []
    && (forall i :: 0 <= i < |p| ==> p[i] in fs.alive)
    && (forall i :: 0 <= i < |p| - 1 ==> PublicEdge(fs, p[i], p[i + 1]))
  }

  ghost predicate ChainFromTo(fs: Files, p: seq<nat>, f: nat, g: nat)
    requires Sane(fs)
  {
    PublicChain(fs, p) && p[0] == f && p[|p| - 1] == g
  }

  ghost predicate Reaches(fs: Files, f: nat, g: nat)
    requires Sane(fs)
  {
    exists p: seq<nat> :: ChainFromTo(fs, p, f, g)
  }

  /** Importing `f` provides `x`: a file on a public chain from `f`, or a well-known file imported publicly there. */
  ghost predicate Provides(fs: Files, f: nat, x: Provider)
    requires Sane(fs)
  {
    match x
    case InFile(g) => Reaches(fs, f, g)
    case WktFile(w) => exists g :: Reaches(fs, f, g) && PublicWkt(fs, g, w)
  }

  /** `x` may be used in `f`. */
  ghost predicate Visible(fs: Files, f: nat, x: Provider)
    requires Sane(fs)
  {
    || (x == InFile(f) && f in fs.alive)
    || (x.WktFile? && DirectWkt(fs, f, x.path))
    || (exists g :: Direct(fs, f, g) && Provides(fs, g, x))
  }

  lemma ReachesSelf(fs: Files, f: nat)
    requires Sane(fs) && f in fs.alive
    ensures Reaches(fs, f, f)
  {
    assert ChainFromTo(fs, [f], f, f);
  }

  lemma ReachesAfterEdge(fs: Files, f: nat, g: nat, h: nat)
    requires Sane(fs) && PublicEdge(fs, f, g) && Reaches(fs, g, h)
    ensures Reaches(fs, f, h)
  {
    var p: seq<nat> :| ChainFromTo(fs, p, g, h);
    assert ChainFromTo(fs, [f] + p, f, h);
  }

  lemma {:induction false} ReachesTransitive(fs: Files, p: seq<nat>, f: nat, g: nat, h: nat)
    requires Sane(fs) && ChainFromTo(fs, p, f, g) && Reaches(fs, g, h)
    ensures Reaches(fs, f, h)
  {
    if |p| > 1 {
      assert PublicEdge(fs, p[0], p[1]);
      ReachesTransitive(fs, p[1..], p[1], g, h);
      ReachesAfterEdge(fs, f, p[1], h);
    }
  }

  lemma ProvidesAfterEdge(fs: Files, f: nat, g: nat, x: Provider)
    requires Sane(fs) && PublicEdge(fs, f, g) && Provides(fs, g, x)
    ensures Provides(fs, f, x)
  {
    match x
    case InFile(h) => ReachesAfterEdge(fs, f, g, h);
    case WktFile(w) =>
      var h :| Reaches(fs, g, h) && PublicWkt(fs, h, w);
      ReachesAfterEdge(fs, f, g, h);
  }

  /** A set that contains `f` and follows public edges contains everything reachable from `f`. */
  lemma {:induction false} ClosedContainsReachable(fs: Files, s: set<nat>, p: seq<nat>, f: nat, g: nat)
    requires Sane(fs) && ChainFromTo(fs, p, f, g) && f in s
    requires forall a, b :: a in s && PublicEdge(fs, a, b) ==> b in s
    ensures g in s
  {
    if |p| > 1 {
      assert PublicEdge(fs, p[0], p[1]);
      ClosedContainsReachable(fs, s, p[1..], p[1], g);
    }
  }

  // ---- import checking -------------------------------------------------------------

  /** The adjacency lists that import checking collects for one file. */
  datatype Lines = Lines(direct: seq<nat>, public: seq<nat>, directWkt: seq<string>, publicWkt: seq<string>)

  ghost predicate LinesOf(fs: Files, f: nat, l: Lines)
    requires Sane(fs)
  {
    && (forall g :: g in l.direct <==> Direct(fs, f, g))
    && (forall g :: g in l.public <==> PublicEdge(fs, f, g))
    && (forall w :: w in l.directWkt <==> DirectWkt(fs, f, w))
    && (forall w :: w in l.publicWkt <==> PublicWkt(fs, f, w))
  }

  /** An import line that names neither an input nor a well-known file. */
  ghost predicate Unknown(fs: Files, imp: Import)
    requires Sane(fs)
  {
    imp.path !in Index(fs) && imp.path !in WKT_FILES
  }

  ghost predicate LinesUpTo(fs: Files, imports: seq<Import>, l: Lines)
    requires Sane(fs)
  {
    && (forall g :: g in l.direct <==> g in fs.alive && Names(imports, fs.paths[g]))
    && (forall g :: g in l.public <==> g in fs.alive && NamesPublicly(imports, fs.paths[g]))
    && (forall w :: w in l.directWkt <==> w in WKT_FILES && Names(imports, w))
    && (forall w :: w in l.publicWkt <==> w in WKT_FILES && NamesPublicly(imports, w))
  }

  lemma OneMoreName(imports: seq<Import>, imp: Import)
    ensures forall path :: Names(imports + [imp], path) <==> Names(imports, path) || imp.path == path
    ensures forall path :: NamesPublicly(imports + [imp], path) <==> NamesPublicly(imports, path) || (imp.kind.Public? && imp.path == path)
  {
    assert imp in imports + [imp];
    forall path
      ensures Names(imports + [imp], path) <==> Names(imports, path) || imp.path == path
      ensures NamesPublicly(imports + [imp], path) <==> NamesPublicly(imports, path) || (imp.kind.Public? && imp.path == path)
    {
      if i :| i in imports && i.path == path { assert i in imports + [imp]; }
      if i :| i in imports && i.kind.Public? && i.path == path { assert i in imports + [imp]; }
    }
  }

  /** Sorts one import line into the lists, or reports it unknown. */
  method AddLine(fs: Files, imports: seq<Import>, imp: Import, l: Lines) returns (r: Option<Lines>)
    requires Sane(fs) && LinesUpTo(fs, imports, l)
    ensures r.None? <==> Unknown(fs, imp)
    ensures r.Some? ==> LinesUpTo(fs, imports + [imp], r.value)
  {
    OneMoreName(imports, imp);
    var index := Index(fs);
    if imp.path in index {
      var t := index[imp.path];
      return Some(l.(direct := l.direct + [t], public := if imp.kind.Public? then l.public + [t] else l.public));
    } else if imp.path in WKT_FILES {
      return Some(l.(directWkt := l.directWkt + [imp.path],
                     publicWkt := if imp.kind.Public? then l.publicWkt + [imp.path] else l.publicWkt));
    }
    return None;
  }

  method CollectLines(fs: Files, f: nat) returns (r: Option<Lines>)
    requires Sane(fs) && f in fs.alive
    ensures r.None? <==> exists imp :: imp in fs.imports[f] && Unknown(fs, imp)
    ensures r.Some? ==> LinesOf(fs, f, r.value)
  {
    var l := Lines([], [], [], []);
    var k := 0;
    while k < |fs.imports[f]|
      invariant 0 <= k <= |fs.imports[f]|
      invariant forall imp :: imp in fs.imports[f][..k] ==> !Unknown(fs, imp)
      invariant LinesUpTo(fs, fs.imports[f][..k], l)
    {
      var more := AddLine(fs, fs.imports[f][..k], fs.imports[f][k], l);
      if more.None? {
        return None;
      }
      TakeOneMore(fs.imports[f], k);
      l := more.value;
      k := k + 1;
    }
    assert fs.imports[f][..k] == fs.imports[f];
    return Some(l);
  }

  /** The lines of every file of the set. */
  ghost predicate AllLines(fs: Files, lines: seq<Lines>)
    requires Sane(fs)
  {
    |lines| == |fs.paths| && forall f :: 0 <= f < |lines| ==> LinesOf(fs, f, lines[f])
  }

  /** Follows `import public` from `f`, sharing the visited set; returns the grown sets. */
  method ReachPub(fs: Files, lines: seq<Lines>, f: nat, files: set<nat>, wkts: set<string>)
      returns (files': set<nat>, wkts': set<string>)
    requires Sane(fs) && AllLines(fs, lines) && f in fs.alive && files <= fs.alive
    ensures files <= files' <= fs.alive && f in files'
    ensures forall g :: g in files' - files ==> Reaches(fs, f, g)
    ensures forall a, b :: a in files' - files && PublicEdge(fs, a, b) ==> b in files'
    ensures forall w :: w in wkts' <==> w in wkts || exists g :: g in files' - files && PublicWkt(fs, g, w)
    decreases fs.alive - files
  {
    if f in files {
      return files, wkts;
    }
    ReachesSelf(fs, f);
    files', wkts' := files + {f}, wkts;
    var i := 0;
    while i < |lines[f].publicWkt|
      invariant 0 <= i <= |lines[f].publicWkt|
      invariant wkts' == wkts + set w | w in lines[f].publicWkt[..i]
    {
      wkts' := wkts' + {lines[f].publicWkt[i]};
      i := i + 1;
    }
    assert lines[f].publicWkt[..i] == lines[f].publicWkt;
    var k := 0;
    while k < |lines[f].public|
      invariant 0 <= k <= |lines[f].public|
      invariant files + {f} <= files' <= fs.alive
      invariant forall g :: g in files' - files ==> Reaches(fs, f, g)
      invariant forall a, b :: a in files' - files && a != f && PublicEdge(fs, a, b) ==> b in files'
      invariant forall j :: 0 <= j < k ==> lines[f].public[j] in files'
      invariant forall w :: w in wkts' <==> w in wkts || exists g :: g in files' - files && PublicWkt(fs, g, w)
    {
      var p := lines[f].public[k];
      assert p in lines[f].public && PublicEdge(fs, f, p);
      ghost var before, wkts0 := files', wkts';
      files', wkts' := ReachPub(fs, lines, p, files', wkts');
      forall g | g in files' - files
        ensures Reaches(fs, f, g)
      {
        if g !in before {
          ReachesAfterEdge(fs, f, p, g);
        }
      }
      forall w
        ensures w in wkts' <==> w in wkts || exists g :: g in files' - files && PublicWkt(fs, g, w)
      {
        assert w in wkts' <==> w in wkts0 || exists g :: g in files' - before && PublicWkt(fs, g, w);
        if g :| g in files' - files && PublicWkt(fs, g, w) {
          assert g in before - files || g in files' - before;
        }
      }
      k := k + 1;
    }
  }

  /** What importing `f` provides. */
  method ProvideSet(fs: Files, lines: seq<Lines>, f: nat) returns (provided: set<Provider>)
    requires Sane(fs) && AllLines(fs, lines) && f in fs.alive
    ensures forall x :: x in provided <==> Provides(fs, f, x)
  {
    var files, wkts := ReachPub(fs, lines, f, {}, {});
    forall g
      ensures g in files <==> Reaches(fs, f, g)
    {
      if Reaches(fs, f, g) {
        var p: seq<nat> :| ChainFromTo(fs, p, f, g);
        ClosedContainsReachable(fs, files, p, f, g);
      }
    }
    provided := (set g | g in files :: InFile(g)) + (set w | w in wkts :: WktFile(w));
    forall x
      ensures x in provided <==> Provides(fs, f, x)
    {
      match x {
        case InFile(g) =>
        case WktFile(w) => assert w in wkts <==> exists g :: g in files && PublicWkt(fs, g, w);
      }
    }
  }

  ghost predicate AllProvides(fs: Files, provided: seq<set<Provider>>)
    requires Sane(fs)
  {
    |provided| == |fs.paths| && forall f, x :: f in fs.alive ==> (x in provided[f] <==> Provides(fs, f, x))
  }

  ghost predicate AllVisible(fs: Files, visible: seq<set<Provider>>)
    requires Sane(fs)
  {
    |visible| == |fs.paths| && forall f, x :: f in fs.alive ==> (x in visible[f] <==> Visible(fs, f, x))
  }

  ghost predicate EveryImportKnown(fs: Files)
    requires Sane(fs)
  {
    forall f, imp :: f in fs.alive && imp in fs.imports[f] ==> !Unknown(fs, imp)
  }

  /** Visibility: the file itself, its direct well-known imports, and what each direct import provides. */
  method VisibleSet(fs: Files, l: Lines, provided: seq<set<Provider>>, f: nat) returns (visible: set<Provider>)
    requires Sane(fs) && f in fs.alive && LinesOf(fs, f, l) && AllProvides(fs, provided)
    ensures forall x :: x in visible <==> Visible(fs, f, x)
  {
    visible := {InFile(f)} + set w | w in l.directWkt :: WktFile(w);
    var k := 0;
    while k < |l.direct|
      invariant 0 <= k <= |l.direct|
      invariant forall x :: x in visible <==>
        x == InFile(f) || (x.WktFile? && x.path in l.directWkt) || exists g :: g in l.direct[..k] && g in fs.alive && x in provided[g]
    {
      assert l.direct[k] in l.direct && l.direct[..k + 1] == l.direct[..k] + [l.direct[k]];
      visible := visible + provided[l.direct[k]];
      k := k + 1;
    }
    assert l.direct[..k] == l.direct;
    forall x
      ensures x in visible <==> Visible(fs, f, x)
    {
      if g :| Direct(fs, f, g) && Provides(fs, g, x) {
        assert g in l.direct;
      }
    }
  }

  method CheckImports(fs: Files) returns (r: Option<(seq<set<Provider>>, seq<set<Provider>>)>)
    requires Sane(fs)
    ensures r.Some? <==> EveryImportKnown(fs)
    ensures r.Some? ==> AllProvides(fs, r.value.0) && AllVisible(fs, r.value.1)
  {
    var lines: seq<Lines> := [];
    while |lines| < |fs.paths|
      invariant |lines| <= |fs.paths|
      invariant forall f :: 0 <= f < |lines| ==> LinesOf(fs, f, lines[f])
      invariant forall f, imp :: f in fs.alive && f < |lines| && imp in fs.imports[f] ==> !Unknown(fs, imp)
    {
      var l := Some(Lines([], [], [], []));
      if |lines| in fs.alive {
        l := CollectLines(fs, |lines|);
        if l.None? {
          return None;
        }
      }
      lines := lines + [l.value];
    }
    var provided: seq<set<Provider>> := [];
    while |provided| < |fs.paths|
      invariant |provided| <= |fs.paths|
      invariant forall f, x :: f in fs.alive && f < |provided| ==> (x in provided[f] <==> Provides(fs, f, x))
    {
      var p := {};
      if |provided| in fs.alive {
        p := ProvideSet(fs, lines, |provided|);
      }
      provided := provided + [p];
    }
    var visible: seq<set<Provider>> := [];
    while |visible| < |fs.paths|
      invariant |visible| <= |fs.paths|
      invariant forall f, x :: f in fs.alive && f < |visible| ==> (x in visible[f] <==> Visible(fs, f, x))
    {
      var v := {};
      if |visible| in fs.alive {
        v := VisibleSet(fs, lines[|visible|], provided, |visible|);
      }
      visible := visible + [v];
    }
    return Some((provided, visible));
  }
}
