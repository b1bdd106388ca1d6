/** The symbol table built by the semantic layer, as plain values.

  Symbols are created parents-first; `children` and `refs` are the per-symbol
  views of the two shared arenas (module Arenas proves that the arenas are
  exactly these views).
 */
module Symbols {
  datatype Option<+T> = None | Some(value: T)

  datatype Kind = Message | Enum | Service | Field | EnumValue | Method

  predicate IsDef(k: Kind) {
    k.Message? || k.Enum? || k.Service?
  }

  predicate CarriesRefs(k: Kind) {
    k.Field? || k.Method?
  }

  /** `file` is None for well-known builtins, which carry `wkt` instead. */
  datatype Symbol = Symbol(
    kind: Kind,
    parent: Option<nat>,
    file: Option<nat>,
    number: Option<int>,
    wkt: Option<string>)

  datatype Table = Table(syms: seq<Symbol>, children: seq<seq<nat>>, refs: seq<seq<nat>>)

  /** What symbol creation, arena building and reference resolution establish. */
  ghost predicate WellFormed(t: Table) {
    && |t.children| == |t.refs| == |t.syms|
    && (forall s :: 0 <= s < |t.syms| ==> WellPlaced(t.syms, s))
    && (forall p: nat, c: nat :: p < |t.syms| ==> (c in t.children[p] <==> c < |t.syms| && t.syms[c].parent == Some(p)))
    && (forall p: nat, k: nat :: p < |t.syms| && k < |t.children[p]| ==> t.children[p][k] < |t.syms|)
    && (forall p :: 0 <= p < |t.syms| ==> Ascending(t.children[p]))
    && (forall s :: 0 <= s < |t.syms| ==> WellReferring(t, s))
  }

  predicate WellPlaced(syms: seq<Symbol>, s: nat)
    requires s < |syms|
  {
    var y := syms[s];
    && (y.parent.Some? ==>
          && y.parent.value < s
          && IsDef(syms[y.parent.value].kind)
          && syms[y.parent.value].file == y.file)
    && (!IsDef(y.kind) ==> y.parent.Some?)
    && (y.file.None? ==> y.parent.None? && (y.kind.Message? || y.kind.Enum?) && y.wkt.Some?)
  }

  predicate WellReferring(t: Table, s: nat)
    requires |t.refs| == |t.syms| && s < |t.syms|
  {
    && (t.refs[s] != [] ==> CarriesRefs(t.syms[s].kind))
    && (forall k :: 0 <= k < |t.refs[s]| ==>
          && t.refs[s][k] < |t.syms|
          && (t.syms[t.refs[s][k]].kind.Message? || t.syms[t.refs[s][k]].kind.Enum?))
  }

  predicate Ascending(s: seq<nat>) {
    forall i, j :: 0 <= i < j < |s| ==> s[i] < s[j]
  }

  /** `a` lies on the parent chain that starts at `s` itself. */
  ghost predicate AncestorOrSelf(t: Table, a: nat, s: nat)
    requires WellFormed(t) && s < |t.syms|
    decreases s
  {
    a == s || (t.syms[s].parent.Some? && assert WellPlaced(t.syms, s); AncestorOrSelf(t, a, t.syms[s].parent.value))
  }

  ghost predicate StrictAncestor(t: Table, a: nat, s: nat)
    requires WellFormed(t) && s < |t.syms|
  {
    a != s && AncestorOrSelf(t, a, s)
  }

  lemma AncestorBound(t: Table, a: nat, s: nat)
    requires WellFormed(t) && s < |t.syms| && AncestorOrSelf(t, a, s)
    ensures a <= s
    decreases s
  {
    if a != s {
      assert WellPlaced(t.syms, s);
      AncestorBound(t, a, t.syms[s].parent.value);
    }
  }

  lemma AncestorTransitive(t: Table, a: nat, b: nat, c: nat)
    requires WellFormed(t) && b < |t.syms| && c < |t.syms|
    requires AncestorOrSelf(t, a, b) && AncestorOrSelf(t, b, c)
    ensures AncestorOrSelf(t, a, c)
    decreases c
  {
    if b != c {
      assert WellPlaced(t.syms, c);
      AncestorTransitive(t, a, b, t.syms[c].parent.value);
    }
  }

  lemma TakeOneMore<T>(s: seq<T>, k: nat)
    requires k < |s|
    ensures s[..k + 1] == s[..k] + [s[k]]
  {
  }
}
