/** The keep-set closure, specified without any traversal order.

  `Least` is the least set of symbols closed under "considered and free of
  exclusions"; the worklist in module Selection is proved against it.
 */
module Closure {
  import opened Symbols
  import opened Decisions

  type Decided = seq<Option<Decision>>

  /** A table with one decision per symbol. Builtins are never addressed by a keep rule. */
  ghost predicate Inputs(t: Table, d: Decided) {
    && WellFormed(t) && |d| == |t.syms|
    && (forall s :: 0 <= s < |d| && t.syms[s].file.None? ==> !IsKeep(d[s]))
  }

  predicate IsKeep(d: Option<Decision>) {
    d.Some? && d.value.pol.Keep?
  }

  predicate IsExcluded(d: Option<Decision>) {
    d.Some? && !d.value.pol.Keep?
  }

  // ---- what a symbol's own references say about keeping it ------------------

  /** `k` is the position of the first reference of `s` whose target is excluded. */
  ghost predicate FirstExcluded(t: Table, d: Decided, s: nat, k: nat)
    requires Inputs(t, d) && s < |d|
  {
    assert WellReferring(t, s);
    && k < |t.refs[s]| && t.refs[s][k] < |d| && IsExcluded(d[t.refs[s][k]])
    && forall j :: 0 <= j < k ==> !IsExcluded(d[t.refs[s][j]])
  }

  ghost predicate Free(t: Table, d: Decided, s: nat)
    requires Inputs(t, d) && s < |d|
  {
    forall k: nat :: !FirstExcluded(t, d, s, k)
  }

  /** A plain drop, or a cascade older than the symbol's own keep. */
  predicate Contradicts(own: Option<Decision>, target: Decision) {
    target.pol.Drop? || (target.pol.DropCascade? && IsKeep(own) && own.value.rule > target.rule)
  }

  ghost predicate Fails(t: Table, d: Decided, s: nat)
    requires Inputs(t, d) && s < |d|
  {
    exists k: nat :: FirstExcluded(t, d, s, k) && Contradicts(d[s], d[t.refs[s][k]].value)
  }

  ghost predicate Cascades(t: Table, d: Decided, s: nat)
    requires Inputs(t, d) && s < |d|
  {
    exists k: nat :: FirstExcluded(t, d, s, k) && !Contradicts(d[s], d[t.refs[s][k]].value)
  }

  /** Exactly one verdict applies to every symbol. */
  lemma OneVerdict(t: Table, d: Decided, s: nat)
    requires Inputs(t, d) && s < |d|
    ensures Free(t, d, s) || Cascades(t, d, s) || Fails(t, d, s)
    ensures !(Free(t, d, s) && Cascades(t, d, s)) && !(Free(t, d, s) && Fails(t, d, s))
    ensures !(Cascades(t, d, s) && Fails(t, d, s))
  {
    if k: nat :| FirstExcluded(t, d, s, k) {
      assert Contradicts(d[s], d[t.refs[s][k]].value) || !Contradicts(d[s], d[t.refs[s][k]].value);
    }
    assert forall j: nat, k: nat :: FirstExcluded(t, d, s, j) && FirstExcluded(t, d, s, k) ==> j == k;
  }

  // ---- reachability ----------------------------------------------------------

  /** An input symbol whose effective decision is keep. */
  predicate Seed(t: Table, d: Decided, s: nat)
    requires |d| == |t.syms| && s < |d|
  {
    t.syms[s].file.Some? && IsKeep(d[s])
  }

  /** `c` is content of the definition `p`: not excluded and not itself a definition. */
  predicate Content(t: Table, d: Decided, p: nat, c: nat)
    requires |d| == |t.syms| == |t.children| && p < |d| && c < |d|
  {
    IsDef(t.syms[p].kind) && t.syms[p].file.Some? && c in t.children[p] && !IsExcluded(d[c]) && !IsDef(t.syms[c].kind)
  }

  predicate Reference(t: Table, p: nat, c: nat)
    requires |t.refs| == |t.syms| && p < |t.syms|
  {
    CarriesRefs(t.syms[p].kind) && t.syms[p].file.Some? && c in t.refs[p]
  }

  /** Keeping `p` asks for `c`. */
  ghost predicate Asks(t: Table, d: Decided, p: nat, c: nat)
    requires Inputs(t, d) && p < |d| && c < |d|
  {
    Content(t, d, p, c) || Reference(t, p, c)
  }

  ghost predicate Considered(t: Table, d: Decided, kept: set<nat>, c: nat)
    requires Inputs(t, d) && c < |d|
  {
    Seed(t, d, c) || exists p: nat :: p in kept && p < |d| && Asks(t, d, p, c)
  }

  ghost predicate Closed(t: Table, d: Decided, kept: set<nat>)
    requires Inputs(t, d)
  {
    forall c: nat :: c < |d| && Considered(t, d, kept, c) && Free(t, d, c) ==> c in kept
  }

  ghost predicate InEveryClosed(t: Table, d: Decided, s: nat)
    requires Inputs(t, d)
  {
    forall kept: set<nat> :: Closed(t, d, kept) ==> s in kept
  }

  ghost function Least(t: Table, d: Decided): set<nat>
    requires Inputs(t, d)
  {
    set s: nat | s < |d| && InEveryClosed(t, d, s)
  }

  /** The intersection of all closed sets is itself closed, so it is the least one. */
  lemma LeastIsClosed(t: Table, d: Decided)
    requires Inputs(t, d)
    ensures Closed(t, d, Least(t, d))
    ensures forall kept: set<nat> :: Closed(t, d, kept) ==> Least(t, d) <= kept
  {
    var least := Least(t, d);
    forall c: nat | c < |d| && Considered(t, d, least, c) && Free(t, d, c)
      ensures c in least
    {
      forall kept: set<nat> | Closed(t, d, kept)
        ensures c in kept
      {
        if !Seed(t, d, c) {
          var p: nat :| p in least && p < |d| && Asks(t, d, p, c);
          assert p in kept;
        }
        assert Considered(t, d, kept, c);
      }
    }
  }

  /** Every member of the least set is there for a reason inside the least set. */
  lemma LeastIsJustified(t: Table, d: Decided, s: nat)
    requires Inputs(t, d) && s in Least(t, d)
    ensures Free(t, d, s) && Considered(t, d, Least(t, d), s)
  {
    var least := Least(t, d);
    LeastIsClosed(t, d);
    if !(Free(t, d, s) && Considered(t, d, least, s)) {
      var smaller := least - {s};
      forall c: nat | c < |d| && Considered(t, d, smaller, c) && Free(t, d, c)
        ensures c in smaller
      {
        assert Considered(t, d, least, c);
      }
      assert Closed(t, d, smaller);
      assert false;
    }
  }

  /** No excluded symbol is a full keep. */
  lemma ExcludedStaysOut(t: Table, d: Decided, s: nat)
    requires Inputs(t, d) && s in Least(t, d)
    ensures !IsExcluded(d[s])
  {
    LeastIsJustified(t, d, s);
    if !Seed(t, d, s) {
      var p: nat :| p in Least(t, d) && p < |d| && Asks(t, d, p, s);
      if Reference(t, p, s) {
        LeastIsJustified(t, d, p);
        FreeTargets(t, d, p, s);
      }
    }
  }

  /** A free symbol has no excluded reference target. */
  lemma FreeTargets(t: Table, d: Decided, s: nat, target: nat)
    requires Inputs(t, d) && s < |d| && Free(t, d, s) && target in t.refs[s]
    ensures target < |d| && !IsExcluded(d[target])
  {
    assert WellReferring(t, s);
    var k :| 0 <= k < |t.refs[s]| && t.refs[s][k] == target;
    if IsExcluded(d[target]) {
      var _ := FindExcluded(t, d, s, k);
    }
  }

  lemma FindExcluded(t: Table, d: Decided, s: nat, k: nat) returns (first: nat)
    requires Inputs(t, d) && s < |d| && k < |t.refs[s]|
    requires WellReferring(t, s) && IsExcluded(d[t.refs[s][k]])
    ensures FirstExcluded(t, d, s, first)
  {
    first := 0;
    while !IsExcluded(d[t.refs[s][first]])
      invariant first <= k
      invariant forall j :: 0 <= j < first ==> !IsExcluded(d[t.refs[s][j]])
      decreases k - first
    {
      first := first + 1;
    }
  }

  // ---- the marks the closure must end with ------------------------------------

  datatype Mark = Unmarked | Container | Required | Explicit

  function Strength(m: Mark): nat {
    match m
    case Unmarked => 0
    case Container => 1
    case Required => 2
    case Explicit => 3
  }

  predicate Full(m: Mark) {
    m.Required? || m.Explicit?
  }

  /** Explicit for kept seeds, Required for the rest of the least set, Container for their remaining ancestors. */
  ghost function MarkOf(t: Table, d: Decided, s: nat): Mark
    requires Inputs(t, d) && s < |d|
  {
    if s in Least(t, d) then (if Seed(t, d, s) then Explicit else Required)
    else if exists c: nat :: c in Least(t, d) && StrictAncestor(t, s, c) then Container
    else Unmarked
  }

  /** The closure must be refused: something it has to consider contradicts an exclusion. */
  ghost predicate Conflicted(t: Table, d: Decided)
    requires Inputs(t, d)
  {
    exists s: nat :: s < |d| && Considered(t, d, Least(t, d), s) && Fails(t, d, s)
  }

  /** A considered symbol whose first excluded reference is a cascade that stands. */
  ghost predicate CascadesAway(t: Table, d: Decided, s: nat)
    requires Inputs(t, d) && s < |d|
  {
    Considered(t, d, Least(t, d), s) && Cascades(t, d, s)
  }
}
