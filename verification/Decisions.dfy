/** Rule evaluation and the inherited decision of every symbol.

  Whether a rule's pattern matches a symbol's path is a given boolean matrix,
  `hit[s][r]`.
 */
module Decisions {
  import opened Symbols

  datatype Polarity = Keep | Drop | DropCascade

  /** The rule that decided, by index, and its polarity. */
  datatype Decision = Decision(rule: nat, pol: Polarity)

  /** Rules in order, with the match matrix. */
  datatype Rules = Rules(pols: seq<Polarity>, hit: seq<seq<bool>>)

  predicate Fits(t: Table, rs: Rules) {
    && |rs.hit| == |t.syms|
    && (forall s :: 0 <= s < |rs.hit| ==> |rs.hit[s]| == |rs.pols|)
  }

  /** Keep rules address the input only: a keep that hits a builtin is ignored. */
  predicate Effective(t: Table, rs: Rules, s: nat, r: nat)
    requires Fits(t, rs) && s < |t.syms| && r < |rs.pols|
  {
    rs.hit[s][r] && !(t.syms[s].file.None? && rs.pols[r].Keep?)
  }

  /** Rule `r` reaches `s` directly or through an ancestor. */
  ghost predicate Governs(t: Table, rs: Rules, r: nat, s: nat)
    requires WellFormed(t) && Fits(t, rs) && s < |t.syms| && r < |rs.pols|
  {
    exists a: nat :: a < |t.syms| && AncestorOrSelf(t, a, s) && Effective(t, rs, a, r)
  }

  /** `d` is the last rule that matches `s` itself. */
  ghost predicate IsDirect(t: Table, rs: Rules, s: nat, d: Option<Decision>)
    requires Fits(t, rs) && s < |t.syms|
  {
    IsDirectUpTo(t, rs, s, d, |rs.pols|)
  }

  ghost predicate IsDirectUpTo(t: Table, rs: Rules, s: nat, d: Option<Decision>, n: nat)
    requires Fits(t, rs) && s < |t.syms| && n <= |rs.pols|
  {
    match d
    case None => forall r: nat :: r < n ==> !Effective(t, rs, s, r)
    case Some(Decision(own, pol)) =>
      && own < n && pol == rs.pols[own] && Effective(t, rs, s, own)
      && forall r: nat :: own < r < n ==> !Effective(t, rs, s, r)
  }

  /** `d` is the last rule that matches `s` or any of its ancestors. */
  ghost predicate IsDecision(t: Table, rs: Rules, s: nat, d: Option<Decision>)
    requires WellFormed(t) && Fits(t, rs) && s < |t.syms|
  {
    match d
    case None => forall r: nat :: r < |rs.pols| ==> !Governs(t, rs, r, s)
    case Some(Decision(last, pol)) =>
      && last < |rs.pols| && pol == rs.pols[last] && Governs(t, rs, last, s)
      && forall r: nat :: last < r < |rs.pols| ==> !Governs(t, rs, r, s)
  }

  ghost predicate Dead(t: Table, rs: Rules, r: nat)
    requires Fits(t, rs) && r < |rs.pols|
  {
    forall s: nat :: s < |t.syms| ==> !Effective(t, rs, s, r)
  }

  /** Evaluates every rule over every symbol; None when some rule is dead. */
  method EvaluateRules(t: Table, rs: Rules) returns (res: Option<seq<Option<Decision>>>)
    requires WellFormed(t) && Fits(t, rs)
    ensures res.None? <==> exists r: nat :: r < |rs.pols| && Dead(t, rs, r)
    ensures res.Some? ==>
              && |res.value| == |t.syms|
              && forall s: nat :: s < |t.syms| ==> IsDirect(t, rs, s, res.value[s])
  {
    var n := |t.syms|;
    var direct: seq<Option<Decision>> := seq(n, _ => None);
    var hits: seq<nat> := seq(|rs.pols|, _ => 0);
    var s := 0;
    while s < n
      invariant 0 <= s <= n && |direct| == n && |hits| == |rs.pols|
      invariant forall q: nat :: q < s ==> IsDirect(t, rs, q, direct[q])
      invariant forall q: nat :: s <= q < n ==> direct[q] == None
      invariant forall r: nat :: r < |rs.pols| ==> (hits[r] > 0 <==> exists q: nat :: q < s && Effective(t, rs, q, r))
    {
      var r := 0;
      while r < |rs.pols|
        invariant 0 <= r <= |rs.pols| && |direct| == n && |hits| == |rs.pols|
        invariant forall q: nat :: q < s ==> IsDirect(t, rs, q, direct[q])
        invariant forall q: nat :: s < q < n ==> direct[q] == None
        invariant IsDirectUpTo(t, rs, s, direct[s], r)
        invariant forall k: nat :: k < r ==> (hits[k] > 0 <==> exists q: nat :: q < s + 1 && Effective(t, rs, q, k))
        invariant forall k: nat :: r <= k < |rs.pols| ==>
          (hits[k] > 0 <==> exists q: nat :: q < s && Effective(t, rs, q, k))
      {
        if rs.hit[s][r] {
          if t.syms[s].file.None? && rs.pols[r].Keep? {
          } else {
            assert Effective(t, rs, s, r);
            hits := hits[r := hits[r] + 1];
            direct := direct[s := Some(Decision(r, rs.pols[r]))];
          }
        }
        r := r + 1;
      }
      s := s + 1;
    }
    var first := 0;
    while first < |hits| && hits[first] > 0
      invariant 0 <= first <= |hits|
      invariant forall r: nat :: r < first ==> hits[r] > 0
    {
      first := first + 1;
    }
    if first < |hits| {
      assert Dead(t, rs, first);
      return None;
    }
    forall r: nat | r < |rs.pols|
      ensures !Dead(t, rs, r)
    {
      assert hits[r] > 0;
    }
    return Some(direct);
  }

  /** One forward pass: a symbol inherits its parent's final decision. */
  method DecisionPass(t: Table, rs: Rules, direct: seq<Option<Decision>>) returns (decision: seq<Option<Decision>>)
    requires WellFormed(t) && Fits(t, rs) && |direct| == |t.syms|
    requires forall s: nat :: s < |t.syms| ==> IsDirect(t, rs, s, direct[s])
    ensures |decision| == |t.syms|
    ensures forall s: nat :: s < |t.syms| ==> IsDecision(t, rs, s, decision[s])
  {
    decision := [];
    while |decision| < |t.syms|
      invariant |decision| <= |t.syms|
      invariant forall s: nat :: s < |decision| ==> IsDecision(t, rs, s, decision[s])
    {
      var i := |decision|;
      assert WellPlaced(t.syms, i);
      var inherited := if t.syms[i].parent.Some? then decision[t.syms[i].parent.value] else None;
      var d :=
        if direct[i].Some? && inherited.Some? then
          if inherited.value.rule > direct[i].value.rule then inherited else direct[i]
        else if inherited.None? then direct[i]
        else inherited;
      GovernsStep(t, rs, i);
      decision := decision + [d];
    }
  }

  /** A rule governs a symbol iff it hits the symbol or governs its parent. */
  lemma GovernsStep(t: Table, rs: Rules, i: nat)
    requires WellFormed(t) && Fits(t, rs) && i < |t.syms|
    ensures WellPlaced(t.syms, i)
    ensures forall r: nat :: r < |rs.pols| ==>
      (Governs(t, rs, r, i) <==>
        Effective(t, rs, i, r) || (t.syms[i].parent.Some? && Governs(t, rs, r, t.syms[i].parent.value)))
  {
    assert WellPlaced(t.syms, i);
    forall r: nat | r < |rs.pols|
      ensures Governs(t, rs, r, i) <==>
        Effective(t, rs, i, r) || (t.syms[i].parent.Some? && Governs(t, rs, r, t.syms[i].parent.value))
    {
      if Effective(t, rs, i, r) {
        assert AncestorOrSelf(t, i, i);
      }
      if t.syms[i].parent.Some? && Governs(t, rs, r, t.syms[i].parent.value) {
        var a: nat :| a < |t.syms| && AncestorOrSelf(t, a, t.syms[i].parent.value) && Effective(t, rs, a, r);
        assert AncestorOrSelf(t, a, i);
      }
    }
  }

  /** The decision as a function of the table and the rules: the last governing rule below `n`. */
  ghost function LastGoverning(t: Table, rs: Rules, s: nat, n: nat): (d: Option<Decision>)
    requires WellFormed(t) && Fits(t, rs) && s < |t.syms| && n <= |rs.pols|
    ensures match d
      case None => forall r: nat :: r < n ==> !Governs(t, rs, r, s)
      case Some(Decision(last, pol)) =>
        && last < n && pol == rs.pols[last] && Governs(t, rs, last, s)
        && forall r: nat :: last < r < n ==> !Governs(t, rs, r, s)
  {
    if n == 0 then None
    else if Governs(t, rs, n - 1, s) then Some(Decision(n - 1, rs.pols[n - 1]))
    else LastGoverning(t, rs, s, n - 1)
  }

  ghost function DecisionsOf(t: Table, rs: Rules): (d: seq<Option<Decision>>)
    requires WellFormed(t) && Fits(t, rs)
    ensures |d| == |t.syms|
    ensures forall s: nat :: s < |t.syms| ==> IsDecision(t, rs, s, d[s])
  {
    seq(|t.syms|, s requires 0 <= s < |t.syms| => LastGoverning(t, rs, s, |rs.pols|))
  }

  /** The forward pass computes the decisions, and nothing else satisfies their description. */
  lemma DecisionUnique(t: Table, rs: Rules, d: seq<Option<Decision>>)
    requires WellFormed(t) && Fits(t, rs) && |d| == |t.syms|
    requires forall s: nat :: s < |t.syms| ==> IsDecision(t, rs, s, d[s])
    ensures d == DecisionsOf(t, rs)
  {
    var e := DecisionsOf(t, rs);
    forall s: nat | s < |d|
      ensures d[s] == e[s]
    {
      assert IsDecision(t, rs, s, d[s]) && IsDecision(t, rs, s, e[s]);
    }
  }

  /** Keep rules never decide a builtin. */
  lemma BuiltinsNeverKept(t: Table, rs: Rules, s: nat)
    requires WellFormed(t) && Fits(t, rs) && s < |t.syms| && t.syms[s].file.None?
    ensures DecisionsOf(t, rs)[s].Some? ==> !DecisionsOf(t, rs)[s].value.pol.Keep?
  {
    assert IsDecision(t, rs, s, DecisionsOf(t, rs)[s]);
    GovernsStep(t, rs, s);
  }
}
