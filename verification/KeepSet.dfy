/** The result of a selection, in terms of the symbol table and the decisions alone. */
module KeepSet {
  import opened Symbols
  import opened Decisions
  import opened Closure
  import opened Selection

  // ---- what keeping a symbol means -----------------------------------------------------------

  /** A rule keeps the input symbol, directly or through an ancestor. */
  predicate Chosen(t: Table, d: Decided, s: nat)
    requires |d| == |t.syms| && s < |d|
  {
    t.syms[s].file.Some? && match d[s] case Some(Decision(_, Keep)) => true case _ => false
  }

  /** A rule takes the symbol out, with `-` or with `-!`. */
  predicate TakenOut(d: Decided, s: nat)
    requires s < |d|
  {
    match d[s] case Some(Decision(_, Drop)) => true case Some(Decision(_, DropCascade)) => true case _ => false
  }

  /** No reference of the symbol leads to one that is taken out. */
  predicate Unhindered(t: Table, d: Decided, s: nat)
    requires |d| == |t.syms| == |t.refs| && s < |d|
  {
    forall target :: target in t.refs[s] && target < |d| ==> !TakenOut(d, target)
  }

  /** A message, enum or service brings in its fields, values or methods, a field or method what it refers to. */
  predicate Brings(t: Table, d: Decided, p: nat, c: nat)
    requires |d| == |t.syms| == |t.refs| == |t.children| && p < |d| && c < |d|
  {
    t.syms[p].file.Some? &&
    match t.syms[p].kind
    case Field => c in t.refs[p]
    case Method => c in t.refs[p]
    case EnumValue => false
    case _ => c in t.children[p] && !TakenOut(d, c) && match t.syms[c].kind
              case Message => false case Enum => false case Service => false case _ => true
  }

  /** Closed under all there is to keep: what a rule keeps or a member brings in, if nothing hinders it. */
  ghost predicate HoldsAll(t: Table, d: Decided, kept: set<nat>)
    requires Inputs(t, d)
  {
    forall c: nat :: c < |d| && Called(t, d, kept, c) && Unhindered(t, d, c) ==> c in kept
  }

  /** A rule keeps `c`, or a member of `kept` brings it in. */
  ghost predicate Called(t: Table, d: Decided, kept: set<nat>, c: nat)
    requires Inputs(t, d) && c < |d|
  {
    Chosen(t, d, c) || exists p: nat :: p in kept && p < |d| && Brings(t, d, p, c)
  }

  ghost function FullKeeps(sel: Selected): set<nat> {
    set s: nat | s < |sel.marks| && (sel.marks[s] == Explicit || sel.marks[s] == Required)
  }

  /** `target` is the first one in the list of references of `s` that is taken out. */
  ghost predicate FirstHindrance(t: Table, d: Decided, s: nat, target: nat)
    requires Inputs(t, d) && s < |d|
  {
    exists k: nat :: k < |t.refs[s]| && t.refs[s][k] == target && target < |d| && TakenOut(d, target)
                     && forall j: nat :: j < k && t.refs[s][j] < |d| ==> !TakenOut(d, t.refs[s][j])
  }

  /** `-` forbids every reference to the symbol; `-!` one of a symbol that a later rule keeps. */
  predicate Forbids(t: Table, d: Decided, s: nat, target: nat)
    requires |d| == |t.syms| && s < |d| && target < |d|
  {
    match d[target]
    case Some(Decision(_, Drop)) => true
    case Some(Decision(drop, DropCascade)) =>
      (match d[s] case Some(Decision(keep, Keep)) => keep > drop case _ => false)
    case _ => false
  }

  // ---- the two views agree -------------------------------------------------------------------

  lemma FirstHindranceIs(t: Table, d: Decided, s: nat, k: nat)
    requires Inputs(t, d) && s < |d| && FirstExcluded(t, d, s, k)
    ensures FirstHindrance(t, d, s, t.refs[s][k])
    ensures Forbids(t, d, s, t.refs[s][k]) <==> Contradicts(d[s], d[t.refs[s][k]].value)
  {
    assert WellReferring(t, s);
  }

  lemma HindranceExcludes(t: Table, d: Decided, s: nat, target: nat) returns (k: nat)
    requires Inputs(t, d) && s < |d| && FirstHindrance(t, d, s, target)
    ensures FirstExcluded(t, d, s, k) && t.refs[s][k] == target
  {
    assert WellReferring(t, s);
    k :| k < |t.refs[s]| && t.refs[s][k] == target && target < |d| && TakenOut(d, target)
         && forall j: nat :: j < k && t.refs[s][j] < |d| ==> !TakenOut(d, t.refs[s][j]);
  }

  lemma FreeIsUnhindered(t: Table, d: Decided, s: nat)
    requires Inputs(t, d) && s < |d|
    ensures Free(t, d, s) <==> Unhindered(t, d, s)
  {
    assert WellReferring(t, s);
    if Free(t, d, s) {
      forall target | target in t.refs[s] && target < |d| ensures !TakenOut(d, target) {
        FreeTargets(t, d, s, target);
      }
    } else {
      var k: nat :| FirstExcluded(t, d, s, k);
      assert t.refs[s][k] in t.refs[s];
    }
  }

  lemma AsksIsBrings(t: Table, d: Decided, p: nat, c: nat)
    requires Inputs(t, d) && p < |d| && c < |d|
    ensures Asks(t, d, p, c) <==> Brings(t, d, p, c)
  {
  }

  lemma ConsideredIsCalled(t: Table, d: Decided, kept: set<nat>, c: nat)
    requires Inputs(t, d) && c < |d|
    ensures Considered(t, d, kept, c) <==> Called(t, d, kept, c)
  {
    if p: nat :| p in kept && p < |d| && Asks(t, d, p, c) {
      AsksIsBrings(t, d, p, c);
    }
    if p: nat :| p in kept && p < |d| && Brings(t, d, p, c) {
      AsksIsBrings(t, d, p, c);
    }
  }

  lemma ClosedIsHoldsAll(t: Table, d: Decided, kept: set<nat>)
    requires Inputs(t, d)
    ensures Closed(t, d, kept) <==> HoldsAll(t, d, kept)
  {
    forall c: nat | c < |d|
      ensures Considered(t, d, kept, c) <==> Called(t, d, kept, c)
      ensures Free(t, d, c) <==> Unhindered(t, d, c)
    {
      ConsideredIsCalled(t, d, kept, c);
      FreeIsUnhindered(t, d, c);
    }
  }

  lemma FullKeepsAreLeast(t: Table, d: Decided, sel: Selected)
    requires Inputs(t, d) && Selects(t, d, sel)
    ensures FullKeeps(sel) == Least(t, d)
  {
    forall s: nat | s < |d| ensures s in FullKeeps(sel) <==> s in Least(t, d) {
      assert sel.marks[s] == MarkOf(t, d, s);
    }
  }

  // ---- what is kept ---------------------------------------------------------------------------

  /** The full keeps are the least set that holds all there is to keep. */
  lemma KeepsLeast(t: Table, d: Decided, sel: Selected)
    requires Inputs(t, d) && Selects(t, d, sel)
    ensures HoldsAll(t, d, FullKeeps(sel))
    ensures forall kept: set<nat> :: HoldsAll(t, d, kept) ==> FullKeeps(sel) <= kept
  {
    FullKeepsAreLeast(t, d, sel);
    LeastIsClosed(t, d);
    ClosedIsHoldsAll(t, d, Least(t, d));
    forall kept: set<nat> | HoldsAll(t, d, kept) ensures FullKeeps(sel) <= kept {
      ClosedIsHoldsAll(t, d, kept);
    }
  }

  /** Undecided content of a kept definition is kept, unless a reference of it leads to what is taken out. */
  lemma ContentIsKept(t: Table, d: Decided, sel: Selected, p: nat, c: nat)
    requires Inputs(t, d) && Selects(t, d, sel)
    requires p in FullKeeps(sel) && t.syms[p].file.Some? && c in t.children[p]
    requires !t.syms[c].kind.Message? && !t.syms[c].kind.Enum? && !t.syms[c].kind.Service?
    requires !TakenOut(d, c) && Unhindered(t, d, c)
    ensures sel.marks[c] == if Chosen(t, d, c) then Explicit else Required
  {
    KeepsLeast(t, d, sel);
    FullKeepsAreLeast(t, d, sel);
    assert WellPlaced(t.syms, c);
    assert Brings(t, d, p, c);
    assert Called(t, d, FullKeeps(sel), c);
    assert sel.marks[c] == MarkOf(t, d, c);
  }

  /** What a kept field or method refers to is kept. */
  lemma ReferencesAreKept(t: Table, d: Decided, sel: Selected, s: nat, target: nat)
    requires Inputs(t, d) && Selects(t, d, sel)
    requires s in FullKeeps(sel) && target in t.refs[s]
    ensures target in FullKeeps(sel)
  {
    KeepsLeast(t, d, sel);
    FullKeepsAreLeast(t, d, sel);
    assert WellReferring(t, s) && WellReferring(t, target) && WellPlaced(t.syms, s);
    assert Brings(t, d, s, target);
    assert Called(t, d, FullKeeps(sel), target);
  }

  /** Nothing else is kept in full. */
  lemma KeptForAReason(t: Table, d: Decided, sel: Selected, s: nat)
    requires Inputs(t, d) && Selects(t, d, sel) && s in FullKeeps(sel)
    ensures Unhindered(t, d, s) && !TakenOut(d, s)
    ensures sel.marks[s] == Explicit <==> Chosen(t, d, s)
    ensures Chosen(t, d, s) || exists p: nat :: p in FullKeeps(sel) && p < |d| && Brings(t, d, p, s)
  {
    FullKeepsAreLeast(t, d, sel);
    LeastIsJustified(t, d, s);
    ExcludedStaysOut(t, d, s);
    FreeIsUnhindered(t, d, s);
    ConsideredIsCalled(t, d, Least(t, d), s);
    assert sel.marks[s] == MarkOf(t, d, s);
  }

  // ---- refusals and cascades --------------------------------------------------------------------

  /** `s` would be kept, but its first reference to something taken out forbids it. */
  ghost predicate Clashes(t: Table, d: Decided, kept: set<nat>, s: nat, target: nat)
    requires Inputs(t, d)
  {
    s < |d| && target < |d| && Called(t, d, kept, s) && FirstHindrance(t, d, s, target) && Forbids(t, d, s, target)
  }

  /** The least set that holds all there is to keep. */
  ghost predicate KeepSetIs(t: Table, d: Decided, kept: set<nat>)
    requires Inputs(t, d)
  {
    HoldsAll(t, d, kept) && forall other: set<nat> :: HoldsAll(t, d, other) ==> kept <= other
  }

  lemma KeepSetIsLeast(t: Table, d: Decided, kept: set<nat>)
    requires Inputs(t, d)
    ensures KeepSetIs(t, d, kept) <==> kept == Least(t, d)
  {
    LeastIsClosed(t, d);
    ClosedIsHoldsAll(t, d, Least(t, d));
    if KeepSetIs(t, d, kept) {
      ClosedIsHoldsAll(t, d, kept);
    }
    forall other: set<nat> | HoldsAll(t, d, other) ensures Least(t, d) <= other {
      ClosedIsHoldsAll(t, d, other);
    }
  }

  /** The closure is refused exactly when something that would be kept clashes with an exclusion. */
  lemma RefusedOnClash(t: Table, d: Decided, kept: set<nat>)
    requires Inputs(t, d) && KeepSetIs(t, d, kept)
    ensures Conflicted(t, d) <==> exists s: nat, target: nat :: Clashes(t, d, kept, s, target)
  {
    KeepSetIsLeast(t, d, kept);
    if Conflicted(t, d) {
      var s: nat :| s < |d| && Considered(t, d, kept, s) && Fails(t, d, s);
      var k: nat :| FirstExcluded(t, d, s, k) && Contradicts(d[s], d[t.refs[s][k]].value);
      ConsideredIsCalled(t, d, kept, s);
      FirstHindranceIs(t, d, s, k);
      assert Clashes(t, d, kept, s, t.refs[s][k]);
    }
    if s: nat, target: nat :| Clashes(t, d, kept, s, target) {
      ConsideredIsCalled(t, d, kept, s);
      var k := HindranceExcludes(t, d, s, target);
      FirstHindranceIs(t, d, s, k);
      assert Fails(t, d, s);
    }
  }

  /** A symbol is cascaded away exactly when it would be kept, and its first such reference only takes it along. */
  lemma CascadesExactly(t: Table, d: Decided, sel: Selected, s: nat)
    requires Inputs(t, d) && Selects(t, d, sel) && s < |d|
    ensures sel.cascade[s] <==>
      Called(t, d, FullKeeps(sel), s)
      && exists target: nat :: target < |d| && FirstHindrance(t, d, s, target) && !Forbids(t, d, s, target)
  {
    FullKeepsAreLeast(t, d, sel);
    ConsideredIsCalled(t, d, Least(t, d), s);
    assert sel.cascade[s] <==> CascadesAway(t, d, s);
    if k: nat :| FirstExcluded(t, d, s, k) && !Contradicts(d[s], d[t.refs[s][k]].value) {
      FirstHindranceIs(t, d, s, k);
    }
    if target: nat :| target < |d| && FirstHindrance(t, d, s, target) && !Forbids(t, d, s, target) {
      var k := HindranceExcludes(t, d, s, target);
      FirstHindranceIs(t, d, s, k);
    }
  }
}
