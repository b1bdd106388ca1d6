/** A file set in which pruning one field makes a surviving reference unresolvable.

  `a.M` has the fields `x` and `r`, and `r` is typed `x.T`, defined in package
  `x`. A third file declares package `a.M.x`. While the field `a.M.x` exists it
  is passed over; once it is dropped, its node is a bare package and anchors.
  Three rules keep `a.M` and `a.M.x.Q` and drop `a.M.x`.
 */
module Shadowing {
  import opened Symbols
  import opened Namespace
  import opened Resolution
  import opened Decisions
  import opened Closure
  import Selection

  const DEMO_SYMBOLS: seq<Symbol> := [
    Symbol(Message, None, Some(0), None, None),
    Symbol(Field, Some(0), Some(0), Some(1), None),
    Symbol(Field, Some(0), Some(0), Some(2), None),
    Symbol(Message, None, Some(1), None, None),
    Symbol(Message, None, Some(2), None, None)]

  const DEMO_TABLE := Table(DEMO_SYMBOLS, [[1, 2], [], [], [], []], [[], [], [3], [], []])

  const DEMO_PATHS: seq<Path> := [["a", "M"], ["a", "M", "x"], ["a", "M", "r"], ["x", "T"], ["a", "M", "x", "Q"]]

  const DEMO := Program(DEMO_TABLE, DEMO_PATHS, [["a"], ["x"], ["a", "M", "x"]])

  const SCOPE: Path := ["a", "M"]

  const WRITTEN: Ref := RawRef(false, ["x", "T"], false)

  lemma NamesDiffer()
    ensures "a" != "x" && "M" != "x" && "M" != "T" && "r" != "x" && "Q" != "T"
    ensures "google" != "a" && "google" != "x"
  {
    assert "a"[0] != "x"[0] && "M"[0] != "x"[0] && "M"[0] != "T"[0] && "r"[0] != "x"[0] && "Q"[0] != "T"[0];
    assert |"google"| == 6;
  }

  lemma DemoTable()
    ensures WellFormed(DEMO_TABLE)
  {
    forall p: nat, c: nat | p < |DEMO_SYMBOLS|
      ensures c in DEMO_TABLE.children[p] <==> c < |DEMO_SYMBOLS| && DEMO_SYMBOLS[c].parent == Some(p)
    {
      if p == 0 {
        assert DEMO_TABLE.children[p] == [1, 2];
      }
    }
    assert forall s :: 0 <= s < |DEMO_SYMBOLS| ==> WellPlaced(DEMO_SYMBOLS, s);
    assert forall s :: 0 <= s < |DEMO_SYMBOLS| ==> WellReferring(DEMO_TABLE, s);
  }

  lemma DemoIsCollected()
    ensures Collected(DEMO)
  {
    DemoTable();
    NamesDiffer();
    forall r: nat, s: nat | r < |DEMO_PATHS| && s < |DEMO_PATHS| && DEMO_PATHS[r] == DEMO_PATHS[s]
      ensures r == s
    {
      assert |DEMO_PATHS[r]| == |DEMO_PATHS[s]| && DEMO_PATHS[r][0] == DEMO_PATHS[s][0];
      assert r in {1, 2} && s in {1, 2} ==> DEMO_PATHS[r][2] == DEMO_PATHS[s][2];
    }
    forall s: nat | s < |DEMO_SYMBOLS|
      ensures Extends(DEMO, s)
    {
      var up := DEMO_PATHS[s][..|DEMO_PATHS[s]| - 1];
      assert s == 0 ==> up == ["a"];
      assert s == 1 || s == 2 ==> up == ["a", "M"];
      assert s == 3 ==> up == ["x"];
      assert s == 4 ==> up == ["a", "M", "x"];
    }
  }

  const LEFT: set<nat> := {0, 2, 3, 4}
  const FILES: set<nat> := {0, 1, 2}

  /** No package or symbol is called `a.x`. */
  lemma NothingAtAx(kept: set<nat>, files: set<nat>)
    requires Collected(DEMO)
    ensures ["a", "x"] !in SpaceLeft(DEMO, kept, files).nodes
  {
    NamesDiffer();
    var q: Path := ["a", "x"];
    forall s: nat, k: nat | s < |DEMO_PATHS| && k <= |DEMO_PATHS[s]|
      ensures DEMO_PATHS[s][..k] != q
    {
      if k == 2 {
        assert DEMO_PATHS[s][..k][0] == DEMO_PATHS[s][0] && DEMO_PATHS[s][..k][1] == DEMO_PATHS[s][1];
        assert q[0] == "a" && q[1] == "x";
      }
    }
    forall f: nat, k: nat | f < |DEMO.pkgs| && k <= |DEMO.pkgs[f]|
      ensures DEMO.pkgs[f][..k] != q
    {
      if k == 2 {
        assert DEMO.pkgs[f][..k][1] == "M" && q[1] == "x";
      }
    }
    assert WKT_PACKAGE[0] != q[0] && |WKT_PACKAGE[..1]| == 1;
  }

  lemma PackageX(s: Space)
    requires PrefixClosed(s) && DEMO_PATHS[3] in s.nodes
    ensures ["x"] in s.nodes
  {
    PrefixIn(s, DEMO_PATHS[3], 1);
    assert DEMO_PATHS[3][..1] == ["x"];
  }

  lemma FieldBefore()
    ensures Collected(DEMO) && Lookup(FullSpace(DEMO), DEMO_PATHS[1]) == Some(Def(1, Field))
  {
    DemoIsCollected();
    DefinedInFull(DEMO, 1);
  }

  lemma TypeBefore()
    ensures Collected(DEMO) && Lookup(FullSpace(DEMO), DEMO_PATHS[3]) == Some(Def(3, Message))
    ensures ["x"] in FullSpace(DEMO).nodes
  {
    DemoIsCollected();
    DefinedInFull(DEMO, 3);
    PackageX(FullSpace(DEMO));
  }

  lemma NoSymbolX()
    ensures Collected(DEMO) && ["x"] !in FullSpace(DEMO).defs
  {
    DemoIsCollected();
    assert forall s: nat :: s < |DEMO_PATHS| ==> |DEMO_PATHS[s]| >= 2;
  }

  /** Before pruning the reference means `x.T`: the field `a.M.x` is passed over. */
  lemma MeansBefore()
    ensures Collected(DEMO)
    ensures Resolves(FullSpace(DEMO), SCOPE, WRITTEN, Some(Def(3, Message)))
    ensures Innermost(FullSpace(DEMO), SCOPE, WRITTEN, 0)
  {
    FieldBefore();
    TypeBefore();
    NoSymbolX();
    NothingAtAx(set s: nat | s < |DEMO.t.syms| && IsSymbol(DEMO, s), set f: nat | f < |DEMO.pkgs| && IsFile(DEMO, f));
    Passes(FullSpace(DEMO));
  }

  /** A field at `a.M.x`, nothing at `a.x` and a package at `x`: the lookup of `x.T` is anchored at the root. */
  lemma Passes(s: Space)
    requires Lookup(s, DEMO_PATHS[1]) == Some(Def(1, Field)) && ["a", "x"] !in s.nodes
    requires ["x"] in s.nodes && ["x"] !in s.defs && Lookup(s, DEMO_PATHS[3]) == Some(Def(3, Message))
    ensures Innermost(s, SCOPE, WRITTEN, 0) && Resolves(s, SCOPE, WRITTEN, Some(Def(3, Message)))
  {
    assert SCOPE[..2] + ["x"] == DEMO_PATHS[1];
    assert SCOPE[..1] + ["x"] == ["a", "x"];
    assert SCOPE[..0] + ["x"] == ["x"];
    assert SCOPE[..0] + WRITTEN.segs == DEMO_PATHS[3];
    assert !Anchors(s, SCOPE[..2], WRITTEN) && !Anchors(s, SCOPE[..1], WRITTEN) && Anchors(s, SCOPE[..0], WRITTEN);
    assert Innermost(s, SCOPE, WRITTEN, 0);
  }

  lemma LeafUncovered()
    requires Collected(DEMO)
    ensures DEMO_PATHS[1] in SpaceLeft(DEMO, LEFT, FILES).nodes && DEMO_PATHS[1] !in SpaceLeft(DEMO, LEFT, FILES).defs
  {
    assert IsFile(DEMO, 2) && DEMO.pkgs[2][..3] == DEMO_PATHS[1];
    assert !Present(DEMO, LEFT, 1);
  }

  lemma NoSuchType()
    requires Collected(DEMO)
    ensures ["a", "M", "x", "T"] !in SpaceLeft(DEMO, LEFT, FILES).defs
  {
    NamesDiffer();
    var goal: Path := ["a", "M", "x", "T"];
    forall s: nat | s < |DEMO_PATHS|
      ensures DEMO_PATHS[s] != goal
    {
      assert s == 4 ==> DEMO_PATHS[s][3] == "Q";
      assert goal[3] == "T" && |goal| == 4;
    }
  }

  /** Once the field is dropped, `a.M.x` is a bare package: it anchors the lookup and has no `T`. */
  lemma MeansNothingAfter()
    ensures Collected(DEMO)
    ensures Resolves(SpaceLeft(DEMO, LEFT, FILES), SCOPE, WRITTEN, None)
    ensures Shadowed(FullSpace(DEMO), SpaceLeft(DEMO, LEFT, FILES), SCOPE, WRITTEN)
  {
    MeansBefore();
    LeafUncovered();
    NoSuchType();
    FieldBefore();
    Anchored(FullSpace(DEMO), SpaceLeft(DEMO, LEFT, FILES));
  }

  lemma Anchored(s: Space, p: Space)
    requires Innermost(s, SCOPE, WRITTEN, 0) && Lookup(s, DEMO_PATHS[1]) == Some(Def(1, Field))
    requires DEMO_PATHS[1] in p.nodes && DEMO_PATHS[1] !in p.defs && ["a", "M", "x", "T"] !in p.defs
    ensures Resolves(p, SCOPE, WRITTEN, None) && Shadowed(s, p, SCOPE, WRITTEN)
  {
    assert SCOPE[..2] + ["x"] == DEMO_PATHS[1];
    assert SCOPE[..2] + WRITTEN.segs == ["a", "M", "x", "T"];
    assert Anchors(p, SCOPE[..2], WRITTEN);
    assert Innermost(p, SCOPE, WRITTEN, 2);
    assert Exposes(s, p, SCOPE, WRITTEN, 2);
  }

  // ---- the rules that leave these symbols -----------------------------------------------------------------

  const RULES := Rules([Keep, Drop, Keep], [
    [true, false, false], [false, true, false], [false, false, false], [false, false, false], [false, false, true]])

  const DECIDED: Decided := [
    Some(Decision(0, Keep)), Some(Decision(1, Drop)), Some(Decision(0, Keep)), None, Some(Decision(2, Keep))]

  /** Which rules govern each symbol: `a.M` passes its rule on to its fields. */
  lemma DemoGoverned(r: nat)
    requires r < 3
    ensures WellFormed(DEMO_TABLE) && Fits(DEMO_TABLE, RULES)
    ensures Governs(DEMO_TABLE, RULES, r, 0) <==> r == 0
    ensures Governs(DEMO_TABLE, RULES, r, 1) <==> r == 0 || r == 1
    ensures Governs(DEMO_TABLE, RULES, r, 2) <==> r == 0
    ensures !Governs(DEMO_TABLE, RULES, r, 3)
    ensures Governs(DEMO_TABLE, RULES, r, 4) <==> r == 2
  {
    DemoTable();
    GovernsStep(DEMO_TABLE, RULES, 0);
    GovernsStep(DEMO_TABLE, RULES, 1);
    GovernsStep(DEMO_TABLE, RULES, 2);
    GovernsStep(DEMO_TABLE, RULES, 3);
    GovernsStep(DEMO_TABLE, RULES, 4);
  }

  lemma DemoDecision(s: nat)
    requires s < 5
    ensures WellFormed(DEMO_TABLE) && Fits(DEMO_TABLE, RULES) && IsDecision(DEMO_TABLE, RULES, s, DECIDED[s])
  {
    DemoGoverned(0);
    DemoGoverned(1);
    DemoGoverned(2);
    assert |RULES.pols| == 3;
    if s == 3 {
      forall r: nat | r < 3 ensures !Governs(DEMO_TABLE, RULES, r, 3) {
        DemoGoverned(r);
      }
    } else {
      var last := DECIDED[s].value.rule;
      forall r: nat | last < r < 3 ensures !Governs(DEMO_TABLE, RULES, r, s) {
        DemoGoverned(r);
      }
    }
  }

  lemma DemoDecided()
    ensures WellFormed(DEMO_TABLE) && Fits(DEMO_TABLE, RULES) && DecisionsOf(DEMO_TABLE, RULES) == DECIDED
    ensures Inputs(DEMO_TABLE, DECIDED)
  {
    DemoTable();
    DemoDecision(0);
    forall s: nat | s < 5 ensures IsDecision(DEMO_TABLE, RULES, s, DECIDED[s]) {
      DemoDecision(s);
    }
    DecisionUnique(DEMO_TABLE, RULES, DECIDED);
  }

  /** No symbol refers to anything that is excluded. */
  lemma AllFree()
    ensures Inputs(DEMO_TABLE, DECIDED)
    ensures forall s: nat :: s < 5 ==> Free(DEMO_TABLE, DECIDED, s) && !Fails(DEMO_TABLE, DECIDED, s)
  {
    DemoDecided();
    forall s: nat | s < 5 ensures Free(DEMO_TABLE, DECIDED, s) {
      assert s == 2 ==> DEMO_TABLE.refs[s] == [3];
    }
  }

  lemma LeftIsClosed()
    ensures Inputs(DEMO_TABLE, DECIDED) && Closed(DEMO_TABLE, DECIDED, LEFT)
  {
    AllFree();
    forall c: nat | c < 5 && Considered(DEMO_TABLE, DECIDED, LEFT, c) ensures c in LEFT {
    }
  }

  lemma ClosedHoldsLeft(kept: set<nat>)
    requires Inputs(DEMO_TABLE, DECIDED) && Closed(DEMO_TABLE, DECIDED, kept)
    ensures LEFT <= kept
  {
    var t, d := DEMO_TABLE, DECIDED;
    AllFree();
    assert Considered(t, d, kept, 0) && Considered(t, d, kept, 2) && Considered(t, d, kept, 4);
    assert 2 in kept;
    assert 3 in t.refs[2];
    assert Asks(t, d, 2, 3);
    assert Considered(t, d, kept, 3);
  }

  lemma LeftIsLeast()
    ensures Inputs(DEMO_TABLE, DECIDED) && Least(DEMO_TABLE, DECIDED) == LEFT
  {
    LeftIsClosed();
    LeastIsClosed(DEMO_TABLE, DECIDED);
    ClosedHoldsLeft(Least(DEMO_TABLE, DECIDED));
  }

  lemma NothingBelowX(c: nat)
    requires c in LEFT
    ensures WellFormed(DEMO_TABLE) && !StrictAncestor(DEMO_TABLE, 1, c)
  {
    DemoTable();
  }

  lemma DemoMark(s: nat)
    requires s < 5
    ensures Inputs(DEMO_TABLE, DECIDED) && (s in LEFT <==> !MarkOf(DEMO_TABLE, DECIDED, s).Unmarked?)
  {
    LeftIsLeast();
    if s == 1 {
      forall c: nat | c in LEFT ensures !StrictAncestor(DEMO_TABLE, 1, c) {
        NothingBelowX(c);
      }
    }
  }

  lemma RuleLives(r: nat)
    requires r < 3
    ensures Fits(DEMO_TABLE, RULES) && !Dead(DEMO_TABLE, RULES, r)
  {
    var s: nat := if r == 0 then 0 else if r == 1 then 1 else 4;
    assert Effective(DEMO_TABLE, RULES, s, r);
  }

  lemma NoEnums(t: Table, marks: seq<Mark>)
    requires WellFormed(t) && |marks| == |t.syms|
    requires forall s: nat :: s < |t.syms| ==> !t.syms[s].kind.Enum?
    ensures Selection.LegalEnums(t, marks)
  {
  }

  lemma NoDeadRules()
    ensures WellFormed(DEMO_TABLE) && Fits(DEMO_TABLE, RULES)
    ensures forall r: nat :: r < 3 ==> !Dead(DEMO_TABLE, RULES, r)
  {
    DemoTable();
    forall r: nat | r < 3 ensures !Dead(DEMO_TABLE, RULES, r) {
      RuleLives(r);
    }
  }

  lemma DemoSelectable()
    ensures WellFormed(DEMO_TABLE) && Fits(DEMO_TABLE, RULES) && Selection.Selectable(DEMO_TABLE, RULES)
  {
    DemoDecided();
    AllFree();
    NoDeadRules();
    NoEnums(DEMO_TABLE, Selection.MarksOf(DEMO_TABLE, DECIDED));
  }

  /** Selection with these rules succeeds and keeps just the symbols of `LEFT`. */
  lemma LeftIsSelected()
    ensures WellFormed(DEMO_TABLE) && Fits(DEMO_TABLE, RULES) && Selection.Selectable(DEMO_TABLE, RULES)
    ensures Inputs(DEMO_TABLE, DecisionsOf(DEMO_TABLE, RULES))
    ensures forall s: nat :: s < 5 ==>
      (s in LEFT <==> !MarkOf(DEMO_TABLE, DecisionsOf(DEMO_TABLE, RULES), s).Unmarked?)
  {
    DemoSelectable();
    DemoDecided();
    forall s: nat | s < 5 ensures s in LEFT <==> !MarkOf(DEMO_TABLE, DECIDED, s).Unmarked? {
      DemoMark(s);
    }
  }
}
