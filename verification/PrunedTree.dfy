/** What is left of a file parses, and parses to the pruned tree.

  Statements are cut out of the tokens of a file at any depth, and `reserved`
  statements are put before closing braces. The remaining tokens parse to the
  tree with the same statements cut out and added. Module PrunedParse takes the
  cuts from the visitor.
 */
module PrunedTree {
  import opened Symbols
  import opened Syntax
  import opened TextFormat
  import opened Grammar
  import opened GrammarRoundTrip
  import opened NameOrigins
  import opened Locality

  /** What happens to a statement; one with a scope may lose members and get a `reserved` statement. */
  datatype Cut = Gone | Whole | Inside(cuts: seq<Cut>, added: seq<Range>)

  predicate IsBlock(s: Stmt) {
    s.MessageStmt? || s.EnumStmt? || s.OneofStmt? || s.ServiceStmt?
  }

  function InnerScope(s: Stmt): (scope: Scope)
    requires IsBlock(s)
  {
    match s
    case MessageStmt(_, _) => InMessage
    case EnumStmt(_, _) => InEnum
    case OneofStmt(_, _) => InOneof
    case ServiceStmt(_, _) => InService
  }

  /** Only messages and enums reserve numbers. */
  predicate MayAdd(scope: Scope, added: seq<Range>) {
    added != [] ==>
      (scope.InMessage? || scope.InEnum?) && forall i :: 0 <= i < |added| ==> LegalRange(added[i], scope.InEnum?)
  }

  predicate Fits(items: seq<Stmt>, cuts: seq<Cut>)
    decreases items
  {
    |items| == |cuts| && forall i :: 0 <= i < |items| ==> FitsOne(items[i], cuts[i])
  }

  predicate FitsOne(s: Stmt, c: Cut)
    decreases s
  {
    c.Inside? ==> IsBlock(s) && MayAdd(InnerScope(s), c.added) && Fits(s.items, c.cuts)
  }

  // ---- the tree ------------------------------------------------------------------------------------

  function Added(ranges: seq<Range>): (r: seq<Stmt>) {
    if ranges == [] then [] else [RangesStmt(ranges)]
  }

  function WithItems(s: Stmt, items: seq<Stmt>): (r: Stmt)
    requires IsBlock(s)
  {
    match s
    case MessageStmt(name, _) => MessageStmt(name, items)
    case EnumStmt(name, _) => EnumStmt(name, items)
    case OneofStmt(name, _) => OneofStmt(name, items)
    case ServiceStmt(name, _) => ServiceStmt(name, items)
  }

  function CutTree(items: seq<Stmt>, cuts: seq<Cut>): (r: seq<Stmt>)
    requires Fits(items, cuts)
    decreases items
  {
    if items == [] then [] else CutStmt(items[0], cuts[0]) + CutTree(items[1..], cuts[1..])
  }

  function CutStmt(s: Stmt, c: Cut): (r: seq<Stmt>)
    requires FitsOne(s, c)
    decreases s
  {
    match c
    case Gone => []
    case Whole => [s]
    case Inside(cuts, added) => [WithItems(s, CutTree(s.items, cuts) + Added(added))]
  }

  // ---- the tokens -----------------------------------------------------------------------------------

  function PutAdded(ranges: seq<Range>, k: seq<Token>): (r: seq<Token>) {
    if ranges == [] then k else PutStmt(RangesStmt(ranges), k)
  }

  function Keyword(s: Stmt): (w: string)
    requires IsBlock(s)
  {
    match s
    case MessageStmt(_, _) => "message"
    case EnumStmt(_, _) => "enum"
    case OneofStmt(_, _) => "oneof"
    case ServiceStmt(_, _) => "service"
  }

  /** A block statement of the same kind, with the name and the members that were read. */
  function AsBlock(s: Stmt, b: Parsed<(string, seq<Stmt>)>): (r: Parsed<Stmt>)
    requires IsBlock(s)
  {
    match s
    case MessageStmt(_, _) => AsMessage(b)
    case EnumStmt(_, _) => AsEnum(b)
    case OneofStmt(_, _) => AsOneof(b)
    case ServiceStmt(_, _) => AsService(b)
  }

  /** Blocks of this kind belong to the scope. */
  predicate Belongs(scope: Scope, s: Stmt) {
    || (scope.Top? && (s.MessageStmt? || s.EnumStmt? || s.ServiceStmt?))
    || (scope.InMessage? && (s.MessageStmt? || s.EnumStmt? || s.OneofStmt?))
  }

  lemma BlockDispatch(scope: Scope, s: Stmt, x: seq<Token>)
    requires Belongs(scope, s) && AtWord(x, Keyword(s))
    ensures ParseStmt(scope, x) == AsBlock(s, ParseBlock(InnerScope(s), x))
  {
    DefinitionWords();
  }

  lemma BlockKind(scope: Scope, ts: seq<Token>)
    requires ParseStmt(scope, ts).Ok? && IsBlock(ParseStmt(scope, ts).value)
    ensures Belongs(scope, ParseStmt(scope, ts).value) && AtWord(ts, Keyword(ParseStmt(scope, ts).value))
  {
    if !AtWord(ts, "option") {
      match scope
      case Top => TopKind(ts);
      case InMessage => MemberKind(ts);
      case _ =>
    }
  }

  lemma TopKind(ts: seq<Token>)
    requires ParseStmt(Top, ts).Ok? && IsBlock(ParseStmt(Top, ts).value) && !AtWord(ts, "option")
    ensures Belongs(Top, ParseStmt(Top, ts).value) && AtWord(ts, Keyword(ParseStmt(Top, ts).value))
  {
  }

  lemma MemberKind(ts: seq<Token>)
    requires ParseStmt(InMessage, ts).Ok? && IsBlock(ParseStmt(InMessage, ts).value) && !AtWord(ts, "option")
    ensures Belongs(InMessage, ParseStmt(InMessage, ts).value)
    ensures AtWord(ts, Keyword(ParseStmt(InMessage, ts).value))
  {
  }

  /** A block is a keyword, a name, a brace and the statements of its scope. */
  lemma BlockInside(scope: Scope, ts: seq<Token>)
    requires ParseStmt(scope, ts).Ok? && IsBlock(ParseStmt(scope, ts).value)
    ensures |ts| >= 3
    ensures
      var s := ParseStmt(scope, ts);
      ParseStmts(InnerScope(s.value), ts[3..]) == Ok(s.value.items, s.rest)
  {
    BlockKind(scope, ts);
    BlockDispatch(scope, ParseStmt(scope, ts).value, ts);
  }

  /** The tokens of a scope after the cuts, with `k` behind its brace; empty statements stay. */
  function CutTokens(scope: Scope, ts: seq<Token>, cuts: seq<Cut>, added: seq<Range>, k: seq<Token>): (r: seq<Token>)
    requires ParseStmts(scope, ts).Ok? && Fits(ParseStmts(scope, ts).value, cuts)
    decreases |ts|, 1
  {
    if At(ts, ';') then [Punct(';')] + CutTokens(scope, ts[1..], cuts, added, k)
    else if scope.Top? && ts == [] then k
    else if !scope.Top? && At(ts, '}') then PutAdded(added, [Punct('}')] + k)
    else
      var s := ParseStmt(scope, ts);
      assert ParseStmts(scope, ts).value[1..] == ParseStmts(scope, s.rest).value;
      CutOwn(scope, ts, cuts[0], CutTokens(scope, s.rest, cuts[1..], added, k))
  }

  function CutOwn(scope: Scope, ts: seq<Token>, c: Cut, k: seq<Token>): (r: seq<Token>)
    requires ParseStmt(scope, ts).Ok? && FitsOne(ParseStmt(scope, ts).value, c)
    decreases |ts|, 0
  {
    var s := ParseStmt(scope, ts);
    match c
    case Gone => k
    case Whole => ts[..|ts| - |s.rest|] + k
    case Inside(cuts, added) =>
      BlockInside(scope, ts);
      ts[..3] + CutTokens(InnerScope(s.value), ts[3..], cuts, added, k)
  }

  // ---- the tokens parse to the tree --------------------------------------------------------------------

  lemma OtherBlock(inner: Scope, ts: seq<Token>, x: seq<Token>, items: seq<Stmt>, k: seq<Token>)
    requires |ts| >= 3 && |x| >= 3 && x[..3] == ts[..3] && ParseBlock(inner, ts).Ok?
    requires ParseStmts(inner, x[3..]) == Ok(items, k)
    ensures x[0] == ts[0] && ParseBlock(inner, x) == Ok((ParseBlock(inner, ts).value.0, items), k)
  {
    FirstThree(ts, x);
  }

  /** With another body in its braces, a block is the same statement with other members. */
  lemma OtherBody(scope: Scope, ts: seq<Token>, x: seq<Token>, items: seq<Stmt>, k: seq<Token>)
    requires ParseStmt(scope, ts).Ok? && IsBlock(ParseStmt(scope, ts).value)
    requires |ts| >= 3 && |x| >= 3 && x[..3] == ts[..3]
    requires ParseStmts(InnerScope(ParseStmt(scope, ts).value), x[3..]) == Ok(items, k)
    ensures ParseStmt(scope, x) == Ok(WithItems(ParseStmt(scope, ts).value, items), k)
    ensures x[0] == ts[0]
  {
    var s := ParseStmt(scope, ts).value;
    BlockKind(scope, ts);
    BlockDispatch(scope, s, ts);
    OtherBlock(InnerScope(s), ts, x, items, k);
    BlockDispatch(scope, s, x);
  }

  lemma {:induction false} OwnParses(scope: Scope, ts: seq<Token>, c: Cut, k: seq<Token>)
    requires ParseStmt(scope, ts).Ok? && FitsOne(ParseStmt(scope, ts).value, c) && !c.Gone?
    ensures
      var x := CutOwn(scope, ts, c, k);
      x != [] && x[0] == ts[0] && ParseStmt(scope, x) == Ok(CutStmt(ParseStmt(scope, ts).value, c)[0], k)
    decreases |ts|, 0
  {
    var s, x := ParseStmt(scope, ts), CutOwn(scope, ts, c, k);
    match c
    case Whole => StmtLocal(scope, ts, k);
    case Inside(cuts, added) =>
      BlockInside(scope, ts);
      ScopeParses(InnerScope(s.value), ts[3..], cuts, added, k);
      assert x[..3] == ts[..3] && x[3..] == CutTokens(InnerScope(s.value), ts[3..], cuts, added, k);
      OtherBody(scope, ts, x, CutTree(s.value.items, cuts) + Added(added), k);
  }

  /** At the closing brace the added statement is read first. */
  lemma EndParses(scope: Scope, added: seq<Range>, k: seq<Token>)
    requires !scope.Top? && MayAdd(scope, added)
    ensures ParseStmts(scope, PutAdded(added, [Punct('}')] + k)) == Ok(Added(added), k)
  {
    var close := [Punct('}')] + k;
    Tail(Punct('}'), k);
    if added != [] {
      StmtBack(scope, RangesStmt(added), close);
      assert [RangesStmt(added)] + [] == [RangesStmt(added)];
    }
  }

  /** What is left of a scope parses to its pruned members and the added statement, whatever follows. */
  lemma {:induction false} ScopeParses(scope: Scope, ts: seq<Token>, cuts: seq<Cut>, added: seq<Range>, k: seq<Token>)
    requires ParseStmts(scope, ts).Ok? && Fits(ParseStmts(scope, ts).value, cuts) && MayAdd(scope, added)
    requires scope.Top? ==> k == []
    ensures ParseStmts(scope, CutTokens(scope, ts, cuts, added, k))
      == Ok(CutTree(ParseStmts(scope, ts).value, cuts) + Added(added), k)
    decreases |ts|, 2
  {
    var x := CutTokens(scope, ts, cuts, added, k);
    if At(ts, ';') {
      ScopeParses(scope, ts[1..], cuts, added, k);
      assert x[1..] == CutTokens(scope, ts[1..], cuts, added, k);
    } else if scope.Top? && ts == [] {
      assert CutTree([], cuts) + Added(added) == [];
    } else if !scope.Top? && At(ts, '}') {
      EndParses(scope, added, k);
      assert CutTree([], cuts) + Added(added) == Added(added);
    } else {
      StatementParses(scope, ts, cuts, added, k);
    }
  }

  lemma {:induction false} StatementParses(scope: Scope, ts: seq<Token>, cuts: seq<Cut>, added: seq<Range>, k: seq<Token>)
    requires ParseStmts(scope, ts).Ok? && Fits(ParseStmts(scope, ts).value, cuts) && MayAdd(scope, added)
    requires scope.Top? ==> k == []
    requires ts != [] && ts[0] != Punct(';') && (scope.Top? || ts[0] != Punct('}'))
    ensures ParseStmts(scope, CutTokens(scope, ts, cuts, added, k))
      == Ok(CutTree(ParseStmts(scope, ts).value, cuts) + Added(added), k)
    decreases |ts|, 1
  {
    var s := ParseStmt(scope, ts);
    StmtsUnfold(scope, ts);
    var items := ParseStmts(scope, s.rest).value;
    ConsFits(s.value, items, cuts);
    var later := CutTokens(scope, s.rest, cuts[1..], added, k);
    ScopeParses(scope, s.rest, cuts[1..], added, k);
    CutStep(scope, ts, cuts, added, k);
    var first, rest := CutStmt(s.value, cuts[0]), CutTree(items, cuts[1..]);
    assert first + (rest + Added(added)) == first + rest + Added(added);
    if cuts[0].Gone? {
      assert [] + (rest + Added(added)) == rest + Added(added);
    } else {
      OwnParses(scope, ts, cuts[0], later);
      FirstThenRest(scope, CutOwn(scope, ts, cuts[0], later), first, rest + Added(added), later, k);
    }
  }

  lemma CutStep(scope: Scope, ts: seq<Token>, cuts: seq<Cut>, added: seq<Range>, k: seq<Token>)
    requires ParseStmts(scope, ts).Ok? && Fits(ParseStmts(scope, ts).value, cuts)
    requires ts != [] && ts[0] != Punct(';') && (scope.Top? || ts[0] != Punct('}'))
    ensures ParseStmt(scope, ts).Ok?
    ensures
      var rest := ParseStmt(scope, ts).rest;
      && ParseStmts(scope, rest).Ok? && cuts != []
      && FitsOne(ParseStmt(scope, ts).value, cuts[0]) && Fits(ParseStmts(scope, rest).value, cuts[1..])
      && CutTokens(scope, ts, cuts, added, k)
         == CutOwn(scope, ts, cuts[0], CutTokens(scope, rest, cuts[1..], added, k))
  {
    StmtsUnfold(scope, ts);
    ConsFits(ParseStmt(scope, ts).value, ParseStmts(scope, ParseStmt(scope, ts).rest).value, cuts);
  }

  lemma ConsFits(s: Stmt, items: seq<Stmt>, cuts: seq<Cut>)
    requires Fits([s] + items, cuts)
    ensures cuts != [] && FitsOne(s, cuts[0]) && Fits(items, cuts[1..])
    ensures CutTree([s] + items, cuts) == CutStmt(s, cuts[0]) + CutTree(items, cuts[1..])
  {
    var all := [s] + items;
    assert all[0] == s && all[1..] == items;
    assert FitsOne(all[0], cuts[0]);
    forall i | 0 <= i < |items| ensures FitsOne(items[i], cuts[1..][i]) {
      assert FitsOne(all[i + 1], cuts[i + 1]);
    }
  }

  lemma FirstThenRest(scope: Scope, x: seq<Token>, first: seq<Stmt>, rest: seq<Stmt>, later: seq<Token>, k: seq<Token>)
    requires x != [] && x[0] != Punct(';') && (scope.Top? || x[0] != Punct('}')) && |first| == 1
    requires ParseStmt(scope, x) == Ok(first[0], later) && ParseStmts(scope, later) == Ok(rest, k)
    ensures ParseStmts(scope, x) == Ok(first + rest, k)
  {
    StmtsUnfold(scope, x);
    assert first == [first[0]];
  }

  // ---- a whole file ---------------------------------------------------------------------------------------

  lemma {:induction false} LeftOver(items: seq<Stmt>, cuts: seq<Cut>)
    requires Fits(items, cuts)
    ensures forall s :: s in CutTree(items, cuts) ==>
      exists i :: 0 <= i < |items| && s.SyntaxStmt? == items[i].SyntaxStmt? && s.PackageStmt? == items[i].PackageStmt?
  {
    if items != [] {
      LeftOver(items[1..], cuts[1..]);
      forall s | s in CutTree(items, cuts)
        ensures exists i :: 0 <= i < |items| && s.SyntaxStmt? == items[i].SyntaxStmt?
                            && s.PackageStmt? == items[i].PackageStmt?
      {
        if s in CutTree(items[1..], cuts[1..]) {
          var i :| 0 <= i < |items[1..]| && s.SyntaxStmt? == items[1..][i].SyntaxStmt?
                   && s.PackageStmt? == items[1..][i].PackageStmt?;
          assert items[i + 1] == items[1..][i];
        } else {
          assert s in CutStmt(items[0], cuts[0]);
        }
      }
    }
  }

  predicate OnePackage(items: seq<Stmt>) {
    forall i, j :: 0 <= i < j < |items| ==> !(items[i].PackageStmt? && items[j].PackageStmt?)
  }

  lemma {:induction false} OnePackageLeft(items: seq<Stmt>, cuts: seq<Cut>)
    requires Fits(items, cuts) && OnePackage(items)
    ensures OnePackage(CutTree(items, cuts))
  {
    if items != [] {
      var rest := CutTree(items[1..], cuts[1..]);
      OnePackageLeft(items[1..], cuts[1..]);
      LeftOver(items[1..], cuts[1..]);
      if items[0].PackageStmt? {
        forall s | s in rest ensures !s.PackageStmt? {
          var i :| 0 <= i < |items[1..]| && s.SyntaxStmt? == items[1..][i].SyntaxStmt?
                   && s.PackageStmt? == items[1..][i].PackageStmt?;
          assert items[i + 1] == items[1..][i];
        }
        assert forall i :: 0 <= i < |rest| ==> rest[i] in rest;
      }
    }
  }

  /** The file rules survive the cuts if the first statement stays. */
  lemma RulesLeft(items: seq<Stmt>, cuts: seq<Cut>)
    requires Fits(items, cuts) && FileRules(items) && cuts[0].Whole?
    ensures FileRules(CutTree(items, cuts))
  {
    var rest := CutTree(items[1..], cuts[1..]);
    LeftOver(items[1..], cuts[1..]);
    OnePackageLeft(items, cuts);
    assert CutTree(items, cuts) == [items[0]] + rest;
    forall s | s in rest ensures !s.SyntaxStmt? {
      var i :| 0 <= i < |items[1..]| && s.SyntaxStmt? == items[1..][i].SyntaxStmt?
               && s.PackageStmt? == items[1..][i].PackageStmt?;
      assert items[i + 1] == items[1..][i];
    }
    assert forall i :: 0 <= i < |rest| ==> rest[i] in rest;
  }

  /** What is left of a file parses to the pruned tree, whichever statements are cut out. */
  lemma CutFileParses(ts: seq<Token>, cuts: seq<Cut>)
    requires ParseFile(ts).Some? && Fits(ParseFile(ts).value, cuts) && cuts[0].Whole?
    ensures ParseFile(CutTokens(Top, ts, cuts, [], [])) == Some(CutTree(ParseFile(ts).value, cuts))
  {
    var items := ParseFile(ts).value;
    ScopeParses(Top, ts, cuts, [], []);
    assert CutTree(items, cuts) + [] == CutTree(items, cuts);
    RulesLeft(items, cuts);
  }
}
