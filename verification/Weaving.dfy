/** The tokens that cuts leave, one by one.

  Module PrunedTree cuts statements out of a file as it parses. Here the same
  cuts are described by positions: every token of the file gets a row, which
  holds the token unless it goes, behind whatever is put in front of it. One
  row behind the other, the rows are the tokens that the cuts leave.
 */
module Weaving {
  import opened Symbols
  import opened Syntax
  import opened TextFormat
  import opened Grammar
  import opened GrammarRoundTrip
  import opened NameOrigins
  import opened Locality
  import opened PrunedTree

  /** A statement by its tokens: an empty one, one without a scope, or a keyword, a name and a brace, the statements
    of the scope and its closing brace. */
  datatype Piece = Semi | Plain(n: nat) | Block(inside: seq<Piece>)

  function Size(p: Piece): (n: nat)
    decreases p
  {
    match p
    case Semi => 1
    case Plain(n) => n
    case Block(inside) => Sizes(inside) + 4
  }

  function Sizes(ps: seq<Piece>): (n: nat)
    decreases ps
  {
    if ps == [] then 0 else Size(ps[0]) + Sizes(ps[1..])
  }

  // ---- rows ----------------------------------------------------------------------------------------

  /** There is a cut for every statement that is not empty, and cuts inside scopes only. */
  predicate Suits(ps: seq<Piece>, cuts: seq<Cut>)
    decreases ps
  {
    if ps == [] then cuts == []
    else if ps[0].Semi? then Suits(ps[1..], cuts)
    else cuts != [] && SuitsOne(ps[0], cuts[0]) && Suits(ps[1..], cuts[1..])
  }

  predicate SuitsOne(p: Piece, c: Cut)
    decreases p
  {
    c.Inside? ==> p.Block? && Suits(p.inside, c.cuts)
  }

  function Rows(ps: seq<Piece>, cuts: seq<Cut>, toks: seq<Token>): (r: seq<seq<Token>>)
    requires Suits(ps, cuts) && |toks| == Sizes(ps)
    ensures |r| == |toks|
    decreases ps
  {
    if ps == [] then []
    else if ps[0].Semi? then [[toks[0]]] + Rows(ps[1..], cuts, toks[1..])
    else OneRow(ps[0], cuts[0], toks[..Size(ps[0])]) + Rows(ps[1..], cuts[1..], toks[Size(ps[0])..])
  }

  function OneRow(p: Piece, c: Cut, toks: seq<Token>): (r: seq<seq<Token>>)
    requires SuitsOne(p, c) && |toks| == Size(p)
    ensures |r| == |toks|
    decreases p
  {
    match c
    case Gone => Nothing(|toks|)
    case Whole => Singles(toks)
    case Inside(cuts, added) =>
      var n := |toks| - 1;
      Singles(toks[..3]) + Rows(p.inside, cuts, toks[3..n]) + [PutAdded(added, []) + [toks[n]]]
  }

  function Nothing(n: nat): (r: seq<seq<Token>>)
    ensures |r| == n
  {
    seq(n, _ => [])
  }

  function Singles(toks: seq<Token>): (r: seq<seq<Token>>)
    ensures |r| == |toks|
  {
    seq(|toks|, i requires 0 <= i < |toks| => [toks[i]])
  }

  /** The rows one behind the other, and `k` behind them. */
  function Laid(rows: seq<seq<Token>>, k: seq<Token>): (r: seq<Token>) {
    if rows == [] then k else rows[0] + Laid(rows[1..], k)
  }

  lemma {:induction false} LaidMore(a: seq<seq<Token>>, b: seq<seq<Token>>, k: seq<Token>)
    ensures Laid(a + b, k) == Laid(a, Laid(b, k))
  {
    if a == [] {
      assert a + b == b;
    } else {
      assert (a + b)[0] == a[0] && (a + b)[1..] == a[1..] + b;
      LaidMore(a[1..], b, k);
    }
  }

  lemma {:induction false} LaidOne(row: seq<Token>, k: seq<Token>)
    ensures Laid([row], k) == row + k
  {
    assert [row][1..] == [];
  }

  lemma {:induction false} LaidNothing(n: nat, k: seq<Token>)
    ensures Laid(Nothing(n), k) == k
  {
    if n > 0 {
      assert Nothing(n)[1..] == Nothing(n - 1);
      LaidNothing(n - 1, k);
    }
  }

  lemma {:induction false} LaidSingles(toks: seq<Token>, k: seq<Token>)
    ensures Laid(Singles(toks), k) == toks + k
  {
    if toks != [] {
      assert Singles(toks)[1..] == Singles(toks[1..]);
      LaidSingles(toks[1..], k);
      assert toks + k == [toks[0]] + (toks[1..] + k);
    } else {
      assert Singles(toks) == [];
    }
  }

  // ---- the pieces of a parse --------------------------------------------------------------------------

  /** How many tokens the next statement has. */
  function Length(scope: Scope, ts: seq<Token>): (n: nat)
    requires ParseStmt(scope, ts).Ok?
    ensures n > 0
  {
    |ts| - |ParseStmt(scope, ts).rest|
  }

  function PiecesOf(scope: Scope, ts: seq<Token>): (r: seq<Piece>)
    requires ParseStmts(scope, ts).Ok?
    decreases |ts|, 1
  {
    if At(ts, ';') then [Semi] + PiecesOf(scope, ts[1..])
    else if (scope.Top? && ts == []) || (!scope.Top? && At(ts, '}')) then []
    else [PieceOf(scope, ts)] + PiecesOf(scope, ParseStmt(scope, ts).rest)
  }

  function PieceOf(scope: Scope, ts: seq<Token>): (p: Piece)
    requires ParseStmt(scope, ts).Ok?
    ensures !p.Semi?
    decreases |ts|, 0
  {
    if IsBlock(ParseStmt(scope, ts).value) then
      BlockInside(scope, ts);
      Block(PiecesOf(InnerScope(ParseStmt(scope, ts).value), ts[3..]))
    else Plain(Length(scope, ts))
  }

  /** What stands behind the statements of a scope: its brace, or nothing. */
  predicate Ends(scope: Scope, ts: seq<Token>, n: nat) {
    if scope.Top? then |ts| == n else n < |ts| && ts[n] == Punct('}')
  }

  lemma {:induction false} StmtTail(scope: Scope, ts: seq<Token>)
    requires ParseStmt(scope, ts).Ok?
    ensures Length(scope, ts) <= |ts| && ParseStmt(scope, ts).rest == ts[Length(scope, ts)..]
  {
    StmtLocal(scope, ts, []);
  }

  /** The pieces of a scope, one step. */
  lemma {:induction false} PiecesStep(scope: Scope, ts: seq<Token>)
    requires ParseStmts(scope, ts).Ok?
    requires ts != [] && ts[0] != Punct(';') && (scope.Top? || ts[0] != Punct('}'))
    ensures ParseStmt(scope, ts).Ok? && Length(scope, ts) <= |ts|
    ensures ParseStmt(scope, ts).rest == ts[Length(scope, ts)..] && ParseStmts(scope, ts[Length(scope, ts)..]).Ok?
    ensures PiecesOf(scope, ts) == [PieceOf(scope, ts)] + PiecesOf(scope, ts[Length(scope, ts)..])
  {
    StmtTail(scope, ts);
  }

  /** The pieces of a block. */
  lemma {:induction false} PieceInside(scope: Scope, ts: seq<Token>)
    requires ParseStmt(scope, ts).Ok? && IsBlock(ParseStmt(scope, ts).value)
    ensures |ts| >= 3
    ensures
      var s := ParseStmt(scope, ts);
      && ParseStmts(InnerScope(s.value), ts[3..]) == Ok(s.value.items, s.rest)
      && PieceOf(scope, ts) == Block(PiecesOf(InnerScope(s.value), ts[3..]))
  {
    BlockInside(scope, ts);
  }

  lemma {:induction false} PiecesEnd(scope: Scope, ts: seq<Token>)
    requires ParseStmts(scope, ts).Ok?
    ensures Ends(scope, ts, Sizes(PiecesOf(scope, ts)))
    ensures !scope.Top? ==> |ParseStmts(scope, ts).rest| + Sizes(PiecesOf(scope, ts)) + 1 == |ts|
    decreases |ts|, 1
  {
    var ps := PiecesOf(scope, ts);
    if At(ts, ';') {
      PiecesEnd(scope, ts[1..]);
      assert ps[0] == Semi && ps[1..] == PiecesOf(scope, ts[1..]);
    } else if !((scope.Top? && ts == []) || (!scope.Top? && At(ts, '}'))) {
      PiecesStep(scope, ts);
      PieceSize(scope, ts);
      PiecesEnd(scope, ts[Length(scope, ts)..]);
      StepEnds(scope, ts);
    }
  }

  lemma {:induction false} StepEnds(scope: Scope, ts: seq<Token>)
    requires ParseStmts(scope, ts).Ok? && ParseStmt(scope, ts).Ok? && Length(scope, ts) <= |ts|
    requires ts != [] && ts[0] != Punct(';') && (scope.Top? || ts[0] != Punct('}'))
    requires
      var n, rest := Length(scope, ts), ts[Length(scope, ts)..];
      && ParseStmt(scope, ts).rest == rest && ParseStmts(scope, rest).Ok? && Size(PieceOf(scope, ts)) == n
      && PiecesOf(scope, ts) == [PieceOf(scope, ts)] + PiecesOf(scope, rest)
      && Ends(scope, rest, Sizes(PiecesOf(scope, rest)))
      && (!scope.Top? ==> |ParseStmts(scope, rest).rest| + Sizes(PiecesOf(scope, rest)) + 1 == |rest|)
    ensures Ends(scope, ts, Sizes(PiecesOf(scope, ts)))
    ensures !scope.Top? ==> |ParseStmts(scope, ts).rest| + Sizes(PiecesOf(scope, ts)) + 1 == |ts|
  {
    var ps := PiecesOf(scope, ts);
    StmtsUnfold(scope, ts);
    assert ps[0] == PieceOf(scope, ts) && ps[1..] == PiecesOf(scope, ts[Length(scope, ts)..]);
  }

  lemma {:induction false} PieceSize(scope: Scope, ts: seq<Token>)
    requires ParseStmt(scope, ts).Ok?
    ensures Size(PieceOf(scope, ts)) == Length(scope, ts)
    decreases |ts|, 0
  {
    if IsBlock(ParseStmt(scope, ts).value) {
      PieceInside(scope, ts);
      PiecesEnd(InnerScope(ParseStmt(scope, ts).value), ts[3..]);
    }
  }

  // ---- the rows are what the cuts leave ----------------------------------------------------------------------

  /** Behind the statements of a scope stand the added statement, the brace and what follows. */
  function Ending(scope: Scope, added: seq<Range>, k: seq<Token>): (r: seq<Token>) {
    if scope.Top? then k else PutAdded(added, [Punct('}')] + k)
  }

  lemma {:induction false} EndThen(r: Range, k: seq<Token>)
    ensures PutRange(r, k) == PutRange(r, []) + k
  {
  }

  lemma {:induction false} CommaThen(r: Range, later: seq<Token>, k: seq<Token>)
    ensures PutRange(r, [Punct(',')] + (later + k)) == PutRange(r, [Punct(',')] + later) + k
  {
    var a, b, start := [Punct(',')] + (later + k), [Punct(',')] + later, PutRange(r, []);
    EndThen(r, a);
    EndThen(r, b);
    assert start + a == start + b + k;
  }

  lemma {:induction false} RangesStep(ranges: seq<Range>, k: seq<Token>)
    requires ranges != []
    ensures PutRanges(ranges, k)
      == PutRange(ranges[0], if |ranges| == 1 then k else [Punct(',')] + PutRanges(ranges[1..], k))
  {
  }

  lemma {:induction false} AddedRanges(ranges: seq<Range>, k: seq<Token>)
    ensures PutRanges(ranges, k) == PutRanges(ranges, []) + k
  {
    if ranges != [] {
      RangesStep(ranges, k);
      RangesStep(ranges, []);
      if |ranges| == 1 {
        EndThen(ranges[0], k);
      } else {
        AddedRanges(ranges[1..], k);
        CommaThen(ranges[0], PutRanges(ranges[1..], []), k);
      }
    }
  }

  lemma {:induction false} AddedThen(ranges: seq<Range>, k: seq<Token>)
    ensures PutAdded(ranges, k) == PutAdded(ranges, []) + k
  {
    AddedRanges(ranges, [Punct(';')] + k);
    AddedRanges(ranges, [Punct(';')] + []);
  }

  /** The statement itself, without what follows it. */
  function Own(scope: Scope, ts: seq<Token>): (r: seq<Token>)
    requires ParseStmt(scope, ts).Ok?
  {
    if Length(scope, ts) <= |ts| then ts[..Length(scope, ts)] else ts
  }

  /** The statements of a scope, without its end. */
  function Body(scope: Scope, ts: seq<Token>): (r: seq<Token>)
    requires ParseStmts(scope, ts).Ok?
  {
    if Sizes(PiecesOf(scope, ts)) <= |ts| then ts[..Sizes(PiecesOf(scope, ts))] else ts
  }

  /** The cuts leave the rows. */
  ghost predicate Woven(scope: Scope, ts: seq<Token>, cuts: seq<Cut>, added: seq<Range>, k: seq<Token>)
    requires ParseStmts(scope, ts).Ok? && Fits(ParseStmts(scope, ts).value, cuts)
  {
    && Suits(PiecesOf(scope, ts), cuts) && |Body(scope, ts)| == Sizes(PiecesOf(scope, ts))
    && CutTokens(scope, ts, cuts, added, k)
       == Laid(Rows(PiecesOf(scope, ts), cuts, Body(scope, ts)), Ending(scope, added, k))
  }

  ghost predicate OwnWoven(scope: Scope, ts: seq<Token>, c: Cut, k: seq<Token>)
    requires ParseStmt(scope, ts).Ok? && FitsOne(ParseStmt(scope, ts).value, c)
  {
    && SuitsOne(PieceOf(scope, ts), c) && |Own(scope, ts)| == Size(PieceOf(scope, ts))
    && CutOwn(scope, ts, c, k) == Laid(OneRow(PieceOf(scope, ts), c, Own(scope, ts)), k)
  }

  lemma {:induction false} EmptyLaid(ps: seq<Piece>, cuts: seq<Cut>, toks: seq<Token>, k: seq<Token>)
    requires ps != [] && ps[0].Semi? && Suits(ps[1..], cuts) && |toks| == Sizes(ps)
    ensures Suits(ps, cuts)
    ensures Laid(Rows(ps, cuts, toks), k) == [toks[0]] + Laid(Rows(ps[1..], cuts, toks[1..]), k)
  {
    LaidMore([[toks[0]]], Rows(ps[1..], cuts, toks[1..]), k);
    LaidOne([toks[0]], Laid(Rows(ps[1..], cuts, toks[1..]), k));
  }

  lemma {:induction false} FirstLaid(ps: seq<Piece>, cuts: seq<Cut>, own: seq<Token>, rest: seq<Token>, k: seq<Token>)
    requires ps != [] && !ps[0].Semi? && cuts != [] && SuitsOne(ps[0], cuts[0]) && Suits(ps[1..], cuts[1..])
    requires |own| == Size(ps[0]) && |rest| == Sizes(ps[1..])
    ensures Suits(ps, cuts)
    ensures Laid(Rows(ps, cuts, own + rest), k)
      == Laid(OneRow(ps[0], cuts[0], own), Laid(Rows(ps[1..], cuts[1..], rest), k))
  {
    assert (own + rest)[..|own|] == own && (own + rest)[|own|..] == rest;
    LaidMore(OneRow(ps[0], cuts[0], own), Rows(ps[1..], cuts[1..], rest), k);
  }

  /** The rows of a scope that is cut inside: those of `body`, the tokens between its braces, and of its frame. */
  function Framed(toks: seq<Token>, rows: seq<seq<Token>>, added: seq<Range>): (r: seq<seq<Token>>)
    requires |toks| > 3
  {
    Singles(toks[..3]) + rows + [PutAdded(added, []) + [toks[|toks| - 1]]]
  }

  lemma {:induction false} InsideRows(p: Piece, cuts: seq<Cut>, added: seq<Range>, toks: seq<Token>, body: seq<Token>)
    requires p.Block? && Suits(p.inside, cuts) && |toks| == Sizes(p.inside) + 4 && body == toks[3..|toks| - 1]
    ensures SuitsOne(p, Inside(cuts, added))
    ensures OneRow(p, Inside(cuts, added), toks) == Framed(toks, Rows(p.inside, cuts, body), added)
  {
  }

  lemma {:induction false} ThreeLaid(head: seq<Token>, rows: seq<seq<Token>>, last: seq<Token>, k: seq<Token>)
    ensures Laid(Singles(head) + rows + [last], k) == head + Laid(rows, last + k)
  {
    LaidMore(Singles(head) + rows, [last], k);
    LaidMore(Singles(head), rows, Laid([last], k));
    LaidSingles(head, Laid(rows, Laid([last], k)));
    LaidOne(last, k);
  }

  lemma {:induction false} LastRow(added: seq<Range>, brace: Token, k: seq<Token>)
    ensures PutAdded(added, []) + [brace] + k == PutAdded(added, [brace] + k)
  {
    AddedThen(added, [brace] + k);
    assert PutAdded(added, []) + [brace] + k == PutAdded(added, []) + ([brace] + k);
  }

  /** Three tokens, what is left between the braces, and the brace behind what is added. */
  lemma {:induction false} FramedLaid(toks: seq<Token>, rows: seq<seq<Token>>, added: seq<Range>, k: seq<Token>)
    requires |toks| > 3 && toks[|toks| - 1] == Punct('}')
    ensures Laid(Framed(toks, rows, added), k) == toks[..3] + Laid(rows, PutAdded(added, [Punct('}')] + k))
  {
    ThreeLaid(toks[..3], rows, PutAdded(added, []) + [toks[|toks| - 1]], k);
    LastRow(added, toks[|toks| - 1], k);
  }

  /** The rows of a scope, one behind the other, are the tokens that the cuts leave of it. */
  lemma {:induction false} ScopeWoven(scope: Scope, ts: seq<Token>, cuts: seq<Cut>, added: seq<Range>, k: seq<Token>)
    requires ParseStmts(scope, ts).Ok? && Fits(ParseStmts(scope, ts).value, cuts)
    ensures Woven(scope, ts, cuts, added, k)
    decreases |ts|, 2
  {
    PiecesEnd(scope, ts);
    if At(ts, ';') {
      PiecesEnd(scope, ts[1..]);
      ScopeWoven(scope, ts[1..], cuts, added, k);
      SemiWoven(scope, ts, cuts, added, k);
    } else if (scope.Top? && ts == []) || (!scope.Top? && At(ts, '}')) {
      EndWoven(scope, ts, cuts, added, k);
    } else {
      FirstWoven(scope, ts, cuts, added, k);
    }
  }

  lemma {:induction false} EndWoven(scope: Scope, ts: seq<Token>, cuts: seq<Cut>, added: seq<Range>, k: seq<Token>)
    requires ParseStmts(scope, ts).Ok? && Fits(ParseStmts(scope, ts).value, cuts)
    requires (scope.Top? && ts == []) || (!scope.Top? && At(ts, '}'))
    ensures Woven(scope, ts, cuts, added, k)
  {
  }

  lemma {:induction false} SemiWoven(scope: Scope, ts: seq<Token>, cuts: seq<Cut>, added: seq<Range>, k: seq<Token>)
    requires ParseStmts(scope, ts).Ok? && Fits(ParseStmts(scope, ts).value, cuts) && At(ts, ';')
    requires Woven(scope, ts[1..], cuts, added, k)
    requires Sizes(PiecesOf(scope, ts)) <= |ts| && Sizes(PiecesOf(scope, ts[1..])) <= |ts| - 1
    ensures Woven(scope, ts, cuts, added, k)
  {
    var ps, rest := PiecesOf(scope, ts), PiecesOf(scope, ts[1..]);
    assert ps[0] == Semi && ps[1..] == rest;
    assert Body(scope, ts)[1..] == Body(scope, ts[1..]);
    EmptyLaid(ps, cuts, Body(scope, ts), Ending(scope, added, k));
  }

  lemma {:induction false} FirstWoven(scope: Scope, ts: seq<Token>, cuts: seq<Cut>, added: seq<Range>, k: seq<Token>)
    requires ParseStmts(scope, ts).Ok? && Fits(ParseStmts(scope, ts).value, cuts)
    requires ts != [] && ts[0] != Punct(';') && (scope.Top? || ts[0] != Punct('}'))
    ensures Woven(scope, ts, cuts, added, k)
    decreases |ts|, 1
  {
    PiecesStep(scope, ts);
    CutStep(scope, ts, cuts, added, k);
    var rest := ts[Length(scope, ts)..];
    var later := CutTokens(scope, rest, cuts[1..], added, k);
    PiecesEnd(scope, rest);
    ScopeWoven(scope, rest, cuts[1..], added, k);
    OwnIsWoven(scope, ts, cuts[0], later);
    FirstAndRest(scope, ts, cuts, added, k);
  }

  lemma {:induction false} FirstAndRest(scope: Scope, ts: seq<Token>, cuts: seq<Cut>, added: seq<Range>, k: seq<Token>)
    requires ParseStmts(scope, ts).Ok? && Fits(ParseStmts(scope, ts).value, cuts) && cuts != []
    requires ParseStmt(scope, ts).Ok? && Length(scope, ts) <= |ts| && FitsOne(ParseStmt(scope, ts).value, cuts[0])
    requires ParseStmts(scope, ts[Length(scope, ts)..]).Ok?
    requires Fits(ParseStmts(scope, ts[Length(scope, ts)..]).value, cuts[1..])
    requires PiecesOf(scope, ts) == [PieceOf(scope, ts)] + PiecesOf(scope, ts[Length(scope, ts)..])
    requires Sizes(PiecesOf(scope, ts[Length(scope, ts)..])) <= |ts| - Length(scope, ts)
    requires Woven(scope, ts[Length(scope, ts)..], cuts[1..], added, k)
    requires
      var later := CutTokens(scope, ts[Length(scope, ts)..], cuts[1..], added, k);
      OwnWoven(scope, ts, cuts[0], later) && CutTokens(scope, ts, cuts, added, k) == CutOwn(scope, ts, cuts[0], later)
    ensures Woven(scope, ts, cuts, added, k)
  {
    var ps, rest := PiecesOf(scope, ts), ts[Length(scope, ts)..];
    assert ps[0] == PieceOf(scope, ts) && ps[1..] == PiecesOf(scope, rest);
    FirstLaid(ps, cuts, Own(scope, ts), Body(scope, rest), Ending(scope, added, k));
    assert Body(scope, ts) == Own(scope, ts) + Body(scope, rest);
  }

  lemma {:induction false} OwnIsWoven(scope: Scope, ts: seq<Token>, c: Cut, k: seq<Token>)
    requires ParseStmt(scope, ts).Ok? && FitsOne(ParseStmt(scope, ts).value, c)
    ensures OwnWoven(scope, ts, c, k)
    decreases |ts|, 0
  {
    StmtTail(scope, ts);
    PieceSize(scope, ts);
    if c.Inside? {
      var inner := InnerScope(ParseStmt(scope, ts).value);
      PieceInside(scope, ts);
      ScopeWoven(inner, ts[3..], c.cuts, c.added, k);
      InsideWoven(scope, ts, c, k);
    } else {
      WholeWoven(scope, ts, c, k);
    }
  }

  lemma {:induction false} WholeWoven(scope: Scope, ts: seq<Token>, c: Cut, k: seq<Token>)
    requires ParseStmt(scope, ts).Ok? && FitsOne(ParseStmt(scope, ts).value, c) && !c.Inside?
    requires Length(scope, ts) == Size(PieceOf(scope, ts)) <= |ts|
    ensures OwnWoven(scope, ts, c, k)
  {
    WholeLaid(PieceOf(scope, ts), c, Own(scope, ts), k);
  }

  lemma {:induction false} InsideWoven(scope: Scope, ts: seq<Token>, c: Cut, k: seq<Token>)
    requires ParseStmt(scope, ts).Ok? && FitsOne(ParseStmt(scope, ts).value, c) && c.Inside? && |ts| >= 3
    requires Length(scope, ts) == Size(PieceOf(scope, ts)) <= |ts|
    requires
      var s := ParseStmt(scope, ts);
      && ParseStmts(InnerScope(s.value), ts[3..]) == Ok(s.value.items, s.rest)
      && PieceOf(scope, ts) == Block(PiecesOf(InnerScope(s.value), ts[3..]))
      && Woven(InnerScope(s.value), ts[3..], c.cuts, c.added, k)
    ensures OwnWoven(scope, ts, c, k)
  {
    var inner := InnerScope(ParseStmt(scope, ts).value);
    PiecesEnd(inner, ts[3..]);
    BlockWoven(inner, ts, c, k);
    CutInside(scope, ts, c, k);
  }

  lemma {:induction false} CutInside(scope: Scope, ts: seq<Token>, c: Cut, k: seq<Token>)
    requires ParseStmt(scope, ts).Ok? && FitsOne(ParseStmt(scope, ts).value, c) && c.Inside? && |ts| >= 3
    requires
      var s := ParseStmt(scope, ts);
      ParseStmts(InnerScope(s.value), ts[3..]) == Ok(s.value.items, s.rest)
    ensures CutOwn(scope, ts, c, k)
      == ts[..3] + CutTokens(InnerScope(ParseStmt(scope, ts).value), ts[3..], c.cuts, c.added, k)
  {
  }

  /** A statement that goes leaves nothing, and one that stays leaves its tokens. */
  lemma {:induction false} WholeLaid(p: Piece, c: Cut, toks: seq<Token>, k: seq<Token>)
    requires !c.Inside? && |toks| == Size(p)
    ensures Laid(OneRow(p, c, toks), k) == if c.Gone? then k else toks + k
  {
    if c.Gone? {
      LaidNothing(|toks|, k);
    } else {
      LaidSingles(toks, k);
    }
  }

  lemma {:induction false} BlockWoven(inner: Scope, ts: seq<Token>, c: Cut, k: seq<Token>)
    requires !inner.Top? && |ts| >= 3 && c.Inside? && ParseStmts(inner, ts[3..]).Ok?
    requires Fits(ParseStmts(inner, ts[3..]).value, c.cuts) && Woven(inner, ts[3..], c.cuts, c.added, k)
    requires Ends(inner, ts[3..], Sizes(PiecesOf(inner, ts[3..])))
    ensures
      var p := Block(PiecesOf(inner, ts[3..]));
      && SuitsOne(p, c) && Size(p) <= |ts|
      && ts[..3] + CutTokens(inner, ts[3..], c.cuts, c.added, k) == Laid(OneRow(p, c, ts[..Size(p)]), k)
  {
    var p := Block(PiecesOf(inner, ts[3..]));
    BlockParts(ts, Sizes(p.inside));
    InsideRows(p, c.cuts, c.added, ts[..Size(p)], Body(inner, ts[3..]));
    FramedLaid(ts[..Size(p)], Rows(p.inside, c.cuts, Body(inner, ts[3..])), c.added, k);
  }

  /** The parts of a block of `n` tokens inside. */
  lemma {:induction false} BlockParts(ts: seq<Token>, n: nat)
    requires n + 4 <= |ts|
    ensures ts[..n + 4][3..n + 3] == ts[3..][..n] && ts[..n + 4][n + 3] == ts[3..][n] && ts[..n + 4][..3] == ts[..3]
  {
  }

  /** The tokens that cuts leave of a file. */
  lemma {:induction false} FileWoven(ts: seq<Token>, cuts: seq<Cut>)
    requires ParseStmts(Top, ts).Ok? && Fits(ParseStmts(Top, ts).value, cuts)
    ensures Suits(PiecesOf(Top, ts), cuts) && |ts| == Sizes(PiecesOf(Top, ts))
    ensures CutTokens(Top, ts, cuts, [], []) == Laid(Rows(PiecesOf(Top, ts), cuts, ts), [])
  {
    PiecesEnd(Top, ts);
    ScopeWoven(Top, ts, cuts, [], []);
    assert Body(Top, ts) == ts;
  }
}
