/** Which tokens go, and what is put in front of which.

  The nodes of a file, whatever their kind, are knots: each is made of a range
  of tokens, and a scope has knots inside. The rows of module Weaving are
  computed here for every single position.
 */
module Knots {
  import opened Symbols
  import opened Syntax
  import opened PrunedTree
  import opened Weaving

  /** A statement whose tokens nobody asks for, one without a scope, and one with a scope, each with the range of its
    tokens and whether it goes; a scope has members and numbers that it reserves. */
  datatype Knot =
    | Loose
    | Strand(lo: nat, hi: nat, goes: bool)
    | Bundle(lo: nat, hi: nat, goes: bool, kids: seq<Knot>, reserves: seq<Range>)

  /** The knots are these pieces, of which the first token has number `at`. */
  predicate AllStand(vs: seq<Knot>, ps: seq<Piece>, at: nat)
    decreases ps
  {
    if ps == [] then vs == []
    else if ps[0].Semi? then AllStand(vs, ps[1..], at + 1)
    else vs != [] && Stands(vs[0], ps[0], at) && AllStand(vs[1..], ps[1..], at + Size(ps[0]))
  }

  predicate Stands(v: Knot, p: Piece, at: nat)
    decreases p
  {
    match v
    case Loose => !p.Semi?
    case Strand(lo, hi, _) => !p.Semi? && lo == at && hi == at + Size(p)
    case Bundle(lo, hi, _, kids, _) => p.Block? && lo == at && hi == at + Size(p) && AllStand(kids, p.inside, at + 3)
  }

  // ---- by position ----------------------------------------------------------------------------------

  /** Token `k` goes with the statement or with one inside it. */
  predicate Goes(v: Knot, k: nat)
    decreases v
  {
    match v
    case Loose => false
    case Strand(lo, hi, goes) => goes && lo <= k < hi
    case Bundle(lo, hi, goes, kids, _) => if goes then lo <= k < hi else SomeGoes(kids, k)
  }

  predicate SomeGoes(vs: seq<Knot>, k: nat)
    decreases vs
  {
    vs != [] && (Goes(vs[0], k) || SomeGoes(vs[1..], k))
  }

  /** The scope that stays with its closing brace at `k` reserves these numbers. */
  predicate Reserves(v: Knot, k: nat, ranges: seq<Range>)
    decreases v
  {
    v.Bundle? && !v.goes && ((k + 1 == v.hi && ranges == v.reserves) || SomeReserves(v.kids, k, ranges))
  }

  predicate SomeReserves(vs: seq<Knot>, k: nat, ranges: seq<Range>)
    decreases vs
  {
    vs != [] && (Reserves(vs[0], k, ranges) || SomeReserves(vs[1..], k, ranges))
  }

  lemma {:induction false} SomeGoesAt(vs: seq<Knot>, k: nat)
    ensures SomeGoes(vs, k) <==> exists i :: 0 <= i < |vs| && Goes(vs[i], k)
  {
    if vs != [] {
      SomeGoesAt(vs[1..], k);
      if i :| 0 <= i < |vs[1..]| && Goes(vs[1..][i], k) {
        assert Goes(vs[i + 1], k);
      }
      if i :| 0 <= i < |vs| && Goes(vs[i], k) {
        assert i > 0 ==> Goes(vs[1..][i - 1], k);
      }
    }
  }

  lemma {:induction false} SomeReservesAt(vs: seq<Knot>, k: nat, ranges: seq<Range>)
    ensures SomeReserves(vs, k, ranges) <==> exists i :: 0 <= i < |vs| && Reserves(vs[i], k, ranges)
  {
    if vs != [] {
      SomeReservesAt(vs[1..], k, ranges);
      if i :| 0 <= i < |vs[1..]| && Reserves(vs[1..][i], k, ranges) {
        assert Reserves(vs[i + 1], k, ranges);
      }
      if i :| 0 <= i < |vs| && Reserves(vs[i], k, ranges) {
        assert i > 0 ==> Reserves(vs[1..][i - 1], k, ranges);
      }
    }
  }

  // ---- as cuts ---------------------------------------------------------------------------------------

  function CutOf(v: Knot): (c: Cut)
    decreases v
  {
    match v
    case Loose => Whole
    case Strand(_, _, goes) => if goes then Gone else Whole
    case Bundle(_, _, goes, kids, reserves) => if goes then Gone else Inside(CutsOf(kids), reserves)
  }

  function CutsOf(vs: seq<Knot>): (r: seq<Cut>)
    ensures |r| == |vs|
    decreases vs
  {
    if vs == [] then [] else [CutOf(vs[0])] + CutsOf(vs[1..])
  }

  lemma {:induction false} CutsCons(vs: seq<Knot>)
    requires vs != []
    ensures CutsOf(vs) != [] && CutsOf(vs)[0] == CutOf(vs[0]) && CutsOf(vs)[1..] == CutsOf(vs[1..])
  {
  }

  lemma {:induction false} CutAt(vs: seq<Knot>, i: nat)
    requires i < |vs|
    ensures CutsOf(vs)[i] == CutOf(vs[i])
  {
    CutsCons(vs);
    if i > 0 {
      CutAt(vs[1..], i - 1);
      assert CutsOf(vs)[i] == CutsOf(vs)[1..][i - 1];
    }
  }

  lemma {:induction false} CutsAre(vs: seq<Knot>, cuts: seq<Cut>)
    requires |vs| == |cuts| && forall i :: 0 <= i < |vs| ==> CutOf(vs[i]) == cuts[i]
    ensures CutsOf(vs) == cuts
  {
    forall i | 0 <= i < |vs| ensures CutsOf(vs)[i] == cuts[i] {
      CutAt(vs, i);
    }
  }

  lemma {:induction false} AllSuit(vs: seq<Knot>, ps: seq<Piece>, at: nat)
    requires AllStand(vs, ps, at)
    ensures Suits(ps, CutsOf(vs))
    decreases ps
  {
    if ps != [] {
      if ps[0].Semi? {
        AllSuit(vs, ps[1..], at + 1);
      } else {
        CutsCons(vs);
        OneSuits(vs[0], ps[0], at);
        AllSuit(vs[1..], ps[1..], at + Size(ps[0]));
      }
    }
  }

  lemma {:induction false} OneSuits(v: Knot, p: Piece, at: nat)
    requires Stands(v, p, at)
    ensures SuitsOne(p, CutOf(v))
    decreases p
  {
    if v.Bundle? && !v.goes {
      AllSuit(v.kids, p.inside, at + 3);
    }
  }

  // ---- a statement concerns its own tokens --------------------------------------------------------------

  lemma {:induction false} OwnGoes(v: Knot, p: Piece, at: nat, k: nat)
    requires Stands(v, p, at) && Goes(v, k)
    ensures at <= k < at + Size(p)
    decreases p
  {
    if v.Bundle? && !v.goes {
      AllGo(v.kids, p.inside, at + 3, k);
    }
  }

  lemma {:induction false} AllGo(vs: seq<Knot>, ps: seq<Piece>, at: nat, k: nat)
    requires AllStand(vs, ps, at) && SomeGoes(vs, k)
    ensures at <= k < at + Sizes(ps)
    decreases ps
  {
    if ps[0].Semi? {
      AllGo(vs, ps[1..], at + 1, k);
    } else if Goes(vs[0], k) {
      OwnGoes(vs[0], ps[0], at, k);
    } else {
      AllGo(vs[1..], ps[1..], at + Size(ps[0]), k);
    }
  }

  lemma {:induction false} OwnReserves(v: Knot, p: Piece, at: nat, k: nat, ranges: seq<Range>)
    requires Stands(v, p, at) && Reserves(v, k, ranges)
    ensures at <= k < at + Size(p)
    decreases p
  {
    if SomeReserves(v.kids, k, ranges) {
      AllReserve(v.kids, p.inside, at + 3, k, ranges);
    }
  }

  lemma {:induction false} AllReserve(vs: seq<Knot>, ps: seq<Piece>, at: nat, k: nat, ranges: seq<Range>)
    requires AllStand(vs, ps, at) && SomeReserves(vs, k, ranges)
    ensures at <= k < at + Sizes(ps)
    decreases ps
  {
    if ps[0].Semi? {
      AllReserve(vs, ps[1..], at + 1, k, ranges);
    } else if Reserves(vs[0], k, ranges) {
      OwnReserves(vs[0], ps[0], at, k, ranges);
    } else {
      AllReserve(vs[1..], ps[1..], at + Size(ps[0]), k, ranges);
    }
  }

  // ---- the row of a token ----------------------------------------------------------------------------------

  /** The row of token `k`: nothing if it goes; otherwise the token, behind the statement of the scope whose brace it
    is. */
  ghost predicate RowFits(vs: seq<Knot>, k: nat, row: seq<Token>, token: Token) {
    && (SomeGoes(vs, k) ==> row == [])
    && (forall ranges :: SomeReserves(vs, k, ranges) ==> !SomeGoes(vs, k) && row == PutAdded(ranges, []) + [token])
    && (!SomeGoes(vs, k) && (forall ranges :: !SomeReserves(vs, k, ranges)) ==> row == [token])
  }

  ghost predicate OwnFits(v: Knot, k: nat, row: seq<Token>, token: Token) {
    && (Goes(v, k) ==> row == [])
    && (forall ranges :: Reserves(v, k, ranges) ==> !Goes(v, k) && row == PutAdded(ranges, []) + [token])
    && (!Goes(v, k) && (forall ranges :: !Reserves(v, k, ranges)) ==> row == [token])
  }

  lemma {:induction false} FirstFits(vs: seq<Knot>, k: nat, row: seq<Token>, token: Token)
    requires vs != [] && OwnFits(vs[0], k, row, token)
    requires !SomeGoes(vs[1..], k) && forall ranges :: !SomeReserves(vs[1..], k, ranges)
    ensures RowFits(vs, k, row, token)
  {
    if forall ranges :: !SomeReserves(vs, k, ranges) {
      forall ranges ensures !Reserves(vs[0], k, ranges) {
        assert !SomeReserves(vs, k, ranges);
      }
    }
  }

  lemma {:induction false} LaterFits(vs: seq<Knot>, k: nat, row: seq<Token>, token: Token)
    requires vs != [] && RowFits(vs[1..], k, row, token)
    requires !Goes(vs[0], k) && forall ranges :: !Reserves(vs[0], k, ranges)
    ensures RowFits(vs, k, row, token)
  {
    if forall ranges :: !SomeReserves(vs, k, ranges) {
      forall ranges ensures !SomeReserves(vs[1..], k, ranges) {
        assert !SomeReserves(vs, k, ranges);
      }
    }
  }

  lemma {:induction false} Untouched(vs: seq<Knot>, k: nat, token: Token)
    requires !SomeGoes(vs, k) && forall ranges :: !SomeReserves(vs, k, ranges)
    ensures RowFits(vs, k, [token], token)
  {
  }

  /** Behind or before its statements, a scope is not concerned. */
  lemma {:induction false} Outside(vs: seq<Knot>, ps: seq<Piece>, at: nat, k: nat)
    requires AllStand(vs, ps, at) && (k < at || at + Sizes(ps) <= k)
    ensures !SomeGoes(vs, k) && forall ranges :: !SomeReserves(vs, k, ranges)
  {
    if SomeGoes(vs, k) {
      AllGo(vs, ps, at, k);
    }
    forall ranges ensures !SomeReserves(vs, k, ranges) {
      if SomeReserves(vs, k, ranges) {
        AllReserve(vs, ps, at, k, ranges);
      }
    }
  }

  lemma {:induction false} OwnOutside(v: Knot, p: Piece, at: nat, k: nat)
    requires Stands(v, p, at) && at + Size(p) <= k
    ensures !Goes(v, k) && forall ranges :: !Reserves(v, k, ranges)
  {
    if Goes(v, k) {
      OwnGoes(v, p, at, k);
    }
    forall ranges ensures !Reserves(v, k, ranges) {
      if Reserves(v, k, ranges) {
        OwnReserves(v, p, at, k, ranges);
      }
    }
  }

  lemma {:induction false} RowIs(vs: seq<Knot>, ps: seq<Piece>, at: nat, toks: seq<Token>, k: nat)
    requires AllStand(vs, ps, at) && |toks| == Sizes(ps) && at <= k < at + |toks|
    ensures Suits(ps, CutsOf(vs)) && RowFits(vs, k, Rows(ps, CutsOf(vs), toks)[k - at], toks[k - at])
    decreases ps, 1
  {
    AllSuit(vs, ps, at);
    if ps[0].Semi? {
      if k == at {
        Outside(vs, ps[1..], at + 1, k);
        Untouched(vs, k, toks[0]);
      } else {
        RowIs(vs, ps[1..], at + 1, toks[1..], k);
      }
    } else {
      var n := Size(ps[0]);
      CutsCons(vs);
      if k < at + n {
        OwnRowIs(vs[0], ps[0], at, toks[..n], k);
        Outside(vs[1..], ps[1..], at + n, k);
        FirstFits(vs, k, OneRow(ps[0], CutOf(vs[0]), toks[..n])[k - at], toks[k - at]);
      } else {
        RowIs(vs[1..], ps[1..], at + n, toks[n..], k);
        OwnOutside(vs[0], ps[0], at, k);
        LaterFits(vs, k, Rows(ps[1..], CutsOf(vs[1..]), toks[n..])[k - at - n], toks[k - at]);
      }
    }
  }

  /** The row of a token between the braces of a scope that stays. */
  lemma {:induction false} FramedInside(toks: seq<Token>, rows: seq<seq<Token>>, added: seq<Range>, j: nat)
    requires |toks| == |rows| + 4 && 3 <= j < |toks| - 1
    ensures Framed(toks, rows, added)[j] == rows[j - 3]
  {
  }

  /** The rows of its keyword, its name and its braces. */
  lemma {:induction false} FramedOutside(toks: seq<Token>, rows: seq<seq<Token>>, added: seq<Range>, j: nat)
    requires |toks| == |rows| + 4 && (j < 3 || j == |toks| - 1)
    ensures Framed(toks, rows, added)[j] == (if j < 3 then [] else PutAdded(added, [])) + [toks[j]]
  {
    assert j < 3 ==> [] + [toks[j]] == [toks[j]];
  }

  lemma {:induction false} OwnRowIs(v: Knot, p: Piece, at: nat, toks: seq<Token>, k: nat)
    requires Stands(v, p, at) && |toks| == Size(p) && at <= k < at + |toks|
    ensures SuitsOne(p, CutOf(v)) && OwnFits(v, k, OneRow(p, CutOf(v), toks)[k - at], toks[k - at])
    decreases p, 1
  {
    OneSuits(v, p, at);
    if v.Bundle? && !v.goes {
      BundleRow(v, p, at, toks, k);
    }
  }

  lemma {:induction false} BundleRow(v: Knot, p: Piece, at: nat, toks: seq<Token>, k: nat)
    requires v.Bundle? && !v.goes && Stands(v, p, at) && SuitsOne(p, CutOf(v))
    requires |toks| == Size(p) && at <= k < at + |toks|
    ensures OwnFits(v, k, OneRow(p, CutOf(v), toks)[k - at], toks[k - at])
    decreases p, 0
  {
    var body := toks[3..|toks| - 1];
    AllSuit(v.kids, p.inside, at + 3);
    InsideRows(p, CutsOf(v.kids), v.reserves, toks, body);
    if at + 3 <= k < at + |toks| - 1 {
      RowIs(v.kids, p.inside, at + 3, body, k);
    } else {
      Outside(v.kids, p.inside, at + 3, k);
    }
    FramedRow(v, at, toks, Rows(p.inside, CutsOf(v.kids), body), k);
  }

  lemma {:induction false} FramedRow(v: Knot, at: nat, toks: seq<Token>, rows: seq<seq<Token>>, k: nat)
    requires v.Bundle? && !v.goes && v.hi == at + |toks| && |toks| == |rows| + 4 && at <= k < at + |toks|
    requires
      if at + 3 <= k < at + |toks| - 1 then RowFits(v.kids, k, rows[k - at - 3], toks[k - at])
      else !SomeGoes(v.kids, k) && forall ranges :: !SomeReserves(v.kids, k, ranges)
    ensures OwnFits(v, k, Framed(toks, rows, v.reserves)[k - at], toks[k - at])
  {
    if at + 3 <= k < at + |toks| - 1 {
      FramedInside(toks, rows, v.reserves, k - at);
      KidsRow(v, k, rows[k - at - 3], toks[k - at]);
    } else {
      FramedOutside(toks, rows, v.reserves, k - at);
      FrameRow(v, k, toks[k - at]);
    }
  }

  /** The keyword, the name and the braces of a scope that stays. */
  lemma {:induction false} FrameRow(v: Knot, k: nat, token: Token)
    requires v.Bundle? && !v.goes && !SomeGoes(v.kids, k) && forall ranges :: !SomeReserves(v.kids, k, ranges)
    ensures OwnFits(v, k, (if k + 1 == v.hi then PutAdded(v.reserves, []) else []) + [token], token)
  {
    assert k + 1 == v.hi ==> Reserves(v, k, v.reserves);
    assert [] + [token] == [token];
  }

  lemma {:induction false} KidsRow(v: Knot, k: nat, row: seq<Token>, token: Token)
    requires v.Bundle? && !v.goes && k + 1 != v.hi && RowFits(v.kids, k, row, token)
    ensures OwnFits(v, k, row, token)
  {
    if forall ranges :: !Reserves(v, k, ranges) {
      forall ranges ensures !SomeReserves(v.kids, k, ranges) {
        assert !Reserves(v, k, ranges);
      }
    }
  }
}
