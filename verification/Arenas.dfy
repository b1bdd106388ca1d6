/** The shared arenas of the semantic layer: children by counting sort, references by one merge pass. */
module Arenas {
  import opened Symbols

  /** Entry `p` of a CSR arena is `expected`. */
  ghost predicate SliceIs(arena: seq<nat>, off: seq<nat>, p: nat, expected: seq<nat>) {
    p + 1 < |off| && off[p] <= off[p + 1] <= |arena| && arena[off[p]..off[p + 1]] == expected
  }

  // ---- children -------------------------------------------------------------------

  /** The children of `p` among the first `n` symbols, in symbol order. */
  function ChildrenOf(parents: seq<Option<nat>>, p: nat, n: nat): (r: seq<nat>)
    requires n <= |parents|
  {
    if n == 0 then []
    else ChildrenOf(parents, p, n - 1) + if parents[n - 1] == Some(p) then [n - 1] else []
  }

  /** Where the slice of `p` begins: after the slices of all smaller symbols. */
  function Start(parents: seq<Option<nat>>, p: nat): nat {
    if p == 0 then 0 else Start(parents, p - 1) + |ChildrenOf(parents, p - 1, |parents|)|
  }

  ghost predicate ParentsExist(parents: seq<Option<nat>>) {
    forall i :: 0 <= i < |parents| && parents[i].Some? ==> parents[i].value < |parents|
  }

  /** Every symbol with a parent is listed once, under its own parent, in symbol order. */
  lemma {:induction false} ChildrenExact(parents: seq<Option<nat>>, p: nat, n: nat)
    requires n <= |parents|
    ensures forall c: nat :: c in ChildrenOf(parents, p, n) <==> c < n && parents[c] == Some(p)
    ensures Ascending(ChildrenOf(parents, p, n))
  {
    if n > 0 {
      ChildrenExact(parents, p, n - 1);
      var front := ChildrenOf(parents, p, n - 1);
      assert forall i :: 0 <= i < |front| ==> front[i] in front;
    }
  }

  lemma {:induction false} StartMonotone(parents: seq<Option<nat>>, p: nat, q: nat)
    requires p <= q
    ensures Start(parents, p) <= Start(parents, q)
    ensures p < q ==> Start(parents, p) + |ChildrenOf(parents, p, |parents|)| <= Start(parents, q)
    decreases q - p
  {
    if p < q {
      StartMonotone(parents, p + 1, q);
    }
  }

  lemma {:induction false} ChildrenGrow(parents: seq<Option<nat>>, p: nat, m: nat, n: nat)
    requires m <= n <= |parents|
    decreases n - m
    ensures |ChildrenOf(parents, p, m)| <= |ChildrenOf(parents, p, n)|
    ensures m < n && parents[m] == Some(p) ==> |ChildrenOf(parents, p, m)| < |ChildrenOf(parents, p, n)|
  {
    if m < n {
      ChildrenGrow(parents, p, m + 1, n);
    }
  }

  /** Counts the children of each symbol, one slot to the right. */
  method CountChildren(parents: seq<Option<nat>>) returns (off: seq<nat>)
    requires ParentsExist(parents)
    ensures |off| == |parents| + 1 && off[0] == 0
    ensures forall p :: 0 <= p < |parents| ==> off[p + 1] == |ChildrenOf(parents, p, |parents|)|
  {
    off := seq(|parents| + 1, _ => 0);
    var i := 0;
    while i < |parents|
      invariant 0 <= i <= |parents| && |off| == |parents| + 1 && off[0] == 0
      invariant forall p :: 0 <= p < |parents| ==> off[p + 1] == |ChildrenOf(parents, p, i)|
    {
      if parents[i].Some? {
        off := off[parents[i].value + 1 := off[parents[i].value + 1] + 1];
      }
      i := i + 1;
    }
  }

  method PrefixSums(parents: seq<Option<nat>>, counts: seq<nat>) returns (off: seq<nat>)
    requires |counts| == |parents| + 1 && counts[0] == 0
    requires forall p :: 0 <= p < |parents| ==> counts[p + 1] == |ChildrenOf(parents, p, |parents|)|
    ensures |off| == |parents| + 1 && forall p {:trigger off[p]} :: 0 <= p <= |parents| ==> off[p] == Start(parents, p)
  {
    off := counts;
    var i := 1;
    while i <= |parents|
      invariant 1 <= i <= |parents| + 1 && |off| == |counts|
      invariant forall p {:trigger off[p]} :: 0 <= p < i ==> off[p] == Start(parents, p)
      invariant forall p :: i <= p <= |parents| ==> off[p] == counts[p]
    {
      off := off[i := off[i] + off[i - 1]];
      i := i + 1;
    }
  }

  /** The first `k` symbols have been scattered into their parents' slices. */
  ghost predicate Scattered(parents: seq<Option<nat>>, children: seq<nat>, cursor: seq<nat>, k: nat)
    requires k <= |parents|
  {
    && |children| == Start(parents, |parents|) && |cursor| == |parents| + 1
    && (forall p {:trigger cursor[p]} :: 0 <= p < |parents| ==> cursor[p] == Start(parents, p) + |ChildrenOf(parents, p, k)|)
    && (forall p: nat :: p < |parents| ==> Filled(parents, children, k, p))
  }

  /** The children of `p` among the first `k` symbols sit at the front of its slice. */
  ghost predicate Filled(parents: seq<Option<nat>>, children: seq<nat>, k: nat, p: nat)
    requires k <= |parents|
  {
    SlotsAre(children, Start(parents, p), ChildrenOf(parents, p, k))
  }

  ghost predicate SlotsAre(arena: seq<nat>, lo: nat, expected: seq<nat>) {
    lo + |expected| <= |arena| && forall i: nat :: i < |expected| ==> arena[lo + i] == expected[i]
  }

  lemma SlotsUndisturbed(arena: seq<nat>, lo: nat, expected: seq<nat>, c: nat, v: nat)
    requires SlotsAre(arena, lo, expected) && c < |arena| && (c < lo || lo + |expected| <= c)
    ensures SlotsAre(arena[c := v], lo, expected)
  {
  }

  lemma SlotsExtended(arena: seq<nat>, lo: nat, expected: seq<nat>, v: nat)
    requires SlotsAre(arena, lo, expected) && lo + |expected| < |arena|
    ensures SlotsAre(arena[lo + |expected| := v], lo, expected + [v])
  {
  }

  /** Scattering symbol `k` fills the next slot of its parent. */
  lemma ScatterFillsOwn(parents: seq<Option<nat>>, children: seq<nat>, k: nat, p: nat)
    requires k < |parents| && parents[k] == Some(p) && p < |parents|
    requires |children| == Start(parents, |parents|) && Filled(parents, children, k, p)
    ensures Start(parents, p) + |ChildrenOf(parents, p, k)| < |children|
    ensures Filled(parents, children[Start(parents, p) + |ChildrenOf(parents, p, k)| := k], k + 1, p)
  {
    ChildrenGrow(parents, p, k, |parents|);
    StartMonotone(parents, p, |parents|);
    SlotsExtended(children, Start(parents, p), ChildrenOf(parents, p, k), k);
  }

  /** It disturbs no other slice. */
  lemma ScatterSparesOthers(parents: seq<Option<nat>>, children: seq<nat>, k: nat, p: nat, q: nat)
    requires k < |parents| && parents[k] == Some(p) && p < |parents| && q < |parents| && p != q
    requires |children| == Start(parents, |parents|) && Filled(parents, children, k, q)
    requires Start(parents, p) + |ChildrenOf(parents, p, k)| < |children|
    ensures Filled(parents, children[Start(parents, p) + |ChildrenOf(parents, p, k)| := k], k + 1, q)
  {
    ChildrenGrow(parents, p, k, |parents|);
    ChildrenGrow(parents, q, k, |parents|);
    if p < q { StartMonotone(parents, p, q); } else { StartMonotone(parents, q, p); }
    SlotsUndisturbed(children, Start(parents, q), ChildrenOf(parents, q, k),
                     Start(parents, p) + |ChildrenOf(parents, p, k)|, k);
  }

  lemma ScatterOne(parents: seq<Option<nat>>, children: seq<nat>, cursor: seq<nat>, k: nat)
    requires ParentsExist(parents) && k < |parents| && Scattered(parents, children, cursor, k) && parents[k].Some?
    ensures var c := cursor[parents[k].value];
      && c < |children|
      && Scattered(parents, children[c := k], cursor[parents[k].value := c + 1], k + 1)
  {
    var p := parents[k].value;
    var c := cursor[p];
    assert Filled(parents, children, k, p);
    ScatterFillsOwn(parents, children, k, p);
    var after, n := children[c := k], k + 1;
    forall q: nat | q < |parents|
      ensures Filled(parents, after, n, q)
    {
      assert Filled(parents, children, k, q);
      if q != p {
        ScatterSparesOthers(parents, children, k, p, q);
      }
    }
  }

  lemma ScatterNone(parents: seq<Option<nat>>, children: seq<nat>, cursor: seq<nat>, k: nat)
    requires k < |parents| && Scattered(parents, children, cursor, k) && parents[k].None?
    ensures Scattered(parents, children, cursor, k + 1)
  {
    var n := k + 1;
    forall q: nat | q < |parents| ensures Filled(parents, children, n, q) {
      assert Filled(parents, children, k, q);
    }
  }

  lemma NothingScattered(parents: seq<Option<nat>>, children: seq<nat>, cursor: seq<nat>)
    requires |children| == Start(parents, |parents|) && |cursor| == |parents| + 1
    requires forall p {:trigger cursor[p]} :: 0 <= p <= |parents| ==> cursor[p] == Start(parents, p)
    ensures Scattered(parents, children, cursor, 0)
  {
    forall q: nat | q < |parents| ensures Filled(parents, children, 0, q) {
      StartMonotone(parents, q, |parents|);
    }
  }

  /** Count, prefix-sum, scatter: the slice of every symbol is its list of children. */
  method BuildChildren(parents: seq<Option<nat>>) returns (children: seq<nat>, off: seq<nat>)
    requires ParentsExist(parents)
    ensures |off| == |parents| + 1 && off[|parents|] == |children|
    ensures forall p: nat :: p < |parents| ==> SliceIs(children, off, p, ChildrenOf(parents, p, |parents|))
  {
    var counts := CountChildren(parents);
    off := PrefixSums(parents, counts);
    children := Scatter(parents, off);
    forall p: nat | p < |parents|
      ensures SliceIs(children, off, p, ChildrenOf(parents, p, |parents|))
    {
      SliceFilled(parents, children, off, p);
    }
  }

  /** Writes every symbol with a parent into the next free slot of its parent's slice. */
  method Scatter(parents: seq<Option<nat>>, off: seq<nat>) returns (children: seq<nat>)
    requires ParentsExist(parents) && |off| == |parents| + 1
    requires forall q {:trigger off[q]} :: 0 <= q <= |parents| ==> off[q] == Start(parents, q)
    ensures |children| == Start(parents, |parents|)
    ensures forall p: nat :: p < |parents| ==> Filled(parents, children, |parents|, p)
  {
    children := seq(off[|parents|], _ => 0);
    var cursor := off;
    NothingScattered(parents, children, cursor);
    var k := 0;
    while k < |parents|
      invariant 0 <= k <= |parents| && Scattered(parents, children, cursor, k)
    {
      if parents[k].Some? {
        ScatterOne(parents, children, cursor, k);
        var c := cursor[parents[k].value];
        children := children[c := k];
        cursor := cursor[parents[k].value := c + 1];
      } else {
        ScatterNone(parents, children, cursor, k);
      }
      k := k + 1;
    }
  }

  lemma SliceFilled(parents: seq<Option<nat>>, children: seq<nat>, off: seq<nat>, p: nat)
    requires p < |parents| && Filled(parents, children, |parents|, p) && |children| == Start(parents, |parents|)
    requires |off| == |parents| + 1 && forall q {:trigger off[q]} :: 0 <= q <= |parents| ==> off[q] == Start(parents, q)
    ensures SliceIs(children, off, p, ChildrenOf(parents, p, |parents|))
  {
    var lo, expected := Start(parents, p), ChildrenOf(parents, p, |parents|);
    StartMonotone(parents, p + 1, |parents|);
    assert off[p] == lo && off[p + 1] == lo + |expected|;
    SliceOf(children, lo, expected);
  }

  lemma SliceOf(arena: seq<nat>, lo: nat, expected: seq<nat>)
    requires SlotsAre(arena, lo, expected)
    ensures arena[lo..lo + |expected|] == expected
  {
  }

  // ---- references -----------------------------------------------------------------------

  /** A reference in symbol-creation order, with its resolution (None when it does not resolve). */
  datatype Pending = Pending(owner: nat, target: Option<nat>)

  /** Each owner pushes its references right after it was created. */
  ghost predicate InCreationOrder(pending: seq<Pending>, n: nat) {
    && (forall i :: 0 <= i < |pending| ==> pending[i].owner < n)
    && (forall i, j :: 0 <= i < j < |pending| ==> pending[i].owner <= pending[j].owner)
  }

  /** The resolved references of one owner, in order. */
  function RefsOf(pending: seq<Pending>, owner: nat): seq<nat> {
    if pending == [] then []
    else (if pending[0].owner == owner && pending[0].target.Some? then [pending[0].target.value] else []) + RefsOf(pending[1..], owner)
  }

  /** The references before `at` belong to owners below `i`, those from `at` on do not. */
  ghost predicate Boundary(pending: seq<Pending>, i: nat, at: nat) {
    && at <= |pending|
    && (forall k :: 0 <= k < at ==> pending[k].owner < i)
    && (forall k :: at <= k < |pending| ==> pending[k].owner >= i)
  }

  ghost predicate Resolved(pending: seq<Pending>, refs: seq<nat>) {
    |refs| <= |pending| && forall k :: 0 <= k < |refs| ==> pending[k].target == Some(refs[k])
  }

  /** Resolves the pending references in one pass over the symbols; None when one does not resolve. */
  method ResolveRefs(pending: seq<Pending>, n: nat) returns (r: Option<(seq<nat>, seq<nat>)>)
    requires InCreationOrder(pending, n)
    ensures r.None? <==> exists k :: 0 <= k < |pending| && pending[k].target.None?
    ensures r.Some? ==>
      && |r.value.0| == |pending| && Resolved(pending, r.value.0)
      && |r.value.1| == n + 1 && r.value.1[n] == |r.value.0|
      && forall i: nat :: i < n ==> SliceIs(r.value.0, r.value.1, i, RefsOf(pending, i))
  {
    var refs: seq<nat>, off: seq<nat> := [], [];
    var pi := 0;
    var i := 0;
    while i < n
      invariant 0 <= i <= n && pi == |refs| && |off| == i && Resolved(pending, refs)
      invariant Boundary(pending, i, pi)
      invariant forall j: nat :: j < i ==> Boundary(pending, j, off[j])
    {
      off := off + [|refs|];
      while pi < |pending| && pending[pi].owner == i
        invariant pi == |refs| <= |pending| && Resolved(pending, refs)
        invariant forall k :: 0 <= k < pi ==> pending[k].owner <= i
        invariant forall k :: pi <= k < |pending| ==> pending[k].owner >= i
      {
        if pending[pi].target.None? {
          return None;
        }
        refs := refs + [pending[pi].target.value];
        pi := pi + 1;
      }
      i := i + 1;
    }
    assert pending == [] || pending[|pending| - 1].owner < n;
    off := off + [|refs|];
    forall j: nat | j < n
      ensures SliceIs(refs, off, j, RefsOf(pending, j))
    {
      assert Boundary(pending, j, off[j]) && Boundary(pending, j + 1, off[j + 1]);
      OwnSlice(pending, refs, j, off[j], off[j + 1]);
    }
    return Some((refs, off));
  }

  /** Between its two boundaries lie exactly the references of an owner. */
  lemma OwnSlice(pending: seq<Pending>, refs: seq<nat>, i: nat, lo: nat, hi: nat)
    requires |refs| == |pending| && Resolved(pending, refs)
    requires Boundary(pending, i, lo) && Boundary(pending, i + 1, hi)
    ensures lo <= hi && refs[lo..hi] == RefsOf(pending, i)
  {
    assert lo > 0 ==> pending[lo - 1].owner < i;
    SliceByOwner(pending, refs, i, lo, hi);
  }

  lemma {:induction false} SliceByOwner(pending: seq<Pending>, refs: seq<nat>, i: nat, lo: nat, hi: nat)
    requires |refs| == |pending| && Resolved(pending, refs) && lo <= hi <= |pending|
    requires forall k :: 0 <= k < |pending| ==> (pending[k].owner == i <==> lo <= k < hi)
    ensures refs[lo..hi] == RefsOf(pending, i)
  {
    if pending != [] {
      if lo > 0 {
        SliceByOwner(pending[1..], refs[1..], i, lo - 1, hi - 1);
        assert refs[1..][lo - 1..hi - 1] == refs[lo..hi];
      } else if hi > 0 {
        SliceByOwner(pending[1..], refs[1..], i, 0, hi - 1);
        assert refs[0..hi] == [refs[0]] + refs[1..][0..hi - 1];
      } else {
        SliceByOwner(pending[1..], refs[1..], i, 0, 0);
      }
    }
  }
}
