/** Deletions and insertions applied to a source text.

  `Spliced` says what a list of edits means without looking at its order: a
  character survives if no deletion covers it, and every inserted text stands
  before the character at its position.
 */
module Edits {
  datatype Edit = Del(start: nat, end: nat) | Ins(at: nat, text: string)

  predicate ValidFor(src: string, e: Edit) {
    match e
    case Del(a, b) => a <= b <= |src|
    case Ins(at, _) => at <= |src|
  }

  // ---- meaning ----------------------------------------------------------------------

  predicate Covered(edits: seq<Edit>, p: nat) {
    exists i :: 0 <= i < |edits| && edits[i].Del? && edits[i].start <= p < edits[i].end
  }

  function TextOf(e: Edit, p: nat): string {
    if e.Ins? && e.at == p then e.text else ""
  }

  /** The texts inserted at `p`, in list order. */
  function TextsAt(edits: seq<Edit>, p: nat): string {
    if edits == [] then "" else TextOf(edits[0], p) + TextsAt(edits[1..], p)
  }

  function CharAt(src: string, edits: seq<Edit>, floor: nat, p: nat): string
    requires p < |src|
  {
    if p < floor || Covered(edits, p) then "" else [src[p]]
  }

  /** The result from position `p` on, where characters below `floor` are already gone. */
  function SplicedFrom(src: string, edits: seq<Edit>, floor: nat, p: nat): string
    decreases |src| - p
  {
    TextsAt(edits, p) +
    if p < |src| then CharAt(src, edits, floor, p) + SplicedFrom(src, edits, floor, p + 1) else ""
  }

  function Spliced(src: string, edits: seq<Edit>): string {
    SplicedFrom(src, edits, 0, 0)
  }

  // ---- order ------------------------------------------------------------------------

  function Position(e: Edit): nat {
    if e.Del? then e.start else e.at
  }

  /** Deletions come before insertions at the same position. */
  predicate AtMost(e: Edit, f: Edit) {
    Position(e) < Position(f) || (Position(e) == Position(f) && (e.Del? || f.Ins?))
  }

  predicate InOrder(edits: seq<Edit>) {
    forall i, j :: 0 <= i < j < |edits| ==> AtMost(edits[i], edits[j])
  }

  function InsertEdit(e: Edit, edits: seq<Edit>): (r: seq<Edit>)
    ensures multiset(r) == multiset(edits) + multiset{e}
  {
    if edits == [] || AtMost(e, edits[0]) then [e] + edits
    else
      assert edits == [edits[0]] + edits[1..];
      [edits[0]] + InsertEdit(e, edits[1..])
  }

  /** Stable sort by position and kind. */
  function SortEdits(edits: seq<Edit>): (r: seq<Edit>)
    ensures multiset(r) == multiset(edits)
  {
    if edits == [] then []
    else
      assert edits == [edits[0]] + edits[1..];
      InsertEdit(edits[0], SortEdits(edits[1..]))
  }

  lemma {:induction false} InsertKeepsOrder(e: Edit, edits: seq<Edit>)
    requires InOrder(edits)
    ensures InOrder(InsertEdit(e, edits))
  {
    if edits != [] && !AtMost(e, edits[0]) {
      InsertKeepsOrder(e, edits[1..]);
      var r := InsertEdit(e, edits[1..]);
      forall i | 0 <= i < |r| ensures AtMost(edits[0], r[i]) {
        assert r[i] in multiset(r);
        assert r[i] == e || r[i] in edits[1..];
      }
    }
  }

  lemma {:induction false} SortIsInOrder(edits: seq<Edit>)
    ensures InOrder(SortEdits(edits))
  {
    if edits != [] {
      SortIsInOrder(edits[1..]);
      InsertKeepsOrder(edits[0], SortEdits(edits[1..]));
    }
  }

  lemma TextsCons(e: Edit, rest: seq<Edit>, p: nat)
    ensures TextsAt([e] + rest, p) == TextOf(e, p) + TextsAt(rest, p)
  {
    assert ([e] + rest)[1..] == rest;
  }

  lemma Swap(x: string, y: string, z: string)
    requires x == "" || y == ""
    ensures x + (y + z) == y + (x + z)
  {
    if x == "" {
      assert x + (y + z) == y + z && x + z == z;
    } else {
      assert y + z == z && y + (x + z) == x + z;
    }
  }

  /** Sorting is stable: texts inserted at one position keep their order. */
  lemma {:induction false} InsertKeepsTexts(e: Edit, edits: seq<Edit>, p: nat)
    ensures TextsAt(InsertEdit(e, edits), p) == TextsAt([e] + edits, p)
  {
    if edits != [] && !AtMost(e, edits[0]) {
      var head, rest := edits[0], edits[1..];
      var later := InsertEdit(e, rest);
      InsertKeepsTexts(e, rest, p);
      TextsCons(head, later, p);
      TextsCons(e, rest, p);
      TextsCons(e, edits, p);
      Swap(TextOf(e, p), TextOf(head, p), TextsAt(rest, p));
    }
  }

  lemma {:induction false} SortKeepsTexts(edits: seq<Edit>, p: nat)
    ensures TextsAt(SortEdits(edits), p) == TextsAt(edits, p)
  {
    if edits != [] {
      SortKeepsTexts(edits[1..], p);
      InsertKeepsTexts(edits[0], SortEdits(edits[1..]), p);
      TextsCons(edits[0], SortEdits(edits[1..]), p);
    }
  }

  lemma PermutedCover(edits: seq<Edit>, other: seq<Edit>, p: nat)
    requires multiset(edits) == multiset(other)
    ensures Covered(edits, p) <==> Covered(other, p)
  {
    if i :| 0 <= i < |edits| && edits[i].Del? && edits[i].start <= p < edits[i].end {
      assert edits[i] in multiset(other);
      var j :| 0 <= j < |other| && other[j] == edits[i];
    }
    if i :| 0 <= i < |other| && other[i].Del? && other[i].start <= p < other[i].end {
      assert other[i] in multiset(edits);
      var j :| 0 <= j < |edits| && edits[j] == other[i];
    }
  }

  /** The result depends only on what is covered above the floor and on the texts per position. */
  lemma {:induction false} SameSplice(src: string, e: seq<Edit>, f: seq<Edit>, floorE: nat, floorF: nat, p: nat)
    requires p <= |src|
    requires forall q: nat :: p <= q <= |src| ==> TextsAt(e, q) == TextsAt(f, q)
    requires forall q: nat :: p <= q < |src| ==> (q < floorE || Covered(e, q) <==> q < floorF || Covered(f, q))
    ensures SplicedFrom(src, e, floorE, p) == SplicedFrom(src, f, floorF, p)
    decreases |src| - p
  {
    if p < |src| {
      SameSplice(src, e, f, floorE, floorF, p + 1);
    }
  }

  // ---- the cursor loop --------------------------------------------------------------

  predicate Quiet(edits: seq<Edit>, lo: nat, hi: nat) {
    forall q: nat :: lo <= q < hi ==> TextsAt(edits, q) == "" && !Covered(edits, q)
  }

  /** Edits at or above `lo` do nothing below it. */
  lemma {:induction false} NoTextBelow(edits: seq<Edit>, q: nat)
    requires forall i :: 0 <= i < |edits| ==> q < Position(edits[i])
    ensures TextsAt(edits, q) == ""
  {
    if edits != [] {
      NoTextBelow(edits[1..], q);
    }
  }

  lemma QuietBelow(edits: seq<Edit>, lo: nat)
    requires forall i :: 0 <= i < |edits| ==> lo <= Position(edits[i])
    ensures Quiet(edits, 0, lo)
  {
    forall q: nat | q < lo ensures TextsAt(edits, q) == "" && !Covered(edits, q) {
      NoTextBelow(edits, q);
    }
  }

  lemma SkipOne(src: string, edits: seq<Edit>, floor: nat, p: nat)
    requires p < floor && p < |src| && TextsAt(edits, p) == ""
    ensures SplicedFrom(src, edits, floor, p) == SplicedFrom(src, edits, floor, p + 1)
  {
  }

  lemma {:induction false} SkipGone(src: string, edits: seq<Edit>, floor: nat, p: nat, stop: nat)
    requires p <= stop <= floor && stop <= |src| && Quiet(edits, p, stop)
    ensures SplicedFrom(src, edits, floor, p) == SplicedFrom(src, edits, floor, stop)
    decreases stop - p
  {
    if p < stop {
      SkipOne(src, edits, floor, p);
      SkipGone(src, edits, floor, p + 1, stop);
    }
  }

  lemma Regroup(x: string, y: string, z: string)
    ensures x + (y + z) == x + y + z
  {
  }

  lemma CopyOne(src: string, edits: seq<Edit>, floor: nat, p: nat)
    requires floor <= p < |src| && TextsAt(edits, p) == "" && !Covered(edits, p)
    ensures SplicedFrom(src, edits, floor, p) == [src[p]] + SplicedFrom(src, edits, floor, p + 1)
  {
  }

  lemma {:induction false} CopyRun(src: string, edits: seq<Edit>, floor: nat, p: nat, stop: nat)
    requires floor <= p <= stop <= |src| && Quiet(edits, p, stop)
    ensures SplicedFrom(src, edits, floor, p) == src[p..stop] + SplicedFrom(src, edits, floor, stop)
    decreases stop - p
  {
    if p < stop {
      CopyOne(src, edits, floor, p);
      CopyRun(src, edits, floor, p + 1, stop);
      assert src[p..stop] == [src[p]] + src[p + 1..stop];
      Regroup([src[p]], src[p + 1..stop], SplicedFrom(src, edits, floor, stop));
    }
  }

  /** Nothing happens before `stop`: the text up to it is what is left above the floor. */
  lemma Advance(src: string, edits: seq<Edit>, floor: nat, stop: nat)
    requires floor <= stop <= |src| && Quiet(edits, 0, stop)
    ensures SplicedFrom(src, edits, floor, 0) == src[floor..stop] + SplicedFrom(src, edits, floor, stop)
  {
    SkipGone(src, edits, floor, 0, floor);
    CopyRun(src, edits, floor, floor, stop);
  }

  lemma CoveredCons(e: Edit, rest: seq<Edit>, q: nat)
    ensures Covered([e] + rest, q) <==> (e.Del? && e.start <= q < e.end) || Covered(rest, q)
  {
    var all := [e] + rest;
    assert all[0] == e;
    if i :| 0 <= i < |rest| && rest[i].Del? && rest[i].start <= q < rest[i].end {
      assert all[i + 1] == rest[i];
    }
    if i :| 0 <= i < |all| && all[i].Del? && all[i].start <= q < all[i].end && i > 0 {
      assert rest[i - 1] == all[i];
    }
  }

  /** A deletion at the head of an ordered list raises the floor to its end. */
  lemma StepDelete(src: string, e: Edit, rest: seq<Edit>, floor: nat)
    requires e.Del? && ValidFor(src, e) && InOrder([e] + rest) && floor <= |src|
    ensures e.start >= floor ==>
      SplicedFrom(src, [e] + rest, floor, 0) == src[floor..e.start] + SplicedFrom(src, rest, e.end, 0)
    ensures e.start < floor ==>
      SplicedFrom(src, [e] + rest, floor, 0)
        == SplicedFrom(src, rest, if floor < e.end then e.end else floor, 0)
  {
    var all := [e] + rest;
    forall q: nat ensures TextsAt(all, q) == TextsAt(rest, q) {
      TextsCons(e, rest, q);
    }
    forall q: nat ensures Covered(all, q) <==> e.start <= q < e.end || Covered(rest, q) {
      CoveredCons(e, rest, q);
    }
    if e.start >= floor {
      BehindHead(e, rest);
      Advance(src, all, floor, e.start);
      SkipGone(src, rest, e.end, 0, e.start);
      SameSplice(src, all, rest, floor, e.end, e.start);
    } else {
      SameSplice(src, all, rest, floor, if floor < e.end then e.end else floor, 0);
    }
  }

  lemma BehindHead(e: Edit, rest: seq<Edit>)
    requires InOrder([e] + rest)
    ensures InOrder(rest)
    ensures forall i :: 0 <= i < |rest| ==> Position(e) <= Position(rest[i])
    ensures Quiet([e] + rest, 0, Position(e)) && Quiet(rest, 0, Position(e))
  {
    var all := [e] + rest;
    forall i | 0 <= i < |rest| ensures Position(e) <= Position(rest[i]) {
      assert AtMost(all[0], all[i + 1]);
    }
    forall i, j | 0 <= i < j < |rest| ensures AtMost(rest[i], rest[j]) {
      assert AtMost(all[i + 1], all[j + 1]);
    }
    QuietBelow(all, Position(e));
    QuietBelow(rest, Position(e));
  }

  lemma Rejoin(whole: string, part: string, x: string, y: string, z: string)
    requires whole == x + y + z && part == y + z
    ensures whole == x + part
  {
  }

  lemma Unfold(src: string, edits: seq<Edit>, floor: nat, p: nat)
    requires p <= |src|
    ensures SplicedFrom(src, edits, floor, p) == TextsAt(edits, p) + Onward(src, edits, floor, p)
  {
  }

  ghost function Onward(src: string, edits: seq<Edit>, floor: nat, p: nat): string {
    if p < |src| then CharAt(src, edits, floor, p) + SplicedFrom(src, edits, floor, p + 1) else ""
  }

  lemma TextFirst(src: string, e: Edit, rest: seq<Edit>, floor: nat)
    requires e.Ins? && ValidFor(src, e)
    ensures SplicedFrom(src, [e] + rest, floor, e.at) == e.text + SplicedFrom(src, rest, floor, e.at)
  {
    TextsCons(e, rest, e.at);
    AfterText(src, e, rest, floor);
    Unfold(src, [e] + rest, floor, e.at);
    Unfold(src, rest, floor, e.at);
    Rejoin(SplicedFrom(src, [e] + rest, floor, e.at), SplicedFrom(src, rest, floor, e.at),
           e.text, TextsAt(rest, e.at), Onward(src, rest, floor, e.at));
  }

  /** Past its own position an insertion changes nothing. */
  lemma AfterText(src: string, e: Edit, rest: seq<Edit>, floor: nat)
    requires e.Ins? && ValidFor(src, e)
    ensures Onward(src, [e] + rest, floor, e.at) == Onward(src, rest, floor, e.at)
  {
    var all := [e] + rest;
    forall q: nat ensures Covered(all, q) <==> Covered(rest, q) {
      CoveredCons(e, rest, q);
    }
    forall q: nat ensures TextsAt(all, q) == TextOf(e, q) + TextsAt(rest, q) {
      TextsCons(e, rest, q);
    }
    if e.at < |src| {
      SameSplice(src, all, rest, floor, floor, e.at + 1);
    }
  }

  /** An insertion at the head copies up to its position if that is still ahead, then writes its text. */
  lemma StepInsert(src: string, e: Edit, rest: seq<Edit>, floor: nat)
    requires e.Ins? && ValidFor(src, e) && InOrder([e] + rest) && floor <= |src|
    ensures e.at >= floor ==>
      SplicedFrom(src, [e] + rest, floor, 0)
        == src[floor..e.at] + e.text + SplicedFrom(src, rest, e.at, 0)
    ensures e.at < floor ==>
      SplicedFrom(src, [e] + rest, floor, 0) == e.text + SplicedFrom(src, rest, floor, 0)
  {
    var all := [e] + rest;
    BehindHead(e, rest);
    TextFirst(src, e, rest, floor);
    if e.at >= floor {
      Advance(src, all, floor, e.at);
      SkipGone(src, rest, e.at, 0, e.at);
      SameSplice(src, rest, rest, floor, e.at, e.at);
      Regroup(src[floor..e.at], e.text, SplicedFrom(src, rest, e.at, 0));
    } else {
      SkipGone(src, all, floor, 0, e.at);
      SkipGone(src, rest, floor, 0, e.at);
    }
  }

  /** What the loop writes for one edit, and where its cursor stands afterwards. */
  ghost function Chunk(src: string, e: Edit, pos: nat): string
    requires ValidFor(src, e) && pos <= |src|
  {
    match e
    case Del(a, _) => if a >= pos then src[pos..a] else ""
    case Ins(at, text) => if at >= pos then src[pos..at] + text else text
  }

  ghost function Cursor(e: Edit, pos: nat): nat {
    match e
    case Del(a, b) => if a >= pos || pos < b then b else pos
    case Ins(at, _) => if at >= pos then at else pos
  }

  lemma Step(src: string, e: Edit, rest: seq<Edit>, pos: nat)
    requires ValidFor(src, e) && InOrder([e] + rest) && pos <= |src|
    ensures SplicedFrom(src, [e] + rest, pos, 0) == Chunk(src, e, pos) + SplicedFrom(src, rest, Cursor(e, pos), 0)
  {
    if e.Del? {
      StepDelete(src, e, rest, pos);
    } else {
      StepInsert(src, e, rest, pos);
    }
  }

  lemma LastRun(src: string, none: seq<Edit>, pos: nat)
    requires none == [] && pos <= |src|
    ensures SplicedFrom(src, none, pos, 0) == src[pos..]
  {
    Advance(src, none, pos, |src|);
  }

  lemma SortIsValid(src: string, edits: seq<Edit>)
    requires forall i :: 0 <= i < |edits| ==> ValidFor(src, edits[i])
    ensures forall i :: 0 <= i < |SortEdits(edits)| ==> ValidFor(src, SortEdits(edits)[i])
  {
    var sorted := SortEdits(edits);
    forall i | 0 <= i < |sorted| ensures ValidFor(src, sorted[i]) {
      assert sorted[i] in multiset(edits);
    }
  }

  method ApplyOne(src: string, e: Edit, before: string, from: nat) returns (out: string, pos: nat)
    requires ValidFor(src, e) && from <= |src|
    ensures out == before + Chunk(src, e, from) && pos == Cursor(e, from)
  {
    out, pos := before, from;
    match e {
      case Del(a, b) =>
        if a >= pos {
          out := out + src[pos..a];
          pos := b;
        } else {
          pos := if pos < b then b else pos;
        }
      case Ins(at, text) =>
        if at >= pos {
          out := out + src[pos..at];
          pos := at;
        }
        out := out + text;
    }
  }

  /** Applies the edits in one pass over the sorted list. */
  method ApplyEdits(src: string, edits: seq<Edit>) returns (out: string)
    requires forall i :: 0 <= i < |edits| ==> ValidFor(src, edits[i])
    ensures out == Spliced(src, edits)
  {
    var sorted := SortEdits(edits);
    SortIsInOrder(edits);
    SortIsValid(src, edits);
    out := "";
    var pos: nat, k: nat := 0, 0;
    ghost var todo := sorted;
    while k < |sorted|
      invariant k <= |sorted| && pos <= |src|
      invariant todo == sorted[k..] && InOrder(todo)
      invariant out + SplicedFrom(src, todo, pos, 0) == Spliced(src, sorted)
    {
      ghost var rest := sorted[k + 1..];
      assert todo == [sorted[k]] + rest;
      BehindHead(sorted[k], rest);
      Step(src, sorted[k], rest, pos);
      Regroup(out, Chunk(src, sorted[k], pos), SplicedFrom(src, rest, Cursor(sorted[k], pos), 0));
      out, pos := ApplyOne(src, sorted[k], out, pos);
      todo, k := rest, k + 1;
    }
    LastRun(src, todo, pos);
    out := out + src[pos..];
    SameEffect(src, sorted, edits);
  }

  lemma SameEffect(src: string, sorted: seq<Edit>, edits: seq<Edit>)
    requires sorted == SortEdits(edits)
    ensures Spliced(src, sorted) == Spliced(src, edits)
  {
    forall q: nat ensures TextsAt(sorted, q) == TextsAt(edits, q) && (Covered(sorted, q) <==> Covered(edits, q)) {
      SortKeepsTexts(edits, q);
      PermutedCover(edits, sorted, q);
    }
    SameSplice(src, sorted, edits, 0, 0, 0);
  }

  // ---- the order of the list does not matter ------------------------------------------

  /** No two insertions share a position. */
  predicate OneTextEach(edits: seq<Edit>) {
    forall i, j :: 0 <= i < j < |edits| && edits[i].Ins? && edits[j].Ins? ==> edits[i].at != edits[j].at
  }

  lemma {:induction false} TextIs(edits: seq<Edit>, p: nat, text: string)
    requires OneTextEach(edits)
    ensures Ins(p, text) in edits ==> TextsAt(edits, p) == text
    ensures (forall i :: 0 <= i < |edits| ==> TextOf(edits[i], p) == "") ==> TextsAt(edits, p) == ""
  {
    if edits != [] {
      var rest := edits[1..];
      assert edits == [edits[0]] + rest;
      assert forall i :: 0 <= i < |rest| ==> rest[i] == edits[i + 1];
      TextIs(rest, p, text);
      if edits[0] == Ins(p, text) {
        assert forall i :: 0 <= i < |rest| ==> TextOf(rest[i], p) == "";
      }
    }
  }

  lemma SameTexts(edits: seq<Edit>, other: seq<Edit>, p: nat)
    requires multiset(edits) == multiset(other) && OneTextEach(edits) && OneTextEach(other)
    ensures TextsAt(edits, p) == TextsAt(other, p)
  {
    if i :| 0 <= i < |edits| && edits[i].Ins? && edits[i].at == p {
      assert edits[i] in multiset(other);
      TextIs(edits, p, edits[i].text);
      TextIs(other, p, edits[i].text);
    } else {
      forall j | 0 <= j < |other| ensures TextOf(other[j], p) == "" {
        assert other[j] in multiset(edits);
      }
      TextIs(edits, p, "");
      TextIs(other, p, "");
    }
  }

  lemma PermutedOneText(edits: seq<Edit>, other: seq<Edit>)
    requires multiset(edits) == multiset(other) && OneTextEach(edits)
    ensures OneTextEach(other)
  {
    forall i, j | 0 <= i < j < |other| && other[i].Ins? && other[j].Ins?
      ensures other[i].at != other[j].at
    {
      assert other[i] in multiset(edits) && other[j] in multiset(edits);
      var x, y :| 0 <= x < |edits| && 0 <= y < |edits| && edits[x] == other[i] && edits[y] == other[j];
      OnceAt(edits, x);
      if other[i] == other[j] {
        TwiceAfter(other, i, j);
        assert false;
      }
    }
  }

  lemma TwiceAfter(s: seq<Edit>, i: nat, j: nat)
    requires i < j < |s| && s[i] == s[j]
    ensures multiset(s)[s[i]] >= 2
  {
    assert s == s[..i] + [s[i]] + s[i + 1..j] + [s[j]] + s[j + 1..];
  }

  /** An insertion occurs once. */
  lemma OnceAt(s: seq<Edit>, i: nat)
    requires i < |s| && s[i].Ins? && OneTextEach(s)
    ensures multiset(s)[s[i]] == 1
  {
    assert s == s[..i] + [s[i]] + s[i + 1..];
    assert s[i] !in s[..i] && s[i] !in s[i + 1..];
  }

  /** The spliced text does not depend on the order in which the edits were pushed. */
  lemma OrderIrrelevant(src: string, edits: seq<Edit>, other: seq<Edit>)
    requires multiset(edits) == multiset(other) && OneTextEach(edits)
    ensures Spliced(src, edits) == Spliced(src, other)
  {
    PermutedOneText(edits, other);
    forall q: nat ensures TextsAt(edits, q) == TextsAt(other, q) && (Covered(edits, q) <==> Covered(other, q)) {
      SameTexts(edits, other, q);
      PermutedCover(edits, other, q);
    }
    SameSplice(src, edits, other, 0, 0, 0);
  }
}
