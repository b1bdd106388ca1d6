/** What formatting promises: comments are conserved, formatting twice changes
  nothing more, and comments keep their slots exactly when the tree is stable.
 */
module FormatStable {
  import opened Symbols
  import opened Layout
  import opened LayoutRoundTrip

  // ---- settling keeps all comments, in order --------------------------------------------------

  lemma RemarksConcat(a: seq<Note>, b: seq<Note>)
    ensures Remarks(a + b) == Remarks(a) + Remarks(b)
  {
  }

  lemma RemarksUnblanked(a: seq<Note>)
    ensures Remarks(Unblanked(a)) == Remarks(a)
  {
  }

  lemma RemarksBefore(before: seq<Note>, prev: Option<Item>, leading: seq<Note>, want: bool)
    ensures Remarks(Before(before, prev)) == Remarks(before)
    ensures Remarks(Lead(leading, want)) == Remarks(leading)
  {
  }

  lemma SplitWhole(notes: seq<Note>, near: bool, tokBlank: bool)
    ensures SplitPending(notes, near, tokBlank).toPrev + SplitPending(notes, near, tokBlank).leading == notes
  {
  }

  lemma ResplitKeeps(top: bool, before: seq<Note>, prev: Option<Item>, item: Item)
    ensures
      var start := Resplit(top, before, prev, item);
      Remarks(start.toPrev) + Remarks(start.leading) == Remarks(before) + Remarks(item.leading)
  {
    var want := WantBlank(top, before, prev, item);
    var x, y := Before(before, prev), Lead(item.leading, want);
    var start := Resplit(top, before, prev, item);
    SplitWhole(x + y, item.leading != [] || !want, want);
    RemarksConcat(start.toPrev, start.leading);
    RemarksConcat(x, y);
    RemarksBefore(before, prev, item.leading, want);
  }

  function RunComments(before: seq<Note>, items: seq<Item>, dangling: seq<Note>): (r: seq<Remark>) {
    Remarks(before) + ItemComments(items) + Remarks(dangling)
  }

  function OwnComments(item: Item): (r: seq<Remark>) {
    Remarks(item.leading) + PartComments(item.parts) + Remarks(item.trailing)
  }

  lemma RunCons(before: seq<Note>, items: seq<Item>, dangling: seq<Note>)
    requires items != []
    ensures RunComments(before, items, dangling)
      == Remarks(before) + OwnComments(items[0]) + RunComments(items[0].detached, items[1..], dangling)
  {
    var item, rest := items[0], ItemComments(items[1..]);
    assert ItemComments(items) == OwnComments(item) + Remarks(item.detached) + rest;
    Flatten(Remarks(before), OwnComments(item), Remarks(item.detached), rest, Remarks(dangling));
  }

  lemma Flatten(a: seq<Remark>, b: seq<Remark>, c: seq<Remark>, d: seq<Remark>, e: seq<Remark>)
    ensures a + (b + c + d) + e == a + b + (c + d + e)
  {
  }

  lemma Regrouped(a: seq<Remark>, b: seq<Remark>, c: seq<Remark>, d: seq<Remark>, p: seq<Remark>, t: seq<Remark>,
      r: seq<Remark>)
    requires a + b == c + d
    ensures a + (b + p + t) + r == c + (d + p + t) + r
  {
    assert a + (b + p + t) == (a + b) + p + t;
    assert c + (d + p + t) == (c + d) + p + t;
  }

  lemma {:induction false} SettleKeepsRun(top: bool, before: seq<Note>, prev: Option<Item>, items: seq<Item>,
      dangling: seq<Note>)
    ensures
      var run := SettleRun(top, before, prev, items, dangling);
      RunComments(run.carry, run.items, run.dangling) == RunComments(before, items, dangling)
    decreases items
  {
    if items == [] {
      RemarksConcat(Before(before, prev), dangling);
      RemarksBefore(before, prev, [], false);
      assert ItemComments(items) == [];
      assert Remarks([]) + [] + Remarks(Before(before, prev) + dangling) == Remarks(before) + [] + Remarks(dangling);
    } else {
      var item := items[0];
      assert item in items;
      SettleKeepsRun(top, item.detached, Some(item), items[1..], dangling);
      SettleKeepsParts(item.parts, false, Commented(item.parts));
      SettleKeepsItem(top, before, prev, item, SettleRun(top, item.detached, Some(item), items[1..], dangling));
      RunCons(before, items, dangling);
    }
  }

  lemma SettleKeepsItem(top: bool, before: seq<Note>, prev: Option<Item>, item: Item, run: Run)
    requires PartComments(SettleParts(item.parts, false, Commented(item.parts))) == PartComments(item.parts)
    ensures
      var start := Resplit(top, before, prev, item);
      RunComments(start.toPrev, [SettledItem(item, start, run.carry)] + run.items, run.dangling)
        == Remarks(before) + OwnComments(item) + RunComments(run.carry, run.items, run.dangling)
  {
    var start := Resplit(top, before, prev, item);
    var settled := SettledItem(item, start, run.carry);
    RunCons(start.toPrev, [settled] + run.items, run.dangling);
    assert ([settled] + run.items)[1..] == run.items;
    ResplitKeeps(top, before, prev, item);
    RemarksUnblanked(item.trailing);
    Regrouped(Remarks(start.toPrev), Remarks(start.leading), Remarks(before), Remarks(item.leading),
              PartComments(item.parts), Remarks(item.trailing), RunComments(run.carry, run.items, run.dangling));
  }

  /** Settling parts keeps their comments; parts printed on one line have none. */
  lemma {:induction false} SettleKeepsParts(parts: seq<Part>, inline: bool, commented: bool)
    requires if inline then PartComments(parts) == [] else commented == Commented(parts)
    ensures PartComments(SettleParts(parts, inline, commented)) == PartComments(parts)
    decreases parts
  {
    SettleKeepsEach(parts, inline, commented, 0);
  }

  lemma {:induction false} SettleKeepsEach(parts: seq<Part>, inline: bool, commented: bool, k: nat)
    requires k <= |parts|
    requires if inline then PartComments(parts[k..]) == [] else commented == Commented(parts)
    ensures PartComments(SettleParts(parts[k..], inline, commented)) == PartComments(parts[k..])
    decreases parts, |parts| - k
  {
    if k < |parts| {
      assert parts[k] in parts;
      assert parts[k..][0] == parts[k] && parts[k..][1..] == parts[k + 1..];
      SettleKeepsPart(parts[k], inline, commented);
      SettleKeepsEach(parts, inline, commented, k + 1);
    }
  }

  lemma {:induction false} SettleKeepsPart(part: Part, inline: bool, commented: bool)
    requires inline ==> PartComment(part) == []
    requires !inline && part.Nested? && !part.mode.Body? && HasComments(part.block) ==> commented
    ensures PartComment(SettlePart(part, inline, commented)) == PartComment(part)
    decreases part
  {
    match part
    case Word(_, _) =>
    case Nested(mode, b, _) =>
      if AsBlock(inline, commented, mode, b) {
        SettleKeepsRun(false, b.intro, None, b.items, b.dangling);
      } else {
        FlatHasNone(part, inline, commented);
        InlineHasNone(b.items);
      }
  }

  /** What is printed on one line has no comments. */
  lemma FlatHasNone(part: Part, inline: bool, commented: bool)
    requires part.Nested? && !AsBlock(inline, commented, part.mode, part.block)
    requires inline ==> PartComment(part) == []
    requires !inline && !part.mode.Body? && HasComments(part.block) ==> commented
    ensures PartComment(part) == [] && ItemComments(part.block.items) == []
  {
    var b := part.block;
    if !inline && IsEmpty(b) {
      assert CommentsOf(b) == [];
    }
    assert CommentsOf(b) == [];
    assert |CommentsOf(b)| == |Remarks(b.intro)| + |ItemComments(b.items)| + |Remarks(b.dangling)|;
  }

  lemma {:induction false} InlineHasNone(items: seq<Item>)
    requires ItemComments(items) == []
    ensures ItemComments(SettleInline(items)) == []
    decreases items
  {
    if items != [] {
      assert items[0] in items;
      NoneInside(items);
      InlineHasNone(items[1..]);
      SettleKeepsParts(items[0].parts, true, false);
      assert SettleInline(items)[1..] == SettleInline(items[1..]);
    }
  }

  lemma NoneInside(items: seq<Item>)
    requires items != [] && ItemComments(items) == []
    ensures PartComments(items[0].parts) == [] && ItemComments(items[1..]) == []
  {
    assert |ItemComments(items)| == |Remarks(items[0].leading)| + |PartComments(items[0].parts)|
      + |Remarks(items[0].trailing)| + |Remarks(items[0].detached)| + |ItemComments(items[1..])|;
  }

  // ---- the settled tree prints the same -----------------------------------------------------------

  lemma {:induction false} SpacedConcat(a: seq<Note>, b: seq<Note>, k: seq<Piece>)
    ensures PutSpaced(a + b, k) == PutSpaced(a, PutSpaced(b, k))
  {
    if a == [] {
      assert a + b == b;
    } else {
      assert (a + b)[1..] == a[1..] + b;
      SpacedConcat(a[1..], b, k);
    }
  }

  lemma {:induction false} LinesAreSpaced(notes: seq<Note>, k: seq<Piece>)
    ensures PutSpaced(Unblanked(notes), k) == PutLines(notes, k)
  {
    if notes != [] {
      assert Unblanked(notes)[1..] == Unblanked(notes[1..]);
      LinesAreSpaced(notes[1..], k);
    }
  }

  lemma LeadIsSpaced(notes: seq<Note>, want: bool, k: seq<Piece>)
    requires notes != []
    ensures PutSpaced(Lead(notes, want), k) == LineEnd(want) + PutLines(notes, k)
  {
    LinesAreSpaced(notes[1..], k);
    assert Lead(notes, want)[1..] == Unblanked(notes[1..]);
    var rest := PutLines(notes[1..], k);
    assert LineEnd(want) + [Com(notes[0].remark), NewLine] + rest
      == LineEnd(want) + ([Com(notes[0].remark), NewLine] + rest);
  }

  lemma BeforeIsSpaced(before: seq<Note>, prev: Option<Item>, k: seq<Piece>)
    ensures PutSpaced(Before(before, prev), k) == PutBefore(before, prev, k)
  {
    if prev.None? && before != [] {
      assert Before(before, prev)[1..] == before[1..];
      assert LineEnd(false) + [Com(before[0].remark), NewLine] == [Com(before[0].remark), NewLine];
    }
  }

  /** Everything between two items is one run of spaced comments. */
  lemma BoundaryIsSpaced(before: seq<Note>, prev: Option<Item>, leading: seq<Note>, want: bool, k: seq<Piece>)
    ensures PutBefore(before, prev, LineEnd(want) + PutLines(leading, k))
      == PutSpaced(Before(before, prev) + Lead(leading, want), LineEnd(want && leading == []) + k)
  {
    if leading == [] {
      assert Before(before, prev) + [] == Before(before, prev);
      BeforeIsSpaced(before, prev, LineEnd(want) + k);
    } else {
      SpacedConcat(Before(before, prev), Lead(leading, want), k);
      LeadIsSpaced(leading, want, k);
      BeforeIsSpaced(before, prev, LineEnd(want) + PutLines(leading, k));
      assert LineEnd(false) + k == k;
    }
  }

  lemma SplitFacts(notes: seq<Note>, near: bool, tokBlank: bool)
    ensures
      var start := SplitPending(notes, near, tokBlank);
      && start.toPrev + start.leading == notes
      && (start.leading == [] <==> notes == [] || !near)
      && (start.leading == [] ==> start.blank == tokBlank)
      && (start.leading != [] ==> start.blank == start.leading[0].blank)
      && (start.leading != [] && start.toPrev != [] ==> start.leading[0].blank)
      && (forall i :: 0 < i < |start.leading| ==> !start.leading[i].blank)
  {
    SplitWhole(notes, near, tokBlank);
    if notes != [] && near {
      SplitNearFacts(notes, tokBlank);
    }
  }

  /** The leading comments of an item are the longest run without a blank line that ends on the line before the item or
    later; the blank line in front of the run, or of the item, is the item's. */
  lemma LeadingIs(pend: seq<Comment>, tok: Token)
    ensures
      var start := BeginItem(pend, tok);
      && start.toPrev + start.leading == Notes(pend)
      && (start.leading != [] <==> pend != [] && tok.line - EndLine(pend[|pend| - 1]) <= 1)
      && (forall i :: 0 < i < |start.leading| ==> !start.leading[i].blank)
      && (start.leading != [] && start.toPrev != [] ==> start.leading[0].blank)
      && start.blank == if start.leading != [] then start.leading[0].blank else tok.blank
  {
    SplitFacts(Notes(pend), pend != [] && tok.line <= EndLine(pend[|pend| - 1]) + 1, tok.blank);
  }

  lemma SplitNearFacts(notes: seq<Note>, tokBlank: bool)
    requires notes != []
    ensures
      var start := SplitPending(notes, true, tokBlank);
      && start.leading != []
      && start.blank == start.leading[0].blank
      && (start.toPrev != [] ==> start.leading[0].blank)
      && (forall i :: 0 < i < |start.leading| ==> !start.leading[i].blank)
  {
    var j := Boundary(notes);
    var leading := notes[j..];
    assert leading[0] == notes[j];
    forall i | 0 < i < |leading| ensures !leading[i].blank {
      assert leading[i] == notes[j + i];
    }
  }

  lemma LeadOfLead(notes: seq<Note>, want: bool)
    requires notes != [] ==> notes[0].blank == want
    requires forall i :: 0 < i < |notes| ==> !notes[i].blank
    ensures Lead(notes, want) == notes
  {
    if notes != [] {
      assert forall i :: 0 <= i < |notes| ==> Lead(notes, want)[i] == notes[i];
    }
  }

  /** A blank line that is wanted before leading comments stays before the first of them. */
  lemma WantedStays(x: seq<Note>, leading: seq<Note>)
    requires leading != []
    ensures SplitPending(x + Lead(leading, true), true, true).leading == Lead(leading, true)
  {
    var all := x + Lead(leading, true);
    assert all[|x|].blank;
    assert forall i :: |x| < i < |all| ==> !all[i].blank;
    assert Boundary(all) == |x|;
    assert all[|x|..] == Lead(leading, true);
  }

  lemma BlankAgain(top: bool, before: seq<Note>, prev: Option<Item>, item: Item, prev': Option<Item>, item': Item)
    requires prev.Some? <==> prev'.Some?
    requires prev.Some? ==> GroupOf(prev.value) == GroupOf(prev'.value)
    requires GroupOf(item') == GroupOf(item) && item'.blank == Resplit(top, before, prev, item).blank
    ensures
      var start := Resplit(top, before, prev, item);
      start.leading != [] ==> start.leading[0].blank == WantBlank(top, start.toPrev, prev', item')
  {
    var start, want := Resplit(top, before, prev, item), WantBlank(top, before, prev, item);
    var x, y := Before(before, prev), Lead(item.leading, want);
    SplitFacts(x + y, item.leading != [] || !want, want);
    if prev.None? {
      assert start.toPrev == [] && start.leading != [] ==> start.leading[0] == (x + y)[0];
    } else if want && item.leading != [] {
      WantedStays(x, item.leading);
    }
  }

  lemma BeforeAgain(notes: seq<Note>, prev: Option<Item>)
    requires prev.None? && notes != [] ==> !notes[0].blank
    ensures Before(notes, prev) == notes
  {
    if prev.None? && notes != [] {
      assert [Note(notes[0].remark, false)] + notes[1..] == notes;
    }
  }

  lemma FirstUnblanked(before: seq<Note>, prev: Option<Item>, leading: seq<Note>)
    requires prev.None?
    ensures
      var all := Before(before, prev) + Lead(leading, before != []);
      all != [] ==> !all[0].blank
  {
  }

  /** The settled boundary is written with the same blank lines. */
  lemma ResplitSettled(top: bool, before: seq<Note>, prev: Option<Item>, item: Item, prev': Option<Item>, item': Item)
    requires prev.Some? <==> prev'.Some?
    requires prev.Some? ==> GroupOf(prev.value) == GroupOf(prev'.value)
    requires GroupOf(item') == GroupOf(item) && item'.blank == Resplit(top, before, prev, item).blank
    ensures
      var start, want := Resplit(top, before, prev, item), WantBlank(top, before, prev, item);
      var want' := WantBlank(top, start.toPrev, prev', item');
      && start.toPrev + start.leading == Before(before, prev) + Lead(item.leading, want)
      && Before(start.toPrev, prev') == start.toPrev
      && Lead(start.leading, want') == start.leading
  {
    var start, want := Resplit(top, before, prev, item), WantBlank(top, before, prev, item);
    var all := Before(before, prev) + Lead(item.leading, want);
    SplitFacts(all, item.leading != [] || !want, want);
    BlankAgain(top, before, prev, item, prev', item');
    LeadOfLead(start.leading, WantBlank(top, start.toPrev, prev', item'));
    if prev.None? {
      FirstUnblanked(before, prev, item.leading);
      assert start.toPrev != [] ==> start.toPrev[0] == all[0];
    }
    BeforeAgain(start.toPrev, prev');
  }

  /** A blank line right above the token stays there. */
  lemma BareBlankAgain(top: bool, before: seq<Note>, prev: Option<Item>, item: Item, prev': Option<Item>, item': Item)
    requires prev.Some? <==> prev'.Some?
    requires prev.Some? ==> GroupOf(prev.value) == GroupOf(prev'.value)
    requires GroupOf(item') == GroupOf(item) && item'.blank == Resplit(top, before, prev, item).blank
    ensures
      var start, want := Resplit(top, before, prev, item), WantBlank(top, before, prev, item);
      WantBlank(top, start.toPrev, prev', item') && start.leading == [] <==> want && item.leading == []
  {
    var start, want := Resplit(top, before, prev, item), WantBlank(top, before, prev, item);
    var x, y := Before(before, prev), Lead(item.leading, want);
    SplitFacts(x + y, item.leading != [] || !want, want);
    assert x == [] <==> before == [];
    assert y == [] <==> item.leading == [];
    assert x + y == [] <==> x == [] && y == [];
    assert start.leading == [] ==> |start.toPrev| == |x + y|;
  }

  lemma SameGroup(item: Item, start: Start, carry: seq<Note>)
    ensures GroupOf(SettledItem(item, start, carry)) == GroupOf(item)
  {
    if item.parts != [] {
      assert SettleParts(item.parts, false, Commented(item.parts))[0]
        == SettlePart(item.parts[0], false, Commented(item.parts));
    }
  }

  lemma {:induction false} SameOnLine(notes: seq<Note>, k: seq<Piece>)
    ensures PutSame(Unblanked(notes), k) == PutSame(notes, k)
  {
    if notes != [] {
      assert Unblanked(notes)[1..] == Unblanked(notes[1..]);
      SameOnLine(notes[1..], k);
    }
  }

  lemma {:induction false} SamePrintRun(top: bool, before: seq<Note>, prev: Option<Item>, prev': Option<Item>,
                                        items: seq<Item>, dangling: seq<Note>, k: seq<Piece>)
    requires prev.Some? <==> prev'.Some?
    requires prev.Some? ==> GroupOf(prev.value) == GroupOf(prev'.value)
    ensures
      var run := SettleRun(top, before, prev, items, dangling);
      PutRun(top, run.carry, prev', run.items, run.dangling, k) == PutRun(top, before, prev, items, dangling, k)
    decreases items
  {
    if items == [] {
      SpacedConcat(Before(before, prev), dangling, k);
      BeforeIsSpaced(before, prev, PutSpaced(dangling, k));
    } else {
      var item := items[0];
      assert item in items;
      var run := SettleRun(top, item.detached, Some(item), items[1..], dangling);
      var start := Resplit(top, before, prev, item);
      var item' := SettledItem(item, start, run.carry);
      SameGroup(item, start, run.carry);
      SamePrintRun(top, item.detached, Some(item), Some(item'), items[1..], dangling, k);
      SamePrintWords(item, start, run.carry, PutRun(top, item.detached, Some(item), items[1..], dangling, k));
      SamePrintFirst(top, before, prev, item, prev', item',
                     Words(item, PutRun(top, item.detached, Some(item), items[1..], dangling, k)));
      assert ([item'] + run.items)[1..] == run.items;
    }
  }

  lemma SamePrintFirst(top: bool, before: seq<Note>, prev: Option<Item>, item: Item, prev': Option<Item>,
      item': Item, k: seq<Piece>)
    requires prev.Some? <==> prev'.Some?
    requires prev.Some? ==> GroupOf(prev.value) == GroupOf(prev'.value)
    requires GroupOf(item') == GroupOf(item) && item'.blank == Resplit(top, before, prev, item).blank
    ensures
      var start := Resplit(top, before, prev, item);
      PutBefore(start.toPrev, prev', LineEnd(WantBlank(top, start.toPrev, prev', item')) + PutLines(start.leading, k))
        == PutBefore(before, prev, LineEnd(WantBlank(top, before, prev, item)) + PutLines(item.leading, k))
  {
    var start, want := Resplit(top, before, prev, item), WantBlank(top, before, prev, item);
    var want' := WantBlank(top, start.toPrev, prev', item');
    ResplitSettled(top, before, prev, item, prev', item');
    BareBlankAgain(top, before, prev, item, prev', item');
    BoundaryIsSpaced(before, prev, item.leading, want, k);
    BoundaryIsSpaced(start.toPrev, prev', start.leading, want', k);
  }

  lemma {:induction false} SamePrintWords(item: Item, start: Start, carry: seq<Note>, rest: seq<Piece>)
    ensures Words(SettledItem(item, start, carry), rest) == Words(item, rest)
    decreases item
  {
    var after := PutSame(item.trailing, [NewLine] + rest);
    SameOnLine(item.trailing, [NewLine] + rest);
    SameCommented(item.parts);
    SamePrintParts(item.parts, false, Commented(item.parts), false, after);
  }

  lemma {:induction false} SameCommented(parts: seq<Part>)
    ensures Commented(SettleParts(parts, false, Commented(parts))) <==> Commented(parts)
  {
    var commented := Commented(parts);
    var settled := SettleParts(parts, false, commented);
    SettleAt(parts, false, commented);
    forall i | 0 <= i < |parts| && parts[i].Nested?
      ensures !parts[i].mode.Body? ==> (HasComments(parts[i].block) <==> HasComments(settled[i].block))
    {
      if !parts[i].mode.Body? {
        SettleKeepsPart(parts[i], false, commented);
      }
    }
    if i :| 0 <= i < |parts| && parts[i].Nested? && !parts[i].mode.Body? && HasComments(parts[i].block) {
      assert HasComments(settled[i].block);
    }
    if i :| 0 <= i < |settled| && settled[i].Nested? && !settled[i].mode.Body? && HasComments(settled[i].block) {
      assert HasComments(parts[i].block);
    }
  }

  lemma {:induction false} SettleAt(parts: seq<Part>, inline: bool, commented: bool)
    ensures |SettleParts(parts, inline, commented)| == |parts|
    ensures forall i :: 0 <= i < |parts| ==>
      SettleParts(parts, inline, commented)[i] == SettlePart(parts[i], inline, commented)
  {
    if parts != [] {
      SettleAt(parts[1..], inline, commented);
    }
  }

  lemma {:induction false} SamePrintParts(parts: seq<Part>, inline: bool, commented: bool, separate: bool,
      k: seq<Piece>)
    requires if inline then PartComments(parts) == [] else commented == Commented(parts)
    ensures PutParts(SettleParts(parts, inline, commented), inline, commented, separate, k)
      == PutParts(parts, inline, commented, separate, k)
    decreases parts, |parts| + 1
  {
    SamePrintEach(parts, inline, commented, separate, k, 0);
  }

  lemma {:induction false} SamePrintEach(parts: seq<Part>, inline: bool, commented: bool, separate: bool,
      k: seq<Piece>, n: nat)
    requires n <= |parts|
    requires if inline then PartComments(parts[n..]) == [] else commented == Commented(parts)
    ensures PutParts(SettleParts(parts[n..], inline, commented), inline, commented, separate, k)
      == PutParts(parts[n..], inline, commented, separate, k)
    decreases parts, |parts| - n
  {
    if n < |parts| {
      assert parts[n] in parts;
      assert parts[n..][0] == parts[n] && parts[n..][1..] == parts[n + 1..];
      var settled := SettleParts(parts[n + 1..], inline, commented);
      SettleAt(parts[n + 1..], inline, commented);
      SamePrintEach(parts, inline, commented, separate, k, n + 1);
      SamePrintPart(parts[n], inline, commented, |parts| - n == 1 && !separate,
                    PutParts(parts[n + 1..], inline, commented, separate, k));
      assert ([SettlePart(parts[n], inline, commented)] + settled)[1..] == settled;
    }
  }

  lemma {:induction false} SamePrintPart(part: Part, inline: bool, commented: bool, last: bool, k: seq<Piece>)
    requires inline ==> PartComment(part) == []
    requires !inline && part.Nested? && !part.mode.Body? && HasComments(part.block) ==> commented
    ensures PutPart(SettlePart(part, inline, commented), inline, commented, last, k)
      == PutPart(part, inline, commented, last, k)
    decreases part
  {
    match part
    case Word(_, _) =>
    case Nested(mode, b, cut) =>
      var end := [Tok(Close, last)] + LineEnd(cut && commented && !last) + k;
      SettledShape(part, inline, commented);
      if AsBlock(inline, commented, mode, b) {
        SamePrintRun(false, b.intro, None, None, b.items, b.dangling, end);
      } else {
        FlatHasNone(part, inline, commented);
        SamePrintInline(b.items, end);
      }
  }

  /** A settled part is written in the same shape, as a block or on one line. */
  lemma {:induction false} SettledShape(part: Part, inline: bool, commented: bool)
    requires part.Nested?
    requires inline ==> PartComment(part) == []
    requires !inline && !part.mode.Body? && HasComments(part.block) ==> commented
    ensures
      var settled := SettlePart(part, inline, commented);
      AsBlock(inline, commented, settled.mode, settled.block) <==> AsBlock(inline, commented, part.mode, part.block)
  {
    SettleKeepsPart(part, inline, commented);
    if AsBlock(inline, commented, part.mode, part.block) {
      SameEmptiness(part.block);
    } else {
      SettleInlineLength(part.block.items);
    }
  }

  lemma SameEmptiness(b: Block)
    ensures IsEmpty(SettleBlock(false, b)) ==> IsEmpty(b)
  {
    SettleKeepsRun(false, b.intro, None, b.items, b.dangling);
    var run := SettleRun(false, b.intro, None, b.items, b.dangling);
    if b.items == [] {
      assert |RunComments(b.intro, b.items, b.dangling)| == |b.intro| + |b.dangling|;
      assert |RunComments(run.carry, run.items, run.dangling)| == |run.carry| + |run.dangling|;
    }
  }

  lemma {:induction false} SamePrintInline(items: seq<Item>, k: seq<Piece>)
    requires ItemComments(items) == []
    ensures PutInline(SettleInline(items), k) == PutInline(items, k)
    decreases items
  {
    if items != [] {
      assert items[0] in items;
      NoneInside(items);
      SamePrintInline(items[1..], k);
      SamePrintParts(items[0].parts, true, false, |items| > 1, PutInline(items[1..], k));
      SettleInlineLength(items);
      assert SettleInline(items)[1..] == SettleInline(items[1..]);
    }
  }

  lemma {:induction false} SettleInlineLength(items: seq<Item>)
    ensures |SettleInline(items)| == |items|
  {
    if items != [] {
      SettleInlineLength(items[1..]);
    }
  }
}
