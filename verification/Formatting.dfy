/** The promises of the formatter, for every file that parses. */
module Formatting {
  import opened Symbols
  import opened Layout
  import opened LayoutRoundTrip
  import opened FormatStable
  import opened Comments

  /** A whole file: one scope up to the end of the stream, with at least one item. */
  function ParseFile(c: Cursor): (r: Option<Block>) {
    var scope := ParseRun(c);
    if scope.None? || scope.value.rest != Cursor([], []) || scope.value.run.items == [] then None
    else Some(BlockOf(scope.value.run))
  }

  /** All comments of the file are in its tree, in source order. */
  lemma CommentsConserved(c: Cursor)
    requires ParseFile(c).Some?
    ensures CommentsOf(ParseFile(c).value) == RemarksOf(Stream(c))
  {
    ParseKeepsRun(c);
    assert Stream(c)[..|Stream(c)|] == Stream(c);
  }

  /** The formatted text has all of them, once each and in the same order. */
  lemma CommentsWrittenOnce(c: Cursor)
    requires ParseFile(c).Some?
    ensures Written(Format(ParseFile(c).value)) == RemarksOf(Stream(c))
  {
    var file := ParseFile(c).value;
    CommentsConserved(c);
    WrittenRun(true, file.intro, None, file.items, file.dangling, [Tok(Close, false)]);
  }

  /** Parsing the formatted text gives the settled tree. */
  lemma FormatParses(c: Cursor)
    requires ParseFile(c).Some? && Readable(Stream(c))
    ensures ParseFile(Lex(Format(ParseFile(c).value))) == Some(SettleBlock(true, ParseFile(c).value))
  {
    var file := ParseFile(c).value;
    ParseKeepsRun(c);
    var close := ReparseRun(true, file.intro, None, file.items, file.dangling, false, [], At(1, 0));
    assert [Tok(Close, false)] + [] == [Tok(Close, false)];
  }

  /** Formatting a formatted file changes nothing. */
  lemma FormatIdempotent(c: Cursor)
    requires ParseFile(c).Some? && Readable(Stream(c))
    ensures
      var text := Format(ParseFile(c).value);
      ParseFile(Lex(text)).Some? && Format(ParseFile(Lex(text)).value) == text
  {
    var file := ParseFile(c).value;
    FormatParses(c);
    SamePrintRun(true, file.intro, None, None, file.items, file.dangling, [Tok(Close, false)]);
  }

  // ---- comments that run to the end of the line --------------------------------------------------

  /** Every comment that swallows the rest of its line is followed by a line break. */
  predicate LinesClosed(ps: seq<Piece>) {
    ps == [] || ((ps[0].Com? && ps[0].remark.toLineEnd ==> |ps| > 1 && ps[1].NewLine?) && LinesClosed(ps[1..]))
  }

  lemma ClosedMark(p: Piece, k: seq<Piece>)
    requires LinesClosed(k) && (p.Com? && p.remark.toLineEnd ==> k != [] && k[0].NewLine?)
    ensures LinesClosed([p] + k)
  {
    assert ([p] + k)[1..] == k;
  }

  lemma ClosedEnd(here: bool, k: seq<Piece>)
    requires LinesClosed(k)
    ensures LinesClosed(LineEnd(here) + k)
  {
    if here {
      ClosedMark(NewLine, k);
    } else {
      assert [] + k == k;
    }
  }

  lemma ClosedRemark(remark: Remark, k: seq<Piece>)
    requires LinesClosed(k)
    ensures LinesClosed([Com(remark), NewLine] + k)
  {
    ClosedMark(NewLine, k);
    ClosedMark(Com(remark), [NewLine] + k);
    assert [Com(remark), NewLine] + k == [Com(remark)] + ([NewLine] + k);
  }

  lemma {:induction false} ClosedLines(notes: seq<Note>, k: seq<Piece>)
    requires LinesClosed(k)
    ensures LinesClosed(PutLines(notes, k))
  {
    if notes != [] {
      ClosedLines(notes[1..], k);
      ClosedRemark(notes[0].remark, PutLines(notes[1..], k));
    }
  }

  lemma {:induction false} ClosedSpaced(notes: seq<Note>, k: seq<Piece>)
    requires LinesClosed(k)
    ensures LinesClosed(PutSpaced(notes, k))
  {
    if notes != [] {
      ClosedSpaced(notes[1..], k);
      ClosedRemark(notes[0].remark, PutSpaced(notes[1..], k));
      ClosedEnd(notes[0].blank, [Com(notes[0].remark), NewLine] + PutSpaced(notes[1..], k));
      SpacedCons(notes, k);
    }
  }

  lemma ClosedBefore(before: seq<Note>, prev: Option<Item>, k: seq<Piece>)
    requires LinesClosed(k)
    ensures LinesClosed(PutBefore(before, prev, k))
  {
    ClosedSpaced(before, k);
    if prev.None? && before != [] {
      ClosedSpaced(before[1..], k);
      ClosedRemark(before[0].remark, PutSpaced(before[1..], k));
    }
  }

  lemma {:induction false} ClosedSame(notes: seq<Note>, k: seq<Piece>)
    requires LinesClosed(k) && SameLine(notes)
    ensures LinesClosed(PutSame(notes, [NewLine] + k))
  {
    ClosedMark(NewLine, k);
    if notes != [] {
      if |notes| > 1 {
        assert !notes[0].remark.toLineEnd;
        assert SameLine(notes[1..]) by {
          forall i | 0 <= i < |notes[1..]| - 1
            ensures !notes[1..][i].remark.toLineEnd && notes[1..][i].remark.height == 0
          {
            assert notes[1..][i] == notes[i + 1];
          }
        }
      }
      ClosedSame(notes[1..], k);
      ClosedMark(Com(notes[0].remark), PutSame(notes[1..], [NewLine] + k));
    }
  }

  lemma {:induction false} ClosedRun(top: bool, before: seq<Note>, prev: Option<Item>, items: seq<Item>,
      dangling: seq<Note>, k: seq<Piece>)
    requires LinesClosed(k) && PrintableItems(items)
    ensures LinesClosed(PutRun(top, before, prev, items, dangling, k))
    decreases items
  {
    if items == [] {
      ClosedSpaced(dangling, k);
      ClosedBefore(before, prev, PutSpaced(dangling, k));
    } else {
      var item := items[0];
      assert item in items;
      var rest := PutRun(top, item.detached, Some(item), items[1..], dangling, k);
      ClosedRun(top, item.detached, Some(item), items[1..], dangling, k);
      ClosedSame(item.trailing, rest);
      ClosedParts(item.parts, false, Commented(item.parts), false, PutSame(item.trailing, [NewLine] + rest));
      ClosedLines(item.leading, Words(item, rest));
      ClosedEnd(WantBlank(top, before, prev, item), PutLines(item.leading, Words(item, rest)));
      ClosedBefore(before, prev,
                   LineEnd(WantBlank(top, before, prev, item)) + PutLines(item.leading, Words(item, rest)));
    }
  }

  lemma {:induction false} ClosedParts(parts: seq<Part>, inline: bool, commented: bool, separate: bool, k: seq<Piece>)
    requires LinesClosed(k) && PrintableParts(parts)
    ensures LinesClosed(PutParts(parts, inline, commented, separate, k))
    decreases parts
  {
    if parts == [] {
      ClosedMark(Tok(Separator, true), k);
    } else {
      ClosedParts(parts[1..], inline, commented, separate, k);
      ClosedPart(parts[0], inline, commented, |parts| == 1 && !separate,
                 PutParts(parts[1..], inline, commented, separate, k));
    }
  }

  lemma {:induction false} ClosedPart(part: Part, inline: bool, commented: bool, last: bool, k: seq<Piece>)
    requires LinesClosed(k) && PrintablePart(part)
    ensures LinesClosed(PutPart(part, inline, commented, last, k))
    decreases part
  {
    match part
    case Word(text, cut) =>
      ClosedEnd(cut && commented && !last, k);
      ClosedMark(Tok(Plain(text, cut), last), LineEnd(cut && commented && !last) + k);
      assert PutPart(part, inline, commented, last, k)
        == [Tok(Plain(text, cut), last)] + (LineEnd(cut && commented && !last) + k);
    case Nested(mode, b, cut) =>
      var end := [Tok(Close, last)] + (LineEnd(cut && commented && !last) + k);
      ClosedEnd(cut && commented && !last, k);
      ClosedMark(Tok(Close, last), LineEnd(cut && commented && !last) + k);
      if AsBlock(inline, commented, mode, b) {
        var inner := PutRun(false, b.intro, None, b.items, b.dangling, end);
        ClosedRun(false, b.intro, None, b.items, b.dangling, end);
        ClosedEnd(true, inner);
        ClosedMark(Tok(Open(mode, cut), false), LineEnd(true) + inner);
        PutBlock(part, inline, commented, last, k);
      } else {
        PutFlat(part, inline, commented, last, k);
        ClosedInline(b.items, end);
        ClosedMark(Tok(Open(mode, cut), false), PutInline(b.items, end));
      }
  }

  lemma {:induction false} ClosedInline(items: seq<Item>, k: seq<Piece>)
    requires LinesClosed(k) && PrintableItems(items)
    ensures LinesClosed(PutInline(items, k))
    decreases items
  {
    if items != [] {
      assert items[0] in items;
      ClosedInline(items[1..], k);
      ClosedParts(items[0].parts, true, false, |items| > 1, PutInline(items[1..], k));
    }
  }

  /** No comment of the formatted text swallows what follows it. */
  lemma FormattedLinesClosed(c: Cursor)
    requires ParseFile(c).Some? && Readable(Stream(c))
    ensures LinesClosed(Format(ParseFile(c).value))
  {
    var file := ParseFile(c).value;
    ParseKeepsRun(c);
    ClosedRun(true, file.intro, None, file.items, file.dangling, [Tok(Close, false)]);
  }

  // ---- when comments keep their slots --------------------------------------------------------------

  /** The tree without its blank-line flags: words, scopes and slots. */
  function EraseBlock(b: Block): (r: Block)
    decreases b
  {
    Block(Unblanked(b.intro), EraseItems(b.items), Unblanked(b.dangling))
  }

  function EraseItems(items: seq<Item>): (r: seq<Item>)
    decreases items
  {
    if items == [] then []
    else
      [Item(EraseParts(items[0].parts), false, Unblanked(items[0].leading), Unblanked(items[0].trailing),
            Unblanked(items[0].detached))] + EraseItems(items[1..])
  }

  function EraseParts(parts: seq<Part>): (r: seq<Part>)
    decreases parts
  {
    if parts == [] then [] else [ErasePart(parts[0])] + EraseParts(parts[1..])
  }

  function ErasePart(part: Part): (r: Part)
    decreases part
  {
    match part
    case Word(_, _) => part
    case Nested(mode, b, cut) => Nested(mode, EraseBlock(b), cut)
  }

  /** Detached comments are followed by a blank line or by a definition at the top level. */
  ghost predicate StableRun(top: bool, before: seq<Note>, prev: Option<Item>, items: seq<Item>)
    decreases items
  {
    if items == [] then before == []
    else
      && (prev.Some? && before != [] ==> items[0].blank || Force(top, prev.value, items[0]))
      && StableParts(items[0].parts, false, Commented(items[0].parts))
      && StableRun(top, items[0].detached, Some(items[0]), items[1..])
  }

  ghost predicate StableParts(parts: seq<Part>, inline: bool, commented: bool)
    decreases parts
  {
    parts == [] || (StablePart(parts[0], inline, commented) && StableParts(parts[1..], inline, commented))
  }

  ghost predicate StablePart(part: Part, inline: bool, commented: bool)
    decreases part
  {
    match part
    case Word(_, _) => true
    case Nested(mode, b, _) => AsBlock(inline, commented, mode, b) ==> StableBlock(false, b)
  }

  ghost predicate StableBlock(top: bool, b: Block)
    decreases b
  {
    StableRun(top, b.intro, None, b.items)
  }

  // ---- settled trees have the same slots just when they are stable ---------------------------------

  lemma {:induction false} EraseAt(parts: seq<Part>)
    ensures |EraseParts(parts)| == |parts|
  {
    if parts != [] {
      EraseAt(parts[1..]);
    }
  }

  lemma EraseCons(item: Item, items: seq<Item>, other: Item, others: seq<Item>)
    ensures EraseItems([item] + items) == EraseItems([other] + others) <==>
      && EraseParts(item.parts) == EraseParts(other.parts)
      && Unblanked(item.leading) == Unblanked(other.leading)
      && Unblanked(item.trailing) == Unblanked(other.trailing)
      && Unblanked(item.detached) == Unblanked(other.detached)
      && EraseItems(items) == EraseItems(others)
  {
    var x := Item(EraseParts(item.parts), false, Unblanked(item.leading), Unblanked(item.trailing),
        Unblanked(item.detached));
    var y := Item(EraseParts(other.parts), false, Unblanked(other.leading), Unblanked(other.trailing),
        Unblanked(other.detached));
    assert ([item] + items)[1..] == items && ([other] + others)[1..] == others;
    assert EraseItems([item] + items) == [x] + EraseItems(items);
    assert EraseItems([other] + others) == [y] + EraseItems(others);
    ConsEqual(x, EraseItems(items), y, EraseItems(others));
  }

  lemma ConsEqual<T>(x: T, s: seq<T>, y: T, t: seq<T>)
    ensures [x] + s == [y] + t <==> x == y && s == t
  {
    if [x] + s == [y] + t {
      assert ([x] + s)[0] == x && ([y] + t)[0] == y;
      assert s == ([x] + s)[1..] && t == ([y] + t)[1..];
    }
  }

  lemma SameSides(x: seq<Note>, y: seq<Note>, p: seq<Note>, q: seq<Note>)
    requires p + q == x + y
    ensures |p| == |x| ==> p == x && q == y
  {
    if |p| == |x| {
      assert p == (p + q)[..|p|] && x == (x + y)[..|x|];
      assert q == (p + q)[|p|..] && y == (x + y)[|x|..];
    }
  }

  lemma SidesAreEqual(x: seq<Note>, y: seq<Note>, p: seq<Note>, q: seq<Note>)
    requires p + q == x + y
    ensures Unblanked(p) == Unblanked(x) && Unblanked(q) == Unblanked(y) <==> |p| == |x|
  {
    SameSides(x, y, p, q);
    assert |Unblanked(p)| == |p| && |Unblanked(x)| == |x|;
  }

  lemma UnblankedBefore(before: seq<Note>, prev: Option<Item>)
    ensures |Before(before, prev)| == |before|
    ensures Unblanked(Before(before, prev)) == Unblanked(before)
  {
    assert forall i :: 0 <= i < |before| ==> Before(before, prev)[i].remark == before[i].remark;
  }

  lemma UnblankedLead(leading: seq<Note>, want: bool)
    ensures Unblanked(Lead(leading, want)) == Unblanked(leading)
  {
    var lead := Lead(leading, want);
    assert |lead| == |leading|;
    forall i | 0 <= i < |leading| ensures lead[i].remark == leading[i].remark {
      if i > 0 {
        assert lead[i] == Unblanked(leading[1..])[i - 1];
      }
    }
  }

  /** The boundary comments keep their sides just when a blank line separates them. */
  lemma SidesKept(top: bool, before: seq<Note>, prev: Option<Item>, item: Item)
    ensures
      var start := Resplit(top, before, prev, item);
      (Unblanked(start.toPrev) == Unblanked(before) && Unblanked(start.leading) == Unblanked(item.leading))
      <==> (prev.Some? && before != [] ==> item.blank || Force(top, prev.value, item))
  {
    var start, want := Resplit(top, before, prev, item), WantBlank(top, before, prev, item);
    var x, y := Before(before, prev), Lead(item.leading, want);
    SplitWhole(x + y, item.leading != [] || !want, want);
    SidesAreEqual(x, y, start.toPrev, start.leading);
    UnblankedBefore(before, prev);
    UnblankedLead(item.leading, want);
    SidesByLength(top, before, prev, item);
  }

  lemma NoBlankSplit(notes: seq<Note>, tokBlank: bool)
    requires forall i :: 0 <= i < |notes| ==> !notes[i].blank
    ensures SplitPending(notes, true, tokBlank).toPrev == []
  {
    assert Boundary(notes) == 0;
  }

  lemma SidesByLength(top: bool, before: seq<Note>, prev: Option<Item>, item: Item)
    ensures |Resplit(top, before, prev, item).toPrev| == |before|
      <==> (prev.Some? && before != [] ==> item.blank || Force(top, prev.value, item))
  {
    var start, want := Resplit(top, before, prev, item), WantBlank(top, before, prev, item);
    var x, y := Before(before, prev), Lead(item.leading, want);
    SplitFacts(x + y, item.leading != [] || !want, want);
    if want {
      if item.leading != [] {
        WantedStays(x, item.leading);
        assert |start.toPrev| + |start.leading| == |x + y|;
      }
    } else if before == [] {
      assert x + y == y;
      NoBlankSplit(y, want);
    } else if |start.toPrev| == |x| {
      LastOfX(x, y, start);
    }
  }

  /** Without a blank line in front of `y` the split never falls between `x` and `y`. */
  lemma LastOfX(x: seq<Note>, y: seq<Note>, start: Start)
    requires x != [] && start.toPrev + start.leading == x + y && |start.toPrev| == |x|
    requires y != [] ==> !y[0].blank
    ensures start.leading == [] || !start.leading[0].blank
  {
    SameSides(x, y, start.toPrev, start.leading);
  }

  lemma {:induction false} SlotsRun(top: bool, before: seq<Note>, prev: Option<Item>, items: seq<Item>,
      dangling: seq<Note>)
    ensures
      var run := SettleRun(top, before, prev, items, dangling);
      (Unblanked(run.carry) == Unblanked(before) && EraseItems(run.items) == EraseItems(items)
        && Unblanked(run.dangling) == Unblanked(dangling))
      <==> StableRun(top, before, prev, items)
    decreases items
  {
    if items == [] {
      assert before == [] ==> Before(before, prev) + dangling == dangling;
      assert before != [] ==> |Unblanked(before)| != |Unblanked([])|;
    } else {
      var item := items[0];
      assert item in items;
      var run := SettleRun(top, item.detached, Some(item), items[1..], dangling);
      var start := Resplit(top, before, prev, item);
      SlotsRun(top, item.detached, Some(item), items[1..], dangling);
      SlotsParts(item.parts, false, Commented(item.parts), 0);
      assert item.parts[0..] == item.parts;
      SidesKept(top, before, prev, item);
      EraseCons(SettledItem(item, start, run.carry), run.items, item, items[1..]);
      assert Unblanked(Unblanked(item.trailing)) == Unblanked(item.trailing);
      assert [item] + items[1..] == items;
    }
  }

  lemma {:induction false} SlotsParts(parts: seq<Part>, inline: bool, commented: bool, n: nat)
    requires n <= |parts|
    requires if inline then PartComments(parts[n..]) == [] else commented == Commented(parts)
    ensures EraseParts(SettleParts(parts[n..], inline, commented)) == EraseParts(parts[n..])
      <==> StableParts(parts[n..], inline, commented)
    decreases parts, |parts| - n
  {
    if n < |parts| {
      assert parts[n] in parts;
      assert parts[n..][0] == parts[n] && parts[n..][1..] == parts[n + 1..];
      SlotsParts(parts, inline, commented, n + 1);
      SlotsPart(parts[n], inline, commented);
      var head, tail := SettlePart(parts[n], inline, commented), SettleParts(parts[n + 1..], inline, commented);
      assert SettleParts(parts[n..], inline, commented) == [head] + tail;
      assert ([head] + tail)[1..] == tail;
      ConsEqual(ErasePart(head), EraseParts(tail), ErasePart(parts[n]), EraseParts(parts[n + 1..]));
    }
  }

  lemma {:induction false} SlotsPart(part: Part, inline: bool, commented: bool)
    requires inline ==> PartComment(part) == []
    requires !inline && part.Nested? && !part.mode.Body? && HasComments(part.block) ==> commented
    ensures ErasePart(SettlePart(part, inline, commented)) == ErasePart(part) <==> StablePart(part, inline, commented)
    decreases part
  {
    match part
    case Word(_, _) =>
    case Nested(mode, b, cut) =>
      if AsBlock(inline, commented, mode, b) {
        SlotsRun(false, b.intro, None, b.items, b.dangling);
      } else {
        FlatHasNone(part, inline, commented);
        assert |CommentsOf(b)| == |b.intro| + |ItemComments(b.items)| + |b.dangling|;
        SlotsInline(b.items);
      }
  }

  lemma {:induction false} SlotsInline(items: seq<Item>)
    requires ItemComments(items) == []
    ensures EraseItems(SettleInline(items)) == EraseItems(items)
    decreases items
  {
    if items != [] {
      var item := items[0];
      assert item in items;
      NoneInside(items);
      SlotsInline(items[1..]);
      SlotsParts(item.parts, true, false, 0);
      assert item.parts[0..] == item.parts;
      InlineIsStable(item.parts);
      assert |ItemComments(items)| == |item.leading| + |PartComments(item.parts)| + |item.trailing|
        + |item.detached| + |ItemComments(items[1..])|;
      EraseCons(Item(SettleParts(item.parts, true, false), false, [], [], []), SettleInline(items[1..]),
                item, items[1..]);
      assert [item] + items[1..] == items;
    }
  }

  lemma {:induction false} InlineIsStable(parts: seq<Part>)
    ensures StableParts(parts, true, false)
  {
    if parts != [] {
      InlineIsStable(parts[1..]);
    }
  }

  /** Comments keep their slots through formatting exactly when the tree is stable. */
  lemma SlotsKept(c: Cursor)
    requires ParseFile(c).Some? && Readable(Stream(c))
    ensures
      var file, again := ParseFile(c).value, ParseFile(Lex(Format(ParseFile(c).value)));
      again.Some? && (EraseBlock(again.value) == EraseBlock(file) <==> StableBlock(true, file))
  {
    var file := ParseFile(c).value;
    FormatParses(c);
    SlotsRun(true, file.intro, None, file.items, file.dangling);
  }
}
