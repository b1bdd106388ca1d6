/** Where the formatted file has empty lines.

  The file is written down here line by line and item by item, from the words
  that items start with and the flags of the parser, and the printer's recursive
  layout is shown to be the same pieces.
 */
module BlankLines {
  import opened Symbols
  import opened Layout
  import opened LayoutRoundTrip
  import opened Printing

  // ---- the rules -----------------------------------------------------------------------------

  predicate StartsWith(item: Item, word: string) {
    item.parts != [] && item.parts[0].Word? && item.parts[0].text == word
  }

  predicate IsDefinition(item: Item) {
    && !StartsWith(item, "syntax") && !StartsWith(item, "package")
    && !StartsWith(item, "import") && !StartsWith(item, "option")
  }

  predicate SameSort(a: Item, b: Item) {
    && (StartsWith(a, "syntax") <==> StartsWith(b, "syntax")) && (StartsWith(a, "package") <==> StartsWith(b, "package"))
    && (StartsWith(a, "import") <==> StartsWith(b, "import")) && (StartsWith(a, "option") <==> StartsWith(b, "option"))
  }

  /** Is there an empty line in front of item `i` and its leading comments? */
  predicate EmptyLineBefore(top: bool, b: Block, i: nat)
    requires i < |b.items|
  {
    if i == 0 then b.intro != []
    else b.items[i].blank || (top && (!SameSort(b.items[i - 1], b.items[i]) || IsDefinition(b.items[i])))
  }

  /** The first `n` comments, one to a line; from index `spaced` on, with their empty lines in front. */
  function Lines(notes: seq<Note>, spaced: nat, n: nat): (r: seq<Piece>)
    requires n <= |notes|
  {
    if n == 0 then []
    else
      var note := notes[n - 1];
      Lines(notes, spaced, n - 1)
      + ((if n > spaced && note.blank then [NewLine] else []) + [Com(note.remark), NewLine])
  }

  /** The comments between item `i` and the one before, or the opening brace. */
  function CommentsBefore(b: Block, i: nat): (r: seq<Piece>)
    requires i <= |b.items|
  {
    if i == 0 then Lines(b.intro, 1, |b.intro|)
    else Lines(b.items[i - 1].detached, 0, |b.items[i - 1].detached|)
  }

  /** The item itself, and what follows it on its last line. */
  function OwnLines(item: Item): (r: seq<Piece>) {
    PutParts(item.parts, false, Commented(item.parts), false, [])
    + seq(|item.trailing|, i requires 0 <= i < |item.trailing| => Com(item.trailing[i].remark)) + [NewLine]
  }

  /** One item, with its leading comments and the empty line in front. */
  function ItemLines(top: bool, b: Block, i: nat): (r: seq<Piece>)
    requires i < |b.items|
  {
    var item := b.items[i];
    (if EmptyLineBefore(top, b, i) then [NewLine] else [])
    + Lines(item.leading, |item.leading|, |item.leading|) + OwnLines(item)
  }

  /** The first `n` items of a scope. */
  function Upto(top: bool, b: Block, n: nat): (r: seq<Piece>)
    requires n <= |b.items|
  {
    if n == 0 then [] else Upto(top, b, n - 1) + (CommentsBefore(b, n - 1) + ItemLines(top, b, n - 1))
  }

  function AllLines(top: bool, b: Block): (r: seq<Piece>) {
    Upto(top, b, |b.items|) + CommentsBefore(b, |b.items|) + Lines(b.dangling, 0, |b.dangling|)
  }

  // ---- comments -------------------------------------------------------------------------------

  lemma {:induction false} LinesOfPrefix(notes: seq<Note>, spaced: nat, n: nat, m: nat)
    requires n <= m <= |notes|
    ensures Lines(notes[..m], spaced, n) == Lines(notes, spaced, n)
  {
    if n > 0 {
      LinesOfPrefix(notes, spaced, n - 1, m);
    }
  }

  lemma {:induction false} SpacedLines(notes: seq<Note>, n: nat)
    requires n <= |notes|
    ensures Lines(notes, 0, n) == PutSpaced(notes[..n], [])
  {
    if n > 0 {
      SpacedLines(notes, n - 1);
      SpacedMore(notes, n - 1);
    }
  }

  lemma {:induction false} IntroLines(notes: seq<Note>, n: nat)
    requires 0 < n <= |notes|
    ensures Lines(notes, 1, n) == [Com(notes[0].remark), NewLine] + PutSpaced(notes[1..n], [])
  {
    if n == 1 {
      assert notes[1..1] == [];
    } else {
      IntroLines(notes, n - 1);
      SpacedBehind(notes, n);
      Shift([Com(notes[0].remark), NewLine], PutSpaced(notes[1..n - 1], []), CommentLine(notes[n - 1]));
    }
  }

  function CommentLine(note: Note): (r: seq<Piece>) {
    LineEnd(note.blank) + [Com(note.remark), NewLine]
  }

  lemma SpacedBehind(notes: seq<Note>, n: nat)
    requires 1 < n <= |notes|
    ensures PutSpaced(notes[1..n], []) == PutSpaced(notes[1..n - 1], []) + CommentLine(notes[n - 1])
  {
    SpacedMore(notes[1..], n - 2);
    assert notes[1..][..n - 1] == notes[1..n] && notes[1..][..n - 2] == notes[1..n - 1];
  }

  lemma {:induction false} PlainLines(notes: seq<Note>, n: nat)
    requires n <= |notes|
    ensures Lines(notes, |notes|, n) == PutLines(notes[..n], [])
  {
    if n > 0 {
      PlainLines(notes, n - 1);
      LineMore(notes, n - 1);
    }
  }

  lemma {:induction false} OnOneLine(notes: seq<Note>)
    ensures PutSame(notes, []) == seq(|notes|, i requires 0 <= i < |notes| => Com(notes[i].remark))
  {
    if notes != [] {
      OnOneLine(notes[1..]);
    }
  }

  lemma BeforeLines(b: Block, i: nat)
    requires i <= |b.items|
    ensures
      var before := if i == 0 then b.intro else b.items[i - 1].detached;
      CommentsBefore(b, i) == PutBefore(before, if i == 0 then None else Some(b.items[i - 1]), [])
  {
    if i == 0 {
      if b.intro != [] {
        IntroLines(b.intro, |b.intro|);
        assert b.intro[1..|b.intro|] == b.intro[1..];
      }
    } else {
      var notes := b.items[i - 1].detached;
      SpacedLines(notes, |notes|);
      assert notes[..|notes|] == notes;
    }
  }

  // ---- items ----------------------------------------------------------------------------------

  /** The classes of the printer are the sorts of the words. */
  lemma GroupsAreSorts(a: Item, b: Item)
    ensures GroupOf(a) == GroupOf(b) <==> SameSort(a, b)
    ensures GroupOf(b) == 4 <==> IsDefinition(b)
  {
  }

  lemma BlankRule(top: bool, b: Block, i: nat)
    requires i < |b.items|
    ensures
      var before := if i == 0 then b.intro else b.items[i - 1].detached;
      WantBlank(top, before, if i == 0 then None else Some(b.items[i - 1]), b.items[i]) == EmptyLineBefore(top, b, i)
  {
    if i > 0 {
      GroupsAreSorts(b.items[i - 1], b.items[i]);
    }
  }

  lemma ItemAsLines(top: bool, b: Block, i: nat)
    requires i < |b.items|
    ensures
      var item, prev := b.items[i], if i == 0 then None else Some(b.items[i - 1]);
      var before := if i == 0 then b.intro else b.items[i - 1].detached;
      ItemText(item, WantBlank(top, before, prev, item))
      == ItemLines(top, b, i)
  {
    var item := b.items[i];
    PlainLines(item.leading, |item.leading|);
    assert item.leading[..|item.leading|] == item.leading;
    OnOneLine(item.trailing);
    BlankRule(top, b, i);
    var words := PutParts(item.parts, false, Commented(item.parts), false, []);
    Shift(LineEnd(EmptyLineBefore(top, b, i)) + PutLines(item.leading, []), words, PutSame(item.trailing, []));
    Shift(LineEnd(EmptyLineBefore(top, b, i)) + PutLines(item.leading, []), words + PutSame(item.trailing, []), [NewLine]);
  }

  /** What is left of a scope after its first `i` items. */
  function RestOf(top: bool, b: Block, i: nat, k: seq<Piece>): (r: seq<Piece>)
    requires i <= |b.items|
  {
    if i == 0 then PutRun(top, b.intro, None, b.items, b.dangling, k)
    else PutRun(top, b.items[i - 1].detached, Some(b.items[i - 1]), b.items[i..], b.dangling, k)
  }

  lemma OneItem(top: bool, b: Block, i: nat, k: seq<Piece>)
    requires i < |b.items|
    ensures RestOf(top, b, i, k) == CommentsBefore(b, i) + ItemLines(top, b, i) + RestOf(top, b, i + 1, k)
  {
    var before, prev := if i == 0 then b.intro else b.items[i - 1].detached, if i == 0 then None else Some(b.items[i - 1]);
    var item, rest := b.items[i], RestOf(top, b, i + 1, k);
    assert b.items[i..][0] == item && b.items[i..][1..] == b.items[i + 1..];
    assert b.items == b.items[0..];
    var next := PutNext(top, before, prev, b.items[i..], b.dangling, k);
    BeforeThen(before, prev, next);
    BeforeLines(b, i);
    ItemThen(item, WantBlank(top, before, prev, item), rest);
    ItemAsLines(top, b, i);
    Shift(CommentsBefore(b, i), ItemLines(top, b, i), rest);
  }

  lemma ScopeStep(top: bool, b: Block, n: nat, k: seq<Piece>)
    requires 0 < n <= |b.items|
    ensures Upto(top, b, n - 1) + RestOf(top, b, n - 1, k) == Upto(top, b, n) + RestOf(top, b, n, k)
  {
    var item := CommentsBefore(b, n - 1) + ItemLines(top, b, n - 1);
    OneItem(top, b, n - 1, k);
    Shift(Upto(top, b, n - 1), item, RestOf(top, b, n, k));
  }

  /** The items in front as lines, and the rest as the printer writes it. */
  function Halfway(top: bool, b: Block, n: nat, k: seq<Piece>): (r: seq<Piece>)
    requires n <= |b.items|
  {
    Upto(top, b, n) + RestOf(top, b, n, k)
  }

  lemma HalfwayStep(top: bool, b: Block, n: nat, k: seq<Piece>)
    requires 0 < n <= |b.items|
    ensures Halfway(top, b, n - 1, k) == Halfway(top, b, n, k)
  {
    ScopeStep(top, b, n, k);
  }

  lemma {:induction false} HalfwayFrom(top: bool, b: Block, n: nat, m: nat, k: seq<Piece>)
    requires n <= m <= |b.items|
    ensures Halfway(top, b, n, k) == Halfway(top, b, m, k)
    decreases m - n
  {
    if n < m {
      HalfwayStep(top, b, m, k);
      HalfwayFrom(top, b, n, m - 1, k);
    }
  }

  lemma ScopeUpto(top: bool, b: Block, n: nat, k: seq<Piece>)
    requires n <= |b.items|
    ensures PutRun(top, b.intro, None, b.items, b.dangling, k) == Upto(top, b, n) + RestOf(top, b, n, k)
  {
    var none: nat := 0;
    HalfwayFrom(top, b, none, n, k);
  }

  // ---- the formatted file -----------------------------------------------------------------------

  /** A scope is written line by line. */
  lemma ScopeLines(top: bool, b: Block, k: seq<Piece>)
    ensures PutRun(top, b.intro, None, b.items, b.dangling, k) == AllLines(top, b) + k
  {
    var n := |b.items|;
    ScopeUpto(top, b, n, k);
    BeforeLines(b, n);
    var before, prev := if n == 0 then b.intro else b.items[n - 1].detached, if n == 0 then None else Some(b.items[n - 1]);
    assert b.items[n..] == [];
    SpacedLines(b.dangling, |b.dangling|);
    assert b.dangling[..|b.dangling|] == b.dangling;
    SpacedThen(b.dangling, k);
    BeforeThen(before, prev, PutSpaced(b.dangling, k));
    Shift(CommentsBefore(b, n), Lines(b.dangling, 0, |b.dangling|), k);
    Shift(Upto(top, b, n), CommentsBefore(b, n) + Lines(b.dangling, 0, |b.dangling|), k);
    Shift(Upto(top, b, n), CommentsBefore(b, n), Lines(b.dangling, 0, |b.dangling|));
  }

  /** The whole file. */
  lemma FormatLines(file: Block)
    ensures Format(file) == AllLines(true, file) + [Tok(Close, false)]
  {
    ScopeLines(true, file, [Tok(Close, false)]);
  }

  /** A nested scope is written line by line if it is a body with content, or a value with comments to write. */
  lemma NestedLines(mode: Mode, b: Block, cut: bool, commented: bool, last: bool, k: seq<Piece>)
    requires b.intro != [] || b.items != [] || b.dangling != []
    requires mode.Body? || (mode.Alone? && CommentsOf(b) != []) || (mode.Joint? && commented)
    ensures
      var end := [Tok(Close, last)] + (if cut && commented && !last then [NewLine] else []) + k;
      PutPart(Nested(mode, b, cut), false, commented, last, k)
      == [Tok(Open(mode, cut), false), NewLine] + (AllLines(false, b) + end)
  {
    ScopeLines(false, b, [Tok(Close, last)] + LineEnd(cut && commented && !last) + k);
  }

  predicate OnlyTokens(ps: seq<Piece>) {
    forall p :: p in ps ==> p.Tok?
  }

  lemma {:induction false} TokensInside(items: seq<Item>)
    ensures OnlyTokens(PutInline(items, []))
    decreases items
  {
    if items != [] {
      var item := items[0];
      assert item in items;
      TokensInside(items[1..]);
      TokensInParts(item.parts, |items| > 1);
      PartsThen(item.parts, true, false, |items| > 1, PutInline(items[1..], []));
    }
  }

  lemma {:induction false} TokensInParts(parts: seq<Part>, separate: bool)
    ensures OnlyTokens(PutParts(parts, true, false, separate, []))
    decreases parts
  {
    if parts != [] {
      var last, rest := |parts| == 1 && !separate, PutParts(parts[1..], true, false, separate, []);
      TokensInParts(parts[1..], separate);
      TokensInPart(parts[0], last);
      PartThen(parts[0], true, false, last, rest);
    }
  }

  lemma {:induction false} TokensInPart(part: Part, last: bool)
    ensures OnlyTokens(PutPart(part, true, false, last, []))
    decreases part
  {
    if part.Nested? {
      TokensInside(part.block.items);
      var end := [Tok(Close, last)] + LineEnd(false) + [];
      InlineThen(part.block.items, end);
      assert end == [Tok(Close, last)];
    }
  }

  /** In all other cases it stands on one line. */
  lemma NestedOnOneLine(mode: Mode, b: Block, cut: bool, inline: bool, commented: bool, last: bool)
    requires inline || (b.intro == [] && b.items == [] && b.dangling == [])
             || (mode.Alone? && CommentsOf(b) == []) || (mode.Joint? && !commented)
    ensures exists inner ::
      && OnlyTokens(inner)
      && PutPart(Nested(mode, b, cut), inline, commented, last, [])
         == [Tok(Open(mode, cut), false)] + inner + [Tok(Close, last)]
            + (if cut && commented && !last then [NewLine] else [])
  {
    var inner, end := PutInline(b.items, []), [Tok(Close, last)] + LineEnd(cut && commented && !last);
    TokensInside(b.items);
    InlineThen(b.items, end);
    assert end + [] == end;
    assert OnlyTokens(inner) && PutPart(Nested(mode, b, cut), inline, commented, last, [])
           == [Tok(Open(mode, cut), false)] + inner + [Tok(Close, last)] + LineEnd(cut && commented && !last);
  }

  // ---- one gap --------------------------------------------------------------------------------------

  lemma StartsWithToken(item: Item)
    requires item.parts != []
    ensures OwnLines(item)[0].Tok?
  {
    var parts := item.parts;
    PartThen(parts[0], false, Commented(parts), |parts| == 1, PutParts(parts[1..], false, Commented(parts), false, []));
  }

  lemma EndsLine(top: bool, b: Block, n: nat)
    requires 0 < n <= |b.items|
    ensures Upto(top, b, n) != [] && Upto(top, b, n)[|Upto(top, b, n)| - 1] == NewLine
  {
    var own := OwnLines(b.items[n - 1]);
    assert own[|own| - 1] == NewLine;
  }

  lemma BareItem(top: bool, b: Block, i: nat)
    requires i < |b.items| && b.items[i].leading == []
    ensures ItemLines(top, b, i) == LineEnd(EmptyLineBefore(top, b, i)) + OwnLines(b.items[i])
  {
  }

  lemma GapAt(ps: seq<Piece>, before: seq<Piece>, empty: bool, own: seq<Piece>, rest: seq<Piece>)
    requires ps == before + (LineEnd(empty) + own + rest)
    requires before != [] && before[|before| - 1] == NewLine && |own| > 1 && own[0].Tok?
    ensures
      var n := |before|;
      0 < n < |ps| - 1 && ps[..n] == before && ps[n - 1] == NewLine
      && (if empty then ps[n] == NewLine && ps[n + 1].Tok? else ps[n].Tok?)
  {
  }

  /** Two items without comments between them: the line of the first one ends, and then there is an empty line or the
    next item. */
  lemma GapBetween(top: bool, b: Block, i: nat, k: seq<Piece>)
    requires 0 < i < |b.items| && b.items[i - 1].detached == [] && b.items[i].leading == [] && b.items[i].parts != []
    ensures
      var ps, n := PutRun(top, b.intro, None, b.items, b.dangling, k), |Upto(top, b, i)|;
      var empty := b.items[i].blank || (top && (!SameSort(b.items[i - 1], b.items[i]) || IsDefinition(b.items[i])));
      0 < n < |ps| - 1 && ps[..n] == Upto(top, b, i) && ps[n - 1] == NewLine
      && (if empty then ps[n] == NewLine && ps[n + 1].Tok? else ps[n].Tok?)
  {
    var own, rest := OwnLines(b.items[i]), RestOf(top, b, i + 1, k);
    ScopeUpto(top, b, i, k);
    OneItem(top, b, i, k);
    StartsWithToken(b.items[i]);
    EndsLine(top, b, i);
    BareItem(top, b, i);
    assert CommentsBefore(b, i) + ItemLines(top, b, i) == ItemLines(top, b, i);
    assert own[|own| - 1] == NewLine;
    GapAt(PutRun(top, b.intro, None, b.items, b.dangling, k), Upto(top, b, i), EmptyLineBefore(top, b, i), own, rest);
  }

  lemma FileGap(file: Block, i: nat)
    requires 0 < i < |file.items| && file.items[i - 1].detached == []
    requires file.items[i].leading == [] && file.items[i].parts != []
    ensures
      var n := |Upto(true, file, i)|;
      var empty := file.items[i].blank || !SameSort(file.items[i - 1], file.items[i]) || IsDefinition(file.items[i]);
      0 < n < |Format(file)| - 1 && Format(file)[..n] == Upto(true, file, i) && Format(file)[n - 1] == NewLine
      && (if empty then Format(file)[n] == NewLine && Format(file)[n + 1].Tok? else Format(file)[n].Tok?)
  {
    GapBetween(true, file, i, [Tok(Close, false)]);
  }
}
