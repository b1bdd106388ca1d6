/** Reading back what the printer wrote.

  `Settle` is the tree the second parse sees: blank-line flags become what the
  printer shows, and comments that were detached without a blank line before the
  next item join that item. Reparse proves it for every tree; the consequences
  are that formatting is idempotent on every file that parses, and that comments
  keep their slots exactly when the tree is `Stable`.
 */
module LayoutRoundTrip {
  import opened Symbols
  import opened Layout

  // ---- what the second parse sees ------------------------------------------------------------

  function Unblanked(notes: seq<Note>): (r: seq<Note>)
    ensures |r| == |notes| && forall i :: 0 <= i < |r| ==> r[i] == Note(notes[i].remark, false)
  {
    seq(|notes|, i requires 0 <= i < |notes| => Note(notes[i].remark, false))
  }

  /** Only the first of these lines may have a blank line before it. */
  function Lead(notes: seq<Note>, blank: bool): (r: seq<Note>) {
    if notes == [] then [] else [Note(notes[0].remark, blank)] + Unblanked(notes[1..])
  }

  /** The comments after the previous node, as the printer spaces them. */
  function Before(before: seq<Note>, prev: Option<Item>): (r: seq<Note>) {
    if prev.None? && before != [] then [Note(before[0].remark, false)] + before[1..] else before
  }

  function Resplit(top: bool, before: seq<Note>, prev: Option<Item>, item: Item): (r: Start) {
    var want := WantBlank(top, before, prev, item);
    SplitPending(Before(before, prev) + Lead(item.leading, want), item.leading != [] || !want, want)
  }

  function SettleBlock(top: bool, b: Block): (r: Block)
    decreases b
  {
    BlockOf(SettleRun(top, b.intro, None, b.items, b.dangling))
  }

  function SettleRun(top: bool, before: seq<Note>, prev: Option<Item>, items: seq<Item>, dangling: seq<Note>): (r: Run)
    decreases items
  {
    if items == [] then Run([], [], Before(before, prev) + dangling)
    else
      var item := items[0];
      var start := Resplit(top, before, prev, item);
      var run := SettleRun(top, item.detached, Some(item), items[1..], dangling);
      Run(start.toPrev,
          [Item(SettleParts(item.parts, false, Commented(item.parts)), start.blank, start.leading,
                Unblanked(item.trailing), run.carry)] + run.items,
          run.dangling)
  }

  function SettleParts(parts: seq<Part>, inline: bool, commented: bool): (r: seq<Part>)
    decreases parts
  {
    if parts == [] then []
    else [SettlePart(parts[0], inline, commented)] + SettleParts(parts[1..], inline, commented)
  }

  function SettlePart(part: Part, inline: bool, commented: bool): (r: Part)
    decreases part
  {
    match part
    case Word(_, _) => part
    case Nested(mode, b, cut) =>
      if AsBlock(inline, commented, mode, b) then Nested(mode, SettleBlock(false, b), cut)
      else Nested(mode, Block([], SettleInline(b.items), []), cut)
  }

  function SettleInline(items: seq<Item>): (r: seq<Item>)
    decreases items
  {
    if items == [] then []
    else [Item(SettleParts(items[0].parts, true, false), false, [], [], [])] + SettleInline(items[1..])
  }

  // ---- what a tree must look like to be printed -------------------------------------------------

  /** On a shared line only the last comment may run to the end of the line or over several lines. */
  predicate SameLine(notes: seq<Note>) {
    forall i :: 0 <= i < |notes| - 1 ==> !notes[i].remark.toLineEnd && notes[i].remark.height == 0
  }

  predicate Printable(b: Block)
    decreases b
  {
    PrintableItems(b.items)
  }

  predicate PrintableItems(items: seq<Item>)
    decreases items
  {
    items == [] || (PrintableItem(items[0]) && PrintableItems(items[1..]))
  }

  /** An item starts with a word. */
  predicate PrintableItem(item: Item)
    decreases item
  {
    item.parts != [] && item.parts[0].Word? && SameLine(item.trailing) && PrintableParts(item.parts)
  }

  predicate PrintableParts(parts: seq<Part>)
    decreases parts
  {
    parts == [] || (PrintablePart(parts[0]) && PrintableParts(parts[1..]))
  }

  predicate PrintablePart(part: Part)
    decreases part
  {
    match part
    case Word(_, _) => true
    case Nested(_, b, _) => Printable(b)
  }

  // ---- lines of what was printed ------------------------------------------------------------------

  /** At the start of a line, right below what came before. */
  predicate Fresh(at: At) {
    at.line == at.prev + 1
  }

  function Down(at: At, here: bool): (r: At) {
    if here then At(at.line + 1, at.prev) else at
  }

  function Below(at: At, remark: Remark): (r: At) {
    At(at.line + remark.height + 1, at.line + remark.height)
  }

  lemma LexNewLine(here: bool, k: seq<Piece>, at: At)
    ensures LexFrom(LineEnd(here) + k, at) == LexFrom(k, Down(at, here))
  {
    if here {
      assert ([NewLine] + k)[1..] == k;
    } else {
      assert [] + k == k;
    }
  }

  lemma LexTok(kind: TokenKind, last: bool, k: seq<Piece>, at: At)
    ensures
      var c, rest := LexFrom([Tok(kind, last)] + k, at), LexFrom(k, At(at.line, at.line));
      && c.pend == [] && c.groups != []
      && c.groups[0].tok == Token(kind, last, at.line, BlankBefore(at))
      && Bump(c) == rest && Cursor(c.groups[0].after, c.groups[1..]) == rest
  {
    assert ([Tok(kind, last)] + k)[1..] == k;
    var c, rest := LexFrom([Tok(kind, last)] + k, at), LexFrom(k, At(at.line, at.line));
    assert c.groups[1..] == rest.groups;
    assert [] + rest.pend == rest.pend;
  }

  lemma LexRemark(remark: Remark, k: seq<Piece>, at: At)
    ensures
      var end := at.line + remark.height;
      var rest := LexFrom(k, At(end, end));
      LexFrom([Com(remark)] + k, at) == Cursor([Comment(remark, at.line, BlankBefore(at))] + rest.pend, rest.groups)
  {
    assert ([Com(remark)] + k)[1..] == k;
  }

  lemma LexCommentLine(remark: Remark, k: seq<Piece>, at: At)
    ensures
      var rest := LexFrom(k, Below(at, remark));
      LexFrom([Com(remark), NewLine] + k, at)
      == Cursor([Comment(remark, at.line, BlankBefore(at))] + rest.pend, rest.groups)
  {
    assert [Com(remark), NewLine] + k == [Com(remark)] + (LineEnd(true) + k);
    LexRemark(remark, LineEnd(true) + k, at);
    LexNewLine(true, k, At(at.line + remark.height, at.line + remark.height));
  }

  function StampLines(notes: seq<Note>, at: At): (r: seq<Comment>) {
    if notes == [] then []
    else [Comment(notes[0].remark, at.line, BlankBefore(at))] + StampLines(notes[1..], Below(at, notes[0].remark))
  }

  function AfterLines(notes: seq<Note>, at: At): (r: At) {
    if notes == [] then at else AfterLines(notes[1..], Below(at, notes[0].remark))
  }

  lemma SpacedCons(notes: seq<Note>, k: seq<Piece>)
    requires notes != []
    ensures PutSpaced(notes, k)
      == LineEnd(notes[0].blank) + ([Com(notes[0].remark), NewLine] + PutSpaced(notes[1..], k))
  {
    var more := PutSpaced(notes[1..], k);
    assert LineEnd(notes[0].blank) + [Com(notes[0].remark), NewLine] + more
      == LineEnd(notes[0].blank) + ([Com(notes[0].remark), NewLine] + more);
  }

  lemma PendCons(c: Comment, cs: seq<Comment>, rest: Cursor)
    ensures Cursor([c] + (cs + rest.pend), rest.groups) == Cursor(([c] + cs) + rest.pend, rest.groups)
  {
  }

  lemma PendNone(rest: Cursor)
    ensures Cursor([] + rest.pend, rest.groups) == rest
  {
  }

  lemma {:induction false} LexLines(notes: seq<Note>, k: seq<Piece>, at: At)
    ensures
      var rest := LexFrom(k, AfterLines(notes, at));
      LexFrom(PutLines(notes, k), at) == Cursor(StampLines(notes, at) + rest.pend, rest.groups)
  {
    if notes == [] {
      PendNone(LexFrom(k, at));
    } else {
      LexCommentLine(notes[0].remark, PutLines(notes[1..], k), at);
      LexLines(notes[1..], k, Below(at, notes[0].remark));
      PendCons(Comment(notes[0].remark, at.line, BlankBefore(at)), StampLines(notes[1..], Below(at, notes[0].remark)),
               LexFrom(k, AfterLines(notes, at)));
    }
  }

  lemma {:induction false} FreshLines(notes: seq<Note>, at: At)
    requires Fresh(at)
    ensures |StampLines(notes, at)| == |notes|
    ensures Notes(StampLines(notes, at)) == Unblanked(notes)
    ensures Fresh(AfterLines(notes, at)) && AfterLines(notes, at).prev >= at.prev
    ensures notes != [] ==> EndLine(StampLines(notes, at)[|notes| - 1]) == AfterLines(notes, at).prev
  {
    if notes != [] {
      FreshLines(notes[1..], Below(at, notes[0].remark));
    }
  }

  lemma NotesCons(c: Comment, cs: seq<Comment>)
    ensures Notes([c] + cs) == [Note(c.remark, c.blank)] + Notes(cs)
  {
  }

  lemma LinesLead(notes: seq<Note>, at: At)
    requires notes != []
    ensures |StampLines(notes, at)| == |notes|
    ensures Notes(StampLines(notes, at)) == Lead(notes, BlankBefore(at))
    ensures Fresh(AfterLines(notes, at))
    ensures EndLine(StampLines(notes, at)[|notes| - 1]) == AfterLines(notes, at).prev
  {
    var below := Below(at, notes[0].remark);
    FreshLines(notes[1..], below);
    NotesCons(Comment(notes[0].remark, at.line, BlankBefore(at)), StampLines(notes[1..], below));
    if |notes| > 1 {
      assert StampLines(notes, at)[|notes| - 1] == StampLines(notes[1..], below)[|notes| - 2];
    }
  }

  function StampSpaced(notes: seq<Note>, at: At): (r: seq<Comment>) {
    if notes == [] then []
    else
      var a := Down(at, notes[0].blank);
      [Comment(notes[0].remark, a.line, BlankBefore(a))] + StampSpaced(notes[1..], Below(a, notes[0].remark))
  }

  function AfterSpaced(notes: seq<Note>, at: At): (r: At) {
    if notes == [] then at else AfterSpaced(notes[1..], Below(Down(at, notes[0].blank), notes[0].remark))
  }

  lemma {:induction false} LexSpaced(notes: seq<Note>, k: seq<Piece>, at: At)
    ensures
      var rest := LexFrom(k, AfterSpaced(notes, at));
      LexFrom(PutSpaced(notes, k), at) == Cursor(StampSpaced(notes, at) + rest.pend, rest.groups)
  {
    if notes == [] {
      PendNone(LexFrom(k, at));
    } else {
      var a, more := Down(at, notes[0].blank), PutSpaced(notes[1..], k);
      SpacedCons(notes, k);
      LexNewLine(notes[0].blank, [Com(notes[0].remark), NewLine] + more, at);
      LexCommentLine(notes[0].remark, more, a);
      LexSpaced(notes[1..], k, Below(a, notes[0].remark));
      PendCons(Comment(notes[0].remark, a.line, BlankBefore(a)), StampSpaced(notes[1..], Below(a, notes[0].remark)),
               LexFrom(k, AfterSpaced(notes, at)));
    }
  }

  lemma {:induction false} SpacedKeep(notes: seq<Note>, at: At)
    requires Fresh(at) && at.prev > 0
    ensures |StampSpaced(notes, at)| == |notes|
    ensures Notes(StampSpaced(notes, at)) == notes
    ensures Fresh(AfterSpaced(notes, at)) && AfterSpaced(notes, at).prev > 0
    ensures notes != [] ==> EndLine(StampSpaced(notes, at)[|notes| - 1]) == AfterSpaced(notes, at).prev
  {
    if notes != [] {
      SpacedKeep(notes[1..], Below(Down(at, notes[0].blank), notes[0].remark));
    }
  }

  /** The comments at a boundary: intro or detached. */
  function StampBefore(before: seq<Note>, prev: Option<Item>, at: At): (r: seq<Comment>) {
    if prev.None? && before != [] then
      [Comment(before[0].remark, at.line, BlankBefore(at))] + StampSpaced(before[1..], Below(at, before[0].remark))
    else StampSpaced(before, at)
  }

  function AfterBefore(before: seq<Note>, prev: Option<Item>, at: At): (r: At) {
    if prev.None? && before != [] then AfterSpaced(before[1..], Below(at, before[0].remark))
    else AfterSpaced(before, at)
  }

  lemma LexBefore(before: seq<Note>, prev: Option<Item>, k: seq<Piece>, at: At)
    ensures
      var rest := LexFrom(k, AfterBefore(before, prev, at));
      LexFrom(if prev.None? then PutIntro(before, k) else PutSpaced(before, k), at)
        == Cursor(StampBefore(before, prev, at) + rest.pend, rest.groups)
  {
    if prev.None? && before != [] {
      LexCommentLine(before[0].remark, PutSpaced(before[1..], k), at);
      LexSpaced(before[1..], k, Below(at, before[0].remark));
      PendCons(Comment(before[0].remark, at.line, BlankBefore(at)),
               StampSpaced(before[1..], Below(at, before[0].remark)),
               LexFrom(k, AfterBefore(before, prev, at)));
    } else {
      LexSpaced(before, k, at);
    }
  }

  lemma BeforeKeep(before: seq<Note>, prev: Option<Item>, at: At)
    requires Fresh(at) && (at.prev > 0 || prev.None?)
    ensures |StampBefore(before, prev, at)| == |before|
    ensures Notes(StampBefore(before, prev, at)) == Before(before, prev)
    ensures Fresh(AfterBefore(before, prev, at))
    ensures before != [] || at.prev > 0 ==> AfterBefore(before, prev, at).prev > 0
    ensures before != [] ==>
      EndLine(StampBefore(before, prev, at)[|before| - 1]) == AfterBefore(before, prev, at).prev
  {
    if prev.None? && before != [] {
      SpacedKeep(before[1..], Below(at, before[0].remark));
    } else if before != [] {
      SpacedKeep(before, at);
    }
  }

  function StampSame(notes: seq<Note>, line: nat): (r: seq<Comment>) {
    if notes == [] then []
    else [Comment(notes[0].remark, line, false)] + StampSame(notes[1..], line + notes[0].remark.height)
  }

  function EndSame(notes: seq<Note>, line: nat): (r: nat)
    ensures r >= line
  {
    if notes == [] then line else EndSame(notes[1..], line + notes[0].remark.height)
  }

  lemma {:induction false} LexSame(notes: seq<Note>, k: seq<Piece>, line: nat)
    ensures
      var rest := LexFrom(k, At(EndSame(notes, line) + 1, EndSame(notes, line)));
      LexFrom(PutSame(notes, [NewLine] + k), At(line, line)) == Cursor(StampSame(notes, line) + rest.pend, rest.groups)
  {
    if notes == [] {
      LexNewLine(true, k, At(line, line));
      PendNone(LexFrom(k, At(line + 1, line)));
    } else {
      var end := line + notes[0].remark.height;
      LexRemark(notes[0].remark, PutSame(notes[1..], [NewLine] + k), At(line, line));
      LexSame(notes[1..], k, end);
      PendCons(Comment(notes[0].remark, line, false), StampSame(notes[1..], end),
               LexFrom(k, At(EndSame(notes, line) + 1, EndSame(notes, line))));
    }
  }

  lemma {:induction false} SameKeep(notes: seq<Note>, line: nat)
    requires SameLine(notes)
    ensures |StampSame(notes, line)| == |notes|
    ensures Notes(StampSame(notes, line)) == Unblanked(notes)
    ensures forall i :: 0 <= i < |notes| ==> StampSame(notes, line)[i].line == line
  {
    if |notes| > 1 {
      assert SameLine(notes[1..]);
      SameKeep(notes[1..], line + notes[0].remark.height);
    }
  }

  /** Nothing that follows stands above the current line. */
  lemma {:induction false} PendBelow(ps: seq<Piece>, at: At)
    ensures LexFrom(ps, at).pend != [] ==> LexFrom(ps, at).pend[0].line >= at.line
  {
    if ps != [] && ps[0].NewLine? {
      PendBelow(ps[1..], At(at.line + 1, at.prev));
    }
  }

  lemma {:induction false} CountTrailing(mine: seq<Comment>, more: seq<Comment>, line: nat)
    requires forall i :: 0 <= i < |mine| ==> mine[i].line == line
    requires more != [] ==> more[0].line > line
    ensures TrailingCount(mine + more, line) == |mine|
  {
    if mine == [] {
      assert mine + more == more;
    } else {
      assert (mine + more)[1..] == mine[1..] + more;
      CountTrailing(mine[1..], more, line);
    }
  }

  lemma SameSplit(notes: seq<Note>, near: bool, tokBlank: bool, near': bool, tokBlank': bool)
    requires notes != [] ==> near == near'
    requires notes == [] || !near ==> tokBlank == tokBlank'
    ensures SplitPending(notes, near, tokBlank) == SplitPending(notes, near', tokBlank')
  {
  }

  /** The printed comments `x` and then `y`, the latter right above the token. */
  lemma SplitNear(x: seq<Comment>, y: seq<Comment>, tok: Token, want: bool)
    requires y != [] && tok.line == EndLine(y[|y| - 1]) + 1
    ensures BeginItem(x + y, tok) == SplitPending(Notes(x) + Notes(y), true, want)
  {
    assert Notes(x + y) == Notes(x) + Notes(y);
    assert (x + y)[|x + y| - 1] == y[|y| - 1];
    SameSplit(Notes(x + y), true, tok.blank, true, want);
  }

  lemma SplitAfter(x: seq<Comment>, tok: Token, want: bool)
    requires x != [] ==> tok.line == EndLine(x[|x| - 1]) + if want then 2 else 1
    requires tok.blank == want
    ensures BeginItem(x, tok) == SplitPending(Notes(x), !want, want)
  {
  }

  /** At the boundary the parser splits the printed comments as `Resplit` says. */
  lemma BeginAgain(top: bool, before: seq<Note>, prev: Option<Item>, item: Item, at: At, tok: Token)
    requires Fresh(at) && (at.prev > 0 || prev.None?)
    requires
      var want := WantBlank(top, before, prev, item);
      var a := Down(AfterBefore(before, prev, at), want);
      var b := AfterLines(item.leading, a);
      tok.line == b.line && tok.blank == BlankBefore(b)
    ensures
      var a := Down(AfterBefore(before, prev, at), WantBlank(top, before, prev, item));
      BeginItem(StampBefore(before, prev, at) + StampLines(item.leading, a), tok) == Resplit(top, before, prev, item)
  {
    var want := WantBlank(top, before, prev, item);
    var a := Down(AfterBefore(before, prev, at), want);
    var x, y := StampBefore(before, prev, at), StampLines(item.leading, a);
    BeforeKeep(before, prev, at);
    assert BlankBefore(a) == want;
    if item.leading == [] {
      assert x + y == x && Before(before, prev) + Lead(item.leading, want) == Before(before, prev);
      SplitAfter(x, tok, want);
    } else {
      LinesLead(item.leading, a);
      SplitNear(x, y, tok, want);
    }
  }

  // ---- the second parse ------------------------------------------------------------------------------

  /** What reading one printed part does, if the item goes on and if it ends there. */
  ghost predicate ReadsPart(c: Cursor, part: Part, last: bool, k: seq<Piece>, at: At) {
    && c.pend == [] && c.groups != []
    && (last ==> at.line == at.prev && ParseParts(c) == Some(Pieces([part], at.line, LexFrom(k, at))))
    && (!last ==> ParseParts(c) == Prepend(part, ParseParts(LexFrom(k, at))))
  }

  ghost predicate ReadsScope(c: Cursor, run: Run, last: bool, k: seq<Piece>, close: Token) {
    && close.line > 0 && close.last == last
    && ParseRun(c) == Some(Scope(run, close, LexFrom(k, At(close.line, close.line))))
  }

  lemma CloseScope(last: bool, k: seq<Piece>, at: At, pend: seq<Comment>) returns (close: Token)
    requires at.line > 0
    ensures
      var c := LexFrom([Tok(Close, last)] + k, at);
      c.pend == [] && ReadsScope(Cursor(pend, c.groups), Run([], [], Notes(pend)), last, k, close)
    ensures close.line == at.line
  {
    LexTok(Close, last, k, at);
    close := Token(Close, last, at.line, BlankBefore(at));
  }

  lemma ReparseWord(text: string, cut: bool, commented: bool, last: bool, k: seq<Piece>, at: At) returns (after: At)
    requires at.line > 0
    ensures after.line > 0
    ensures
      var c := LexFrom(PutPart(Word(text, cut), false, commented, last, k), at);
      && ReadsPart(c, Word(text, cut), last, k, after)
      && c.groups[0].tok == Token(Plain(text, cut), last, at.line, BlankBefore(at))
  {
    var ends := cut && commented && !last;
    var more := LineEnd(ends) + k;
    assert PutPart(Word(text, cut), false, commented, last, k) == [Tok(Plain(text, cut), last)] + more;
    LexTok(Plain(text, cut), last, more, at);
    LexNewLine(ends, k, At(at.line, at.line));
    after := Down(At(at.line, at.line), ends);
  }

  /** An opening token and a scope that reads back make a part that reads back. */
  lemma ReadNested(mode: Mode, cut: bool, run: Run, ends: bool, last: bool, inner: seq<Piece>, k: seq<Piece>,
                   at: At, close: Token)
    returns (after: At)
    requires at.line > 0 && !(ends && last)
    requires ReadsScope(LexFrom(inner, At(at.line, at.line)), run, last, LineEnd(ends) + k, close)
    ensures after.line > 0
    ensures ReadsPart(LexFrom([Tok(Open(mode, cut), false)] + inner, at), Nested(mode, BlockOf(run), cut), last, k,
        after)
  {
    LexTok(Open(mode, cut), false, inner, at);
    LexNewLine(ends, k, At(close.line, close.line));
    after := Down(At(close.line, close.line), ends);
  }

  lemma {:induction false} ReparsePart(part: Part, inline: bool, commented: bool, last: bool, k: seq<Piece>,
      at: At) returns (after: At)
    requires at.line > 0 && PrintablePart(part)
    ensures after.line > 0
    ensures ReadsPart(LexFrom(PutPart(part, inline, commented, last, k), at), SettlePart(part, inline, commented),
        last, k, after)
    ensures part.Word? ==>
      LexFrom(PutPart(part, inline, commented, last, k), at).groups[0].tok
        == Token(Plain(part.text, part.cut), last, at.line, BlankBefore(at))
    decreases part, 1
  {
    match part
    case Word(text, cut) =>
      after := ReparseWord(text, cut, commented, last, k, at);
    case Nested(mode, b, cut) =>
      if AsBlock(inline, commented, mode, b) {
        after := ReparseBlock(part, inline, commented, last, k, at);
      } else {
        after := ReparseFlat(part, inline, commented, last, k, at);
      }
  }

  lemma {:induction false} ReparseBlock(part: Part, inline: bool, commented: bool, last: bool, k: seq<Piece>,
      at: At) returns (after: At)
    requires at.line > 0 && PrintablePart(part) && part.Nested? && AsBlock(inline, commented, part.mode, part.block)
    ensures after.line > 0
    ensures ReadsPart(LexFrom(PutPart(part, inline, commented, last, k), at), SettlePart(part, inline, commented),
        last, k, after)
    decreases part, 0
  {
    var b := part.block;
    var ends := part.cut && commented && !last;
    var more := LineEnd(ends) + k;
    var inner := PutRun(false, b.intro, None, b.items, b.dangling, [Tok(Close, last)] + more);
    var run := SettleRun(false, b.intro, None, b.items, b.dangling);
    var close := ReparseRun(false, b.intro, None, b.items, b.dangling, last, more, At(at.line + 1, at.line));
    LexNewLine(true, inner, At(at.line, at.line));
    after := ReadNested(part.mode, part.cut, run, ends, last, LineEnd(true) + inner, k, at, close);
    PutBlock(part, inline, commented, last, k);
  }

  lemma PutBlock(part: Part, inline: bool, commented: bool, last: bool, k: seq<Piece>)
    requires part.Nested? && AsBlock(inline, commented, part.mode, part.block)
    ensures
      var b, more := part.block, LineEnd(part.cut && commented && !last) + k;
      PutPart(part, inline, commented, last, k) == [Tok(Open(part.mode, part.cut), false)]
        + (LineEnd(true) + PutRun(false, b.intro, None, b.items, b.dangling, [Tok(Close, last)] + more))
  {
    var b, ends := part.block, part.cut && commented && !last;
    var inner := PutRun(false, b.intro, None, b.items, b.dangling, [Tok(Close, last)] + (LineEnd(ends) + k));
    assert [Tok(Close, last)] + LineEnd(ends) + k == [Tok(Close, last)] + (LineEnd(ends) + k);
    assert [Tok(Open(part.mode, part.cut), false), NewLine] + inner
      == [Tok(Open(part.mode, part.cut), false)] + (LineEnd(true) + inner);
  }

  lemma PutFlat(part: Part, inline: bool, commented: bool, last: bool, k: seq<Piece>)
    requires part.Nested? && !AsBlock(inline, commented, part.mode, part.block)
    ensures PutPart(part, inline, commented, last, k) == [Tok(Open(part.mode, part.cut), false)]
      + PutInline(part.block.items, [Tok(Close, last)] + (LineEnd(part.cut && commented && !last) + k))
  {
    var ends := part.cut && commented && !last;
    assert [Tok(Close, last)] + LineEnd(ends) + k == [Tok(Close, last)] + (LineEnd(ends) + k);
  }

  lemma {:induction false} ReparseFlat(part: Part, inline: bool, commented: bool, last: bool, k: seq<Piece>,
      at: At) returns (after: At)
    requires at.line > 0 && PrintablePart(part) && part.Nested? && !AsBlock(inline, commented, part.mode, part.block)
    ensures after.line > 0
    ensures ReadsPart(LexFrom(PutPart(part, inline, commented, last, k), at), SettlePart(part, inline, commented),
        last, k, after)
    decreases part, 0
  {
    var ends := part.cut && commented && !last;
    var more := LineEnd(ends) + k;
    var inner := PutInline(part.block.items, [Tok(Close, last)] + more);
    var run := Run([], SettleInline(part.block.items), []);
    var close := ReparseInline(part.block.items, last, more, at.line);
    after := ReadNested(part.mode, part.cut, run, ends, last, inner, k, at, close);
    PutFlat(part, inline, commented, last, k);
  }

  lemma {:induction false} ReparseParts(parts: seq<Part>, inline: bool, commented: bool, separate: bool,
      k: seq<Piece>, at: At)
    returns (line: nat)
    requires at.line > 0 && (parts != [] || separate) && PrintableParts(parts)
    ensures line > 0
    ensures
      var c := LexFrom(PutParts(parts, inline, commented, separate, k), at);
      && c.pend == [] && c.groups != []
      && ParseParts(c) == Some(Pieces(SettleParts(parts, inline, commented), line, LexFrom(k, At(line, line))))
      && (parts != [] && parts[0].Word? ==>
            c.groups[0].tok.kind.Plain? && c.groups[0].tok.line == at.line && c.groups[0].tok.blank == BlankBefore(at))
    decreases parts
  {
    if parts == [] {
      LexTok(Separator, true, k, at);
      line := at.line;
    } else {
      var last := |parts| == 1 && !separate;
      var more := PutParts(parts[1..], inline, commented, separate, k);
      var after := ReparsePart(parts[0], inline, commented, last, more, at);
      var head, tail := SettlePart(parts[0], inline, commented), SettleParts(parts[1..], inline, commented);
      assert SettleParts(parts, inline, commented) == [head] + tail;
      if last {
        line := after.line;
        assert more == k && after == At(line, line);
        assert SettleParts(parts, inline, commented) == [head];
      } else {
        line := ReparseParts(parts[1..], inline, commented, separate, k, after);
        assert ParseParts(LexFrom(more, after)) == Some(Pieces(tail, line, LexFrom(k, At(line, line))));
      }
    }
  }

  /** One item of a scope: the comments before it, its parts, its trailing comments, and the rest. */
  lemma ReadItem(c: Cursor, pend: seq<Comment>, parts: seq<Part>, line: nat, next: Cursor, trailing: seq<Comment>)
    requires c.groups != [] && c.groups[0].tok.kind.Plain?
    requires ParseParts(Cursor([], c.groups)) == Some(Pieces(parts, line, Cursor(trailing + next.pend, next.groups)))
    requires forall i :: 0 <= i < |trailing| ==> trailing[i].line == line
    requires next.pend != [] ==> next.pend[0].line > line
    requires ParseRun(next).Some?
    ensures
      var start, scope := BeginItem(pend, c.groups[0].tok), ParseRun(next).value;
      ParseRun(Cursor(pend, c.groups)) == Some(scope.(run := Run(start.toPrev,
        [Item(parts, start.blank, start.leading, Notes(trailing), scope.run.carry)] + scope.run.items, scope.run.dangling)))
  {
    var all := trailing + next.pend;
    CountTrailing(trailing, next.pend, line);
    assert all[|trailing|..] == next.pend && all[..|trailing|] == trailing;
    assert Cursor(next.pend, next.groups) == next;
  }

  lemma {:induction false} ReparseInline(items: seq<Item>, last: bool, k: seq<Piece>, line: nat) returns (close: Token)
    requires line > 0 && PrintableItems(items)
    ensures
      var c := LexFrom(PutInline(items, [Tok(Close, last)] + k), At(line, line));
      c.pend == [] && ReadsScope(c, Run([], SettleInline(items), []), last, k, close)
    decreases items
  {
    if items == [] {
      close := CloseScope(last, k, At(line, line), []);
    } else {
      var more := PutInline(items[1..], [Tok(Close, last)] + k);
      var end := ReparseParts(items[0].parts, true, false, |items| > 1, more, At(line, line));
      close := ReparseInline(items[1..], last, k, end);
      var c := LexFrom(PutInline(items, [Tok(Close, last)] + k), At(line, line));
      var next := LexFrom(more, At(end, end));
      assert Cursor([] + next.pend, next.groups) == next;
      ReadItem(c, [], SettleParts(items[0].parts, true, false), end, next, []);
    }
  }

  function PutBefore(before: seq<Note>, prev: Option<Item>, k: seq<Piece>): (r: seq<Piece>) {
    if prev.None? then PutIntro(before, k) else PutSpaced(before, k)
  }

  /** All comments in front of an item are pending when its first token is reached. */
  lemma LexItemStart(before: seq<Note>, prev: Option<Item>, leading: seq<Note>, want: bool, words: seq<Piece>, at: At)
    requires
      var a := Down(AfterBefore(before, prev, at), want);
      LexFrom(words, AfterLines(leading, a)).pend == []
    ensures
      var a := Down(AfterBefore(before, prev, at), want);
      LexFrom(PutBefore(before, prev, LineEnd(want) + PutLines(leading, words)), at)
        == Cursor(StampBefore(before, prev, at) + StampLines(leading, a), LexFrom(words, AfterLines(leading, a)).groups)
  {
    var mid := AfterBefore(before, prev, at);
    var a := Down(mid, want);
    LexBefore(before, prev, LineEnd(want) + PutLines(leading, words), at);
    LexNewLine(want, PutLines(leading, words), mid);
    LexLines(leading, words, a);
    assert StampLines(leading, a) + [] == StampLines(leading, a);
  }

  lemma ReparseEnd(before: seq<Note>, prev: Option<Item>, dangling: seq<Note>, last: bool, k: seq<Piece>,
      at: At) returns (close: Token)
    requires Fresh(at) && at.prev > 0
    ensures ReadsScope(LexFrom(PutBefore(before, prev, PutSpaced(dangling, [Tok(Close, last)] + k)), at),
                       Run([], [], Before(before, prev) + dangling), last, k, close)
  {
    var end, mid := [Tok(Close, last)] + k, AfterBefore(before, prev, at);
    LexBefore(before, prev, PutSpaced(dangling, end), at);
    BeforeKeep(before, prev, at);
    LexSpaced(dangling, end, mid);
    SpacedKeep(dangling, mid);
    var x, y := StampBefore(before, prev, at), StampSpaced(dangling, mid);
    close := CloseScope(last, k, AfterSpaced(dangling, mid), x + y);
    assert x + (y + []) == x + y;
    assert Notes(x + y) == Notes(x) + Notes(y);
  }

  /** Reading back the rest of a scope gives the settled rest of the scope. */
  lemma {:induction false} ReparseRun(top: bool, before: seq<Note>, prev: Option<Item>, items: seq<Item>,
      dangling: seq<Note>,
                                      last: bool, k: seq<Piece>, at: At) returns (close: Token)
    requires Fresh(at) && (at.prev > 0 || (prev.None? && items != [])) && PrintableItems(items)
    ensures ReadsScope(LexFrom(PutRun(top, before, prev, items, dangling, [Tok(Close, last)] + k), at),
                       SettleRun(top, before, prev, items, dangling), last, k, close)
    decreases items
  {
    if items == [] {
      close := ReparseEnd(before, prev, dangling, last, k, at);
    } else {
      var end, item := [Tok(Close, last)] + k, items[0];
      assert item in items;
      var want := WantBlank(top, before, prev, item);
      LeadingLine(before, prev, item.leading, want, at);
      var rest := PutRun(top, item.detached, Some(item), items[1..], dangling, end);
      var line := ReparseParts(item.parts, false, Commented(item.parts), false,
                               PutSame(item.trailing, [NewLine] + rest),
                               FirstAt(top, before, prev, item, at));
      close := ReparseRun(top, item.detached, Some(item), items[1..], dangling, last, k, Under(item, line));
      ReparseItem(top, before, prev, item, rest, at, line);
    }
  }

  lemma LeadingLine(before: seq<Note>, prev: Option<Item>, leading: seq<Note>, want: bool, at: At)
    requires Fresh(at) && (at.prev > 0 || prev.None?)
    ensures AfterLines(leading, Down(AfterBefore(before, prev, at), want)).line > 0
  {
    BeforeKeep(before, prev, at);
    if leading != [] {
      LinesLead(leading, Down(AfterBefore(before, prev, at), want));
    }
  }

  /** Where the first token of the item stands. */
  function FirstAt(top: bool, before: seq<Note>, prev: Option<Item>, item: Item, at: At): (r: At) {
    AfterLines(item.leading, Down(AfterBefore(before, prev, at), WantBlank(top, before, prev, item)))
  }

  /** Where the line after the item starts. */
  function Under(item: Item, line: nat): (r: At) {
    At(EndSame(item.trailing, line) + 1, EndSame(item.trailing, line))
  }

  function Words(item: Item, rest: seq<Piece>): (r: seq<Piece>) {
    PutParts(item.parts, false, Commented(item.parts), false, PutSame(item.trailing, [NewLine] + rest))
  }

  ghost predicate ReadsWords(c: Cursor, item: Item, rest: seq<Piece>, b: At, line: nat) {
    && c.pend == [] && c.groups != []
    && c.groups[0].tok.kind.Plain? && c.groups[0].tok.line == b.line && c.groups[0].tok.blank == BlankBefore(b)
    && ParseParts(c) == Some(Pieces(SettleParts(item.parts, false, Commented(item.parts)), line,
                                    LexFrom(PutSame(item.trailing, [NewLine] + rest), At(line, line))))
  }

  function SettledItem(item: Item, start: Start, carry: seq<Note>): (r: Item) {
    Item(SettleParts(item.parts, false, Commented(item.parts)), start.blank, start.leading,
        Unblanked(item.trailing), carry)
  }

  lemma ReadBack(item: Item, rest: seq<Piece>, c: Cursor, b: At, line: nat, pend: seq<Comment>)
    requires SameLine(item.trailing) && ReadsWords(c, item, rest, b, line)
    requires ParseRun(LexFrom(rest, Under(item, line))).Some?
    ensures
      var scope, start := ParseRun(LexFrom(rest, Under(item, line))).value, BeginItem(pend, c.groups[0].tok);
      ParseRun(Cursor(pend, c.groups)) == Some(scope.(run :=
        Run(start.toPrev, [SettledItem(item, start, scope.run.carry)] + scope.run.items, scope.run.dangling)))
  {
    var next := LexFrom(rest, Under(item, line));
    LexSame(item.trailing, rest, line);
    SameKeep(item.trailing, line);
    PendBelow(rest, Under(item, line));
    assert Cursor([], c.groups) == c;
    ReadItem(c, pend, SettleParts(item.parts, false, Commented(item.parts)), line, next,
             StampSame(item.trailing, line));
  }

  /** The first item reads back, given that its parts and what comes after it do. */
  lemma ReparseItem(top: bool, before: seq<Note>, prev: Option<Item>, item: Item, rest: seq<Piece>, at: At, line: nat)
    requires Fresh(at) && (at.prev > 0 || prev.None?) && PrintableItem(item)
    requires
      var b := FirstAt(top, before, prev, item, at);
      ReadsWords(LexFrom(Words(item, rest), b), item, rest, b, line)
    requires ParseRun(LexFrom(rest, Under(item, line))).Some?
    ensures
      var scope, start := ParseRun(LexFrom(rest, Under(item, line))).value, Resplit(top, before, prev, item);
      ParseRun(LexFrom(PutBefore(before, prev,
          LineEnd(WantBlank(top, before, prev, item)) + PutLines(item.leading, Words(item, rest))), at))
        == Some(scope.(run :=
             Run(start.toPrev, [SettledItem(item, start, scope.run.carry)] + scope.run.items, scope.run.dangling)))
  {
    var want, b := WantBlank(top, before, prev, item), FirstAt(top, before, prev, item, at);
    var c := LexFrom(Words(item, rest), b);
    var pend := StampBefore(before, prev, at) + StampLines(item.leading, Down(AfterBefore(before, prev, at), want));
    LexItemStart(before, prev, item.leading, want, Words(item, rest), at);
    ReadBack(item, rest, c, b, line, pend);
    BeginAgain(top, before, prev, item, at, c.groups[0].tok);
  }
}
