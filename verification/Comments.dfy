/** No comment is lost, repeated or reordered, neither by the parser nor by the printer. */
module Comments {
  import opened Symbols
  import opened Layout
  import opened LayoutRoundTrip
  import opened FormatStable

  // ---- attaching consumes the comment stream in order -----------------------------------------

  function Afters(groups: seq<Group>): (r: seq<Comment>) {
    if groups == [] then [] else groups[0].after + Afters(groups[1..])
  }

  /** The comments still to be attached. */
  function Stream(c: Cursor): (r: seq<Comment>) {
    c.pend + Afters(c.groups)
  }

  function RemarksOf(cs: seq<Comment>): (r: seq<Remark>)
    ensures |r| == |cs| && forall i :: 0 <= i < |r| ==> r[i] == cs[i].remark
  {
    seq(|cs|, i requires 0 <= i < |cs| => cs[i].remark)
  }

  /** The comments `rs` have been taken from the front of `before`, which leaves `after`. */
  predicate Taken(before: seq<Comment>, after: seq<Comment>, rs: seq<Remark>) {
    && |before| == |rs| + |after|
    && before[|rs|..] == after
    && RemarksOf(before[..|rs|]) == rs
  }

  lemma TakenMore(a: seq<Comment>, b: seq<Comment>, c: seq<Comment>, r: seq<Remark>, s: seq<Remark>)
    requires Taken(a, b, r) && Taken(b, c, s)
    ensures Taken(a, c, r + s)
  {
    assert a == a[..|r|] + b;
    assert b == b[..|s|] + c;
    assert a[..|r + s|] == a[..|r|] + b[..|s|];
    assert RemarksOf(a[..|r + s|]) == RemarksOf(a[..|r|]) + RemarksOf(b[..|s|]);
  }

  lemma TakenFront(front: seq<Comment>, rest: seq<Comment>)
    ensures Taken(front + rest, rest, Remarks(Notes(front)))
  {
    assert (front + rest)[..|front|] == front;
  }

  lemma TakenNone(s: seq<Comment>)
    ensures Taken(s, s, [])
  {
  }

  lemma BumpKeeps(c: Cursor)
    requires c.groups != []
    ensures Stream(Bump(c)) == Stream(c)
    ensures Stream(Cursor(c.groups[0].after, c.groups[1..])) == Afters(c.groups)
  {
  }

  /** After a comment that runs to the end of its line, or over several lines, the next one starts further down. */
  predicate Readable(cs: seq<Comment>) {
    forall i :: 0 <= i < |cs| - 1 && (cs[i].remark.toLineEnd || cs[i].remark.height > 0) ==> cs[i].line < cs[i + 1].line
  }

  lemma ReadableRest(before: seq<Comment>, after: seq<Comment>, rs: seq<Remark>)
    requires Readable(before) && Taken(before, after, rs)
    ensures Readable(after)
  {
    forall i | 0 <= i < |after| - 1 && (after[i].remark.toLineEnd || after[i].remark.height > 0)
      ensures after[i].line < after[i + 1].line
    {
      assert after[i] == before[|rs| + i] && after[i + 1] == before[|rs| + i + 1];
    }
  }

  /** Comments that start on one line can be put on one line again. */
  lemma TrailingFits(pend: seq<Comment>, rest: seq<Comment>, line: nat)
    requires Readable(pend + rest)
    ensures SameLine(Notes(pend[..TrailingCount(pend, line)]))
  {
    var n: int := TrailingCount(pend, line);
    forall i | 0 <= i < n - 1 ensures !pend[i].remark.toLineEnd && pend[i].remark.height == 0 {
      assert (pend + rest)[i] == pend[i] && (pend + rest)[i + 1] == pend[i + 1];
    }
  }

  ghost predicate RunKeeps(c: Cursor, scope: Scope) {
    && Taken(Stream(c), Stream(scope.rest), RunComments(scope.run.carry, scope.run.items, scope.run.dangling))
    && (Readable(Stream(c)) ==> PrintableItems(scope.run.items))
  }

  ghost predicate PartsKeep(c: Cursor, body: Pieces) {
    && Taken(Stream(c), Stream(body.rest), PartComments(body.parts))
    && (Readable(Stream(c)) ==> PrintableParts(body.parts))
  }

  /** The slots of a scope, read in tree order, are the next comments of the stream. */
  lemma {:induction false} ParseKeepsRun(c: Cursor)
    requires ParseRun(c).Some?
    ensures RunKeeps(c, ParseRun(c).value)
    decreases |c.groups|, 2
  {
    BumpKeeps(c);
    match c.groups[0].tok.kind
    case Semi => ParseKeepsRun(Bump(c));
    case Close =>
      TakenFront(c.pend, Afters(c.groups));
      assert Remarks([]) + ItemComments([]) + Remarks(Notes(c.pend)) == Remarks(Notes(c.pend));
    case Plain(_, _) => ParseKeepsItem(c);
  }

  lemma {:induction false} ParseKeepsItem(c: Cursor)
    requires ParseRun(c).Some? && c.groups[0].tok.kind.Plain?
    ensures RunKeeps(c, ParseRun(c).value)
    decreases |c.groups|, 1
  {
    var words := Cursor([], c.groups);
    var body := ParseParts(words).value;
    var n := TrailingCount(body.rest.pend, body.line);
    var next := Cursor(body.rest.pend[n..], body.rest.groups);
    ParseKeepsParts(words);
    ParseKeepsRun(next);
    ItemTaken(c, BeginItem(c.pend, c.groups[0].tok), body, n, next, ParseRun(next).value);
  }

  lemma TakenChain(s0: seq<Comment>, s1: seq<Comment>, s2: seq<Comment>, s3: seq<Comment>, s4: seq<Comment>,
                   a: seq<Remark>, b: seq<Remark>, c: seq<Remark>, d: seq<Remark>)
    requires Taken(s0, s1, a) && Taken(s1, s2, b) && Taken(s2, s3, c) && Taken(s3, s4, d)
    ensures Taken(s0, s4, a + b + c + d)
  {
    TakenMore(s0, s1, s2, a, b);
    TakenMore(s0, s2, s3, a + b, c);
    TakenMore(s0, s3, s4, a + b + c, d);
  }

  /** The four stretches of the stream that one item and the rest of its scope take. */
  lemma Stretches(c: Cursor, body: Pieces, n: nat, next: Cursor)
    requires n <= |body.rest.pend| && next == Cursor(body.rest.pend[n..], body.rest.groups)
    ensures Taken(Stream(c), Stream(Cursor([], c.groups)), Remarks(Notes(c.pend)))
    ensures Taken(Stream(body.rest), Stream(next), Remarks(Notes(body.rest.pend[..n])))
  {
    assert Stream(Cursor([], c.groups)) == Afters(c.groups);
    TakenFront(c.pend, Afters(c.groups));
    assert body.rest.pend == body.rest.pend[..n] + next.pend;
    assert Stream(body.rest) == body.rest.pend[..n] + Stream(next);
    TakenFront(body.rest.pend[..n], Stream(next));
  }

  lemma ItemTaken(c: Cursor, start: Start, body: Pieces, n: nat, next: Cursor, scope: Scope)
    requires c.groups != [] && start == BeginItem(c.pend, c.groups[0].tok)
    requires n == TrailingCount(body.rest.pend, body.line) && next == Cursor(body.rest.pend[n..], body.rest.groups)
    requires PartsKeep(Cursor([], c.groups), body) && body.parts != [] && body.parts[0].Word?
    requires RunKeeps(next, scope)
    ensures
      var item := Item(body.parts, start.blank, start.leading, Notes(body.rest.pend[..n]), scope.run.carry);
      RunKeeps(c, scope.(run := Run(start.toPrev, [item] + scope.run.items, scope.run.dangling)))
  {
    var item := Item(body.parts, start.blank, start.leading, Notes(body.rest.pend[..n]), scope.run.carry);
    Stretches(c, body, n, next);
    TakenChain(Stream(c), Stream(Cursor([], c.groups)), Stream(body.rest), Stream(next), Stream(scope.rest),
               Remarks(Notes(c.pend)), PartComments(body.parts), Remarks(item.trailing),
               RunComments(scope.run.carry, scope.run.items, scope.run.dangling));
    BoundaryComments(c, start, item, scope.run);
    if Readable(Stream(c)) {
      ItemPrintable(c, start, body, n, next, scope);
    }
  }

  lemma ItemPrintable(c: Cursor, start: Start, body: Pieces, n: nat, next: Cursor, scope: Scope)
    requires n == TrailingCount(body.rest.pend, body.line) && next == Cursor(body.rest.pend[n..], body.rest.groups)
    requires PartsKeep(Cursor([], c.groups), body) && body.parts != [] && body.parts[0].Word?
    requires RunKeeps(next, scope) && Readable(Stream(c))
    ensures
      var item := Item(body.parts, start.blank, start.leading, Notes(body.rest.pend[..n]), scope.run.carry);
      PrintableItems([item] + scope.run.items)
  {
    var words := Cursor([], c.groups);
    var item := Item(body.parts, start.blank, start.leading, Notes(body.rest.pend[..n]), scope.run.carry);
    Stretches(c, body, n, next);
    ReadableRest(Stream(c), Stream(words), Remarks(Notes(c.pend)));
    ReadableRest(Stream(words), Stream(body.rest), PartComments(body.parts));
    ReadableRest(Stream(body.rest), Stream(next), Remarks(item.trailing));
    TrailingFits(body.rest.pend, Afters(body.rest.groups), body.line);
    assert ([item] + scope.run.items)[1..] == scope.run.items;
  }

  lemma BoundaryComments(c: Cursor, start: Start, item: Item, run: Run)
    requires c.groups != [] && start == BeginItem(c.pend, c.groups[0].tok)
    requires item.leading == start.leading && item.detached == run.carry
    ensures RunComments(start.toPrev, [item] + run.items, run.dangling)
      == Remarks(Notes(c.pend)) + PartComments(item.parts) + Remarks(item.trailing)
         + RunComments(run.carry, run.items, run.dangling)
  {
    SplitWhole(Notes(c.pend), c.pend != [] && c.groups[0].tok.line <= EndLine(c.pend[|c.pend| - 1]) + 1,
        c.groups[0].tok.blank);
    RemarksConcat(start.toPrev, start.leading);
    RunCons(start.toPrev, [item] + run.items, run.dangling);
    assert ([item] + run.items)[1..] == run.items;
    InOrder(Remarks(start.toPrev), Remarks(start.leading), PartComments(item.parts), Remarks(item.trailing),
            RunComments(run.carry, run.items, run.dangling));
  }

  lemma InOrder(a: seq<Remark>, b: seq<Remark>, p: seq<Remark>, t: seq<Remark>, r: seq<Remark>)
    ensures (a + b) + p + t + r == a + (b + p + t) + r
  {
  }

  lemma {:induction false} ParseKeepsParts(c: Cursor)
    requires ParseParts(c).Some?
    ensures PartsKeep(c, ParseParts(c).value)
    ensures c.groups[0].tok.kind.Plain? ==> ParseParts(c).value.parts != [] && ParseParts(c).value.parts[0].Word?
    decreases |c.groups|, 0
  {
    var tok := c.groups[0].tok;
    BumpKeeps(c);
    TakenNone(Stream(c));
    match tok.kind
    case Plain(text, cut) =>
      PartCons(Word(text, cut), []);
      if !tok.last {
        ParseKeepsParts(Bump(c));
        PartCons(Word(text, cut), ParseParts(Bump(c)).value.parts);
      }
    case Open(mode, cut) =>
      var scope := ParseRun(Bump(c)).value;
      var part := Nested(mode, BlockOf(scope.run), cut);
      ParseKeepsRun(Bump(c));
      assert PartComment(part) == RunComments(scope.run.carry, scope.run.items, scope.run.dangling);
      PartCons(part, []);
      if !scope.close.last {
        ParseKeepsParts(scope.rest);
        var more := ParseParts(scope.rest).value;
        PartCons(part, more.parts);
        TakenMore(Stream(c), Stream(scope.rest), Stream(more.rest), PartComment(part), PartComments(more.parts));
        if Readable(Stream(c)) {
          ReadableRest(Stream(c), Stream(scope.rest), PartComment(part));
        }
      }
    case Separator =>
  }

  lemma PartCons(part: Part, parts: seq<Part>)
    ensures PartComments([part] + parts) == PartComment(part) + PartComments(parts)
    ensures PartComments([part]) == PartComment(part)
    ensures PrintableParts([part] + parts) <==> PrintablePart(part) && PrintableParts(parts)
    ensures PrintableParts([part]) <==> PrintablePart(part)
  {
    assert ([part] + parts)[1..] == parts;
  }

  // ---- printing ----------------------------------------------------------------------------------

  /** The comments of a text, in the order in which they are written. */
  function Written(ps: seq<Piece>): (r: seq<Remark>) {
    if ps == [] then [] else (if ps[0].Com? then [ps[0].remark] else []) + Written(ps[1..])
  }

  lemma {:induction false} WrittenConcat(a: seq<Piece>, b: seq<Piece>)
    ensures Written(a + b) == Written(a) + Written(b)
  {
    if a == [] {
      assert a + b == b;
    } else {
      assert (a + b)[1..] == a[1..] + b;
      WrittenConcat(a[1..], b);
    }
  }

  lemma WrittenRemark(remark: Remark, k: seq<Piece>)
    ensures Written([Com(remark)] + k) == [remark] + Written(k)
    ensures Written([Com(remark), NewLine] + k) == [remark] + Written(k)
  {
    assert ([Com(remark)] + k)[1..] == k;
    assert ([Com(remark), NewLine] + k)[1..] == [NewLine] + k;
    assert ([NewLine] + k)[1..] == k;
    assert [] + Written(k) == Written(k);
  }

  lemma {:induction false} WrittenLines(notes: seq<Note>, k: seq<Piece>)
    ensures Written(PutLines(notes, k)) == Remarks(notes) + Written(k)
  {
    if notes == [] {
      assert [] + Written(k) == Written(k);
    } else {
      WrittenLines(notes[1..], k);
      WrittenRemark(notes[0].remark, PutLines(notes[1..], k));
      RemarksCons(notes, Written(k));
    }
  }

  lemma RemarksCons(notes: seq<Note>, k: seq<Remark>)
    requires notes != []
    ensures [notes[0].remark] + (Remarks(notes[1..]) + k) == Remarks(notes) + k
  {
  }

  lemma {:induction false} WrittenSpaced(notes: seq<Note>, k: seq<Piece>)
    ensures Written(PutSpaced(notes, k)) == Remarks(notes) + Written(k)
  {
    if notes == [] {
      assert [] + Written(k) == Written(k);
    } else {
      SpacedCons(notes, k);
      WrittenLineEnd(notes[0].blank, [Com(notes[0].remark), NewLine] + PutSpaced(notes[1..], k));
      WrittenRemark(notes[0].remark, PutSpaced(notes[1..], k));
      WrittenSpaced(notes[1..], k);
      RemarksCons(notes, Written(k));
    }
  }

  lemma WrittenBefore(before: seq<Note>, prev: Option<Item>, k: seq<Piece>)
    ensures Written(PutBefore(before, prev, k)) == Remarks(before) + Written(k)
  {
    WrittenSpaced(before, k);
    if prev.None? && before != [] {
      WrittenSpaced(before[1..], k);
      WrittenRemark(before[0].remark, PutSpaced(before[1..], k));
      RemarksCons(before, Written(k));
    }
  }

  lemma {:induction false} WrittenSame(notes: seq<Note>, k: seq<Piece>)
    ensures Written(PutSame(notes, k)) == Remarks(notes) + Written(k)
  {
    if notes == [] {
      assert [] + Written(k) == Written(k);
    } else {
      WrittenSame(notes[1..], k);
      WrittenRemark(notes[0].remark, PutSame(notes[1..], k));
      RemarksCons(notes, Written(k));
    }
  }

  lemma WrittenTok(kind: TokenKind, last: bool, k: seq<Piece>)
    ensures Written([Tok(kind, last)] + k) == Written(k)
  {
    WrittenConcat([Tok(kind, last)], k);
  }

  lemma WrittenLineEnd(here: bool, k: seq<Piece>)
    ensures Written(LineEnd(here) + k) == Written(k)
  {
    WrittenConcat(LineEnd(here), k);
  }

  /** The printer writes every comment of a scope once, in tree order. */
  lemma {:induction false} WrittenRun(top: bool, before: seq<Note>, prev: Option<Item>, items: seq<Item>,
      dangling: seq<Note>, k: seq<Piece>)
    ensures Written(PutRun(top, before, prev, items, dangling, k)) == RunComments(before, items, dangling) + Written(k)
    decreases items
  {
    if items == [] {
      WrittenBefore(before, prev, PutSpaced(dangling, k));
      WrittenSpaced(dangling, k);
      FourParts(Remarks(before), [], Remarks(dangling), Written(k));
    } else {
      var item := items[0];
      assert item in items;
      var rest := PutRun(top, item.detached, Some(item), items[1..], dangling, k);
      WrittenRun(top, item.detached, Some(item), items[1..], dangling, k);
      WrittenItem(item, rest);
      WrittenFirst(before, prev, WantBlank(top, before, prev, item), item, rest);
      RunCons(before, items, dangling);
      FourParts(Remarks(before), OwnComments(item), RunComments(item.detached, items[1..], dangling), Written(k));
    }
  }

  lemma WrittenFirst(before: seq<Note>, prev: Option<Item>, want: bool, item: Item, rest: seq<Piece>)
    requires Written(PutLines(item.leading, Words(item, rest))) == OwnComments(item) + Written(rest)
    ensures Written(PutBefore(before, prev, LineEnd(want) + PutLines(item.leading, Words(item, rest))))
      == Remarks(before) + (OwnComments(item) + Written(rest))
  {
    WrittenBefore(before, prev, LineEnd(want) + PutLines(item.leading, Words(item, rest)));
    WrittenLineEnd(want, PutLines(item.leading, Words(item, rest)));
  }

  lemma ThreeParts(a: seq<Remark>, b: seq<Remark>, c: seq<Remark>)
    ensures a + (b + c) == (a + b) + c
  {
  }

  lemma FourParts(a: seq<Remark>, b: seq<Remark>, c: seq<Remark>, d: seq<Remark>)
    ensures a + (b + (c + d)) == a + b + c + d
  {
  }

  lemma {:induction false} WrittenItem(item: Item, rest: seq<Piece>)
    ensures Written(PutLines(item.leading, Words(item, rest))) == OwnComments(item) + Written(rest)
    decreases item
  {
    var after := PutSame(item.trailing, [NewLine] + rest);
    WrittenLines(item.leading, Words(item, rest));
    WrittenSame(item.trailing, [NewLine] + rest);
    WrittenLineEnd(true, rest);
    WrittenParts(item.parts, false, Commented(item.parts), false, after, 0);
    assert item.parts[0..] == item.parts;
    FourParts(Remarks(item.leading), PartComments(item.parts), Remarks(item.trailing), Written(rest));
  }

  lemma {:induction false} WrittenParts(parts: seq<Part>, inline: bool, commented: bool, separate: bool,
      k: seq<Piece>, n: nat)
    requires n <= |parts|
    requires if inline then PartComments(parts[n..]) == [] else commented == Commented(parts)
    ensures Written(PutParts(parts[n..], inline, commented, separate, k)) == PartComments(parts[n..]) + Written(k)
    decreases parts, |parts| - n
  {
    if n == |parts| {
      WrittenTok(Separator, true, k);
    } else {
      assert parts[n] in parts;
      assert parts[n..][0] == parts[n] && parts[n..][1..] == parts[n + 1..];
      WrittenParts(parts, inline, commented, separate, k, n + 1);
      WrittenPart(parts[n], inline, commented, |parts| - n == 1 && !separate,
                  PutParts(parts[n + 1..], inline, commented, separate, k));
      ThreeParts(PartComment(parts[n]), PartComments(parts[n + 1..]), Written(k));
    }
  }

  lemma {:induction false} WrittenPart(part: Part, inline: bool, commented: bool, last: bool, k: seq<Piece>)
    requires inline ==> PartComment(part) == []
    requires !inline && part.Nested? && !part.mode.Body? && HasComments(part.block) ==> commented
    ensures Written(PutPart(part, inline, commented, last, k)) == PartComment(part) + Written(k)
    decreases part
  {
    match part
    case Word(text, cut) =>
      assert PutPart(part, inline, commented, last, k)
        == [Tok(Plain(text, cut), last)] + (LineEnd(cut && commented && !last) + k);
      WrittenTok(Plain(text, cut), last, LineEnd(cut && commented && !last) + k);
      WrittenLineEnd(cut && commented && !last, k);
    case Nested(mode, b, cut) =>
      var end := [Tok(Close, last)] + (LineEnd(cut && commented && !last) + k);
      WrittenTok(Close, last, LineEnd(cut && commented && !last) + k);
      WrittenLineEnd(cut && commented && !last, k);
      if AsBlock(inline, commented, mode, b) {
        var inner := PutRun(false, b.intro, None, b.items, b.dangling, end);
        WrittenRun(false, b.intro, None, b.items, b.dangling, end);
        PutBlock(part, inline, commented, last, k);
        WrittenTok(Open(mode, cut), false, LineEnd(true) + inner);
        WrittenLineEnd(true, inner);
      } else {
        FlatHasNone(part, inline, commented);
        PutFlat(part, inline, commented, last, k);
        WrittenInline(b.items, end);
        WrittenTok(Open(mode, cut), false, PutInline(b.items, end));
      }
  }

  lemma {:induction false} WrittenInline(items: seq<Item>, k: seq<Piece>)
    requires ItemComments(items) == []
    ensures Written(PutInline(items, k)) == Written(k)
    decreases items
  {
    if items != [] {
      assert items[0] in items;
      NoneInside(items);
      WrittenInline(items[1..], k);
      assert items[0].parts[0..] == items[0].parts;
      WrittenParts(items[0].parts, true, false, |items| > 1, PutInline(items[1..], k), 0);
    }
  }
}
