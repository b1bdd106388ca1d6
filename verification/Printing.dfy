/** The printer: an output buffer and a line state.

  A line is closed by its line break; appending a trailing comment reopens it by
  taking that line break back. The methods are proved against the layout
  functions of module Layout.
 */
module Printing {
  import opened Symbols
  import opened Layout
  import opened LayoutRoundTrip

  /** Where the printer stands between lines. */
  datatype LineState = Fresh | Closed | AfterBlank

  // ---- what is written does not depend on what follows ------------------------------------------

  lemma Shift(a: seq<Piece>, b: seq<Piece>, k: seq<Piece>)
    ensures a + (b + k) == (a + b) + k
  {
  }

  lemma {:induction false} LinesThen(notes: seq<Note>, k: seq<Piece>)
    ensures PutLines(notes, k) == PutLines(notes, []) + k
  {
    if notes != [] {
      LinesThen(notes[1..], k);
      Shift([Com(notes[0].remark), NewLine], PutLines(notes[1..], []), k);
    }
  }

  lemma {:induction false} SpacedThen(notes: seq<Note>, k: seq<Piece>)
    ensures PutSpaced(notes, k) == PutSpaced(notes, []) + k
  {
    if notes != [] {
      SpacedThen(notes[1..], k);
      Shift(LineEnd(notes[0].blank) + [Com(notes[0].remark), NewLine], PutSpaced(notes[1..], []), k);
    }
  }

  lemma {:induction false} SameThen(notes: seq<Note>, k: seq<Piece>)
    ensures PutSame(notes, k) == PutSame(notes, []) + k
  {
    if notes != [] {
      SameThen(notes[1..], k);
      Shift([Com(notes[0].remark)], PutSame(notes[1..], []), k);
    }
  }

  lemma BeforeThen(before: seq<Note>, prev: Option<Item>, k: seq<Piece>)
    ensures PutBefore(before, prev, k) == PutBefore(before, prev, []) + k
  {
    SpacedThen(before, k);
    if prev.None? && before != [] {
      SpacedThen(before[1..], k);
      Shift([Com(before[0].remark), NewLine], PutSpaced(before[1..], []), k);
    }
  }

  lemma {:induction false} RunThen(top: bool, before: seq<Note>, prev: Option<Item>, items: seq<Item>,
      dangling: seq<Note>, k: seq<Piece>)
    ensures PutRun(top, before, prev, items, dangling, k) == PutRun(top, before, prev, items, dangling, []) + k
    decreases items, 1
  {
    var next := PutNext(top, before, prev, items, dangling, []);
    NextThen(top, before, prev, items, dangling, k);
    BeforeThen(before, prev, next);
    BeforeThen(before, prev, next + k);
    Shift(PutBefore(before, prev, []), next, k);
  }

  lemma {:induction false} NextThen(top: bool, before: seq<Note>, prev: Option<Item>, items: seq<Item>,
      dangling: seq<Note>, k: seq<Piece>)
    ensures PutNext(top, before, prev, items, dangling, k) == PutNext(top, before, prev, items, dangling, []) + k
    decreases items, 0
  {
    if items == [] {
      SpacedThen(dangling, k);
    } else {
      var item := items[0];
      assert item in items;
      var want := WantBlank(top, before, prev, item);
      var rest := PutRun(top, item.detached, Some(item), items[1..], dangling, []);
      RunThen(top, item.detached, Some(item), items[1..], dangling, k);
      ItemThen(item, want, rest);
      ItemThen(item, want, rest + k);
      Shift(ItemText(item, want), rest, k);
    }
  }

  /** An item with its leading and trailing comments, up to the end of its line. */
  function ItemText(item: Item, want: bool): (r: seq<Piece>) {
    ItemHead(item, want) + PutSame(item.trailing, []) + [NewLine]
  }

  function ItemHead(item: Item, want: bool): (r: seq<Piece>) {
    LineEnd(want) + PutLines(item.leading, []) + PutParts(item.parts, false, Commented(item.parts), false, [])
  }

  lemma {:induction false} ItemThen(item: Item, want: bool, rest: seq<Piece>)
    ensures LineEnd(want) + PutLines(item.leading, Words(item, rest)) == ItemText(item, want) + rest
    decreases item
  {
    var after := PutSame(item.trailing, [NewLine] + rest);
    LinesThen(item.leading, Words(item, rest));
    PartsThen(item.parts, false, Commented(item.parts), false, after);
    SameThen(item.trailing, [NewLine] + rest);
    FiveParts(LineEnd(want), PutLines(item.leading, []), PutParts(item.parts, false, Commented(item.parts), false, []),
              PutSame(item.trailing, []), [NewLine], rest);
  }

  lemma FiveParts(a: seq<Piece>, b: seq<Piece>, c: seq<Piece>, d: seq<Piece>, e: seq<Piece>, k: seq<Piece>)
    ensures a + (b + (c + (d + (e + k)))) == a + b + c + d + e + k
  {
  }

  lemma {:induction false} PartsThen(parts: seq<Part>, inline: bool, commented: bool, separate: bool, k: seq<Piece>)
    ensures PutParts(parts, inline, commented, separate, k) == PutParts(parts, inline, commented, separate, []) + k
    decreases parts
  {
    if parts != [] {
      var last := |parts| == 1 && !separate;
      var rest := PutParts(parts[1..], inline, commented, separate, []);
      PartsThen(parts[1..], inline, commented, separate, k);
      PartThen(parts[0], inline, commented, last, rest + k);
      PartThen(parts[0], inline, commented, last, rest);
      Shift(PutPart(parts[0], inline, commented, last, []), rest, k);
    }
  }

  lemma {:induction false} PartThen(part: Part, inline: bool, commented: bool, last: bool, k: seq<Piece>)
    ensures PutPart(part, inline, commented, last, k) == PutPart(part, inline, commented, last, []) + k
    decreases part
  {
    match part
    case Word(text, cut) =>
    case Nested(mode, b, cut) =>
      var ends := [Tok(Close, last)] + LineEnd(cut && commented && !last);
      if AsBlock(inline, commented, mode, b) {
        RunThen(false, b.intro, None, b.items, b.dangling, ends + k);
        RunThen(false, b.intro, None, b.items, b.dangling, ends + []);
        var inner := PutRun(false, b.intro, None, b.items, b.dangling, []);
        Around([Tok(Open(mode, cut), false), NewLine], inner, ends, k);
      } else {
        InlineThen(b.items, ends + k);
        InlineThen(b.items, ends + []);
        Around([Tok(Open(mode, cut), false)], PutInline(b.items, []), ends, k);
      }
  }

  lemma Around(a: seq<Piece>, b: seq<Piece>, c: seq<Piece>, k: seq<Piece>)
    ensures a + (b + (c + k)) == a + (b + (c + [])) + k
  {
  }

  lemma {:induction false} InlineThen(items: seq<Item>, k: seq<Piece>)
    ensures PutInline(items, k) == PutInline(items, []) + k
    decreases items
  {
    if items != [] {
      assert items[0] in items;
      var rest := PutInline(items[1..], []);
      InlineThen(items[1..], k);
      PartsThen(items[0].parts, true, false, |items| > 1, rest + k);
      PartsThen(items[0].parts, true, false, |items| > 1, rest);
      Shift(PutParts(items[0].parts, true, false, |items| > 1, []), rest, k);
    }
  }

  lemma LineMore(notes: seq<Note>, i: nat)
    requires i < |notes|
    ensures PutLines(notes[..i + 1], []) == PutLines(notes[..i], []) + [Com(notes[i].remark), NewLine]
  {
    LinesSplit(notes[..i], [notes[i]]);
    assert notes[..i + 1] == notes[..i] + [notes[i]];
    assert PutLines([notes[i]], []) == [Com(notes[i].remark), NewLine];
  }

  lemma {:induction false} LinesSplit(a: seq<Note>, b: seq<Note>)
    ensures PutLines(a + b, []) == PutLines(a, []) + PutLines(b, [])
  {
    if a == [] {
      assert a + b == b;
    } else {
      assert (a + b)[1..] == a[1..] + b;
      LinesSplit(a[1..], b);
    }
  }

  lemma SpacedMore(notes: seq<Note>, i: nat)
    requires i < |notes|
    ensures PutSpaced(notes[..i + 1], [])
      == PutSpaced(notes[..i], []) + LineEnd(notes[i].blank) + [Com(notes[i].remark), NewLine]
  {
    SpacedSplit(notes[..i], [notes[i]]);
    assert notes[..i + 1] == notes[..i] + [notes[i]];
    assert PutSpaced([notes[i]], []) == LineEnd(notes[i].blank) + [Com(notes[i].remark), NewLine];
  }

  lemma SpacedFrom(notes: seq<Note>, intro: bool)
    requires notes != []
    ensures LineEnd(!intro && notes[0].blank) + [Com(notes[0].remark), NewLine] + PutSpaced(notes[1..], [])
      == if intro then PutIntro(notes, []) else PutSpaced(notes, [])
  {
  }

  lemma {:induction false} SpacedSplit(a: seq<Note>, b: seq<Note>)
    ensures PutSpaced(a + b, []) == PutSpaced(a, []) + PutSpaced(b, [])
  {
    if a == [] {
      assert a + b == b;
    } else {
      assert (a + b)[1..] == a[1..] + b;
      SpacedSplit(a[1..], b);
    }
  }

  lemma SameMore(notes: seq<Note>, i: nat)
    requires i < |notes|
    ensures PutSame(notes[..i + 1], []) == PutSame(notes[..i], []) + [Com(notes[i].remark)]
  {
    SameSplit(notes[..i], [notes[i]]);
    assert notes[..i + 1] == notes[..i] + [notes[i]];
    assert PutSame([notes[i]], []) == [Com(notes[i].remark)];
  }

  lemma {:induction false} SameSplit(a: seq<Note>, b: seq<Note>)
    ensures PutSame(a + b, []) == PutSame(a, []) + PutSame(b, [])
  {
    if a == [] {
      assert a + b == b;
    } else {
      assert (a + b)[1..] == a[1..] + b;
      SameSplit(a[1..], b);
    }
  }

  lemma Grouped(a: seq<Piece>, b: seq<Piece>, c: seq<Piece>, d: seq<Piece>)
    ensures a + b + c + d == a + (b + c + d)
  {
  }

  lemma BlockText(part: Part, inline: bool, commented: bool, last: bool)
    requires part.Nested? && AsBlock(inline, commented, part.mode, part.block)
    ensures
      var b := part.block;
      PutPart(part, inline, commented, last, []) == [Tok(Open(part.mode, part.cut), false), NewLine]
        + PutRun(false, b.intro, None, b.items, b.dangling, [])
        + ([Tok(Close, last)] + LineEnd(part.cut && commented && !last))
  {
    var b, end := part.block, [Tok(Close, last)] + LineEnd(part.cut && commented && !last);
    assert end + [] == end;
    RunThen(false, b.intro, None, b.items, b.dangling, end);
    Shift([Tok(Open(part.mode, part.cut), false), NewLine], PutRun(false, b.intro, None, b.items, b.dangling, []), end);
  }

  lemma FlatText(part: Part, inline: bool, commented: bool, last: bool)
    requires part.Nested? && !AsBlock(inline, commented, part.mode, part.block)
    ensures PutPart(part, inline, commented, last, []) == [Tok(Open(part.mode, part.cut), false)]
      + PutInline(part.block.items, []) + ([Tok(Close, last)] + LineEnd(part.cut && commented && !last))
  {
    var end := [Tok(Close, last)] + LineEnd(part.cut && commented && !last);
    assert end + [] == end;
    InlineThen(part.block.items, end);
    Shift([Tok(Open(part.mode, part.cut), false)], PutInline(part.block.items, []), end);
  }

  class Printer {
    var out: seq<Piece>
    var line: LineState

    constructor ()
      ensures out == [] && line == LineState.Fresh
    {
      out, line := [], LineState.Fresh;
    }

    method Push(p: Piece)
      modifies this`out
      ensures out == old(out) + [p]
    {
      out := out + [p];
    }

    method Nl()
      modifies this
      ensures out == old(out) + [NewLine] && line.Closed?
    {
      out := out + [NewLine];
      line := Closed;
    }

    /** Exactly one blank line before what comes next. */
    method Blank()
      modifies this
      ensures out == old(out) + LineEnd(old(line).Closed?)
      ensures line == if old(line).Closed? then AfterBlank else old(line)
    {
      if line.Closed? {
        out := out + [NewLine];
        line := AfterBlank;
      }
    }

    method CommentLine(remark: Remark)
      modifies this
      ensures out == old(out) + [Com(remark), NewLine] && line.Closed?
    {
      Push(Com(remark));
      Nl();
    }

    method CommentLines(notes: seq<Note>)
      modifies this
      ensures out == old(out) + PutLines(notes, [])
      ensures line == if notes == [] then old(line) else Closed
    {
      var i := 0;
      while i < |notes|
        invariant 0 <= i <= |notes|
        invariant out == old(out) + PutLines(notes[..i], [])
        invariant line == if i == 0 then old(line) else Closed
      {
        LineMore(notes, i);
        Shift(old(out), PutLines(notes[..i], []), [Com(notes[i].remark), NewLine]);
        CommentLine(notes[i].remark);
        i := i + 1;
      }
      assert notes[..i] == notes;
    }

    /** Comment lines with their blank lines; the first one never has one in an intro. */
    method SpacedLines(notes: seq<Note>, intro: bool)
      requires line.Closed? || intro || notes == [] || !notes[0].blank
      modifies this
      ensures out == old(out) + if intro then PutIntro(notes, []) else PutSpaced(notes, [])
      ensures line == if notes == [] then old(line) else Closed
    {
      if notes == [] {
        return;
      }
      if !intro && notes[0].blank {
        Blank();
      }
      CommentLine(notes[0].remark);
      ghost var first := LineEnd(!intro && notes[0].blank) + [Com(notes[0].remark), NewLine];
      assert out == old(out) + first;
      ghost var rest := notes[1..];
      var i := 1;
      while i < |notes|
        invariant 1 <= i <= |notes|
        invariant out == old(out) + first + PutSpaced(rest[..i - 1], [])
        invariant line.Closed?
      {
        SpacedMore(rest, i - 1);
        SpacedLine(notes[i], PutSpaced(rest[..i - 1], []), old(out) + first);
        i := i + 1;
      }
      assert rest[..i - 1] == rest;
      SpacedFrom(notes, intro);
      Shift(old(out), first, PutSpaced(rest, []));
    }

    method SpacedLine(note: Note, ghost done: seq<Piece>, ghost start: seq<Piece>)
      requires out == start + done && line.Closed?
      modifies this
      ensures out == start + (done + LineEnd(note.blank) + [Com(note.remark), NewLine]) && line.Closed?
    {
      if note.blank {
        Blank();
      }
      CommentLine(note.remark);
    }

    /** Reopens the line just closed, appends the comments, and closes it again. */
    method AppendTrailing(notes: seq<Note>)
      requires out != [] && out[|out| - 1] == NewLine && line.Closed?
      modifies this
      ensures out == old(out)[..|old(out)| - 1] + PutSame(notes, []) + [NewLine] && line.Closed?
    {
      if notes == [] {
        assert out == out[..|out| - 1] + [NewLine];
        return;
      }
      ghost var open := out[..|out| - 1];
      out := out[..|out| - 1];
      var i := 0;
      while i < |notes|
        invariant 0 <= i <= |notes|
        invariant out == open + PutSame(notes[..i], [])
        invariant line.Closed?
      {
        SameMore(notes, i);
        Shift(open, PutSame(notes[..i], []), [Com(notes[i].remark)]);
        Push(Com(notes[i].remark));
        i := i + 1;
      }
      assert notes[..i] == notes;
      out := out + [NewLine];
    }

    /** The uniform scope writer. */
    method WriteItems(top: bool, b: Block)
      requires line.Closed? || b.intro != [] || b.items != []
      modifies this
      ensures out == old(out) + PutRun(top, b.intro, None, b.items, b.dangling, [])
      ensures old(line).Closed? || b.intro != [] || b.items != [] ==> line.Closed?
      decreases b
    {
      SpacedLines(b.intro, true);
      ghost var before, prev: Option<Item> := b.intro, None;
      BeforeThen(b.intro, None, PutNext(top, b.intro, None, b.items, b.dangling, []));
      Shift(old(out), PutIntro(b.intro, []), PutNext(top, b.intro, None, b.items, b.dangling, []));
      var i := 0;
      while i < |b.items|
        invariant 0 <= i <= |b.items|
        invariant line.Closed? || (i == 0 && b.intro == [] && b.items != [])
        invariant if i == 0 then prev == None && before == b.intro else prev == Some(b.items[i - 1]) && before == b.items[i - 1].detached
        invariant out + PutNext(top, before, prev, b.items[i..], b.dangling, [])
          == old(out) + PutRun(top, b.intro, None, b.items, b.dangling, [])
      {
        var want := if i == 0 then b.intro != [] else b.items[i].blank || Force(top, b.items[i - 1], b.items[i]);
        assert b.items[i..][1..] == b.items[i + 1..];
        WriteNext(top, before, prev, b.items[i], b.items[i..], b.dangling, want);
        before, prev := b.items[i].detached, Some(b.items[i]);
        i := i + 1;
      }
      SpacedLines(b.dangling, false);
    }

    /** One item with the remarks behind it. */
    method WriteNext(top: bool, ghost before: seq<Note>, ghost prev: Option<Item>, item: Item, ghost items: seq<Item>,
        ghost dangling: seq<Note>, want: bool)
      requires items != [] && items[0] == item && want == WantBlank(top, before, prev, item)
      requires want ==> line.Closed?
      modifies this
      ensures out + PutNext(top, item.detached, Some(item), items[1..], dangling, [])
        == old(out) + PutNext(top, before, prev, items, dangling, [])
      ensures line.Closed?
      decreases item, 3
    {
      NextSplits(top, before, prev, items, dangling, out);
      WriteItem(item, want);
      SpacedLines(item.detached, false);
    }

    method WriteItem(item: Item, want: bool)
      requires want ==> line.Closed?
      modifies this
      ensures out == old(out) + ItemText(item, want) && line.Closed?
      decreases item, 2
    {
      WriteHead(item, want);
      CloseLine(item.trailing);
      Grouped(old(out), ItemHead(item, want), PutSame(item.trailing, []), [NewLine]);
    }

    method WriteHead(item: Item, want: bool)
      requires want ==> line.Closed?
      modifies this
      ensures out == old(out) + ItemHead(item, want)
      decreases item, 1
    {
      if want {
        Blank();
      }
      CommentLines(item.leading);
      WriteParts(item.parts, false, Commented(item.parts), false);
      Grouped(old(out), LineEnd(want), PutLines(item.leading, []),
              PutParts(item.parts, false, Commented(item.parts), false, []));
    }

    /** Ends the line, then reopens it for the trailing comments. */
    method CloseLine(trailing: seq<Note>)
      modifies this
      ensures out == old(out) + PutSame(trailing, []) + [NewLine] && line.Closed?
    {
      Nl();
      assert out[..|out| - 1] == old(out);
      AppendTrailing(trailing);
    }

    method WriteParts(parts: seq<Part>, inline: bool, commented: bool, separate: bool)
      modifies this
      ensures out == old(out) + PutParts(parts, inline, commented, separate, [])
      decreases parts
    {
      var i := 0;
      while i < |parts|
        invariant 0 <= i <= |parts|
        invariant out + PutParts(parts[i..], inline, commented, separate, [])
          == old(out) + PutParts(parts, inline, commented, separate, [])
      {
        assert parts[i..][1..] == parts[i + 1..];
        ghost var rest := PutParts(parts[i + 1..], inline, commented, separate, []);
        var last := i + 1 == |parts| && !separate;
        PartThen(parts[i], inline, commented, last, rest);
        Shift(out, PutPart(parts[i], inline, commented, last, []), rest);
        WritePart(parts[i], inline, commented, last);
        i := i + 1;
      }
      if separate {
        Push(Tok(Separator, true));
      }
    }

    method WritePart(part: Part, inline: bool, commented: bool, last: bool)
      modifies this
      ensures out == old(out) + PutPart(part, inline, commented, last, [])
      decreases part, 1
    {
      match part {
        case Word(text, cut) =>
          Push(Tok(Plain(text, cut), last));
          if cut && commented && !last {
            Nl();
          }
        case Nested(_, _, cut) =>
          ghost var inner := WriteScope(part, inline, commented, last);
          Push(Tok(Close, last));
          if cut && commented && !last {
            Nl();
          }
          Grouped(old(out), inner, [Tok(Close, last)], LineEnd(cut && commented && !last));
          Shift(inner, [Tok(Close, last)], LineEnd(cut && commented && !last));
      }
    }

    /** The opening token and the content, as a block or on the same line. */
    method WriteScope(part: Part, inline: bool, commented: bool, last: bool) returns (ghost inner: seq<Piece>)
      requires part.Nested?
      modifies this
      ensures out == old(out) + inner
      ensures PutPart(part, inline, commented, last, [])
        == inner + ([Tok(Close, last)] + LineEnd(part.cut && commented && !last))
      decreases part, 0
    {
      var b := part.block;
      Push(Tok(Open(part.mode, part.cut), false));
      if AsBlock(inline, commented, part.mode, b) {
        Nl();
        WriteItems(false, b);
        inner := [Tok(Open(part.mode, part.cut), false), NewLine]
          + PutRun(false, b.intro, None, b.items, b.dangling, []);
        Shift(old(out), [Tok(Open(part.mode, part.cut), false), NewLine],
              PutRun(false, b.intro, None, b.items, b.dangling, []));
        BlockText(part, inline, commented, last);
      } else {
        WriteInline(b.items);
        inner := [Tok(Open(part.mode, part.cut), false)] + PutInline(b.items, []);
        Shift(old(out), [Tok(Open(part.mode, part.cut), false)], PutInline(b.items, []));
        FlatText(part, inline, commented, last);
      }
    }

    method WriteInline(items: seq<Item>)
      modifies this
      ensures out == old(out) + PutInline(items, [])
      decreases items
    {
      var i := 0;
      while i < |items|
        invariant 0 <= i <= |items|
        invariant out + PutInline(items[i..], []) == old(out) + PutInline(items, [])
      {
        assert items[i] in items && items[i..][1..] == items[i + 1..];
        ghost var rest := PutInline(items[i + 1..], []);
        PartsThen(items[i].parts, true, false, i + 1 < |items|, rest);
        Shift(out, PutParts(items[i].parts, true, false, i + 1 < |items|, []), rest);
        WriteParts(items[i].parts, true, false, i + 1 < |items|);
        i := i + 1;
      }
    }
  }

  /** The first item, the comments detached from it, and the rest. */
  lemma NextSplits(top: bool, before: seq<Note>, prev: Option<Item>, items: seq<Item>, dangling: seq<Note>,
      out: seq<Piece>)
    requires items != []
    ensures
      var item := items[0];
      out + PutNext(top, before, prev, items, dangling, [])
        == out + ItemText(item, WantBlank(top, before, prev, item)) + PutSpaced(item.detached, [])
           + PutNext(top, item.detached, Some(item), items[1..], dangling, [])
  {
    var item := items[0];
    var next := PutNext(top, item.detached, Some(item), items[1..], dangling, []);
    var rest := PutRun(top, item.detached, Some(item), items[1..], dangling, []);
    ItemThen(item, WantBlank(top, before, prev, item), rest);
    SpacedThen(item.detached, next);
    Shift(out, ItemText(item, WantBlank(top, before, prev, item)), rest);
    Shift(out + ItemText(item, WantBlank(top, before, prev, item)), PutSpaced(item.detached, []), next);
  }

  /** Formats a file into a fresh buffer. */
  method FormatFile(file: Block) returns (text: seq<Piece>)
    requires file.items != []
    ensures text == Format(file)
  {
    var p := new Printer();
    p.WriteItems(true, file);
    p.Push(Tok(Close, false));
    text := p.out;
    RunThen(true, file.intro, None, file.items, file.dangling, [Tok(Close, false)]);
  }
}
