/** Comments, scopes and lines: what the parser attaches and what the printer lays out.

  A source is a stream of tokens and comments with line numbers. The grammar is
  taken as given through `last`, which marks the final token of an item; what is
  modelled is where every comment goes and where every line break goes. A tree
  keeps, per scope, the intro comments, the items with their leading, trailing
  and detached comments and their blank-line flag, and the dangling comments.
 */
module Layout {
  import opened Symbols

  /** The text of a comment. `height` counts the line breaks inside it. */
  datatype Remark = Remark(text: string, toLineEnd: bool, height: nat)

  /** A comment in a slot; `blank` says that a blank line stood before it. */
  datatype Note = Note(remark: Remark, blank: bool)

  /** How a nested scope is written: as a block whenever it has content, when it
    has comments itself, or when some nested scope of its item has comments. */
  datatype Mode = Body | Alone | Joint

  /** After a part with `cut` the line ends if the item has commented values. */
  datatype Part = Word(text: string, cut: bool) | Nested(mode: Mode, block: Block, cut: bool)

  datatype Item = Item(
    parts: seq<Part>, blank: bool,
    leading: seq<Note>, trailing: seq<Note>, detached: seq<Note>)

  datatype Block = Block(intro: seq<Note>, items: seq<Item>, dangling: seq<Note>)

  // ---- comments of a tree ----------------------------------------------------------------

  function Remarks(notes: seq<Note>): (r: seq<Remark>)
    ensures |r| == |notes| && forall i :: 0 <= i < |r| ==> r[i] == notes[i].remark
  {
    seq(|notes|, i requires 0 <= i < |notes| => notes[i].remark)
  }

  /** All comments of a scope in tree order. */
  function CommentsOf(b: Block): (r: seq<Remark>)
    decreases b
  {
    Remarks(b.intro) + ItemComments(b.items) + Remarks(b.dangling)
  }

  function ItemComments(items: seq<Item>): (r: seq<Remark>)
    decreases items
  {
    if items == [] then []
    else
      Remarks(items[0].leading) + PartComments(items[0].parts) + Remarks(items[0].trailing)
      + Remarks(items[0].detached) + ItemComments(items[1..])
  }

  function PartComments(parts: seq<Part>): (r: seq<Remark>)
    decreases parts
  {
    if parts == [] then []
    else
      PartComment(parts[0]) + PartComments(parts[1..])
  }

  function PartComment(part: Part): (r: seq<Remark>)
    decreases part
  {
    match part
    case Word(_, _) => []
    case Nested(_, b, _) => CommentsOf(b)
  }

  predicate IsEmpty(b: Block) {
    b.intro == [] && b.items == [] && b.dangling == []
  }

  predicate HasComments(b: Block) {
    CommentsOf(b) != []
  }

  /** Some value inside the item carries comments. */
  predicate Commented(parts: seq<Part>) {
    exists i :: 0 <= i < |parts| && parts[i].Nested? && !parts[i].mode.Body? && HasComments(parts[i].block)
  }

  predicate AsBlock(inline: bool, commented: bool, mode: Mode, b: Block) {
    && !inline && !IsEmpty(b)
    && (mode.Body? || (mode.Alone? && HasComments(b)) || (mode.Joint? && commented))
  }

  // ---- printing ----------------------------------------------------------------------------

  datatype TokenKind = Plain(text: string, cut: bool) | Open(mode: Mode, cut: bool) | Close | Separator | Semi

  datatype Piece = Tok(kind: TokenKind, last: bool) | Com(remark: Remark) | NewLine

  /** One line per comment. */
  function PutLines(notes: seq<Note>, k: seq<Piece>): (r: seq<Piece>) {
    if notes == [] then k else [Com(notes[0].remark), NewLine] + PutLines(notes[1..], k)
  }

  /** One line per comment, with the blank lines in front. */
  function PutSpaced(notes: seq<Note>, k: seq<Piece>): (r: seq<Piece>) {
    if notes == [] then k
    else LineEnd(notes[0].blank) + [Com(notes[0].remark), NewLine] + PutSpaced(notes[1..], k)
  }

  /** The intro of a scope never starts with a blank line. */
  function PutIntro(notes: seq<Note>, k: seq<Piece>): (r: seq<Piece>) {
    if notes == [] then k else [Com(notes[0].remark), NewLine] + PutSpaced(notes[1..], k)
  }

  /** All on the current line. */
  function PutSame(notes: seq<Note>, k: seq<Piece>): (r: seq<Piece>) {
    if notes == [] then k else [Com(notes[0].remark)] + PutSame(notes[1..], k)
  }

  /** The blank-line classes of top-level items. */
  function GroupOf(item: Item): nat {
    if item.parts == [] || !item.parts[0].Word? then 4
    else
      var w := item.parts[0].text;
      if w == "syntax" then 0 else if w == "package" then 1 else if w == "import" then 2
      else if w == "option" then 3 else 4
  }

  predicate Force(top: bool, prev: Item, item: Item) {
    top && (GroupOf(prev) != GroupOf(item) || GroupOf(item) == 4)
  }

  /** Whether a blank line precedes `item`, which follows `prev` and the comments `before`. */
  predicate WantBlank(top: bool, before: seq<Note>, prev: Option<Item>, item: Item) {
    if prev.None? then before != [] else item.blank || Force(top, prev.value, item)
  }

  /** The rest of a scope: comments of the previous node, items, dangling comments, and then `k`. */
  function PutRun(top: bool, before: seq<Note>, prev: Option<Item>, items: seq<Item>, dangling: seq<Note>,
      k: seq<Piece>): (r: seq<Piece>)
    decreases items, 1
  {
    if prev.None? then PutIntro(before, PutNext(top, before, prev, items, dangling, k))
    else PutSpaced(before, PutNext(top, before, prev, items, dangling, k))
  }

  function PutNext(top: bool, before: seq<Note>, prev: Option<Item>, items: seq<Item>, dangling: seq<Note>,
      k: seq<Piece>): (r: seq<Piece>)
    decreases items, 0
  {
    if items == [] then PutSpaced(dangling, k)
    else
      var item := items[0];
      var after := PutSame(item.trailing, [NewLine] + PutRun(top, item.detached, Some(item), items[1..], dangling, k));
      LineEnd(WantBlank(top, before, prev, item))
      + PutLines(item.leading, PutParts(item.parts, false, Commented(item.parts), false, after))
  }

  /** The words of an item and its nested scopes. */
  function PutParts(parts: seq<Part>, inline: bool, commented: bool, separate: bool, k: seq<Piece>): (r: seq<Piece>)
    decreases parts
  {
    if parts == [] then (if separate then [Tok(Separator, true)] + k else k)
    else
      var last := |parts| == 1 && !separate;
      PutPart(parts[0], inline, commented, last, PutParts(parts[1..], inline, commented, separate, k))
  }

  function LineEnd(here: bool): (r: seq<Piece>) {
    if here then [NewLine] else []
  }

  /** One part; a line may end after it if it is not the last one of its item. */
  function PutPart(part: Part, inline: bool, commented: bool, last: bool, k: seq<Piece>): (r: seq<Piece>)
    decreases part
  {
    match part
    case Word(text, cut) => [Tok(Plain(text, cut), last)] + LineEnd(cut && commented && !last) + k
    case Nested(mode, b, cut) =>
      var end := [Tok(Close, last)] + LineEnd(cut && commented && !last) + k;
      if AsBlock(inline, commented, mode, b) then
        [Tok(Open(mode, cut), false), NewLine] + PutRun(false, b.intro, None, b.items, b.dangling, end)
      else [Tok(Open(mode, cut), false)] + PutInline(b.items, end)
  }

  /** Comment-free items on one line, with separators between them. */
  function PutInline(items: seq<Item>, k: seq<Piece>): (r: seq<Piece>)
    decreases items
  {
    if items == [] then k
    else PutParts(items[0].parts, true, false, |items| > 1, PutInline(items[1..], k))
  }

  /** The formatted file, up to spaces and indentation. */
  function Format(file: Block): (r: seq<Piece>) {
    PutRun(true, file.intro, None, file.items, file.dangling, [Tok(Close, false)])
  }

  // ---- lines -------------------------------------------------------------------------------------

  datatype Token = Token(kind: TokenKind, last: bool, line: nat, blank: bool)

  datatype Comment = Comment(remark: Remark, line: nat, blank: bool)

  /** A token and the comments between it and the next one. */
  datatype Group = Group(tok: Token, after: seq<Comment>)

  /** The comments not yet attached that precede the current token, and the stream from that token on. */
  datatype Cursor = Cursor(pend: seq<Comment>, groups: seq<Group>)

  /** The line counter, and the line on which the previous token or comment ended (0 at the start). */
  datatype At = At(line: nat, prev: nat)

  predicate BlankBefore(at: At) {
    at.prev != 0 && at.line > at.prev + 1
  }

  function LexFrom(ps: seq<Piece>, at: At): (r: Cursor) {
    if ps == [] then Cursor([], [])
    else
      match ps[0]
      case NewLine => LexFrom(ps[1..], At(at.line + 1, at.prev))
      case Tok(kind, last) =>
        var rest := LexFrom(ps[1..], At(at.line, at.line));
        Cursor([], [Group(Token(kind, last, at.line, BlankBefore(at)), rest.pend)] + rest.groups)
      case Com(remark) =>
        var end := at.line + remark.height;
        var rest := LexFrom(ps[1..], At(end, end));
        Cursor([Comment(remark, at.line, BlankBefore(at))] + rest.pend, rest.groups)
  }

  function Lex(ps: seq<Piece>): (r: Cursor) {
    LexFrom(ps, At(1, 0))
  }

  // ---- attaching ------------------------------------------------------------------------------------

  function EndLine(c: Comment): nat {
    c.line + c.remark.height
  }

  function Notes(cs: seq<Comment>): (r: seq<Note>)
    ensures |r| == |cs| && forall i :: 0 <= i < |r| ==> r[i] == Note(cs[i].remark, cs[i].blank)
  {
    seq(|cs|, i requires 0 <= i < |cs| => Note(cs[i].remark, cs[i].blank))
  }

  /** Where the last run of comments without blank lines starts. */
  function Boundary(notes: seq<Note>): (j: nat)
    ensures if notes == [] then j == 0 else j < |notes|
    ensures j > 0 ==> notes[j].blank
    ensures forall i :: j < i < |notes| ==> !notes[i].blank
  {
    if |notes| <= 1 then 0
    else if notes[|notes| - 1].blank then |notes| - 1
    else Boundary(notes[..|notes| - 1])
  }

  /** Pending comments split into those of the previous node and the leading ones of the coming item. */
  datatype Start = Start(toPrev: seq<Note>, leading: seq<Note>, blank: bool)

  function SplitPending(notes: seq<Note>, near: bool, tokBlank: bool): (r: Start) {
    var j: nat := if notes != [] && near then Boundary(notes) else |notes|;
    Start(notes[..j], notes[j..], if j < |notes| then notes[j].blank else tokBlank)
  }

  function BeginItem(pend: seq<Comment>, tok: Token): (r: Start) {
    SplitPending(Notes(pend), pend != [] && tok.line <= EndLine(pend[|pend| - 1]) + 1, tok.blank)
  }

  /** How many pending comments start on the line on which the item ended. */
  function TrailingCount(pend: seq<Comment>, line: nat): (n: nat)
    ensures n <= |pend|
    ensures forall i :: 0 <= i < n ==> pend[i].line == line
    ensures n < |pend| ==> pend[n].line != line
  {
    if pend == [] || pend[0].line != line then 0 else 1 + TrailingCount(pend[1..], line)
  }

  function Bump(c: Cursor): (r: Cursor)
    requires c.groups != []
  {
    Cursor(c.pend + c.groups[0].after, c.groups[1..])
  }

  /** What is left of a scope: comments for the previous node, items, dangling comments. */
  datatype Run = Run(carry: seq<Note>, items: seq<Item>, dangling: seq<Note>)

  datatype Scope = Scope(run: Run, close: Token, rest: Cursor)

  datatype Pieces = Pieces(parts: seq<Part>, line: nat, rest: Cursor)

  function BlockOf(run: Run): Block {
    Block(run.carry, run.items, run.dangling)
  }

  /** Parses to the end of a scope. */
  function ParseRun(c: Cursor): (r: Option<Scope>)
    ensures r.Some? ==> |r.value.rest.groups| < |c.groups|
    decreases |c.groups|, 1
  {
    if c.groups == [] then None
    else
      var tok := c.groups[0].tok;
      match tok.kind
      case Semi => ParseRun(Bump(c))
      case Close => Some(Scope(Run([], [], Notes(c.pend)), tok, Cursor(c.groups[0].after, c.groups[1..])))
      case Plain(_, _) =>
        var start := BeginItem(c.pend, tok);
        var body := ParseParts(Cursor([], c.groups));
        if body.None? then None
        else
          var next := body.value.rest;
          var n := TrailingCount(next.pend, body.value.line);
          var scope := ParseRun(Cursor(next.pend[n..], next.groups));
          if scope.None? then None
          else
            var run := scope.value.run;
            var item := Item(body.value.parts, start.blank, start.leading, Notes(next.pend[..n]), run.carry);
            Some(scope.value.(run := Run(start.toPrev, [item] + run.items, run.dangling)))
      case _ => None
  }

  /** Parses to the end of an item. */
  function ParseParts(c: Cursor): (r: Option<Pieces>)
    ensures r.Some? ==> |r.value.rest.groups| < |c.groups|
    decreases |c.groups|, 0
  {
    if c.groups == [] then None
    else
      var tok := c.groups[0].tok;
      match tok.kind
      case Plain(text, cut) =>
        if tok.last then Some(Pieces([Word(text, cut)], tok.line, Bump(c)))
        else Prepend(Word(text, cut), ParseParts(Bump(c)))
      case Open(mode, cut) =>
        var scope := ParseRun(Bump(c));
        if scope.None? then None
        else
          var part := Nested(mode, BlockOf(scope.value.run), cut);
          if scope.value.close.last then Some(Pieces([part], scope.value.close.line, scope.value.rest))
          else Prepend(part, ParseParts(scope.value.rest))
      case Separator => if tok.last then Some(Pieces([], tok.line, Bump(c))) else None
      case _ => None
  }

  function Prepend(part: Part, more: Option<Pieces>): (r: Option<Pieces>) {
    if more.None? then None else Some(more.value.(parts := [part] + more.value.parts))
  }
}
