/** Which sources give stable trees.

  If comments stand only between items (after an opening brace, after the last
  token of an item) and there are no empty statements, the tree is stable, so
  formatting keeps every comment in its slot. An empty statement breaks this:
  the blank line above it belongs to the stray semicolon and not to the next
  item, and the second parse moves the comment.
 */
module Stability {
  import opened Symbols
  import opened Layout
  import opened LayoutRoundTrip
  import opened FormatStable
  import opened Comments
  import opened Formatting

  /** Comments stand between items only, and no statement is empty. */
  predicate Tidy(groups: seq<Group>) {
    forall i :: 0 <= i < |groups| ==>
      !groups[i].tok.kind.Semi? && (groups[i].after != [] ==> groups[i].tok.last || groups[i].tok.kind.Open?)
  }

  /** The blank-line flag of a token that follows comments is about the last of them. */
  predicate FlagFits(pend: seq<Comment>, groups: seq<Group>) {
    pend != [] && groups != [] ==> (groups[0].tok.blank <==> groups[0].tok.line > EndLine(pend[|pend| - 1]) + 1)
  }

  predicate Lawful(groups: seq<Group>) {
    forall i :: 0 <= i < |groups| ==> FlagFits(groups[i].after, groups[i + 1..])
  }

  ghost predicate Orderly(c: Cursor) {
    Tidy(c.groups) && Lawful(c.groups) && FlagFits(c.pend, c.groups)
  }

  lemma LawfulTail(groups: seq<Group>)
    requires groups != [] && Tidy(groups) && Lawful(groups)
    ensures Tidy(groups[1..]) && Lawful(groups[1..]) && FlagFits(groups[0].after, groups[1..])
  {
    var rest := groups[1..];
    assert FlagFits(groups[0].after, groups[0 + 1..]);
    forall i | 0 <= i < |rest| ensures FlagFits(rest[i].after, rest[i + 1..]) {
      var n := i + 1;
      assert rest[i] == groups[n] && rest[i + 1..] == groups[n + 1..];
      assert FlagFits(groups[n].after, groups[n + 1..]);
    }
  }

  /** All nested scopes are stable. */
  ghost predicate AllStable(parts: seq<Part>) {
    forall i :: 0 <= i < |parts| && parts[i].Nested? ==> StableBlock(false, parts[i].block)
  }

  lemma {:induction false} AllAreStable(parts: seq<Part>, inline: bool, commented: bool)
    requires AllStable(parts)
    ensures StableParts(parts, inline, commented)
  {
    if parts != [] {
      AllAreStable(parts[1..], inline, commented);
    }
  }

  lemma {:induction false} TidyRun(c: Cursor, top: bool, prev: Option<Item>)
    requires ParseRun(c).Some? && Orderly(c)
    ensures StableRun(top, ParseRun(c).value.run.carry, prev, ParseRun(c).value.run.items)
    ensures Orderly(ParseRun(c).value.rest)
    ensures ParseRun(c).value.rest.pend != [] ==> ParseRun(c).value.close.last
    decreases |c.groups|, 1
  {
    LawfulTail(c.groups);
    if c.groups[0].tok.kind.Plain? {
      var body := ParseParts(Cursor([], c.groups)).value;
      var n := TrailingCount(body.rest.pend, body.line);
      var next := Cursor(body.rest.pend[n..], body.rest.groups);
      TidyParts(Cursor([], c.groups));
      OrderlyRest(body.rest, n);
      var item := Item(body.parts, BeginItem(c.pend, c.groups[0].tok).blank, BeginItem(c.pend, c.groups[0].tok).leading,
                       Notes(body.rest.pend[..n]), ParseRun(next).value.run.carry);
      TidyRun(next, top, Some(item));
      AllAreStable(item.parts, false, Commented(item.parts));
      DirectStart(c);
      assert ([item] + ParseRun(next).value.run.items)[1..] == ParseRun(next).value.run.items;
    }
  }

  lemma OrderlyRest(c: Cursor, n: nat)
    requires Orderly(c) && n <= |c.pend|
    ensures Orderly(Cursor(c.pend[n..], c.groups))
  {
  }

  /** Comments that go to the previous node have a blank line after them. */
  lemma DirectStart(c: Cursor)
    requires c.groups != [] && FlagFits(c.pend, c.groups)
    ensures
      var start := BeginItem(c.pend, c.groups[0].tok);
      start.toPrev != [] ==> start.blank
  {
    var near := c.pend != [] && c.groups[0].tok.line <= EndLine(c.pend[|c.pend| - 1]) + 1;
    SplitFacts(Notes(c.pend), near, c.groups[0].tok.blank);
  }

  lemma {:induction false} TidyParts(c: Cursor)
    requires ParseParts(c).Some? && Orderly(c) && c.pend == []
    ensures AllStable(ParseParts(c).value.parts) && Orderly(ParseParts(c).value.rest)
    decreases |c.groups|, 0
  {
    var tok := c.groups[0].tok;
    LawfulTail(c.groups);
    assert Bump(c).pend == c.groups[0].after;
    match tok.kind
    case Plain(text, cut) =>
      if !tok.last {
        TidyParts(Bump(c));
      }
    case Open(mode, cut) =>
      TidyRun(Bump(c), false, None);
      var scope := ParseRun(Bump(c)).value;
      if !scope.close.last {
        TidyParts(scope.rest);
      }
    case Separator =>
  }

  /** In a tidy source every comment stays in its slot through formatting. */
  lemma TidyIsStable(c: Cursor)
    requires ParseFile(c).Some? && Orderly(c)
    ensures StableBlock(true, ParseFile(c).value)
  {
    TidyRun(c, true, None);
  }

  lemma TidyKeepsSlots(c: Cursor)
    requires ParseFile(c).Some? && Orderly(c) && Readable(Stream(c))
    ensures
      var again := ParseFile(Lex(Format(ParseFile(c).value)));
      again.Some? && EraseBlock(again.value) == EraseBlock(ParseFile(c).value)
  {
    TidyIsStable(c);
    SlotsKept(c);
  }

  // ---- an empty statement moves a comment ------------------------------------------------------------

  /** After the `syntax` statement, a comment directly below the first option, a stray semicolon on the next line, and
    one line further down the second option. */
  function Untidy(remark: Remark): (r: Cursor) {
    Cursor([], [Group(Token(Plain("syntax", false), true, 1, false), [])] + Options(remark).groups)
  }

  function Options(remark: Remark): (r: Cursor) {
    Cursor([], [
      Group(Token(Plain("option", false), true, 2, false), [Comment(remark, 3, false)]),
      Group(Token(Semi, false, 4, false), []),
      Group(Token(Plain("option", false), true, 5, false), []),
      Group(Token(Close, false, 6, false), [])])
  }

  function Statement(word: string, below: seq<Note>): (r: Item) {
    Item([Word(word, false)], false, [], [], below)
  }

  lemma OptionsParse(remark: Remark)
    requires remark.height == 0
    ensures
      var end := Token(Close, false, 6, false);
      var items := [Statement("option", [Note(remark, false)]), Statement("option", [])];
      ParseRun(Options(remark)) == Some(Scope(Run([], items, []), end, Cursor([], [])))
  {
    var c, option, note := Options(remark), Word("option", false), Note(remark, false);
    var pend := [Comment(remark, 3, false)];
    var second, third, fourth := Cursor(pend, c.groups[1..]), Cursor(pend, c.groups[2..]), Cursor([], c.groups[3..]);
    var end := Scope(Run([], [], []), c.groups[3].tok, Cursor([], []));
    assert fourth.groups == [c.groups[3]];
    assert ParseRun(fourth) == Some(end);
    assert third.groups == [c.groups[2]] + fourth.groups;
    assert Bump(Cursor([], third.groups)) == fourth;
    assert ParseParts(Cursor([], third.groups)) == Some(Pieces([option], 5, fourth));
    assert Notes(pend) == [note];
    assert BeginItem(pend, c.groups[2].tok) == Start([note], [], false);
    assert Cursor(fourth.pend[0..], fourth.groups) == fourth;
    var later := Statement("option", []);
    assert [later] + [] == [later];
    assert ParseRun(third) == Some(end.(run := Run([note], [later], [])));
    assert second.groups == [c.groups[1]] + third.groups && Bump(second) == third;
    assert ParseRun(second) == ParseRun(third);
    assert c.groups == [c.groups[0]] + second.groups && Bump(c) == second;
    assert ParseParts(c) == Some(Pieces([option], 2, second));
    assert Cursor(second.pend[0..], second.groups) == second;
    assert BeginItem([], c.groups[0].tok) == Start([], [], false);
    assert [Statement("option", [note])] + [later] == [Statement("option", [note]), later];
    assert ParseRun(c) == Some(end.(run := Run([], [Statement("option", [note]), later], [])));
  }

  lemma UntidyParses(remark: Remark)
    requires remark.height == 0
    ensures
      var items := [Statement("syntax", []), Statement("option", [Note(remark, false)]), Statement("option", [])];
      ParseFile(Untidy(remark)) == Some(Block([], items, []))
  {
    var c, rest := Untidy(remark), Options(remark);
    OptionsParse(remark);
    assert c.groups[1..] == rest.groups && Bump(c) == rest;
    assert ParseParts(c) == Some(Pieces([Word("syntax", false)], 1, rest));
    assert Cursor(rest.pend[0..], rest.groups) == rest;
    assert BeginItem([], c.groups[0].tok) == Start([], [], false);
    var options := [Statement("option", [Note(remark, false)]), Statement("option", [])];
    assert ParseRun(c).value.run == Run([], [Statement("syntax", [])] + options, []);
    assert [Statement("syntax", [])] + options == [Statement("syntax", []), options[0], options[1]];
  }

  lemma UntidyStream(remark: Remark)
    ensures Stream(Untidy(remark)) == [Comment(remark, 3, false)]
  {
    var g, h := Untidy(remark).groups, Options(remark).groups;
    assert g[1..] == h;
    assert h[1..][1..] == h[2..] && h[2..][1..] == h[3..] && h[3..][1..] == [];
    assert Afters(h[3..]) == [] + [] && Afters(h[2..]) == [] + Afters(h[3..]);
    assert Afters(h[1..]) == [] + Afters(h[2..]) && Afters(h) == h[0].after + Afters(h[1..]);
    assert Afters(g) == [] + Afters(h);
  }

  /** The comment was detached, below the first option; formatting makes it lead the second one. */
  lemma EmptyStatementMovesComment(remark: Remark)
    requires remark.height == 0
    ensures
      var file := ParseFile(Untidy(remark));
      && file.Some? && !StableBlock(true, file.value)
      && var again := ParseFile(Lex(Format(file.value)));
         again.Some? && EraseBlock(again.value) != EraseBlock(file.value)
  {
    UntidyParses(remark);
    UntidyStream(remark);
    var items := ParseFile(Untidy(remark)).value.items;
    assert "option"[0] != "syntax"[0] && "option"[0] != "import"[0];
    assert items[1..][1..] == [items[2]] && items[1..][0] == items[1];
    assert !StableRun(true, items[1].detached, Some(items[1]), items[1..][1..]);
    assert !StableRun(true, items[0].detached, Some(items[0]), items[1..]);
    SlotsKept(Untidy(remark));
  }
}
