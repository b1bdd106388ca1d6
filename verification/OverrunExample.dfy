/** A file in which a deletion takes the opening brace of a message that stays.

  The comment in front of the brace is pending when the first field begins on
  the next line, so it leads that field. When the field is dropped, everything
  from the comment to the end of the field is deleted.
 */
module OverrunExample {
  import opened Symbols
  import opened Edits
  import opened Pruner
  import opened PrunedText
  import opened Placement
  import L = Layout
  import C = Comments
  import F = Formatting

  /** The words of a statement on one line, without comments. */
  function Phrase(words: seq<string>, line: nat): (r: seq<L.Group>)
    ensures |r| == |words|
    ensures words != [] ==> r[0].tok.kind.Plain? && r[0].tok.line == line
  {
    if words == [] then []
    else
      [L.Group(L.Token(L.Plain(words[0], false), |words| == 1, line, false), [])] + Phrase(words[1..], line)
  }

  function Words(words: seq<string>): (r: seq<L.Part>) {
    if words == [] then [] else [L.Word(words[0], false)] + Words(words[1..])
  }

  /** The cursor stands before a statement; behind it stands `next`. */
  predicate Reads(c: L.Cursor, words: seq<string>, line: nat, next: L.Cursor) {
    words != [] && c.groups == Phrase(words, line) + next.groups && next.pend == []
  }

  lemma {:induction false} PhraseParses(src: Source, c: L.Cursor, words: seq<string>, line: nat, next: L.Cursor)
    requires Reads(c, words, line, next) && c.pend == [] && |c.groups| <= |src.tokens| + 1
    ensures C.Afters(c.groups) == C.Afters(next.groups)
    ensures L.ParseParts(c) == Some(L.Pieces(Words(words), line, next))
    ensures PlotsOf(src, c) == []
    decreases |words|
  {
    assert c.groups[0] == Phrase(words, line)[0] && c.groups[0].after == [];
    if |words| == 1 {
      assert c.groups[1..] == next.groups;
      assert Words(words) == [L.Word(words[0], false)];
    } else {
      assert c.groups[1..] == Phrase(words[1..], line) + next.groups;
      PhraseParses(src, L.Cursor([], c.groups[1..]), words[1..], line, next);
    }
    assert C.Afters(c.groups) == [] + C.Afters(c.groups[1..]);
    assert L.Bump(c) == L.Cursor([], c.groups[1..]);
  }

  /** A statement at the cursor becomes one item, and the rest of the scope is parsed behind it. */
  lemma ItemRun(c: L.Cursor, body: L.Pieces)
    requires c.groups != [] && c.groups[0].tok.kind.Plain? && L.ParseParts(L.Cursor([], c.groups)) == Some(body)
    requires L.ParseRun(Behind(body)).Some?
    ensures
      var scope := L.ParseRun(Behind(body)).value;
      && L.ParseRun(c).Some? && L.ParseRun(c).value.close == scope.close && L.ParseRun(c).value.rest == scope.rest
      && L.ParseRun(c).value.run.carry == L.BeginItem(c.pend, c.groups[0].tok).toPrev
      && L.ParseRun(c).value.run.items != []
  {
  }

  predicate Near(pend: seq<L.Comment>, line: nat) {
    pend == [] || (|pend| == 1 && line <= L.EndLine(pend[0]) + 1)
  }

  lemma LeadsNext(pend: seq<L.Comment>, tok: L.Token)
    requires Near(pend, tok.line)
    ensures L.BeginItem(pend, tok).toPrev == [] && |L.BeginItem(pend, tok).leading| == |pend|
  {
  }

  lemma NothingComes(c: L.Cursor)
    requires C.Afters(c.groups) == []
    ensures C.Stream(c) == c.pend
  {
  }

  /** A node with the given pending comments in front and none behind. */
  lemma MetaIs(src: Source, c: L.Cursor, body: L.Pieces, n: nat)
    requires 0 < |body.rest.groups| < |c.groups| <= |src.tokens| + 1
    requires |Behind(body).pend| == |body.rest.pend|
    requires |L.BeginItem(c.pend, c.groups[0].tok).toPrev| == 0 && |L.BeginItem(c.pend, c.groups[0].tok).leading| == n
    requires |C.Stream(c)| == n <= |src.comments|
    ensures
      MetaAt(src, c, body, 0)
      == MetaOf(src, TokenAt(src, c.groups), TokenAt(src, body.rest.groups), |src.comments| - n, n,
                CommentAt(src, body.rest), 0, CommentAt(src, Behind(body)), 0)
  {
  }

  /** The node [lo, hi) led by the last `n` comments of the source. */
  function Led(src: Source, lo: nat, hi: nat, n: nat): (r: Meta) {
    Meta(0, lo, hi, SpanOf(src.tokens, lo, hi), if n <= |src.comments| then src.comments[|src.comments| - n..] else [], [], [])
  }

  lemma OnlyLed(src: Source, lo: nat, hi: nat, n: nat, after: nat, later: nat)
    requires n <= |src.comments|
    ensures MetaOf(src, lo, hi, |src.comments| - n, n, after, 0, later, 0) == Led(src, lo, hi, n)
  {
    assert Stretch(src.comments, after, 0) == [] && Stretch(src.comments, later, 0) == [];
  }

  /** What a statement at the cursor is parsed to. */
  lemma StatementParses(src: Source, c: L.Cursor, words: seq<string>, line: nat, next: L.Cursor)
    requires Reads(c, words, line, next) && |c.groups| <= |src.tokens| + 1 && L.ParseRun(next).Some?
    ensures
      var body := L.Pieces(Words(words), line, next);
      Behind(body) == next && L.ParseParts(L.Cursor([], c.groups)) == Some(body)
    ensures L.ParseRun(c).Some? && PlotsOf(src, L.Cursor([], c.groups)) == [] && C.Afters(c.groups) == C.Afters(next.groups)
    ensures
      var scope, rest := L.ParseRun(c).value, L.ParseRun(next).value;
      && scope.close == rest.close && scope.rest == rest.rest
      && scope.run.carry == L.BeginItem(c.pend, c.groups[0].tok).toPrev && scope.run.items != []
  {
    PhraseParses(src, L.Cursor([], c.groups), words, line, next);
    assert c.groups[0] == Phrase(words, line)[0];
    ItemRun(c, L.Pieces(Words(words), line, next));
  }

  lemma StatementMeta(src: Source, c: L.Cursor, body: L.Pieces)
    requires 0 < |body.rest.groups| < |c.groups| <= |src.tokens| + 1 && Near(c.pend, c.groups[0].tok.line)
    requires C.Afters(c.groups) == [] && |c.pend| <= |src.comments| && |Behind(body).pend| == |body.rest.pend|
    ensures MetaAt(src, c, body, 0) == Led(src, TokenAt(src, c.groups), TokenAt(src, body.rest.groups), |c.pend|)
  {
    LeadsNext(c.pend, c.groups[0].tok);
    NothingComes(c);
    MetaIs(src, c, body, |c.pend|);
    OnlyLed(src, TokenAt(src, c.groups), TokenAt(src, body.rest.groups), |c.pend|, CommentAt(src, body.rest),
            CommentAt(src, Behind(body)));
  }

  /** The site of a statement: its tokens, and the comment that is still pending on the line before leads it. */
  lemma StatementStands(src: Source, c: L.Cursor, words: seq<string>, line: nat, next: L.Cursor)
    requires Reads(c, words, line, next) && |c.groups| <= |src.tokens| + 1 && Near(c.pend, line)
    requires C.Afters(next.groups) == [] && |c.pend| <= |src.comments|
    requires L.ParseRun(next).Some? && L.ParseRun(next).value.run.carry == []
    ensures L.ParseRun(c).Some?
    ensures
      var meta := Led(src, TokenAt(src, c.groups), TokenAt(src, next.groups), |c.pend|);
      SitesOf(src, c) == [Site(meta, [])] + SitesOf(src, next)
  {
    var body := L.Pieces(Words(words), line, next);
    assert |c.groups| == |words| + |next.groups| && c.groups[0] == Phrase(words, line)[0];
    StatementParses(src, c, words, line, next);
    StatementMeta(src, c, body);
    RunUnfolds(src, c, body);
  }

  /** `more` stands one group before `c`. */
  predicate Precedes(more: L.Cursor, c: L.Cursor) {
    more.groups != [] && more.groups[1..] == c.groups && more.pend + more.groups[0].after == c.pend
  }

  /** A word in front changes neither the nested scopes of an item nor where it ends. */
  lemma WordFirst(src: Source, more: L.Cursor, c: L.Cursor)
    requires Precedes(more, c) && |c.groups| <= |src.tokens|
    requires more.groups[0].tok.kind.Plain? && !more.groups[0].tok.last && L.ParseParts(c).Some?
    ensures L.ParseParts(more).Some? && PlotsOf(src, more) == PlotsOf(src, c)
    ensures L.ParseParts(more).value.rest == L.ParseParts(c).value.rest
  {
    assert L.Bump(more) == c;
  }

  lemma ScopeParses(c: L.Cursor, scope: L.Scope)
    requires c.groups != [] && c.groups[0].tok.kind.Open? && L.ParseRun(L.Bump(c)) == Some(scope) && scope.close.last
    ensures L.ParseParts(c).Some? && L.ParseParts(c).value.rest == scope.rest
  {
  }

  /** A nested scope that ends its item. */
  lemma ScopeLast(src: Source, c: L.Cursor, scope: L.Scope)
    requires 0 < |c.groups| <= |src.tokens| + 1 && c.groups[0].tok.kind.Open?
    requires L.ParseRun(L.Bump(c)) == Some(scope) && scope.close.last
    ensures L.ParseParts(c).Some? && L.ParseParts(c).value.rest == scope.rest
    ensures PlotsOf(src, c) == [PlotOf(src, c, scope)]
  {
    ScopeParses(c, scope);
    PartsUnfold(src, c, scope);
  }

  const NOTE := L.Comment(L.Remark("/* c */", false, 0), 2, false)
  const FIRST := ["int32", "a", "=", "1", ";"]
  const SECOND := ["int32", "b", "=", "2", ";"]
  const SYNTAX := ["syntax", "=", "\"proto3\"", ";"]
  const END := [L.Group(L.Token(L.Close, false, 6, false), [])]
  const BRACE := [L.Group(L.Token(L.Close, true, 5, false), [])]

  const FIELDS := Phrase(FIRST, 3) + (Phrase(SECOND, 4) + (BRACE + END))

  const HEAD := [
    L.Group(L.Token(L.Plain("message", false), false, 2, false), []),
    L.Group(L.Token(L.Plain("M", false), false, 2, false), [NOTE]),
    L.Group(L.Token(L.Open(L.Body, false), false, 2, false), [])]

  /** The file

          syntax = "proto3";
          message M /* c */ {
            int32 a = 1;
            int32 b = 2;
          }
   */
  const FILE := L.Cursor([], Phrase(SYNTAX, 1) + (HEAD + FIELDS))

  const TOKENS := [
    Span(0, 6), Span(7, 8), Span(9, 17), Span(17, 18), Span(19, 26), Span(27, 28), Span(37, 38),
    Span(41, 46), Span(47, 48), Span(49, 50), Span(51, 52), Span(52, 53),
    Span(56, 61), Span(62, 63), Span(64, 65), Span(66, 67), Span(67, 68), Span(69, 70)]

  const SOURCE := Source(TOKENS, [Span(29, 36)], 71)

  const META_A := Meta(1, 7, 12, Span(41, 53), [Span(29, 36)], [], [])
  const META_B := Meta(2, 12, 17, Span(56, 68), [], [], [])
  const META_M := Meta(3, 4, 18, Span(19, 70), [], [], [])

  const M := Message.Message(META_M, [MsgField(Field.Field(META_A, 1)), MsgField(Field.Field(META_B, 2))])
  const ITEMS := [TopOther, TopMessage(M)]

  const FIELD_SITES := [Site(META_A.(id := 0), []), Site(META_B.(id := 0), [])]
  const M_SITE := Site(META_M.(id := 0), [Plot(6, FIELD_SITES, 17)])

  lemma CloseParses(src: Source, close: L.Group, rest: seq<L.Group>)
    requires close.tok.kind.Close? && |rest| <= |src.tokens|
    ensures
      var c := L.Cursor([], [close] + rest);
      && L.ParseRun(c) == Some(L.Scope(L.Run([], [], []), close.tok, L.Cursor(close.after, rest)))
      && SitesOf(src, c) == []
  {
    assert ([close] + rest)[1..] == rest;
  }

  /** The fields of the message, with the comment still pending from the line before. */
  const BODY := L.Cursor([NOTE], FIELDS)
  const LATER := L.Cursor([], Phrase(SECOND, 4) + (BRACE + END))

  lemma Sizes()
    ensures |FIELDS| == 12 && |LATER.groups| == 7
  {
  }

  lemma NoLaterComments()
    ensures C.Afters(END) == [] && C.Afters(BRACE + END) == []
  {
    assert BRACE + END == [BRACE[0], END[0]];
  }

  lemma FieldMetas()
    ensures Led(SOURCE, 7, 12, 1) == META_A.(id := 0) && Led(SOURCE, 12, 17, 0) == META_B.(id := 0)
  {
  }

  lemma MessageMeta()
    ensures Led(SOURCE, 4, 18, 0) == M_SITE.meta && M_SITE.scopes == [Plot(6, FIELD_SITES, 17)]
  {
  }

  lemma LaterParses()
    ensures
      var scope := L.ParseRun(LATER);
      && scope.Some? && scope.value.run.carry == [] && scope.value.close == BRACE[0].tok
      && scope.value.rest == L.Cursor([], END)
    ensures SitesOf(SOURCE, LATER) == [Site(META_B.(id := 0), [])]
  {
    var brace := L.Cursor([], BRACE + END);
    CloseParses(SOURCE, BRACE[0], END);
    assert BRACE == [BRACE[0]];
    Sizes();
    NoLaterComments();
    FieldMetas();
    StatementParses(SOURCE, LATER, SECOND, 4, brace);
    StatementStands(SOURCE, LATER, SECOND, 4, brace);
    LeadsNext([], LATER.groups[0].tok);
  }

  lemma LaterIsBare()
    ensures C.Afters(LATER.groups) == []
  {
    Sizes();
    NoLaterComments();
    PhraseParses(SOURCE, LATER, SECOND, 4, L.Cursor([], BRACE + END));
  }

  lemma BodyParses()
    ensures
      var scope := L.ParseRun(BODY);
      && scope.Some? && scope.value.run.carry == [] && scope.value.close == BRACE[0].tok
      && scope.value.rest == L.Cursor([], END)
    ensures C.Afters(BODY.groups) == []
  {
    LaterParses();
    LaterIsBare();
    Sizes();
    LeadsNext([NOTE], BODY.groups[0].tok);
    StatementParses(SOURCE, BODY, FIRST, 3, LATER);
  }

  lemma BodyStands()
    ensures L.ParseRun(BODY).Some?
    ensures SitesOf(SOURCE, BODY) == FIELD_SITES
  {
    BodyParses();
    LaterParses();
    LaterIsBare();
    Sizes();
    FieldMetas();
    StatementStands(SOURCE, BODY, FIRST, 3, LATER);
  }

  /** The site of the only item of a scope. */
  lemma OnlySite(src: Source, c: L.Cursor, body: L.Pieces, site: Site)
    requires L.ParseRun(c).Some? && |c.groups| <= |src.tokens| + 1 && c.groups[0].tok.kind.Plain?
    requires L.ParseParts(L.Cursor([], c.groups)) == Some(body) && L.ParseRun(Behind(body)).Some?
    requires MetaAt(src, c, body, Carried(body)) == site.meta && PlotsOf(src, L.Cursor([], c.groups)) == site.scopes
    requires SitesOf(src, Behind(body)) == []
    ensures SitesOf(src, c) == [site]
  {
    RunUnfolds(src, c, body);
  }

  lemma BareMeta(src: Source, c: L.Cursor, body: L.Pieces)
    requires 0 < |body.rest.groups| < |c.groups| <= |src.tokens| + 1
    requires c.pend == [] && |Behind(body).pend| == |body.rest.pend|
    ensures L.BeginItem(c.pend, c.groups[0].tok).toPrev == []
    ensures MetaAt(src, c, body, 0) == Led(src, TokenAt(src, c.groups), TokenAt(src, body.rest.groups), 0)
  {
    LeadsNext(c.pend, c.groups[0].tok);
    assert forall from: nat :: Stretch(src.comments, from, 0) == [];
  }

  const MESSAGE := L.Cursor([], HEAD + FIELDS)

  const NAME := L.Cursor([], MESSAGE.groups[1..])
  const OPEN := L.Cursor([NOTE], MESSAGE.groups[2..])

  lemma HeadInOrder()
    ensures Precedes(MESSAGE, NAME) && Precedes(NAME, OPEN) && Precedes(OPEN, BODY)
    ensures MESSAGE.groups[0] == HEAD[0] && NAME.groups[0] == HEAD[1] && OPEN.groups[0] == HEAD[2]
    ensures |MESSAGE.groups| == 15 && |NAME.groups| == 14 && |OPEN.groups| == 13
  {
    assert OPEN.groups[1..] == FIELDS;
    assert NAME.groups[1..] == OPEN.groups;
  }

  lemma MessageBody()
    ensures L.ParseParts(MESSAGE).Some? && L.ParseParts(MESSAGE).value.rest == L.Cursor([], END)
    ensures PlotsOf(SOURCE, MESSAGE) == [Plot(6, FIELD_SITES, 17)]
  {
    BodyParses();
    BodyStands();
    HeadInOrder();
    assert L.Bump(OPEN) == BODY;
    ScopeLast(SOURCE, OPEN, L.ParseRun(BODY).value);
    WordFirst(SOURCE, NAME, OPEN);
    WordFirst(SOURCE, MESSAGE, NAME);
  }

  lemma EndParses()
    ensures L.ParseRun(L.Cursor([], END)) == Some(L.Scope(L.Run([], [], []), END[0].tok, L.Cursor([], [])))
    ensures SitesOf(SOURCE, L.Cursor([], END)) == []
  {
    CloseParses(SOURCE, END[0], []);
    assert END == [END[0]] + [];
  }

  lemma MessageParses()
    ensures L.ParseParts(MESSAGE).Some? && Behind(L.ParseParts(MESSAGE).value) == L.Cursor([], END)
    ensures L.ParseRun(MESSAGE).Some? && L.ParseRun(MESSAGE).value.rest == L.Cursor([], [])
    ensures L.ParseRun(MESSAGE).value.run.carry == []
  {
    MessageBody();
    EndParses();
    LeadsNext([], MESSAGE.groups[0].tok);
    ItemRun(MESSAGE, L.ParseParts(MESSAGE).value);
  }

  lemma MessageStands()
    ensures L.ParseRun(MESSAGE).Some? && SitesOf(SOURCE, MESSAGE) == [M_SITE]
  {
    MessageParses();
    MessageBody();
    Sizes();
    MessageMeta();
    EndParses();
    BareMeta(SOURCE, MESSAGE, L.ParseParts(MESSAGE).value);
    OnlySite(SOURCE, MESSAGE, L.ParseParts(MESSAGE).value, M_SITE);
  }

  lemma FileParses()
    ensures F.ParseFile(FILE).Some? && L.ParseRun(FILE).Some? && PlotsOf(SOURCE, L.Cursor([], FILE.groups)) == []
    ensures L.ParseParts(L.Cursor([], FILE.groups)) == Some(L.Pieces(Words(SYNTAX), 1, MESSAGE))
    ensures Behind(L.Pieces(Words(SYNTAX), 1, MESSAGE)) == MESSAGE
  {
    MessageParses();
    Sizes();
    StatementParses(SOURCE, FILE, SYNTAX, 1, MESSAGE);
    LeadsNext([], FILE.groups[0].tok);
  }

  lemma FileStands()
    ensures L.ParseRun(FILE).Some? && |SitesOf(SOURCE, FILE)| == 2 && SitesOf(SOURCE, FILE)[1] == M_SITE
  {
    FileParses();
    MessageStands();
    Sizes();
    RunUnfolds(SOURCE, FILE, L.Pieces(Words(SYNTAX), 1, MESSAGE));
  }

  // ---- the file and its spans belong together ---------------------------------------------------------------------

  lemma AlignedOne(src: Source, g: L.Group, rest: seq<L.Group>)
    requires Aligned(src, rest) && 0 < |rest| <= |src.tokens| && !g.tok.kind.Close?
    requires Between(src, TokenAt(src, rest) - 1, |src.comments| - |g.after| - |C.Afters(rest)|)
    ensures Aligned(src, [g] + rest) && |C.Afters([g] + rest)| == |g.after| + |C.Afters(rest)|
  {
    assert ([g] + rest)[1..] == rest;
  }

  predicate AllBetween(src: Source, lo: int, hi: nat, n: int) {
    forall i: nat :: lo <= i < hi ==> Between(src, i, n)
  }

  lemma {:induction false} PhraseIsBare(words: seq<string>, line: nat, rest: seq<L.Group>)
    ensures C.Afters(Phrase(words, line) + rest) == C.Afters(rest)
  {
    var all := Phrase(words, line) + rest;
    if words == [] {
      assert all == rest;
    } else {
      PhraseIsBare(words[1..], line, rest);
      assert all[0].after == [] && all[1..] == Phrase(words[1..], line) + rest;
    }
  }

  lemma AllBetweenTail(src: Source, lo: nat, hi: nat, n: int)
    requires AllBetween(src, lo, hi, n) && lo < hi
    ensures Between(src, lo, n) && AllBetween(src, lo + 1, hi, n)
  {
  }

  lemma PhraseCons(words: seq<string>, line: nat, rest: seq<L.Group>)
    requires words != []
    ensures Phrase(words, line) + rest == [Phrase(words, line)[0]] + (Phrase(words[1..], line) + rest)
  {
  }

  lemma {:induction false} AlignedPhrase(src: Source, words: seq<string>, line: nat, rest: seq<L.Group>, lo: nat, n: int)
    requires Aligned(src, rest) && 0 < |rest| && lo + |words| + |rest| == |src.tokens| + 1
    requires n == |src.comments| - |C.Afters(rest)| && AllBetween(src, lo, lo + |words|, n)
    ensures Aligned(src, Phrase(words, line) + rest)
  {
    if words == [] {
      assert Phrase(words, line) + rest == rest;
    } else {
      AllBetweenTail(src, lo, lo + |words|, n);
      AlignedPhrase(src, words[1..], line, rest, lo + 1, n);
      PhraseIsBare(words[1..], line, rest);
      PhraseCons(words, line, rest);
      AlignedOne(src, Phrase(words, line)[0], Phrase(words[1..], line) + rest);
    }
  }

  lemma {:induction false} ApartByNeighbours(tokens: seq<Span>, limit: nat)
    requires forall i :: 0 <= i < |tokens| ==> tokens[i].start < tokens[i].end
    requires forall i, j :: 0 <= i && j == i + 1 < |tokens| ==> tokens[i].end <= tokens[j].start
    requires tokens != [] ==> tokens[|tokens| - 1].end <= limit
    ensures Apart(tokens, limit)
  {
    if tokens != [] {
      var n := |tokens| - 1;
      var init := tokens[..n];
      assert n > 0 ==> init[n - 1].end <= tokens[n].start;
      ApartByNeighbours(init, tokens[n].start);
    }
  }

  lemma TokensStand()
    ensures forall i, j :: 0 <= i && j == i + 1 < 18 ==> TOKENS[i].end <= TOKENS[j].start
    ensures forall i :: 0 <= i < 18 ==> TOKENS[i].start < TOKENS[i].end
  {
  }

  lemma TokensAroundNote()
    ensures forall i :: 0 <= i < 6 ==> TOKENS[i].end <= 29
    ensures forall i :: 6 <= i < 18 ==> 36 <= TOKENS[i].start
  {
  }

  lemma SpansApart()
    ensures Separate(SOURCE)
  {
    TokensStand();
    ApartByNeighbours(TOKENS, 71);
    TokensAroundNote();
  }

  lemma HeadAroundNote()
    ensures Between(SOURCE, 4, 0) && Between(SOURCE, 5, 0) && Between(SOURCE, 6, 1)
  {
    TokensAroundNote();
  }

  lemma AroundNote()
    ensures AllBetween(SOURCE, 0, 4, 0)
    ensures AllBetween(SOURCE, 7, 12, 1) && AllBetween(SOURCE, 12, 17, 1) && Between(SOURCE, 17, 1)
  {
    TokensAroundNote();
  }

  lemma BraceAligned()
    ensures Aligned(SOURCE, BRACE + END)
  {
    AroundNote();
    NoLaterComments();
    assert (BRACE + END)[1..] == END;
    assert Aligned(SOURCE, END);
  }

  lemma LaterAligned()
    ensures Aligned(SOURCE, LATER.groups)
  {
    AroundNote();
    BraceAligned();
    NoLaterComments();
    AlignedPhrase(SOURCE, SECOND, 4, BRACE + END, 12, 1);
  }

  lemma FirstAligned(words: seq<string>, rest: seq<L.Group>)
    requires |words| == 5 && |rest| == 7 && Aligned(SOURCE, rest) && C.Afters(rest) == []
    ensures Aligned(SOURCE, Phrase(words, 3) + rest)
  {
    AroundNote();
    AlignedPhrase(SOURCE, words, 3, rest, 7, 1);
  }

  lemma FieldsAligned()
    ensures Aligned(SOURCE, FIELDS)
  {
    LaterAligned();
    LaterIsBare();
    FirstAligned(FIRST, LATER.groups);
  }

  lemma AlignedThree(src: Source, a: L.Group, b: L.Group, c: L.Group, rest: seq<L.Group>, i: nat)
    requires Aligned(src, rest) && 0 < |rest| && |rest| + 3 + i == |src.tokens| + 1
    requires !a.tok.kind.Close? && !b.tok.kind.Close? && !c.tok.kind.Close?
    requires C.Afters(rest) == [] && a.after == [] && c.after == []
    requires
      var n := |src.comments| - |b.after|;
      Between(src, i, n) && Between(src, i + 1, n) && Between(src, i + 2, |src.comments|)
    ensures Aligned(src, [a] + ([b] + ([c] + rest))) && |C.Afters([a] + ([b] + ([c] + rest)))| == |b.after|
  {
    AlignedOne(src, c, rest);
    AlignedOne(src, b, [c] + rest);
    AlignedOne(src, a, [b] + ([c] + rest));
  }

  lemma AlignedHead(rest: seq<L.Group>)
    requires Aligned(SOURCE, rest) && |rest| == 12 && C.Afters(rest) == []
    ensures Aligned(SOURCE, HEAD + rest) && |C.Afters(HEAD + rest)| == 1
  {
    HeadAroundNote();
    AlignedThree(SOURCE, HEAD[0], HEAD[1], HEAD[2], rest, 4);
    assert HEAD + rest == [HEAD[0]] + ([HEAD[1]] + ([HEAD[2]] + rest));
  }

  lemma MessageAligned()
    ensures Aligned(SOURCE, MESSAGE.groups) && |C.Afters(MESSAGE.groups)| == 1 && |MESSAGE.groups| == 15
  {
    FieldsAligned();
    BodyParses();
    Sizes();
    AlignedHead(FIELDS);
  }

  lemma HeaderAligned(words: seq<string>, rest: seq<L.Group>)
    requires |words| == 4 && |rest| == 15 && Aligned(SOURCE, rest) && |C.Afters(rest)| == 1
    ensures Aligned(SOURCE, Phrase(words, 1) + rest) && |C.Afters(Phrase(words, 1) + rest)| == 1
  {
    AroundNote();
    AlignedPhrase(SOURCE, words, 1, rest, 0, 0);
    PhraseIsBare(words, 1, rest);
  }

  lemma FileAligned()
    ensures Aligned(SOURCE, FILE.groups) && |C.Afters(FILE.groups)| == 1 && |FILE.groups| == 19
  {
    MessageAligned();
    HeaderAligned(SYNTAX, MESSAGE.groups);
  }

  lemma FileStarts()
    ensures Starts(SOURCE, FILE)
  {
    SpansApart();
    FileAligned();
  }

  lemma MessageIsAt()
    ensures TopAt(ITEMS[1], M_SITE)
  {
    assert BodyOf(M_SITE) == FIELD_SITES;
    assert ItemAt(M.items[0], FIELD_SITES[0]) && ItemAt(M.items[1], FIELD_SITES[1]);
    assert MessageAt(M, M_SITE);
  }

  lemma ExampleIsParsed()
    ensures ParsedFrom(SOURCE, FILE, ITEMS)
  {
    FileStarts();
    FileParses();
    FileStands();
    MessageIsAt();
    BothAt(SitesOf(SOURCE, FILE));
  }

  lemma BothAt(sites: seq<Site>)
    requires |sites| == 2 && TopAt(ITEMS[1], sites[1])
    ensures forall i :: 0 <= i < |ITEMS| ==> TopAt(ITEMS[i], sites[i])
  {
    assert TopAt(ITEMS[0], sites[0]);
  }

  lemma GoOfTwoMembers(gone: set<nat>, a: MsgItem, b: MsgItem, k: nat)
    ensures ItemsGo(gone, [a, b], k) <==> ItemGoes(gone, a, k) || ItemGoes(gone, b, k)
  {
    assert [a, b][..1] == [a] && [a][..0] == [];
    ItemsGoSplit(gone, [a, b], k);
    ItemsGoSplit(gone, [a], k);
  }

  lemma DoomedOfTwoMembers(gone: set<nat>, a: MsgItem, b: MsgItem)
    ensures ItemsDoomed(gone, [a, b]) == ItemDoomed(gone, a) + ItemDoomed(gone, b)
  {
    assert [a, b][..1] == [a] && [a][..0] == [];
    assert ItemsDoomed(gone, [a]) == [] + ItemDoomed(gone, a);
  }

  lemma GoOfTwoItems(gone: set<nat>, a: Item, b: Item, k: nat)
    ensures FileGoes(gone, [a, b], k) <==> TopGoes(gone, a, k) || TopGoes(gone, b, k)
  {
    assert [a, b][..1] == [a] && [a][..0] == [];
    FileGoesSplit(gone, [a, b], k);
    FileGoesSplit(gone, [a], k);
  }

  lemma DoomedLast(gone: set<nat>, items: seq<Item>, meta: Meta)
    requires items != [] && meta in TopDoomed(gone, items[|items| - 1])
    ensures meta in FileDoomed(gone, items)
  {
  }

  lemma FieldAIsDeleted()
    ensures META_A in MessageDoomed({1}, M) && !MessageGoes({1}, M, 6)
  {
    assert M.items == [M.items[0], M.items[1]];
    GoOfTwoMembers({1}, M.items[0], M.items[1], 6);
    DoomedOfTwoMembers({1}, M.items[0], M.items[1]);
    assert !ItemsGo({1}, M.items, 6);
    assert ItemDoomed({1}, M.items[0]) == [META_A];
  }

  lemma OnlyAIsDeleted()
    ensures META_A in FileDoomed({1}, ITEMS) && !FileGoes({1}, ITEMS, 6)
  {
    FieldAIsDeleted();
    GoOfTwoItems({1}, TopOther, TopMessage(M), 6);
    assert ITEMS == [TopOther, TopMessage(M)];
    DoomedLast({1}, ITEMS, META_A);
  }

  lemma AReachesTheBrace()
    ensures Overruns(META_A, 6, 37) && InToken(TOKENS, 6, 37)
  {
  }

  /** A deletion that reaches back over a token that stays is not exact. */
  lemma OverrunShows(src: Source, c: L.Cursor, items: seq<Item>, gone: set<nat>, meta: Meta, k: nat, p: nat)
    requires ParsedFrom(src, c, items) && InToken(src.tokens, k, p)
    requires meta in FileDoomed(gone, items) && Overruns(meta, k, p) && !FileGoes(gone, items, k)
    ensures Covered(FileEdits(gone, items), p) && !Exact(src.tokens, gone, items)
  {
    ParsedStands(src, c, items);
    FileCovers(src.tokens, src.limit, gone, items, k, p, 0, |src.tokens|);
  }

  /** If field `a` is dropped and `b` kept, the opening brace of the message is deleted with the comment before it. */
  lemma BraceIsDeleted()
    ensures ParsedFrom(SOURCE, FILE, ITEMS)
    ensures InToken(SOURCE.tokens, 6, 37) && Covered(FileEdits({1}, ITEMS), 37) && !FileGoes({1}, ITEMS, 6)
    ensures !Exact(SOURCE.tokens, {1}, ITEMS)
  {
    ExampleIsParsed();
    OnlyAIsDeleted();
    AReachesTheBrace();
    OverrunShows(SOURCE, FILE, ITEMS, {1}, META_A, 6, 37);
  }
}
