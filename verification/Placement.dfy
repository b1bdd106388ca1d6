/** Where the parser puts the nodes of a file.

  Module Layout says which comments go into which slots; here the same parse
  says which tokens every node is made of and where its comments stand in the
  text. From that follow all the facts that module PrunedText requires of a
  tree.
 */
module Placement {
  import opened Symbols
  import opened Edits
  import opened Pruner
  import opened PrunedText
  import L = Layout
  import C = Comments
  import F = Formatting

  /** The tokens and comments of a text in order; the end of the file is no token here. */
  datatype Source = Source(tokens: seq<Span>, comments: seq<Span>, limit: nat)

  /** Tokens and comments have their own stretches of the text. */
  predicate Separate(src: Source) {
    && Apart(src.tokens, src.limit) && PrunedText.InRow(src.comments)
    && (forall j :: 0 <= j < |src.comments| ==> src.comments[j].start <= src.comments[j].end <= src.limit)
    && (forall j :: 0 <= j < |src.comments| ==> OffTokens(src.tokens, src.comments[j]))
  }

  /** The index of the first token of `groups`, which run to the end of the file. */
  function TokenAt(src: Source, groups: seq<L.Group>): (i: nat)
    requires |groups| <= |src.tokens| + 1
  {
    |src.tokens| + 1 - |groups|
  }

  /** The index of the first comment that is not attached yet. */
  function CommentAt(src: Source, c: L.Cursor): (j: nat) {
    if |C.Stream(c)| <= |src.comments| then |src.comments| - |C.Stream(c)| else 0
  }

  predicate IsSingle(s: Span) {
    s.end == s.start + 1
  }

  /** Token `i` has the first `n` comments before it and the others behind it. */
  predicate Between(src: Source, i: nat, n: int) {
    && i < |src.tokens|
    && (forall j :: 0 <= j < n && j < |src.comments| ==> src.comments[j].end <= src.tokens[i].start)
    && (forall j :: 0 <= j < |src.comments| && n <= j ==> src.tokens[i].end <= src.comments[j].start)
  }

  /** Each token stands between the comments before and after it, and closing braces are single characters. */
  predicate Aligned(src: Source, groups: seq<L.Group>) {
    && |groups| <= |src.tokens| + 1
    && (|groups| > 1 ==>
          && Between(src, TokenAt(src, groups), |src.comments| - |C.Afters(groups)|)
          && (groups[0].tok.kind.Close? ==> IsSingle(src.tokens[TokenAt(src, groups)]))
          && Aligned(src, groups[1..]))
  }

  /** The rest of the source from the cursor on. */
  predicate InStep(src: Source, c: L.Cursor) {
    Separate(src) && Aligned(src, c.groups) && |C.Stream(c)| <= |src.comments|
  }

  /** The cursor stands at the start of the source. */
  predicate Starts(src: Source, c: L.Cursor) {
    InStep(src, c) && |c.groups| == |src.tokens| + 1 && |C.Stream(c)| == |src.comments|
  }

  // ---- the sites of nodes -------------------------------------------------------------------------

  /** The place of an item; the number of its node is left open. */
  datatype Site = Site(meta: Meta, scopes: seq<Plot>)

  /** A nested scope between the tokens `open` and `close`. */
  datatype Plot = Plot(open: nat, sites: seq<Site>, close: nat)

  function SpanOf(tokens: seq<Span>, lo: nat, hi: nat): (s: Span) {
    if lo < hi <= |tokens| then Span(tokens[lo].start, tokens[hi - 1].end) else Span(0, 1)
  }

  /** `n` comments from number `from` on. */
  function Stretch(comments: seq<Span>, from: nat, n: nat): (r: seq<Span>) {
    if from + n <= |comments| then comments[from..from + n] else []
  }

  /** The cursor behind an item and its trailing comments. */
  function Behind(body: L.Pieces): (r: L.Cursor) {
    L.Cursor(body.rest.pend[L.TrailingCount(body.rest.pend, body.line)..], body.rest.groups)
  }

  /** A node made of the tokens [lo, hi), with three stretches of comments. */
  function MetaOf(src: Source, lo: nat, hi: nat, before: nat, leading: nat, after: nat, trailing: nat, later: nat,
      detached: nat): (r: Meta)
  {
    Meta(0, lo, hi, SpanOf(src.tokens, lo, hi), Stretch(src.comments, before, leading),
         Stretch(src.comments, after, trailing), Stretch(src.comments, later, detached))
  }

  /** The node that starts at `c`: its tokens up to the next item, and its comments, `detached` of them below it. */
  function MetaAt(src: Source, c: L.Cursor, body: L.Pieces, detached: nat): (r: Meta)
    requires c.groups != [] && |body.rest.groups| < |c.groups| <= |src.tokens| + 1
  {
    var start, next := L.BeginItem(c.pend, c.groups[0].tok), Behind(body);
    MetaOf(src, TokenAt(src, c.groups), TokenAt(src, next.groups),
           CommentAt(src, c) + |start.toPrev|, |start.leading|,
           CommentAt(src, body.rest), |body.rest.pend| - |next.pend|,
           CommentAt(src, next), detached)
  }

  /** The comments in front of the next item that belong to the node before it. */
  function Carried(body: L.Pieces): (n: nat)
    requires L.ParseRun(Behind(body)).Some?
  {
    |L.ParseRun(Behind(body)).value.run.carry|
  }

  /** The sites of the items up to the end of the scope (`Layout.ParseRun`). */
  function SitesOf(src: Source, c: L.Cursor): (r: seq<Site>)
    requires L.ParseRun(c).Some? && |c.groups| <= |src.tokens| + 1
    decreases |c.groups|, 1
  {
    match c.groups[0].tok.kind
    case Semi => SitesOf(src, L.Bump(c))
    case Plain(_, _) =>
      var body := L.ParseParts(L.Cursor([], c.groups)).value;
      [Site(MetaAt(src, c, body, Carried(body)), PlotsOf(src, L.Cursor([], c.groups)))] + SitesOf(src, Behind(body))
    case _ => []
  }

  /** The nested scopes up to the end of the item (`Layout.ParseParts`). */
  function PlotsOf(src: Source, c: L.Cursor): (r: seq<Plot>)
    requires L.ParseParts(c).Some? && |c.groups| <= |src.tokens| + 1
    decreases |c.groups|, 0
  {
    var tok := c.groups[0].tok;
    match tok.kind
    case Plain(_, _) => if tok.last then [] else PlotsOf(src, L.Bump(c))
    case Open(_, _) =>
      var scope := L.ParseRun(L.Bump(c)).value;
      var plot := Plot(TokenAt(src, c.groups), SitesOf(src, L.Bump(c)), TokenAt(src, scope.rest.groups) - 1);
      [plot] + if scope.close.last then [] else PlotsOf(src, scope.rest)
    case _ => []
  }

  // ---- the sites stand where PrunedText needs them ------------------------------------------------------

  predicate InRow(sites: seq<Site>, lo: int, hi: int) {
    && lo <= hi
    && (forall i :: 0 <= i < |sites| ==> lo <= sites[i].meta.lo && sites[i].meta.hi <= hi)
    && (forall i, j :: 0 <= i < j < |sites| ==> sites[i].meta.hi <= sites[j].meta.lo)
  }

  predicate Standing(src: Source, site: Site)
    decreases site
  {
    && Sound(src.tokens, src.limit, site.meta)
    && forall i :: 0 <= i < |site.scopes| ==> Enclosed(src, site.meta, site.scopes[i])
  }

  predicate Enclosed(src: Source, meta: Meta, plot: Plot)
    decreases plot
  {
    meta.lo < plot.open && plot.close < meta.hi && PlotStands(src, plot)
  }

  predicate PlotStands(src: Source, plot: Plot)
    decreases plot, 0
  {
    && plot.open < plot.close < |src.tokens| && IsSingle(src.tokens[plot.close])
    && InRow(plot.sites, plot.open + 1, plot.close)
    && forall i :: 0 <= i < |plot.sites| ==> Standing(src, plot.sites[i])
  }

  predicate AllStand(src: Source, sites: seq<Site>) {
    forall i :: 0 <= i < |sites| ==> Standing(src, sites[i])
  }

  lemma StepOn(src: Source, c: L.Cursor)
    requires c.groups != [] && InStep(src, c)
    ensures InStep(src, L.Bump(c)) && InStep(src, L.Cursor([], c.groups))
    ensures InStep(src, L.Cursor(c.groups[0].after, c.groups[1..]))
    ensures |c.groups| > 1 ==> TokenAt(src, L.Bump(c).groups) == TokenAt(src, c.groups) + 1
  {
    C.BumpKeeps(c);
  }

  lemma StepBehind(src: Source, body: L.Pieces)
    requires InStep(src, body.rest)
    ensures InStep(src, Behind(body))
    ensures |C.Stream(body.rest)| - |C.Stream(Behind(body))| == |body.rest.pend| - |Behind(body).pend|
  {
  }

  /** Comments taken before token `i` end before it. */
  lemma StretchEnds(src: Source, c: L.Cursor, n: nat)
    requires InStep(src, c) && n <= |c.pend| && 1 < |c.groups|
    ensures
      var cs := Stretch(src.comments, CommentAt(src, c), n);
      cs != [] ==> cs[|cs| - 1].end <= src.tokens[TokenAt(src, c.groups)].start
  {
    if n > 0 {
      var j := CommentAt(src, c) + n - 1;
      assert Stretch(src.comments, CommentAt(src, c), n)[n - 1] == src.comments[j];
      assert j < |src.comments| - |C.Afters(c.groups)|;
    }
  }

  /** The node is made of its tokens, and its comments stand where they may. */
  lemma SoundMeta(src: Source, meta: Meta)
    requires Separate(src) && meta.lo < meta.hi <= |src.tokens| && meta.span == SpanOf(src.tokens, meta.lo, meta.hi)
    requires meta.trailing != [] && meta.hi < |src.tokens| ==>
      meta.trailing[|meta.trailing| - 1].end <= src.tokens[meta.hi].start
    requires forall d :: d in meta.trailing || d in meta.detached ==> d in src.comments
    requires Around(src.tokens, meta)
    ensures Sound(src.tokens, src.limit, meta)
  {
    if meta.trailing != [] {
      assert meta.trailing[|meta.trailing| - 1] in src.comments;
    }
  }

  lemma StretchIn(comments: seq<Span>, from: nat, n: nat)
    ensures forall d :: d in Stretch(comments, from, n) ==> d in comments
  {
  }

  lemma StretchInRow(comments: seq<Span>, from: nat, n: nat)
    requires PrunedText.InRow(comments)
    ensures PrunedText.InRow(Stretch(comments, from, n))
  {
  }

  /** The pending comments in front of an item end before it. */
  lemma LeadingEnds(src: Source, c: L.Cursor, from: nat, n: nat)
    requires InStep(src, c) && 1 < |c.groups| && from + n == |c.pend|
    ensures
      var cs := Stretch(src.comments, CommentAt(src, c) + from, n);
      cs != [] ==> cs[|cs| - 1].end <= src.tokens[TokenAt(src, c.groups)].start
  {
    if n > 0 {
      var j := CommentAt(src, c) + from + n - 1;
      assert Stretch(src.comments, CommentAt(src, c) + from, n)[n - 1] == src.comments[j];
      assert j < |src.comments| - |C.Afters(c.groups)|;
    }
  }

  /** The comments that are pending behind an item start behind its first token. */
  lemma TrailingStarts(src: Source, c: L.Cursor, body: L.Pieces, n: nat)
    requires InStep(src, c) && 1 < |c.groups|
    requires L.ParseParts(L.Cursor([], c.groups)) == Some(body)
    ensures
      var cs := Stretch(src.comments, CommentAt(src, body.rest), n);
      cs != [] ==> src.tokens[TokenAt(src, c.groups)].end <= cs[0].start
  {
    C.ParseKeepsParts(L.Cursor([], c.groups));
    var cs, j := Stretch(src.comments, CommentAt(src, body.rest), n), CommentAt(src, body.rest);
    assert |C.Stream(body.rest)| <= |C.Afters(c.groups)|;
    if cs != [] {
      assert cs[0] == src.comments[j];
    }
  }

  lemma SplitIsAll(pend: seq<L.Comment>, tok: L.Token)
    ensures |L.BeginItem(pend, tok).toPrev| + |L.BeginItem(pend, tok).leading| == |pend|
  {
  }

  lemma MetaIsAround(src: Source, c: L.Cursor, body: L.Pieces, n: nat)
    requires InStep(src, c) && 1 < |c.groups| && |body.rest.groups| < |c.groups|
    requires L.ParseParts(L.Cursor([], c.groups)) == Some(body)
    ensures MetaAt(src, c, body, n).lo < |src.tokens| && Around(src.tokens, MetaAt(src, c, body, n))
  {
    var start := L.BeginItem(c.pend, c.groups[0].tok);
    var trailing: nat := |body.rest.pend| - |Behind(body).pend|;
    SplitIsAll(c.pend, c.groups[0].tok);
    LeadingEnds(src, c, |start.toPrev|, |start.leading|);
    TrailingStarts(src, c, body, trailing);
    StretchInRow(src.comments, CommentAt(src, c) + |start.toPrev|, |start.leading|);
    StretchInRow(src.comments, CommentAt(src, body.rest), trailing);
  }

  lemma MetaStands(src: Source, c: L.Cursor, body: L.Pieces, n: nat)
    requires c.groups != [] && |body.rest.groups| < |c.groups| <= |src.tokens| + 1
    requires InStep(src, c) && L.ParseParts(L.Cursor([], c.groups)) == Some(body)
    requires InStep(src, body.rest) && body.rest.groups != []
    ensures Sound(src.tokens, src.limit, MetaAt(src, c, body, n))
  {
    var trailing: nat := |body.rest.pend| - |Behind(body).pend|;
    if |body.rest.groups| > 1 {
      StretchEnds(src, body.rest, trailing);
    }
    StretchIn(src.comments, CommentAt(src, body.rest), trailing);
    StretchIn(src.comments, CommentAt(src, Behind(body)), n);
    MetaIsAround(src, c, body, n);
    SoundMeta(src, MetaAt(src, c, body, n));
  }

  /** One step of the scope loop. */
  lemma RunUnfolds(src: Source, c: L.Cursor, body: L.Pieces)
    requires L.ParseRun(c).Some? && |c.groups| <= |src.tokens| + 1 && c.groups[0].tok.kind.Plain?
    requires L.ParseParts(L.Cursor([], c.groups)) == Some(body)
    ensures L.ParseRun(Behind(body)).Some? && L.ParseRun(c).value.rest == L.ParseRun(Behind(body)).value.rest
    ensures SitesOf(src, c)
      == [Site(MetaAt(src, c, body, Carried(body)), PlotsOf(src, L.Cursor([], c.groups)))] + SitesOf(src, Behind(body))
  {
  }

  function PlotOf(src: Source, c: L.Cursor, scope: L.Scope): (r: Plot)
    requires c.groups != [] && |c.groups| <= |src.tokens| + 1
    requires L.ParseRun(L.Bump(c)) == Some(scope)
  {
    Plot(TokenAt(src, c.groups), SitesOf(src, L.Bump(c)), TokenAt(src, scope.rest.groups) - 1)
  }

  /** A nested scope and the rest of its item. */
  lemma PartsUnfold(src: Source, c: L.Cursor, scope: L.Scope)
    requires L.ParseParts(c).Some? && 0 < |c.groups| <= |src.tokens| + 1 && c.groups[0].tok.kind.Open?
    requires L.ParseRun(L.Bump(c)) == Some(scope)
    ensures scope.close.last ==> L.ParseParts(c).value.rest == scope.rest && PlotsOf(src, c) == [PlotOf(src, c, scope)]
    ensures !scope.close.last ==>
      && L.ParseParts(scope.rest).Some? && L.ParseParts(c).value.rest == L.ParseParts(scope.rest).value.rest
      && PlotsOf(src, c) == [PlotOf(src, c, scope)] + PlotsOf(src, scope.rest)
  {
  }

  /** The cursor stands behind a closing brace or at the end. */
  ghost predicate Closed(src: Source, c: L.Cursor) {
    InStep(src, c) && (c.groups != [] ==> |c.groups| <= |src.tokens| && IsSingle(src.tokens[TokenAt(src, c.groups) - 1]))
  }

  lemma StepOut(src: Source, c: L.Cursor)
    requires c.groups != [] && InStep(src, c) && c.groups[0].tok.kind.Close?
    ensures Closed(src, L.Cursor(c.groups[0].after, c.groups[1..]))
  {
    StepOn(src, c);
  }

  lemma {:induction false} RunSteps(src: Source, c: L.Cursor)
    requires L.ParseRun(c).Some? && InStep(src, c)
    ensures Closed(src, L.ParseRun(c).value.rest)
    decreases |c.groups|, 1
  {
    StepOn(src, c);
    match c.groups[0].tok.kind
    case Semi => RunSteps(src, L.Bump(c));
    case Close => StepOut(src, c);
    case Plain(_, _) =>
      var body := L.ParseParts(L.Cursor([], c.groups)).value;
      PartsStep(src, L.Cursor([], c.groups));
      StepBehind(src, body);
      RunUnfolds(src, c, body);
      RunSteps(src, Behind(body));
  }

  lemma {:induction false} PartsStep(src: Source, c: L.Cursor)
    requires L.ParseParts(c).Some? && InStep(src, c)
    ensures InStep(src, L.ParseParts(c).value.rest)
    decreases |c.groups|, 0
  {
    var tok := c.groups[0].tok;
    StepOn(src, c);
    match tok.kind
    case Plain(_, _) =>
      if !tok.last {
        PartsStep(src, L.Bump(c));
      }
    case Open(_, _) =>
      var scope := L.ParseRun(L.Bump(c)).value;
      RunSteps(src, L.Bump(c));
      PartsUnfold(src, c, scope);
      if !scope.close.last {
        PartsStep(src, scope.rest);
      }
    case Separator =>
  }

  predicate Row(src: Source, sites: seq<Site>, lo: int, hi: int) {
    AllStand(src, sites) && InRow(sites, lo, hi)
  }

  predicate PlotsWithin(src: Source, plots: seq<Plot>, lo: nat, hi: nat) {
    forall i :: 0 <= i < |plots| ==> lo <= plots[i].open && plots[i].close < hi && PlotStands(src, plots[i])
  }

  lemma SiteFirst(src: Source, site: Site, sites: seq<Site>, hi: int)
    requires Sound(src.tokens, src.limit, site.meta)
    requires PlotsWithin(src, site.scopes, site.meta.lo + 1, site.meta.hi)
    requires Row(src, sites, site.meta.hi, hi)
    ensures Row(src, [site] + sites, site.meta.lo, hi)
  {
    assert Standing(src, site);
  }

  lemma PlotFirst(src: Source, plot: Plot, plots: seq<Plot>, lo: nat, hi: nat)
    requires PlotStands(src, plot) && plot.close < lo <= hi && PlotsWithin(src, plots, lo, hi)
    ensures PlotsWithin(src, [plot] + plots, plot.open, hi)
  {
  }

  /** What is found from the cursor on stands in order before the closing brace of the scope. */
  lemma {:induction false} RunStands(src: Source, c: L.Cursor)
    requires L.ParseRun(c).Some? && InStep(src, c)
    ensures Row(src, SitesOf(src, c), TokenAt(src, c.groups), |src.tokens| - |L.ParseRun(c).value.rest.groups|)
    decreases |c.groups|, 3
  {
    match c.groups[0].tok.kind
    case Semi =>
      StepOn(src, c);
      RunStands(src, L.Bump(c));
    case Close =>
    case Plain(_, _) => ItemStands(src, c);
  }

  lemma {:induction false} ItemStands(src: Source, c: L.Cursor)
    requires L.ParseRun(c).Some? && InStep(src, c) && c.groups[0].tok.kind.Plain?
    ensures Row(src, SitesOf(src, c), TokenAt(src, c.groups), |src.tokens| - |L.ParseRun(c).value.rest.groups|)
    decreases |c.groups|, 2
  {
    var words := L.Cursor([], c.groups);
    var body := L.ParseParts(words).value;
    StepOn(src, c);
    PartsStep(src, words);
    StepBehind(src, body);
    RunUnfolds(src, c, body);
    RunStands(src, Behind(body));
    PartsStand(src, words);
    MetaStands(src, c, body, Carried(body));
    SiteFirst(src, Site(MetaAt(src, c, body, Carried(body)), PlotsOf(src, words)), SitesOf(src, Behind(body)),
              |src.tokens| - |L.ParseRun(c).value.rest.groups|);
  }

  /** Where the nested scopes of an item may begin: not with its first word. */
  function InnerLo(src: Source, c: L.Cursor): (lo: nat)
    requires 0 < |c.groups| <= |src.tokens| + 1
  {
    TokenAt(src, c.groups) + if c.groups[0].tok.kind.Plain? then 1 else 0
  }

  /** What is found up to the end of the item stands between its first and its last token. */
  lemma {:induction false} PartsStand(src: Source, c: L.Cursor)
    requires L.ParseParts(c).Some? && InStep(src, c) && L.ParseParts(c).value.rest.groups != []
    ensures PlotsWithin(src, PlotsOf(src, c), InnerLo(src, c), TokenAt(src, L.ParseParts(c).value.rest.groups))
    decreases |c.groups|, 1
  {
    var tok := c.groups[0].tok;
    match tok.kind
    case Plain(_, _) =>
      if !tok.last {
        StepOn(src, c);
        PartsStand(src, L.Bump(c));
      }
    case Open(_, _) => ScopeStands(src, c);
    case Separator =>
  }

  lemma {:induction false} ScopeStands(src: Source, c: L.Cursor)
    requires L.ParseParts(c).Some? && InStep(src, c) && L.ParseParts(c).value.rest.groups != []
    requires c.groups[0].tok.kind.Open?
    ensures PlotsWithin(src, PlotsOf(src, c), InnerLo(src, c), TokenAt(src, L.ParseParts(c).value.rest.groups))
    decreases |c.groups|, 0
  {
    var scope := L.ParseRun(L.Bump(c)).value;
    var plot, hi := PlotOf(src, c, scope), TokenAt(src, L.ParseParts(c).value.rest.groups);
    StepOn(src, c);
    RunSteps(src, L.Bump(c));
    RunStands(src, L.Bump(c));
    PartsUnfold(src, c, scope);
    PlotFits(src, c, scope);
    if scope.close.last {
      PlotFirst(src, plot, [], plot.close + 1, hi);
      assert [plot] + [] == [plot];
    } else {
      PartsStand(src, scope.rest);
      PlotFirst(src, plot, PlotsOf(src, scope.rest), InnerLo(src, scope.rest), hi);
    }
  }

  lemma PlotFits(src: Source, c: L.Cursor, scope: L.Scope)
    requires 0 < |c.groups| <= |src.tokens| + 1 && L.ParseRun(L.Bump(c)) == Some(scope)
    requires Closed(src, scope.rest) && scope.rest.groups != []
    requires Row(src, SitesOf(src, L.Bump(c)), TokenAt(src, c.groups) + 1, |src.tokens| - |scope.rest.groups|)
    ensures PlotStands(src, PlotOf(src, c, scope))
  {
  }

  // ---- the sites are those of the attached comments ------------------------------------------------------

  /** The site has the comments that are in the slots of the item. */
  predicate SameSlots(site: Site, item: L.Item) {
    && |site.meta.leading| == |item.leading| && |site.meta.trailing| == |item.trailing|
    && |site.meta.detached| == |item.detached|
  }

  lemma {:induction false} CarryFits(c: L.Cursor)
    requires L.ParseRun(c).Some?
    ensures |L.ParseRun(c).value.run.carry| <= |C.Stream(c)|
    decreases |c.groups|
  {
    if c.groups[0].tok.kind.Semi? {
      C.BumpKeeps(c);
      CarryFits(L.Bump(c));
    }
  }

  lemma MetaSlots(src: Source, c: L.Cursor, body: L.Pieces)
    requires c.groups != [] && |body.rest.groups| < |c.groups| && InStep(src, c) && InStep(src, body.rest)
    requires L.ParseRun(Behind(body)).Some?
    ensures
      var meta, n := MetaAt(src, c, body, Carried(body)), L.TrailingCount(body.rest.pend, body.line);
      && |meta.leading| == |L.BeginItem(c.pend, c.groups[0].tok).leading| && |meta.trailing| == n
      && |meta.detached| == Carried(body)
  {
    StepBehind(src, body);
    CarryFits(Behind(body));
    PendingSplit(c.pend, c.groups[0].tok);
  }

  lemma PendingSplit(pend: seq<L.Comment>, tok: L.Token)
    ensures |L.BeginItem(pend, tok).toPrev| + |L.BeginItem(pend, tok).leading| == |pend|
  {
  }

  /** The sites of a scope are those of its items, in order, with as many comments in every slot. */
  lemma {:induction false} SitesMirror(src: Source, c: L.Cursor)
    requires L.ParseRun(c).Some? && InStep(src, c)
    ensures |SitesOf(src, c)| == |L.ParseRun(c).value.run.items|
    ensures forall i :: 0 <= i < |SitesOf(src, c)| ==> SameSlots(SitesOf(src, c)[i], L.ParseRun(c).value.run.items[i])
    decreases |c.groups|
  {
    StepOn(src, c);
    match c.groups[0].tok.kind
    case Semi => SitesMirror(src, L.Bump(c));
    case Close =>
    case Plain(_, _) =>
      var words := L.Cursor([], c.groups);
      var body := L.ParseParts(words).value;
      PartsStep(src, words);
      StepBehind(src, body);
      SitesMirror(src, Behind(body));
      MetaSlots(src, c, body);
  }

  // ---- the syntax tree on these sites ------------------------------------------------------------------

  predicate StandsAt(meta: Meta, site: Site) {
    meta == site.meta.(id := meta.id)
  }

  /** The node ends with the scope that is its body. */
  predicate HasBody(site: Site) {
    site.scopes != [] && site.scopes[|site.scopes| - 1].close == site.meta.hi - 1
  }

  function BodyOf(site: Site): (r: seq<Site>)
    requires HasBody(site)
  {
    site.scopes[|site.scopes| - 1].sites
  }

  predicate OneofAt(o: Oneof, site: Site) {
    && StandsAt(o.meta, site) && HasBody(site) && |o.items| == |BodyOf(site)|
    && forall i :: 0 <= i < |o.items| && o.items[i].Member? ==> StandsAt(o.items[i].field.meta, BodyOf(site)[i])
  }

  predicate EnumAt(e: Enum, site: Site) {
    && StandsAt(e.meta, site) && HasBody(site) && |e.items| == |BodyOf(site)|
    && forall i :: 0 <= i < |e.items| ==> ValueAtSite(e.items[i], BodyOf(site)[i])
  }

  predicate ValueAtSite(item: EnumItem, site: Site) {
    match item
    case Value(f) => StandsAt(f.meta, site)
    case EnumOption(meta, _) => StandsAt(meta, site)
    case EnumReserved => true
  }

  predicate ServiceAt(s: Service, site: Site) {
    && StandsAt(s.meta, site) && HasBody(site) && |s.items| == |BodyOf(site)|
    && forall i :: 0 <= i < |s.items| && s.items[i].Rpc? ==> StandsAt(s.items[i].meta, BodyOf(site)[i])
  }

  predicate MessageAt(m: Message, site: Site) {
    && StandsAt(m.meta, site) && HasBody(site) && |m.items| == |BodyOf(site)|
    && forall i :: 0 <= i < |m.items| ==> ItemAt(m.items[i], BodyOf(site)[i])
  }

  /** The member of a message was parsed at this site. */
  predicate ItemAt(item: MsgItem, site: Site) {
    match item
    case MsgField(f) => StandsAt(f.meta, site)
    case MsgOneof(o) => OneofAt(o, site)
    case MsgNested(m) => MessageAt(m, site)
    case MsgEnum(e) => EnumAt(e, site)
    case MsgOther => true
  }

  predicate TopAt(item: Item, site: Site) {
    match item
    case TopService(s) => ServiceAt(s, site)
    case TopImport(meta, _) => StandsAt(meta, site)
    case _ => ItemAt(AsMember(item), site)
  }

  /** The items of the file were parsed from this source. */
  ghost predicate ParsedFrom(src: Source, c: L.Cursor, items: seq<Item>) {
    && Starts(src, c) && F.ParseFile(c).Some?
    && |items| == |SitesOf(src, c)|
    && forall i :: 0 <= i < |items| ==> TopAt(items[i], SitesOf(src, c)[i])
  }

  lemma BodyStands(src: Source, site: Site)
    requires Standing(src, site) && HasBody(site)
    ensures AllStand(src, BodyOf(site)) && InRow(BodyOf(site), site.meta.lo + 1, site.meta.hi - 1)
    ensures site.meta.span.end == src.tokens[site.meta.hi - 1].start + 1
  {
    var last := |site.scopes| - 1;
    assert Enclosed(src, site.meta, site.scopes[last]);
    PlotFacts(src, site.scopes[last]);
  }

  lemma PlotFacts(src: Source, plot: Plot)
    requires PlotStands(src, plot)
    ensures plot.open < plot.close < |src.tokens| && IsSingle(src.tokens[plot.close])
    ensures InRow(plot.sites, plot.open + 1, plot.close) && AllStand(src, plot.sites)
  {
  }

  lemma MembersInside(src: Source, o: Oneof, site: Site)
    requires Standing(src, site) && OneofAt(o, site)
    ensures OneofPlaced(src.tokens, src.limit, o)
  {
    BodyStands(src, site);
    var fields := Members(o.items);
    forall meta | meta in Metas(fields)
      ensures Sound(src.tokens, src.limit, meta) && o.meta.lo < meta.lo && meta.hi < o.meta.hi
    {
      var k :| 0 <= k < |fields| && Metas(fields)[k] == meta;
      var i := MemberAt(o.items, fields[k]);
    }
  }

  lemma {:induction false} MemberAt(items: seq<OneofItem>, f: Field) returns (i: nat)
    requires f in Members(items)
    ensures i < |items| && items[i] == Member(f)
  {
    var init, last := items[..|items| - 1], items[|items| - 1];
    if last == Member(f) {
      i := |items| - 1;
    } else {
      i := MemberAt(init, f);
    }
  }

  lemma {:induction false} SwitchAt(items: seq<EnumItem>, meta: Meta) returns (i: nat)
    requires meta in Switches(items)
    ensures i < |items| && items[i].EnumOption? && items[i].meta == meta
  {
    var init, last := items[..|items| - 1], items[|items| - 1];
    if IsSwitch(last) && last.meta == meta {
      i := |items| - 1;
    } else {
      i := SwitchAt(init, meta);
    }
  }

  lemma ValuesInside(src: Source, e: Enum, site: Site)
    requires Standing(src, site) && EnumAt(e, site)
    ensures Inside(src.tokens, src.limit, e.meta, Metas(Values(e.items)))
  {
    BodyStands(src, site);
    var fields := Values(e.items);
    forall meta | meta in Metas(fields)
      ensures Sound(src.tokens, src.limit, meta) && e.meta.lo < meta.lo && meta.hi < e.meta.hi
    {
      var k :| 0 <= k < |fields| && Metas(fields)[k] == meta;
      var i := ValueAt(e.items, fields[k]);
      assert ValueAtSite(e.items[i], BodyOf(site)[i]);
    }
  }

  lemma SwitchesInside(src: Source, e: Enum, site: Site)
    requires Standing(src, site) && EnumAt(e, site)
    ensures Inside(src.tokens, src.limit, e.meta, Switches(e.items))
  {
    BodyStands(src, site);
    forall meta | meta in Switches(e.items)
      ensures Sound(src.tokens, src.limit, meta) && e.meta.lo < meta.lo && meta.hi < e.meta.hi
    {
      var i := SwitchAt(e.items, meta);
      assert ValueAtSite(e.items[i], BodyOf(site)[i]);
    }
  }

  lemma EnumIsPlaced(src: Source, e: Enum, site: Site)
    requires Standing(src, site) && EnumAt(e, site)
    ensures EnumPlaced(src.tokens, src.limit, e)
  {
    BodyStands(src, site);
    ValuesInside(src, e, site);
    SwitchesInside(src, e, site);
  }

  lemma MethodsInside(src: Source, s: Service, site: Site)
    requires Standing(src, site) && ServiceAt(s, site)
    ensures ServicePlaced(src.tokens, src.limit, s)
  {
    forall item | item in s.items && item.Rpc?
      ensures Sound(src.tokens, src.limit, item.meta) && s.meta.lo < item.meta.lo && item.meta.hi < s.meta.hi
    {
      var i: nat :| i < |s.items| && s.items[i] == item;
      MethodInside(src, s, site, i);
    }
  }

  lemma MethodInside(src: Source, s: Service, site: Site, i: nat)
    requires Standing(src, site) && ServiceAt(s, site) && i < |s.items| && s.items[i].Rpc?
    ensures Sound(src.tokens, src.limit, s.items[i].meta)
    ensures s.meta.lo < s.items[i].meta.lo && s.items[i].meta.hi < s.meta.hi
  {
    BodyStands(src, site);
  }

  lemma {:induction false} ItemIsPlaced(src: Source, item: MsgItem, site: Site)
    requires Standing(src, site) && ItemAt(item, site)
    ensures ItemPlaced(src.tokens, src.limit, item)
    ensures ItemMeta(item).Some? ==> StandsAt(ItemMeta(item).value, site)
    decreases item
  {
    match item
    case MsgField(f) =>
    case MsgOneof(o) => MembersInside(src, o, site);
    case MsgNested(m) => MessageIsPlaced(src, m, site);
    case MsgEnum(e) => EnumIsPlaced(src, e, site);
    case MsgOther =>
  }

  lemma {:induction false} MessageIsPlaced(src: Source, m: Message, site: Site)
    requires Standing(src, site) && MessageAt(m, site)
    ensures MessagePlaced(src.tokens, src.limit, m)
    decreases m
  {
    BodyStands(src, site);
    ItemsArePlaced(src, m.items, BodyOf(site), m.meta.lo + 1, m.meta.hi - 1);
  }

  lemma {:induction false} ItemsArePlaced(src: Source, items: seq<MsgItem>, sites: seq<Site>, lo: int, hi: int)
    requires |items| == |sites| && AllStand(src, sites) && InRow(sites, lo, hi)
    requires forall i :: 0 <= i < |items| ==> ItemAt(items[i], sites[i])
    ensures ItemsPlaced(src.tokens, src.limit, items, lo, hi)
    decreases items
  {
    if items != [] {
      var n := |items| - 1;
      var mid := if ItemMeta(items[n]).Some? then sites[n].meta.lo else hi;
      assert items[n] in items;
      ItemIsPlaced(src, items[n], sites[n]);
      RowBefore(sites, lo, hi);
      assert InRow(sites[..n], lo, mid);
      ItemsArePlaced(src, items[..n], sites[..n], lo, mid);
    }
  }

  lemma RowBefore(sites: seq<Site>, lo: int, hi: int)
    requires sites != [] && InRow(sites, lo, hi)
    ensures InRow(sites[..|sites| - 1], lo, hi) && InRow(sites[..|sites| - 1], lo, sites[|sites| - 1].meta.lo)
  {
  }

  lemma TopIsPlaced(src: Source, item: Item, site: Site)
    requires Standing(src, site) && TopAt(item, site)
    ensures TopPlaced(src.tokens, src.limit, item)
    ensures TopMeta(item).Some? ==> StandsAt(TopMeta(item).value, site)
  {
    match item
    case TopService(s) => MethodsInside(src, s, site);
    case TopImport(meta, _) =>
    case _ => ItemIsPlaced(src, AsMember(item), site);
  }

  lemma {:induction false} FileIsPlaced(src: Source, items: seq<Item>, sites: seq<Site>, lo: int, hi: int)
    requires |items| == |sites| && AllStand(src, sites) && InRow(sites, lo, hi)
    requires forall i :: 0 <= i < |items| ==> TopAt(items[i], sites[i])
    ensures FilePlaced(src.tokens, src.limit, items, lo, hi)
  {
    if items != [] {
      var n := |items| - 1;
      TopIsPlaced(src, items[n], sites[n]);
      RowBefore(sites, lo, hi);
      FileIsPlaced(src, items[..n], sites[..n], lo, Before(items[n], hi));
    }
  }

  lemma ParsedStands(src: Source, c: L.Cursor, items: seq<Item>)
    requires ParsedFrom(src, c, items)
    ensures Apart(src.tokens, src.limit) && FilePlaced(src.tokens, src.limit, items, 0, |src.tokens|)
  {
    RunStands(src, c);
    assert L.ParseRun(c).value.rest.groups == [];
    FileIsPlaced(src, items, SitesOf(src, c), 0, |src.tokens|);
  }

  /** Every tree that was parsed from a text stands in it as `PrunedText` requires. */
  lemma ParsedFits(text: string, src: Source, c: L.Cursor, items: seq<Item>)
    requires src.limit == |text| && ParsedFrom(src, c, items)
    ensures Parsed(text, src.tokens, items)
  {
    ParsedStands(src, c, items);
  }
}
