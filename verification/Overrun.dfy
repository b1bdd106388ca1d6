/** When deleting text is exact, seen from the source.

  The comments between two items belong to the later one if it follows directly.
  But a comment among the tokens of an item, in front of its opening brace, or
  before an empty statement waits for the next item too. If that one is deleted
  with its leading comments, the deletion starts at this comment and takes the
  tokens in between along.
 */
module Overrun {
  import opened Symbols
  import opened Edits
  import opened Pruner
  import opened PrunedText
  import opened Placement
  import L = Layout
  import C = Comments
  import F = Formatting
  import S = Stability

  // ---- when leading comments reach back over nothing -------------------------------------------------------

  /** The node and its leading comments start after the token before the node. */
  predicate Clear(tokens: seq<Span>, meta: Meta) {
    0 < meta.lo ==> meta.lo <= |tokens| && tokens[meta.lo - 1].end <= Extent(meta).start
  }

  predicate ClearSite(tokens: seq<Span>, site: Site)
    decreases site
  {
    Clear(tokens, site.meta) && forall i :: 0 <= i < |site.scopes| ==> ClearPlot(tokens, site.scopes[i])
  }

  predicate ClearPlot(tokens: seq<Span>, plot: Plot)
    decreases plot
  {
    forall i :: 0 <= i < |plot.sites| ==> ClearSite(tokens, plot.sites[i])
  }

  predicate AllClear(tokens: seq<Span>, sites: seq<Site>) {
    forall i :: 0 <= i < |sites| ==> ClearSite(tokens, sites[i])
  }

  predicate PlotsClear(tokens: seq<Span>, plots: seq<Plot>) {
    forall i :: 0 <= i < |plots| ==> ClearPlot(tokens, plots[i])
  }

  /** No unattached comment starts before the end of the last token read. */
  predicate Fresh(src: Source, c: L.Cursor)
    requires |c.groups| <= |src.tokens| + 1
  {
    var i := TokenAt(src, c.groups);
    0 < i <= |src.tokens| ==>
      forall j :: CommentAt(src, c) <= j < |src.comments| ==> src.tokens[i - 1].end <= src.comments[j].start
  }

  lemma FreshBump(src: Source, c: L.Cursor)
    requires c.groups != [] && InStep(src, c) && S.Tidy(c.groups)
    ensures S.Tidy(c.groups[1..]) && |c.groups[1..]| <= |src.tokens|
    ensures Fresh(src, L.Cursor(c.groups[0].after, c.groups[1..]))
  {
    C.BumpKeeps(c);
    assert C.Afters(c.groups) == C.Stream(L.Cursor(c.groups[0].after, c.groups[1..]));
  }

  lemma FreshBehind(src: Source, body: L.Pieces)
    requires InStep(src, body.rest) && Fresh(src, body.rest)
    ensures Fresh(src, Behind(body))
  {
    StepBehind(src, body);
  }

  lemma ClearMeta(src: Source, c: L.Cursor, body: L.Pieces, n: nat)
    requires c.groups != [] && 0 < |body.rest.groups| < |c.groups| <= |src.tokens| + 1
    requires Fresh(src, c) && Apart(src.tokens, src.limit)
    ensures Clear(src.tokens, MetaAt(src, c, body, n))
  {
    var meta := MetaAt(src, c, body, n);
    var before := |L.BeginItem(c.pend, c.groups[0].tok).toPrev|;
    if meta.leading != [] {
      assert meta.leading[0] == src.comments[CommentAt(src, c) + before];
    }
  }

  ghost predicate RunTidied(src: Source, c: L.Cursor)
    requires L.ParseRun(c).Some? && |c.groups| <= |src.tokens| + 1
  {
    var scope := L.ParseRun(c).value;
    && AllClear(src.tokens, SitesOf(src, c))
    && S.Tidy(scope.rest.groups) && Fresh(src, scope.rest)
    && (scope.rest.pend != [] ==> scope.close.last)
  }

  /** In a tidy source every leading comment stands between its node and the token before. */
  lemma {:induction false} RunIsClear(src: Source, c: L.Cursor)
    requires L.ParseRun(c).Some? && InStep(src, c) && S.Tidy(c.groups) && Fresh(src, c)
    ensures RunTidied(src, c)
    decreases |c.groups|, 2
  {
    FreshBump(src, c);
    if c.groups[0].tok.kind.Plain? {
      var words := L.Cursor([], c.groups);
      var body := L.ParseParts(words).value;
      StepOn(src, c);
      PartsStep(src, words);
      PartsAreClear(src, words);
      StepBehind(src, body);
      FreshBehind(src, body);
      RunIsClear(src, Behind(body));
      ClearMeta(src, c, body, Carried(body));
      ClearCons(src, c, body);
    }
  }

  lemma ClearCons(src: Source, c: L.Cursor, body: L.Pieces)
    requires L.ParseRun(c).Some? && |c.groups| <= |src.tokens| + 1 && c.groups[0].tok.kind.Plain?
    requires L.ParseParts(L.Cursor([], c.groups)) == Some(body)
    requires PlotsClear(src.tokens, PlotsOf(src, L.Cursor([], c.groups)))
    requires L.ParseRun(Behind(body)).Some? && RunTidied(src, Behind(body))
    requires Clear(src.tokens, MetaAt(src, c, body, Carried(body)))
    ensures RunTidied(src, c)
  {
    RunUnfolds(src, c, body);
    assert ClearSite(src.tokens, Site(MetaAt(src, c, body, Carried(body)), PlotsOf(src, L.Cursor([], c.groups))));
  }

  ghost predicate PartsTidied(src: Source, c: L.Cursor)
    requires L.ParseParts(c).Some? && |c.groups| <= |src.tokens| + 1
  {
    var rest := L.ParseParts(c).value.rest;
    PlotsClear(src.tokens, PlotsOf(src, c)) && S.Tidy(rest.groups) && Fresh(src, rest)
  }

  lemma {:induction false} PartsAreClear(src: Source, c: L.Cursor)
    requires L.ParseParts(c).Some? && InStep(src, c) && S.Tidy(c.groups) && c.pend == []
    ensures PartsTidied(src, c)
    decreases |c.groups|, 1
  {
    var tok := c.groups[0].tok;
    StepOn(src, c);
    FreshBump(src, c);
    assert L.Bump(c) == L.Cursor(c.groups[0].after, c.groups[1..]);
    match tok.kind
    case Plain(_, _) =>
      if !tok.last {
        PartsAreClear(src, L.Bump(c));
      }
    case Open(_, _) => ScopeIsClear(src, c);
    case Separator =>
  }

  lemma {:induction false} ScopeIsClear(src: Source, c: L.Cursor)
    requires L.ParseParts(c).Some? && InStep(src, c) && S.Tidy(c.groups) && c.pend == [] && c.groups[0].tok.kind.Open?
    ensures PartsTidied(src, c)
    decreases |c.groups|, 0
  {
    var inner := L.Bump(c);
    var scope := L.ParseRun(inner).value;
    StepOn(src, c);
    FreshBump(src, c);
    RunSteps(src, inner);
    RunIsClear(src, inner);
    if !scope.close.last {
      PartsAreClear(src, scope.rest);
      PartsUnfold(src, c, scope);
    } else {
      assert PlotsOf(src, c) == [PlotOf(src, c, scope)];
    }
    assert ClearPlot(src.tokens, PlotOf(src, c, scope));
  }

  // ---- deleting from a tidy source -------------------------------------------------------------------------

  ghost predicate ClearAll(tokens: seq<Span>, metas: seq<Meta>) {
    forall meta :: meta in metas ==> Clear(tokens, meta)
  }

  lemma BodyClear(tokens: seq<Span>, site: Site)
    requires ClearSite(tokens, site) && HasBody(site)
    ensures AllClear(tokens, BodyOf(site))
  {
    assert ClearPlot(tokens, site.scopes[|site.scopes| - 1]);
  }

  lemma ClearAt(tokens: seq<Span>, meta: Meta, site: Site)
    requires ClearSite(tokens, site) && StandsAt(meta, site)
    ensures Clear(tokens, meta)
  {
  }

  lemma OneofClear(tokens: seq<Span>, gone: set<nat>, o: Oneof, site: Site)
    requires ClearSite(tokens, site) && OneofAt(o, site)
    ensures ClearAll(tokens, OneofDoomed(gone, o))
  {
    BodyClear(tokens, site);
    var lost := Lost(gone, Members(o.items));
    forall meta | meta in Metas(lost) ensures Clear(tokens, meta) {
      var k :| 0 <= k < |lost| && Metas(lost)[k] == meta;
      assert lost[k] in lost;
      var i := MemberAt(o.items, lost[k]);
      ClearAt(tokens, meta, BodyOf(site)[i]);
    }
  }

  lemma EnumClear(tokens: seq<Span>, gone: set<nat>, e: Enum, site: Site)
    requires ClearSite(tokens, site) && EnumAt(e, site)
    ensures ClearAll(tokens, EnumDoomed(gone, e))
  {
    BodyClear(tokens, site);
    var lost := Lost(gone, Values(e.items));
    forall meta | meta in Metas(lost) ensures Clear(tokens, meta) {
      var k :| 0 <= k < |lost| && Metas(lost)[k] == meta;
      assert lost[k] in lost;
      var i := ValueAt(e.items, lost[k]);
      assert ValueAtSite(e.items[i], BodyOf(site)[i]);
      ClearAt(tokens, meta, BodyOf(site)[i]);
    }
    forall meta | meta in Switches(e.items) ensures Clear(tokens, meta) {
      var i := SwitchAt(e.items, meta);
      assert ValueAtSite(e.items[i], BodyOf(site)[i]);
      ClearAt(tokens, meta, BodyOf(site)[i]);
    }
  }

  lemma ServiceClear(tokens: seq<Span>, gone: set<nat>, s: Service, site: Site)
    requires ClearSite(tokens, site) && ServiceAt(s, site)
    ensures ClearAll(tokens, ServiceDoomed(gone, s))
  {
    BodyClear(tokens, site);
    forall meta | meta in LostRpcs(gone, s.items) ensures Clear(tokens, meta) {
      RpcIn(gone, s.items, meta);
      var item :| item in s.items && IsLostRpc(gone, item) && item.meta == meta;
      var i :| 0 <= i < |s.items| && s.items[i] == item;
      ClearAt(tokens, meta, BodyOf(site)[i]);
    }
  }

  lemma {:induction false} ItemClear(tokens: seq<Span>, gone: set<nat>, item: MsgItem, site: Site)
    requires ClearSite(tokens, site) && ItemAt(item, site)
    ensures ClearAll(tokens, ItemDoomed(gone, item))
    decreases item
  {
    match item
    case MsgField(f) =>
    case MsgOneof(o) => OneofClear(tokens, gone, o, site);
    case MsgNested(m) =>
      BodyClear(tokens, site);
      ItemsClear(tokens, gone, m.items, BodyOf(site));
    case MsgEnum(e) => EnumClear(tokens, gone, e, site);
    case MsgOther =>
  }

  lemma {:induction false} ItemsClear(tokens: seq<Span>, gone: set<nat>, items: seq<MsgItem>, sites: seq<Site>)
    requires |items| == |sites| && AllClear(tokens, sites)
    requires forall i :: 0 <= i < |items| ==> ItemAt(items[i], sites[i])
    ensures ClearAll(tokens, ItemsDoomed(gone, items))
    decreases items
  {
    if items != [] {
      var n := |items| - 1;
      assert items[n] in items;
      ItemClear(tokens, gone, items[n], sites[n]);
      ItemsClear(tokens, gone, items[..n], sites[..n]);
    }
  }

  lemma {:induction false} FileClear(tokens: seq<Span>, gone: set<nat>, items: seq<Item>, sites: seq<Site>)
    requires |items| == |sites| && AllClear(tokens, sites)
    requires forall i :: 0 <= i < |items| ==> TopAt(items[i], sites[i])
    ensures ClearAll(tokens, FileDoomed(gone, items))
  {
    if items != [] {
      var n := |items| - 1;
      FileClear(tokens, gone, items[..n], sites[..n]);
      match items[n]
      case TopService(s) => ServiceClear(tokens, gone, s, sites[n]);
      case TopImport(meta, _) =>
      case _ => ItemClear(tokens, gone, AsMember(items[n]), sites[n]);
    }
  }

  /** If no leading comment stands before the token before its node, every selection is deleted exactly. */
  lemma ClearIsExact(text: string, src: Source, c: L.Cursor, items: seq<Item>, gone: set<nat>)
    requires src.limit == |text| && ParsedFrom(src, c, items) && AllClear(src.tokens, SitesOf(src, c))
    ensures Exact(src.tokens, gone, items)
  {
    ParsedFits(text, src, c, items);
    FileClear(src.tokens, gone, items, SitesOf(src, c));
    forall meta, k: nat | meta in FileDoomed(gone, items) && k < meta.lo && k < |src.tokens|
      ensures src.tokens[k].end <= Extent(meta).start
    {
      assert Clear(src.tokens, meta) && src.tokens[k].end <= src.tokens[meta.lo - 1].end;
    }
    DeletionIsExact(text, src.tokens, gone, items);
  }

  /** Deleting is exact in every source whose comments stand between its items and that has no empty statements. */
  lemma TidyIsExact(text: string, src: Source, c: L.Cursor, items: seq<Item>, gone: set<nat>)
    requires src.limit == |text| && ParsedFrom(src, c, items) && S.Tidy(c.groups)
    ensures Exact(src.tokens, gone, items)
  {
    RunIsClear(src, c);
    ClearIsExact(text, src, c, items, gone);
  }
}
