/** Which characters go: a deleted node takes its comments along.

  Between the first and the last of its tokens and of its leading and trailing
  comments everything goes, and so does every detached comment below the node.
  Nothing else is deleted.
 */
module DeletedComments {
  import opened Symbols
  import opened Edits
  import opened Pruner
  import opened PrunedText

  // ---- one node ------------------------------------------------------------------------------------

  /** The node itself and the comments right before and behind it. */
  function Parts(meta: Meta): (r: seq<Span>) {
    [meta.span] + meta.leading + meta.trailing
  }

  predicate InSpan(s: Span, p: nat) {
    s.start <= p < s.end
  }

  /** Between the start of a part and the end of a part, or in a detached comment. */
  ghost predicate Taken(meta: Meta, p: nat) {
    || (exists a, b :: a in Parts(meta) && b in Parts(meta) && a.start <= p < b.end)
    || (exists d :: d in meta.detached && InSpan(d, p))
  }

  lemma FirstOfRow(comments: seq<Span>, a: Span)
    requires InRow(comments) && a in comments
    ensures comments[0].start <= a.start && a.end <= comments[|comments| - 1].end
  {
    var i :| 0 <= i < |comments| && comments[i] == a;
  }

  /** The stretch that is deleted runs from the first start to the last end of all parts. */
  lemma ExtentIsHull(tokens: seq<Span>, limit: nat, meta: Meta)
    requires Apart(tokens, limit) && Sound(tokens, limit, meta)
    ensures forall a :: a in Parts(meta) ==> Extent(meta).start <= a.start && a.end <= Extent(meta).end
    ensures exists a :: a in Parts(meta) && a.start == Extent(meta).start
    ensures exists b :: b in Parts(meta) && b.end == Extent(meta).end
  {
    var x := Extent(meta);
    forall a | a in Parts(meta) ensures x.start <= a.start && a.end <= x.end {
      PartInside(tokens, limit, meta, a);
    }
    assert meta.span in Parts(meta);
    assert meta.leading != [] ==> meta.leading[0] in Parts(meta);
    assert meta.trailing != [] ==> meta.trailing[|meta.trailing| - 1] in Parts(meta);
  }

  lemma PartInside(tokens: seq<Span>, limit: nat, meta: Meta, a: Span)
    requires Apart(tokens, limit) && Sound(tokens, limit, meta) && a in Parts(meta)
    ensures Extent(meta).start <= a.start && a.end <= Extent(meta).end
  {
    assert tokens[meta.lo].start < tokens[meta.hi - 1].end;
    if a in meta.leading {
      FirstOfRow(meta.leading, a);
    } else if a in meta.trailing {
      FirstOfRow(meta.trailing, a);
    }
  }

  lemma SpansCovered(spans: seq<Span>, p: nat)
    ensures Covered(SpanEdits(spans), p) <==> exists d :: d in spans && InSpan(d, p)
  {
    var dels := SpanEdits(spans);
    if i :| 0 <= i < |dels| && dels[i].Del? && dels[i].start <= p < dels[i].end {
      assert spans[i] in spans && InSpan(spans[i], p);
    }
    if d :| d in spans && InSpan(d, p) {
      var i :| 0 <= i < |spans| && spans[i] == d;
      assert dels[i].Del?;
    }
  }

  lemma WithinHull(tokens: seq<Span>, limit: nat, meta: Meta, p: nat)
    requires Apart(tokens, limit) && Sound(tokens, limit, meta)
    ensures InSpan(Extent(meta), p) <==> exists a, b :: a in Parts(meta) && b in Parts(meta) && a.start <= p < b.end
  {
    ExtentIsHull(tokens, limit, meta);
  }

  lemma OneDeletion(start: nat, end: nat, p: nat)
    ensures Covered([Del(start, end)], p) <==> start <= p < end
  {
    assert [Del(start, end)][0] == Del(start, end);
  }

  /** The edits of a node delete its parts, what lies between them, and its detached comments. */
  lemma NodeTakes(tokens: seq<Span>, limit: nat, meta: Meta, p: nat)
    requires Apart(tokens, limit) && Sound(tokens, limit, meta)
    ensures Covered(NodeEdits(meta), p) <==> Taken(meta, p)
  {
    var x := Extent(meta);
    CoveredConcat([Del(x.start, x.end)], SpanEdits(meta.detached), p);
    OneDeletion(x.start, x.end, p);
    SpansCovered(meta.detached, p);
    WithinHull(tokens, limit, meta, p);
  }

  // ---- all deleted nodes ------------------------------------------------------------------------------

  ghost predicate SomeTakes(metas: seq<Meta>, p: nat) {
    exists meta :: meta in metas && Taken(meta, p)
  }

  ghost predicate AllSound(tokens: seq<Span>, limit: nat, metas: seq<Meta>) {
    forall meta :: meta in metas ==> Sound(tokens, limit, meta)
  }

  lemma {:induction false} DeletedTake(tokens: seq<Span>, limit: nat, metas: seq<Meta>, p: nat)
    requires Apart(tokens, limit) && AllSound(tokens, limit, metas)
    ensures Covered(DeleteAll(metas), p) <==> SomeTakes(metas, p)
  {
    if metas != [] {
      var init, last := metas[..|metas| - 1], metas[|metas| - 1];
      assert metas == init + [last];
      DeletedTake(tokens, limit, init, p);
      NodeTakes(tokens, limit, last, p);
      CoveredConcat(DeleteAll(init), NodeEdits(last), p);
    }
  }

  lemma SomeTakesConcat(a: seq<Meta>, b: seq<Meta>, p: nat)
    ensures SomeTakes(a + b, p) <==> SomeTakes(a, p) || SomeTakes(b, p)
  {
  }

  lemma SoundConcat(tokens: seq<Span>, limit: nat, a: seq<Meta>, b: seq<Meta>)
    requires AllSound(tokens, limit, a) && AllSound(tokens, limit, b)
    ensures AllSound(tokens, limit, a + b)
  {
  }

  lemma OneTakes(tokens: seq<Span>, limit: nat, meta: Meta, p: nat)
    requires Apart(tokens, limit) && Sound(tokens, limit, meta)
    ensures Covered(NodeEdits(meta), p) <==> SomeTakes([meta], p)
  {
    NodeTakes(tokens, limit, meta, p);
  }

  lemma LostSound(tokens: seq<Span>, limit: nat, gone: set<nat>, fields: seq<Field>)
    requires AllSound(tokens, limit, Metas(fields))
    ensures AllSound(tokens, limit, Metas(Lost(gone, fields)))
  {
    LostMetas(gone, fields, 0);
  }

  lemma OneofTakes(tokens: seq<Span>, limit: nat, gone: set<nat>, o: Oneof, p: nat)
    requires Apart(tokens, limit) && OneofPlaced(tokens, limit, o)
    ensures Covered(OneofEdits(gone, o), p) <==> SomeTakes(OneofDoomed(gone, o), p)
    ensures AllSound(tokens, limit, OneofDoomed(gone, o))
  {
    LostSound(tokens, limit, gone, Members(o.items));
    DeletedTake(tokens, limit, Metas(Lost(gone, Members(o.items))), p);
    OneTakes(tokens, limit, o.meta, p);
  }

  lemma EnumTakes(tokens: seq<Span>, limit: nat, gone: set<nat>, e: Enum, p: nat)
    requires Apart(tokens, limit) && EnumPlaced(tokens, limit, e)
    ensures Covered(EnumEdits(gone, e), p) <==> SomeTakes(EnumDoomed(gone, e), p)
    ensures AllSound(tokens, limit, EnumDoomed(gone, e))
  {
    OneTakes(tokens, limit, e.meta, p);
    if e.meta.id !in gone {
      var values, switches := Metas(Lost(gone, Values(e.items))), SwitchDoomed(gone, e.items);
      LostSound(tokens, limit, gone, Values(e.items));
      DeletedTake(tokens, limit, values, p);
      SwitchTakes(tokens, limit, gone, e, p);
      SomeTakesConcat(values, switches, p);
      SoundConcat(tokens, limit, values, switches);
      CoveredConcat(DeleteAll(values), SwitchEdits(gone, e.items), p);
      CoveredConcat(DeletedInside(gone, e.items), ReserveEdits(e.meta, EnumReserves(gone, e.items)), p);
      ReservesCoverNothing(e.meta, EnumReserves(gone, e.items), p);
    }
  }

  lemma SwitchTakes(tokens: seq<Span>, limit: nat, gone: set<nat>, e: Enum, p: nat)
    requires Apart(tokens, limit) && EnumPlaced(tokens, limit, e)
    ensures Covered(SwitchEdits(gone, e.items), p) <==> SomeTakes(SwitchDoomed(gone, e.items), p)
    ensures AllSound(tokens, limit, SwitchDoomed(gone, e.items))
  {
    DeletedTake(tokens, limit, Switches(e.items), p);
    var lost := Lost(gone, Values(e.items));
    if lost != [] {
      assert lost[0] in lost;
    }
  }

  lemma {:induction false} MessageTakes(tokens: seq<Span>, limit: nat, gone: set<nat>, m: Message, p: nat)
    requires Apart(tokens, limit) && MessagePlaced(tokens, limit, m)
    ensures Covered(MessageEdits(gone, m), p) <==> SomeTakes(MessageDoomed(gone, m), p)
    ensures AllSound(tokens, limit, MessageDoomed(gone, m))
    decreases m
  {
    if m.meta.id in gone {
      OneTakes(tokens, limit, m.meta, p);
    } else {
      var ns := Numbers(Lost(gone, DirectFields(m.items)));
      ItemsTake(tokens, limit, gone, m.items, p, m.meta.lo + 1, m.meta.hi - 1);
      CoveredConcat(ItemsEdits(gone, m.items), ReserveEdits(m.meta, ns), p);
      ReservesCoverNothing(m.meta, ns, p);
    }
  }

  lemma {:induction false} ItemsTake(tokens: seq<Span>, limit: nat, gone: set<nat>, items: seq<MsgItem>, p: nat,
      lo: int, hi: int)
    requires Apart(tokens, limit) && ItemsPlaced(tokens, limit, items, lo, hi)
    ensures Covered(ItemsEdits(gone, items), p) <==> SomeTakes(ItemsDoomed(gone, items), p)
    ensures AllSound(tokens, limit, ItemsDoomed(gone, items))
    decreases items
  {
    if items != [] {
      var init, last := items[..|items| - 1], items[|items| - 1];
      assert last in items;
      ItemsTake(tokens, limit, gone, init, p, lo, if ItemMeta(last).Some? then ItemMeta(last).value.lo else hi);
      ItemTakes(tokens, limit, gone, last, p);
      CoveredConcat(ItemsEdits(gone, init), ItemEdits(gone, last), p);
      SomeTakesConcat(ItemsDoomed(gone, init), ItemDoomed(gone, last), p);
      SoundConcat(tokens, limit, ItemsDoomed(gone, init), ItemDoomed(gone, last));
    }
  }

  lemma {:induction false} ItemTakes(tokens: seq<Span>, limit: nat, gone: set<nat>, item: MsgItem, p: nat)
    requires Apart(tokens, limit) && ItemPlaced(tokens, limit, item)
    ensures Covered(ItemEdits(gone, item), p) <==> SomeTakes(ItemDoomed(gone, item), p)
    ensures AllSound(tokens, limit, ItemDoomed(gone, item))
    decreases item
  {
    match item
    case MsgField(f) => OneTakes(tokens, limit, f.meta, p);
    case MsgOneof(o) => OneofTakes(tokens, limit, gone, o, p);
    case MsgNested(m) => MessageTakes(tokens, limit, gone, m, p);
    case MsgEnum(e) => EnumTakes(tokens, limit, gone, e, p);
    case MsgOther =>
  }

  lemma ServiceTakes(tokens: seq<Span>, limit: nat, gone: set<nat>, s: Service, p: nat)
    requires Apart(tokens, limit) && ServicePlaced(tokens, limit, s)
    ensures Covered(ServiceEdits(gone, s), p) <==> SomeTakes(ServiceDoomed(gone, s), p)
    ensures AllSound(tokens, limit, ServiceDoomed(gone, s))
  {
    var lost := LostRpcs(gone, s.items);
    forall meta | meta in lost ensures Sound(tokens, limit, meta) {
      RpcIn(gone, s.items, meta);
    }
    OneTakes(tokens, limit, s.meta, p);
    DeletedTake(tokens, limit, lost, p);
  }

  lemma TopTakes(tokens: seq<Span>, limit: nat, gone: set<nat>, item: Item, p: nat)
    requires Apart(tokens, limit) && TopPlaced(tokens, limit, item)
    ensures Covered(TopEdits(gone, item), p) <==> SomeTakes(TopDoomed(gone, item), p)
    ensures AllSound(tokens, limit, TopDoomed(gone, item))
  {
    match item
    case TopService(s) => ServiceTakes(tokens, limit, gone, s, p);
    case TopImport(meta, survives) => OneTakes(tokens, limit, meta, p);
    case _ => ItemTakes(tokens, limit, gone, AsMember(item), p);
  }

  lemma {:induction false} FileTakes(tokens: seq<Span>, limit: nat, gone: set<nat>, items: seq<Item>, p: nat, lo: int,
      hi: int)
    requires Apart(tokens, limit) && FilePlaced(tokens, limit, items, lo, hi)
    ensures Covered(FileEdits(gone, items), p) <==> SomeTakes(FileDoomed(gone, items), p)
    ensures AllSound(tokens, limit, FileDoomed(gone, items))
  {
    if items != [] {
      var init, last := items[..|items| - 1], items[|items| - 1];
      FileTakes(tokens, limit, gone, init, p, lo, Before(last, hi));
      TopTakes(tokens, limit, gone, last, p);
      CoveredConcat(FileEdits(gone, init), TopEdits(gone, last), p);
      SomeTakesConcat(FileDoomed(gone, init), TopDoomed(gone, last), p);
      SoundConcat(tokens, limit, FileDoomed(gone, init), TopDoomed(gone, last));
    }
  }

  /** A character of the file is deleted exactly if a deleted node takes it. */
  lemma DeletedExactly(src: string, tokens: seq<Span>, gone: set<nat>, items: seq<Item>, p: nat)
    requires Parsed(src, tokens, items)
    ensures Covered(FileEdits(gone, items), p) <==>
      exists meta :: meta in FileDoomed(gone, items) && Taken(meta, p)
  {
    FileTakes(tokens, |src|, gone, items, p, 0, |tokens|);
  }

  /** Every comment that is attached to a deleted node is deleted. */
  lemma CommentsGo(src: string, tokens: seq<Span>, gone: set<nat>, items: seq<Item>, meta: Meta, comment: Span, p: nat)
    requires Parsed(src, tokens, items) && meta in FileDoomed(gone, items) && InSpan(comment, p)
    requires comment in meta.leading || comment in meta.trailing || comment in meta.detached
    ensures Covered(FileEdits(gone, items), p)
  {
    DeletedExactly(src, tokens, gone, items, p);
    if comment !in meta.detached {
      assert comment in Parts(meta);
    }
    assert Taken(meta, p);
  }
}
