/** The pruned text, token by token.

  Which characters the visitor deletes and what it inserts is the matter of
  modules PrunedText and InsertedText; what becomes of a file when statements
  are cut out of its tokens, that of modules PrunedTree and PrunedParse. Here
  the two meet: the tokens that are left in the text, with those of the
  inserted texts, parse to the pruned tree.
 */
module PrunedTokens {
  import opened Symbols
  import opened Syntax
  import opened TextFormat
  import opened Grammar
  import opened GrammarRoundTrip
  import opened Edits
  import opened PrunedTree
  import opened PrunedParse
  import opened InsertedText
  import opened Weaving
  import opened Knots
  import P = Pruner
  import T = PrunedText

  // ---- the nodes as knots -----------------------------------------------------------------------------

  function Strung(gone: set<nat>, meta: P.Meta): (v: Knot) {
    Strand(meta.lo, meta.hi, meta.id in gone)
  }

  function OneofKnot(gone: set<nat>, o: P.Oneof): (v: Knot) {
    Bundle(o.meta.lo, o.meta.hi, P.GoesWhole(gone, o),
           seq(|o.items|, i requires 0 <= i < |o.items| =>
             if o.items[i].Member? then Strung(gone, o.items[i].field.meta) else Loose), [])
  }

  ghost function ValueKnot(gone: set<nat>, items: seq<P.EnumItem>, item: P.EnumItem): (v: Knot) {
    match item
    case Value(f) => Strung(gone, f.meta)
    case EnumOption(meta, _) => Strand(meta.lo, meta.hi, T.SwitchGoes(gone, items) && P.IsSwitch(item))
    case EnumReserved => Loose
  }

  ghost function EnumKnot(gone: set<nat>, e: P.Enum): (v: Knot) {
    Bundle(e.meta.lo, e.meta.hi, e.meta.id in gone,
           seq(|e.items|, i requires 0 <= i < |e.items| => ValueKnot(gone, e.items, e.items[i])),
           RangesOf(P.SortInts(P.EnumReserves(gone, e.items))))
  }

  function ServiceKnot(gone: set<nat>, s: P.Service): (v: Knot) {
    Bundle(s.meta.lo, s.meta.hi, s.meta.id in gone,
           seq(|s.items|, i requires 0 <= i < |s.items| =>
             if s.items[i].Rpc? then Strung(gone, s.items[i].meta) else Loose), [])
  }

  ghost function MessageKnot(gone: set<nat>, m: P.Message): (v: Knot)
    decreases m
  {
    Bundle(m.meta.lo, m.meta.hi, m.meta.id in gone,
           seq(|m.items|, i requires 0 <= i < |m.items| => ItemKnot(gone, m.items[i])),
           RangesOf(P.SortInts(P.Numbers(P.Lost(gone, P.DirectFields(m.items))))))
  }

  ghost function ItemKnot(gone: set<nat>, item: P.MsgItem): (v: Knot)
    decreases item
  {
    match item
    case MsgField(f) => Strung(gone, f.meta)
    case MsgOneof(o) => OneofKnot(gone, o)
    case MsgNested(m) => MessageKnot(gone, m)
    case MsgEnum(e) => EnumKnot(gone, e)
    case MsgOther => Loose
  }

  ghost function TopKnot(gone: set<nat>, item: P.Item): (v: Knot) {
    match item
    case TopMessage(m) => MessageKnot(gone, m)
    case TopEnum(e) => EnumKnot(gone, e)
    case TopService(s) => ServiceKnot(gone, s)
    case TopImport(meta, survives) => Strand(meta.lo, meta.hi, !survives)
    case TopOther => Loose
  }

  ghost function FileKnots(gone: set<nat>, items: seq<P.Item>): (r: seq<Knot>) {
    seq(|items|, i requires 0 <= i < |items| => TopKnot(gone, items[i]))
  }

  // ---- the knots are cut as the visitor cuts -----------------------------------------------------------

  lemma {:induction false} OneofIsCut(gone: set<nat>, o: P.Oneof)
    ensures CutOf(OneofKnot(gone, o)) == OneofCut(gone, o)
  {
    if !P.GoesWhole(gone, o) {
      CutsAre(OneofKnot(gone, o).kids, OneofCut(gone, o).cuts);
    }
  }

  lemma {:induction false} EnumIsCut(gone: set<nat>, e: P.Enum)
    ensures CutOf(EnumKnot(gone, e)) == EnumCut(gone, e)
  {
    if e.meta.id !in gone {
      CutsAre(EnumKnot(gone, e).kids, EnumCut(gone, e).cuts);
    }
  }

  lemma {:induction false} ServiceIsCut(gone: set<nat>, s: P.Service)
    ensures CutOf(ServiceKnot(gone, s)) == ServiceCut(gone, s)
  {
    if s.meta.id !in gone {
      CutsAre(ServiceKnot(gone, s).kids, ServiceCut(gone, s).cuts);
    }
  }

  lemma {:induction false} MessageIsCut(gone: set<nat>, m: P.Message)
    ensures CutOf(MessageKnot(gone, m)) == MessageCut(gone, m)
    decreases m
  {
    if m.meta.id !in gone {
      var kids, cuts := MessageKnot(gone, m).kids, MessageCut(gone, m).cuts;
      forall i | 0 <= i < |kids| ensures CutOf(kids[i]) == cuts[i] {
        ItemIsCut(gone, m.items[i]);
      }
      CutsAre(kids, cuts);
    }
  }

  lemma {:induction false} ItemIsCut(gone: set<nat>, item: P.MsgItem)
    ensures CutOf(ItemKnot(gone, item)) == ItemCut(gone, item)
    decreases item
  {
    match item
    case MsgField(f) =>
    case MsgOneof(o) => OneofIsCut(gone, o);
    case MsgNested(m) => MessageIsCut(gone, m);
    case MsgEnum(e) => EnumIsCut(gone, e);
    case MsgOther =>
  }

  lemma {:induction false} FileIsCut(gone: set<nat>, items: seq<P.Item>)
    ensures CutsOf(FileKnots(gone, items)) == FileCuts(gone, items)
  {
    var vs, cuts := FileKnots(gone, items), FileCuts(gone, items);
    forall i | 0 <= i < |vs| ensures CutOf(vs[i]) == cuts[i] {
      match items[i]
      case TopMessage(m) => MessageIsCut(gone, m);
      case TopEnum(e) => EnumIsCut(gone, e);
      case TopService(s) => ServiceIsCut(gone, s);
      case TopImport(_, _) =>
      case TopOther =>
    }
    CutsAre(vs, cuts);
  }

  // ---- the same tokens go -----------------------------------------------------------------------------

  lemma {:induction false} MemberHas(items: seq<P.OneofItem>, f: P.Field)
    ensures f in P.Members(items) <==> exists i :: 0 <= i < |items| && items[i] == P.Member(f)
  {
    if items != [] {
      MemberHas(items[..|items| - 1], f);
      assert items[..|items| - 1] + [items[|items| - 1]] == items;
    }
  }

  lemma {:induction false} ValueHas(items: seq<P.EnumItem>, f: P.Field)
    ensures f in P.Values(items) <==> exists i :: 0 <= i < |items| && items[i] == P.Value(f)
  {
    if items != [] {
      ValueHas(items[..|items| - 1], f);
      assert items[..|items| - 1] + [items[|items| - 1]] == items;
    }
  }

  lemma {:induction false} SwitchHas(items: seq<P.EnumItem>, meta: P.Meta)
    ensures meta in P.Switches(items)
      <==> exists i :: 0 <= i < |items| && P.IsSwitch(items[i]) && items[i].meta == meta
  {
    if items != [] {
      SwitchHas(items[..|items| - 1], meta);
      assert items[..|items| - 1] + [items[|items| - 1]] == items;
    }
  }

  lemma {:induction false} OneofKidsGo(gone: set<nat>, o: P.Oneof, k: nat)
    ensures SomeGoes(OneofKnot(gone, o).kids, k) <==> T.LostHas(gone, P.Members(o.items), k)
  {
    var kids := OneofKnot(gone, o).kids;
    SomeGoesAt(kids, k);
    if i :| 0 <= i < |kids| && Goes(kids[i], k) {
      MemberHas(o.items, o.items[i].field);
    }
    if f :| f in P.Members(o.items) && f.meta.id in gone && T.Has(f.meta, k) {
      MemberHas(o.items, f);
      var i :| 0 <= i < |o.items| && o.items[i] == P.Member(f);
      assert Goes(kids[i], k);
    }
  }

  lemma {:induction false} EnumKidsGo(gone: set<nat>, e: P.Enum, k: nat)
    ensures SomeGoes(EnumKnot(gone, e).kids, k)
      <==> T.LostHas(gone, P.Values(e.items), k)
           || (T.SwitchGoes(gone, e.items) && T.SomeHas(P.Switches(e.items), k))
  {
    var kids := EnumKnot(gone, e).kids;
    SomeGoesAt(kids, k);
    if i :| 0 <= i < |kids| && Goes(kids[i], k) {
      EnumKidGoes(gone, e.items, i, k);
    }
    if T.LostHas(gone, P.Values(e.items), k) {
      var i := ValueGoes(gone, e.items, k);
      assert Goes(kids[i], k);
    }
    if T.SwitchGoes(gone, e.items) && T.SomeHas(P.Switches(e.items), k) {
      var i := SwitchKnotGoes(gone, e.items, k);
      assert Goes(kids[i], k);
    }
  }

  lemma {:induction false} EnumKidGoes(gone: set<nat>, items: seq<P.EnumItem>, i: nat, k: nat)
    requires i < |items| && Goes(ValueKnot(gone, items, items[i]), k)
    ensures T.LostHas(gone, P.Values(items), k) || (T.SwitchGoes(gone, items) && T.SomeHas(P.Switches(items), k))
  {
    match items[i]
    case Value(f) => ValueHas(items, f);
    case EnumOption(meta, _) => SwitchHas(items, meta);
  }

  lemma {:induction false} ValueGoes(gone: set<nat>, items: seq<P.EnumItem>, k: nat) returns (i: nat)
    requires T.LostHas(gone, P.Values(items), k)
    ensures i < |items| && Goes(ValueKnot(gone, items, items[i]), k)
  {
    var f :| f in P.Values(items) && f.meta.id in gone && T.Has(f.meta, k);
    ValueHas(items, f);
    i :| 0 <= i < |items| && items[i] == P.Value(f);
  }

  lemma {:induction false} SwitchKnotGoes(gone: set<nat>, items: seq<P.EnumItem>, k: nat) returns (i: nat)
    requires T.SwitchGoes(gone, items) && T.SomeHas(P.Switches(items), k)
    ensures i < |items| && Goes(ValueKnot(gone, items, items[i]), k)
  {
    var meta :| meta in P.Switches(items) && T.Has(meta, k);
    SwitchHas(items, meta);
    i :| 0 <= i < |items| && P.IsSwitch(items[i]) && items[i].meta == meta;
  }

  lemma {:induction false} ServiceKidsGo(gone: set<nat>, s: P.Service, k: nat)
    ensures SomeGoes(ServiceKnot(gone, s).kids, k)
      <==> exists item :: item in s.items && P.IsLostRpc(gone, item) && T.Has(item.meta, k)
  {
    var kids := ServiceKnot(gone, s).kids;
    SomeGoesAt(kids, k);
    if i :| 0 <= i < |kids| && Goes(kids[i], k) {
      assert s.items[i] in s.items;
    }
    if item :| item in s.items && P.IsLostRpc(gone, item) && T.Has(item.meta, k) {
      var i :| 0 <= i < |s.items| && s.items[i] == item;
      assert Goes(kids[i], k);
    }
  }

  lemma {:induction false} MessageKidsGo(tokens: seq<P.Span>, limit: nat, gone: set<nat>, m: P.Message, k: nat)
    requires T.MessagePlaced(tokens, limit, m)
    ensures SomeGoes(MessageKnot(gone, m).kids, k) <==> T.ItemsGo(gone, m.items, k)
    decreases m
  {
    var kids := MessageKnot(gone, m).kids;
    SomeGoesAt(kids, k);
    forall i | 0 <= i < |m.items| ensures Goes(kids[i], k) <==> T.ItemGoes(gone, m.items[i], k) {
      PlacedAt(tokens, limit, m.items, m.meta.lo + 1, m.meta.hi - 1, i);
      ItemGoesToo(tokens, limit, gone, m.items[i], k);
    }
    if i :| 0 <= i < |kids| && Goes(kids[i], k) {
      assert T.ItemGoes(gone, m.items[i], k);
    }
    if i :| 0 <= i < |m.items| && T.ItemGoes(gone, m.items[i], k) {
      assert Goes(kids[i], k);
    }
  }

  lemma {:induction false} PlacedAt(tokens: seq<P.Span>, limit: nat, items: seq<P.MsgItem>, lo: int, hi: int, i: nat)
    requires T.ItemsPlaced(tokens, limit, items, lo, hi) && i < |items|
    ensures T.ItemPlaced(tokens, limit, items[i])
  {
    var last := items[|items| - 1];
    if i < |items| - 1 {
      var meta := T.ItemMeta(last);
      PlacedAt(tokens, limit, items[..|items| - 1], lo, if meta.Some? then meta.value.lo else hi, i);
    }
  }

  lemma {:induction false} ItemGoesToo(tokens: seq<P.Span>, limit: nat, gone: set<nat>, item: P.MsgItem, k: nat)
    requires T.ItemPlaced(tokens, limit, item)
    ensures Goes(ItemKnot(gone, item), k) <==> T.ItemGoes(gone, item, k)
    decreases item
  {
    if T.ItemGoes(gone, item, k) {
      T.GoesInside(tokens, limit, gone, item, k);
    }
    match item
    case MsgField(f) =>
    case MsgOneof(o) => OneofKidsGo(gone, o, k);
    case MsgNested(m) => MessageKidsGo(tokens, limit, gone, m, k);
    case MsgEnum(e) => EnumKidsGo(gone, e, k);
    case MsgOther =>
  }

  lemma {:induction false} TopGoesToo(tokens: seq<P.Span>, limit: nat, gone: set<nat>, item: P.Item, k: nat)
    requires T.TopPlaced(tokens, limit, item)
    ensures Goes(TopKnot(gone, item), k) <==> T.TopGoes(gone, item, k)
  {
    match item
    case TopService(s) =>
      ServiceKidsGo(gone, s, k);
      if T.TopGoes(gone, item, k) {
        T.TopGoesInside(tokens, limit, gone, item, k);
      }
    case TopImport(_, _) =>
    case _ => ItemGoesToo(tokens, limit, gone, T.AsMember(item), k);
  }

  lemma {:induction false} TopPlacedAt(tokens: seq<P.Span>, limit: nat, items: seq<P.Item>, lo: int, hi: int, i: nat)
    requires T.FilePlaced(tokens, limit, items, lo, hi) && i < |items|
    ensures T.TopPlaced(tokens, limit, items[i])
  {
    if i < |items| - 1 {
      TopPlacedAt(tokens, limit, items[..|items| - 1], lo, T.Before(items[|items| - 1], hi), i);
    }
  }

  lemma {:induction false} FileGoesToo(tokens: seq<P.Span>, limit: nat, gone: set<nat>, items: seq<P.Item>, k: nat)
    requires T.FilePlaced(tokens, limit, items, 0, |tokens|)
    ensures SomeGoes(FileKnots(gone, items), k) <==> T.FileGoes(gone, items, k)
  {
    var vs := FileKnots(gone, items);
    SomeGoesAt(vs, k);
    forall i | 0 <= i < |items| ensures Goes(vs[i], k) <==> T.TopGoes(gone, items[i], k) {
      TopPlacedAt(tokens, limit, items, 0, |tokens|, i);
      TopGoesToo(tokens, limit, gone, items[i], k);
    }
    if i :| 0 <= i < |vs| && Goes(vs[i], k) {
      assert T.TopGoes(gone, items[i], k);
    }
    if i :| 0 <= i < |items| && T.TopGoes(gone, items[i], k) {
      assert Goes(vs[i], k);
    }
  }

  // ---- the same scopes reserve ---------------------------------------------------------------------------

  lemma {:induction false} OneReserves(vs: seq<Knot>, i: nat, k: nat, ranges: seq<Range>)
    requires i < |vs| && Reserves(vs[i], k, ranges)
    ensures SomeReserves(vs, k, ranges)
  {
    SomeReservesAt(vs, k, ranges);
  }

  lemma {:induction false} MemberReserves(gone: set<nat>, m: P.Message, i: nat, k: nat, ranges: seq<Range>)
    requires m.meta.id !in gone && i < |m.items| && Reserves(ItemKnot(gone, m.items[i]), k, ranges)
    ensures Reserves(MessageKnot(gone, m), k, ranges)
  {
    OneReserves(MessageKnot(gone, m).kids, i, k, ranges);
  }

  /** The scope keeps its place among the members of the message. */
  lemma {:induction false} HoldsToo(gone: set<nat>, item: P.MsgItem, meta: P.Meta, ns: seq<int>, k: nat,
      ranges: seq<Range>)
    requires T.ItemHolds(gone, item, meta, ns) && meta.hi == k + 1 && ranges == RangesOf(P.SortInts(ns))
    ensures Reserves(ItemKnot(gone, item), k, ranges)
    decreases item
  {
    if item.MsgNested? && T.ItemsHold(gone, item.message.items, meta, ns) {
      var i :| 0 <= i < |item.message.items| && T.ItemHolds(gone, item.message.items[i], meta, ns);
      HoldsToo(gone, item.message.items[i], meta, ns, k, ranges);
      MemberReserves(gone, item.message, i, k, ranges);
    }
  }

  ghost predicate Held(gone: set<nat>, item: P.MsgItem, k: nat, ranges: seq<Range>) {
    exists meta, ns :: HeldBy(gone, item, meta, ns, k, ranges)
  }

  ghost predicate HeldBy(gone: set<nat>, item: P.MsgItem, meta: P.Meta, ns: seq<int>, k: nat, ranges: seq<Range>) {
    T.ItemHolds(gone, item, meta, ns) && meta.hi == k + 1 && ranges == RangesOf(P.SortInts(ns))
  }

  lemma {:induction false} OnlyHeld(gone: set<nat>, item: P.MsgItem, k: nat, ranges: seq<Range>)
    requires Reserves(ItemKnot(gone, item), k, ranges) && ranges != []
    ensures Held(gone, item, k, ranges)
    decreases item
  {
    match item
    case MsgOneof(o) =>
      NoneReserve(OneofKnot(gone, o).kids, k, ranges);
      assert false;
    case MsgEnum(e) =>
      NoneReserve(EnumKnot(gone, e).kids, k, ranges);
      assert HeldBy(gone, item, e.meta, P.EnumReserves(gone, e.items), k, ranges);
    case MsgNested(m) =>
      var v := MessageKnot(gone, m);
      if SomeReserves(v.kids, k, ranges) {
        SomeReservesAt(v.kids, k, ranges);
        var i :| 0 <= i < |v.kids| && Reserves(v.kids[i], k, ranges);
        OnlyHeld(gone, m.items[i], k, ranges);
        var meta, ns :| HeldBy(gone, m.items[i], meta, ns, k, ranges);
        assert T.ItemsHold(gone, m.items, meta, ns);
        assert HeldBy(gone, item, meta, ns, k, ranges);
      } else {
        assert HeldBy(gone, item, m.meta, P.Numbers(P.Lost(gone, P.DirectFields(m.items))), k, ranges);
      }
  }

  lemma {:induction false} NoneReserve(vs: seq<Knot>, k: nat, ranges: seq<Range>)
    requires forall i :: 0 <= i < |vs| ==> !vs[i].Bundle?
    ensures !SomeReserves(vs, k, ranges)
  {
    SomeReservesAt(vs, k, ranges);
  }

  lemma {:induction false} FileHoldsToo(gone: set<nat>, items: seq<P.Item>, meta: P.Meta, ns: seq<int>, k: nat,
      ranges: seq<Range>)
    requires T.FileHolds(gone, items, meta, ns) && meta.hi == k + 1 && ranges == RangesOf(P.SortInts(ns))
    ensures SomeReserves(FileKnots(gone, items), k, ranges)
  {
    var i :| 0 <= i < |items| && T.ItemHolds(gone, T.AsMember(items[i]), meta, ns);
    HoldsToo(gone, T.AsMember(items[i]), meta, ns, k, ranges);
    TopReserves(gone, items, i, k, ranges);
  }

  lemma {:induction false} TopReserves(gone: set<nat>, items: seq<P.Item>, i: nat, k: nat, ranges: seq<Range>)
    requires i < |items| && Reserves(ItemKnot(gone, T.AsMember(items[i])), k, ranges)
    ensures SomeReserves(FileKnots(gone, items), k, ranges)
  {
    OneReserves(FileKnots(gone, items), i, k, ranges);
  }

  ghost predicate FileHeldBy(gone: set<nat>, items: seq<P.Item>, meta: P.Meta, ns: seq<int>, k: nat,
      ranges: seq<Range>)
  {
    T.FileHolds(gone, items, meta, ns) && meta.hi == k + 1 && ranges == RangesOf(P.SortInts(ns))
  }

  lemma {:induction false} TopOnlyHeld(gone: set<nat>, item: P.Item, k: nat, ranges: seq<Range>)
    requires Reserves(TopKnot(gone, item), k, ranges) && ranges != []
    ensures Held(gone, T.AsMember(item), k, ranges)
  {
    match item
    case TopService(s) =>
      NoneReserve(ServiceKnot(gone, s).kids, k, ranges);
      assert false;
    case TopMessage(m) => OnlyHeld(gone, P.MsgNested(m), k, ranges);
    case TopEnum(e) => OnlyHeld(gone, P.MsgEnum(e), k, ranges);
  }

  lemma {:induction false} FileOnlyHeld(gone: set<nat>, items: seq<P.Item>, k: nat, ranges: seq<Range>)
    returns (meta: P.Meta, ns: seq<int>)
    requires SomeReserves(FileKnots(gone, items), k, ranges) && ranges != []
    ensures FileHeldBy(gone, items, meta, ns, k, ranges)
  {
    var vs := FileKnots(gone, items);
    SomeReservesAt(vs, k, ranges);
    var i :| 0 <= i < |vs| && Reserves(vs[i], k, ranges);
    TopOnlyHeld(gone, items[i], k, ranges);
    meta, ns :| HeldBy(gone, T.AsMember(items[i]), meta, ns, k, ranges);
    assert T.FileHolds(gone, items, meta, ns);
  }

  // ---- what is left in the text -----------------------------------------------------------------------------

  /** The tokens of an inserted text. */
  function TokensIn(text: string): (r: seq<Token>) {
    if CutChars(text).Some? then CutChars(text).value else []
  }

  /** What the text holds of token `k`: the token unless its characters are deleted, behind what is inserted there. */
  function RowOf(ts: seq<Token>, tokens: seq<P.Span>, edits: seq<Edit>, k: nat): (r: seq<Token>)
    requires k < |ts| == |tokens|
  {
    TokensIn(TextsAt(edits, tokens[k].start)) + if Covered(edits, tokens[k].start) then [] else [ts[k]]
  }

  /** The tokens of the edited text, from token `k` of the source on. */
  function LeftFrom(ts: seq<Token>, tokens: seq<P.Span>, edits: seq<Edit>, k: nat): (r: seq<Token>)
    requires |ts| == |tokens|
    decreases |ts| - k
  {
    if k >= |ts| then [] else RowOf(ts, tokens, edits, k) + LeftFrom(ts, tokens, edits, k + 1)
  }

  lemma {:induction false} LeftIsLaid(ts: seq<Token>, tokens: seq<P.Span>, edits: seq<Edit>, rows: seq<seq<Token>>,
      k: nat)
    requires |ts| == |tokens| == |rows| && k <= |ts|
    requires forall i :: k <= i < |rows| ==> rows[i] == RowOf(ts, tokens, edits, i)
    ensures LeftFrom(ts, tokens, edits, k) == Laid(rows[k..], [])
    decreases |ts| - k
  {
    if k < |ts| {
      LeftIsLaid(ts, tokens, edits, rows, k + 1);
      assert rows[k..][0] == rows[k] && rows[k..][1..] == rows[k + 1..];
    }
  }

  /** The nodes of the tree are made of the tokens of their statements. */
  ghost predicate MadeOf(ts: seq<Token>, gone: set<nat>, items: seq<P.Item>) {
    ParseStmts(Top, ts).Ok? && AllStand(FileKnots(gone, items), PiecesOf(Top, ts), 0)
  }

  lemma {:induction false} SortedSame(ns: seq<int>)
    ensures (P.SortInts(ns) == [] <==> ns == []) && (RangesOf(P.SortInts(ns)) == [] <==> ns == [])
  {
    assert multiset(P.SortInts(ns)) == multiset(ns);
    assert |multiset(P.SortInts(ns))| == |P.SortInts(ns)| && |multiset(ns)| == |ns|;
  }

  /** The text inserted before the brace of a scope is read as the statement of its numbers. */
  lemma {:induction false} StatementThere(src: string, tokens: seq<P.Span>, gone: set<nat>, items: seq<P.Item>,
      meta: P.Meta, ns: seq<int>)
    requires T.Parsed(src, tokens, items) && T.FileHolds(gone, items, meta, ns) && ns != []
    ensures T.Braced(tokens, meta)
    ensures TokensIn(TextsAt(P.FileEdits(gone, items), tokens[meta.hi - 1].start))
      == PutAdded(RangesOf(P.SortInts(ns)), [])
  {
    T.ReservedAtBrace(src, tokens, gone, items, meta, ns);
    SortedSame(ns);
    TextIsStatement(P.SortInts(ns), "", []);
    assert P.ReservedText(P.SortInts(ns)) + "" == P.ReservedText(P.SortInts(ns));
  }

  /** Before any other token nothing is inserted. */
  lemma {:induction false} NothingThere(src: string, tokens: seq<P.Span>, gone: set<nat>, items: seq<P.Item>, k: nat)
    requires T.Parsed(src, tokens, items) && k < |tokens|
    requires forall ranges: seq<Range> :: ranges != [] ==> !SomeReserves(FileKnots(gone, items), k, ranges)
    ensures TextsAt(P.FileEdits(gone, items), tokens[k].start) == ""
  {
    var q := tokens[k].start;
    if TextsAt(P.FileEdits(gone, items), q) != "" {
      T.NothingElseInserted(src, tokens, gone, items, q);
      var meta, ns :| T.BraceAt(tokens, gone, items, meta, ns, q);
      FileHoldsToo(gone, items, meta, ns, k, RangesOf(P.SortInts(ns)));
      SortedSame(ns);
      assert false;
    }
  }

  /** The deletions and the inserted text leave of a token what the knots leave of it. */
  lemma {:induction false} RowAgrees(src: string, ts: seq<Token>, tokens: seq<P.Span>, gone: set<nat>,
      items: seq<P.Item>, k: nat, row: seq<Token>)
    requires T.Parsed(src, tokens, items) && k < |ts| == |tokens|
    requires T.ReachesBackOverNothing(tokens, gone, items)
    requires RowFits(FileKnots(gone, items), k, row, ts[k])
    ensures row == RowOf(ts, tokens, P.FileEdits(gone, items), k)
  {
    var vs, edits, q := FileKnots(gone, items), P.FileEdits(gone, items), tokens[k].start;
    FileGoesToo(tokens, |src|, gone, items, k);
    T.DeletionIsExact(src, tokens, gone, items);
    assert T.InToken(tokens, k, q);
    if ranges: seq<Range> :| ranges != [] && SomeReserves(vs, k, ranges) {
      var meta, ns := FileOnlyHeld(gone, items, k, ranges);
      SortedSame(ns);
      StatementThere(src, tokens, gone, items, meta, ns);
    } else {
      NothingThere(src, tokens, gone, items, k);
      assert CutChars("") == Some([]);
      if SomeReserves(vs, k, []) {
        assert PutAdded([], []) + [ts[k]] == [ts[k]];
      }
    }
  }

  lemma {:induction false} RowsAgree(src: string, ts: seq<Token>, tokens: seq<P.Span>, gone: set<nat>,
      items: seq<P.Item>, ps: seq<Piece>)
    requires T.Parsed(src, tokens, items) && |ts| == |tokens| == Sizes(ps)
    requires T.ReachesBackOverNothing(tokens, gone, items) && AllStand(FileKnots(gone, items), ps, 0)
    ensures Suits(ps, CutsOf(FileKnots(gone, items)))
    ensures LeftFrom(ts, tokens, P.FileEdits(gone, items), 0)
      == Laid(Rows(ps, CutsOf(FileKnots(gone, items)), ts), [])
  {
    var vs, edits := FileKnots(gone, items), P.FileEdits(gone, items);
    AllSuit(vs, ps, 0);
    var rows := Rows(ps, CutsOf(vs), ts);
    forall k: nat | k < |ts| ensures rows[k] == RowOf(ts, tokens, edits, k) {
      RowThere(src, ts, tokens, gone, items, ps, k);
    }
    LeftIsLaid(ts, tokens, edits, rows, 0);
    assert rows[0..] == rows;
  }

  lemma {:induction false} RowThere(src: string, ts: seq<Token>, tokens: seq<P.Span>, gone: set<nat>,
      items: seq<P.Item>, ps: seq<Piece>, k: nat)
    requires T.Parsed(src, tokens, items) && |ts| == |tokens| == Sizes(ps) && k < |ts|
    requires T.ReachesBackOverNothing(tokens, gone, items) && AllStand(FileKnots(gone, items), ps, 0)
    requires Suits(ps, CutsOf(FileKnots(gone, items)))
    ensures Rows(ps, CutsOf(FileKnots(gone, items)), ts)[k] == RowOf(ts, tokens, P.FileEdits(gone, items), k)
  {
    var vs := FileKnots(gone, items);
    RowIs(vs, ps, 0, ts, k);
    RowAgrees(src, ts, tokens, gone, items, k, Rows(ps, CutsOf(vs), ts)[k]);
  }

  /** The tokens left in the text are those that the visitor's cuts leave. */
  lemma {:induction false} TextIsCut(src: string, ts: seq<Token>, tokens: seq<P.Span>, gone: set<nat>,
      items: seq<P.Item>)
    requires T.Parsed(src, tokens, items) && |ts| == |tokens| && MadeOf(ts, gone, items)
    requires T.ReachesBackOverNothing(tokens, gone, items)
    requires Fits(ParseStmts(Top, ts).value, FileCuts(gone, items))
    ensures LeftFrom(ts, tokens, P.FileEdits(gone, items), 0) == CutTokens(Top, ts, FileCuts(gone, items), [], [])
  {
    FileIsCut(gone, items);
    FileWoven(ts, FileCuts(gone, items));
    RowsAgree(src, ts, tokens, gone, items, PiecesOf(Top, ts));
  }

  /** The tokens that are left in the text of a pruned file, with those of the inserted statements, parse to the pruned
    tree, if no deletion reaches back over a token that stays. */
  lemma {:induction false} PrunedTextParses(src: string, ts: seq<Token>, tokens: seq<P.Span>, gone: set<nat>,
      items: seq<P.Item>)
    requires T.Parsed(src, tokens, items) && |ts| == |tokens|
    requires ParseFile(ts).Some? && |items| == |ParseFile(ts).value|
    requires forall i :: 0 <= i < |items| ==> MirrorsTop(items[i], ParseFile(ts).value[i])
    requires MadeOf(ts, gone, items) && T.ReachesBackOverNothing(tokens, gone, items)
    ensures Fits(ParseFile(ts).value, FileCuts(gone, items))
    ensures ParseFile(LeftFrom(ts, tokens, P.FileEdits(gone, items), 0))
      == Some(CutTree(ParseFile(ts).value, FileCuts(gone, items)))
  {
    PrunedFileParses(ts, gone, items);
    TextIsCut(src, ts, tokens, gone, items);
  }
}
