/** What a pruned tree looks like.

  Module PrunedParse computes the pruned tree by cuts. Here it is described
  without them: in every scope the members that survive stay, in their order,
  and the numbers of those that do not are reserved behind them.
 */
module PrunedShape {
  import opened Symbols
  import opened Syntax
  import opened Grammar
  import opened GrammarRoundTrip
  import opened PrunedTree
  import opened PrunedParse
  import opened InsertedText
  import opened PrunedTokens
  import P = Pruner
  import T = PrunedText

  // ---- which members stay -----------------------------------------------------------------------

  predicate Survives(gone: set<nat>, meta: P.Meta) {
    meta.id !in gone
  }

  /** A oneof stays if one of its fields does, or if it has none. */
  predicate OneofStays(gone: set<nat>, o: P.Oneof) {
    || (exists i :: 0 <= i < |o.items| && o.items[i].Member? && Survives(gone, o.items[i].field.meta))
    || (forall i :: 0 <= i < |o.items| ==> !o.items[i].Member?)
  }

  predicate MemberStays(gone: set<nat>, item: P.OneofItem) {
    item.Member? ==> Survives(gone, item.field.meta)
  }

  predicate ItemStays(gone: set<nat>, item: P.MsgItem) {
    match item
    case MsgField(f) => Survives(gone, f.meta)
    case MsgOneof(o) => OneofStays(gone, o)
    case MsgNested(m) => Survives(gone, m.meta)
    case MsgEnum(e) => Survives(gone, e.meta)
    case MsgOther => true
  }

  predicate StayingValue(gone: set<nat>, items: seq<P.EnumItem>, i: int) {
    0 <= i < |items| && items[i].Value? && Survives(gone, items[i].field.meta)
  }

  predicate LostValue(gone: set<nat>, items: seq<P.EnumItem>, i: int) {
    0 <= i < |items| && items[i].Value? && !Survives(gone, items[i].field.meta)
  }

  /** Values were lost, and those that stay have different numbers. */
  ghost predicate AliasesLost(gone: set<nat>, items: seq<P.EnumItem>) {
    && (exists i :: LostValue(gone, items, i))
    && (forall i, j :: i < j && StayingValue(gone, items, i) && StayingValue(gone, items, j) ==>
          items[i].field.number != items[j].field.number)
  }

  /** An `allow_alias` that no value needs any more goes. */
  ghost predicate EnumItemStays(gone: set<nat>, items: seq<P.EnumItem>, item: P.EnumItem) {
    match item
    case Value(f) => Survives(gone, f.meta)
    case EnumOption(_, setting) => !(AllowsAlias(setting) && AliasesLost(gone, items))
    case EnumReserved => true
  }

  predicate TopStays(gone: set<nat>, item: P.Item) {
    match item
    case TopMessage(m) => Survives(gone, m.meta)
    case TopEnum(e) => Survives(gone, e.meta)
    case TopService(s) => Survives(gone, s.meta)
    case TopImport(_, survives) => survives
    case TopOther => true
  }

  // ---- which numbers are reserved -----------------------------------------------------------------

  /** `n` is the number of a field of the message that is lost, of one in a oneof too. */
  ghost predicate NumberLost(gone: set<nat>, items: seq<P.MsgItem>, n: int) {
    exists i :: 0 <= i < |items| && ItemLoses(gone, items[i], n)
  }

  predicate ItemLoses(gone: set<nat>, item: P.MsgItem, n: int) {
    match item
    case MsgField(f) => !Survives(gone, f.meta) && f.number == n
    case MsgOneof(o) =>
      exists i :: 0 <= i < |o.items| && o.items[i].Member? && !Survives(gone, o.items[i].field.meta)
                  && o.items[i].field.number == n
    case _ => false
  }

  /** `n` is the number of a value that is lost and of none that stays. */
  ghost predicate ValueLost(gone: set<nat>, items: seq<P.EnumItem>, n: int) {
    && (exists i :: LostValue(gone, items, i) && items[i].field.number == n)
    && !(exists i :: StayingValue(gone, items, i) && items[i].field.number == n)
  }

  /** The statements, one or none, reserve these numbers, each as a range of its own. */
  predicate Reserving(extra: seq<Stmt>, ns: seq<int>) {
    if ns == [] then extra == []
    else
      && |extra| == 1 && extra[0].RangesStmt? && |extra[0].ranges| == |ns|
      && forall i :: 0 <= i < |ns| ==>
           && extra[0].ranges[i].end.Open?
           && SignedValue(extra[0].ranges[i].start, extra[0].ranges[i].negative) == Some(ns[i])
  }

  // ---- what is left of a scope ------------------------------------------------------------------------

  /** Increasing places below `n`. */
  predicate Places(at: seq<nat>, n: nat) {
    && (forall i :: 0 <= i < |at| ==> at[i] < n)
    && (forall i, j :: 0 <= i < j < |at| ==> at[i] < at[j])
  }

  ghost predicate OneofLeft(gone: set<nat>, o: P.Oneof, s: Stmt, left: Stmt) {
    && s.OneofStmt? && left.OneofStmt? && left.name == s.name && |s.items| == |o.items|
    && exists at: seq<nat> ::
         && Places(at, |o.items|) && |left.items| == |at|
         && (forall i :: 0 <= i < |o.items| ==> (i in at <==> MemberStays(gone, o.items[i])))
         && (forall j :: 0 <= j < |at| ==> left.items[j] == s.items[at[j]])
  }

  ghost predicate ServiceLeft(gone: set<nat>, v: P.Service, s: Stmt, left: Stmt) {
    && s.ServiceStmt? && left.ServiceStmt? && left.name == s.name && |s.items| == |v.items|
    && exists at: seq<nat> ::
         && Places(at, |v.items|) && |left.items| == |at|
         && (forall i :: 0 <= i < |v.items| ==> (i in at <==> (v.items[i].Rpc? ==> Survives(gone, v.items[i].meta))))
         && (forall j :: 0 <= j < |at| ==> left.items[j] == s.items[at[j]])
  }

  /** What is left of a scope that reserves numbers: its members, and the statement behind them. */
  predicate Parts(left: Stmt, members: seq<Stmt>, extra: seq<Stmt>)
    requires IsBlock(left)
  {
    left.items == members + extra
  }

  ghost predicate EnumLeft(gone: set<nat>, e: P.Enum, s: Stmt, left: Stmt) {
    && s.EnumStmt? && left.EnumStmt? && left.name == s.name && |s.items| == |e.items|
    && exists members, extra, at, ns ::
         Parts(left, members, extra) && EnumLeftAt(gone, e, s.items, members, extra, at, ns)
  }

  ghost predicate EnumLeftAt(gone: set<nat>, e: P.Enum, stmts: seq<Stmt>, members: seq<Stmt>, extra: seq<Stmt>,
      at: seq<nat>, ns: seq<int>)
    requires |stmts| == |e.items|
  {
    && Places(at, |e.items|) && |members| == |at|
    && (forall i :: 0 <= i < |e.items| ==> (i in at <==> EnumItemStays(gone, e.items, e.items[i])))
    && (forall j :: 0 <= j < |at| ==> members[j] == stmts[at[j]])
    && T.StrictlyAscending(ns) && (forall n :: n in ns <==> ValueLost(gone, e.items, n)) && Reserving(extra, ns)
  }

  ghost predicate MessageLeft(gone: set<nat>, m: P.Message, s: Stmt, left: Stmt)
    decreases m, 1
  {
    && s.MessageStmt? && left.MessageStmt? && left.name == s.name && |s.items| == |m.items|
    && exists members, extra, at, ns ::
         Parts(left, members, extra) && MessageLeftAt(gone, m, s.items, members, extra, at, ns)
  }

  ghost predicate MessageLeftAt(gone: set<nat>, m: P.Message, stmts: seq<Stmt>, members: seq<Stmt>, extra: seq<Stmt>,
      at: seq<nat>, ns: seq<int>)
    requires |stmts| == |m.items|
    decreases m, 0
  {
    && Places(at, |m.items|) && |members| == |at|
    && (forall i :: 0 <= i < |m.items| ==> (i in at <==> ItemStays(gone, m.items[i])))
    && (forall j :: 0 <= j < |at| ==> ItemLeft(gone, m.items[at[j]], stmts[at[j]], members[j]))
    && P.SortedInts(ns) && (forall n :: n in ns <==> NumberLost(gone, m.items, n)) && Reserving(extra, ns)
  }

  ghost predicate ItemLeft(gone: set<nat>, item: P.MsgItem, s: Stmt, left: Stmt)
    decreases item
  {
    match item
    case MsgField(f) => left == s
    case MsgOneof(o) => OneofLeft(gone, o, s, left)
    case MsgNested(m) => MessageLeft(gone, m, s, left)
    case MsgEnum(e) => EnumLeft(gone, e, s, left)
    case MsgOther => left == s
  }

  ghost predicate TopLeft(gone: set<nat>, item: P.Item, s: Stmt, left: Stmt) {
    match item
    case TopMessage(m) => MessageLeft(gone, m, s, left)
    case TopEnum(e) => EnumLeft(gone, e, s, left)
    case TopService(v) => ServiceLeft(gone, v, s, left)
    case TopImport(_, _) => left == s
    case TopOther => left == s
  }

  /** What is left of a file: the statements that stay, in their order, each without its members that do not. */
  ghost predicate FileLeft(gone: set<nat>, items: seq<P.Item>, stmts: seq<Stmt>, left: seq<Stmt>) {
    && |stmts| == |items|
    && exists at: seq<nat> ::
         && Places(at, |items|) && |left| == |at|
         && (forall i :: 0 <= i < |items| ==> (i in at <==> TopStays(gone, items[i])))
         && (forall j :: 0 <= j < |at| ==> TopLeft(gone, items[at[j]], stmts[at[j]], left[j]))
  }

  // ---- the cuts leave the places that are not gone -------------------------------------------------------

  function Later(at: seq<nat>): (r: seq<nat>) {
    seq(|at|, i requires 0 <= i < |at| => at[i] + 1)
  }

  /** What a cut leaves of a statement. */
  function LeftBy(s: Stmt, c: Cut): (r: seq<Stmt>) {
    if FitsOne(s, c) then CutStmt(s, c) else []
  }

  /** `left` are the statements at the places `at`, those that are not gone, as they were cut. */
  predicate CutTo(items: seq<Stmt>, cuts: seq<Cut>, at: seq<nat>, left: seq<Stmt>) {
    && |items| == |cuts| && Places(at, |items|) && |left| == |at|
    && (forall i :: 0 <= i < |items| ==> (i in at <==> !cuts[i].Gone?))
    && (forall j :: 0 <= j < |at| ==> [left[j]] == LeftBy(items[at[j]], cuts[at[j]]))
  }

  lemma {:induction false} CutPlaces(items: seq<Stmt>, cuts: seq<Cut>) returns (at: seq<nat>)
    requires Fits(items, cuts)
    ensures CutTo(items, cuts, at, CutTree(items, cuts))
  {
    if items == [] {
      at := [];
    } else {
      var rest := CutPlaces(items[1..], cuts[1..]);
      assert FitsOne(items[0], cuts[0]);
      if cuts[0].Gone? {
        at := Later(rest);
        GoneMore(items, cuts, rest, CutTree(items[1..], cuts[1..]));
        assert CutTree(items, cuts) == CutTree(items[1..], cuts[1..]);
      } else {
        at := [0] + Later(rest);
        KeptMore(items, cuts, rest, CutStmt(items[0], cuts[0]), CutTree(items[1..], cuts[1..]));
      }
    }
  }

  lemma {:induction false} LaterHas(at: seq<nat>, i: nat)
    requires i > 0
    ensures i in Later(at) <==> i - 1 in at
  {
    if i - 1 in at {
      var j :| 0 <= j < |at| && at[j] == i - 1;
      assert Later(at)[j] == i;
    }
  }

  lemma {:induction false} GoneMore(items: seq<Stmt>, cuts: seq<Cut>, rest: seq<nat>, left: seq<Stmt>)
    requires items != [] && cuts != [] && cuts[0].Gone? && CutTo(items[1..], cuts[1..], rest, left)
    ensures CutTo(items, cuts, Later(rest), left)
  {
    GonePlaces(cuts, rest);
    forall j | 0 <= j < |rest| ensures [left[j]] == LeftBy(items[Later(rest)[j]], cuts[Later(rest)[j]]) {
      OneLater(items, cuts, rest, left, j);
    }
  }

  lemma {:induction false} GonePlaces(cuts: seq<Cut>, rest: seq<nat>)
    requires cuts != [] && cuts[0].Gone? && Places(rest, |cuts| - 1)
    requires forall i :: 0 <= i < |cuts| - 1 ==> (i in rest <==> !cuts[1..][i].Gone?)
    ensures Places(Later(rest), |cuts|)
    ensures forall i :: 0 <= i < |cuts| ==> (i in Later(rest) <==> !cuts[i].Gone?)
  {
    forall i | 0 <= i < |cuts| ensures i in Later(rest) <==> !cuts[i].Gone? {
      if i > 0 {
        LaterHas(rest, i);
        assert cuts[i] == cuts[1..][i - 1];
      }
    }
  }

  lemma {:induction false} OneLater(items: seq<Stmt>, cuts: seq<Cut>, rest: seq<nat>, left: seq<Stmt>, j: nat)
    requires items != [] && cuts != [] && CutTo(items[1..], cuts[1..], rest, left) && j < |rest|
    ensures rest[j] + 1 < |items| == |cuts| && [left[j]] == LeftBy(items[rest[j] + 1], cuts[rest[j] + 1])
  {
    assert items[rest[j] + 1] == items[1..][rest[j]] && cuts[rest[j] + 1] == cuts[1..][rest[j]];
  }

  lemma {:induction false} KeptMore(items: seq<Stmt>, cuts: seq<Cut>, rest: seq<nat>, first: seq<Stmt>, left: seq<Stmt>)
    requires items != [] && cuts != [] && !cuts[0].Gone? && CutTo(items[1..], cuts[1..], rest, left)
    requires |first| == 1 && first == LeftBy(items[0], cuts[0])
    ensures CutTo(items, cuts, [0] + Later(rest), first + left)
  {
    KeptPlaces(cuts, rest);
    forall j | 0 <= j < |left| + 1
      ensures [(first + left)[j]] == LeftBy(items[([0] + Later(rest))[j]], cuts[([0] + Later(rest))[j]])
    {
      KeptLeft(items, cuts, rest, first, left, j);
    }
  }

  lemma {:induction false} KeptLeft(items: seq<Stmt>, cuts: seq<Cut>, rest: seq<nat>, first: seq<Stmt>, left: seq<Stmt>,
      j: nat)
    requires items != [] && cuts != [] && CutTo(items[1..], cuts[1..], rest, left) && j < |left| + 1
    requires |first| == 1 && first == LeftBy(items[0], cuts[0])
    ensures ([0] + Later(rest))[j] < |items| == |cuts|
    ensures [(first + left)[j]] == LeftBy(items[([0] + Later(rest))[j]], cuts[([0] + Later(rest))[j]])
  {
    if j > 0 {
      OneLater(items, cuts, rest, left, j - 1);
    } else {
      assert [first[0]] == first;
    }
  }

  lemma {:induction false} KeptPlaces(cuts: seq<Cut>, rest: seq<nat>)
    requires cuts != [] && !cuts[0].Gone? && Places(rest, |cuts| - 1)
    requires forall i :: 0 <= i < |cuts| - 1 ==> (i in rest <==> !cuts[1..][i].Gone?)
    ensures Places([0] + Later(rest), |cuts|)
    ensures forall i :: 0 <= i < |cuts| ==> (i in [0] + Later(rest) <==> !cuts[i].Gone?)
  {
    forall i | 0 <= i < |cuts| ensures i in [0] + Later(rest) <==> !cuts[i].Gone? {
      FirstHas(rest, i);
      assert i > 0 ==> cuts[i] == cuts[1..][i - 1];
    }
  }

  lemma {:induction false} FirstHas(rest: seq<nat>, i: nat)
    ensures i in [0] + Later(rest) <==> i == 0 || i - 1 in rest
  {
    var at := [0] + Later(rest);
    assert at[0] == 0 && at[1..] == Later(rest);
    if i > 0 {
      LaterHas(rest, i);
      assert i in at <==> i in at[1..];
    }
  }

  // ---- the visitor's conditions are these -------------------------------------------------------------------

  lemma {:induction false} OneofGoesOr(gone: set<nat>, o: P.Oneof)
    ensures P.GoesWhole(gone, o) <==> !OneofStays(gone, o)
  {
    if i :| 0 <= i < |o.items| && o.items[i].Member? {
      MemberHas(o.items, o.items[i].field);
    }
    if P.Members(o.items) != [] {
      MemberHas(o.items, P.Members(o.items)[0]);
    }
    if i :| 0 <= i < |o.items| && o.items[i].Member? && Survives(gone, o.items[i].field.meta) {
      MemberHas(o.items, o.items[i].field);
    }
    if f :| f in P.Members(o.items) && f.meta.id !in gone {
      MemberHas(o.items, f);
    }
  }

  lemma {:induction false} LostValueHas(gone: set<nat>, items: seq<P.EnumItem>, f: P.Field)
    requires f in P.Values(items) && f.meta.id in gone
    ensures exists i :: LostValue(gone, items, i) && items[i].field.number == f.number
  {
    ValueHas(items, f);
    var i :| 0 <= i < |items| && items[i] == P.Value(f);
    assert LostValue(gone, items, i);
  }

  lemma {:induction false} HasLostValue(gone: set<nat>, items: seq<P.EnumItem>, i: int)
    requires LostValue(gone, items, i)
    ensures items[i].field in P.Values(items) && items[i].field.meta.id in gone
  {
    ValueHas(items, items[i].field);
  }

  lemma {:induction false} SwitchGoesIf(gone: set<nat>, items: seq<P.EnumItem>)
    ensures T.SwitchGoes(gone, items) <==> AliasesLost(gone, items)
  {
    if f :| f in P.Values(items) && f.meta.id in gone {
      LostValueHas(gone, items, f);
    }
    if i :| LostValue(gone, items, i) {
      HasLostValue(gone, items, i);
    }
    forall i ensures StayingValue(gone, items, i) <==> P.KeptAt(gone, items, i) {
    }
  }

  lemma {:induction false} ValuesReserved(gone: set<nat>, items: seq<P.EnumItem>)
    ensures forall n :: n in P.EnumReserves(gone, items) <==> ValueLost(gone, items, n)
  {
    T.EnumReservesExact(gone, items);
    forall n ensures n in P.EnumReserves(gone, items) <==> ValueLost(gone, items, n) {
      if f :| f in P.Values(items) && f.meta.id in gone && f.number == n {
        LostValueHas(gone, items, f);
      }
      if i :| LostValue(gone, items, i) && items[i].field.number == n {
        HasLostValue(gone, items, i);
      }
      forall i ensures StayingValue(gone, items, i) <==> P.KeptAt(gone, items, i) {
      }
    }
  }

  lemma {:induction false} DirectHas(items: seq<P.MsgItem>, f: P.Field)
    ensures f in P.DirectFields(items) <==> exists i :: 0 <= i < |items| && f in P.OwnFields(items[i])
  {
    if items != [] {
      DirectHas(items[..|items| - 1], f);
      assert items[..|items| - 1] + [items[|items| - 1]] == items;
    }
  }

  lemma {:induction false} OwnLost(gone: set<nat>, item: P.MsgItem, n: int)
    ensures ItemLoses(gone, item, n) <==> exists f :: f in P.OwnFields(item) && f.meta.id in gone && f.number == n
  {
    match item
    case MsgField(f) =>
      assert f in P.OwnFields(item);
    case MsgOneof(o) =>
      if f :| f in P.Members(o.items) && f.meta.id in gone && f.number == n {
        MemberHas(o.items, f);
      }
      if i :| 0 <= i < |o.items| && o.items[i].Member? && !Survives(gone, o.items[i].field.meta)
              && o.items[i].field.number == n {
        MemberHas(o.items, o.items[i].field);
        assert o.items[i].field in P.OwnFields(item);
      }
    case _ =>
  }

  lemma {:induction false} NumbersReserved(gone: set<nat>, items: seq<P.MsgItem>, n: int)
    ensures n in P.Numbers(P.Lost(gone, P.DirectFields(items))) <==> NumberLost(gone, items, n)
  {
    var lost := P.Lost(gone, P.DirectFields(items));
    T.NumberIn(lost, n);
    if f :| f in lost && f.number == n {
      DirectHas(items, f);
      var i :| 0 <= i < |items| && f in P.OwnFields(items[i]);
      OwnLost(gone, items[i], n);
    }
    if i :| 0 <= i < |items| && ItemLoses(gone, items[i], n) {
      OwnLost(gone, items[i], n);
      var f :| f in P.OwnFields(items[i]) && f.meta.id in gone && f.number == n;
      DirectHas(items, f);
      assert f in lost;
    }
  }

  // ---- the added statement ----------------------------------------------------------------------------------

  lemma {:induction false} AddedReserves(ns: seq<int>, inEnum: bool)
    requires forall n :: n in ns ==> InRange(n, inEnum)
    ensures Reserving(Added(RangesOf(ns)), ns)
  {
    var rs := RangesOf(ns);
    forall i | 0 <= i < |ns|
      ensures rs[i].end.Open? && SignedValue(rs[i].start, rs[i].negative) == Some(ns[i])
    {
      assert ns[i] in ns;
      RangeMeans(ns[i]);
    }
  }

  lemma {:induction false} EnumAdds(gone: set<nat>, e: P.Enum, s: Stmt)
    requires MirrorsEnum(e, s)
    ensures
      var ns := P.SortInts(P.EnumReserves(gone, e.items));
      && T.StrictlyAscending(ns) && (forall n :: n in ns <==> ValueLost(gone, e.items, n))
      && Reserving(Added(RangesOf(ns)), ns)
  {
    var ns := P.EnumReserves(gone, e.items);
    ValuesInRange(e.items, s.items);
    ValuesReserved(gone, e.items);
    T.EnumReservesExact(gone, e.items);
    P.SortedIsFixed(ns);
    AddedReserves(ns, true);
  }

  lemma {:induction false} MessageAdds(gone: set<nat>, m: P.Message, s: Stmt)
    requires MirrorsMessage(m, s)
    ensures
      var ns := P.SortInts(P.Numbers(P.Lost(gone, P.DirectFields(m.items))));
      && P.SortedInts(ns) && (forall n :: n in ns <==> NumberLost(gone, m.items, n))
      && Reserving(Added(RangesOf(ns)), ns)
  {
    var lost := P.Lost(gone, P.DirectFields(m.items));
    var ns := P.SortInts(P.Numbers(lost));
    FieldsInRange(m.items, s.items);
    forall n ensures n in ns <==> NumberLost(gone, m.items, n) {
      NumbersReserved(gone, m.items, n);
      assert n in ns <==> n in multiset(ns);
      assert n in P.Numbers(lost) <==> n in multiset(P.Numbers(lost));
    }
    forall n | n in ns ensures InRange(n, false) {
      assert n in multiset(ns);
      assert n in multiset(P.Numbers(lost));
      T.NumberIn(lost, n);
    }
    AddedReserves(ns, false);
  }

  // ---- the pruned tree has this shape --------------------------------------------------------------------------

  lemma {:induction false} OneofShape(gone: set<nat>, o: P.Oneof, s: Stmt, left: Stmt)
    requires MirrorsOneof(o, s) && [left] == LeftBy(s, OneofCut(gone, o))
    ensures OneofLeft(gone, o, s, left)
  {
    var cuts := OneofCut(gone, o).cuts;
    var at := CutPlaces(s.items, cuts);
    assert CutTree(s.items, cuts) + Added([]) == CutTree(s.items, cuts);
    assert left == [left][0];
    WholeAt(s.items, cuts, at, left.items);
  }

  /** Members without a scope stay as they are. */
  lemma {:induction false} WholeAt(items: seq<Stmt>, cuts: seq<Cut>, at: seq<nat>, left: seq<Stmt>)
    requires CutTo(items, cuts, at, left) && forall i :: 0 <= i < |cuts| ==> !cuts[i].Inside?
    ensures forall j :: 0 <= j < |at| ==> left[j] == items[at[j]]
  {
    forall j | 0 <= j < |at| ensures left[j] == items[at[j]] {
      assert at[j] in at;
      assert [left[j]][0] == [items[at[j]]][0];
    }
  }

  lemma {:induction false} ServiceShape(gone: set<nat>, v: P.Service, s: Stmt, left: Stmt)
    requires MirrorsService(v, s) && [left] == LeftBy(s, ServiceCut(gone, v))
    ensures ServiceLeft(gone, v, s, left)
  {
    var cuts := ServiceCut(gone, v).cuts;
    var at := CutPlaces(s.items, cuts);
    assert CutTree(s.items, cuts) + Added([]) == CutTree(s.items, cuts);
    assert left == [left][0];
    WholeAt(s.items, cuts, at, left.items);
  }

  lemma {:induction false} EnumShape(gone: set<nat>, e: P.Enum, s: Stmt, left: Stmt)
    requires MirrorsEnum(e, s) && [left] == LeftBy(s, EnumCut(gone, e))
    ensures EnumLeft(gone, e, s, left)
  {
    var cuts, ns := EnumCut(gone, e).cuts, P.SortInts(P.EnumReserves(gone, e.items));
    var at := CutPlaces(s.items, cuts);
    assert left == [left][0];
    EnumAdds(gone, e, s);
    EnumPlaces(gone, e, s, cuts, at, CutTree(s.items, cuts));
    assert Parts(left, CutTree(s.items, cuts), Added(RangesOf(ns)));
    assert EnumLeftAt(gone, e, s.items, CutTree(s.items, cuts), Added(RangesOf(ns)), at, ns);
  }

  lemma {:induction false} EnumPlaces(gone: set<nat>, e: P.Enum, s: Stmt, cuts: seq<Cut>, at: seq<nat>,
      members: seq<Stmt>)
    requires MirrorsEnum(e, s) && CutTo(s.items, cuts, at, members)
    requires cuts == seq(|e.items|, i requires 0 <= i < |e.items| => ValueCut(gone, e.items, e.items[i]))
    ensures forall i :: 0 <= i < |e.items| ==> (i in at <==> EnumItemStays(gone, e.items, e.items[i]))
    ensures forall j :: 0 <= j < |at| ==> members[j] == s.items[at[j]]
  {
    WholeAt(s.items, cuts, at, members);
    forall i | 0 <= i < |e.items| ensures i in at <==> EnumItemStays(gone, e.items, e.items[i]) {
      ValueGoneOr(gone, e.items, i);
    }
  }

  lemma {:induction false} ValueGoneOr(gone: set<nat>, items: seq<P.EnumItem>, i: nat)
    requires i < |items|
    ensures ValueCut(gone, items, items[i]).Gone? <==> !EnumItemStays(gone, items, items[i])
  {
    SwitchGoesIf(gone, items);
  }

  lemma {:induction false} ItemGoneOr(gone: set<nat>, item: P.MsgItem)
    ensures ItemCut(gone, item).Gone? <==> !ItemStays(gone, item)
  {
    if item.MsgOneof? {
      OneofGoesOr(gone, item.oneof);
    }
  }

  lemma {:induction false} MessageShape(gone: set<nat>, m: P.Message, s: Stmt, left: Stmt)
    requires MirrorsMessage(m, s) && [left] == LeftBy(s, MessageCut(gone, m))
    ensures MessageLeft(gone, m, s, left)
    decreases m
  {
    var cuts, ns := MessageCut(gone, m).cuts, P.SortInts(P.Numbers(P.Lost(gone, P.DirectFields(m.items))));
    var at := CutPlaces(s.items, cuts);
    var members, extra := CutTree(s.items, cuts), Added(RangesOf(ns));
    assert left == [left][0];
    MessageAdds(gone, m, s);
    MessagePlaces(gone, m, s, cuts, at, members);
    forall j | 0 <= j < |at| ensures ItemLeft(gone, m.items[at[j]], s.items[at[j]], members[j]) {
      ItemShape(gone, m.items[at[j]], s.items[at[j]], members[j]);
    }
    assert Parts(left, members, extra) && MessageLeftAt(gone, m, s.items, members, extra, at, ns);
  }

  lemma {:induction false} MessagePlaces(gone: set<nat>, m: P.Message, s: Stmt, cuts: seq<Cut>, at: seq<nat>,
      members: seq<Stmt>)
    requires MirrorsMessage(m, s) && CutTo(s.items, cuts, at, members)
    requires cuts == seq(|m.items|, i requires 0 <= i < |m.items| => ItemCut(gone, m.items[i]))
    ensures forall i :: 0 <= i < |m.items| ==> (i in at <==> ItemStays(gone, m.items[i]))
    ensures forall j :: 0 <= j < |at| ==> [members[j]] == LeftBy(s.items[at[j]], ItemCut(gone, m.items[at[j]]))
  {
    forall i | 0 <= i < |m.items| ensures i in at <==> ItemStays(gone, m.items[i]) {
      ItemGoneOr(gone, m.items[i]);
    }
    forall j | 0 <= j < |at| ensures [members[j]] == LeftBy(s.items[at[j]], ItemCut(gone, m.items[at[j]])) {
      assert cuts[at[j]] == ItemCut(gone, m.items[at[j]]);
    }
  }

  lemma {:induction false} ItemShape(gone: set<nat>, item: P.MsgItem, s: Stmt, left: Stmt)
    requires Mirrors(item, s) && [left] == LeftBy(s, ItemCut(gone, item))
    ensures ItemLeft(gone, item, s, left)
    decreases item
  {
    assert left == [left][0];
    match item
    case MsgField(f) =>
    case MsgOneof(o) => OneofShape(gone, o, s, left);
    case MsgNested(m) => MessageShape(gone, m, s, left);
    case MsgEnum(e) => EnumShape(gone, e, s, left);
    case MsgOther =>
  }

  lemma {:induction false} TopShape(gone: set<nat>, item: P.Item, s: Stmt, left: Stmt)
    requires MirrorsTop(item, s) && [left] == LeftBy(s, TopCut(gone, item))
    ensures TopLeft(gone, item, s, left)
  {
    assert left == [left][0];
    match item
    case TopMessage(m) => MessageShape(gone, m, s, left);
    case TopEnum(e) => EnumShape(gone, e, s, left);
    case TopService(v) => ServiceShape(gone, v, s, left);
    case TopImport(_, _) =>
    case TopOther =>
  }

  lemma {:induction false} FileShape(gone: set<nat>, items: seq<P.Item>, stmts: seq<Stmt>)
    requires |stmts| == |items| && forall i :: 0 <= i < |items| ==> MirrorsTop(items[i], stmts[i])
    requires Fits(stmts, FileCuts(gone, items))
    ensures FileLeft(gone, items, stmts, CutTree(stmts, FileCuts(gone, items)))
  {
    var cuts := FileCuts(gone, items);
    var at := CutPlaces(stmts, cuts);
    var left := CutTree(stmts, cuts);
    forall j | 0 <= j < |at| ensures TopLeft(gone, items[at[j]], stmts[at[j]], left[j]) {
      TopShape(gone, items[at[j]], stmts[at[j]], left[j]);
    }
    forall i | 0 <= i < |items| ensures i in at <==> TopStays(gone, items[i]) {
      assert cuts[i] == TopCut(gone, items[i]);
    }
  }

  /** The text of a pruned file has the tokens of its pruned tree: what is left in it parses to the members that stay,
    in every scope and in their order, with the numbers of the others reserved. */
  lemma {:induction false} PrunedTextIs(src: string, ts: seq<Token>, tokens: seq<P.Span>, gone: set<nat>,
      items: seq<P.Item>)
    requires T.Parsed(src, tokens, items) && |ts| == |tokens|
    requires ParseFile(ts).Some? && |items| == |ParseFile(ts).value|
    requires forall i :: 0 <= i < |items| ==> MirrorsTop(items[i], ParseFile(ts).value[i])
    requires MadeOf(ts, gone, items) && T.ReachesBackOverNothing(tokens, gone, items)
    ensures
      var pruned := ParseFile(LeftFrom(ts, tokens, P.FileEdits(gone, items), 0));
      pruned.Some? && FileLeft(gone, items, ParseFile(ts).value, pruned.value)
  {
    PrunedTextParses(src, ts, tokens, gone, items);
    FileShape(gone, items, ParseFile(ts).value);
  }
}
