/** The visitor's cuts, and what they leave of a file.

  The visitor walks a tree of nodes (module Pruner); the grammar gives a tree of
  statements (module Syntax). Where the two mirror each other, the statements
  the visitor deletes and the numbers it reserves are cuts in the sense of
  module PrunedTree, so the tokens it leaves parse to the pruned tree.
 */
module PrunedParse {
  import opened Symbols
  import opened Syntax
  import opened TextFormat
  import opened Grammar
  import opened GrammarRoundTrip
  import opened PrunedTree
  import P = Pruner
  import T = PrunedText

  // ---- two views of one file ---------------------------------------------------------------------

  predicate MirrorsField(f: P.Field, s: Stmt) {
    s.FieldStmt? && FieldNumber(s.number) && IntValue(s.number).value == f.number
  }

  predicate MirrorsOneof(o: P.Oneof, s: Stmt) {
    s.OneofStmt? && |o.items| == |s.items|
    && forall i :: 0 <= i < |o.items| ==>
         match o.items[i]
         case Member(f) => MirrorsField(f, s.items[i])
         case OneofOption => s.items[i].OptionStmt?
  }

  predicate MirrorsValue(item: P.EnumItem, s: Stmt) {
    match item
    case Value(f) =>
      s.ValueStmt? && EnumNumber(s.number, s.negative) && SignedValue(s.number, s.negative).value == f.number
    case EnumOption(_, setting) => s == OptionStmt(setting)
    case EnumReserved => s.RangesStmt? || s.NamesStmt?
  }

  predicate MirrorsEnum(e: P.Enum, s: Stmt) {
    s.EnumStmt? && |e.items| == |s.items| && forall i :: 0 <= i < |e.items| ==> MirrorsValue(e.items[i], s.items[i])
  }

  predicate MirrorsService(v: P.Service, s: Stmt) {
    s.ServiceStmt? && |v.items| == |s.items|
    && forall i :: 0 <= i < |v.items| ==>
         if v.items[i].Rpc? then s.items[i].RpcStmt? else s.items[i].OptionStmt?
  }

  /** The node and the statement are the same member of a message. */
  predicate Mirrors(item: P.MsgItem, s: Stmt) {
    match item
    case MsgField(f) => MirrorsField(f, s)
    case MsgOneof(o) => MirrorsOneof(o, s)
    case MsgNested(m) => MirrorsMessage(m, s)
    case MsgEnum(e) => MirrorsEnum(e, s)
    case MsgOther => s.OptionStmt? || s.RangesStmt? || s.NamesStmt?
  }

  predicate MirrorsMessage(m: P.Message, s: Stmt) {
    s.MessageStmt? && |m.items| == |s.items| && forall i :: 0 <= i < |m.items| ==> Mirrors(m.items[i], s.items[i])
  }

  predicate MirrorsTop(item: P.Item, s: Stmt) {
    match item
    case TopMessage(m) => MirrorsMessage(m, s)
    case TopEnum(e) => MirrorsEnum(e, s)
    case TopService(v) => MirrorsService(v, s)
    case TopImport(_, _) => s.ImportStmt?
    case TopOther => s.SyntaxStmt? || s.PackageStmt? || s.OptionStmt?
  }

  // ---- the visitor's cuts --------------------------------------------------------------------------

  function RangeOf(n: int): (r: Range) {
    if n < 0 then Range(true, P.Digits(-n), Open) else Range(false, P.Digits(n), Open)
  }

  function RangesOf(ns: seq<int>): (r: seq<Range>) {
    seq(|ns|, i requires 0 <= i < |ns| => RangeOf(ns[i]))
  }

  function Stays(gone: set<nat>, id: nat): (c: Cut) {
    if id in gone then Gone else Whole
  }

  function OneofCut(gone: set<nat>, o: P.Oneof): (c: Cut) {
    if P.GoesWhole(gone, o) then Gone
    else
      Inside(seq(|o.items|, i requires 0 <= i < |o.items| =>
               if o.items[i].Member? then Stays(gone, o.items[i].field.meta.id) else Whole), [])
  }

  ghost function EnumCut(gone: set<nat>, e: P.Enum): (c: Cut) {
    if e.meta.id in gone then Gone
    else
      Inside(seq(|e.items|, i requires 0 <= i < |e.items| => ValueCut(gone, e.items, e.items[i])),
             RangesOf(P.SortInts(P.EnumReserves(gone, e.items))))
  }

  ghost function ValueCut(gone: set<nat>, items: seq<P.EnumItem>, item: P.EnumItem): (c: Cut) {
    match item
    case Value(f) => Stays(gone, f.meta.id)
    case EnumOption(_, _) => if T.SwitchGoes(gone, items) && P.IsSwitch(item) then Gone else Whole
    case EnumReserved => Whole
  }

  function ServiceCut(gone: set<nat>, v: P.Service): (c: Cut) {
    if v.meta.id in gone then Gone
    else
      Inside(seq(|v.items|, i requires 0 <= i < |v.items| =>
               if P.IsLostRpc(gone, v.items[i]) then Gone else Whole), [])
  }

  ghost function MessageCut(gone: set<nat>, m: P.Message): (c: Cut)
    decreases m
  {
    if m.meta.id in gone then Gone
    else
      Inside(seq(|m.items|, i requires 0 <= i < |m.items| => ItemCut(gone, m.items[i])),
             RangesOf(P.SortInts(P.Numbers(P.Lost(gone, P.DirectFields(m.items))))))
  }

  ghost function ItemCut(gone: set<nat>, item: P.MsgItem): (c: Cut)
    decreases item
  {
    match item
    case MsgField(f) => Stays(gone, f.meta.id)
    case MsgOneof(o) => OneofCut(gone, o)
    case MsgNested(m) => MessageCut(gone, m)
    case MsgEnum(e) => EnumCut(gone, e)
    case MsgOther => Whole
  }

  ghost function TopCut(gone: set<nat>, item: P.Item): (c: Cut) {
    match item
    case TopMessage(m) => MessageCut(gone, m)
    case TopEnum(e) => EnumCut(gone, e)
    case TopService(v) => ServiceCut(gone, v)
    case TopImport(_, survives) => if survives then Whole else Gone
    case TopOther => Whole
  }

  ghost function FileCuts(gone: set<nat>, items: seq<P.Item>): (r: seq<Cut>) {
    seq(|items|, i requires 0 <= i < |items| => TopCut(gone, items[i]))
  }

  // ---- reserved numbers are written as they were meant ------------------------------------------------------

  lemma {:induction false} DigitsValue(n: nat)
    ensures Positional(P.Digits(n), 10) == Some(n) && P.Digits(n) != ""
    ensures n > 0 ==> P.Digits(n)[0] != '0'
    ensures |P.Digits(n)| > 1 ==> P.Digits(n)[0] != '0' && n >= 10
    ensures P.Digits(n)[0] in "0123456789"
  {
    if n < 10 {
      LastDigit(n);
      assert Positional("", 10) == Some(0);
      assert P.Digits(n)[..0] == "";
    } else {
      var front, digit := P.Digits(n / 10), "0123456789"[n % 10];
      DigitsValue(n / 10);
      LastDigit(n % 10);
      assert (front + [digit])[..|front|] == front;
    }
  }

  lemma LastDigit(d: nat)
    requires d < 10
    ensures DigitOf("0123456789"[d]) == d && (d > 0 ==> "0123456789"[d] != '0')
    ensures "0123456789"[d] in "0123456789"
  {
  }

  lemma DecimalValue(n: nat)
    requires n <= MAX_U64
    ensures IntValue(P.Digits(n)) == Some(n)
  {
    DigitsValue(n);
    if |P.Digits(n)| >= 2 {
      assert P.Digits(n)[0] != '0';
    }
  }

  /** The numbers of enum values, and those of fields. */
  predicate InRange(n: int, inEnum: bool) {
    if inEnum then -0x8000_0000 <= n <= 0x7FFF_FFFF else 1 <= n <= 536870911
  }

  /** A number that a field or value had may be reserved. */
  lemma RangeIsLegal(n: int, inEnum: bool)
    requires InRange(n, inEnum)
    ensures LegalRange(RangeOf(n), inEnum)
  {
    DecimalValue(if n < 0 then -n else n);
  }

  // ---- the visitor's cuts fit the statements -----------------------------------------------------------------

  lemma RangesAreLegal(ns: seq<int>, inEnum: bool)
    requires forall n :: n in ns ==> InRange(n, inEnum)
    ensures MayAdd(if inEnum then InEnum else InMessage, RangesOf(P.SortInts(ns)))
  {
    var sorted := P.SortInts(ns);
    forall i | 0 <= i < |sorted| ensures LegalRange(RangesOf(sorted)[i], inEnum) {
      assert sorted[i] in multiset(sorted);
      assert sorted[i] in multiset(ns);
      RangeIsLegal(sorted[i], inEnum);
    }
  }

  lemma {:induction false} MembersInRange(items: seq<P.OneofItem>, stmts: seq<Stmt>)
    requires |items| == |stmts|
    requires forall i :: 0 <= i < |items| && items[i].Member? ==> MirrorsField(items[i].field, stmts[i])
    ensures forall f :: f in P.Members(items) ==> InRange(f.number, false)
  {
    if items != [] {
      MembersInRange(items[..|items| - 1], stmts[..|items| - 1]);
    }
  }

  lemma {:induction false} FieldsInRange(items: seq<P.MsgItem>, stmts: seq<Stmt>)
    requires |items| == |stmts| && forall i :: 0 <= i < |items| ==> Mirrors(items[i], stmts[i])
    ensures forall f :: f in P.DirectFields(items) ==> InRange(f.number, false)
  {
    if items != [] {
      var n := |items| - 1;
      FieldsInRange(items[..n], stmts[..n]);
      if items[n].MsgOneof? {
        MembersInRange(items[n].oneof.items, stmts[n].items);
      }
    }
  }

  lemma {:induction false} ValuesInRange(items: seq<P.EnumItem>, stmts: seq<Stmt>)
    requires |items| == |stmts| && forall i :: 0 <= i < |items| ==> MirrorsValue(items[i], stmts[i])
    ensures forall f :: f in P.Values(items) ==> InRange(f.number, true)
  {
    if items != [] {
      var n := |items| - 1;
      ValuesInRange(items[..n], stmts[..n]);
      assert MirrorsValue(items[n], stmts[n]);
    }
  }

  lemma MessageReserves(gone: set<nat>, m: P.Message, s: Stmt)
    requires MirrorsMessage(m, s)
    ensures MayAdd(InMessage, RangesOf(P.SortInts(P.Numbers(P.Lost(gone, P.DirectFields(m.items))))))
  {
    var lost := P.Lost(gone, P.DirectFields(m.items));
    FieldsInRange(m.items, s.items);
    forall n | n in P.Numbers(lost) ensures InRange(n, false) {
      T.NumberIn(lost, n);
    }
    RangesAreLegal(P.Numbers(lost), false);
  }

  lemma {:induction false} EnumMayReserve(gone: set<nat>, e: P.Enum, s: Stmt)
    requires MirrorsEnum(e, s)
    ensures MayAdd(InEnum, RangesOf(P.SortInts(P.EnumReserves(gone, e.items))))
  {
    ValuesInRange(e.items, s.items);
    T.EnumReservesExact(gone, e.items);
    RangesAreLegal(P.EnumReserves(gone, e.items), true);
  }

  lemma {:induction false} EnumFits(gone: set<nat>, e: P.Enum, s: Stmt)
    requires MirrorsEnum(e, s)
    ensures FitsOne(s, EnumCut(gone, e))
  {
    if e.meta.id !in gone {
      EnumMayReserve(gone, e, s);
      var cuts := EnumCut(gone, e).cuts;
      forall i | 0 <= i < |s.items| ensures FitsOne(s.items[i], cuts[i]) {
        assert !cuts[i].Inside?;
      }
      assert Fits(s.items, cuts);
    }
  }

  lemma {:induction false} MessageFits(gone: set<nat>, m: P.Message, s: Stmt)
    requires MirrorsMessage(m, s)
    ensures FitsOne(s, MessageCut(gone, m))
    decreases m
  {
    MessageReserves(gone, m, s);
    if m.meta.id !in gone {
      var cuts := seq(|m.items|, i requires 0 <= i < |m.items| => ItemCut(gone, m.items[i]));
      forall i | 0 <= i < |s.items| ensures FitsOne(s.items[i], cuts[i]) {
        ItemFits(gone, m.items[i], s.items[i]);
      }
      assert Fits(s.items, cuts);
    }
  }

  lemma {:induction false} ItemFits(gone: set<nat>, item: P.MsgItem, s: Stmt)
    requires Mirrors(item, s)
    ensures FitsOne(s, ItemCut(gone, item))
    decreases item
  {
    match item
    case MsgField(f) =>
    case MsgOneof(o) =>
    case MsgNested(m) => MessageFits(gone, m, s);
    case MsgEnum(e) => EnumFits(gone, e, s);
    case MsgOther =>
  }

  lemma TopFits(gone: set<nat>, item: P.Item, s: Stmt)
    requires MirrorsTop(item, s)
    ensures FitsOne(s, TopCut(gone, item))
  {
    match item
    case TopMessage(m) => MessageFits(gone, m, s);
    case TopEnum(e) => EnumFits(gone, e, s);
    case TopService(v) =>
    case TopImport(_, _) =>
    case TopOther =>
  }

  /** The tokens that the visitor leaves, with its `reserved` statements, parse to the pruned tree. */
  lemma PrunedFileParses(ts: seq<Token>, gone: set<nat>, items: seq<P.Item>)
    requires ParseFile(ts).Some? && |items| == |ParseFile(ts).value|
    requires forall i :: 0 <= i < |items| ==> MirrorsTop(items[i], ParseFile(ts).value[i])
    ensures Fits(ParseFile(ts).value, FileCuts(gone, items))
    ensures ParseFile(CutTokens(Top, ts, FileCuts(gone, items), [], []))
      == Some(CutTree(ParseFile(ts).value, FileCuts(gone, items)))
  {
    var stmts, cuts := ParseFile(ts).value, FileCuts(gone, items);
    forall i | 0 <= i < |stmts| ensures FitsOne(stmts[i], cuts[i]) {
      TopFits(gone, items[i], stmts[i]);
    }
    assert MirrorsTop(items[0], stmts[0]) && stmts[0].SyntaxStmt?;
    CutFileParses(ts, cuts);
  }

  /** In particular it parses, and what it parses to is legal. */
  lemma PrunedFileIsLegal(ts: seq<Token>, gone: set<nat>, items: seq<P.Item>)
    requires ParseFile(ts).Some? && |items| == |ParseFile(ts).value|
    requires forall i :: 0 <= i < |items| ==> MirrorsTop(items[i], ParseFile(ts).value[i])
    ensures Fits(ParseFile(ts).value, FileCuts(gone, items))
    ensures LegalAll(Top, CutTree(ParseFile(ts).value, FileCuts(gone, items)))
  {
    PrunedFileParses(ts, gone, items);
    StmtsLegal(Top, CutTokens(Top, ts, FileCuts(gone, items), [], []));
  }
}
