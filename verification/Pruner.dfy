/** The visitor that turns a selection into edits of one file.

  One `Pruner` walks the syntax tree of a kept file. Everything it deletes it
  deletes with the comments attached to it, and the numbers of what it deletes
  go onto one scratch stack shared by all nested scopes: each scope uses the
  part above its own base and hands the stack back as it found it.
 */
module Pruner {
  import opened Symbols
  import opened Edits
  import X = Syntax

  type Ending = n: nat | 0 < n witness 1

  /** Every span ends after some character. */
  datatype Span = Span(start: nat, end: Ending)

  /** `id` names the node; [lo, hi) are the tokens it is made of. */
  datatype Meta = Meta(
    id: nat, lo: nat, hi: nat, span: Span,
    leading: seq<Span>, trailing: seq<Span>, detached: seq<Span>)

  datatype Field = Field(meta: Meta, number: int)

  datatype OneofItem = Member(field: Field) | OneofOption
  datatype Oneof = Oneof(meta: Meta, items: seq<OneofItem>)

  datatype EnumItem = Value(field: Field) | EnumOption(meta: Meta, setting: X.Setting) | EnumReserved
  datatype Enum = Enum(meta: Meta, items: seq<EnumItem>)

  datatype SvcItem = Rpc(meta: Meta) | SvcOption
  datatype Service = Service(meta: Meta, items: seq<SvcItem>)

  datatype Message = Message(meta: Meta, items: seq<MsgItem>)
  datatype MsgItem =
    | MsgField(field: Field)
    | MsgOneof(oneof: Oneof)
    | MsgNested(message: Message)
    | MsgEnum(enum: Enum)
    | MsgOther

  /** `survives` is the verdict of the import rule (module PrunedSet). */
  datatype Item =
    | TopMessage(message: Message)
    | TopEnum(enum: Enum)
    | TopService(service: Service)
    | TopImport(meta: Meta, survives: bool)
    | TopOther

  // ---- deleting a node ----------------------------------------------------------------

  function Extent(meta: Meta): (s: Span) {
    var start := if meta.leading != [] && meta.leading[0].start < meta.span.start
                 then meta.leading[0].start else meta.span.start;
    var end := if meta.trailing != [] && meta.trailing[|meta.trailing| - 1].end > meta.span.end
               then meta.trailing[|meta.trailing| - 1].end else meta.span.end;
    Span(start, end)
  }

  function SpanEdits(spans: seq<Span>): (r: seq<Edit>) {
    seq(|spans|, i requires 0 <= i < |spans| => Del(spans[i].start, spans[i].end))
  }

  function NodeEdits(meta: Meta): (r: seq<Edit>) {
    [Del(Extent(meta).start, Extent(meta).end)] + SpanEdits(meta.detached)
  }

  /** The edits that delete the listed nodes, in order. */
  function DeleteAll(metas: seq<Meta>): (r: seq<Edit>) {
    if metas == [] then [] else DeleteAll(metas[..|metas| - 1]) + NodeEdits(metas[|metas| - 1])
  }

  // ---- numbers --------------------------------------------------------------------------

  predicate SortedInts(s: seq<int>) {
    forall i, j :: 0 <= i < j < |s| ==> s[i] <= s[j]
  }

  function InsertInt(x: int, s: seq<int>): (r: seq<int>) {
    if s == [] || x <= s[0] then [x] + s else [s[0]] + InsertInt(x, s[1..])
  }

  lemma {:induction false} InsertedCount(x: int, s: seq<int>)
    ensures multiset(InsertInt(x, s)) == multiset(s) + multiset{x}
  {
    if s != [] && x > s[0] {
      InsertedCount(x, s[1..]);
      assert s == [s[0]] + s[1..];
    }
  }

  lemma {:induction false} InsertedSorted(x: int, s: seq<int>)
    requires SortedInts(s)
    ensures SortedInts(InsertInt(x, s))
  {
    if s != [] && x > s[0] {
      var r := InsertInt(x, s[1..]);
      InsertedSorted(x, s[1..]);
      InsertedCount(x, s[1..]);
      forall i | 0 <= i < |r| ensures s[0] <= r[i] {
        assert r[i] in multiset(r);
      }
    }
  }

  function SortInts(s: seq<int>): (r: seq<int>)
    ensures SortedInts(r) && multiset(r) == multiset(s)
  {
    if s == [] then []
    else
      assert s == [s[0]] + s[1..];
      InsertedCount(s[0], SortInts(s[1..]));
      InsertedSorted(s[0], SortInts(s[1..]));
      InsertInt(s[0], SortInts(s[1..]))
  }

  function Digits(n: nat): string {
    if n < 10 then ["0123456789"[n]] else Digits(n / 10) + ["0123456789"[n % 10]]
  }

  function Decimal(n: int): string {
    if n < 0 then "-" + Digits(-n) else Digits(n)
  }

  function Listed(ns: seq<int>): string {
    if ns == [] then ""
    else if |ns| == 1 then Decimal(ns[0])
    else Listed(ns[..|ns| - 1]) + ", " + Decimal(ns[|ns| - 1])
  }

  function ReservedText(ns: seq<int>): string {
    "\nreserved " + Listed(ns) + ";\n"
  }

  /** The statement goes right before the closing brace, the last character of the node. */
  function ReserveEdits(meta: Meta, ns: seq<int>): (r: seq<Edit>) {
    if ns == [] then [] else [Ins(meta.span.end - 1, ReservedText(SortInts(ns)))]
  }

  // ---- what each scope has to do ----------------------------------------------------------

  function Metas(fields: seq<Field>): (r: seq<Meta>) {
    seq(|fields|, i requires 0 <= i < |fields| => fields[i].meta)
  }

  function Numbers(fields: seq<Field>): (r: seq<int>) {
    seq(|fields|, i requires 0 <= i < |fields| => fields[i].number)
  }

  /** The fields that do not survive, in source order. */
  function Lost(gone: set<nat>, fields: seq<Field>): (r: seq<Field>)
    ensures forall f :: f in r <==> f in fields && f.meta.id in gone
  {
    if fields == [] then []
    else
      var last := fields[|fields| - 1];
      assert fields == fields[..|fields| - 1] + [last];
      Lost(gone, fields[..|fields| - 1]) + if last.meta.id in gone then [last] else []
  }

  function Members(items: seq<OneofItem>): (r: seq<Field>) {
    if items == [] then []
    else Members(items[..|items| - 1]) + if items[|items| - 1].Member? then [items[|items| - 1].field] else []
  }

  function Values(items: seq<EnumItem>): (r: seq<Field>) {
    if items == [] then []
    else Values(items[..|items| - 1]) + if items[|items| - 1].Value? then [items[|items| - 1].field] else []
  }

  /** The fields a message declares itself, those inside its oneofs included. */
  function DirectFields(items: seq<MsgItem>): (r: seq<Field>) {
    if items == [] then []
    else
      DirectFields(items[..|items| - 1]) + OwnFields(items[|items| - 1])
  }

  function OwnFields(item: MsgItem): (r: seq<Field>) {
    match item
    case MsgField(f) => [f]
    case MsgOneof(o) => Members(o.items)
    case _ => []
  }

  /** A oneof goes whole when it has fields and none survives. */
  predicate GoesWhole(gone: set<nat>, o: Oneof) {
    Members(o.items) != [] && forall f :: f in Members(o.items) ==> f.meta.id in gone
  }

  function OneofEdits(gone: set<nat>, o: Oneof): (r: seq<Edit>) {
    if GoesWhole(gone, o) then NodeEdits(o.meta) else DeleteAll(Metas(Lost(gone, Members(o.items))))
  }

  predicate KeptAt(gone: set<nat>, items: seq<EnumItem>, i: int) {
    0 <= i < |items| && items[i].Value? && items[i].field.meta.id !in gone
  }

  /** Two surviving values share a number. */
  ghost predicate StillAliased(gone: set<nat>, items: seq<EnumItem>) {
    exists i, j :: i < j && KeptAt(gone, items, i) && KeptAt(gone, items, j)
                   && items[i].field.number == items[j].field.number
  }

  ghost predicate Alive(gone: set<nat>, items: seq<EnumItem>, n: int) {
    exists i :: KeptAt(gone, items, i) && items[i].field.number == n
  }

  /** An `allow_alias = true` option. */
  predicate IsSwitch(item: EnumItem) {
    item.EnumOption? && X.AllowsAlias(item.setting)
  }

  function Switches(items: seq<EnumItem>): (r: seq<Meta>) {
    if items == [] then []
    else
      var last := items[|items| - 1];
      Switches(items[..|items| - 1]) + if IsSwitch(last) then [last.meta] else []
  }

  /** A sorted list without repetitions and without the numbers of survivors. */
  ghost function Compacted(gone: set<nat>, items: seq<EnumItem>, sorted: seq<int>): (r: seq<int>) {
    if sorted == [] then []
    else
      var rest, n := Compacted(gone, items, sorted[..|sorted| - 1]), sorted[|sorted| - 1];
      if (rest != [] && rest[|rest| - 1] == n) || Alive(gone, items, n) then rest else rest + [n]
  }

  ghost function EnumReserves(gone: set<nat>, items: seq<EnumItem>): (r: seq<int>) {
    Compacted(gone, items, SortInts(Numbers(Lost(gone, Values(items)))))
  }

  ghost function SwitchEdits(gone: set<nat>, items: seq<EnumItem>): (r: seq<Edit>) {
    if Lost(gone, Values(items)) != [] && !StillAliased(gone, items) then DeleteAll(Switches(items)) else []
  }

  ghost function EnumEdits(gone: set<nat>, e: Enum): (r: seq<Edit>) {
    if e.meta.id in gone then NodeEdits(e.meta)
    else DeletedInside(gone, e.items) + ReserveEdits(e.meta, EnumReserves(gone, e.items))
  }

  ghost function DeletedInside(gone: set<nat>, items: seq<EnumItem>): (r: seq<Edit>) {
    DeleteAll(Metas(Lost(gone, Values(items)))) + SwitchEdits(gone, items)
  }

  predicate IsLostRpc(gone: set<nat>, item: SvcItem) {
    item.Rpc? && item.meta.id in gone
  }

  function LostRpcs(gone: set<nat>, items: seq<SvcItem>): (r: seq<Meta>) {
    if items == [] then []
    else
      var last := items[|items| - 1];
      LostRpcs(gone, items[..|items| - 1]) + if IsLostRpc(gone, last) then [last.meta] else []
  }

  function ServiceEdits(gone: set<nat>, s: Service): (r: seq<Edit>) {
    if s.meta.id in gone then NodeEdits(s.meta) else DeleteAll(LostRpcs(gone, s.items))
  }

  ghost function MessageEdits(gone: set<nat>, m: Message): (r: seq<Edit>) {
    if m.meta.id in gone then NodeEdits(m.meta)
    else
      ItemsEdits(gone, m.items)
      + ReserveEdits(m.meta, Numbers(Lost(gone, DirectFields(m.items))))
  }

  ghost function ItemsEdits(gone: set<nat>, items: seq<MsgItem>): (r: seq<Edit>) {
    if items == [] then []
    else
      assert items[|items| - 1] in items;
      ItemsEdits(gone, items[..|items| - 1]) + ItemEdits(gone, items[|items| - 1])
  }

  ghost function ItemEdits(gone: set<nat>, item: MsgItem): (r: seq<Edit>) {
    match item
    case MsgField(f) => if f.meta.id in gone then NodeEdits(f.meta) else []
    case MsgOneof(o) => OneofEdits(gone, o)
    case MsgNested(m) => MessageEdits(gone, m)
    case MsgEnum(e) => EnumEdits(gone, e)
    case MsgOther => []
  }

  ghost function TopEdits(gone: set<nat>, item: Item): (r: seq<Edit>) {
    match item
    case TopMessage(m) => MessageEdits(gone, m)
    case TopEnum(e) => EnumEdits(gone, e)
    case TopService(s) => ServiceEdits(gone, s)
    case TopImport(meta, survives) => if survives then [] else NodeEdits(meta)
    case TopOther => []
  }

  ghost function FileEdits(gone: set<nat>, items: seq<Item>): (r: seq<Edit>) {
    if items == [] then [] else FileEdits(gone, items[..|items| - 1]) + TopEdits(gone, items[|items| - 1])
  }

  lemma ListedStep(ns: seq<int>, i: nat)
    requires i < |ns|
    ensures Listed(ns[..i + 1]) == Listed(ns[..i]) + (if i > 0 then ", " else "") + Decimal(ns[i])
  {
    assert ns[..i + 1][..i] == ns[..i];
  }

  lemma Assoc<T>(a: seq<T>, b: seq<T>, c: seq<T>)
    ensures a + b + c == a + (b + c)
  {
  }

  lemma Stacked<T>(a: seq<T>, b: seq<T>)
    ensures (a + b)[..|a|] == a && (a + b)[|a|..] == b
  {
  }

  // ---- the visitor ----------------------------------------------------------------------

  lemma LostAppend(gone: set<nat>, fields: seq<Field>, f: Field)
    ensures Lost(gone, fields + [f]) == Lost(gone, fields) + if f.meta.id in gone then [f] else []
  {
    assert (fields + [f])[..|fields|] == fields;
  }

  lemma {:induction false} LostConcat(gone: set<nat>, a: seq<Field>, b: seq<Field>)
    ensures Lost(gone, a + b) == Lost(gone, a) + Lost(gone, b)
  {
    if b == [] {
      assert a + b == a;
    } else {
      var init, last := b[..|b| - 1], b[|b| - 1];
      assert a + b == (a + init) + [last];
      assert b == init + [last];
      LostConcat(gone, a, init);
      LostAppend(gone, a + init, last);
      LostAppend(gone, init, last);
    }
  }

  lemma DeleteLast(fields: seq<Field>, f: Field)
    ensures DeleteAll(Metas(fields + [f])) == DeleteAll(Metas(fields)) + NodeEdits(f.meta)
    ensures Numbers(fields + [f]) == Numbers(fields) + [f.number]
  {
    assert Metas(fields + [f]) == Metas(fields) + [f.meta];
    DeleteOneMore(Metas(fields), f.meta);
  }

  lemma DeleteOneMore(metas: seq<Meta>, meta: Meta)
    ensures DeleteAll(metas + [meta]) == DeleteAll(metas) + NodeEdits(meta)
  {
    assert (metas + [meta])[..|metas|] == metas;
  }

  lemma NumbersConcat(a: seq<Field>, b: seq<Field>)
    ensures Numbers(a + b) == Numbers(a) + Numbers(b)
  {
  }

  /** One more member seen: what the loops over a oneof have to add. */
  lemma MemberStep(gone: set<nat>, items: seq<OneofItem>, i: nat)
    requires i < |items|
    ensures items[i].OneofOption? ==> Members(items[..i + 1]) == Members(items[..i])
    ensures items[i].Member? ==>
      Grows(gone, Members(items[..i]), items[i].field, Members(items[..i + 1]))
  {
    assert items[..i + 1][..i] == items[..i];
    if items[i].Member? {
      FieldStep(gone, Members(items[..i]), items[i].field);
    }
  }

  lemma ValueStep(gone: set<nat>, items: seq<EnumItem>, i: nat)
    requires i < |items|
    ensures !items[i].Value? ==> Values(items[..i + 1]) == Values(items[..i])
    ensures items[i].Value? ==>
      Grows(gone, Values(items[..i]), items[i].field, Values(items[..i + 1]))
  {
    assert items[..i + 1][..i] == items[..i];
    if items[i].Value? {
      FieldStep(gone, Values(items[..i]), items[i].field);
    }
  }

  lemma SwitchStep(items: seq<EnumItem>, i: nat)
    requires i < |items|
    ensures DeleteAll(Switches(items[..i + 1]))
      == DeleteAll(Switches(items[..i])) + if IsSwitch(items[i]) then NodeEdits(items[i].meta) else []
  {
    assert items[..i + 1][..i] == items[..i];
    if IsSwitch(items[i]) {
      DeleteOneMore(Switches(items[..i]), items[i].meta);
      assert Switches(items[..i + 1]) == Switches(items[..i]) + [items[i].meta];
    } else {
      assert Switches(items[..i + 1]) == Switches(items[..i]);
    }
  }

  lemma RpcStep(gone: set<nat>, items: seq<SvcItem>, i: nat)
    requires i < |items|
    ensures DeleteAll(LostRpcs(gone, items[..i + 1]))
      == DeleteAll(LostRpcs(gone, items[..i])) + if IsLostRpc(gone, items[i]) then NodeEdits(items[i].meta) else []
  {
    assert items[..i + 1][..i] == items[..i];
    if IsLostRpc(gone, items[i]) {
      DeleteOneMore(LostRpcs(gone, items[..i]), items[i].meta);
      assert LostRpcs(gone, items[..i + 1]) == LostRpcs(gone, items[..i]) + [items[i].meta];
    } else {
      assert LostRpcs(gone, items[..i + 1]) == LostRpcs(gone, items[..i]);
    }
  }

  /** `more` is `fields` and one field; the deletions and numbers grow with it if it is lost. */
  ghost predicate Grows(gone: set<nat>, fields: seq<Field>, f: Field, more: seq<Field>) {
    var lost, all := Lost(gone, fields), Lost(gone, more);
    && |more| == |fields| + 1
    && Numbers(more) == Numbers(fields) + [f.number]
    && (f.meta.id !in gone ==> all == lost)
    && (f.meta.id in gone ==>
          && |all| == |lost| + 1
          && Numbers(all) == Numbers(lost) + [f.number]
          && DeleteAll(Metas(all)) == DeleteAll(Metas(lost)) + NodeEdits(f.meta))
  }

  lemma FieldStep(gone: set<nat>, fields: seq<Field>, f: Field)
    ensures Grows(gone, fields, f, fields + [f])
  {
    LostAppend(gone, fields, f);
    NumbersConcat(fields, [f]);
    DeleteLast(Lost(gone, fields), f);
  }

  /** The lost ones among `fields` are deleted, and their numbers are on the stack. */
  ghost predicate Worked(gone: set<nat>, fields: seq<Field>, e0: seq<Edit>, r0: seq<int>, e: seq<Edit>, r: seq<int>) {
    && e == e0 + DeleteAll(Metas(Lost(gone, fields)))
    && r == r0 + Numbers(Lost(gone, fields))
  }

  lemma WorkOne(gone: set<nat>, fields: seq<Field>, f: Field, more: seq<Field>,
                e0: seq<Edit>, r0: seq<int>, e: seq<Edit>, r: seq<int>)
    requires Worked(gone, fields, e0, r0, e, r) && Grows(gone, fields, f, more)
    ensures f.meta.id in gone ==> Worked(gone, more, e0, r0, e + NodeEdits(f.meta), r + [f.number])
    ensures f.meta.id !in gone ==> Worked(gone, more, e0, r0, e, r)
    ensures Lost(gone, more) != [] <==> f.meta.id in gone || Lost(gone, fields) != []
  {
    if f.meta.id in gone {
      Assoc(e0, DeleteAll(Metas(Lost(gone, fields))), NodeEdits(f.meta));
      Assoc(r0, Numbers(Lost(gone, fields)), [f.number]);
    }
  }

  lemma MemberWorked(gone: set<nat>, items: seq<OneofItem>, i: nat, e0: seq<Edit>, r0: seq<int>, e: seq<Edit>,
      r: seq<int>)
    requires i < |items| && Worked(gone, Members(items[..i]), e0, r0, e, r)
    ensures items[i].Member? && items[i].field.meta.id in gone ==>
      && Worked(gone, Members(items[..i + 1]), e0, r0, e + NodeEdits(items[i].field.meta), r + [items[i].field.number])
      && Lost(gone, Members(items[..i + 1])) != []
    ensures !(items[i].Member? && items[i].field.meta.id in gone) ==>
      && Worked(gone, Members(items[..i + 1]), e0, r0, e, r)
      && (Lost(gone, Members(items[..i + 1])) != [] <==> Lost(gone, Members(items[..i])) != [])
  {
    MemberStep(gone, items, i);
    if items[i].Member? {
      WorkOne(gone, Members(items[..i]), items[i].field, Members(items[..i + 1]), e0, r0, e, r);
    }
  }

  lemma ValueWorked(gone: set<nat>, items: seq<EnumItem>, i: nat, e0: seq<Edit>, r0: seq<int>, e: seq<Edit>,
      r: seq<int>)
    requires i < |items| && Worked(gone, Values(items[..i]), e0, r0, e, r)
    ensures items[i].Value? && items[i].field.meta.id in gone ==>
      && Worked(gone, Values(items[..i + 1]), e0, r0, e + NodeEdits(items[i].field.meta), r + [items[i].field.number])
      && Lost(gone, Values(items[..i + 1])) != []
    ensures !(items[i].Value? && items[i].field.meta.id in gone) ==>
      && Worked(gone, Values(items[..i + 1]), e0, r0, e, r)
      && (Lost(gone, Values(items[..i + 1])) != [] <==> Lost(gone, Values(items[..i])) != [])
  {
    ValueStep(gone, items, i);
    if items[i].Value? {
      WorkOne(gone, Values(items[..i]), items[i].field, Values(items[..i + 1]), e0, r0, e, r);
    }
  }

  lemma {:induction false} AllLost(gone: set<nat>, fields: seq<Field>)
    ensures |Lost(gone, fields)| <= |fields|
    ensures |Lost(gone, fields)| == |fields| <==> forall f :: f in fields ==> f.meta.id in gone
    ensures |Lost(gone, fields)| == |fields| ==> Lost(gone, fields) == fields
  {
    if fields != [] {
      var init, last := fields[..|fields| - 1], fields[|fields| - 1];
      assert fields == init + [last];
      AllLost(gone, init);
      assert last in fields;
    }
  }

  lemma {:induction false} SortedIsFixed(s: seq<int>)
    requires SortedInts(s)
    ensures SortInts(s) == s
  {
    if s != [] {
      SortedIsFixed(s[1..]);
      assert s == [s[0]] + s[1..];
    }
  }

  /** The state of the compaction: what is written, and what is still to be read. */
  ghost predicate Compacting(gone: set<nat>, items: seq<EnumItem>, below: seq<int>, sorted: seq<int>,
                             stack: seq<int>, w: int, i: int)
  {
    && |below| <= w <= i <= |stack| == |below| + |sorted|
    && stack[..w] == below + Compacted(gone, items, sorted[..i - |below|])
    && stack[i..] == sorted[i - |below|..]
  }

  lemma CompactStart(gone: set<nat>, items: seq<EnumItem>, below: seq<int>, sorted: seq<int>)
    ensures Compacting(gone, items, below, sorted, below + sorted, |below|, |below|)
  {
    Stacked(below, sorted);
  }

  lemma CompactEnd(gone: set<nat>, items: seq<EnumItem>, below: seq<int>, sorted: seq<int>,
                   stack: seq<int>, w: int, i: int)
    requires Compacting(gone, items, below, sorted, stack, w, i) && i == |stack|
    ensures stack[..w] == below + Compacted(gone, items, sorted)
  {
    assert sorted[..i - |below|] == sorted;
  }

  lemma CompactOne(gone: set<nat>, items: seq<EnumItem>, below: seq<int>, sorted: seq<int>,
                   stack: seq<int>, w: int, i: int)
    requires Compacting(gone, items, below, sorted, stack, w, i) && i < |stack|
    ensures (w > |below| && stack[w - 1] == stack[i]) || Alive(gone, items, stack[i]) ==>
      Compacting(gone, items, below, sorted, stack, w, i + 1)
    ensures !(w > |below| && stack[w - 1] == stack[i]) && !Alive(gone, items, stack[i]) ==>
      Compacting(gone, items, below, sorted, stack[w := stack[i]], w + 1, i + 1)
  {
    var k, n := i - |below|, stack[i];
    var done := Compacted(gone, items, sorted[..k]);
    assert stack[i..][0] == sorted[k..][0] == n;
    assert sorted[..k + 1][..k] == sorted[..k];
    assert |stack[..w]| == |below| + |done|;
    if w > |below| {
      assert stack[w - 1] == stack[..w][w - 1] == done[|done| - 1];
    }
    assert stack[i + 1..] == stack[i..][1..] == sorted[k + 1..];
    var next := stack[w := n];
    assert next[..w + 1] == stack[..w] + [n];
    Assoc(below, done, [n]);
    assert next[i + 1..] == stack[i + 1..];
  }

  class Pruner {
    const gone: set<nat>
    var edits: seq<Edit>
    var reserved: seq<int>

    constructor (gone: set<nat>)
      ensures this.gone == gone && edits == [] && reserved == []
    {
      this.gone := gone;
      edits, reserved := [], [];
    }

    method DeleteMeta(meta: Meta)
      modifies this`edits
      ensures edits == old(edits) + NodeEdits(meta)
    {
      var start: nat := meta.span.start;
      if meta.leading != [] {
        start := if meta.leading[0].start < start then meta.leading[0].start else start;
      }
      var end: nat := meta.span.end;
      if meta.trailing != [] {
        var last := meta.trailing[|meta.trailing| - 1];
        end := if last.end > end then last.end else end;
      }
      edits := edits + [Del(start, end)];
      var i := 0;
      while i < |meta.detached|
        invariant 0 <= i <= |meta.detached|
        invariant edits == old(edits) + [Del(start, end)] + SpanEdits(meta.detached)[..i]
      {
        TakeOneMore(SpanEdits(meta.detached), i);
        Assoc(old(edits) + [Del(start, end)], SpanEdits(meta.detached)[..i], [SpanEdits(meta.detached)[i]]);
        edits := edits + [Del(meta.detached[i].start, meta.detached[i].end)];
        i := i + 1;
      }
      Assoc(old(edits), [Del(start, end)], SpanEdits(meta.detached));
    }

    method DropField(f: Field)
      modifies this
      ensures edits == old(edits) + NodeEdits(f.meta) && reserved == old(reserved) + [f.number]
    {
      DeleteMeta(f.meta);
      reserved := reserved + [f.number];
    }

    method VisitOneof(o: Oneof)
      modifies this
      ensures edits == old(edits) + OneofEdits(gone, o)
      ensures reserved == old(reserved) + Numbers(Lost(gone, Members(o.items)))
    {
      var fields, dropped := CountMembers(o.items);
      AllLost(gone, Members(o.items));
      if fields > 0 && dropped == fields {
        DeleteMeta(o.meta);
        PushMembers(o.items);
      } else {
        DeleteMembers(o.items);
      }
    }

    method CountMembers(items: seq<OneofItem>) returns (fields: nat, dropped: nat)
      ensures fields == |Members(items)| && dropped == |Lost(gone, Members(items))|
    {
      fields, dropped := 0, 0;
      var i := 0;
      while i < |items|
        invariant 0 <= i <= |items|
        invariant fields == |Members(items[..i])| && dropped == |Lost(gone, Members(items[..i]))|
      {
        MemberStep(gone, items, i);
        if items[i].Member? {
          fields := fields + 1;
          if items[i].field.meta.id in gone {
            dropped := dropped + 1;
          }
        }
        i := i + 1;
      }
      assert items[..i] == items;
    }

    method PushMembers(items: seq<OneofItem>)
      modifies this`reserved
      ensures reserved == old(reserved) + Numbers(Members(items))
    {
      var i := 0;
      while i < |items|
        invariant 0 <= i <= |items|
        invariant reserved == old(reserved) + Numbers(Members(items[..i]))
      {
        MemberStep(gone, items, i);
        if items[i].Member? {
          Assoc(old(reserved), Numbers(Members(items[..i])), [items[i].field.number]);
          reserved := reserved + [items[i].field.number];
        }
        i := i + 1;
      }
      assert items[..i] == items;
    }

    method DeleteMembers(items: seq<OneofItem>)
      modifies this
      ensures edits == old(edits) + DeleteAll(Metas(Lost(gone, Members(items))))
      ensures reserved == old(reserved) + Numbers(Lost(gone, Members(items)))
    {
      var i := 0;
      while i < |items|
        invariant 0 <= i <= |items|
        invariant Worked(gone, Members(items[..i]), old(edits), old(reserved), edits, reserved)
      {
        MemberWorked(gone, items, i, old(edits), old(reserved), edits, reserved);
        if items[i].Member? && items[i].field.meta.id in gone {
          DropField(items[i].field);
        }
        i := i + 1;
      }
      assert items[..i] == items;
    }

    /** Inserts the numbers above `base` as one statement and drops them from the stack. */
    method InsertReserved(meta: Meta, base: nat)
      requires base <= |reserved|
      modifies this
      ensures reserved == old(reserved)[..base]
      ensures edits == old(edits) + ReserveEdits(meta, old(reserved)[base..])
    {
      if |reserved| == base {
        return;
      }
      reserved := reserved[..base] + SortInts(reserved[base..]);
      var text := WriteReserved(reserved[base..]);
      edits := edits + [Ins(meta.span.end - 1, text)];
      reserved := reserved[..base];
    }

    static method WriteReserved(sorted: seq<int>) returns (text: string)
      ensures text == ReservedText(sorted)
    {
      text := "\nreserved ";
      var i := 0;
      while i < |sorted|
        invariant 0 <= i <= |sorted|
        invariant text == "\nreserved " + Listed(sorted[..i])
      {
        ListedStep(sorted, i);
        Assoc("\nreserved ", Listed(sorted[..i]), ", ");
        Assoc("\nreserved ", Listed(sorted[..i]) + (if i > 0 then ", " else ""), Decimal(sorted[i]));
        if i > 0 {
          text := text + ", ";
        }
        text := text + Decimal(sorted[i]);
        i := i + 1;
      }
      assert sorted[..i] == sorted;
      text := text + ";\n";
    }

    method VisitMessage(m: Message)
      modifies this
      ensures edits == old(edits) + MessageEdits(gone, m)
      ensures reserved == old(reserved)
      decreases m
    {
      if m.meta.id in gone {
        DeleteMeta(m.meta);
        return;
      }
      var base := |reserved|;
      var i := 0;
      while i < |m.items|
        invariant 0 <= i <= |m.items|
        invariant edits == old(edits) + ItemsEdits(gone, m.items[..i])
        invariant reserved == old(reserved) + Numbers(Lost(gone, DirectFields(m.items[..i])))
      {
        ItemStep(gone, m.items, i);
        Assoc(old(edits), ItemsEdits(gone, m.items[..i]), ItemEdits(gone, m.items[i]));
        Assoc(old(reserved), Numbers(Lost(gone, DirectFields(m.items[..i]))),
              Numbers(Lost(gone, OwnFields(m.items[i]))));
        VisitItem(m.items[i]);
        i := i + 1;
      }
      assert m.items[..i] == m.items;
      ghost var lost := Numbers(Lost(gone, DirectFields(m.items)));
      Stacked(old(reserved), lost);
      Assoc(old(edits), ItemsEdits(gone, m.items), ReserveEdits(m.meta, lost));
      InsertReserved(m.meta, base);
    }

    method VisitItem(item: MsgItem)
      modifies this
      ensures edits == old(edits) + ItemEdits(gone, item)
      ensures reserved == old(reserved) + Numbers(Lost(gone, OwnFields(item)))
      decreases item
    {
      match item {
        case MsgField(f) =>
          LostAppend(gone, [], f);
          assert [] + [f] == [f];
          if f.meta.id in gone {
            DropField(f);
          }
        case MsgOneof(o) => VisitOneof(o);
        case MsgNested(nested) => VisitMessage(nested);
        case MsgEnum(e) => VisitEnum(e);
        case MsgOther =>
      }
    }

    method VisitEnum(e: Enum)
      modifies this
      ensures edits == old(edits) + EnumEdits(gone, e)
      ensures reserved == old(reserved)
    {
      if e.meta.id in gone {
        DeleteMeta(e.meta);
        return;
      }
      var base := |reserved|;
      DeleteInside(e.items);
      ghost var lost := Numbers(Lost(gone, Values(e.items)));
      Stacked(old(reserved), lost);
      if |reserved| > base {
        CompactReserved(e.items, base);
      }
      ghost var left := EnumReserves(gone, e.items);
      assert reserved == old(reserved) + left;
      Stacked(old(reserved), left);
      Assoc(old(edits), DeletedInside(gone, e.items), ReserveEdits(e.meta, left));
      InsertReserved(e.meta, base);
    }

    method DeleteInside(items: seq<EnumItem>)
      modifies this
      ensures edits == old(edits) + DeletedInside(gone, items)
      ensures reserved == old(reserved) + Numbers(Lost(gone, Values(items)))
    {
      var deletedAny := DeleteValues(items);
      Assoc(old(edits), DeleteAll(Metas(Lost(gone, Values(items)))), SwitchEdits(gone, items));
      if deletedAny {
        var aliased := KeptValuesAlias(items);
        if !aliased {
          DeleteSwitches(items);
        }
      }
    }

    /** One step of the first loop over an enum, given what the earlier steps did. */
    method DropValue(items: seq<EnumItem>, i: nat, ghost e0: seq<Edit>, ghost r0: seq<int>) returns (dropped: bool)
      requires i < |items| && Worked(gone, Values(items[..i]), e0, r0, edits, reserved)
      modifies this
      ensures Worked(gone, Values(items[..i + 1]), e0, r0, edits, reserved)
      ensures Lost(gone, Values(items[..i + 1])) != [] <==> dropped || Lost(gone, Values(items[..i])) != []
    {
      ValueWorked(gone, items, i, e0, r0, edits, reserved);
      dropped := items[i].Value? && items[i].field.meta.id in gone;
      if dropped {
        DropField(items[i].field);
      }
    }

    method DeleteValues(items: seq<EnumItem>) returns (deletedAny: bool)
      modifies this
      ensures edits == old(edits) + DeleteAll(Metas(Lost(gone, Values(items))))
      ensures reserved == old(reserved) + Numbers(Lost(gone, Values(items)))
      ensures deletedAny <==> Lost(gone, Values(items)) != []
    {
      deletedAny := false;
      var i := 0;
      while i < |items|
        invariant 0 <= i <= |items|
        invariant Worked(gone, Values(items[..i]), old(edits), old(reserved), edits, reserved)
        invariant deletedAny <==> Lost(gone, Values(items[..i])) != []
      {
        var dropped := DropValue(items, i, old(edits), old(reserved));
        deletedAny := deletedAny || dropped;
        i := i + 1;
      }
      assert items[..i] == items;
    }

    method DeleteSwitches(items: seq<EnumItem>)
      modifies this`edits
      ensures edits == old(edits) + DeleteAll(Switches(items))
    {
      var i := 0;
      while i < |items|
        invariant 0 <= i <= |items|
        invariant edits == old(edits) + DeleteAll(Switches(items[..i]))
      {
        SwitchStep(items, i);
        if IsSwitch(items[i]) {
          Assoc(old(edits), DeleteAll(Switches(items[..i])), NodeEdits(items[i].meta));
          DeleteMeta(items[i].meta);
        }
        i := i + 1;
      }
      assert items[..i] == items;
    }

    method KeptValuesAlias(items: seq<EnumItem>) returns (aliased: bool)
      ensures aliased <==> StillAliased(gone, items)
    {
      var i := 0;
      while i < |items|
        invariant 0 <= i <= |items|
        invariant forall p, q :: p < i && p < q && KeptAt(gone, items, p) && KeptAt(gone, items, q) ==>
          items[p].field.number != items[q].field.number
      {
        if KeptAt(gone, items, i) {
          var j := i + 1;
          while j < |items|
            invariant i < j <= |items|
            invariant forall q :: i < q < j && KeptAt(gone, items, q) ==>
              items[i].field.number != items[q].field.number
          {
            if KeptAt(gone, items, j) && items[j].field.number == items[i].field.number {
              return true;
            }
            j := j + 1;
          }
        }
        i := i + 1;
      }
      return false;
    }

    method IsAlive(items: seq<EnumItem>, n: int) returns (alive: bool)
      ensures alive <==> Alive(gone, items, n)
    {
      var i := 0;
      while i < |items|
        invariant 0 <= i <= |items|
        invariant forall q :: q < i && KeptAt(gone, items, q) ==> items[q].field.number != n
      {
        if KeptAt(gone, items, i) && items[i].field.number == n {
          return true;
        }
        i := i + 1;
      }
      return false;
    }

    /** Moves the number at `i` behind the write mark, unless it is a repetition or still in use. */
    method CompactSlot(items: seq<EnumItem>, base: nat, w: nat, i: nat, ghost below: seq<int>, ghost sorted: seq<int>)
      returns (next: nat)
      requires base == |below| && Compacting(gone, items, below, sorted, reserved, w, i) && i < |reserved|
      modifies this`reserved
      ensures Compacting(gone, items, below, sorted, reserved, next, i + 1)
    {
      CompactOne(gone, items, below, sorted, reserved, w, i);
      var skip := w > base && reserved[w - 1] == reserved[i];
      if !skip {
        skip := IsAlive(items, reserved[i]);
      }
      next := w;
      if !skip {
        reserved := reserved[w := reserved[i]];
        next := w + 1;
      }
    }

    /** Sorts the part above `base` and compacts it in place behind the write mark `w`. */
    method CompactReserved(items: seq<EnumItem>, base: nat)
      requires base <= |reserved|
      modifies this`reserved
      ensures reserved == old(reserved)[..base] + Compacted(gone, items, SortInts(old(reserved)[base..]))
    {
      ghost var below := reserved[..base];
      ghost var sorted := SortInts(reserved[base..]);
      reserved := reserved[..base] + SortInts(reserved[base..]);
      CompactStart(gone, items, below, sorted);
      var w, i := base, base;
      while i < |reserved|
        invariant Compacting(gone, items, below, sorted, reserved, w, i)
        invariant base == |below|
      {
        w := CompactSlot(items, base, w, i, below, sorted);
        i := i + 1;
      }
      CompactEnd(gone, items, below, sorted, reserved, w, i);
      reserved := reserved[..w];
    }

    method VisitService(s: Service)
      modifies this`edits
      ensures edits == old(edits) + ServiceEdits(gone, s)
    {
      if s.meta.id in gone {
        DeleteMeta(s.meta);
        return;
      }
      var i := 0;
      while i < |s.items|
        invariant 0 <= i <= |s.items|
        invariant edits == old(edits) + DeleteAll(LostRpcs(gone, s.items[..i]))
      {
        RpcStep(gone, s.items, i);
        if IsLostRpc(gone, s.items[i]) {
          Assoc(old(edits), DeleteAll(LostRpcs(gone, s.items[..i])), NodeEdits(s.items[i].meta));
          DeleteMeta(s.items[i].meta);
        }
        i := i + 1;
      }
      assert s.items[..i] == s.items;
    }
  }

  lemma ItemStep(gone: set<nat>, items: seq<MsgItem>, i: nat)
    requires i < |items|
    ensures ItemsEdits(gone, items[..i + 1]) == ItemsEdits(gone, items[..i]) + ItemEdits(gone, items[i])
    ensures Numbers(Lost(gone, DirectFields(items[..i + 1])))
      == Numbers(Lost(gone, DirectFields(items[..i]))) + Numbers(Lost(gone, OwnFields(items[i])))
  {
    assert items[..i + 1][..i] == items[..i];
    LostConcat(gone, DirectFields(items[..i]), OwnFields(items[i]));
    NumbersConcat(Lost(gone, DirectFields(items[..i])), Lost(gone, OwnFields(items[i])));
  }

  /** The text of one kept file after pruning. */
  method PruneFile(gone: set<nat>, src: string, items: seq<Item>) returns (text: string)
    requires forall k :: 0 <= k < |FileEdits(gone, items)| ==> ValidFor(src, FileEdits(gone, items)[k])
    ensures text == Spliced(src, FileEdits(gone, items))
  {
    var p := new Pruner(gone);
    var i := 0;
    while i < |items|
      invariant 0 <= i <= |items|
      invariant p.gone == gone && p.edits == FileEdits(gone, items[..i]) && p.reserved == []
    {
      assert items[..i + 1][..i] == items[..i];
      match items[i] {
        case TopMessage(m) => p.VisitMessage(m);
        case TopEnum(e) => p.VisitEnum(e);
        case TopService(s) => p.VisitService(s);
        case TopImport(meta, survives) =>
          if !survives {
            p.DeleteMeta(meta);
          }
        case TopOther =>
      }
      i := i + 1;
    }
    assert items[..i] == items;
    text := ApplyEdits(src, p.edits);
  }
}
