/** What pruning does to the text of one file.

  The deletions cover the tokens of the nodes that do not survive and, besides
  these, whatever the leading comments of a deleted node reach back over. So
  deleting is exact if and only if no such reach touches a token that stays.
  Each `reserved` statement stands right before the closing brace of the scope
  it speaks for. Module Placement shows that the trees the parser builds stand
  in the text as required here, and when their comments reach back too far.
 */
module PrunedText {
  import opened Symbols
  import opened Edits
  import opened Pruner
  import Selection
  import Closure

  // ---- numbers are conserved --------------------------------------------------------------

  function Kept(gone: set<nat>, fields: seq<Field>): (r: seq<Field>)
    ensures forall f :: f in r <==> f in fields && f.meta.id !in gone
  {
    if fields == [] then []
    else
      var last := fields[|fields| - 1];
      assert fields == fields[..|fields| - 1] + [last];
      Kept(gone, fields[..|fields| - 1]) + if last.meta.id in gone then [] else [last]
  }

  lemma NumbersOfOne(fields: seq<Field>, f: Field)
    ensures multiset(Numbers(fields + [f])) == multiset(Numbers(fields)) + multiset{f.number}
  {
    NumbersConcat(fields, [f]);
    assert Numbers([f]) == [f.number];
  }

  lemma {:induction false} NumbersSplit(gone: set<nat>, fields: seq<Field>)
    ensures multiset(Numbers(fields))
      == multiset(Numbers(Kept(gone, fields))) + multiset(Numbers(Lost(gone, fields)))
  {
    if fields == [] {
      assert Numbers(fields) == [];
    } else {
      var init, last := fields[..|fields| - 1], fields[|fields| - 1];
      assert fields == init + [last];
      NumbersSplit(gone, init);
      NumbersOfOne(init, last);
      if last.meta.id in gone {
        NumbersOfOne(Lost(gone, init), last);
        assert Kept(gone, fields) == Kept(gone, init);
      } else {
        NumbersOfOne(Kept(gone, init), last);
        assert Lost(gone, fields) == Lost(gone, init);
      }
    }
  }

  /** Every number a message had is still in use by a surviving field or is reserved, exactly as often as before. */
  lemma NumbersConserved(gone: set<nat>, fields: seq<Field>)
    ensures multiset(Numbers(Kept(gone, fields))) + multiset(SortInts(Numbers(Lost(gone, fields))))
      == multiset(Numbers(fields))
  {
    NumbersSplit(gone, fields);
  }

  /** A oneof that stays keeps a field, unless it never had one. */
  lemma StayingOneof(gone: set<nat>, o: Oneof)
    ensures !GoesWhole(gone, o) <==> Members(o.items) == [] || Kept(gone, Members(o.items)) != []
  {
    var fields, kept := Members(o.items), Kept(gone, Members(o.items));
    if kept != [] {
      assert kept[0] in kept;
    }
    if f :| f in fields && f.meta.id !in gone {
      assert f in kept;
    }
  }

  // ---- enums stay legal --------------------------------------------------------------------

  predicate StrictlyAscending(s: seq<int>) {
    forall i, j :: 0 <= i < j < |s| ==> s[i] < s[j]
  }

  lemma {:induction false} CompactedMembers(gone: set<nat>, items: seq<EnumItem>, sorted: seq<int>)
    ensures forall n :: n in Compacted(gone, items, sorted) <==> n in sorted && !Alive(gone, items, n)
  {
    if sorted != [] {
      var init, last := sorted[..|sorted| - 1], sorted[|sorted| - 1];
      assert sorted == init + [last];
      CompactedMembers(gone, items, init);
      var rest := Compacted(gone, items, init);
      assert rest != [] && rest[|rest| - 1] == last ==> last in rest;
    }
  }

  lemma {:induction false} CompactedExact(gone: set<nat>, items: seq<EnumItem>, sorted: seq<int>)
    requires SortedInts(sorted)
    ensures StrictlyAscending(Compacted(gone, items, sorted))
    ensures forall n :: n in Compacted(gone, items, sorted) <==> n in sorted && !Alive(gone, items, n)
  {
    CompactedMembers(gone, items, sorted);
    if sorted != [] {
      var init, last := sorted[..|sorted| - 1], sorted[|sorted| - 1];
      CompactedExact(gone, items, init);
      var rest := Compacted(gone, items, init);
      forall i | 0 <= i < |rest| && rest[|rest| - 1] != last ensures rest[i] < last {
        assert rest[i] in rest && rest[|rest| - 1] in rest;
        assert rest[i] in sorted && rest[|rest| - 1] in sorted;
        LastIsGreatest(rest);
      }
    }
  }

  lemma LastIsGreatest(s: seq<int>)
    requires s != [] && StrictlyAscending(s)
    ensures forall n :: n in s ==> n <= s[|s| - 1]
  {
  }

  lemma {:induction false} NumberIn(fields: seq<Field>, n: int)
    ensures n in Numbers(fields) <==> exists f :: f in fields && f.number == n
  {
    if n in Numbers(fields) {
      var i :| 0 <= i < |fields| && Numbers(fields)[i] == n;
      assert fields[i] in fields;
    }
    if f :| f in fields && f.number == n {
      var i :| 0 <= i < |fields| && fields[i] == f;
      assert Numbers(fields)[i] == n;
    }
  }

  /** The reserved numbers of an enum: increasing, and just the deleted ones no survivor uses. */
  lemma EnumReservesExact(gone: set<nat>, items: seq<EnumItem>)
    ensures StrictlyAscending(EnumReserves(gone, items))
    ensures forall n :: n in EnumReserves(gone, items) <==>
      (exists f :: f in Values(items) && f.meta.id in gone && f.number == n) && !Alive(gone, items, n)
  {
    var lost := Lost(gone, Values(items));
    var sorted := SortInts(Numbers(lost));
    CompactedExact(gone, items, sorted);
    forall n
      ensures n in sorted <==> exists f :: f in Values(items) && f.meta.id in gone && f.number == n
    {
      assert n in sorted <==> n in multiset(sorted);
      assert n in Numbers(lost) <==> n in multiset(Numbers(lost));
      NumberIn(lost, n);
    }
  }

  /** The values of the enum node are the children of its symbol, in order. */
  ghost predicate Mirrors(t: Table, marks: seq<Closure.Mark>, e: nat, gone: set<nat>, items: seq<EnumItem>)
    requires WellFormed(t) && |marks| == |t.syms| && e < |t.syms|
  {
    && |t.children[e]| == |Values(items)|
    && forall k: nat :: k < |t.children[e]| ==>
         && t.syms[t.children[e][k]].number == Some(Values(items)[k].number)
         && (Values(items)[k].meta.id in gone <==> marks[t.children[e][k]].Unmarked?)
  }

  lemma {:induction false} NoneKept(gone: set<nat>, fields: seq<Field>)
    requires forall k :: 0 <= k < |fields| ==> fields[k].meta.id in gone
    ensures Kept(gone, fields) == []
  {
    if fields != [] {
      NoneKept(gone, fields[..|fields| - 1]);
    }
  }

  lemma {:induction false} FirstKept(gone: set<nat>, fields: seq<Field>, k: nat)
    requires k < |fields| && fields[k].meta.id !in gone
    requires forall j :: 0 <= j < k ==> fields[j].meta.id in gone
    ensures Kept(gone, fields) != [] && Kept(gone, fields)[0] == fields[k]
  {
    var init := fields[..|fields| - 1];
    if k < |init| {
      FirstKept(gone, init, k);
    } else {
      NoneKept(gone, init);
    }
  }

  lemma {:induction false} ValueAt(items: seq<EnumItem>, f: Field) returns (i: nat)
    requires f in Values(items)
    ensures i < |items| && items[i] == Value(f)
  {
    var init, last := items[..|items| - 1], items[|items| - 1];
    if last == Value(f) {
      i := |items| - 1;
    } else {
      i := ValueAt(init, f);
    }
  }

  /** A surviving enum of a successful selection is non-empty, starts with zero, and reserves no number it still uses. */
  lemma EnumStaysLegal(t: Table, marks: seq<Closure.Mark>, e: nat, gone: set<nat>, items: seq<EnumItem>)
    requires WellFormed(t) && |marks| == |t.syms| && e < |t.syms|
    requires t.syms[e].kind.Enum? && t.syms[e].file.Some? && !marks[e].Unmarked?
    requires Selection.LegalEnums(t, marks) && Mirrors(t, marks, e, gone, items)
    ensures Kept(gone, Values(items)) != [] && Kept(gone, Values(items))[0].number == 0
    ensures forall f :: f in Kept(gone, Values(items)) ==> f.number !in EnumReserves(gone, items)
  {
    assert Selection.LegalEnum(t, marks, e);
    var k: nat :| k < |t.children[e]| && Selection.IsFirstKept(t, marks, e, k)
                  && t.syms[t.children[e][k]].number == Some(0);
    FirstKept(gone, Values(items), k);
    forall f | f in Kept(gone, Values(items)) ensures f.number !in EnumReserves(gone, items) {
      var i := ValueAt(items, f);
      assert KeptAt(gone, items, i);
      EnumReservesExact(gone, items);
    }
  }

  /** `allow_alias = true` goes exactly when something was deleted and no two survivors share a number. */
  ghost predicate SwitchGoes(gone: set<nat>, items: seq<EnumItem>) {
    && (exists f :: f in Values(items) && f.meta.id in gone)
    && !StillAliased(gone, items)
  }

  // ---- where nodes and comments stand --------------------------------------------------------

  predicate Has(meta: Meta, k: nat) {
    meta.lo <= k < meta.hi
  }

  predicate InToken(tokens: seq<Span>, k: nat, p: nat) {
    k < |tokens| && tokens[k].start <= p < tokens[k].end
  }

  predicate Apart(tokens: seq<Span>, limit: nat) {
    && (forall i :: 0 <= i < |tokens| ==> tokens[i].start < tokens[i].end <= limit)
    && (forall i, j :: 0 <= i < j < |tokens| ==> tokens[i].end <= tokens[j].start)
  }

  /** No comment starts or ends before an earlier one does. */
  predicate InRow(comments: seq<Span>) {
    forall i, j :: 0 <= i < j < |comments| ==> comments[i].start <= comments[j].start && comments[i].end <= comments[j].end
  }

  /** The leading comments of a node end before it, and the trailing ones start behind its first token. */
  predicate Around(tokens: seq<Span>, meta: Meta)
    requires meta.lo < |tokens|
  {
    && InRow(meta.leading) && InRow(meta.trailing)
    && (meta.leading != [] ==> meta.leading[|meta.leading| - 1].end <= tokens[meta.lo].start)
    && (meta.trailing != [] ==> tokens[meta.lo].start <= meta.trailing[0].start)
  }

  /** The span runs over the tokens of the node, its comments stand around it, its trailing comments end before the
    next token, and its detached comments stay off all tokens. */
  predicate Sound(tokens: seq<Span>, limit: nat, meta: Meta) {
    && meta.lo < meta.hi <= |tokens|
    && meta.span == Span(tokens[meta.lo].start, tokens[meta.hi - 1].end) && Around(tokens, meta)
    && (meta.trailing != [] && meta.hi < |tokens| ==> meta.trailing[|meta.trailing| - 1].end <= tokens[meta.hi].start)
    && (meta.trailing != [] ==> meta.trailing[|meta.trailing| - 1].end <= limit)
    && (forall d :: d in meta.detached ==> d.start <= d.end <= limit && OffTokens(tokens, d))
  }

  predicate OffTokens(tokens: seq<Span>, d: Span) {
    forall k :: 0 <= k < |tokens| ==> d.end <= tokens[k].start || tokens[k].end <= d.start
  }

  lemma CoveredConcat(a: seq<Edit>, b: seq<Edit>, p: nat)
    ensures Covered(a + b, p) <==> Covered(a, p) || Covered(b, p)
  {
    if i :| 0 <= i < |a| && a[i].Del? && a[i].start <= p < a[i].end {
      assert (a + b)[i] == a[i];
    }
    if i :| 0 <= i < |b| && b[i].Del? && b[i].start <= p < b[i].end {
      assert (a + b)[|a| + i] == b[i];
    }
  }

  /** Deleting the node reaches back to `p` in the earlier token `k`. */
  predicate Overruns(meta: Meta, k: nat, p: nat) {
    k < meta.lo && Extent(meta).start <= p
  }

  /** Deleting a node covers its own tokens and what its leading comments reach back over. */
  lemma NodeCovers(tokens: seq<Span>, limit: nat, meta: Meta, k: nat, p: nat)
    requires Apart(tokens, limit) && Sound(tokens, limit, meta) && InToken(tokens, k, p)
    ensures Covered(NodeEdits(meta), p) <==> Has(meta, k) || Overruns(meta, k, p)
  {
    var x, dels := Extent(meta), SpanEdits(meta.detached);
    var whole := [Del(x.start, x.end)];
    CoveredConcat(whole, dels, p);
    assert whole[0].start == x.start && whole[0].end == x.end;
    assert !Covered(dels, p) by {
      forall i | 0 <= i < |dels| ensures !(dels[i].start <= p < dels[i].end) {
        assert meta.detached[i] in meta.detached;
        assert OffTokens(tokens, meta.detached[i]);
      }
    }
    assert Covered(whole, p) <==> x.start <= p < x.end;
  }

  ghost predicate SomeHas(metas: seq<Meta>, k: nat) {
    exists meta :: meta in metas && Has(meta, k)
  }

  ghost predicate SomeOverruns(metas: seq<Meta>, k: nat, p: nat) {
    exists meta :: meta in metas && Overruns(meta, k, p)
  }

  lemma {:induction false} DeletedCovers(tokens: seq<Span>, limit: nat, metas: seq<Meta>, k: nat, p: nat)
    requires Apart(tokens, limit) && InToken(tokens, k, p)
    requires forall meta :: meta in metas ==> Sound(tokens, limit, meta)
    ensures Covered(DeleteAll(metas), p) <==> SomeHas(metas, k) || SomeOverruns(metas, k, p)
  {
    if metas != [] {
      var init, last := metas[..|metas| - 1], metas[|metas| - 1];
      assert metas == init + [last];
      DeletedCovers(tokens, limit, init, k, p);
      NodeCovers(tokens, limit, last, k, p);
      CoveredConcat(DeleteAll(init), NodeEdits(last), p);
    }
  }

  lemma {:induction false} DeletedInserts(metas: seq<Meta>)
    ensures forall e :: e in DeleteAll(metas) ==> e.Del?
  {
    if metas != [] {
      DeletedInserts(metas[..|metas| - 1]);
    }
  }

  lemma ReservesCoverNothing(meta: Meta, ns: seq<int>, p: nat)
    ensures !Covered(ReserveEdits(meta, ns), p)
  {
  }

  // ---- the tree inside the token stream ---------------------------------------------------------

  /** The members of a scope lie between its first and its last token. */
  predicate Inside(tokens: seq<Span>, limit: nat, outer: Meta, metas: seq<Meta>) {
    forall meta :: meta in metas ==> Sound(tokens, limit, meta) && outer.lo < meta.lo && meta.hi < outer.hi
  }

  /** A scope ends with a one-character token, its closing brace. */
  predicate Braced(tokens: seq<Span>, meta: Meta) {
    0 < meta.hi <= |tokens| && tokens[meta.hi - 1].start == meta.span.end - 1
  }

  predicate OneofPlaced(tokens: seq<Span>, limit: nat, o: Oneof) {
    Sound(tokens, limit, o.meta) && Inside(tokens, limit, o.meta, Metas(Members(o.items)))
  }

  predicate EnumPlaced(tokens: seq<Span>, limit: nat, e: Enum) {
    && Sound(tokens, limit, e.meta) && Braced(tokens, e.meta)
    && Inside(tokens, limit, e.meta, Metas(Values(e.items)))
    && Inside(tokens, limit, e.meta, Switches(e.items))
  }

  predicate ServicePlaced(tokens: seq<Span>, limit: nat, s: Service) {
    && Sound(tokens, limit, s.meta)
    && forall item :: item in s.items && item.Rpc? ==>
         Sound(tokens, limit, item.meta) && s.meta.lo < item.meta.lo && item.meta.hi < s.meta.hi
  }

  predicate MessagePlaced(tokens: seq<Span>, limit: nat, m: Message) {
    && Sound(tokens, limit, m.meta) && Braced(tokens, m.meta)
    && ItemsPlaced(tokens, limit, m.items, m.meta.lo + 1, m.meta.hi - 1)
  }

  function ItemMeta(item: MsgItem): Option<Meta> {
    match item
    case MsgField(f) => Some(f.meta)
    case MsgOneof(o) => Some(o.meta)
    case MsgNested(m) => Some(m.meta)
    case MsgEnum(e) => Some(e.meta)
    case MsgOther => None
  }

  /** The items stand one after the other between the tokens `lo` and `hi`. */
  predicate ItemsPlaced(tokens: seq<Span>, limit: nat, items: seq<MsgItem>, lo: int, hi: int) {
    if items == [] then lo <= hi
    else
      var last := items[|items| - 1];
      assert last in items;
      var meta := ItemMeta(last);
      && ItemPlaced(tokens, limit, last)
      && (meta.Some? ==> meta.value.hi <= hi)
      && ItemsPlaced(tokens, limit, items[..|items| - 1], lo, if meta.Some? then meta.value.lo else hi)
  }

  predicate ItemPlaced(tokens: seq<Span>, limit: nat, item: MsgItem) {
    match item
    case MsgField(f) => Sound(tokens, limit, f.meta)
    case MsgOneof(o) => OneofPlaced(tokens, limit, o)
    case MsgNested(m) => MessagePlaced(tokens, limit, m)
    case MsgEnum(e) => EnumPlaced(tokens, limit, e)
    case MsgOther => true
  }

  // ---- which tokens have to go ----------------------------------------------------------------

  ghost predicate LostHas(gone: set<nat>, fields: seq<Field>, k: nat) {
    exists f :: f in fields && f.meta.id in gone && Has(f.meta, k)
  }

  ghost predicate OneofGoes(gone: set<nat>, o: Oneof, k: nat) {
    (GoesWhole(gone, o) && Has(o.meta, k)) || LostHas(gone, Members(o.items), k)
  }

  ghost predicate EnumGoes(gone: set<nat>, e: Enum, k: nat) {
    || (e.meta.id in gone && Has(e.meta, k))
    || LostHas(gone, Values(e.items), k)
    || (SwitchGoes(gone, e.items) && SomeHas(Switches(e.items), k))
  }

  ghost predicate ServiceGoes(gone: set<nat>, s: Service, k: nat) {
    || (s.meta.id in gone && Has(s.meta, k))
    || exists item :: item in s.items && IsLostRpc(gone, item) && Has(item.meta, k)
  }

  /** Token `k` belongs to a node of this message, at any depth, that does not survive. */
  ghost predicate MessageGoes(gone: set<nat>, m: Message, k: nat) {
    (m.meta.id in gone && Has(m.meta, k)) || ItemsGo(gone, m.items, k)
  }

  ghost predicate ItemsGo(gone: set<nat>, items: seq<MsgItem>, k: nat) {
    exists i :: 0 <= i < |items| && ItemGoes(gone, items[i], k)
  }

  ghost predicate ItemGoes(gone: set<nat>, item: MsgItem, k: nat) {
    match item
    case MsgField(f) => f.meta.id in gone && Has(f.meta, k)
    case MsgOneof(o) => OneofGoes(gone, o, k)
    case MsgNested(m) => MessageGoes(gone, m, k)
    case MsgEnum(e) => EnumGoes(gone, e, k)
    case MsgOther => false
  }

  // ---- which nodes are deleted ------------------------------------------------------------------

  function OneofDoomed(gone: set<nat>, o: Oneof): (r: seq<Meta>) {
    if GoesWhole(gone, o) then [o.meta] else Metas(Lost(gone, Members(o.items)))
  }

  ghost function SwitchDoomed(gone: set<nat>, items: seq<EnumItem>): (r: seq<Meta>) {
    if SwitchGoes(gone, items) then Switches(items) else []
  }

  ghost function EnumDoomed(gone: set<nat>, e: Enum): (r: seq<Meta>) {
    if e.meta.id in gone then [e.meta] else Metas(Lost(gone, Values(e.items))) + SwitchDoomed(gone, e.items)
  }

  function ServiceDoomed(gone: set<nat>, s: Service): (r: seq<Meta>) {
    if s.meta.id in gone then [s.meta] else LostRpcs(gone, s.items)
  }

  /** The nodes of a message that are deleted, outermost ones only, in the order in which the visitor meets them. */
  ghost function MessageDoomed(gone: set<nat>, m: Message): (r: seq<Meta>) {
    if m.meta.id in gone then [m.meta] else ItemsDoomed(gone, m.items)
  }

  ghost function ItemsDoomed(gone: set<nat>, items: seq<MsgItem>): (r: seq<Meta>) {
    if items == [] then []
    else
      assert items[|items| - 1] in items;
      ItemsDoomed(gone, items[..|items| - 1]) + ItemDoomed(gone, items[|items| - 1])
  }

  ghost function ItemDoomed(gone: set<nat>, item: MsgItem): (r: seq<Meta>) {
    match item
    case MsgField(f) => if f.meta.id in gone then [f.meta] else []
    case MsgOneof(o) => OneofDoomed(gone, o)
    case MsgNested(m) => MessageDoomed(gone, m)
    case MsgEnum(e) => EnumDoomed(gone, e)
    case MsgOther => []
  }

  lemma {:induction false} ItemsGoSplit(gone: set<nat>, items: seq<MsgItem>, k: nat)
    requires items != []
    ensures ItemsGo(gone, items, k)
      <==> ItemsGo(gone, items[..|items| - 1], k) || ItemGoes(gone, items[|items| - 1], k)
  {
    var init := items[..|items| - 1];
    if i :| 0 <= i < |init| && ItemGoes(gone, init[i], k) {
      assert ItemGoes(gone, items[i], k);
    }
    if i :| 0 <= i < |items| && ItemGoes(gone, items[i], k) {
      assert i < |init| ==> ItemGoes(gone, init[i], k);
    }
  }

  lemma PlacedSound(tokens: seq<Span>, limit: nat, item: MsgItem)
    requires ItemPlaced(tokens, limit, item)
    ensures ItemMeta(item).Some? ==> Sound(tokens, limit, ItemMeta(item).value)
  {
    match item
    case MsgField(f) =>
    case MsgOneof(o) =>
    case MsgNested(m) =>
    case MsgEnum(e) =>
    case MsgOther =>
  }

  /** A token that goes with a node lies inside that node. */
  lemma {:induction false} GoesInside(tokens: seq<Span>, limit: nat, gone: set<nat>, item: MsgItem, k: nat)
    requires ItemPlaced(tokens, limit, item) && ItemGoes(gone, item, k)
    ensures ItemMeta(item).Some? && Has(ItemMeta(item).value, k)
    decreases item
  {
    match item
    case MsgField(f) =>
    case MsgOneof(o) =>
      if f :| f in Members(o.items) && f.meta.id in gone && Has(f.meta, k) {
        MetaIn(Members(o.items), f);
      }
    case MsgNested(m) =>
      if ItemsGo(gone, m.items, k) {
        AllGoInside(tokens, limit, gone, m.items, k, m.meta.lo + 1, m.meta.hi - 1);
      }
    case MsgEnum(e) =>
      if f :| f in Values(e.items) && f.meta.id in gone && Has(f.meta, k) {
        MetaIn(Values(e.items), f);
      }
    case MsgOther =>
  }

  lemma {:induction false} AllGoInside(tokens: seq<Span>, limit: nat, gone: set<nat>, items: seq<MsgItem>, k: nat,
      lo: int, hi: int)
    requires ItemsPlaced(tokens, limit, items, lo, hi) && ItemsGo(gone, items, k)
    ensures lo <= k < hi
    decreases items
  {
    var init, last := items[..|items| - 1], items[|items| - 1];
    var mid := if ItemMeta(last).Some? then ItemMeta(last).value.lo else hi;
    assert last in items;
    ItemsGoSplit(gone, items, k);
    PlacedBounds(tokens, limit, init, lo, mid);
    if ItemGoes(gone, last, k) {
      GoesInside(tokens, limit, gone, last, k);
    } else {
      AllGoInside(tokens, limit, gone, init, k, lo, mid);
      assert ItemMeta(last).Some? ==> mid <= hi by {
        if ItemMeta(last).Some? {
          PlacedSound(tokens, limit, last);
        }
      }
    }
  }

  lemma {:induction false} PlacedBounds(tokens: seq<Span>, limit: nat, items: seq<MsgItem>, lo: int, hi: int)
    requires ItemsPlaced(tokens, limit, items, lo, hi)
    ensures lo <= hi
  {
    if items != [] {
      var last := items[|items| - 1];
      PlacedBounds(tokens, limit, items[..|items| - 1], lo, if ItemMeta(last).Some? then ItemMeta(last).value.lo else hi);
      PlacedSound(tokens, limit, last);
    }
  }

  lemma MetaIn(fields: seq<Field>, f: Field)
    requires f in fields
    ensures f.meta in Metas(fields)
  {
    var i :| 0 <= i < |fields| && fields[i] == f;
    assert Metas(fields)[i] == f.meta;
  }

  lemma LostMetas(gone: set<nat>, fields: seq<Field>, k: nat)
    ensures SomeHas(Metas(Lost(gone, fields)), k) <==> LostHas(gone, fields, k)
    ensures forall meta :: meta in Metas(Lost(gone, fields)) ==> meta in Metas(fields)
  {
    var lost := Lost(gone, fields);
    forall meta | meta in Metas(lost) ensures meta in Metas(fields) && exists f :: f in lost && f.meta == meta {
      var i :| 0 <= i < |lost| && Metas(lost)[i] == meta;
      assert lost[i] in lost;
      MetaIn(fields, lost[i]);
    }
    if f :| f in fields && f.meta.id in gone && Has(f.meta, k) {
      MetaIn(lost, f);
    }
  }

  lemma FieldsCover(tokens: seq<Span>, limit: nat, gone: set<nat>, fields: seq<Field>, k: nat, p: nat)
    requires Apart(tokens, limit) && InToken(tokens, k, p)
    requires forall meta :: meta in Metas(fields) ==> Sound(tokens, limit, meta)
    ensures Covered(DeleteAll(Metas(Lost(gone, fields))), p)
      <==> LostHas(gone, fields, k) || SomeOverruns(Metas(Lost(gone, fields)), k, p)
  {
    LostMetas(gone, fields, k);
    DeletedCovers(tokens, limit, Metas(Lost(gone, fields)), k, p);
  }

  lemma OneofCovers(tokens: seq<Span>, limit: nat, gone: set<nat>, o: Oneof, k: nat, p: nat)
    requires Apart(tokens, limit) && InToken(tokens, k, p) && OneofPlaced(tokens, limit, o)
    ensures Covered(OneofEdits(gone, o), p) <==> OneofGoes(gone, o, k) || SomeOverruns(OneofDoomed(gone, o), k, p)
  {
    var fields := Members(o.items);
    FieldsCover(tokens, limit, gone, fields, k, p);
    NodeCovers(tokens, limit, o.meta, k, p);
    if f :| f in fields && f.meta.id in gone && Has(f.meta, k) {
      MetaIn(fields, f);
    }
  }

  lemma SwitchCovers(tokens: seq<Span>, limit: nat, gone: set<nat>, e: Enum, k: nat, p: nat)
    requires Apart(tokens, limit) && InToken(tokens, k, p) && EnumPlaced(tokens, limit, e)
    ensures Covered(SwitchEdits(gone, e.items), p)
      <==> SomeHas(SwitchDoomed(gone, e.items), k) || SomeOverruns(SwitchDoomed(gone, e.items), k, p)
  {
    DeletedCovers(tokens, limit, Switches(e.items), k, p);
    var lost := Lost(gone, Values(e.items));
    if lost != [] {
      assert lost[0] in lost;
    }
  }

  lemma EnumCovers(tokens: seq<Span>, limit: nat, gone: set<nat>, e: Enum, k: nat, p: nat)
    requires Apart(tokens, limit) && InToken(tokens, k, p) && EnumPlaced(tokens, limit, e)
    ensures Covered(EnumEdits(gone, e), p) <==> EnumGoes(gone, e, k) || SomeOverruns(EnumDoomed(gone, e), k, p)
  {
    NodeCovers(tokens, limit, e.meta, k, p);
    if e.meta.id in gone {
      if EnumGoes(gone, e, k) {
        GoesInside(tokens, limit, gone, MsgEnum(e), k);
      }
    } else {
      var dels := DeletedInside(gone, e.items);
      FieldsCover(tokens, limit, gone, Values(e.items), k, p);
      SwitchCovers(tokens, limit, gone, e, k, p);
      CoveredConcat(DeleteAll(Metas(Lost(gone, Values(e.items)))), SwitchEdits(gone, e.items), p);
      CoveredConcat(dels, ReserveEdits(e.meta, EnumReserves(gone, e.items)), p);
      ReservesCoverNothing(e.meta, EnumReserves(gone, e.items), p);
    }
  }

  /** The edits of a message cover exactly the tokens that have to go and what is reached back over. */
  lemma {:induction false} MessageCovers(tokens: seq<Span>, limit: nat, gone: set<nat>, m: Message, k: nat, p: nat)
    requires Apart(tokens, limit) && InToken(tokens, k, p) && MessagePlaced(tokens, limit, m)
    ensures Covered(MessageEdits(gone, m), p)
      <==> MessageGoes(gone, m, k) || SomeOverruns(MessageDoomed(gone, m), k, p)
    decreases m
  {
    if m.meta.id in gone {
      WholeMessageCovers(tokens, limit, gone, m, k, p);
    } else {
      var ns := Numbers(Lost(gone, DirectFields(m.items)));
      ItemsCover(tokens, limit, gone, m.items, k, p, m.meta.lo + 1, m.meta.hi - 1);
      CoveredConcat(ItemsEdits(gone, m.items), ReserveEdits(m.meta, ns), p);
      ReservesCoverNothing(m.meta, ns, p);
    }
  }

  lemma WholeMessageCovers(tokens: seq<Span>, limit: nat, gone: set<nat>, m: Message, k: nat, p: nat)
    requires Apart(tokens, limit) && InToken(tokens, k, p) && MessagePlaced(tokens, limit, m) && m.meta.id in gone
    ensures Covered(NodeEdits(m.meta), p) <==> MessageGoes(gone, m, k) || SomeOverruns([m.meta], k, p)
  {
    NodeCovers(tokens, limit, m.meta, k, p);
    if MessageGoes(gone, m, k) {
      GoesInside(tokens, limit, gone, MsgNested(m), k);
    }
  }

  lemma {:induction false} ItemsCover(tokens: seq<Span>, limit: nat, gone: set<nat>, items: seq<MsgItem>, k: nat,
      p: nat, lo: int, hi: int)
    requires Apart(tokens, limit) && InToken(tokens, k, p) && ItemsPlaced(tokens, limit, items, lo, hi)
    ensures Covered(ItemsEdits(gone, items), p)
      <==> ItemsGo(gone, items, k) || SomeOverruns(ItemsDoomed(gone, items), k, p)
    decreases items
  {
    if items != [] {
      var init, last := items[..|items| - 1], items[|items| - 1];
      assert last in items;
      ItemsCover(tokens, limit, gone, init, k, p, lo, if ItemMeta(last).Some? then ItemMeta(last).value.lo else hi);
      ItemCovers(tokens, limit, gone, last, k, p);
      CoveredConcat(ItemsEdits(gone, init), ItemEdits(gone, last), p);
      ItemsGoSplit(gone, items, k);
    }
  }

  lemma {:induction false} ItemCovers(tokens: seq<Span>, limit: nat, gone: set<nat>, item: MsgItem, k: nat, p: nat)
    requires Apart(tokens, limit) && InToken(tokens, k, p) && ItemPlaced(tokens, limit, item)
    ensures Covered(ItemEdits(gone, item), p) <==> ItemGoes(gone, item, k) || SomeOverruns(ItemDoomed(gone, item), k, p)
    decreases item
  {
    match item
    case MsgField(f) => NodeCovers(tokens, limit, f.meta, k, p);
    case MsgOneof(o) => OneofCovers(tokens, limit, gone, o, k, p);
    case MsgNested(m) => MessageCovers(tokens, limit, gone, m, k, p);
    case MsgEnum(e) => EnumCovers(tokens, limit, gone, e, k, p);
    case MsgOther =>
  }

  // ---- where the `reserved` statements go ---------------------------------------------------------

  predicate Within(limit: nat, e: Edit) {
    match e
    case Del(a, b) => a <= b <= limit
    case Ins(at, _) => at <= limit
  }

  /** All edits fit the text; every insertion stands at the start of one of the tokens [lo, hi), no two at the same. */
  ghost predicate Orderly(tokens: seq<Span>, limit: nat, edits: seq<Edit>, lo: int, hi: int) {
    && OneTextEach(edits)
    && (forall e :: e in edits ==> Within(limit, e))
    && forall e :: e in edits && e.Ins? ==> exists j :: AtToken(tokens, e, j) && lo <= j < hi
  }

  predicate AtToken(tokens: seq<Span>, e: Edit, j: int) {
    0 <= j < |tokens| && e.Ins? && e.at == tokens[j].start
  }

  lemma OnlyDeletions(tokens: seq<Span>, limit: nat, edits: seq<Edit>, lo: int, hi: int)
    requires forall e :: e in edits ==> e.Del? && Within(limit, e)
    ensures Orderly(tokens, limit, edits, lo, hi)
  {
    forall i | 0 <= i < |edits| ensures edits[i].Del? {
      assert edits[i] in edits;
    }
  }

  lemma NodeOrderly(tokens: seq<Span>, limit: nat, meta: Meta, lo: int, hi: int)
    requires Apart(tokens, limit) && Sound(tokens, limit, meta)
    ensures forall e :: e in NodeEdits(meta) ==> e.Del? && Within(limit, e)
    ensures Orderly(tokens, limit, NodeEdits(meta), lo, hi)
  {
    forall e | e in NodeEdits(meta) ensures e.Del? && Within(limit, e) {
      if e in SpanEdits(meta.detached) {
        var i :| 0 <= i < |meta.detached| && e == SpanEdits(meta.detached)[i];
        assert meta.detached[i] in meta.detached;
      } else {
        assert tokens[meta.lo].start < tokens[meta.hi - 1].end;
      }
    }
    OnlyDeletions(tokens, limit, NodeEdits(meta), lo, hi);
  }

  lemma {:induction false} DeletedOrderly(tokens: seq<Span>, limit: nat, metas: seq<Meta>, lo: int, hi: int)
    requires Apart(tokens, limit)
    requires forall meta :: meta in metas ==> Sound(tokens, limit, meta)
    ensures forall e :: e in DeleteAll(metas) ==> e.Del? && Within(limit, e)
    ensures Orderly(tokens, limit, DeleteAll(metas), lo, hi)
  {
    if metas != [] {
      var init, last := metas[..|metas| - 1], metas[|metas| - 1];
      assert metas == init + [last];
      DeletedOrderly(tokens, limit, init, lo, hi);
      NodeOrderly(tokens, limit, last, lo, hi);
    }
    OnlyDeletions(tokens, limit, DeleteAll(metas), lo, hi);
  }

  /** Insertions at different tokens are at different positions. */
  lemma OrderlyConcat(tokens: seq<Span>, limit: nat, a: seq<Edit>, b: seq<Edit>, lo: int, mid: int, hi: int)
    requires Apart(tokens, limit) && lo <= mid <= hi
    requires Orderly(tokens, limit, a, lo, mid) && Orderly(tokens, limit, b, mid, hi)
    ensures Orderly(tokens, limit, a + b, lo, hi)
  {
    var all := a + b;
    forall i, j | 0 <= i < j < |all| && all[i].Ins? && all[j].Ins? ensures all[i].at != all[j].at {
      if i < |a| <= j {
        assert all[i] in a && all[j] in b;
        var x :| AtToken(tokens, all[i], x) && lo <= x < mid;
        var y :| AtToken(tokens, all[j], y) && mid <= y < hi;
      }
    }
    forall e | e in all && e.Ins? ensures exists j :: AtToken(tokens, e, j) && lo <= j < hi {
      if e in a {
        var x :| AtToken(tokens, e, x) && lo <= x < mid;
      } else {
        var y :| AtToken(tokens, e, y) && mid <= y < hi;
      }
    }
  }

  lemma OrderlyWider(tokens: seq<Span>, limit: nat, edits: seq<Edit>, lo: int, hi: int, lower: int, higher: int)
    requires Orderly(tokens, limit, edits, lo, hi) && lower <= lo && hi <= higher
    ensures Orderly(tokens, limit, edits, lower, higher)
  {
    forall e | e in edits && e.Ins? ensures exists j :: AtToken(tokens, e, j) && lower <= j < higher {
      var x :| AtToken(tokens, e, x) && lo <= x < hi;
    }
  }

  lemma ReservesAt(tokens: seq<Span>, limit: nat, meta: Meta, ns: seq<int>)
    requires Apart(tokens, limit) && Braced(tokens, meta)
    ensures Orderly(tokens, limit, ReserveEdits(meta, ns), meta.hi - 1, meta.hi)
  {
    forall e | e in ReserveEdits(meta, ns) && e.Ins? ensures exists j :: AtToken(tokens, e, j) && meta.hi - 1 <= j < meta.hi {
      assert AtToken(tokens, e, meta.hi - 1);
      assert tokens[meta.hi - 1].end <= limit;
    }
  }

  lemma OnlyDeletes(metas: seq<Meta>, meta: Meta)
    ensures forall e :: e in DeleteAll(metas) ==> e.Del?
    ensures forall e :: e in NodeEdits(meta) ==> e.Del?
  {
    DeletedInserts(metas);
  }

  lemma EnumOrderly(tokens: seq<Span>, limit: nat, gone: set<nat>, e: Enum)
    requires Apart(tokens, limit) && EnumPlaced(tokens, limit, e)
    ensures Orderly(tokens, limit, EnumEdits(gone, e), e.meta.lo, e.meta.hi)
  {
    if e.meta.id in gone {
      NodeOrderly(tokens, limit, e.meta, e.meta.lo, e.meta.hi);
    } else {
      LostMetas(gone, Values(e.items), 0);
      DeletedOrderly(tokens, limit, Metas(Lost(gone, Values(e.items))), e.meta.lo, e.meta.hi - 1);
      DeletedOrderly(tokens, limit, Switches(e.items), e.meta.lo, e.meta.hi - 1);
      OnlyDeletions(tokens, limit, DeletedInside(gone, e.items), e.meta.lo, e.meta.hi - 1);
      ReservesAt(tokens, limit, e.meta, EnumReserves(gone, e.items));
      OrderlyConcat(tokens, limit, DeletedInside(gone, e.items), ReserveEdits(e.meta, EnumReserves(gone, e.items)),
                    e.meta.lo, e.meta.hi - 1, e.meta.hi);
    }
  }

  lemma {:induction false} MessageOrderly(tokens: seq<Span>, limit: nat, gone: set<nat>, m: Message)
    requires Apart(tokens, limit) && MessagePlaced(tokens, limit, m)
    ensures Orderly(tokens, limit, MessageEdits(gone, m), m.meta.lo, m.meta.hi)
    decreases m
  {
    if m.meta.id in gone {
      NodeOrderly(tokens, limit, m.meta, m.meta.lo, m.meta.hi);
    } else {
      var ns := Numbers(Lost(gone, DirectFields(m.items)));
      PlacedBounds(tokens, limit, m.items, m.meta.lo + 1, m.meta.hi - 1);
      ItemsOrderly(tokens, limit, gone, m.items, m.meta.lo + 1, m.meta.hi - 1);
      ReservesAt(tokens, limit, m.meta, ns);
      OrderlyConcat(tokens, limit, ItemsEdits(gone, m.items), ReserveEdits(m.meta, ns),
                    m.meta.lo + 1, m.meta.hi - 1, m.meta.hi);
      OrderlyWider(tokens, limit, MessageEdits(gone, m), m.meta.lo + 1, m.meta.hi, m.meta.lo, m.meta.hi);
    }
  }

  lemma {:induction false} ItemsOrderly(tokens: seq<Span>, limit: nat, gone: set<nat>, items: seq<MsgItem>, lo: int,
      hi: int)
    requires Apart(tokens, limit) && ItemsPlaced(tokens, limit, items, lo, hi)
    ensures Orderly(tokens, limit, ItemsEdits(gone, items), lo, hi)
    decreases items
  {
    if items == [] {
      OnlyDeletions(tokens, limit, [], lo, hi);
    } else {
      var init, last := items[..|items| - 1], items[|items| - 1];
      var mid := if ItemMeta(last).Some? then ItemMeta(last).value.lo else hi;
      assert last in items;
      PlacedSound(tokens, limit, last);
      PlacedBounds(tokens, limit, init, lo, mid);
      ItemsOrderly(tokens, limit, gone, init, lo, mid);
      ItemOrderly(tokens, limit, gone, last, mid, hi);
      OrderlyConcat(tokens, limit, ItemsEdits(gone, init), ItemEdits(gone, last), lo, mid, hi);
    }
  }

  lemma {:induction false} ItemOrderly(tokens: seq<Span>, limit: nat, gone: set<nat>, item: MsgItem, lo: int, hi: int)
    requires Apart(tokens, limit) && ItemPlaced(tokens, limit, item) && lo <= hi
    requires ItemMeta(item).Some? ==> lo <= ItemMeta(item).value.lo && ItemMeta(item).value.hi <= hi
    ensures Orderly(tokens, limit, ItemEdits(gone, item), lo, hi)
    decreases item
  {
    match item
    case MsgField(f) =>
      NodeOrderly(tokens, limit, f.meta, lo, hi);
      if f.meta.id !in gone {
        OnlyDeletions(tokens, limit, [], lo, hi);
      }
    case MsgOneof(o) =>
      LostMetas(gone, Members(o.items), 0);
      NodeOrderly(tokens, limit, o.meta, lo, hi);
      DeletedOrderly(tokens, limit, Metas(Lost(gone, Members(o.items))), lo, hi);
    case MsgNested(m) =>
      MessageOrderly(tokens, limit, gone, m);
      OrderlyWider(tokens, limit, MessageEdits(gone, m), m.meta.lo, m.meta.hi, lo, hi);
    case MsgEnum(e) =>
      EnumOrderly(tokens, limit, gone, e);
      OrderlyWider(tokens, limit, EnumEdits(gone, e), e.meta.lo, e.meta.hi, lo, hi);
    case MsgOther =>
      OnlyDeletions(tokens, limit, [], lo, hi);
  }

  // ---- which scopes get one ------------------------------------------------------------------------

  /** `meta` is the node of a message or enum that survives, and `ns` are the numbers it has to reserve. */
  ghost predicate MessageHolds(gone: set<nat>, m: Message, meta: Meta, ns: seq<int>) {
    && m.meta.id !in gone
    && ((meta == m.meta && ns == Numbers(Lost(gone, DirectFields(m.items)))) || ItemsHold(gone, m.items, meta, ns))
  }

  ghost predicate ItemsHold(gone: set<nat>, items: seq<MsgItem>, meta: Meta, ns: seq<int>) {
    exists i :: 0 <= i < |items| && ItemHolds(gone, items[i], meta, ns)
  }

  ghost predicate ItemHolds(gone: set<nat>, item: MsgItem, meta: Meta, ns: seq<int>) {
    match item
    case MsgNested(m) => MessageHolds(gone, m, meta, ns)
    case MsgEnum(e) => EnumHolds(gone, e, meta, ns)
    case _ => false
  }

  ghost predicate EnumHolds(gone: set<nat>, e: Enum, meta: Meta, ns: seq<int>) {
    e.meta.id !in gone && meta == e.meta && ns == EnumReserves(gone, e.items)
  }

  lemma {:induction false} ItemsHoldSplit(gone: set<nat>, items: seq<MsgItem>, meta: Meta, ns: seq<int>)
    requires items != []
    ensures ItemsHold(gone, items, meta, ns)
      <==> ItemsHold(gone, items[..|items| - 1], meta, ns) || ItemHolds(gone, items[|items| - 1], meta, ns)
  {
    var init := items[..|items| - 1];
    if i :| 0 <= i < |init| && ItemHolds(gone, init[i], meta, ns) {
      assert ItemHolds(gone, items[i], meta, ns);
    }
    if i :| 0 <= i < |items| && ItemHolds(gone, items[i], meta, ns) {
      assert i < |init| ==> ItemHolds(gone, init[i], meta, ns);
    }
  }

  /** A surviving scope inserts its own statement and keeps its closing brace. */
  lemma {:induction false} ScopeReserves(tokens: seq<Span>, limit: nat, gone: set<nat>, item: MsgItem, meta: Meta,
      ns: seq<int>)
    requires ItemPlaced(tokens, limit, item) && ItemHolds(gone, item, meta, ns)
    ensures Braced(tokens, meta) && Has(ItemMeta(item).value, meta.hi - 1)
    ensures !ItemGoes(gone, item, meta.hi - 1)
    ensures forall e :: e in ReserveEdits(meta, ns) ==> e in ItemEdits(gone, item)
    decreases item
  {
    match item
    case MsgNested(m) =>
      var lo, hi := m.meta.lo + 1, m.meta.hi - 1;
      if ItemsHold(gone, m.items, meta, ns) {
        AllReserve(tokens, limit, gone, m.items, meta, ns, lo, hi);
      } else if ItemsGo(gone, m.items, m.meta.hi - 1) {
        AllGoInside(tokens, limit, gone, m.items, m.meta.hi - 1, lo, hi);
      }
    case MsgEnum(e) =>
      if f :| f in Values(e.items) && f.meta.id in gone && Has(f.meta, e.meta.hi - 1) {
        MetaIn(Values(e.items), f);
      }
  }

  lemma {:induction false} AllReserve(tokens: seq<Span>, limit: nat, gone: set<nat>, items: seq<MsgItem>,
                                      meta: Meta, ns: seq<int>, lo: int, hi: int)
    requires ItemsPlaced(tokens, limit, items, lo, hi) && ItemsHold(gone, items, meta, ns)
    ensures Braced(tokens, meta) && lo <= meta.hi - 1 < hi && !ItemsGo(gone, items, meta.hi - 1)
    ensures forall e :: e in ReserveEdits(meta, ns) ==> e in ItemsEdits(gone, items)
    decreases items
  {
    var init, last := items[..|items| - 1], items[|items| - 1];
    assert last in items;
    ItemsHoldSplit(gone, items, meta, ns);
    if ItemHolds(gone, last, meta, ns) {
      ScopeReserves(tokens, limit, gone, last, meta, ns);
    } else {
      AllReserve(tokens, limit, gone, init, meta, ns, lo, if ItemMeta(last).Some? then ItemMeta(last).value.lo else hi);
    }
    ItemStays(tokens, limit, gone, items, meta.hi - 1, lo, hi);
  }

  /** A token that stays in its own part of the scope stays in the scope. */
  lemma ItemStays(tokens: seq<Span>, limit: nat, gone: set<nat>, items: seq<MsgItem>, k: nat, lo: int, hi: int)
    requires ItemsPlaced(tokens, limit, items, lo, hi) && items != []
    requires
      var init, last := items[..|items| - 1], items[|items| - 1];
      || (ItemMeta(last).Some? && Has(ItemMeta(last).value, k) && !ItemGoes(gone, last, k))
      || (lo <= k < (if ItemMeta(last).Some? then ItemMeta(last).value.lo else hi) && !ItemsGo(gone, init, k))
    ensures lo <= k < hi && !ItemsGo(gone, items, k)
  {
    var init, last := items[..|items| - 1], items[|items| - 1];
    var mid := if ItemMeta(last).Some? then ItemMeta(last).value.lo else hi;
    assert last in items;
    PlacedSound(tokens, limit, last);
    PlacedBounds(tokens, limit, init, lo, mid);
    if ItemsGo(gone, init, k) {
      AllGoInside(tokens, limit, gone, init, k, lo, mid);
    }
    if ItemGoes(gone, last, k) {
      GoesInside(tokens, limit, gone, last, k);
    }
    ItemsGoSplit(gone, items, k);
  }

  /** Whatever is inserted is the statement of some surviving scope. */
  lemma {:induction false} InsertedBy(gone: set<nat>, item: MsgItem, e: Edit) returns (meta: Meta, ns: seq<int>)
    requires e in ItemEdits(gone, item) && e.Ins?
    ensures ItemHolds(gone, item, meta, ns) && e in ReserveEdits(meta, ns)
    decreases item
  {
    match item
    case MsgNested(m) =>
      OnlyDeletes([], m.meta);
      meta, ns := m.meta, Numbers(Lost(gone, DirectFields(m.items)));
      if e !in ReserveEdits(meta, ns) {
        meta, ns := InsertedByAll(gone, m.items, e);
      }
    case MsgEnum(en) =>
      OnlyDeletes(Metas(Lost(gone, Values(en.items))), en.meta);
      OnlyDeletes(Switches(en.items), en.meta);
      meta, ns := en.meta, EnumReserves(gone, en.items);
    case MsgField(f) =>
      OnlyDeletes([], f.meta);
      assert false;
    case MsgOneof(o) =>
      OnlyDeletes(Metas(Lost(gone, Members(o.items))), o.meta);
      assert false;
  }

  lemma {:induction false} InsertedByAll(gone: set<nat>, items: seq<MsgItem>, e: Edit) returns (meta: Meta,
      ns: seq<int>)
    requires e in ItemsEdits(gone, items) && e.Ins?
    ensures ItemsHold(gone, items, meta, ns) && e in ReserveEdits(meta, ns)
    decreases items
  {
    var init, last := items[..|items| - 1], items[|items| - 1];
    assert last in items;
    if e in ItemEdits(gone, last) {
      meta, ns := InsertedBy(gone, last, e);
    } else {
      meta, ns := InsertedByAll(gone, init, e);
    }
    ItemsHoldSplit(gone, items, meta, ns);
  }

  // ---- a whole file ---------------------------------------------------------------------------------

  function AsMember(item: Item): MsgItem {
    match item
    case TopMessage(m) => MsgNested(m)
    case TopEnum(e) => MsgEnum(e)
    case _ => MsgOther
  }

  function TopMeta(item: Item): Option<Meta> {
    match item
    case TopService(s) => Some(s.meta)
    case TopImport(meta, _) => Some(meta)
    case _ => ItemMeta(AsMember(item))
  }

  predicate TopPlaced(tokens: seq<Span>, limit: nat, item: Item) {
    match item
    case TopService(s) => ServicePlaced(tokens, limit, s)
    case TopImport(meta, _) => Sound(tokens, limit, meta)
    case _ => ItemPlaced(tokens, limit, AsMember(item))
  }

  function Before(item: Item, hi: int): int {
    if TopMeta(item).Some? then TopMeta(item).value.lo else hi
  }

  predicate FilePlaced(tokens: seq<Span>, limit: nat, items: seq<Item>, lo: int, hi: int) {
    if items == [] then lo <= hi
    else
      var last := items[|items| - 1];
      && TopPlaced(tokens, limit, last)
      && (TopMeta(last).Some? ==> TopMeta(last).value.hi <= hi)
      && FilePlaced(tokens, limit, items[..|items| - 1], lo, Before(last, hi))
  }

  ghost predicate TopGoes(gone: set<nat>, item: Item, k: nat) {
    match item
    case TopService(s) => ServiceGoes(gone, s, k)
    case TopImport(meta, survives) => !survives && Has(meta, k)
    case _ => ItemGoes(gone, AsMember(item), k)
  }

  /** Token `k` belongs to a node of the file, at any depth, that does not survive. */
  ghost predicate FileGoes(gone: set<nat>, items: seq<Item>, k: nat) {
    exists i :: 0 <= i < |items| && TopGoes(gone, items[i], k)
  }

  ghost function TopDoomed(gone: set<nat>, item: Item): (r: seq<Meta>) {
    match item
    case TopService(s) => ServiceDoomed(gone, s)
    case TopImport(meta, survives) => if survives then [] else [meta]
    case _ => ItemDoomed(gone, AsMember(item))
  }

  /** The nodes of a file that are deleted, in the order in which the visitor meets them. */
  ghost function FileDoomed(gone: set<nat>, items: seq<Item>): (r: seq<Meta>) {
    if items == [] then [] else FileDoomed(gone, items[..|items| - 1]) + TopDoomed(gone, items[|items| - 1])
  }

  ghost predicate FileHolds(gone: set<nat>, items: seq<Item>, meta: Meta, ns: seq<int>) {
    exists i :: 0 <= i < |items| && ItemHolds(gone, AsMember(items[i]), meta, ns)
  }

  lemma RpcIn(gone: set<nat>, items: seq<SvcItem>, meta: Meta)
    ensures meta in LostRpcs(gone, items) <==> exists item :: item in items && IsLostRpc(gone, item) && item.meta == meta
  {
    if items != [] {
      var init, last := items[..|items| - 1], items[|items| - 1];
      assert items == init + [last];
      RpcIn(gone, init, meta);
    }
  }

  lemma ServiceCovers(tokens: seq<Span>, limit: nat, gone: set<nat>, s: Service, k: nat, p: nat)
    requires Apart(tokens, limit) && InToken(tokens, k, p) && ServicePlaced(tokens, limit, s)
    ensures Covered(ServiceEdits(gone, s), p)
      <==> ServiceGoes(gone, s, k) || SomeOverruns(ServiceDoomed(gone, s), k, p)
  {
    var lost := LostRpcs(gone, s.items);
    forall meta ensures meta in lost <==> exists item :: item in s.items && IsLostRpc(gone, item) && item.meta == meta {
      RpcIn(gone, s.items, meta);
    }
    NodeCovers(tokens, limit, s.meta, k, p);
    DeletedCovers(tokens, limit, lost, k, p);
    if item :| item in s.items && IsLostRpc(gone, item) && Has(item.meta, k) {
      assert item.meta in lost;
    }
  }

  lemma TopCovers(tokens: seq<Span>, limit: nat, gone: set<nat>, item: Item, k: nat, p: nat)
    requires Apart(tokens, limit) && InToken(tokens, k, p) && TopPlaced(tokens, limit, item)
    ensures Covered(TopEdits(gone, item), p) <==> TopGoes(gone, item, k) || SomeOverruns(TopDoomed(gone, item), k, p)
  {
    match item
    case TopService(s) => ServiceCovers(tokens, limit, gone, s, k, p);
    case TopImport(meta, survives) => NodeCovers(tokens, limit, meta, k, p);
    case _ => ItemCovers(tokens, limit, gone, AsMember(item), k, p);
  }

  lemma TopGoesInside(tokens: seq<Span>, limit: nat, gone: set<nat>, item: Item, k: nat)
    requires TopPlaced(tokens, limit, item) && TopGoes(gone, item, k)
    ensures TopMeta(item).Some? && Has(TopMeta(item).value, k)
  {
    match item
    case TopService(s) =>
    case TopImport(meta, survives) =>
    case _ => GoesInside(tokens, limit, gone, AsMember(item), k);
  }

  lemma TopSound(tokens: seq<Span>, limit: nat, item: Item)
    requires TopPlaced(tokens, limit, item)
    ensures TopMeta(item).Some? ==> Sound(tokens, limit, TopMeta(item).value)
  {
    if !item.TopService? && !item.TopImport? {
      PlacedSound(tokens, limit, AsMember(item));
    }
  }

  lemma {:induction false} FileBounds(tokens: seq<Span>, limit: nat, items: seq<Item>, lo: int, hi: int)
    requires FilePlaced(tokens, limit, items, lo, hi)
    ensures lo <= hi
  {
    if items != [] {
      var last := items[|items| - 1];
      FileBounds(tokens, limit, items[..|items| - 1], lo, Before(last, hi));
      TopSound(tokens, limit, last);
    }
  }

  lemma FileGoesSplit(gone: set<nat>, items: seq<Item>, k: nat)
    requires items != []
    ensures FileGoes(gone, items, k)
      <==> FileGoes(gone, items[..|items| - 1], k) || TopGoes(gone, items[|items| - 1], k)
  {
    var init := items[..|items| - 1];
    if i :| 0 <= i < |init| && TopGoes(gone, init[i], k) {
      assert TopGoes(gone, items[i], k);
    }
    if i :| 0 <= i < |items| && TopGoes(gone, items[i], k) {
      assert i < |init| ==> TopGoes(gone, init[i], k);
    }
  }

  lemma {:induction false} FileGoesInside(tokens: seq<Span>, limit: nat, gone: set<nat>, items: seq<Item>, k: nat,
      lo: int, hi: int)
    requires FilePlaced(tokens, limit, items, lo, hi) && FileGoes(gone, items, k)
    ensures lo <= k < hi
  {
    var init, last := items[..|items| - 1], items[|items| - 1];
    FileGoesSplit(gone, items, k);
    FileBounds(tokens, limit, init, lo, Before(last, hi));
    TopSound(tokens, limit, last);
    if TopGoes(gone, last, k) {
      TopGoesInside(tokens, limit, gone, last, k);
    } else {
      FileGoesInside(tokens, limit, gone, init, k, lo, Before(last, hi));
    }
  }

  lemma {:induction false} FileCovers(tokens: seq<Span>, limit: nat, gone: set<nat>, items: seq<Item>, k: nat,
      p: nat, lo: int, hi: int)
    requires Apart(tokens, limit) && InToken(tokens, k, p) && FilePlaced(tokens, limit, items, lo, hi)
    ensures Covered(FileEdits(gone, items), p)
      <==> FileGoes(gone, items, k) || SomeOverruns(FileDoomed(gone, items), k, p)
  {
    if items != [] {
      var init, last := items[..|items| - 1], items[|items| - 1];
      FileCovers(tokens, limit, gone, init, k, p, lo, Before(last, hi));
      TopCovers(tokens, limit, gone, last, k, p);
      CoveredConcat(FileEdits(gone, init), TopEdits(gone, last), p);
      FileGoesSplit(gone, items, k);
    }
  }

  lemma TopOrderly(tokens: seq<Span>, limit: nat, gone: set<nat>, item: Item, lo: int, hi: int)
    requires Apart(tokens, limit) && TopPlaced(tokens, limit, item) && lo <= hi
    requires TopMeta(item).Some? ==> lo <= TopMeta(item).value.lo && TopMeta(item).value.hi <= hi
    ensures Orderly(tokens, limit, TopEdits(gone, item), lo, hi)
  {
    match item
    case TopService(s) =>
      NodeOrderly(tokens, limit, s.meta, lo, hi);
      forall meta | meta in LostRpcs(gone, s.items) ensures Sound(tokens, limit, meta) {
        RpcIn(gone, s.items, meta);
      }
      DeletedOrderly(tokens, limit, LostRpcs(gone, s.items), lo, hi);
    case TopImport(meta, survives) =>
      NodeOrderly(tokens, limit, meta, lo, hi);
      if survives {
        OnlyDeletions(tokens, limit, [], lo, hi);
      }
    case _ => ItemOrderly(tokens, limit, gone, AsMember(item), lo, hi);
  }

  lemma {:induction false} FileOrderly(tokens: seq<Span>, limit: nat, gone: set<nat>, items: seq<Item>, lo: int,
      hi: int)
    requires Apart(tokens, limit) && FilePlaced(tokens, limit, items, lo, hi)
    ensures Orderly(tokens, limit, FileEdits(gone, items), lo, hi)
  {
    if items == [] {
      OnlyDeletions(tokens, limit, [], lo, hi);
    } else {
      var init, last := items[..|items| - 1], items[|items| - 1];
      TopSound(tokens, limit, last);
      FileBounds(tokens, limit, init, lo, Before(last, hi));
      FileOrderly(tokens, limit, gone, init, lo, Before(last, hi));
      TopOrderly(tokens, limit, gone, last, Before(last, hi), hi);
      OrderlyConcat(tokens, limit, FileEdits(gone, init), TopEdits(gone, last), lo, Before(last, hi), hi);
    }
  }

  lemma FileHoldsSplit(gone: set<nat>, items: seq<Item>, meta: Meta, ns: seq<int>)
    requires items != []
    ensures FileHolds(gone, items, meta, ns)
      <==> FileHolds(gone, items[..|items| - 1], meta, ns) || ItemHolds(gone, AsMember(items[|items| - 1]), meta, ns)
  {
    var init := items[..|items| - 1];
    if i :| 0 <= i < |init| && ItemHolds(gone, AsMember(init[i]), meta, ns) {
      assert ItemHolds(gone, AsMember(items[i]), meta, ns);
    }
    if i :| 0 <= i < |items| && ItemHolds(gone, AsMember(items[i]), meta, ns) {
      assert i < |init| ==> ItemHolds(gone, AsMember(init[i]), meta, ns);
    }
  }

  lemma {:induction false} BraceSurvives(tokens: seq<Span>, limit: nat, gone: set<nat>, items: seq<Item>,
                                         meta: Meta, ns: seq<int>, lo: int, hi: int)
    requires FilePlaced(tokens, limit, items, lo, hi) && FileHolds(gone, items, meta, ns)
    ensures Braced(tokens, meta) && lo <= meta.hi - 1 < hi && !FileGoes(gone, items, meta.hi - 1)
  {
    var init, last := items[..|items| - 1], items[|items| - 1];
    FileHoldsSplit(gone, items, meta, ns);
    if ItemHolds(gone, AsMember(last), meta, ns) {
      TopReserves(tokens, limit, gone, last, meta, ns);
    } else {
      BraceSurvives(tokens, limit, gone, init, meta, ns, lo, Before(last, hi));
    }
    Stays(tokens, limit, gone, items, meta.hi - 1, lo, hi);
  }

  /** A token that stays in its own part of the file stays in the file. */
  lemma Stays(tokens: seq<Span>, limit: nat, gone: set<nat>, items: seq<Item>, k: nat, lo: int, hi: int)
    requires FilePlaced(tokens, limit, items, lo, hi) && items != []
    requires
      var init, last := items[..|items| - 1], items[|items| - 1];
      || (TopMeta(last).Some? && Has(TopMeta(last).value, k) && !TopGoes(gone, last, k))
      || (lo <= k < Before(last, hi) && !FileGoes(gone, init, k))
    ensures lo <= k < hi && !FileGoes(gone, items, k)
  {
    GoesApart(tokens, limit, gone, items, k, lo, hi);
    FileGoesSplit(gone, items, k);
  }

  /** What goes with the last item and what goes with the items before it lie apart. */
  lemma GoesApart(tokens: seq<Span>, limit: nat, gone: set<nat>, items: seq<Item>, k: nat, lo: int, hi: int)
    requires FilePlaced(tokens, limit, items, lo, hi) && items != []
    ensures
      var init, last := items[..|items| - 1], items[|items| - 1];
      && lo <= Before(last, hi) <= hi
      && (TopMeta(last).Some? ==> TopMeta(last).value.hi <= hi)
      && (FileGoes(gone, init, k) ==> k < Before(last, hi))
      && (TopGoes(gone, last, k) ==> Before(last, hi) <= k)
  {
    var init, last := items[..|items| - 1], items[|items| - 1];
    TopSound(tokens, limit, last);
    FileBounds(tokens, limit, init, lo, Before(last, hi));
    if FileGoes(gone, init, k) {
      FileGoesInside(tokens, limit, gone, init, k, lo, Before(last, hi));
    }
    if TopGoes(gone, last, k) {
      TopGoesInside(tokens, limit, gone, last, k);
    }
  }

  lemma {:induction false} FileReserves(tokens: seq<Span>, limit: nat, gone: set<nat>, items: seq<Item>,
                                        meta: Meta, ns: seq<int>, lo: int, hi: int)
    requires FilePlaced(tokens, limit, items, lo, hi) && FileHolds(gone, items, meta, ns)
    ensures forall e :: e in ReserveEdits(meta, ns) ==> e in FileEdits(gone, items)
  {
    var init, last := items[..|items| - 1], items[|items| - 1];
    FileHoldsSplit(gone, items, meta, ns);
    if ItemHolds(gone, AsMember(last), meta, ns) {
      TopReserves(tokens, limit, gone, last, meta, ns);
    } else {
      FileReserves(tokens, limit, gone, init, meta, ns, lo, Before(last, hi));
    }
  }

  lemma TopReserves(tokens: seq<Span>, limit: nat, gone: set<nat>, item: Item, meta: Meta, ns: seq<int>)
    requires TopPlaced(tokens, limit, item) && ItemHolds(gone, AsMember(item), meta, ns)
    ensures Braced(tokens, meta) && !TopGoes(gone, item, meta.hi - 1)
    ensures TopMeta(item).Some? && Has(TopMeta(item).value, meta.hi - 1)
    ensures forall e :: e in ReserveEdits(meta, ns) ==> e in TopEdits(gone, item)
  {
    ScopeReserves(tokens, limit, gone, AsMember(item), meta, ns);
  }

  lemma {:induction false} FileInsertedBy(gone: set<nat>, items: seq<Item>, e: Edit) returns (meta: Meta, ns: seq<int>)
    requires e in FileEdits(gone, items) && e.Ins?
    ensures FileHolds(gone, items, meta, ns) && e in ReserveEdits(meta, ns)
  {
    var init, last := items[..|items| - 1], items[|items| - 1];
    if e in FileEdits(gone, init) {
      meta, ns := FileInsertedBy(gone, init, e);
    } else {
      match last {
        case TopService(s) => OnlyDeletes(LostRpcs(gone, s.items), s.meta);
        case TopImport(m, _) => OnlyDeletes([], m);
        case _ =>
      }
      meta, ns := InsertedBy(gone, AsMember(last), e);
    }
    FileHoldsSplit(gone, items, meta, ns);
  }

  /** The syntax tree of a file, its tokens and its comments, as the parser places them (`Placement.ParsedFits`). */
  ghost predicate Parsed(src: string, tokens: seq<Span>, items: seq<Item>) {
    Apart(tokens, |src|) && FilePlaced(tokens, |src|, items, 0, |tokens|)
  }

  /** A character of a token is deleted exactly when its token belongs to a node that does not survive or the leading
    comments of a deleted node reach back over it. */
  lemma DeletionCovers(src: string, tokens: seq<Span>, gone: set<nat>, items: seq<Item>, k: nat, p: nat)
    requires Parsed(src, tokens, items) && InToken(tokens, k, p)
    ensures Covered(FileEdits(gone, items), p)
      <==> FileGoes(gone, items, k) || SomeOverruns(FileDoomed(gone, items), k, p)
  {
    FileCovers(tokens, |src|, gone, items, k, p, 0, |tokens|);
  }

  /** Just the characters of the tokens that have to go are deleted. */
  ghost predicate Exact(tokens: seq<Span>, gone: set<nat>, items: seq<Item>) {
    forall k: nat, p: nat :: InToken(tokens, k, p) ==> (Covered(FileEdits(gone, items), p) <==> FileGoes(gone, items, k))
  }

  /** The deletion of no node starts before the end of an earlier token that stays. */
  ghost predicate ReachesBackOverNothing(tokens: seq<Span>, gone: set<nat>, items: seq<Item>) {
    forall meta, k: nat :: meta in FileDoomed(gone, items) && k < meta.lo && k < |tokens| && !FileGoes(gone, items, k) ==>
      tokens[k].end <= Extent(meta).start
  }

  /** Deleting is exact if and only if no deletion reaches back over a token that stays. */
  lemma DeletionIsExact(src: string, tokens: seq<Span>, gone: set<nat>, items: seq<Item>)
    requires Parsed(src, tokens, items)
    ensures Exact(tokens, gone, items) <==> ReachesBackOverNothing(tokens, gone, items)
  {
    if ReachesBackOverNothing(tokens, gone, items) {
      forall k: nat, p: nat | InToken(tokens, k, p)
        ensures Covered(FileEdits(gone, items), p) <==> FileGoes(gone, items, k)
      {
        DeletionCovers(src, tokens, gone, items, k, p);
      }
    }
    if Exact(tokens, gone, items) {
      forall meta, k: nat | meta in FileDoomed(gone, items) && k < meta.lo && k < |tokens| && !FileGoes(gone, items, k)
        ensures tokens[k].end <= Extent(meta).start
      {
        var p: nat := tokens[k].end - 1;
        DeletionCovers(src, tokens, gone, items, k, p);
        assert InToken(tokens, k, p) && (Overruns(meta, k, p) <==> Extent(meta).start <= p);
      }
    }
  }

  lemma FileOneTextEach(src: string, tokens: seq<Span>, gone: set<nat>, items: seq<Item>)
    requires Parsed(src, tokens, items)
    ensures OneTextEach(FileEdits(gone, items))
  {
    FileOrderly(tokens, |src|, gone, items, 0, |tokens|);
  }

  lemma StatementIn(src: string, tokens: seq<Span>, gone: set<nat>, items: seq<Item>, meta: Meta, ns: seq<int>)
    requires Parsed(src, tokens, items) && FileHolds(gone, items, meta, ns) && ns != []
    ensures Ins(meta.span.end - 1, ReservedText(SortInts(ns))) in FileEdits(gone, items)
  {
    FileReserves(tokens, |src|, gone, items, meta, ns, 0, |tokens|);
    assert ReserveEdits(meta, ns)[0] in ReserveEdits(meta, ns);
  }

  /** Each surviving scope with lost numbers has its statement right before its own closing brace. The brace does not
    go with a node, and it is in the text unless a later deletion reaches back over it. */
  lemma ReservedAtBrace(src: string, tokens: seq<Span>, gone: set<nat>, items: seq<Item>, meta: Meta, ns: seq<int>)
    requires Parsed(src, tokens, items) && FileHolds(gone, items, meta, ns) && ns != []
    ensures Braced(tokens, meta) && !FileGoes(gone, items, meta.hi - 1)
    ensures TextsAt(FileEdits(gone, items), tokens[meta.hi - 1].start) == ReservedText(SortInts(ns))
    ensures ReachesBackOverNothing(tokens, gone, items) ==>
      !Covered(FileEdits(gone, items), tokens[meta.hi - 1].start)
  {
    BraceSurvives(tokens, |src|, gone, items, meta, ns, 0, |tokens|);
    StatementIn(src, tokens, gone, items, meta, ns);
    FileOneTextEach(src, tokens, gone, items);
    TextIs(FileEdits(gone, items), tokens[meta.hi - 1].start, ReservedText(SortInts(ns)));
    DeletionIsExact(src, tokens, gone, items);
    assert InToken(tokens, meta.hi - 1, tokens[meta.hi - 1].start);
  }

  ghost predicate BraceAt(tokens: seq<Span>, gone: set<nat>, items: seq<Item>, meta: Meta, ns: seq<int>, q: nat) {
    FileHolds(gone, items, meta, ns) && ns != [] && Braced(tokens, meta) && q == tokens[meta.hi - 1].start
  }

  /** Nothing else is inserted anywhere. */
  lemma NothingElseInserted(src: string, tokens: seq<Span>, gone: set<nat>, items: seq<Item>, q: nat)
    requires Parsed(src, tokens, items) && TextsAt(FileEdits(gone, items), q) != ""
    ensures exists meta, ns :: BraceAt(tokens, gone, items, meta, ns, q)
  {
    var edits := FileEdits(gone, items);
    FileOneTextEach(src, tokens, gone, items);
    TextIs(edits, q, "");
    var i :| 0 <= i < |edits| && TextOf(edits[i], q) != "";
    var meta, ns := FileInsertedBy(gone, items, edits[i]);
    BraceSurvives(tokens, |src|, gone, items, meta, ns, 0, |tokens|);
    assert BraceAt(tokens, gone, items, meta, ns, q);
  }

  lemma EditsFit(src: string, tokens: seq<Span>, gone: set<nat>, items: seq<Item>)
    requires Parsed(src, tokens, items)
    ensures forall i :: 0 <= i < |FileEdits(gone, items)| ==> ValidFor(src, FileEdits(gone, items)[i])
  {
    FileOrderly(tokens, |src|, gone, items, 0, |tokens|);
    var edits := FileEdits(gone, items);
    forall i | 0 <= i < |edits| ensures ValidFor(src, edits[i]) {
      assert edits[i] in edits && Within(|src|, edits[i]);
    }
  }

  /** The result does not depend on the order in which the edits were pushed. */
  lemma EditsCommute(src: string, tokens: seq<Span>, gone: set<nat>, items: seq<Item>, other: seq<Edit>)
    requires Parsed(src, tokens, items) && multiset(other) == multiset(FileEdits(gone, items))
    ensures Spliced(src, other) == Spliced(src, FileEdits(gone, items))
  {
    FileOrderly(tokens, |src|, gone, items, 0, |tokens|);
    OrderIrrelevant(src, FileEdits(gone, items), other);
  }
}
