/** Selection: the worklist that computes the keep set in place. */
module Selection {
  import opened Symbols
  import opened Decisions
  import opened Closure
  import opened Marking

  /** Why selection refuses; `chain` leads from the referencing symbol to a selected root. */
  datatype Refusal =
    | NoRules
    | DeadRule
    | Conflict(from: nat, target: nat, chain: seq<nat>)
    | Contradiction(kept: nat, target: nat)
    | IllegalEnum(en: nat)

  datatype Selected = Selected(marks: seq<Mark>, cascade: seq<bool>, introduced: seq<Option<nat>>)

  datatype Outcome = Ok(sel: Selected) | Err(why: Refusal)

  /** `s` was brought in by `via`: as its container, its content or its reference target. */
  ghost predicate LinkedBy(t: Table, d: Decided, via: nat, s: nat)
    requires Inputs(t, d)
  {
    via < |d| && s < |d| && (t.syms[via].parent == Some(s) || Asks(t, d, via, s))
  }

  /** A chain of introductions that ends at a symbol a rule keeps. */
  ghost predicate Chain(t: Table, d: Decided, chain: seq<nat>)
    requires Inputs(t, d)
  {
    Linked(t, d, chain) && Seed(t, d, chain[|chain| - 1])
  }

  ghost predicate Linked(t: Table, d: Decided, chain: seq<nat>)
    requires Inputs(t, d)
  {
    && chain != []
    && (forall j :: 0 <= j < |chain| ==> chain[j] < |d|)
    && (forall j :: 0 <= j < |chain| - 1 ==> LinkedBy(t, d, chain[j + 1], chain[j]))
  }

  lemma LinkMore(t: Table, d: Decided, chain: seq<nat>, c: nat)
    requires Inputs(t, d) && Linked(t, d, chain) && c < |d| && LinkedBy(t, d, c, chain[|chain| - 1])
    ensures Linked(t, d, chain + [c])
  {
  }

  /** The introduction recorded for a marked symbol is a link to an earlier mark. */
  lemma IntroducedIsLink(t: Table, d: Decided, v: State, c: nat)
    requires Inputs(t, d) && Valid(t, d, v) && c < |d| && !v.marks[c].Unmarked?
    ensures v.introduced[c].Some? ==>
      var via := v.introduced[c].value;
      via < |d| && !v.marks[via].Unmarked? && v.stamp[via] < v.stamp[c] && LinkedBy(t, d, via, c)
    ensures v.introduced[c].None? ==> Seed(t, d, c)
  {
    assert ExplainedAt(t, d, v, c);
  }

  /** The refusal names a considered symbol whose first excluded reference really forbids it. */
  ghost predicate Justified(t: Table, d: Decided, why: Refusal)
    requires Inputs(t, d)
  {
    match why
    case Conflict(from, target, chain) =>
      && from < |d| && target < |d| && Considered(t, d, Least(t, d), from)
      && IsExcluded(d[target]) && d[target].value.pol.Drop?
      && (exists k: nat :: FirstExcluded(t, d, from, k) && t.refs[from][k] == target)
      && Chain(t, d, chain) && chain[0] == from
    case Contradiction(kept, target) =>
      && kept < |d| && target < |d| && Considered(t, d, Least(t, d), kept)
      && IsExcluded(d[target]) && d[target].value.pol.DropCascade?
      && IsKeep(d[kept]) && d[kept].value.rule > d[target].value.rule
      && (exists k: nat :: FirstExcluded(t, d, kept, k) && t.refs[kept][k] == target)
    case _ => false
  }

  class Worklist {
    const t: Table
    const d: Decided
    var marks: seq<Mark>
    var cascade: seq<bool>
    var introduced: seq<Option<nat>>
    var processed: seq<bool>
    var queue: seq<nat>
    ghost var stamp: seq<nat>
    ghost var clock: nat
    ghost var done: set<nat>

    ghost function View(): State
      reads this
    {
      State(marks, cascade, introduced, processed, queue, stamp, clock, done)
    }

    constructor (t: Table, d: Decided)
      requires Inputs(t, d)
      ensures this.t == t && this.d == d
      ensures Valid(t, d, View()) && queue == [] && done == {}
      ensures forall s: nat :: s < |d| ==> marks[s].Unmarked?
    {
      this.t, this.d := t, d;
      marks := seq(|d|, _ => Unmarked);
      cascade := seq(|d|, _ => false);
      introduced := seq(|d|, _ => None);
      processed := seq(|d|, _ => false);
      queue := [];
      stamp := seq(|d|, _ => 0);
      clock, done := 0, {};
    }

    /** Walks the introduction links back to the rule that started it. */
    method WhyKept(from: nat, via: Option<nat>) returns (chain: seq<nat>)
      requires Valid(t, d, View()) && from < |d|
      requires via.None? ==> Seed(t, d, from)
      requires via.Some? ==> via.value < |d| && Full(marks[via.value]) && Asks(t, d, via.value, from)
      ensures Chain(t, d, chain) && chain[0] == from
    {
      chain := [from];
      var cur: Option<nat> := via;
      ghost var last := from;
      while cur.Some?
        invariant Linked(t, d, chain) && chain[|chain| - 1] == last && chain[0] == from
        invariant cur.Some? ==> cur.value < |d| && !marks[cur.value].Unmarked? && LinkedBy(t, d, cur.value, last)
        invariant cur.None? ==> Seed(t, d, last)
        decreases cur.Some?, if cur.Some? then stamp[cur.value] else 0
      {
        var c := cur.value;
        IntroducedIsLink(t, d, View(), c);
        LinkMore(t, d, chain, c);
        chain, last := chain + [c], c;
        cur := introduced[c];
      }
    }

    /** Checks the references of a field or method against the exclusions. */
    method Check(sid: nat, via: Option<nat>) returns (refusal: Option<Refusal>, cascades: bool)
      requires Valid(t, d, View()) && sid < |d| && Considered(t, d, Least(t, d), sid)
      requires via.None? ==> Seed(t, d, sid)
      requires via.Some? ==> via.value < |d| && Full(marks[via.value]) && Asks(t, d, via.value, sid)
      ensures refusal.Some? <==> Fails(t, d, sid)
      ensures refusal.Some? ==> Justified(t, d, refusal.value)
      ensures refusal.None? ==> (cascades <==> Cascades(t, d, sid))
      ensures refusal.None? && !cascades <==> Free(t, d, sid)
    {
      OneVerdict(t, d, sid);
      assert WellReferring(t, sid);
      if !CarriesRefs(t.syms[sid].kind) {
        return None, false;
      }
      var k := 0;
      while k < |t.refs[sid]|
        invariant 0 <= k <= |t.refs[sid]|
        invariant forall j :: 0 <= j < k ==> !IsExcluded(d[t.refs[sid][j]])
      {
        var r := t.refs[sid][k];
        if d[r].Some? && !d[r].value.pol.Keep? {
          assert FirstExcluded(t, d, sid, k);
          assert forall j: nat :: FirstExcluded(t, d, sid, j) ==> j == k;
          if d[r].value.pol.DropCascade? {
            if d[sid].Some? && d[sid].value.pol.Keep? && d[sid].value.rule > d[r].value.rule {
              return Some(Contradiction(sid, r)), false;
            }
            return None, true;
          }
          var chain := WhyKept(sid, via);
          return Some(Conflict(sid, r, chain)), false;
        }
        k := k + 1;
      }
      return None, false;
    }

    /** Keeps the ancestor chain of `sid` at least as containers. */
    method KeepAncestors(ghost v: State, sid: nat, level: Mark) returns (child: nat)
      requires Climbing(t, d, v, View(), sid, level, sid) && Full(level)
      modifies this`marks, this`introduced, this`stamp, this`clock
      ensures Climbing(t, d, v, View(), sid, level, child) && ParentMarked(t, d, View(), child)
    {
      var cur: Option<nat> := t.syms[sid].parent;
      child := sid;
      while cur.Some?
        invariant Climbing(t, d, v, View(), sid, level, child)
        invariant cur == t.syms[child].parent && WellPlaced(t.syms, child)
        decreases child
      {
        var p := cur.value;
        if Strength(marks[p]) >= Strength(Container) {
          break;
        }
        ghost var w := View();
        ContainsClimbs(t, d, v, w, sid, level, child, p);
        marks := marks[p := Container];
        if introduced[p].None? {
          introduced := introduced[p := Some(child)];
        }
        stamp, clock := stamp[p := clock], clock + 1;
        assert View() == Contains(w, p, child);
        child := p;
        cur := t.syms[p].parent;
      }
    }

    /** Marks a free symbol and its ancestors, and queues it for traversal. */
    method Commit(sid: nat, level: Mark, via: Option<nat>)
      requires Valid(t, d, View()) && sid < |d| && Asked(t, d, View(), sid, level, via)
      requires Free(t, d, sid) && Strength(marks[sid]) < Strength(level)
      modifies this
      ensures Valid(t, d, View()) && Grows(old(View()), View()) && Settled(t, d, View(), sid)
      ensures forall s: nat :: s < |d| && marks[s] != old(marks[s]) ==> s <= sid
    {
      ghost var v := View();
      RaisedClimbs(t, d, v, sid, level, via);
      var was := marks[sid];
      Raise(sid, level, via);
      var child := KeepAncestors(v, sid, level);
      Committed(t, d, v, View(), sid, level, via, child);
      Enqueue(sid, was);
    }

    method Raise(sid: nat, level: Mark, via: Option<nat>)
      requires sid < |marks| && sid < |introduced| && sid < |stamp| && Strength(marks[sid]) < Strength(level)
      modifies this`marks, this`introduced, this`stamp, this`clock
      ensures View() == Raised(old(View()), sid, level, via)
      ensures forall s :: 0 <= s < |marks| ==> Strength(old(marks[s])) <= Strength(marks[s])
    {
      var was := marks[sid];
      marks := marks[sid := level];
      if introduced[sid].None? {
        introduced := introduced[sid := via];
      }
      if was.Unmarked? {
        stamp, clock := stamp[sid := clock], clock + 1;
      }
    }

    /** Contents are traversed for full keeps only, and once. */
    method Enqueue(sid: nat, was: Mark)
      requires sid < |processed| && !processed[sid] && !Full(was)
      modifies this`processed, this`queue
      ensures View() == Pushed(old(View()), sid)
    {
      if Strength(was) < Strength(Required) && !processed[sid] {
        processed := processed[sid := true];
        queue := queue + [sid];
      }
    }

    /** Marks `sid` kept at `level`, unless its references forbid it; a refusal changes nothing. */
    method Keep(sid: nat, level: Mark, via: Option<nat>) returns (refusal: Option<Refusal>)
      requires Valid(t, d, View()) && sid < |d| && Asked(t, d, View(), sid, level, via)
      modifies this
      ensures refusal.Some? <==> Fails(t, d, sid)
      ensures refusal.Some? ==> Justified(t, d, refusal.value) && View() == old(View())
      ensures Valid(t, d, View()) && Grows(old(View()), View())
      ensures refusal.None? ==> Settled(t, d, View(), sid)
      ensures forall s: nat :: s < |d| && marks[s] != old(marks[s]) ==> s <= sid
    {
      ghost var v := View();
      OneVerdict(t, d, sid);
      if cascade[sid] {
        return None;
      }
      if Strength(marks[sid]) >= Strength(level) {
        LeastIsJustified(t, d, sid);
        return None;
      }
      var cascades;
      refusal, cascades := Check(sid, via);
      if refusal.Some? {
        return;
      }
      if cascades {
        CascadedValid(t, d, v, sid, level, via);
        assert WellReferring(t, sid);
        cascade := cascade[sid := true];
        marks := marks[sid := Unmarked];
        assert View() == Cascaded(v, sid);
        return None;
      }

      Commit(sid, level, via);
      return None;
    }

    /** Every input symbol that a rule keeps has been looked at. */
    ghost predicate Seeded()
      reads this
      requires Shaped(t, d, View())
    {
      forall s: nat :: s < |d| && Seed(t, d, s) ==> Settled(t, d, View(), s)
    }

    /** Everything the symbols in `done`, other than `busy`, ask for is settled. */
    ghost predicate Traversed(busy: set<nat>)
      reads this
      requires Shaped(t, d, View())
    {
      forall p: nat, c: nat :: p in done - busy && c < |d| && Asks(t, d, p, c) ==> Settled(t, d, View(), c)
    }

    /** Looks at every keep decision of the input, in table order. */
    method SeedAll() returns (refusal: Option<Refusal>)
      requires Valid(t, d, View()) && queue == [] && done == {}
      requires forall s: nat :: s < |d| ==> marks[s].Unmarked?
      modifies this
      ensures refusal.Some? ==> Justified(t, d, refusal.value)
      ensures refusal.None? ==> Valid(t, d, View()) && Seeded() && done == {}
    {
      var i := 0;
      while i < |d|
        invariant 0 <= i <= |d| && Valid(t, d, View()) && done == {}
        invariant forall s: nat :: i <= s < |d| ==> marks[s].Unmarked?
        invariant forall s: nat :: s < i && Seed(t, d, s) ==> Settled(t, d, View(), s)
      {
        if t.syms[i].file.Some? && IsKeep(d[i]) {
          ghost var v := View();
          refusal := Keep(i, Explicit, None);
          if refusal.Some? {
            return;
          }
          forall s: nat | s < i && Seed(t, d, s) ensures Settled(t, d, View(), s) {
            SettledStays(t, d, v, View(), s);
          }
        }
        i := i + 1;
      }
      return None;
    }

    /** The state while the contents of the full keep `sid` are traversed. */
    ghost predicate Busy(sid: nat)
      reads this
    {
      Valid(t, d, View()) && Seeded() && sid in done && Traversed({sid})
    }

    /** Traverses the contents of one full keep. */
    method Process(sid: nat) returns (refusal: Option<Refusal>)
      requires Busy(sid)
      modifies this
      ensures refusal.Some? ==> Justified(t, d, refusal.value)
      ensures refusal.None? ==> Busy(sid) && Traversed({}) && Grows(old(View()), View())
    {
      var sym := t.syms[sid];
      if sym.file.None? {
        return None;
      }
      var asked := if IsDef(sym.kind) then t.children[sid] else t.refs[sid];
      ghost var v := View();
      var k := 0;
      while k < |asked|
        invariant 0 <= k <= |asked|
        invariant Busy(sid) && Grows(v, View())
        invariant forall j :: 0 <= j < k ==> Answered(t, d, View(), sid, asked[j])
      {
        ghost var w := View();
        refusal := VisitNext(sid, asked, k);
        if refusal.Some? {
          return;
        }
        GrowsTransitive(v, w, View());
        k := k + 1;
      }
      AllAnswered(t, d, View(), sid, asked);
      return None;
    }

    /** The next one in the list, when the earlier ones are answered. */
    method VisitNext(sid: nat, asked: seq<nat>, k: nat) returns (refusal: Option<Refusal>)
      requires Busy(sid) && t.syms[sid].file.Some? && k < |asked|
      requires asked == if IsDef(t.syms[sid].kind) then t.children[sid] else t.refs[sid]
      requires forall j :: 0 <= j < k ==> Answered(t, d, View(), sid, asked[j])
      modifies this
      ensures refusal.Some? ==> Justified(t, d, refusal.value)
      ensures refusal.None? ==>
        && Busy(sid) && Grows(old(View()), View())
        && forall j :: 0 <= j <= k ==> Answered(t, d, View(), sid, asked[j])
    {
      refusal := Visit(sid, asked[k]);
      if refusal.None? {
        AnswersStay(t, d, old(View()), View(), sid, asked[..k]);
      }
    }

    /** One child or reference target of a full keep. */
    method Visit(sid: nat, c: nat) returns (refusal: Option<Refusal>)
      requires Busy(sid) && t.syms[sid].file.Some?
      requires c in (if IsDef(t.syms[sid].kind) then t.children[sid] else t.refs[sid])
      modifies this
      ensures refusal.Some? ==> Justified(t, d, refusal.value)
      ensures refusal.None? ==> Busy(sid) && Answered(t, d, View(), sid, c) && Grows(old(View()), View())
    {
      assert WellReferring(t, sid) && c < |d| && WellPlaced(t.syms, c);
      if IsDef(t.syms[sid].kind) && (IsExcluded(d[c]) || IsDef(t.syms[c].kind)) {
        return None;
      }
      assert Asks(t, d, sid, c);
      var level := if IsDef(t.syms[sid].kind) && IsKeep(d[c]) then Explicit else Required;
      MayAsk(t, d, View(), sid, c, level);
      refusal := Keep(c, level, Some(sid));
      if refusal.None? {
        SettledStay(t, d, old(View()), View());
      }
    }

    /** Runs the worklist to its end. */
    method Drain() returns (refusal: Option<Refusal>)
      requires Valid(t, d, View()) && Seeded() && done == {}
      modifies this
      ensures refusal.Some? ==> Justified(t, d, refusal.value)
      ensures refusal.None? ==> Valid(t, d, View()) && Seeded() && Traversed({}) && queue == []
    {
      while queue != []
        invariant Valid(t, d, View()) && Seeded() && Traversed({})
        decreases Pending(View()), |queue|
      {
        var sid := queue[0];
        ghost var v := View();
        queue, done := queue[1..], done + {sid};
        PoppedValid(t, d, v, View(), sid);
        refusal := Process(sid);
        if refusal.Some? {
          return;
        }
      }
      return None;
    }
  }

  /** Raising, climbing and queueing together settle the symbol and touch only it and its ancestors. */
  lemma Committed(t: Table, d: Decided, v: State, w: State, sid: nat, level: Mark, via: Option<nat>, child: nat)
    requires Valid(t, d, v) && Climbing(t, d, v, w, sid, level, child) && ParentMarked(t, d, w, child)
    requires Asked(t, d, v, sid, level, via) && Free(t, d, sid) && Strength(v.marks[sid]) < Strength(level)
    ensures !w.processed[sid] && !Full(v.marks[sid])
    ensures Valid(t, d, Pushed(w, sid)) && Grows(v, Pushed(w, sid)) && Settled(t, d, Pushed(w, sid), sid)
    ensures forall s: nat :: s < |d| && w.marks[s] != v.marks[s] ==> s <= sid
  {
    LeastIsClosed(t, d);
    RaisedClimbs(t, d, v, sid, level, via);
    PushedValid(t, d, v, w, sid, level, child);
    forall s: nat | s < |d| && s != sid && w.marks[s] != v.marks[s] ensures s <= sid {
      AncestorBound(t, s, sid);
    }
  }

  /** If `sid` asks for `c`, nothing remains to be done about `c`. */
  ghost predicate Answered(t: Table, d: Decided, v: State, sid: nat, c: nat) {
    Shaped(t, d, v) && sid < |d| && c < |d| && (Asks(t, d, sid, c) ==> Settled(t, d, v, c))
  }

  /** A traversal of all children, or of all references, answers everything. */
  lemma AllAnswered(t: Table, d: Decided, v: State, sid: nat, asked: seq<nat>)
    requires Shaped(t, d, v) && sid < |d|
    requires asked == if IsDef(t.syms[sid].kind) then t.children[sid] else t.refs[sid]
    requires forall j :: 0 <= j < |asked| ==> Answered(t, d, v, sid, asked[j])
    ensures forall c: nat :: c < |d| && Asks(t, d, sid, c) ==> Settled(t, d, v, c)
  {
    forall c: nat | c < |d| && Asks(t, d, sid, c) ensures Settled(t, d, v, c) {
      assert c in asked;
      assert Answered(t, d, v, sid, c);
    }
  }

  lemma AnswersStay(t: Table, d: Decided, v: State, w: State, sid: nat, asked: seq<nat>)
    requires Shaped(t, d, w) && Grows(v, w)
    requires forall j :: 0 <= j < |asked| ==> Answered(t, d, v, sid, asked[j])
    ensures forall j :: 0 <= j < |asked| ==> Answered(t, d, w, sid, asked[j])
  {
    forall j | 0 <= j < |asked| ensures Answered(t, d, w, sid, asked[j]) {
      if Asks(t, d, sid, asked[j]) {
        SettledStays(t, d, v, w, asked[j]);
      }
    }
  }

  /** A full keep may ask for what it asks for. */
  lemma MayAsk(t: Table, d: Decided, v: State, sid: nat, c: nat, level: Mark)
    requires Valid(t, d, v) && sid in v.done && c < |d| && Asks(t, d, sid, c)
    requires Seed(t, d, c) ==> Settled(t, d, v, c)
    requires level == if IsDef(t.syms[sid].kind) && IsKeep(d[c]) then Explicit else Required
    ensures Asked(t, d, v, c, level, Some(sid))
  {
    assert v.processed[sid] && WellPlaced(t.syms, c) && WellReferring(t, sid);
  }

  lemma SettledStay(t: Table, d: Decided, v: State, w: State)
    requires Shaped(t, d, v) && Shaped(t, d, w) && Grows(v, w)
    ensures forall c: nat :: c < |d| && Settled(t, d, v, c) ==> Settled(t, d, w, c)
  {
    forall c: nat | c < |d| && Settled(t, d, v, c) ensures Settled(t, d, w, c) {
      SettledStays(t, d, v, w, c);
    }
  }

  lemma PoppedValid(t: Table, d: Decided, v: State, w: State, sid: nat)
    requires Valid(t, d, v) && v.queue != [] && sid == v.queue[0]
    requires w == v.(queue := v.queue[1..], done := v.done + {sid})
    ensures Valid(t, d, w) && Pending(w) == Pending(v)
    ensures forall c: nat :: c < |d| && Settled(t, d, v, c) ==> Settled(t, d, w, c)
  {
    assert v.queue == [sid] + w.queue;
    assert forall q :: q in v.queue <==> q == sid || q in w.queue;
    assert Shaped(t, d, w);
    assert Nested(t, d, w) by {
      forall s: nat | s < |d| && !w.marks[s].Unmarked? ensures ParentMarked(t, d, w, s) {
        assert ParentMarked(t, d, v, s);
      }
      forall s: nat | s < |d| && w.marks[s].Container? ensures exists c: nat :: Holds(t, d, w, s, c) {
        var c: nat :| Holds(t, d, v, s, c);
        assert Holds(t, d, w, s, c);
      }
    }
    forall s: nat | s < |d| ensures ExplainedAt(t, d, w, s) { assert ExplainedAt(t, d, v, s); }
  }

  // ---- what the finished worklist means ----------------------------------------

  /** The finished marks are exactly the prescribed ones, and nothing conflicts. */
  lemma Finished(t: Table, d: Decided, v: State)
    requires Valid(t, d, v) && v.queue == []
    requires forall s: nat :: s < |d| && Seed(t, d, s) ==> Settled(t, d, v, s)
    requires forall p: nat, c: nat :: p in v.done && c < |d| && Asks(t, d, p, c) ==> Settled(t, d, v, c)
    ensures !Conflicted(t, d)
    ensures forall s: nat :: s < |d| ==> v.marks[s] == MarkOf(t, d, s)
    ensures forall s: nat :: s < |d| ==> (v.cascade[s] <==> CascadesAway(t, d, s))
  {
    var least := Least(t, d);
    var full := set s: nat | s < |d| && Full(v.marks[s]);
    LeastIsClosed(t, d);
    forall c: nat | c < |d| && Considered(t, d, full, c)
      ensures Settled(t, d, v, c)
    {
      if !Seed(t, d, c) {
        var p: nat :| p in full && p < |d| && Asks(t, d, p, c);
        assert v.processed[p];
      }
    }
    assert Closed(t, d, full);
    assert full == least;
    forall s: nat | s < |d|
      ensures v.marks[s] == MarkOf(t, d, s)
    {
      if s !in least {
        ContainersExact(t, d, v, s);
      }
    }
    forall s: nat | s < |d|
      ensures v.cascade[s] <==> CascadesAway(t, d, s)
    {
      OneVerdict(t, d, s);
    }
    forall s: nat | s < |d| && Considered(t, d, least, s)
      ensures !Fails(t, d, s)
    {
    }
  }

  lemma ContainersExact(t: Table, d: Decided, v: State, s: nat)
    requires Shaped(t, d, v) && Nested(t, d, v) && s < |d| && !Full(v.marks[s])
    requires forall c: nat :: c < |d| ==> (Full(v.marks[c]) <==> c in Least(t, d))
    ensures v.marks[s].Container? <==> exists c: nat :: c in Least(t, d) && StrictAncestor(t, s, c)
  {
    if v.marks[s].Container? {
      var c: nat :| Holds(t, d, v, s, c);
      assert c in Least(t, d) && StrictAncestor(t, s, c);
    }
    if c: nat :| c in Least(t, d) && StrictAncestor(t, s, c) {
      MarkedAbove(t, d, v, s, c);
    }
  }

  lemma MarkedAbove(t: Table, d: Decided, v: State, a: nat, s: nat)
    requires Shaped(t, d, v) && Nested(t, d, v) && a < |d| && s < |d|
    requires AncestorOrSelf(t, a, s) && !v.marks[s].Unmarked?
    ensures !v.marks[a].Unmarked?
    decreases s
  {
    if a != s {
      assert ParentMarked(t, d, v, s) && WellPlaced(t.syms, s);
      MarkedAbove(t, d, v, a, t.syms[s].parent.value);
    }
  }

  // ---- enum legality --------------------------------------------------------------

  /** The first marked value of the enum exists and is zero. */
  ghost predicate FirstKeptIsZero(t: Table, marks: seq<Mark>, e: nat)
    requires WellFormed(t) && |marks| == |t.syms| && e < |t.syms|
  {
    exists k: nat :: k < |t.children[e]| && IsFirstKept(t, marks, e, k) && t.syms[t.children[e][k]].number == Some(0)
  }

  ghost predicate IsFirstKept(t: Table, marks: seq<Mark>, e: nat, k: nat)
    requires WellFormed(t) && |marks| == |t.syms| && e < |t.syms| && k < |t.children[e]|
  {
    && !marks[t.children[e][k]].Unmarked?
    && forall j: nat :: j < k ==> marks[t.children[e][j]].Unmarked?
  }

  ghost predicate LegalEnum(t: Table, marks: seq<Mark>, e: nat)
    requires WellFormed(t) && |marks| == |t.syms| && e < |t.syms|
  {
    t.syms[e].kind.Enum? && !marks[e].Unmarked? && t.syms[e].file.Some? ==> FirstKeptIsZero(t, marks, e)
  }

  ghost predicate LegalEnums(t: Table, marks: seq<Mark>)
    requires WellFormed(t) && |marks| == |t.syms|
  {
    forall e: nat :: e < |t.syms| ==> LegalEnum(t, marks, e)
  }

  method CheckEnumLegality(t: Table, marks: seq<Mark>) returns (bad: Option<nat>)
    requires WellFormed(t) && |marks| == |t.syms|
    ensures bad.None? <==> LegalEnums(t, marks)
    ensures bad.Some? ==> bad.value < |t.syms| && !LegalEnum(t, marks, bad.value)
  {
    var e := 0;
    while e < |t.syms|
      invariant 0 <= e <= |t.syms|
      invariant forall q: nat :: q < e ==> LegalEnum(t, marks, q)
    {
      if t.syms[e].kind.Enum? && !marks[e].Unmarked? && t.syms[e].file.Some? {
        var cs := t.children[e];
        var k := 0;
        while k < |cs| && marks[cs[k]].Unmarked?
          invariant 0 <= k <= |cs|
          invariant forall j: nat :: j < k ==> marks[cs[j]].Unmarked?
        {
          k := k + 1;
        }
        assert k < |cs| ==> IsFirstKept(t, marks, e, k);
        if k == |cs| || t.syms[cs[k]].number != Some(0) {
          assert forall j: nat :: j < |cs| && IsFirstKept(t, marks, e, j) ==> j == k;
          assert !LegalEnum(t, marks, e);
          return Some(e);
        }
      }
      e := e + 1;
    }
    return None;
  }

  // ---- selection as a whole ----------------------------------------------------------

  /** Every introduction link goes to a symbol of smaller rank; only kept seeds have none. */
  ghost predicate Forest(t: Table, d: Decided, sel: Selected, rank: seq<nat>)
    requires Inputs(t, d) && |sel.marks| == |sel.introduced| == |d|
  {
    |rank| == |d| && forall s: nat :: s < |d| && !sel.marks[s].Unmarked? ==>
      match sel.introduced[s]
      case None => Seed(t, d, s) && sel.marks[s].Explicit?
      case Some(via) => LinkedBy(t, d, via, s) && !sel.marks[via].Unmarked? && rank[via] < rank[s]
  }

  /** The result of a successful selection. */
  ghost predicate Selects(t: Table, d: Decided, sel: Selected)
    requires Inputs(t, d)
  {
    && |sel.marks| == |sel.cascade| == |sel.introduced| == |d|
    && (forall s: nat :: s < |d| ==> sel.marks[s] == MarkOf(t, d, s))
    && (forall s: nat :: s < |d| ==> (sel.cascade[s] <==> CascadesAway(t, d, s)))
    && exists rank: seq<nat> :: Forest(t, d, sel, rank)
  }

  ghost function MarksOf(t: Table, d: Decided): (marks: seq<Mark>)
    requires Inputs(t, d)
    ensures |marks| == |d|
  {
    seq(|d|, s requires 0 <= s < |d| => MarkOf(t, d, s))
  }

  lemma DecisionsFit(t: Table, rs: Rules)
    requires WellFormed(t) && Fits(t, rs)
    ensures Inputs(t, DecisionsOf(t, rs))
  {
    forall s | 0 <= s < |t.syms| && t.syms[s].file.None?
      ensures !IsKeep(DecisionsOf(t, rs)[s])
    {
      BuiltinsNeverKept(t, rs, s);
    }
  }

  /** Selection succeeds exactly when every rule is alive, nothing conflicts and the enums stay legal. */
  ghost predicate Selectable(t: Table, rs: Rules)
    requires WellFormed(t) && Fits(t, rs)
  {
    DecisionsFit(t, rs);
    var d := DecisionsOf(t, rs);
    && rs.pols != []
    && (forall r: nat :: r < |rs.pols| ==> !Dead(t, rs, r))
    && !Conflicted(t, d)
    && LegalEnums(t, MarksOf(t, d))
  }

  method Select(t: Table, rs: Rules) returns (out: Outcome)
    requires WellFormed(t) && Fits(t, rs)
    ensures Inputs(t, DecisionsOf(t, rs))
    ensures out.Ok? <==> Selectable(t, rs)
    ensures out.Ok? ==> Selects(t, DecisionsOf(t, rs), out.sel)
    ensures out.Err? && (out.why.Conflict? || out.why.Contradiction?) ==> Justified(t, DecisionsOf(t, rs), out.why)
  {
    DecisionsFit(t, rs);
    if rs.pols == [] {
      return Err(NoRules);
    }
    var direct := EvaluateRules(t, rs);
    if direct.None? {
      return Err(DeadRule);
    }
    var d := DecisionPass(t, rs, direct.value);
    DecisionUnique(t, rs, d);
    out := Close(t, d);
  }

  /** Seeds the worklist, drains it and checks the enums. */
  method Close(t: Table, d: Decided) returns (out: Outcome)
    requires Inputs(t, d)
    ensures out.Ok? <==> !Conflicted(t, d) && LegalEnums(t, MarksOf(t, d))
    ensures out.Ok? ==> Selects(t, d, out.sel)
    ensures out.Err? ==> out.why.IllegalEnum? || Justified(t, d, out.why)
  {
    var w := new Worklist(t, d);
    var refusal := w.SeedAll();
    if refusal.None? {
      refusal := w.Drain();
    }
    if refusal.Some? {
      JustifiedConflicts(t, d, refusal.value);
      return Err(refusal.value);
    }
    Finished(t, d, w.View());
    assert w.marks == MarksOf(t, d);
    var bad := CheckEnumLegality(t, w.marks);
    if bad.Some? {
      return Err(IllegalEnum(bad.value));
    }
    out := Ok(Selected(w.marks, w.cascade, w.introduced));
    ForestOf(t, d, w.View());
  }

  lemma JustifiedConflicts(t: Table, d: Decided, why: Refusal)
    requires Inputs(t, d) && Justified(t, d, why)
    ensures Conflicted(t, d)
  {
    var s := if why.Conflict? then why.from else why.kept;
    assert Considered(t, d, Least(t, d), s);
    var k: nat :| FirstExcluded(t, d, s, k) && t.refs[s][k] == why.target;
    assert Contradicts(d[s], d[t.refs[s][k]].value);
    assert Fails(t, d, s);
  }

  lemma ForestOf(t: Table, d: Decided, v: State)
    requires Valid(t, d, v)
    ensures Forest(t, d, Selected(v.marks, v.cascade, v.introduced), v.stamp)
  {
    forall s: nat | s < |d| && !v.marks[s].Unmarked?
      ensures match v.introduced[s]
        case None => Seed(t, d, s) && v.marks[s].Explicit?
        case Some(via) => LinkedBy(t, d, via, s) && !v.marks[via].Unmarked? && v.stamp[via] < v.stamp[s]
    {
      assert ExplainedAt(t, d, v, s);
    }
  }

  /** The introduction chain of a marked symbol is finite and ends at a symbol a rule keeps. */
  lemma {:induction false} ChainExists(t: Table, d: Decided, sel: Selected, rank: seq<nat>,
      s: nat) returns (chain: seq<nat>)
    requires Inputs(t, d) && |sel.marks| == |sel.introduced| == |d|
    requires Forest(t, d, sel, rank) && s < |d| && !sel.marks[s].Unmarked?
    ensures Chain(t, d, chain) && chain[0] == s
    ensures forall j :: 0 <= j < |chain| - 1 ==> chain[j] < |d| && sel.introduced[chain[j]] == Some(chain[j + 1])
    ensures sel.introduced[chain[|chain| - 1]].None?
    decreases rank[s]
  {
    if sel.introduced[s].None? {
      chain := [s];
    } else {
      var rest := ChainExists(t, d, sel, rank, sel.introduced[s].value);
      chain := [s] + rest;
    }
  }
}
