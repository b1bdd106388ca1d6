/** The state of the worklist as a value, its invariant, and what each update keeps. */
module Marking {
  import opened Symbols
  import opened Decisions
  import opened Closure

  /** `stamp`, `clock` and `done` are bookkeeping of the proof: when a symbol was
    first marked, and whose contents have been traversed. */
  datatype State = State(
    marks: seq<Mark>,
    cascade: seq<bool>,
    introduced: seq<Option<nat>>,
    processed: seq<bool>,
    queue: seq<nat>,
    stamp: seq<nat>,
    clock: nat,
    done: set<nat>)

  ghost predicate Shaped(t: Table, d: Decided, v: State) {
    && Inputs(t, d)
    && |v.marks| == |v.cascade| == |v.introduced| == |v.processed| == |v.stamp| == |d|
    && (forall k :: 0 <= k < |v.queue| ==> v.queue[k] < |d|)
    && (forall q :: q in v.done ==> q < |d|)
  }

  /** Full marks and cascades are justified by the least set. */
  ghost predicate Sound(t: Table, d: Decided, v: State)
    requires Shaped(t, d, v)
  {
    && (forall s: nat :: s < |d| && Full(v.marks[s]) ==> s in Least(t, d) && (Seed(t, d, s) <==> v.marks[s].Explicit?))
    && (forall s: nat :: s < |d| && v.cascade[s] ==> CascadesAway(t, d, s) && v.marks[s].Unmarked?)
  }

  /** Exactly the full keeps are processed; each is waiting or done. */
  ghost predicate Queued(t: Table, d: Decided, v: State)
    requires Shaped(t, d, v)
  {
    && (forall s: nat :: s < |d| ==> (v.processed[s] <==> Full(v.marks[s])))
    && (forall s: nat :: s < |d| ==> (v.processed[s] <==> s in v.queue || s in v.done))
  }

  ghost predicate ParentMarked(t: Table, d: Decided, v: State, s: nat)
    requires Shaped(t, d, v) && s < |d|
  {
    assert WellPlaced(t.syms, s);
    t.syms[s].parent.Some? ==> !v.marks[t.syms[s].parent.value].Unmarked?
  }

  ghost predicate Holds(t: Table, d: Decided, v: State, s: nat, c: nat)
    requires Shaped(t, d, v)
  {
    c < |d| && Full(v.marks[c]) && StrictAncestor(t, s, c)
  }

  /** Marks are closed upwards, and a container is a definition above a full keep. */
  ghost predicate Nested(t: Table, d: Decided, v: State)
    requires Shaped(t, d, v)
  {
    && (forall s: nat :: s < |d| && !v.marks[s].Unmarked? ==> ParentMarked(t, d, v, s))
    && Contained(t, d, v)
  }

  ghost predicate Contained(t: Table, d: Decided, v: State)
    requires Shaped(t, d, v)
  {
    forall s: nat :: s < |d| && v.marks[s].Container? ==> IsDef(t.syms[s].kind) && exists c: nat :: Holds(t, d, v, s, c)
  }

  /** Introduction links lead to symbols marked earlier; only kept seeds have none. */
  ghost predicate Explained(t: Table, d: Decided, v: State)
    requires Shaped(t, d, v)
  {
    forall s: nat :: s < |d| ==> ExplainedAt(t, d, v, s)
  }

  ghost predicate ExplainedAt(t: Table, d: Decided, v: State, s: nat)
    requires Shaped(t, d, v) && s < |d|
  {
    && (v.marks[s].Unmarked? || v.marks[s].Explicit? ==> v.introduced[s].None?)
    && (!v.marks[s].Unmarked? ==> v.stamp[s] < v.clock)
    && (v.introduced[s].None? ==> v.marks[s].Unmarked? || v.marks[s].Explicit?)
    && (v.introduced[s].Some? ==> Introduces(t, d, v, v.introduced[s].value, s))
  }

  /** `via` was marked before `s` and is its child, or is a full keep that asks for it. */
  ghost predicate Introduces(t: Table, d: Decided, v: State, via: nat, s: nat)
    requires Shaped(t, d, v) && s < |d|
  {
    && via < |d| && !v.marks[via].Unmarked? && v.stamp[via] < v.stamp[s]
    && (t.syms[via].parent == Some(s) || (Full(v.marks[via]) && Asks(t, d, via, s)))
  }

  ghost predicate Valid(t: Table, d: Decided, v: State) {
    Shaped(t, d, v) && Sound(t, d, v) && Queued(t, d, v) && Nested(t, d, v) && Explained(t, d, v)
  }

  /** Nothing remains to be done about `c`. */
  ghost predicate Settled(t: Table, d: Decided, v: State, c: nat)
    requires Shaped(t, d, v) && c < |d|
  {
    && !Fails(t, d, c)
    && (Free(t, d, c) ==> Full(v.marks[c]) && (Seed(t, d, c) ==> v.marks[c].Explicit?))
    && (Cascades(t, d, c) ==> v.cascade[c])
  }

  /** Full keeps and cascades are never undone, and marks are never lowered. */
  predicate Grows(v: State, w: State) {
    && |v.marks| == |w.marks| && |v.cascade| == |w.cascade| && |v.processed| == |w.processed|
    && (forall s :: 0 <= s < |v.marks| ==>
          (Full(v.marks[s]) ==> w.marks[s] == v.marks[s]) && Strength(v.marks[s]) <= Strength(w.marks[s]))
    && (forall s :: 0 <= s < |v.cascade| && v.cascade[s] ==> w.cascade[s])
    && v.queue <= w.queue && v.done == w.done
    && ((v.queue == w.queue && v.processed == w.processed) || Pending(w) < Pending(v))
  }

  function Pending(v: State): set<nat> {
    set s: nat | s < |v.processed| && !v.processed[s]
  }

  lemma GrowsTransitive(u: State, v: State, w: State)
    requires Grows(u, v) && Grows(v, w)
    ensures Grows(u, w)
  {
  }

  lemma SettledStays(t: Table, d: Decided, v: State, w: State, c: nat)
    requires Shaped(t, d, v) && Shaped(t, d, w) && c < |d| && Grows(v, w) && Settled(t, d, v, c)
    ensures Settled(t, d, w, c)
  {
  }

  // ---- the updates of `keep` ---------------------------------------------------

  /** May `sid` be kept at `level` because of `via`? */
  ghost predicate Asked(t: Table, d: Decided, v: State, sid: nat, level: Mark, via: Option<nat>)
    requires Shaped(t, d, v) && sid < |d|
  {
    && Full(level) && Considered(t, d, Least(t, d), sid)
    && (level.Explicit? ==> Seed(t, d, sid))
    && (via.None? ==> level.Explicit? && (v.marks[sid].Unmarked? || v.marks[sid].Explicit?))
    && (via.Some? ==>
          && via.value < |d| && Full(v.marks[via.value]) && Asks(t, d, via.value, sid)
          && (Seed(t, d, sid) && Free(t, d, sid) ==> v.marks[sid].Explicit?))
  }

  function Cascaded(v: State, sid: nat): State
    requires sid < |v.marks| && sid < |v.cascade|
  {
    v.(cascade := v.cascade[sid := true], marks := v.marks[sid := Unmarked])
  }

  lemma CascadedValid(t: Table, d: Decided, v: State, sid: nat, level: Mark, via: Option<nat>)
    requires Valid(t, d, v) && sid < |d| && Asked(t, d, v, sid, level, via)
    requires Cascades(t, d, sid)
    ensures Valid(t, d, Cascaded(v, sid)) && Grows(v, Cascaded(v, sid)) && Settled(t, d, Cascaded(v, sid), sid)
  {
    OneVerdict(t, d, sid);
    assert WellReferring(t, sid);
    if Full(v.marks[sid]) {
      LeastIsJustified(t, d, sid);
    }
    assert v.marks[sid].Unmarked?;
    assert Cascaded(v, sid).marks == v.marks;
    var w := Cascaded(v, sid);
    assert Nested(t, d, w) by {
      forall s: nat | s < |d| && !w.marks[s].Unmarked? ensures ParentMarked(t, d, w, s) {
        assert ParentMarked(t, d, v, s);
      }
      forall s: nat | s < |d| && w.marks[s].Container? ensures exists c: nat :: Holds(t, d, w, s, c) {
        var c: nat :| Holds(t, d, v, s, c);
        assert Holds(t, d, w, s, c);
      }
    }
    assert Explained(t, d, w) by {
      forall s: nat | s < |d| ensures ExplainedAt(t, d, w, s) { assert ExplainedAt(t, d, v, s); }
    }
  }

  /** The mark and the introduction of the kept symbol itself. */
  function Raised(v: State, sid: nat, level: Mark, via: Option<nat>): State
    requires sid < |v.marks| && sid < |v.introduced| && sid < |v.stamp|
  {
    v.(marks := v.marks[sid := level],
       introduced := if v.introduced[sid].None? then v.introduced[sid := via] else v.introduced,
       stamp := if v.marks[sid].Unmarked? then v.stamp[sid := v.clock] else v.stamp,
       clock := if v.marks[sid].Unmarked? then v.clock + 1 else v.clock)
  }

  /** The next ancestor, kept as a container because of `child`. */
  function Contains(v: State, p: nat, child: nat): State
    requires p < |v.marks| && p < |v.introduced| && p < |v.stamp|
  {
    v.(marks := v.marks[p := Container],
       introduced := if v.introduced[p].None? then v.introduced[p := Some(child)] else v.introduced,
       stamp := v.stamp[p := v.clock],
       clock := v.clock + 1)
  }

  /** Between raising `sid` and finishing its ancestor chain: only the parent of `child` may be missing. */
  ghost predicate Climbing(t: Table, d: Decided, v: State, w: State, sid: nat, level: Mark, child: nat) {
    && Shaped(t, d, v) && Shaped(t, d, w) && sid < |d| && child < |d|
    && Explained(t, d, w)
    && AncestorOrSelf(t, child, sid) && !w.marks[child].Unmarked?
    && w.cascade == v.cascade && w.processed == v.processed && w.queue == v.queue && w.done == v.done
    && w.marks[sid] == level
    && (forall s: nat :: s < |d| && s != sid && w.marks[s] != v.marks[s] ==>
          v.marks[s].Unmarked? && w.marks[s].Container? && StrictAncestor(t, s, sid) && IsDef(t.syms[s].kind))
    && (forall s: nat :: s < |d| && s != child && !w.marks[s].Unmarked? ==> ParentMarked(t, d, w, s))
  }

  lemma RaisedClimbs(t: Table, d: Decided, v: State, sid: nat, level: Mark, via: Option<nat>)
    requires Valid(t, d, v) && sid < |d| && Asked(t, d, v, sid, level, via)
    requires Free(t, d, sid) && Strength(v.marks[sid]) < Strength(level)
    ensures Climbing(t, d, v, Raised(v, sid, level, via), sid, level, sid)
    ensures !Full(v.marks[sid])
  {
    var w := Raised(v, sid, level, via);
    assert ExplainedAt(t, d, v, sid);
    assert Shaped(t, d, w);
    forall s: nat | s < |d| ensures ExplainedAt(t, d, w, s) {
      assert ExplainedAt(t, d, v, s);
      if s == sid && via.Some? { assert ExplainedAt(t, d, v, via.value); }
      if v.introduced[s].Some? { assert ExplainedAt(t, d, v, v.introduced[s].value); }
    }
    forall s: nat | s < |d| && s != sid && !w.marks[s].Unmarked? ensures ParentMarked(t, d, w, s) {
      assert ParentMarked(t, d, v, s);
    }
  }

  lemma ContainsClimbs(t: Table, d: Decided, v: State, w: State, sid: nat, level: Mark, child: nat, p: nat)
    requires Climbing(t, d, v, w, sid, level, child) && Full(level)
    requires t.syms[child].parent == Some(p) && p < |d| && w.marks[p].Unmarked?
    ensures p < child && Climbing(t, d, v, Contains(w, p, child), sid, level, p)
  {
    AncestorStep(t, p, child, sid);
    var x := Contains(w, p, child);
    assert Shaped(t, d, x);
    assert ExplainedAt(t, d, w, p) && ExplainedAt(t, d, w, child);
    forall s: nat | s < |d| ensures ExplainedAt(t, d, x, s) {
      assert ExplainedAt(t, d, w, s);
      if w.introduced[s].Some? { assert ExplainedAt(t, d, w, w.introduced[s].value); }
    }
    forall s: nat | s < |d| && s != p && !x.marks[s].Unmarked? ensures ParentMarked(t, d, x, s) {
      if s != child { assert ParentMarked(t, d, w, s); }
    }
  }

  lemma AncestorStep(t: Table, p: nat, child: nat, s: nat)
    requires WellFormed(t) && s < |t.syms| && child < |t.syms|
    requires AncestorOrSelf(t, child, s) && t.syms[child].parent == Some(p)
    ensures p < child && StrictAncestor(t, p, s) && IsDef(t.syms[p].kind)
  {
    assert WellPlaced(t.syms, child);
    assert AncestorOrSelf(t, p, child);
    AncestorTransitive(t, p, child, s);
    AncestorBound(t, child, s);
  }

  function Pushed(v: State, sid: nat): State
    requires sid < |v.processed|
  {
    v.(processed := v.processed[sid := true], queue := v.queue + [sid])
  }

  /** Once the chain is complete, queueing `sid` restores the invariant. */
  lemma PushedValid(t: Table, d: Decided, v: State, w: State, sid: nat, level: Mark, child: nat)
    requires Valid(t, d, v) && Climbing(t, d, v, w, sid, level, child)
    requires Full(level) && !Full(v.marks[sid]) && sid in Least(t, d) && (level.Explicit? <==> Seed(t, d, sid))
    requires ParentMarked(t, d, w, child)
    ensures Valid(t, d, Pushed(w, sid)) && Grows(v, Pushed(w, sid)) && Settled(t, d, Pushed(w, sid), sid)
  {
    PushedSound(t, d, v, w, sid, level, child);
    PushedQueued(t, d, v, w, sid, level, child);
    PushedNested(t, d, v, w, sid, level, child);
    var x := Pushed(w, sid);
    forall s: nat | s < |d| ensures ExplainedAt(t, d, x, s) { assert ExplainedAt(t, d, w, s); }
    LeastIsJustified(t, d, sid);
    OneVerdict(t, d, sid);
  }

  lemma PushedSound(t: Table, d: Decided, v: State, w: State, sid: nat, level: Mark, child: nat)
    requires Shaped(t, d, v) && Sound(t, d, v) && Climbing(t, d, v, w, sid, level, child)
    requires Full(level) && !Full(v.marks[sid]) && sid in Least(t, d) && (level.Explicit? <==> Seed(t, d, sid))
    ensures Shaped(t, d, Pushed(w, sid)) && Sound(t, d, Pushed(w, sid))
  {
    LeastIsJustified(t, d, sid);
    OneVerdict(t, d, sid);
    var x := Pushed(w, sid);
    forall s: nat | s < |d| && x.cascade[s] ensures CascadesAway(t, d, s) && x.marks[s].Unmarked? {
      assert WellReferring(t, s);
    }
  }

  lemma PushedQueued(t: Table, d: Decided, v: State, w: State, sid: nat, level: Mark, child: nat)
    requires Shaped(t, d, v) && Queued(t, d, v) && Climbing(t, d, v, w, sid, level, child)
    requires Full(level) && !Full(v.marks[sid])
    ensures Shaped(t, d, Pushed(w, sid)) && Queued(t, d, Pushed(w, sid)) && Grows(v, Pushed(w, sid))
  {
    var x := Pushed(w, sid);
    assert !v.processed[sid] && sid in Pending(v) && sid !in Pending(x);
    forall s: nat | s < |d| ensures x.processed[s] <==> s in x.queue || s in x.done {
      assert v.processed[s] <==> s in v.queue || s in v.done;
    }
  }

  lemma PushedNested(t: Table, d: Decided, v: State, w: State, sid: nat, level: Mark, child: nat)
    requires Valid(t, d, v) && Climbing(t, d, v, w, sid, level, child) && Full(level)
    requires ParentMarked(t, d, w, child)
    ensures Shaped(t, d, Pushed(w, sid)) && Nested(t, d, Pushed(w, sid))
  {
    var x := Pushed(w, sid);
    assert Shaped(t, d, x);
    forall s: nat | s < |d| && !x.marks[s].Unmarked? ensures ParentMarked(t, d, x, s) {
      assert ParentMarked(t, d, w, s);
    }
    forall s: nat | s < |d| && x.marks[s].Container?
      ensures IsDef(t.syms[s].kind) && exists c: nat :: Holds(t, d, x, s, c)
    {
      if v.marks[s].Container? {
        var c: nat :| Holds(t, d, v, s, c);
        assert Holds(t, d, x, s, c);
      } else {
        assert Holds(t, d, x, s, sid);
      }
    }
  }
}
