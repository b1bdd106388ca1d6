/** Which files and import lines survive pruning. */
module Bridges {
  import opened Symbols
  import opened Imports

  type Providers = set<Provider>

  /** Provide sets of all files, demand of all files, and which files keep definitions. */
  ghost predicate Demands(fs: Files, provided: seq<Providers>, hasDefs: seq<bool>, needed: seq<Providers>) {
    && Sane(fs) && AllProvides(fs, provided)
    && |hasDefs| == |needed| == |fs.paths|
    && fs.alive == (set f: nat | f < |fs.paths| && InSet(fs, f))
  }

  predicate InSet(fs: Files, f: nat) {
    f < |fs.paths|
  }

  // ---- what demand means -----------------------------------------------------------

  /** Some definition-kept file needs `x` and imports `g` (any import line), which provides it. */
  ghost predicate Enters(fs: Files, hasDefs: seq<bool>, needed: seq<Providers>, g: nat, x: Provider)
    requires Sane(fs) && |hasDefs| == |needed| == |fs.paths|
  {
    exists f :: f in fs.alive && hasDefs[f] && x in needed[f] && Direct(fs, f, g)
  }

  /** `t` lies on an `import public` chain from such an import towards the provider. */
  ghost predicate Carries(fs: Files, hasDefs: seq<bool>, needed: seq<Providers>, t: nat, x: Provider)
    requires Sane(fs) && |hasDefs| == |needed| == |fs.paths|
  {
    t in fs.alive && Provides(fs, t, x) && exists g :: Enters(fs, hasDefs, needed, g, x) && Reaches(fs, g, t)
  }

  ghost predicate RequiredFile(fs: Files, hasDefs: seq<bool>, needed: seq<Providers>, t: nat)
    requires Sane(fs) && |hasDefs| == |needed| == |fs.paths| && t in fs.alive
  {
    hasDefs[t] || exists x :: Carries(fs, hasDefs, needed, t, x)
  }

  // ---- the fixpoint ------------------------------------------------------------------

  /** The part of `demand` that `t` can provide has arrived there. */
  ghost predicate Arrived(provided: seq<Providers>, flow: seq<Providers>, t: nat, demand: Providers)
    requires |provided| == |flow| && t < |flow|
  {
    demand * provided[t] <= flow[t]
  }

  /** Flow only carries genuine demand, and marks exactly the files it passes. */
  ghost predicate Genuine(fs: Files, provided: seq<Providers>, hasDefs: seq<bool>, needed: seq<Providers>,
                          required: seq<bool>, flow: seq<Providers>)
  {
    && Demands(fs, provided, hasDefs, needed) && |required| == |flow| == |fs.paths|
    && (forall t, x :: t in fs.alive && x in flow[t] ==> Carries(fs, hasDefs, needed, t, x))
    && (forall t :: t in fs.alive ==> (required[t] <==> hasDefs[t] || flow[t] != {}))
  }

  /** Demand of `t` has moved on along its public lines. */
  ghost predicate Forwarded(fs: Files, provided: seq<Providers>, flow: seq<Providers>, t: nat)
    requires Sane(fs) && |provided| == |flow| == |fs.paths| && t in fs.alive
  {
    forall u :: PublicEdge(fs, t, u) ==> Arrived(provided, flow, u, flow[t])
  }

  /** Flow sets only grew, every file whose flow grew is queued, and nothing left the queue. */
  predicate Moved(flow: seq<Providers>, queue: seq<nat>, flow': seq<Providers>, queue': seq<nat>) {
    && |flow| == |flow'|
    && (forall t :: 0 <= t < |flow| ==> flow[t] <= flow'[t])
    && (forall t :: 0 <= t < |flow| && flow[t] != flow'[t] ==> t in queue')
    && queue <= queue'
    && (flow == flow' ==> queue == queue')
  }

  lemma MovedTransitive(f0: seq<Providers>, q0: seq<nat>, f1: seq<Providers>, q1: seq<nat>, f2: seq<Providers>,
      q2: seq<nat>)
    requires Moved(f0, q0, f1, q1) && Moved(f1, q1, f2, q2)
    ensures Moved(f0, q0, f2, q2)
  {
    if f0 == f2 {
      forall t | 0 <= t < |f0| ensures f0[t] == f1[t] {
        assert f0[t] <= f1[t] && f1[t] <= f2[t];
      }
    }
  }

  /** What is still missing from the flow sets: the measure of the fixpoint. */
  ghost function Missing(needed: seq<Providers>, flow: seq<Providers>): set<(nat, Provider)> {
    set t: nat, x | t < |flow| && x in AllNeeded(needed) && x !in flow[t] :: (t, x)
  }

  ghost function AllNeeded(needed: seq<Providers>): Providers {
    set f: nat, x | f < |needed| && x in needed[f] :: x
  }

  class Fixpoint {
    const fs: Files
    const provided: seq<Providers>
    ghost const hasDefs: seq<bool>
    ghost const needed: seq<Providers>
    var required: seq<bool>
    var flow: seq<Providers>
    var queue: seq<nat>

    ghost predicate Valid()
      reads this
    {
      && Genuine(fs, provided, hasDefs, needed, required, flow)
      && (forall k :: 0 <= k < |queue| ==> queue[k] in fs.alive)
    }

    constructor (fs: Files, provided: seq<Providers>, hasDefs: seq<bool>, ghost needed: seq<Providers>)
      requires Demands(fs, provided, hasDefs, needed)
      ensures this.fs == fs && this.provided == provided && this.hasDefs == hasDefs && this.needed == needed
      ensures Valid() && queue == [] && forall t: nat :: t < |flow| ==> flow[t] == {}
    {
      this.fs, this.provided, this.hasDefs, this.needed := fs, provided, hasDefs, needed;
      required := hasDefs;
      flow := seq(|fs.paths|, _ => {});
      queue := [];
    }

    /** Pushes the part of `demand` that `t` can provide into `t`. */
    method PushDemand(t: nat, demand: Providers)
      requires Valid() && t in fs.alive
      requires forall x :: x in demand && Provides(fs, t, x) ==> Carries(fs, hasDefs, needed, t, x)
      modifies this
      ensures Valid() && Arrived(provided, flow, t, demand)
      ensures flow == old(flow)[t := old(flow)[t] + demand * provided[t]]
      ensures Moved(old(flow), old(queue), flow, queue)
    {
      var arriving := demand * provided[t];
      var grew := !(arriving <= flow[t]);
      ghost var before := flow;
      flow := flow[t := flow[t] + arriving];
      if grew {
        required := required[t := true];
        queue := queue + [t];
      }
      assert grew ==> flow[t] != before[t];
      assert !grew ==> flow[t] == before[t] && flow == before;
    }

    /** Everything `f` needs has arrived at the files it imports. */
    ghost predicate Entered(f: nat)
      reads this
      requires Valid() && f in fs.alive
    {
      EnteredIn(flow, f)
    }

    ghost predicate EnteredIn(flow: seq<Providers>, f: nat)
      requires Demands(fs, provided, hasDefs, needed) && |flow| == |fs.paths| && f in fs.alive
    {
      hasDefs[f] ==> forall g :: Direct(fs, f, g) ==> Arrived(provided, flow, g, needed[f])
    }

    /** Seeds the import lines written in one definition-kept file. */
    method SeedFile(f: nat, need: Providers)
      requires Valid() && f in fs.alive && hasDefs[f] && need == needed[f]
      modifies this
      ensures Valid() && Entered(f) && Moved(old(flow), old(queue), flow, queue)
    {
      var k := 0;
      assert fs.imports[f][..k] == [];
      while k < |fs.imports[f]|
        invariant 0 <= k <= |fs.imports[f]| && SentTo(fs.imports[f][..k], need)
        invariant Moved(old(flow), old(queue), flow, queue)
      {
        ghost var f1, q1 := flow, queue;
        SeedLine(f, need, fs.imports[f][k]);
        MovedTransitive(old(flow), old(queue), f1, q1, flow, queue);
        TakeOneMore(fs.imports[f], k);
        SentOneMore(fs.imports[f][..k], fs.imports[f][k], need, f1, q1);
        k := k + 1;
      }
      assert fs.imports[f][..k] == fs.imports[f];
      SentEntered(f, need);
    }

    lemma SentEntered(f: nat, need: Providers)
      requires Valid() && f in fs.alive && need == needed[f] && SentTo(fs.imports[f], need)
      ensures Entered(f)
    {
    }

    /** The demand has arrived at every input file these lines name. */
    ghost predicate SentTo(lines: seq<Import>, need: Providers)
      reads this
    {
      Valid() && forall g :: g in fs.alive && Names(lines, fs.paths[g]) ==> Arrived(provided, flow, g, need)
    }

    lemma SentOneMore(lines: seq<Import>, imp: Import, need: Providers, f1: seq<Providers>, q1: seq<nat>)
      requires Valid() && Moved(f1, q1, flow, queue)
      requires forall g :: g in fs.alive && Names(lines, fs.paths[g]) ==> Arrived(provided, f1, g, need)
      requires forall g :: g in fs.alive && fs.paths[g] == imp.path ==> Arrived(provided, flow, g, need)
      ensures SentTo(lines + [imp], need)
    {
      OneMoreName(lines, imp);
      forall g | g in fs.alive && Names(lines + [imp], fs.paths[g])
        ensures Arrived(provided, flow, g, need)
      {
        if Names(lines, fs.paths[g]) {
          assert Arrived(provided, f1, g, need);
        }
      }
    }

    method SeedLine(f: nat, need: Providers, imp: Import)
      requires Valid() && f in fs.alive && hasDefs[f] && need == needed[f] && imp in fs.imports[f]
      modifies this
      ensures Valid() && Moved(old(flow), old(queue), flow, queue)
      ensures forall g :: g in fs.alive && fs.paths[g] == imp.path ==> Arrived(provided, flow, g, need)
    {
      var index := Index(fs);
      if imp.path in index {
        var t := index[imp.path];
        assert Names(fs.imports[f], imp.path) && Direct(fs, f, t);
        ReachesSelf(fs, t);
        assert forall x :: x in need ==> Enters(fs, hasDefs, needed, t, x);
        PushDemand(t, need);
      }
    }

    /** Pushes the demand that reached `f` along its public lines. */
    method Forward(f: nat)
      requires Valid() && f in fs.alive
      modifies this
      ensures Valid() && Forwarded(fs, provided, flow, f) && Moved(old(flow), old(queue), flow, queue)
    {
      var demand := flow[f];
      var k := 0;
      while k < |fs.imports[f]|
        invariant 0 <= k <= |fs.imports[f]| && Valid() && Moved(old(flow), old(queue), flow, queue) && flow[f] == demand
        invariant SentOn(f, fs.imports[f][..k])
      {
        ghost var f1, q1 := flow, queue;
        ForwardLine(f, demand, fs.imports[f][k]);
        MovedTransitive(old(flow), old(queue), f1, q1, flow, queue);
        TakeOneMore(fs.imports[f], k);
        SentOnOneMore(f, fs.imports[f][..k], fs.imports[f][k], f1, q1);
        k := k + 1;
      }
      assert fs.imports[f][..k] == fs.imports[f];
      forall u | PublicEdge(fs, f, u) ensures Arrived(provided, flow, u, flow[f]) {
        assert SentOn(f, fs.imports[f]);
      }
    }

    /** The flow of `f` has arrived at every other input file these lines name publicly. */
    ghost predicate SentOn(f: nat, lines: seq<Import>)
      reads this
    {
      Valid() && f in fs.alive &&
      forall g :: g in fs.alive && g != f && NamesPublicly(lines, fs.paths[g]) ==> Arrived(provided, flow, g, flow[f])
    }

    lemma SentOnOneMore(f: nat, lines: seq<Import>, imp: Import, f1: seq<Providers>, q1: seq<nat>)
      requires Valid() && f in fs.alive && Moved(f1, q1, flow, queue) && f1[f] == flow[f]
      requires forall g :: g in fs.alive && g != f && NamesPublicly(lines, fs.paths[g]) ==>
        Arrived(provided, f1, g, f1[f])
      requires imp.kind.Public? ==> forall g :: g in fs.alive && g != f && fs.paths[g] == imp.path ==> Arrived(provided, flow, g, flow[f])
      ensures SentOn(f, lines + [imp])
    {
      OneMoreName(lines, imp);
      forall g | g in fs.alive && g != f && NamesPublicly(lines + [imp], fs.paths[g])
        ensures Arrived(provided, flow, g, flow[f])
      {
        if NamesPublicly(lines, fs.paths[g]) {
          assert Arrived(provided, f1, g, f1[f]);
        }
      }
    }

    method ForwardLine(f: nat, demand: Providers, imp: Import)
      requires Valid() && f in fs.alive && flow[f] == demand && imp in fs.imports[f]
      modifies this
      ensures Valid() && flow[f] == demand && Moved(old(flow), old(queue), flow, queue)
      ensures imp.kind.Public? ==> forall g :: g in fs.alive && g != f && fs.paths[g] == imp.path ==> Arrived(provided, flow, g, demand)
    {
      var index := Index(fs);
      if imp.kind.Public? && imp.path in index {
        var t := index[imp.path];
        if t != f {
          assert NamesPublicly(fs.imports[f], imp.path) && PublicEdge(fs, f, t);
          CarriedOn(f, t);
          PushDemand(t, demand);
        }
      }
    }

    lemma CarriedOn(f: nat, t: nat)
      requires Valid() && f in fs.alive && PublicEdge(fs, f, t)
      ensures forall x :: x in flow[f] && Provides(fs, t, x) ==> Carries(fs, hasDefs, needed, t, x)
    {
      forall x | x in flow[f] && Provides(fs, t, x)
        ensures Carries(fs, hasDefs, needed, t, x)
      {
        var g :| Enters(fs, hasDefs, needed, g, x) && Reaches(fs, g, f);
        var p: seq<nat> :| ChainFromTo(fs, p, g, f);
        ReachesSelf(fs, t);
        ReachesAfterEdge(fs, f, t, t);
        ReachesTransitive(fs, p, g, f, t);
      }
    }

    /** Propagates along `import public` chains until nothing moves. */
    method Propagate()
      requires Valid()
      requires forall t :: t in fs.alive && flow[t] != {} ==> t in queue
      requires forall f :: f in fs.alive ==> Entered(f)
      modifies this
      ensures Valid()
      ensures forall f :: f in fs.alive ==> Entered(f) && Forwarded(fs, provided, flow, f)
    {
      while queue != []
        invariant Valid()
        invariant forall f :: f in fs.alive ==> Entered(f)
        invariant forall t :: t in fs.alive && t !in queue ==> Forwarded(fs, provided, flow, t)
        decreases Missing(needed, flow), |queue|
      {
        var f := queue[|queue| - 1];
        ghost var before, waiting := flow, queue;
        queue := queue[..|queue| - 1];
        assert waiting == queue + [f];
        Forward(f);
        FlowIsNeeded();
        MissingShrinks(needed, before, flow);
        StillEntered(before, waiting[..|waiting| - 1]);
        StillForwarded(before, waiting, f);
      }
    }

    lemma FlowIsNeeded()
      requires Valid()
      ensures forall t :: 0 <= t < |flow| ==> flow[t] <= AllNeeded(needed)
    {
      forall t, x | 0 <= t < |flow| && x in flow[t]
        ensures x in AllNeeded(needed)
      {
        assert InSet(fs, t) && t in fs.alive;
        assert Carries(fs, hasDefs, needed, t, x);
      }
    }

    /** Arrivals are never undone. */
    lemma StillEntered(before: seq<Providers>, waiting: seq<nat>)
      requires Valid() && Moved(before, waiting, flow, queue)
      ensures forall f :: f in fs.alive && EnteredIn(before, f) ==> Entered(f)
    {
      forall f | f in fs.alive && EnteredIn(before, f)
        ensures Entered(f)
      {
        if hasDefs[f] {
          forall g | Direct(fs, f, g) ensures Arrived(provided, flow, g, needed[f]) {
            assert Arrived(provided, before, g, needed[f]);
          }
        }
      }
    }

    lemma StillForwarded(before: seq<Providers>, waiting: seq<nat>, f: nat)
      requires Valid() && f in fs.alive && waiting != [] && waiting[|waiting| - 1] == f
      requires Moved(before, waiting[..|waiting| - 1], flow, queue)
      requires forall t :: t in fs.alive && t !in waiting ==> Forwarded(fs, provided, before, t)
      requires Forwarded(fs, provided, flow, f)
      ensures forall t :: t in fs.alive && t !in queue ==> Forwarded(fs, provided, flow, t)
    {
      assert waiting == waiting[..|waiting| - 1] + [f];
      forall t | t in fs.alive && t !in queue && t != f
        ensures Forwarded(fs, provided, flow, t)
      {
        assert t !in waiting && flow[t] == before[t];
        forall u | PublicEdge(fs, t, u) ensures Arrived(provided, flow, u, flow[t]) {
          assert Arrived(provided, before, u, before[t]);
        }
      }
    }
  }

  /** Growing flow, within what is needed, leaves less missing. */
  lemma MissingShrinks(needed: seq<Providers>, before: seq<Providers>, flow: seq<Providers>)
    requires |before| == |flow| && forall t :: 0 <= t < |flow| ==> before[t] <= flow[t]
    requires forall t :: 0 <= t < |flow| ==> flow[t] <= AllNeeded(needed)
    ensures Missing(needed, flow) <= Missing(needed, before)
    ensures flow != before ==> Missing(needed, flow) < Missing(needed, before)
  {
    if flow != before {
      var t: nat :| t < |flow| && flow[t] != before[t];
      var x :| x in flow[t] && x !in before[t];
      assert (t, x) in Missing(needed, before) && (t, x) !in Missing(needed, flow);
    }
  }

  /** Forwarded flow reaches every file on a public chain that can still provide the item. */
  lemma {:induction false} FlowAlong(fs: Files, provided: seq<Providers>, flow: seq<Providers>, p: seq<nat>, f: nat,
      t: nat, x: Provider)
    requires Sane(fs) && AllProvides(fs, provided) && |flow| == |fs.paths|
    requires forall u :: u in fs.alive ==> Forwarded(fs, provided, flow, u)
    requires ChainFromTo(fs, p, f, t) && x in flow[f] && Provides(fs, t, x)
    ensures x in flow[t]
  {
    if |p| > 1 {
      assert PublicEdge(fs, p[0], p[1]) && ChainFromTo(fs, p[1..], p[1], t);
      ProvidesAlong(fs, p[1..], p[1], t, x);
      assert Arrived(provided, flow, p[1], flow[f]);
      FlowAlong(fs, provided, flow, p[1..], p[1], t, x);
    }
  }

  lemma {:induction false} ProvidesAlong(fs: Files, p: seq<nat>, f: nat, t: nat, x: Provider)
    requires Sane(fs) && ChainFromTo(fs, p, f, t) && Provides(fs, t, x)
    ensures Provides(fs, f, x)
  {
    if |p| > 1 {
      assert PublicEdge(fs, p[0], p[1]) && ChainFromTo(fs, p[1..], p[1], t);
      ProvidesAlong(fs, p[1..], p[1], t, x);
      ProvidesAfterEdge(fs, f, p[1], x);
    }
  }

  /** The files that must survive, exactly. */
  method RequiredFiles(fs: Files, provided: seq<Providers>, hasDefs: seq<bool>,
      needed: seq<Providers>) returns (required: seq<bool>)
    requires Demands(fs, provided, hasDefs, needed)
    ensures |required| == |fs.paths|
    ensures forall t :: t in fs.alive ==> (required[t] <==> RequiredFile(fs, hasDefs, needed, t))
  {
    var fix := new Fixpoint(fs, provided, hasDefs, needed);
    var f := 0;
    while f < |fs.paths|
      invariant 0 <= f <= |fs.paths|
      invariant fix.fs == fs && fix.provided == provided && fix.hasDefs == hasDefs && fix.needed == needed
      invariant fix.Valid() && fresh(fix)
      invariant forall g: nat :: g < f && g in fs.alive ==> fix.Entered(g)
      invariant forall t :: t in fs.alive && fix.flow[t] != {} ==> t in fix.queue
    {
      assert InSet(fs, f) && f in fs.alive;
      if hasDefs[f] {
        ghost var before, waiting := fix.flow, fix.queue;
        fix.SeedFile(f, needed[f]);
        fix.StillEntered(before, waiting);
      }
      f := f + 1;
    }
    fix.Propagate();
    required := fix.required;
    forall t | t in fs.alive
      ensures required[t] <==> RequiredFile(fs, hasDefs, needed, t)
    {
      if x :| x in fix.flow[t] {
        assert Carries(fs, hasDefs, needed, t, x);
      }
      if x :| Carries(fs, hasDefs, needed, t, x) {
        var g :| Enters(fs, hasDefs, needed, g, x) && Reaches(fs, g, t);
        var p: seq<nat> :| ChainFromTo(fs, p, g, t);
        ProvidesAlong(fs, p, g, t, x);
        var e :| e in fs.alive && hasDefs[e] && x in needed[e] && Direct(fs, e, g);
        assert fix.Entered(e) && Arrived(provided, fix.flow, g, needed[e]);
        FlowAlong(fs, provided, fix.flow, p, g, t, x);
      }
    }
  }
}
