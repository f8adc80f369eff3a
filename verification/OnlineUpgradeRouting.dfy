/** Clients are sent away from a subcluster before its pods are recreated: at every recreation in a
    pass the service of a subcluster on the old image selects a temporary target. */
module OnlineUpgradeRouting {
  import opened Text
  import opened Api
  import opened OnlineUpgrade

  // ---------------------------------------------------------------- every recreation follows a drain

  /** Operations that neither give a service back nor change the spec. */
  predicate LeavesRouting(op: Op) {
    op.Post? || op.Drain? || op.Recreate? || op.Other?
  }

  /** The operation at i, if it recreates a subcluster, comes after a drain of the same one, with
      nothing in between that would undo it. */
  ghost predicate DrainedBefore(ops: seq<Op>, i: nat)
    requires i < |ops|
  {
    ops[i].Recreate? ==>
      exists j :: 0 <= j < i && ops[j] == Drain(ops[i].sc) && forall k | j < k < i :: LeavesRouting(ops[k])
  }

  ghost predicate DrainsFirst(ops: seq<Op>) {
    forall i | 0 <= i < |ops| :: DrainedBefore(ops, i)
  }

  lemma Later(a: seq<Op>, b: seq<Op>, i: nat)
    requires i < |b| && DrainedBefore(b, i)
    ensures DrainedBefore(a + b, |a| + i)
  {
    var ops, n := a + b, |a|;
    if b[i].Recreate? {
      var j :| 0 <= j < i && b[j] == Drain(b[i].sc) && forall k | j < k < i :: LeavesRouting(b[k]);
      assert ops[n + j] == b[j] && ops[n + i] == b[i];
      forall k | n + j < k < n + i
        ensures LeavesRouting(ops[k])
      {
        assert ops[k] == b[k - n];
      }
    }
  }

  lemma Earlier(a: seq<Op>, b: seq<Op>, i: nat)
    requires i < |a| && DrainedBefore(a, i)
    ensures DrainedBefore(a + b, i)
  {
    var ops := a + b;
    if a[i].Recreate? {
      var j :| 0 <= j < i && a[j] == Drain(a[i].sc) && forall k | j < k < i :: LeavesRouting(a[k]);
      assert ops[j] == a[j] && ops[i] == a[i];
      forall k | j < k < i
        ensures LeavesRouting(ops[k])
      {
        assert ops[k] == a[k];
      }
    }
  }

  lemma DrainsFirstConcat(a: seq<Op>, b: seq<Op>)
    requires DrainsFirst(a) && DrainsFirst(b)
    ensures DrainsFirst(a + b)
  {
    hide DrainedBefore;
    forall i | 0 <= i < |a + b|
      ensures DrainedBefore(a + b, i)
    {
      if i < |a| {
        Earlier(a, b, i);
      } else {
        Later(a, b, i - |a|);
      }
    }
  }

  lemma NoneRecreated(ops: seq<Op>)
    requires forall op | op in ops :: !op.Recreate?
    ensures DrainsFirst(ops)
  {
  }

  lemma OneSecondary(sc: string)
    ensures DrainsFirst(SecondaryOps(sc))
  {
    var ops := SecondaryOps(sc);
    assert ops[1] == Drain(sc) && ops[3] == Recreate(sc);
  }

  lemma {:induction false} SecondariesDrain(names: seq<string>)
    ensures DrainsFirst(SecondaryPhase(names))
  {
    hide SecondaryOps, DrainsFirst;
    if names == [] {
      NoneRecreated([]);
    } else {
      var n := |names| - 1;
      SecondariesDrain(names[..n]);
      OneSecondary(names[n]);
      DrainsFirstConcat(SecondaryPhase(names[..n]), SecondaryOps(names[n]));
    }
  }

  function DrainAndRecreate(names: seq<string>): seq<Op> {
    [Post] + ForEach(DrainFn, names) + [Post] + ForEach(RecreateFn, names)
  }

  lemma DrainAndRecreateAt(names: seq<string>, i: nat)
    requires i < |DrainAndRecreate(names)|
    ensures var ops, n := DrainAndRecreate(names), |names|;
            && |ops| == 2 * n + 2 && LeavesRouting(ops[i])
            && (ops[i].Recreate? ==> i >= n + 2 && ops[i - n - 1] == Drain(ops[i].sc))
  {
    var n := |names|;
    var a, b := [Post] + ForEach(DrainFn, names), [Post] + ForEach(RecreateFn, names);
    assert DrainAndRecreate(names) == a + b;
    if i >= n + 2 {
      assert b[i - n - 1] == ForEach(RecreateFn, names)[i - n - 2];
      assert a[i - n - 1] == ForEach(DrainFn, names)[i - n - 2];
    } else if 0 < i <= n {
      assert a[i] == ForEach(DrainFn, names)[i - 1];
    }
  }

  /** All primaries are drained before the first one is recreated. */
  lemma DrainThenRecreate(names: seq<string>)
    ensures DrainsFirst(DrainAndRecreate(names))
  {
    hide DrainAndRecreate, LeavesRouting;
    var ops, n := DrainAndRecreate(names), |names|;
    forall i | 0 <= i < |ops|
      ensures DrainedBefore(ops, i)
    {
      DrainAndRecreateAt(names, i);
      if ops[i].Recreate? {
        var j := i - n - 1;
        forall k | j < k < i
          ensures LeavesRouting(ops[k])
        {
          DrainAndRecreateAt(names, k);
        }
      }
    }
  }

  lemma {:induction false} PrimariesDrain(k: nat, names: seq<string>)
    requires 2 <= k <= |PRIMARY_FUNCS|
    ensures DrainsFirst(PrimaryPhase(PRIMARY_FUNCS[..k], names))
  {
    hide DrainsFirst;
    var fns := PRIMARY_FUNCS[..k];
    if k == 2 {
      DrainThenRecreate(names);
      assert fns == [DrainFn, RecreateFn];
      assert fns[..1] == [DrainFn] && [DrainFn][..0] == [];
      assert PrimaryPhase([DrainFn], names) == PrimaryPhase([], names) + [Post] + ForEach(DrainFn, names);
      assert [] + [Post] + ForEach(DrainFn, names) == [Post] + ForEach(DrainFn, names);
    } else {
      PrimariesDrain(k - 1, names);
      assert fns[..k - 1] == PRIMARY_FUNCS[..k - 1];
      var each := ForEach(fns[k - 1], names);
      NoneRecreated([Post] + each);
      DrainsFirstConcat(PrimaryPhase(fns[..k - 1], names), [Post] + each);
      assert PrimaryPhase(fns[..k - 1], names) + [Post] + each == PrimaryPhase(fns[..k - 1], names) + ([Post] + each);
    }
  }

  lemma PlanDrainsFirst(st: State, upAdd: bool, upCreate: bool)
    ensures DrainsFirst(Plan(st, upAdd, upCreate))
  {
    hide DrainsFirst, SecondaryPhase, PrimaryPhase, NamesOf;
    var ps, ss, names := NamesOf(st.stss, true), NamesOf(st.stss, false), ScNames(NonTransient(st.subclusters));
    var a, b, c, d := SetupPhase(upAdd, upCreate), PrimaryPhase(PRIMARY_FUNCS, ps), SecondaryPhase(ss), CleanupPhase(names);
    NoneRecreated(a);
    assert PRIMARY_FUNCS[..|PRIMARY_FUNCS|] == PRIMARY_FUNCS;
    PrimariesDrain(|PRIMARY_FUNCS|, ps);
    SecondariesDrain(ss);
    NoneRecreated(d);
    DrainsFirstConcat(a, b);
    DrainsFirstConcat(a + b, c);
    DrainsFirstConcat(a + b + c, d);
  }

  // ---------------------------------------------------------------- what a drain does

  /** A subcluster that already has the new image is left alone. */
  lemma DrainLeavesNew(cfg: Config, st: State, sc: string)
    requires FindSts(st.stss, sc).Some? && FindSts(st.stss, sc).value.image == cfg.image
    ensures Exec(cfg, Drain(sc), st) == Some(st)
  {
  }

  /** The service of the subcluster selects the temporary target of a subcluster behind it. */
  ghost predicate Diverted(cfg: Config, st: State, sc: Subcluster) {
    ServiceOf(sc) in st.services && exists other :: DivertedFor(cfg, st, sc, other)
  }

  predicate DivertedFor(cfg: Config, st: State, sc: Subcluster, other: Subcluster)
    requires ServiceOf(sc) in st.services
  {
    && other in st.subclusters && ServiceOf(other) == ServiceOf(sc)
    && TemporaryRouting(cfg, st, other).Some?
    && st.services[ServiceOf(sc)] == BySubcluster(TemporaryRouting(cfg, st, other).value.name)
  }

  /** The subcluster runs the old image and there is somewhere to send its clients. */
  predicate ToBeDiverted(cfg: Config, st: State, sc: Subcluster) {
    && Lookup(st.subclusters, sc.name) == Some(sc)
    && FindSts(st.stss, sc.name).Some? && FindSts(st.stss, sc.name).value.image != cfg.image
    && ServiceOf(sc) in st.services && TemporaryRouting(cfg, st, sc).Some?
  }

  lemma DrainDiverts(cfg: Config, st: State, st': State, sc: Subcluster)
    requires ToBeDiverted(cfg, st, sc) && Exec(cfg, Drain(sc.name), st) == Some(st')
    ensures Diverted(cfg, st', sc)
    ensures ServiceOf(sc) in st'.services
         && st'.services[ServiceOf(sc)] == BySubcluster(TemporaryRouting(cfg, st, sc).value.name)
  {
    SameTarget(cfg, st, st', sc);
    assert DivertedFor(cfg, st', sc, sc);
  }

  lemma SameTarget(cfg: Config, st: State, st': State, sc: Subcluster)
    requires st'.subclusters == st.subclusters && st'.transientSc == st.transientSc
    requires forall n :: FindSts(st'.stss, n).Some? == FindSts(st.stss, n).Some?
    ensures TemporaryRouting(cfg, st', sc) == TemporaryRouting(cfg, st, sc)
  {
  }

  /** Names and images of the statefulsets after a recreation. */
  lemma FoundAfterRecreate(stss: seq<Sts>, sc: string, image: string, n: string)
    ensures FindSts(WithImage(stss, sc, image), n).Some? == FindSts(stss, n).Some?
    ensures FindSts(stss, n).Some? ==>
              FindSts(WithImage(stss, sc, image), n).value.image == if n == sc then image else FindSts(stss, n).value.image
  {
    var r := WithImage(stss, sc, image);
    if stss != [] {
      FoundAfterRecreate(stss[1..], sc, image, n);
      assert r[1..] == WithImage(stss[1..], sc, image);
    }
  }

  /** Between the drain and the recreation nothing changes for the subcluster, and a diverted service
      stays so. */
  lemma RoutingStep(cfg: Config, st: State, st': State, op: Op, sc: Subcluster)
    requires LeavesRouting(op) && Exec(cfg, op, st) == Some(st')
    ensures ToBeDiverted(cfg, st', sc) ==> ToBeDiverted(cfg, st, sc)
    ensures Diverted(cfg, st, sc) ==> Diverted(cfg, st', sc)
  {
    hide TemporaryRouting, Lookup, FindSts, PostMessage, WithImage, Diverted;
    SameRest(cfg, st, st', op);
    SameTarget(cfg, st, st', sc);
    if op.Recreate? {
      FoundAfterRecreate(st.stss, op.sc, cfg.image, sc.name);
    }
    if Diverted(cfg, st, sc) {
      StaysDiverted(cfg, st, st', op, sc);
    }
  }

  lemma SameRest(cfg: Config, st: State, st': State, op: Op)
    requires LeavesRouting(op) && Exec(cfg, op, st) == Some(st')
    ensures st'.subclusters == st.subclusters && st'.transientSc == st.transientSc
    ensures st'.services.Keys == st.services.Keys
    ensures !op.Drain? ==> st'.services == st.services
    ensures !op.Recreate? ==> st'.stss == st.stss
    ensures forall n :: FindSts(st'.stss, n).Some? == FindSts(st.stss, n).Some?
  {
    hide TemporaryRouting, Lookup, FindSts, PostMessage, WithImage;
    if op.Recreate? {
      forall n
        ensures FindSts(st'.stss, n).Some? == FindSts(st.stss, n).Some?
      {
        FoundAfterRecreate(st.stss, op.sc, cfg.image, n);
      }
    }
  }

  lemma StaysDiverted(cfg: Config, st: State, st': State, op: Op, sc: Subcluster)
    requires LeavesRouting(op) && Exec(cfg, op, st) == Some(st') && Diverted(cfg, st, sc)
    ensures Diverted(cfg, st', sc)
  {
    hide TemporaryRouting, Lookup, FindSts, PostMessage, WithImage;
    SameRest(cfg, st, st', op);
    var other :| DivertedFor(cfg, st, sc, other);
    SameTarget(cfg, st, st', other);
    if op.Drain? && st'.services[ServiceOf(sc)] != st.services[ServiceOf(sc)] {
      var drained := Lookup(st.subclusters, op.sc).value;
      SameTarget(cfg, st, st', drained);
      assert DivertedFor(cfg, st', sc, drained);
    } else {
      assert DivertedFor(cfg, st', sc, other);
    }
  }

  lemma {:induction false} ExecPrefix(cfg: Config, ops: seq<Op>, i: nat, j: nat, st: State)
    requires j <= i <= |ops| && ExecAll(cfg, ops[..i], st).Some?
    ensures ExecAll(cfg, ops[..j], st).Some?
  {
    if j < i {
      assert ops[..i][..i - 1] == ops[..i - 1];
      ExecPrefix(cfg, ops, i - 1, j, st);
    }
  }

  /** From right after the drain at j to just before the operation at i. */
  lemma {:induction false} StillDiverted(cfg: Config, ops: seq<Op>, j: nat, i: nat, st: State, sti: State, sc: Subcluster)
    requires j < i <= |ops| && ops[j] == Drain(sc.name) && forall k | j < k < i :: LeavesRouting(ops[k])
    requires ExecAll(cfg, ops[..i], st) == Some(sti) && ToBeDiverted(cfg, sti, sc)
    ensures Diverted(cfg, sti, sc)
    decreases i
  {
    hide Exec, ToBeDiverted, Diverted;
    assert ops[..i][..i - 1] == ops[..i - 1] && ops[..i][i - 1] == ops[i - 1];
    var mid := ExecAll(cfg, ops[..i - 1], st).value;
    RoutingStep(cfg, mid, sti, ops[i - 1], sc);
    if i - 1 == j {
      DrainDiverts(cfg, mid, sti, sc);
    } else {
      StillDiverted(cfg, ops, j, i - 1, st, mid, sc);
    }
  }

  /** The main result: whenever the next operation of a pass recreates a subcluster that still runs the
      old image, its service selects a temporary target, its own unless another subcluster shares the
      service. */
  lemma DivertedBeforeRecreated(cfg: Config, st: State, upAdd: bool, upCreate: bool, i: nat, sti: State, sc: Subcluster)
    requires i < |Plan(st, upAdd, upCreate)| && Plan(st, upAdd, upCreate)[i] == Recreate(sc.name)
    requires ExecAll(cfg, Plan(st, upAdd, upCreate)[..i], FreshPass(st)) == Some(sti)
    requires Lookup(sti.subclusters, sc.name) == Some(sc) && FindSts(sti.stss, sc.name).Some?
    requires FindSts(sti.stss, sc.name).value.image != cfg.image
    requires ServiceOf(sc) in sti.services && TemporaryRouting(cfg, sti, sc).Some?
    ensures exists other :: DivertedFor(cfg, sti, sc, other)
    ensures (forall other | other in sti.subclusters && ServiceOf(other) == ServiceOf(sc) :: other == sc) ==>
              sti.services[ServiceOf(sc)] == BySubcluster(TemporaryRouting(cfg, sti, sc).value.name)
  {
    hide Plan, ExecAll, TemporaryRouting, FindSts, Lookup;
    var plan := Plan(st, upAdd, upCreate);
    PlanDrainsFirst(st, upAdd, upCreate);
    assert DrainedBefore(plan, i);
    var j :| 0 <= j < i && plan[j] == Drain(sc.name) && forall k | j < k < i :: LeavesRouting(plan[k]);
    StillDiverted(cfg, plan, j, i, FreshPass(st), sti, sc);
    var other :| DivertedFor(cfg, sti, sc, other);
  }
}
