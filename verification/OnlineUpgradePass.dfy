/** The online upgrade reconciler itself: the loops over functions, statefulsets and subclusters of
    one pass, any of which may abort.  Reconcile is proved to execute a prefix of the plan of
    OnlineUpgrade, all of it exactly when it does not abort, so that everything proved about
    prefixes of plans holds of the code. */
module OnlineUpgradePass {
  import opened Text
  import opened Api
  import opened OnlineUpgrade
  import opened OnlineUpgradeSafety
  import opened OnlineUpgradeMessages

  // ---------------------------------------------------------------- running part of a list of operations

  /** Executing ops leads to st', up to the fields of the reconciler that die with the pass. */
  ghost predicate Stops(cfg: Config, ops: seq<Op>, st: State, st': State) {
    ExecAll(cfg, ops, st).Some? && FreshPass(ExecAll(cfg, ops, st).value) == FreshPass(st')
  }

  /** ok: all of ops has been executed; otherwise a prefix of it. */
  ghost predicate Ran(cfg: Config, ops: seq<Op>, st: State, st': State, ok: bool) {
    if ok then ExecAll(cfg, ops, st) == Some(st')
    else exists k :: 0 <= k <= |ops| && Stops(cfg, ops[..k], st, st')
  }

  lemma RanNothing(cfg: Config, ops: seq<Op>, st: State, st': State)
    requires FreshPass(st) == FreshPass(st')
    ensures Ran(cfg, ops, st, st', false)
  {
    assert ops[..0] == [];
    assert Stops(cfg, ops[..0], st, st');
  }

  lemma RanAll(cfg: Config, ops: seq<Op>, st: State, st': State, ok: bool)
    requires ExecAll(cfg, ops, st) == Some(st')
    ensures Ran(cfg, ops, st, st', ok)
  {
    assert ops[..|ops|] == ops;
    assert Stops(cfg, ops[..|ops|], st, st');
  }

  lemma RanOne(cfg: Config, op: Op, st: State, st': State, ok: bool)
    requires Exec(cfg, op, st) == Some(st')
    ensures Ran(cfg, [op], st, st', ok)
  {
    hide Exec;
    RanAll(cfg, [op], st, st', ok);
  }

  lemma RanThen(cfg: Config, a: seq<Op>, b: seq<Op>, st: State, mid: State, st': State, ok: bool)
    requires Ran(cfg, a, st, mid, true) && Ran(cfg, b, mid, st', ok)
    ensures Ran(cfg, a + b, st, st', ok)
  {
    hide ExecAll;
    if ok {
      ExecConcat(cfg, a, b, st);
    } else {
      var k :| 0 <= k <= |b| && Stops(cfg, b[..k], mid, st');
      ExecConcat(cfg, a, b[..k], st);
      assert (a + b)[..|a| + k] == a + b[..k];
      assert Stops(cfg, (a + b)[..|a| + k], st, st');
    }
  }

  lemma RanStop(cfg: Config, a: seq<Op>, ops: seq<Op>, st: State, st': State)
    requires a <= ops && Ran(cfg, a, st, st', false)
    ensures Ran(cfg, ops, st, st', false)
  {
    hide ExecAll;
    var k :| 0 <= k <= |a| && Stops(cfg, a[..k], st, st');
    assert ops[..k] == a[..k];
  }

  /** One more step of `all`: either everything up to and including it is done, or the pass ends. */
  lemma Advance(cfg: Config, done: seq<Op>, ops: seq<Op>, all: seq<Op>, st: State, mid: State, st': State, ok: bool)
    requires Ran(cfg, done, st, mid, true) && Ran(cfg, ops, mid, st', ok) && done + ops <= all
    ensures Ran(cfg, if ok then done + ops else all, st, st', ok)
  {
    hide Ran;
    RanThen(cfg, done, ops, st, mid, st', ok);
    if !ok {
      RanStop(cfg, done + ops, all, st, st');
    }
  }

  lemma RanStart(cfg: Config, st: State)
    ensures Ran(cfg, [], st, st, true)
  {
  }

  // ---------------------------------------------------------------- what is listed again and again

  /** Names are listed once; a remembered transient subcluster is one. */
  ghost predicate Sound(st: State) {
    && Listed(st.stss)
    && (st.transientSc.Some? ==> st.transientSc.value.isTransient)
  }

  /** Before the clean-up, no operation changes what the next listing shows or which subclusters
      the user has. */
  lemma SteadyStep(cfg: Config, op: Op, st: State, st': State)
    requires Exec(cfg, op, st) == Some(st') && Sound(st)
    requires !op.ReconcileSts? && !op.DeleteGone? && !op.RemoveTransient?
    ensures Sound(st') && NonTransient(st'.subclusters) == NonTransient(st.subclusters)
    ensures forall b :: NamesOf(st'.stss, b) == NamesOf(st.stss, b)
  {
    hide LexLess, TemporaryRouting, PostMessage, Messages;
    match op {
      case CreateTransientSts(up) =>
        if st'.stss != st.stss {
          var s := NewSts(cfg, st.transientSc.value);
          NamesInserted(st.stss, s, true);
          NamesInserted(st.stss, s, false);
          InsertedDistinct(st.stss, s);
        }
      case Recreate(sc) =>
        NamesWithImage(st.stss, sc, cfg.image, true);
        NamesWithImage(st.stss, sc, cfg.image, false);
      case AddTransient(up) =>
        if st'.subclusters != st.subclusters {
          NonTransientPlus(st.subclusters, st'.transientSc.value);
        }
      case _ =>
    }
  }

  lemma {:induction false} NonTransientPlus(scs: seq<Subcluster>, t: Subcluster)
    ensures NonTransient(scs + [t]) == NonTransient(scs) + NonTransient([t])
  {
    if scs == [] {
      assert scs + [t] == [t];
    } else {
      assert (scs + [t])[1..] == scs[1..] + [t];
      NonTransientPlus(scs[1..], t);
    }
  }

  /** The subclusters once those from i on have been looked at. */
  ghost function DroppedFrom(scs: seq<Subcluster>, i: nat): seq<Subcluster>
    requires i <= |scs|
  {
    scs[..i] + NonTransient(scs[i..])
  }

  lemma DropAll(scs: seq<Subcluster>)
    ensures DroppedFrom(scs, |scs|) == scs && FindTransient(scs[|scs|..]).None?
    ensures DroppedFrom(scs, 0) == NonTransient(scs) && scs[0..] == scs
  {
  }

  lemma DropStep(scs: seq<Subcluster>, i: nat)
    requires i < |scs|
    ensures var s := DroppedFrom(scs, i + 1);
            && i < |s| && s[i] == scs[i]
            && DroppedFrom(scs, i) == if scs[i].isTransient then s[..i] + s[i + 1..] else s
    ensures FindTransient(scs[i..]).Some? == (scs[i].isTransient || FindTransient(scs[i + 1..]).Some?)
  {
  }

  lemma {:induction false} Steady(cfg: Config, ops: seq<Op>, st: State, st': State)
    requires ExecAll(cfg, ops, st) == Some(st') && Sound(st)
    requires forall op | op in ops :: !op.ReconcileSts? && !op.DeleteGone? && !op.RemoveTransient?
    ensures Sound(st') && NonTransient(st'.subclusters) == NonTransient(st.subclusters)
    ensures forall b :: NamesOf(st'.stss, b) == NamesOf(st.stss, b)
  {
    hide Exec, Sound, NamesOf, NonTransient;
    if ops != [] {
      var n := |ops| - 1;
      var mid := ExecAll(cfg, ops[..n], st).value;
      assert ops[n] in ops && forall op | op in ops[..n] :: op in ops;
      Steady(cfg, ops[..n], st, mid);
      SteadyStep(cfg, ops[n], mid, st');
    }
  }

  lemma {:induction false} NamesConcat(a: seq<Sts>, b: seq<Sts>, primary: bool)
    ensures NamesOf(a + b, primary) == NamesOf(a, primary) + NamesOf(b, primary)
  {
    if a == [] {
      assert a + b == b;
    } else {
      assert (a + b)[1..] == a[1..] + b;
      NamesConcat(a[1..], b, primary);
    }
  }

  lemma NamesUpTo(stss: seq<Sts>, i: nat, primary: bool)
    requires i < |stss|
    ensures NamesOf(stss[..i + 1], primary)
         == if stss[i].isPrimary == primary && !stss[i].isTransient
            then NamesOf(stss[..i], primary) + [stss[i].name] else NamesOf(stss[..i], primary)
    ensures NamesOf(stss[..i + 1], primary) <= NamesOf(stss, primary)
  {
    assert stss[..i + 1] == stss[..i] + [stss[i]];
    NamesConcat(stss[..i], [stss[i]], primary);
    assert [stss[i]][1..] == [];
    assert stss == stss[..i + 1] + stss[i + 1..];
    NamesConcat(stss[..i + 1], stss[i + 1..], primary);
  }

  lemma NoMessagesYet(stss: seq<Sts>)
    ensures SecondaryMessages(NamesOf(stss[..0], false)) == []
  {
  }

  lemma SecondaryMessagesAppend(names: seq<string>, name: string)
    ensures SecondaryMessages(names + [name]) == SecondaryMessages(names) + MessagesFor(name)
  {
  }

  lemma ForEachAppend(fn: StsFunc, names: seq<string>, name: string)
    ensures ForEach(fn, names + [name]) == ForEach(fn, names) + [ForSts(fn, name)]
  {
  }

  lemma NoneYet(cfg: Config, fn: StsFunc, items: seq<Sts>, st: State)
    ensures Ran(cfg, ForEach(fn, NamesOf(items[..0], true)), st, st, true)
  {
  }

  lemma DrainKeepsSound(cfg: Config, name: string, st: State, st': State)
    requires Ran(cfg, [Drain(name)], st, st', true) && Sound(st)
    ensures Sound(st')
  {
    Steady(cfg, [Drain(name)], st, st');
  }

  lemma PostIsSteady(cfg: Config, st: State, st': State)
    requires Ran(cfg, [Post], st, st', true) && Sound(st)
    ensures Sound(st') && forall b :: NamesOf(st'.stss, b) == NamesOf(st.stss, b)
  {
    Steady(cfg, [Post], st, st');
  }

  lemma ForEachIsSteady(cfg: Config, fn: StsFunc, names: seq<string>, st: State, st': State)
    requires Ran(cfg, ForEach(fn, names), st, st', true) && Sound(st)
    ensures Sound(st') && forall b :: NamesOf(st'.stss, b) == NamesOf(st.stss, b)
  {
    hide Sound, NamesOf, ExecAll;
    Steady(cfg, ForEach(fn, names), st, st');
  }

  lemma SecondaryIsSteady(cfg: Config, sc: string, st: State, st': State)
    requires Ran(cfg, SecondaryOps(sc), st, st', true) && Sound(st)
    ensures Sound(st')
  {
    hide Sound, NamesOf, ExecAll;
    Steady(cfg, SecondaryOps(sc), st, st');
  }

  lemma PrimaryPhaseStart(cfg: Config, names: seq<string>, st: State)
    ensures Ran(cfg, PrimaryPhase(PRIMARY_FUNCS[..0], names), st, st, true)
  {
  }

  lemma {:induction false} PrimaryPhasePrefix(fns: seq<StsFunc>, more: seq<StsFunc>, names: seq<string>)
    ensures PrimaryPhase(fns, names) <= PrimaryPhase(fns + more, names)
  {
    if more == [] {
      assert fns + more == fns;
    } else {
      assert (fns + more)[..|fns + more| - 1] == fns + more[..|more| - 1];
      PrimaryPhasePrefix(fns, more[..|more| - 1], names);
    }
  }

  lemma PrimaryPhaseNext(i: nat, names: seq<string>)
    requires i < |PRIMARY_FUNCS|
    ensures PrimaryPhase(PRIMARY_FUNCS[..i + 1], names)
         == PrimaryPhase(PRIMARY_FUNCS[..i], names) + [Post] + ForEach(PRIMARY_FUNCS[i], names)
    ensures PrimaryPhase(PRIMARY_FUNCS[..i + 1], names) <= PrimaryPhase(PRIMARY_FUNCS, names)
  {
    assert PRIMARY_FUNCS[..i + 1][..i] == PRIMARY_FUNCS[..i];
    assert PRIMARY_FUNCS == PRIMARY_FUNCS[..i + 1] + PRIMARY_FUNCS[i + 1..];
    PrimaryPhasePrefix(PRIMARY_FUNCS[..i + 1], PRIMARY_FUNCS[i + 1..], names);
  }

  lemma SecondaryPhaseStart(cfg: Config, items: seq<Sts>, st: State)
    ensures Ran(cfg, SecondaryPhase(NamesOf(items[..0], false)), st, st, true)
  {
  }

  lemma {:induction false} SecondaryPhasePrefix(names: seq<string>, more: seq<string>)
    ensures SecondaryPhase(names) <= SecondaryPhase(names + more)
  {
    if more == [] {
      assert names + more == names;
    } else {
      assert (names + more)[..|names + more| - 1] == names + more[..|more| - 1];
      SecondaryPhasePrefix(names, more[..|more| - 1]);
    }
  }

  lemma SecondaryPhaseNext(names: seq<string>, name: string, all: seq<string>)
    requires names + [name] <= all
    ensures SecondaryPhase(names + [name]) == SecondaryPhase(names) + SecondaryOps(name)
    ensures SecondaryPhase(names + [name]) <= SecondaryPhase(all)
  {
    assert (names + [name])[..|names|] == names;
    assert all == (names + [name]) + all[|names| + 1..];
    SecondaryPhasePrefix(names + [name], all[|names| + 1..]);
  }

  /** Recreating one listed statefulset leaves the later ones of the listing as they were. */
  lemma OthersUntouched(st: State, items: seq<Sts>, i: nat, stss: seq<Sts>, image: string)
    requires Sound(st) && items == st.stss && i < |items|
    requires forall j | i <= j < |items| :: items[j] in stss
    ensures forall j | i < j < |items| :: items[j] in WithImage(stss, items[i].name, image)
  {
  }

  lemma OthersPrefix(done: seq<Op>, i: nat, n: nat)
    requires i < n
    ensures done + seq(i, k => Other) + [Other] == done + seq(i + 1, k => Other) <= done + seq(n, k => Other)
  {
  }

  lemma SetupIs(upAdd: bool, upCreate: bool)
    ensures var all := SetupPhase(upAdd, upCreate);
            && |all| == 11 && [] + [Start] == all[..1] && all[..1] + [Load] == all[..2]
            && all[..2] + [Precompute] == all[..3] && all[..3] + [Post] == all[..4]
            && all[..4] + [AddTransient(upAdd)] == all[..5] && all[..5] + [CreateTransientSts(upCreate)] == all[..6]
            && all[..6] + seq(5, i => Other) == all
  {
  }

  lemma ReconcileAllStart(cfg: Config, names: seq<string>, st: State)
    ensures Ran(cfg, ReconcileAll(names[..0]), st, st, true)
  {
  }

  lemma ReconcileAllNext(names: seq<string>, i: nat)
    requires i < |names|
    ensures ReconcileAll(names[..i + 1]) == ReconcileAll(names[..i]) + [ReconcileSvc(names[i]), ReconcileSts(names[i])]
    ensures ReconcileAll(names[..i + 1]) <= ReconcileAll(names) + [DeleteGone]
  {
    hide ReconcileAll;
    var before, rest := names[..i + 1], names[i + 1..];
    CutAfter(names, i);
    ReconcileStep(names[..i], names[i]);
    ReconcilePrefix(before, rest);
  }

  lemma CutAfter(names: seq<string>, i: nat)
    requires i < |names|
    ensures names[..i + 1] == names[..i] + [names[i]] && names == names[..i + 1] + names[i + 1..]
  {
  }

  lemma ReconcileStep(names: seq<string>, name: string)
    ensures ReconcileAll(names + [name]) == ReconcileAll(names) + [ReconcileSvc(name), ReconcileSts(name)]
  {
    assert (names + [name])[..|names|] == names;
  }

  lemma {:induction false} ReconcilePrefix(names: seq<string>, more: seq<string>)
    ensures ReconcileAll(names) <= ReconcileAll(names + more)
  {
    if more == [] {
      assert names + more == names;
    } else {
      assert (names + more)[..|names + more| - 1] == names + more[..|more| - 1];
      ReconcilePrefix(names, more[..|more| - 1]);
    }
  }

  /** Without a transient template the object reconciler is not run. */
  lemma {:induction false} NoopReconcile(cfg: Config, names: seq<string>, st: State)
    requires !RequiresTransient(cfg)
    ensures ExecAll(cfg, ReconcileAll(names), st) == Some(st)
  {
    if names != [] {
      var n := |names| - 1;
      NoopReconcile(cfg, names[..n], st);
      ExecConcat(cfg, ReconcileAll(names[..n]), [ReconcileSvc(names[n]), ReconcileSts(names[n])], st);
      ExecTwo(cfg, ReconcileSvc(names[n]), ReconcileSts(names[n]), st);
    }
  }

  lemma CleanupIsNoop(cfg: Config, names: seq<string>, st: State)
    requires !RequiresTransient(cfg)
    ensures Ran(cfg, ReconcileAll(names) + [DeleteGone], st, st, true)
  {
    NoopReconcile(cfg, names, st);
    ExecConcat(cfg, ReconcileAll(names), [DeleteGone], st);
  }

  lemma CleanupIs(names: seq<string>)
    ensures var all := CleanupPhase(names);
            && |all| == 8 + 2 * |names| && all[..1] == [Post] && all[..2] == [Post, RemoveTransient]
            && all[..2] + seq(3, i => Other) == all[..5] <= all
            && all[..5] + (ReconcileAll(names) + [DeleteGone]) + [ClearStatus, Finish] == all
  {
  }

  // ---------------------------------------------------------------- whole passes

  /** Up to the fields that die with the pass, st' is where some prefix of the plan leads. */
  ghost predicate EndsPass(cfg: Config, st: State, upAdd: bool, upCreate: bool, st': State) {
    exists k, mid :: PassEnds(cfg, st, upAdd, upCreate, k, mid) && FreshPass(mid) == FreshPass(st')
  }

  lemma NoPass(cfg: Config, st: State, upAdd: bool, upCreate: bool)
    requires !UpgradeNeeded(cfg, st)
    ensures EndsPass(cfg, st, upAdd, upCreate, st)
  {
    assert PassEnds(cfg, st, upAdd, upCreate, 0, st);
  }

  lemma RanEndsPass(cfg: Config, st: State, upAdd: bool, upCreate: bool, st': State, ok: bool)
    requires UpgradeNeeded(cfg, st) && st == FreshPass(st)
    requires Ran(cfg, Plan(st, upAdd, upCreate), st, st', ok)
    ensures EndsPass(cfg, st, upAdd, upCreate, st')
    ensures ok ==> PassCompletes(cfg, st, upAdd, upCreate, st')
  {
    hide Plan, UpgradeNeeded, ExecAll;
    var plan := Plan(st, upAdd, upCreate);
    if ok {
      assert plan[..|plan|] == plan;
      assert PassEnds(cfg, st, upAdd, upCreate, |plan|, st');
    } else {
      var k :| 0 <= k <= |plan| && Stops(cfg, plan[..k], st, st');
      assert PassEnds(cfg, st, upAdd, upCreate, k, ExecAll(cfg, plan[..k], st).value);
    }
  }

  lemma PlanIs(st: State, upAdd: bool, upCreate: bool)
    ensures var a, b := SetupPhase(upAdd, upCreate), PrimaryPhase(PRIMARY_FUNCS, NamesOf(st.stss, true));
            var c, d := SecondaryPhase(NamesOf(st.stss, false)), CleanupPhase(ScNames(NonTransient(st.subclusters)));
            var all := Plan(st, upAdd, upCreate);
            all == a + b + c + d && a <= all && a + b <= all && a + b + c <= all
  {
  }

  /** What the phases leave as it was for the next. */
  ghost predicate SameFor(st: State, st': State) {
    && Sound(st') && NonTransient(st'.subclusters) == NonTransient(st.subclusters)
    && forall b :: NamesOf(st'.stss, b) == NamesOf(st.stss, b)
  }

  lemma PhasesSteady(cfg: Config, upAdd: bool, upCreate: bool, st: State, st': State)
    requires Ran(cfg, SetupPhase(upAdd, upCreate), st, st', true) && Listed(st.stss) && st.transientSc.None?
    ensures SameFor(st, st')
  {
    hide ExecAll, Listed, NamesOf, NonTransient;
    Steady(cfg, SetupPhase(upAdd, upCreate), st, st');
  }

  lemma PrimariesSteady(cfg: Config, names: seq<string>, st: State, st': State)
    requires Ran(cfg, PrimaryPhase(PRIMARY_FUNCS, names), st, st', true) && Sound(st)
    ensures SameFor(st, st')
  {
    hide ExecAll, Sound, NamesOf, NonTransient, PrimaryPhase;
    PrimaryPhaseOps(PRIMARY_FUNCS, names);
    Steady(cfg, PrimaryPhase(PRIMARY_FUNCS, names), st, st');
  }

  lemma SecondariesSteady(cfg: Config, names: seq<string>, st: State, st': State)
    requires Ran(cfg, SecondaryPhase(names), st, st', true) && Sound(st)
    ensures SameFor(st, st')
  {
    hide ExecAll, Sound, NamesOf, NonTransient, SecondaryPhase;
    SecondaryPhaseOps(names);
    Steady(cfg, SecondaryPhase(names), st, st');
  }

  // ---------------------------------------------------------------- the reconciler

  class OnlineUpgradeReconciler {
    const cfg: Config
    // the VerticaDB, its statefulsets and services
    var subclusters: seq<Subcluster>
    var stss: seq<Sts>
    var services: map<string, Selector>
    var inProgress: bool
    var upgradeStatus: string
    // state of this pass
    var transientSc: Option<Subcluster>
    var primaryImages: seq<string>
    var statusMsgs: seq<string>
    var msgIndex: int

    function View(): State
      reads this
    {
      State(subclusters, stss, services, inProgress, upgradeStatus, transientSc, primaryImages, statusMsgs, msgIndex)
    }

    constructor (cfg: Config, st: State)
      ensures View() == FreshPass(st) && this.cfg == cfg
    {
      this.cfg := cfg;
      subclusters, stss, services, inProgress, upgradeStatus :=
        st.subclusters, st.stss, st.services, st.inProgress, st.upgradeStatus;
      transientSc, primaryImages, statusMsgs, msgIndex := None, [], [], 0;
    }

    // -------------------------------------------------------------- lookups

    method IsUpgradeNeeded() returns (needed: bool)
      ensures needed == UpgradeNeeded(cfg, View())
      ensures needed <==>
                && !cfg.scheduleOnly
                && (inProgress ||
                    (cfg.onlineAllowed &&
                     exists i, j :: 0 <= i < |stss| && 0 <= j < |subclusters|
                                    && stss[i].name == subclusters[j].name && stss[i].image != cfg.image))
    {
      if cfg.scheduleOnly {
        return false;
      }
      if inProgress {
        return true;
      }
      if !cfg.onlineAllowed {
        return false;
      }
      for i := 0 to |stss|
        invariant forall j | 0 <= j < i :: stss[j].name in ScNames(subclusters) ==> stss[j].image == cfg.image
      {
        if stss[i].name in ScNames(subclusters) && stss[i].image != cfg.image {
          assert stss[i] in stss;
          return true;
        }
      }
      return false;
    }

    method FindTransientSubcluster() returns (r: Option<Subcluster>)
      ensures r == FindTransient(subclusters)
    {
      for i := 0 to |subclusters|
        invariant FindTransient(subclusters) == FindTransient(subclusters[i..])
      {
        if subclusters[i].isTransient {
          return Some(subclusters[i]);
        }
        assert subclusters[i..][1..] == subclusters[i + 1..];
      }
      return None;
    }

    /** The images of the primaries, each once. */
    method CachePrimaryImages()
      requires primaryImages == []
      modifies `primaryImages
      ensures primaryImages == PrimaryImages(stss)
    {
      for i := 0 to |stss|
        invariant primaryImages == PrimaryImages(stss[..i])
      {
        if stss[i].isPrimary {
          var image, found := stss[i].image, false;
          for j := 0 to |primaryImages|
            invariant found == (image in primaryImages[..j])
          {
            found := primaryImages[j] == image;
            if found {
              assert primaryImages[j] in primaryImages;
              break;
            }
          }
          assert found == (image in primaryImages);
          if !found {
            primaryImages := primaryImages + [image];
          }
        }
        assert stss[..i + 1][..i] == stss[..i];
      }
      assert stss[..|stss|] == stss;
    }

    method FetchOldImageName() returns (r: Option<string>)
      ensures r == FetchOldImage(primaryImages, cfg.image)
    {
      for i := 0 to |primaryImages|
        invariant FetchOldImage(primaryImages, cfg.image) == FetchOldImage(primaryImages[i..], cfg.image)
      {
        if primaryImages[i] != cfg.image {
          return Some(primaryImages[i]);
        }
        assert primaryImages[i..][1..] == primaryImages[i + 1..];
      }
      return None;
    }

    // -------------------------------------------------------------- status messages

    /** The messages in the order in which they will be posted. */
    method AppendStatusMsgs()
      modifies `statusMsgs
      ensures statusMsgs == Messages(NamesOf(stss, false))
    {
      hide MessagesFor, FIRST_MESSAGES, NamesOf, SecondaryMessages;
      statusMsgs := FIRST_MESSAGES;
      NoMessagesYet(stss);
      for i := 0 to |stss|
        invariant statusMsgs == FIRST_MESSAGES + SecondaryMessages(NamesOf(stss[..i], false))
      {
        NamesUpTo(stss, i, false);
        if !stss[i].isPrimary && !stss[i].isTransient {
          SecondaryMessagesAppend(NamesOf(stss[..i], false), stss[i].name);
          statusMsgs := statusMsgs + MessagesFor(stss[i].name);
        }
      }
      assert stss[..|stss|] == stss;
      statusMsgs := statusMsgs + [LAST_MESSAGE];
    }

    method PrecomputeStatusMsgs() returns (ok: bool)
      modifies `statusMsgs, `msgIndex
      ensures Ran(cfg, [Precompute], old(View()), View(), ok)
    {
      hide Messages, NamesOf;
      ghost var st := View();
      if * {
        RanNothing(cfg, [Precompute], st, View());
        return false;
      }
      AppendStatusMsgs();
      msgIndex := -1;
      RanOne(cfg, Precompute, st, View(), true);
      return true;
    }

    /** Moves to the next message when the status is at an earlier one. */
    method PostNextStatusMsg() returns (ok: bool)
      modifies `msgIndex, `upgradeStatus
      ensures Ran(cfg, [Post], old(View()), View(), ok)
    {
      ghost var st := View();
      msgIndex := msgIndex + 1;
      if * {
        RanNothing(cfg, [Post], st, View());
        return false;
      }
      if msgIndex >= |statusMsgs| {
        RanNothing(cfg, [Post], st, View());
        return false;
      }
      if msgIndex == 0 {
        if upgradeStatus == "" {
          upgradeStatus := statusMsgs[msgIndex];
        }
        RanOne(cfg, Post, st, View(), true);
        return true;
      }
      var j := 0;
      while j <= msgIndex - 1
        invariant 0 <= j && (msgIndex > 0 ==> j <= msgIndex && upgradeStatus !in statusMsgs[..j])
        invariant View() == st.(msgIndex := st.msgIndex + 1)
      {
        if statusMsgs[j] == upgradeStatus {
          assert statusMsgs[..msgIndex][j] == upgradeStatus;
          upgradeStatus := statusMsgs[msgIndex];
          RanOne(cfg, Post, st, View(), true);
          return true;
        }
        j := j + 1;
      }
      RanOne(cfg, Post, st, View(), true);
      return true;
    }

    // -------------------------------------------------------------- the transient subcluster

    method LoadSubclusterState() returns (ok: bool)
      requires primaryImages == []
      modifies `transientSc, `primaryImages
      ensures Ran(cfg, [Load], old(View()), View(), ok)
    {
      ghost var st := View();
      if * {
        RanNothing(cfg, [Load], st, View());
        return false;
      }
      transientSc := FindTransientSubcluster();
      CachePrimaryImages();
      RanOne(cfg, Load, st, View(), true);
      return true;
    }

    /** `up`: some node is up and writable. */
    method AddTransientToVdb(up: bool) returns (ok: bool)
      modifies `subclusters, `transientSc
      ensures Ran(cfg, [AddTransient(up)], old(View()), View(), ok)
    {
      ghost var st := View();
      if * {
        RanNothing(cfg, [AddTransient(up)], st, View());
        return false;
      }
      if transientSc.Some? || SkipTransientSetup(cfg, View(), up) {
        RanOne(cfg, AddTransient(up), st, View(), true);
        return true;
      }
      var oldImage := FetchOldImageName();
      if oldImage.None? {
        RanNothing(cfg, [AddTransient(up)], st, View());
        return false;
      }
      var other := FindTransientSubcluster();
      if other.Some? {
        transientSc := other;
      } else {
        var t := BuildTransient(cfg, oldImage.value);
        subclusters := subclusters + [t];
        transientSc := Some(t);
      }
      RanOne(cfg, AddTransient(up), st, View(), true);
      return true;
    }

    method CreateTransientSts(up: bool) returns (ok: bool)
      modifies `stss
      ensures Ran(cfg, [Op.CreateTransientSts(up)], old(View()), View(), ok)
    {
      ghost var st := View();
      ghost var op := Op.CreateTransientSts(up);
      if * {
        RanNothing(cfg, [op], st, View());
        return false;
      }
      if !SkipTransientSetup(cfg, View(), up) {
        if transientSc.None? {
          RanNothing(cfg, [op], st, View());
          return false;
        }
        if FindSts(stss, transientSc.value.name).None? {
          stss := Inserted(stss, NewSts(cfg, transientSc.value));
        }
      }
      RanOne(cfg, op, st, View(), true);
      return true;
    }

    /** Deletes the transient subclusters, from the last to the first. */
    method DropTransients() returns (removed: bool)
      modifies `subclusters
      ensures subclusters == NonTransient(old(subclusters))
      ensures removed == FindTransient(old(subclusters)).Some?
    {
      hide NonTransient, FindTransient, DroppedFrom;
      ghost var all := subclusters;
      removed := false;
      var i := |subclusters| - 1;
      DropAll(all);
      while i >= 0
        invariant -1 <= i < |all|
        invariant subclusters == DroppedFrom(all, i + 1)
        invariant removed == FindTransient(all[i + 1..]).Some?
      {
        DropStep(all, i);
        if subclusters[i].isTransient {
          subclusters := subclusters[..i] + subclusters[i + 1..];
          removed := true;
        }
        i := i - 1;
      }
    }

    method RemoveTransientFromVdb() returns (ok: bool)
      modifies `subclusters, `transientSc
      ensures Ran(cfg, [RemoveTransient], old(View()), View(), ok)
      ensures ok && RequiresTransient(cfg) ==> subclusters == NonTransient(old(subclusters))
    {
      hide NonTransient;
      ghost var st := View();
      if * {
        RanNothing(cfg, [RemoveTransient], st, View());
        return false;
      }
      if RequiresTransient(cfg) {
        var removed := DropTransients();
        if removed {
          transientSc := None;
        } else {
          NonTransientAll(st.subclusters);
        }
      }
      RanOne(cfg, RemoveTransient, st, View(), true);
      return true;
    }

    // -------------------------------------------------------------- client routing

    method GenSubclusterMap() returns (scMap: map<string, Subcluster>)
      ensures forall n :: (n in scMap) == Lookup(subclusters, n).Some?
      ensures forall n | n in scMap :: Lookup(subclusters, n) == Some(scMap[n])
    {
      scMap := map[];
      for i := 0 to |subclusters|
        invariant forall n :: (n in scMap) == Lookup(subclusters[..i], n).Some?
        invariant forall n | n in scMap :: Lookup(subclusters[..i], n) == Some(scMap[n])
      {
        assert subclusters[..i + 1][..i] == subclusters[..i];
        scMap := scMap[subclusters[i].name := subclusters[i]];
      }
      assert subclusters[..|subclusters|] == subclusters;
    }

    method PickDefaultForTemporaryRouting(offline: Subcluster) returns (r: Option<Subcluster>)
      ensures r == PickDefault(subclusters, offline)
    {
      if offline.isPrimary {
        for i := 0 to |subclusters|
          invariant FirstSecondary(subclusters) == FirstSecondary(subclusters[i..])
        {
          if !subclusters[i].isPrimary {
            return Some(subclusters[i]);
          }
          assert subclusters[i..][1..] == subclusters[i + 1..];
        }
        return if subclusters == [] then None else Some(subclusters[0]);
      }
      for i := 0 to |subclusters|
        invariant FirstOther(subclusters, offline.name) == FirstOther(subclusters[i..], offline.name)
      {
        if subclusters[i].name != offline.name {
          return Some(subclusters[i]);
        }
        assert subclusters[i..][1..] == subclusters[i + 1..];
      }
      return None;
    }

    method GetSubclusterForTemporaryRouting(offline: Subcluster, scMap: map<string,
            Subcluster>) returns (r: Option<Subcluster>)
      requires forall n :: (n in scMap) == Lookup(subclusters, n).Some?
      requires forall n | n in scMap :: Lookup(subclusters, n) == Some(scMap[n])
      ensures r == TemporaryRouting(cfg, View(), offline)
    {
      hide Lookup, PickDefault;
      if transientSc.Some? {
        return if FindSts(stss, transientSc.value.name).Some? then transientSc else None;
      }
      if cfg.routingNames == [] {
        r := PickDefaultForTemporaryRouting(offline);
        return;
      }
      r := None;
      for i := 0 to |cfg.routingNames|
        invariant PickNamed(subclusters, cfg.routingNames, offline.name, None)
               == PickNamed(subclusters, cfg.routingNames[i..], offline.name, r)
      {
        var name := cfg.routingNames[i];
        assert cfg.routingNames[i..][1..] == cfg.routingNames[i + 1..];
        if name !in scMap {
          continue;
        }
        r := Some(scMap[name]);
        if name != offline.name {
          return;
        }
      }
    }

    method RouteClientTraffic(scName: string, temporary: bool) returns (ok: bool)
      modifies `services
      ensures if ok then RouteTraffic(cfg, old(View()), scName, temporary) == Some(View()) else View() == old(View())
    {
      hide Lookup, TemporaryRouting;
      var scMap := GenSubclusterMap();
      if scName !in scMap {
        return false;
      }
      var sc := scMap[scName];
      var svcName := ServiceOf(sc);
      if svcName !in services {
        return true;
      }
      if temporary {
        var routingSc := GetSubclusterForTemporaryRouting(sc, scMap);
        if routingSc.Some? {
          services := services[svcName := BySubcluster(routingSc.value.name)];
        }
      } else {
        services := services[svcName := ByService(svcName)];
      }
      return true;
    }

    // -------------------------------------------------------------- per statefulset

    /** Reroutes the traffic of a subcluster that is still on the old image, then waits for it to
        be idle, which may end the pass. */
    method DrainSubcluster(sts: Sts) returns (ok: bool)
      requires Sound(View()) && sts in stss
      modifies `services
      ensures Ran(cfg, [Drain(sts.name)], old(View()), View(), ok)
    {
      hide RouteTraffic;
      ghost var st := View();
      if sts.image != cfg.image {
        ok := RouteClientTraffic(sts.name, true);
        if !ok {
          RanNothing(cfg, [Drain(sts.name)], st, View());
          return;
        }
        if * {
          RanOne(cfg, Drain(sts.name), st, View(), false);
          return false;
        }
      }
      RanOne(cfg, Drain(sts.name), st, View(), true);
      return true;
    }

    /** Sets the image; deleting the pods that run the old one may end the pass. */
    method RecreateSubclusterWithNewImage(sts: Sts) returns (ok: bool)
      modifies `stss
      ensures Ran(cfg, [Recreate(sts.name)], old(View()), View(), ok)
      ensures ok ==> stss == WithImage(old(stss), sts.name, cfg.image)
    {
      ghost var st := View();
      if * {
        RanNothing(cfg, [Recreate(sts.name)], st, View());
        return false;
      }
      stss := WithImage(stss, sts.name, cfg.image);
      ok := *;
      RanOne(cfg, Recreate(sts.name), st, View(), ok);
    }

    method BringSubclusterOnline(sts: Sts) returns (ok: bool)
      modifies `services
      ensures Ran(cfg, [BringOnline(sts.name)], old(View()), View(), ok)
    {
      hide RouteTraffic;
      ghost var st := View();
      if * {
        RanNothing(cfg, [BringOnline(sts.name)], st, View());
        return false;
      }
      ok := RouteClientTraffic(sts.name, false);
      if ok {
        RanOne(cfg, BringOnline(sts.name), st, View(), true);
      } else {
        RanNothing(cfg, [BringOnline(sts.name)], st, View());
      }
    }

    /** A step that touches nothing modelled here and may end the pass. */
    method OtherStep() returns (ok: bool)
      ensures Ran(cfg, [Other], View(), View(), ok)
    {
      ok := *;
      RanOne(cfg, Other, View(), View(), ok);
    }

    method Apply(fn: StsFunc, sts: Sts) returns (ok: bool)
      requires fn.DrainFn? ==> Sound(View()) && sts in stss
      modifies this
      ensures Ran(cfg, [ForSts(fn, sts.name)], old(View()), View(), ok)
      ensures fn.DrainFn? ==> stss == old(stss)
    {
      match fn
      case DrainFn => ok := DrainSubcluster(sts);
      case RecreateFn => ok := RecreateSubclusterWithNewImage(sts);
      case OnlineFn => ok := BringSubclusterOnline(sts);
      case OtherFn => ok := OtherStep();
    }

    /** One function over all primaries, in the order of the listing. */
    method IteratePrimaries(fn: StsFunc) returns (ok: bool)
      requires Sound(View())
      modifies this
      ensures Ran(cfg, ForEach(fn, NamesOf(old(stss), true)), old(View()), View(), ok)
    {
      hide Ran, NamesOf, ForEach, Sound;
      ghost var st := View();
      var items := stss;
      ghost var all := ForEach(fn, NamesOf(items, true));
      NoneYet(cfg, fn, items, st);
      for i := 0 to |items|
        invariant Ran(cfg, ForEach(fn, NamesOf(items[..i], true)), st, View(), true)
        invariant fn.DrainFn? ==> stss == items && Sound(View())
      {
        ghost var done, mid := ForEach(fn, NamesOf(items[..i], true)), View();
        NamesUpTo(items, i, true);
        if items[i].isPrimary && !items[i].isTransient {
          ForEachAppend(fn, NamesOf(items[..i], true), items[i].name);
          ok := Apply(fn, items[i]);
          Advance(cfg, done, [ForSts(fn, items[i].name)], all, st, mid, View(), ok);
          if !ok {
            return;
          }
          if fn.DrainFn? {
            DrainKeepsSound(cfg, items[i].name, mid, View());
          }
        }
      }
      assert items[..|items|] == items;
      ok := true;
    }

    /** Every function over all primaries before the next function. */
    method RestartPrimaries() returns (ok: bool)
      requires Sound(View())
      modifies this
      ensures Ran(cfg, PrimaryPhase(PRIMARY_FUNCS, NamesOf(old(stss), true)), old(View()), View(), ok)
    {
      hide Ran, NamesOf, ForEach, Sound, PrimaryPhase;
      ghost var st, names := View(), NamesOf(stss, true);
      ghost var all := PrimaryPhase(PRIMARY_FUNCS, names);
      PrimaryPhaseStart(cfg, names, st);
      for i := 0 to |PRIMARY_FUNCS|
        invariant Ran(cfg, PrimaryPhase(PRIMARY_FUNCS[..i], names), st, View(), true)
        invariant Sound(View()) && NamesOf(stss, true) == names
      {
        ghost var done, st1 := PrimaryPhase(PRIMARY_FUNCS[..i], names), View();
        PrimaryPhaseNext(i, names);
        ok := PostNextStatusMsg();
        Advance(cfg, done, [Post], all, st, st1, View(), ok);
        if !ok {
          return;
        }
        PostIsSteady(cfg, st1, View());
        ghost var st2 := View();
        ok := IteratePrimaries(PRIMARY_FUNCS[i]);
        Advance(cfg, done + [Post], ForEach(PRIMARY_FUNCS[i], names), all, st, st2, View(), ok);
        if !ok {
          return;
        }
        ForEachIsSteady(cfg, PRIMARY_FUNCS[i], names, st2, View());
      }
      assert PRIMARY_FUNCS[..|PRIMARY_FUNCS|] == PRIMARY_FUNCS;
      ok := true;
    }

    method ProcessSecondary(sts: Sts) returns (ok: bool)
      requires Sound(View()) && sts in stss
      modifies this
      ensures Ran(cfg, SecondaryOps(sts.name), old(View()), View(), ok)
      ensures ok ==> stss == WithImage(old(stss), sts.name, cfg.image)
    {
      hide Ran, Sound, WithImage;
      ghost var st := View();
      ghost var all := SecondaryOps(sts.name);
      RanStart(cfg, st);
      ok := PostNextStatusMsg();
      Advance(cfg, [], [Post], all, st, st, View(), ok);
      if !ok { return; }
      assert [] + [Post] == all[..1];
      PostIsSteady(cfg, st, View());
      ghost var mid := View();
      ok := DrainSubcluster(sts);
      Advance(cfg, all[..1], [Drain(sts.name)], all, st, mid, View(), ok);
      if !ok { return; }
      assert all[..1] + [Drain(sts.name)] == all[..2];
      mid := View();
      ok := PostNextStatusMsg();
      Advance(cfg, all[..2], [Post], all, st, mid, View(), ok);
      if !ok { return; }
      assert all[..2] + [Post] == all[..3];
      mid := View();
      ok := RecreateSubclusterWithNewImage(sts);
      Advance(cfg, all[..3], [Recreate(sts.name)], all, st, mid, View(), ok);
      if !ok { return; }
      assert all[..3] + [Recreate(sts.name)] == all[..4];
      ok := RestartSecondary(sts, st);
    }

    /** The part of processSecondary after the pods have been recreated. */
    method RestartSecondary(sts: Sts, ghost st: State) returns (ok: bool)
      requires Ran(cfg, SecondaryOps(sts.name)[..4], st, View(), true)
      modifies `msgIndex, `upgradeStatus, `services
      ensures Ran(cfg, SecondaryOps(sts.name), st, View(), ok)
    {
      hide Ran;
      ghost var all := SecondaryOps(sts.name);
      ghost var mid := View();
      ok := PostNextStatusMsg();
      Advance(cfg, all[..4], [Post], all, st, mid, View(), ok);
      if !ok { return; }
      assert all[..4] + [Post] == all[..5];
      mid := View();
      ok := OtherStep();
      Advance(cfg, all[..5], [Other], all, st, mid, View(), ok);
      if !ok { return; }
      assert all[..5] + [Other] == all[..6];
      ok := OtherStep();
      Advance(cfg, all[..6], [Other], all, st, mid, View(), ok);
      if !ok { return; }
      assert all[..6] + [Other] == all[..7];
      ok := BringSubclusterOnline(sts);
      Advance(cfg, all[..7], [BringOnline(sts.name)], all, st, mid, View(), ok);
      assert all[..7] + [BringOnline(sts.name)] == all;
    }

    /** The secondaries one after the other, in the order of the listing. */
    method RestartSecondaries() returns (ok: bool)
      requires Sound(View())
      modifies this
      ensures Ran(cfg, SecondaryPhase(NamesOf(old(stss), false)), old(View()), View(), ok)
    {
      hide Ran, NamesOf, Sound, SecondaryPhase, SecondaryOps, WithImage;
      ghost var st := View();
      var items := stss;
      ghost var all := SecondaryPhase(NamesOf(items, false));
      SecondaryPhaseStart(cfg, items, st);
      for i := 0 to |items|
        invariant Ran(cfg, SecondaryPhase(NamesOf(items[..i], false)), st, View(), true)
        invariant Sound(View())
        invariant forall j | i <= j < |items| :: items[j] in stss
      {
        ghost var done, mid := SecondaryPhase(NamesOf(items[..i], false)), View();
        NamesUpTo(items, i, false);
        if !items[i].isPrimary && !items[i].isTransient {
          SecondaryPhaseNext(NamesOf(items[..i], false), items[i].name, NamesOf(items, false));
          ok := ProcessSecondary(items[i]);
          Advance(cfg, done, SecondaryOps(items[i].name), all, st, mid, View(), ok);
          if !ok {
            return;
          }
          SecondaryIsSteady(cfg, items[i].name, mid, View());
          OthersUntouched(st, items, i, mid.stss, cfg.image);
        }
      }
      assert items[..|items|] == items;
      ok := true;
    }

    // -------------------------------------------------------------- the pass

    method StartUpgrade() returns (ok: bool)
      modifies `inProgress
      ensures Ran(cfg, [Start], old(View()), View(), ok)
    {
      ghost var st := View();
      if * {
        RanNothing(cfg, [Start], st, View());
        return false;
      }
      inProgress := true;
      RanOne(cfg, Start, st, View(), true);
      return true;
    }

    /** Steps without a modelled effect. */
    method OtherSteps(n: nat, ghost done: seq<Op>, ghost all: seq<Op>, ghost st: State) returns (ok: bool)
      requires Ran(cfg, done, st, View(), true)
      requires done + seq(n, i => Other) <= all
      ensures Ran(cfg, if ok then done + seq(n, i => Other) else all, st, View(), ok)
    {
      hide Ran;
      assert done + seq(0, i => Other) == done;
      for i := 0 to n
        invariant Ran(cfg, done + seq(i, k => Other), st, View(), true)
      {
        OthersPrefix(done, i, n);
        ok := OtherStep();
        Advance(cfg, done + seq(i, k => Other), [Other], all, st, View(), View(), ok);
        if !ok {
          return;
        }
      }
      ok := true;
    }

    /** Everything up to and including the creation of the transient's statefulset. */
    method SetUpTransient(upAdd: bool, upCreate: bool) returns (ok: bool)
      requires primaryImages == []
      modifies this
      ensures Ran(cfg, SetupPhase(upAdd, upCreate), old(View()), View(), ok)
    {
      hide Ran, SetupPhase;
      ghost var st := View();
      ghost var all := SetupPhase(upAdd, upCreate);
      SetupIs(upAdd, upCreate);
      RanStart(cfg, st);
      ok := StartUpgrade();
      Advance(cfg, [], [Start], all, st, st, View(), ok);
      if !ok { return; }
      ghost var mid := View();
      ok := LoadSubclusterState();
      Advance(cfg, all[..1], [Load], all, st, mid, View(), ok);
      if !ok { return; }
      mid := View();
      ok := PrecomputeStatusMsgs();
      Advance(cfg, all[..2], [Precompute], all, st, mid, View(), ok);
      if !ok { return; }
      ok := CreateTransient(upAdd, upCreate, st);
    }

    method CreateTransient(upAdd: bool, upCreate: bool, ghost st: State) returns (ok: bool)
      requires Ran(cfg, SetupPhase(upAdd, upCreate)[..3], st, View(), true)
      modifies this
      ensures Ran(cfg, SetupPhase(upAdd, upCreate), st, View(), ok)
    {
      hide Ran, SetupPhase;
      ghost var all := SetupPhase(upAdd, upCreate);
      SetupIs(upAdd, upCreate);
      ghost var mid := View();
      ok := PostNextStatusMsg();
      Advance(cfg, all[..3], [Post], all, st, mid, View(), ok);
      if !ok { return; }
      mid := View();
      ok := AddTransientToVdb(upAdd);
      Advance(cfg, all[..4], [AddTransient(upAdd)], all, st, mid, View(), ok);
      if !ok { return; }
      mid := View();
      ok := CreateTransientSts(upCreate);
      Advance(cfg, all[..5], [Op.CreateTransientSts(upCreate)], all, st, mid, View(), ok);
      if !ok { return; }
      ok := OtherSteps(5, all[..6], all, st);
    }

    /** One subcluster of the object reconciler: its service, and then its statefulset.  Each may
        abort. */
    method CheckForCreatedSubcluster(sc: Subcluster) returns (ok: bool)
      requires RequiresTransient(cfg) && Lookup(subclusters, sc.name) == Some(sc)
      modifies `services, `stss
      ensures Ran(cfg, [ReconcileSvc(sc.name), ReconcileSts(sc.name)], old(View()), View(), ok)
    {
      hide Ran, Lookup, FindSts;
      ghost var st := View();
      ghost var all := [ReconcileSvc(sc.name), ReconcileSts(sc.name)];
      if * {
        RanNothing(cfg, all, st, View());
        return false;
      }
      if !sc.isTransient {
        var svcName := ServiceOf(sc);
        services := services[svcName := ByService(svcName)];
      }
      ghost var mid := View();
      RanOne(cfg, ReconcileSvc(sc.name), st, mid, true);
      ok := ReconcileStatefulSet(sc);
      assert [ReconcileSvc(sc.name)] + [ReconcileSts(sc.name)] == all;
      Advance(cfg, [ReconcileSvc(sc.name)], [ReconcileSts(sc.name)], all, st, mid, View(), ok);
    }

    method ReconcileStatefulSet(sc: Subcluster) returns (ok: bool)
      requires RequiresTransient(cfg) && Lookup(subclusters, sc.name) == Some(sc)
      modifies `stss
      ensures Ran(cfg, [ReconcileSts(sc.name)], old(View()), View(), ok)
    {
      ghost var st := View();
      if * {
        RanNothing(cfg, [ReconcileSts(sc.name)], st, View());
        return false;
      }
      if FindSts(stss, sc.name).None? {
        stss := Inserted(stss, NewSts(cfg, sc));
      }
      RanOne(cfg, ReconcileSts(sc.name), st, View(), true);
      return true;
    }

    method CheckForDeletedSubcluster() returns (ok: bool)
      requires RequiresTransient(cfg)
      modifies `stss
      ensures Ran(cfg, [DeleteGone], old(View()), View(), ok)
    {
      ghost var st := View();
      if * {
        RanNothing(cfg, [DeleteGone], st, View());
        return false;
      }
      var items, kept := stss, [];
      for i := 0 to |items|
        invariant Kept(items, ScNames(subclusters)) == kept + Kept(items[i..], ScNames(subclusters))
      {
        assert items[i..][1..] == items[i + 1..];
        if items[i].name in ScNames(subclusters) {
          kept := kept + [items[i]];
        }
      }
      assert kept == Kept(items, ScNames(subclusters));
      stss := kept;
      RanOne(cfg, DeleteGone, st, View(), true);
      return true;
    }

    /** Runs the object reconciler once the transient is out of the spec. */
    method DeleteTransientSts(names: seq<string>) returns (ok: bool)
      requires RequiresTransient(cfg) ==> names == ScNames(subclusters) && Distinct(names)
      modifies `services, `stss
      ensures Ran(cfg, ReconcileAll(names) + [DeleteGone], old(View()), View(), ok)
    {
      hide Ran, ReconcileAll, Lookup;
      ghost var st := View();
      ghost var all := ReconcileAll(names) + [DeleteGone];
      if !RequiresTransient(cfg) {
        CleanupIsNoop(cfg, names, st);
        return true;
      }
      ReconcileAllStart(cfg, names, st);
      for i := 0 to |subclusters|
        invariant Ran(cfg, ReconcileAll(names[..i]), st, View(), true)
      {
        ghost var mid := View();
        ReconcileAllNext(names, i);
        ok := CheckForCreatedSubcluster(subclusters[i]);
        Advance(cfg, ReconcileAll(names[..i]), [ReconcileSvc(names[i]), ReconcileSts(names[i])], all, st, mid, View(), ok);
        if !ok {
          return;
        }
      }
      assert names[..|subclusters|] == names;
      ghost var mid := View();
      ok := CheckForDeletedSubcluster();
      Advance(cfg, ReconcileAll(names), [DeleteGone], all, st, mid, View(), ok);
    }

    method FinishUpgrade() returns (ok: bool)
      modifies `upgradeStatus, `inProgress
      ensures Ran(cfg, [ClearStatus, Finish], old(View()), View(), ok)
    {
      hide Ran;
      ghost var st := View();
      ghost var all: seq<Op> := [ClearStatus, Finish];
      if * {
        RanNothing(cfg, all, st, View());
        return false;
      }
      upgradeStatus := "";
      ghost var mid := View();
      RanOne(cfg, ClearStatus, st, mid, true);
      if * {
        RanOne(cfg, ClearStatus, st, mid, false);
        RanStop(cfg, [ClearStatus], all, st, mid);
        return false;
      }
      inProgress := false;
      RanOne(cfg, Finish, mid, View(), true);
      assert [ClearStatus] + [Finish] == all;
      Advance(cfg, [ClearStatus], [Finish], all, st, mid, View(), true);
      return true;
    }

    /** Everything after the secondaries. */
    method CleanUp(names: seq<string>) returns (ok: bool)
      requires names == ScNames(NonTransient(subclusters)) && Distinct(names)
      modifies this
      ensures Ran(cfg, CleanupPhase(names), old(View()), View(), ok)
    {
      hide Ran, CleanupPhase, NonTransient, Distinct, ReconcileAll;
      ghost var st := View();
      ghost var all := CleanupPhase(names);
      CleanupIs(names);
      RanStart(cfg, st);
      ok := PostNextStatusMsg();
      Advance(cfg, [], [Post], all, st, st, View(), ok);
      if !ok { return; }
      assert [] + [Post] == all[..1];
      ghost var mid := View();
      ok := RemoveTransientFromVdb();
      Advance(cfg, all[..1], [RemoveTransient], all, st, mid, View(), ok);
      if !ok { return; }
      assert all[..1] + [RemoveTransient] == all[..2];
      ok := OtherSteps(3, all[..2], all, st);
      if !ok { return; }
      mid := View();
      ok := DeleteTransientSts(names);
      Advance(cfg, all[..5], ReconcileAll(names) + [DeleteGone], all, st, mid, View(), ok);
      if !ok { return; }
      mid := View();
      ok := FinishUpgrade();
      Advance(cfg, all[..5] + (ReconcileAll(names) + [DeleteGone]), [ClearStatus, Finish], all, st, mid, View(), ok);
    }

    /** One pass.  It ends where a prefix of the plan ends, and at its end exactly when no step
        aborts. */
    method Reconcile(upAdd: bool, upCreate: bool) returns (ok: bool)
      requires View() == FreshPass(View()) && Listed(stss) && Distinct(ScNames(NonTransient(subclusters)))
      modifies this
      ensures EndsPass(cfg, old(View()), upAdd, upCreate, View())
      ensures ok && UpgradeNeeded(cfg, old(View())) ==> PassCompletes(cfg, old(View()), upAdd, upCreate, View())
    {
      hide Ran, Plan, SetupPhase, PrimaryPhase, SecondaryPhase, CleanupPhase, UpgradeNeeded, PassEnds, NamesOf, NonTransient, Distinct;
      ghost var st := View();
      var needed := IsUpgradeNeeded();
      if !needed {
        NoPass(cfg, st, upAdd, upCreate);
        return true;
      }
      ghost var all, ps, ss := Plan(st, upAdd, upCreate), NamesOf(stss, true), NamesOf(stss, false);
      var names := ScNames(NonTransient(subclusters));
      ghost var a, b, c := SetupPhase(upAdd, upCreate), PrimaryPhase(PRIMARY_FUNCS, ps), SecondaryPhase(ss);
      PlanIs(st, upAdd, upCreate);
      RanStart(cfg, st);
      ok := SetUpTransient(upAdd, upCreate);
      Advance(cfg, [], a, all, st, st, View(), ok);
      assert [] + a == a;
      if ok {
        PhasesSteady(cfg, upAdd, upCreate, st, View());
        ghost var mid := View();
        ok := RestartPrimaries();
        Advance(cfg, a, b, all, st, mid, View(), ok);
        if ok {
          PrimariesSteady(cfg, ps, mid, View());
          mid := View();
          ok := RestartSecondaries();
          Advance(cfg, a + b, c, all, st, mid, View(), ok);
          if ok {
            SecondariesSteady(cfg, ss, mid, View());
            mid := View();
            ok := CleanUp(names);
            Advance(cfg, a + b + c, CleanupPhase(names), all, st, mid, View(), ok);
          }
        }
      }
      RanEndsPass(cfg, st, upAdd, upCreate, View(), ok);
    }
  }
}
