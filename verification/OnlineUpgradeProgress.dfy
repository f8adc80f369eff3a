/** A pass of the online upgrade in which no step is aborted from outside does not fail by itself,
    whatever earlier passes left behind. */
module OnlineUpgradeProgress {
  import opened Text
  import opened Api
  import opened OnlineUpgrade
  import opened OnlineUpgradeSafety
  import opened OnlineUpgradeMessages

  /** The old image can be found when the transient is to be added. */
  ghost predicate Startable(cfg: Config, st: State, up: bool) {
    || !RequiresTransient(cfg) || !up || FindTransient(st.subclusters).Some?
    || exists s :: s in st.stss && s.isPrimary
  }

  // ---------------------------------------------------------------- the images of the primaries

  lemma {:induction false} ImagesOfPrimaries(stss: seq<Sts>)
    ensures PrimaryImages(stss) == [] <==> forall s | s in stss :: !s.isPrimary
    ensures Distinct(PrimaryImages(stss))
  {
    if stss != [] {
      var n := |stss| - 1;
      ImagesOfPrimaries(stss[..n]);
      assert stss == stss[..n] + [stss[n]];
    }
  }

  /** Unless only the new image is there, an old one is found. */
  lemma OldImageFound(images: seq<string>, image: string)
    requires Distinct(images) && images != []
    ensures FetchOldImage(images, image).Some? <==> images != [image]
  {
    assert |images| > 1 ==> images[0] != images[1];
  }

  // ---------------------------------------------------------------- the first steps

  function Loaded(st: State): State {
    st.(inProgress := true, transientSc := FindTransient(st.subclusters), primaryImages := PrimaryImages(st.stss),
        statusMsgs := Messages(NamesOf(st.stss, false)), msgIndex := -1)
  }

  lemma FirstThree(cfg: Config, st: State)
    ensures ExecAll(cfg, [Start, Load, Precompute], st) == Some(Loaded(st))
  {
    hide Messages, NamesOf, FindTransient, PrimaryImages;
    var ops: seq<Op> := [Start, Load, Precompute];
    ExecTwo(cfg, Start, Load, st);
    assert ops[..2] == [Start, Load];
  }

  lemma FirstFour(cfg: Config, st: State)
    ensures var m := ExecAll(cfg, [Start, Load, Precompute, Post], st);
            m.Some? && m.value == Loaded(st).(msgIndex := 0, upgradeStatus := m.value.upgradeStatus)
  {
    hide Messages, NamesOf, FindTransient, PrimaryImages, ExecAll;
    FirstThree(cfg, st);
    assert [Start, Load, Precompute] + [Post] == [Start, Load, Precompute, Post];
    ExecConcat(cfg, [Start, Load, Precompute], [Post], st);
    SingleStep(cfg, Post, Loaded(st));
  }

  lemma SingleStep(cfg: Config, op: Op, st: State)
    ensures ExecAll(cfg, [op], st) == Exec(cfg, op, st)
  {
    hide Exec;
    assert [op][..0] == [];
    assert ExecAll(cfg, [], st) == Some(st);
  }

  /** Adding the transient, and then creating its statefulset, fails exactly when the transient is
      needed, is not there yet, and no primary tells the old image. */
  lemma TransientSteps(cfg: Config, st: State, m: State, up: bool)
    requires m.subclusters == st.subclusters && m.stss == st.stss
    requires m.transientSc == FindTransient(st.subclusters) && m.primaryImages == PrimaryImages(st.stss)
    ensures ExecAll(cfg, [AddTransient(up), CreateTransientSts(up)], m).Some? <==> Startable(cfg, st, up)
    ensures ExecAll(cfg, [AddTransient(up)], m).Some? <==> Startable(cfg, st, up)
  {
    hide FindTransient, PrimaryImages, FindSts, Inserted;
    ExecTwo(cfg, AddTransient(up), CreateTransientSts(up), m);
    SingleStep(cfg, AddTransient(up), m);
    ImagesOfPrimaries(st.stss);
    if m.primaryImages != [] {
      OldImageFound(m.primaryImages, cfg.image);
    }
  }

  lemma FirstSix(cfg: Config, st: State, up: bool)
    ensures ExecAll(cfg, [Start, Load, Precompute, Post, AddTransient(up), CreateTransientSts(up)], FreshPass(st)).Some?
       <==> Startable(cfg, st, up)
  {
    hide ExecAll, Loaded, Startable;
    var a: seq<Op>, b: seq<Op> := [Start, Load, Precompute, Post], [AddTransient(up), CreateTransientSts(up)];
    assert a + b == [Start, Load, Precompute, Post, AddTransient(up), CreateTransientSts(up)];
    FirstFour(cfg, FreshPass(st));
    ExecConcat(cfg, a, b, FreshPass(st));
    LoadedIs(FreshPass(st));
    TransientSteps(cfg, st, ExecAll(cfg, a, FreshPass(st)).value, up);
  }

  lemma LoadedIs(st: State)
    ensures var m := Loaded(st);
            && m.subclusters == st.subclusters && m.stss == st.stss
            && m.transientSc == FindTransient(st.subclusters) && m.primaryImages == PrimaryImages(st.stss)
  {
  }

  lemma {:induction false} ImageListed(stss: seq<Sts>, s: Sts)
    requires s in stss && s.isPrimary
    ensures s.image in PrimaryImages(stss)
  {
    var n := |stss| - 1;
    assert stss == stss[..n] + [stss[n]];
    if s in stss[..n] {
      ImageListed(stss[..n], s);
    }
  }

  lemma TransientStands(cfg: Config, m: State, up: bool, m': State)
    requires RequiresTransient(cfg) && up && m.primaryImages != [cfg.image]
    requires ExecAll(cfg, [AddTransient(up), CreateTransientSts(up)], m) == Some(m')
    ensures m'.transientSc.Some? && FindSts(m'.stss, m'.transientSc.value.name).Some?
  {
    hide Exec, ExecAll;
    ExecTwo(cfg, AddTransient(up), CreateTransientSts(up), m);
    var mid := Exec(cfg, AddTransient(up), m).value;
    Added(cfg, m, up, mid);
    Created(cfg, mid, up, m');
  }

  lemma Added(cfg: Config, m: State, up: bool, m': State)
    requires RequiresTransient(cfg) && up && m.primaryImages != [cfg.image] && Exec(cfg, AddTransient(up), m) == Some(m')
    ensures m'.transientSc.Some? && m'.primaryImages == m.primaryImages
  {
    hide FindTransient, FetchOldImage;
  }

  lemma Created(cfg: Config, m: State, up: bool, m': State)
    requires RequiresTransient(cfg) && up && m.primaryImages != [cfg.image] && m.transientSc.Some?
    requires Exec(cfg, CreateTransientSts(up), m) == Some(m')
    ensures m'.transientSc == m.transientSc && FindSts(m'.stss, m'.transientSc.value.name).Some?
  {
    hide Inserted, FindSts;
    assert m'.stss != m.stss ==> NewSts(cfg, m.transientSc.value) in m'.stss;
  }

  /** Before the first primary is drained, the transient is in the spec and has its statefulset, and
      all traffic that is rerouted goes to it, if a template asks for one and some node is up. */
  lemma TransientReady(cfg: Config, st: State, up: bool, m: State, s: Sts, offline: Subcluster)
    requires RequiresTransient(cfg) && up && s in st.stss && s.isPrimary && s.image != cfg.image
    requires ExecAll(cfg, [Start, Load, Precompute, Post, AddTransient(up), CreateTransientSts(up)], FreshPass(st)) == Some(m)
    ensures m.transientSc.Some? && TemporaryRouting(cfg, m, offline) == m.transientSc
  {
    hide ExecAll, Loaded, FindSts;
    var a: seq<Op>, b: seq<Op> := [Start, Load, Precompute, Post], [AddTransient(up), CreateTransientSts(up)];
    assert a + b == [Start, Load, Precompute, Post, AddTransient(up), CreateTransientSts(up)];
    FirstFour(cfg, FreshPass(st));
    ExecConcat(cfg, a, b, FreshPass(st));
    LoadedIs(FreshPass(st));
    ImageListed(st.stss, s);
    var mid := ExecAll(cfg, a, FreshPass(st)).value;
    assert s.image in mid.primaryImages;
    TransientStands(cfg, mid, up, m);
  }

  // ---------------------------------------------------------------- the other steps

  /** With names from the spec, no other operation fails. */
  lemma Succeeds(cfg: Config, oldImage: string, orig: seq<Subcluster>, op: Op, st: State)
    requires Given(cfg, oldImage, orig) && Shape(cfg, oldImage, orig, st) && OpOk(orig, op)
    requires !op.Post? && !op.AddTransient? && !op.CreateTransientSts?
    ensures Exec(cfg, op, st).Some?
  {
    hide FindSts, TemporaryRouting, Messages, NamesOf;
    match op {
      case Drain(sc) => UserLookup(cfg, oldImage, orig, st, sc);
      case BringOnline(sc) => UserLookup(cfg, oldImage, orig, st, sc);
      case _ =>
    }
  }

  lemma PlanOpening(st: State, up: bool)
    ensures |Plan(st, up, up)| >= 6
    ensures Plan(st, up, up)[..6] == [Start, Load, Precompute, Post, AddTransient(up), CreateTransientSts(up)]
    ensures forall op | op in Plan(st, up, up)[6..] :: !op.AddTransient? && !op.CreateTransientSts?
  {
    hide PrimaryPhase, SecondaryPhase, NamesOf, NonTransient, ReconcileAll;
    var ps, ss := NamesOf(st.stss, true), NamesOf(st.stss, false);
    var setup, names := SetupPhase(up, up), ScNames(NonTransient(st.subclusters));
    var rest := PrimaryPhase(PRIMARY_FUNCS, ps) + SecondaryPhase(ss) + CleanupPhase(names);
    assert Plan(st, up, up) == setup + rest;
    assert (setup + rest)[6..] == setup[6..] + rest;
    PrimaryPhaseOps(PRIMARY_FUNCS, ps);
    SecondaryPhaseOps(ss);
  }

  lemma {:induction false} Proceeds(cfg: Config, oldImage: string, orig: seq<Subcluster>, st: State, up: bool, k: nat)
    requires Given(cfg, oldImage, orig) && Shape(cfg, oldImage, orig, FreshPass(st)) && Startable(cfg, st, up)
    requires 6 <= k <= |Plan(st, up, up)|
    ensures ExecAll(cfg, Plan(st, up, up)[..k], FreshPass(st)).Some?
  {
    hide Shape, Given, Exec, Plan, Startable, ExecAll;
    var plan, st0 := Plan(st, up, up), FreshPass(st);
    PlanOpening(st, up);
    if k == 6 {
      FirstSix(cfg, st, up);
    } else {
      Proceeds(cfg, oldImage, orig, st, up, k - 1);
      var mid := ExecAll(cfg, plan[..k - 1], st0).value;
      var op := plan[k - 1];
      SamePlan(st, up, up);
      PlanOps(cfg, oldImage, orig, st0, up, up);
      assert op in plan && op in plan[6..] && forall x | x in plan[..k - 1] :: x in plan;
      ShapeKept(cfg, oldImage, orig, plan[..k - 1], st0, mid);
      if op.Post? {
        PostNeverOutOfBounds(cfg, st, up, up, k - 1, mid);
      } else {
        Succeeds(cfg, oldImage, orig, op, mid);
      }
      assert plan[..k] == plan[..k - 1] + [op];
      ExecConcat(cfg, plan[..k - 1], [op], st0);
      SingleStep(cfg, op, mid);
    }
  }

  /** A pass fails by itself exactly when the transient is needed, is not in the spec yet, and no
      primary statefulset tells the old image.  It never fails because of what an aborted pass left
      behind. */
  lemma PassFailsExactly(cfg: Config, oldImage: string, orig: seq<Subcluster>, st: State, up: bool)
    requires Given(cfg, oldImage, orig) && BetweenPasses(cfg, oldImage, orig, st)
    ensures ExecAll(cfg, Plan(st, up, up), FreshPass(st)).Some? <==> Startable(cfg, st, up)
  {
    hide Shape, Given, Exec, Plan, Startable, ExecAll, SecondariesWait, Owned;
    var plan := Plan(st, up, up);
    PlanOpening(st, up);
    assert plan[..|plan|] == plan;
    if Startable(cfg, st, up) {
      Proceeds(cfg, oldImage, orig, st, up, |plan|);
    } else {
      FirstSix(cfg, st, up);
      assert plan == plan[..6] + plan[6..];
      ExecConcat(cfg, plan[..6], plan[6..], FreshPass(st));
    }
  }

  /** From every state that aborted passes can reach, a pass without aborts completes the upgrade,
      if it can start. */
  lemma ResumedPassCompletes(cfg: Config, oldImage: string, orig: seq<Subcluster>, run: seq<State>, i: nat, up: bool)
    returns (st': State)
    requires IsRun(cfg, oldImage, orig, run) && i < |run| && UpgradeNeeded(cfg, run[i]) && Startable(cfg, run[i], up)
    ensures PassCompletes(cfg, run[i], up, up, st') && Upgraded(cfg, orig, st')
  {
    hide Upgraded, BetweenPasses, Startable, Plan, ExecAll, UpgradeNeeded, BeforeUpgrade;
    UpgradeInvariant(cfg, oldImage, orig, run, i);
    GivenOf(cfg, oldImage, orig, run[0]);
    PassFailsExactly(cfg, oldImage, orig, run[i], up);
    var plan := Plan(run[i], up, up);
    assert plan[..|plan|] == plan;
    st' := ExecAll(cfg, plan, FreshPass(run[i])).value;
    CompletedUpgrade(cfg, oldImage, orig, run[i], up, up, st');
  }
}
