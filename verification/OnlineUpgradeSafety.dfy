/** What the online upgrade keeps true after every prefix of every pass, and what a completed pass
    has achieved.  The spec's image and the user's subclusters are fixed during the upgrade. */
module OnlineUpgradeSafety {
  import opened Text
  import opened Api
  import opened OnlineUpgrade

  // ---------------------------------------------------------------- invariants

  /** The user's subclusters: none transient, none with an image of its own, and none that takes
      the name of the transient template (the webhook's rules). */
  ghost predicate ValidOriginal(cfg: Config, orig: seq<Subcluster>) {
    && (forall sc | sc in orig :: !sc.isTransient && sc.imageOverride == "" && sc.name != cfg.templateName)
  }

  ghost predicate UniqueNames(stss: seq<Sts>) {
    forall s, s' | s in stss && s' in stss && s.name == s'.name :: s == s'
  }

  /** Every name is listed once. */
  ghost predicate Listed(stss: seq<Sts>) {
    forall i, j | 0 <= i < j < |stss| :: stss[i].name != stss[j].name
  }

  ghost predicate StsOk(cfg: Config, oldImage: string, orig: seq<Subcluster>, s: Sts) {
    if s.isTransient then
      RequiresTransient(cfg) && s.name == cfg.templateName && !s.isPrimary && s.image == oldImage
    else
      s.name in ScNames(orig) && (s.image == oldImage || s.image == cfg.image)
  }

  /** The spec is the user's, with at most the one transient subcluster appended: a secondary with the
      name and size of the template, no service of its own, and the old image.  Everything else runs
      the old or the new one. */
  ghost predicate Shape(cfg: Config, oldImage: string, orig: seq<Subcluster>, st: State) {
    var t := Subcluster(cfg.templateName, "", cfg.templateSize, false, true, oldImage, None, "", None, 0, "");
    && (st.subclusters == orig || (RequiresTransient(cfg) && st.subclusters == orig + [t]))
    && (st.transientSc.Some? ==> RequiresTransient(cfg) && st.transientSc.value == t)
    && (forall i | i in st.primaryImages :: i == oldImage || i == cfg.image)
    && UniqueNames(st.stss)
    && (forall s | s in st.stss :: StsOk(cfg, oldImage, orig, s))
  }

  /** No secondary statefulset has the new image unless every primary has it. */
  ghost predicate SecondariesWait(cfg: Config, st: State) {
    forall s, p | s in st.stss && p in st.stss ::
      !s.isTransient && !s.isPrimary && s.image == cfg.image && !p.isTransient && p.isPrimary ==> p.image == cfg.image
  }

  ghost predicate Given(cfg: Config, oldImage: string, orig: seq<Subcluster>) {
    oldImage != cfg.image && oldImage != "" && ValidOriginal(cfg, orig)
  }

  /** Operations name only the user's subclusters. */
  predicate OpOk(orig: seq<Subcluster>, op: Op) {
    match op
    case Drain(sc) => sc in ScNames(orig)
    case Recreate(sc) => sc in ScNames(orig)
    case BringOnline(sc) => sc in ScNames(orig)
    case ReconcileSvc(sc) => sc in ScNames(orig)
    case ReconcileSts(sc) => sc in ScNames(orig)
    case _ => true
  }

  ghost predicate OpsOk(orig: seq<Subcluster>, ops: seq<Op>) {
    forall op | op in ops :: OpOk(orig, op)
  }

  // ---------------------------------------------------------------- small facts

  lemma {:induction false} NonTransientAll(scs: seq<Subcluster>)
    requires forall sc | sc in scs :: !sc.isTransient
    ensures NonTransient(scs) == scs
  {
    if scs != [] {
      assert scs == [scs[0]] + scs[1..];
      NonTransientAll(scs[1..]);
    }
  }

  lemma {:induction false} NonTransientAppend(scs: seq<Subcluster>, t: Subcluster)
    requires forall sc | sc in scs :: !sc.isTransient
    requires t.isTransient
    ensures NonTransient(scs + [t]) == scs
  {
    if scs != [] {
      assert (scs + [t])[1..] == scs[1..] + [t];
      NonTransientAppend(scs[1..], t);
      assert scs == [scs[0]] + scs[1..];
    } else {
      assert scs + [t] == [t];
    }
  }

  lemma UserSubclusters(cfg: Config, oldImage: string, orig: seq<Subcluster>, st: State)
    requires Given(cfg, oldImage, orig) && Shape(cfg, oldImage, orig, st)
    ensures NonTransient(st.subclusters) == orig
  {
    NonTransientAll(orig);
    NonTransientAppend(orig, BuildTransient(cfg, oldImage));
  }

  lemma {:induction false} PrimaryImagesIn(stss: seq<Sts>, a: string, b: string)
    requires forall s | s in stss && s.isPrimary :: s.image == a || s.image == b
    ensures forall i | i in PrimaryImages(stss) :: i == a || i == b
  {
    if stss != [] {
      var n := |stss| - 1;
      assert forall s | s in stss[..n] :: s in stss;
      PrimaryImagesIn(stss[..n], a, b);
    }
  }

  lemma WithImageIn(stss: seq<Sts>, name: string, image: string, x: Sts)
    requires x in WithImage(stss, name, image)
    ensures exists y :: y in stss && x == if y.name == name then y.(image := image) else y
  {
  }

  lemma UserLookup(cfg: Config, oldImage: string, orig: seq<Subcluster>, st: State, name: string)
    requires Given(cfg, oldImage, orig) && Shape(cfg, oldImage, orig, st) && name in ScNames(orig)
    ensures Lookup(st.subclusters, name) == Lookup(orig, name)
    ensures Lookup(orig, name).Some? && Lookup(orig, name).value in orig && Lookup(orig, name).value.name == name
  {
  }

  // ---------------------------------------------------------------- every operation keeps the shape

  lemma ShapeOfRecreate(cfg: Config, oldImage: string, orig: seq<Subcluster>, st: State, sc: string)
    requires Given(cfg, oldImage, orig) && Shape(cfg, oldImage, orig, st) && sc in ScNames(orig)
    ensures Shape(cfg, oldImage, orig, st.(stss := WithImage(st.stss, sc, cfg.image)))
  {
    var stss' := WithImage(st.stss, sc, cfg.image);
    var i :| 0 <= i < |orig| && ScNames(orig)[i] == sc;
    assert orig[i] in orig;
    forall x | x in stss'
      ensures StsOk(cfg, oldImage, orig, x)
    {
      WithImageIn(st.stss, sc, cfg.image, x);
    }
    forall x, x' | x in stss' && x' in stss' && x.name == x'.name
      ensures x == x'
    {
      WithImageIn(st.stss, sc, cfg.image, x);
      WithImageIn(st.stss, sc, cfg.image, x');
    }
  }

  lemma ShapeOfTransient(cfg: Config, oldImage: string, orig: seq<Subcluster>, st: State, up: bool)
    requires Given(cfg, oldImage, orig) && Shape(cfg, oldImage, orig, st)
    ensures ExecAddTransient(cfg, st, up).Some? ==> Shape(cfg, oldImage, orig, ExecAddTransient(cfg, st, up).value)
    ensures ExecCreateTransientSts(cfg, st, up).Some? ==> Shape(cfg, oldImage, orig, ExecCreateTransientSts(cfg, st, up).value)
  {
    var t := BuildTransient(cfg, oldImage);
    assert t in orig + [t];
    assert FindTransient(st.subclusters).Some? ==> FindTransient(st.subclusters).value == t;
  }

  lemma ShapeOfReconcile(cfg: Config, oldImage: string, orig: seq<Subcluster>, st: State, sc: string)
    requires Given(cfg, oldImage, orig) && Shape(cfg, oldImage, orig, st) && sc in ScNames(orig)
    ensures Shape(cfg, oldImage, orig, ExecReconcileSvc(cfg, st, sc))
    ensures Shape(cfg, oldImage, orig, ExecReconcileSts(cfg, st, sc))
  {
    UserLookup(cfg, oldImage, orig, st, sc);
  }

  lemma ShapeStep(cfg: Config, oldImage: string, orig: seq<Subcluster>, op: Op, st: State, st': State)
    requires Given(cfg, oldImage, orig) && Shape(cfg, oldImage, orig, st)
    requires OpOk(orig, op) && Exec(cfg, op, st) == Some(st')
    ensures Shape(cfg, oldImage, orig, st')
  {
    match op {
      case Load =>
        PrimaryImagesIn(st.stss, oldImage, cfg.image);
      case AddTransient(up) => ShapeOfTransient(cfg, oldImage, orig, st, up);
      case CreateTransientSts(up) => ShapeOfTransient(cfg, oldImage, orig, st, up);
      case Recreate(sc) => ShapeOfRecreate(cfg, oldImage, orig, st, sc);
      case RemoveTransient => UserSubclusters(cfg, oldImage, orig, st);
      case ReconcileSvc(sc) => ShapeOfReconcile(cfg, oldImage, orig, st, sc);
      case ReconcileSts(sc) => ShapeOfReconcile(cfg, oldImage, orig, st, sc);
      case _ =>
    }
  }

  lemma {:induction false} ShapeKept(cfg: Config, oldImage: string, orig: seq<Subcluster>, ops: seq<Op>,
          st: State, st': State)
    requires Given(cfg, oldImage, orig) && Shape(cfg, oldImage, orig, st)
    requires OpsOk(orig, ops) && ExecAll(cfg, ops, st) == Some(st')
    ensures Shape(cfg, oldImage, orig, st')
  {
    hide Shape, Given, Exec;
    if ops != [] {
      var n := |ops| - 1;
      var mid := ExecAll(cfg, ops[..n], st).value;
      ShapeKept(cfg, oldImage, orig, ops[..n], st, mid);
      ShapeStep(cfg, oldImage, orig, ops[n], mid, st');
    }
  }

  // ---------------------------------------------------------------- where a statefulset's image comes from

  ghost predicate Cleaning(ops: seq<Op>) {
    exists n :: ReconcileSts(n) in ops
  }

  /** A non-transient statefulset was there when the pass began, and has the new image exactly
      when it already had it or was recreated; or the clean-up at the end created it. */
  ghost predicate Origin(cfg: Config, st0: State, ops: seq<Op>, x: Sts) {
    var y := FindSts(st0.stss, x.name);
    || x.isTransient
    || (x.image == cfg.image && Cleaning(ops))
    || (&& y.Some? && !y.value.isTransient && y.value.isPrimary == x.isPrimary
        && x.image == if Recreate(x.name) in ops then cfg.image else y.value.image)
  }

  ghost predicate Origins(cfg: Config, st0: State, ops: seq<Op>, st: State) {
    forall x | x in st.stss :: Origin(cfg, st0, ops, x)
  }

  lemma OriginMore(cfg: Config, st0: State, ops: seq<Op>, op: Op, x: Sts)
    requires Origin(cfg, st0, ops, x)
    requires op != Recreate(x.name)
    ensures Origin(cfg, st0, ops + [op], x)
  {
  }

  lemma OriginRecreated(cfg: Config, st0: State, ops: seq<Op>, x: Sts)
    requires Origin(cfg, st0, ops, x)
    ensures Origin(cfg, st0, ops + [Recreate(x.name)], x.(image := cfg.image))
  {
  }

  lemma OriginStep(cfg: Config, oldImage: string, orig: seq<Subcluster>, st0: State, ops: seq<Op>, op: Op,
          st: State, st': State)
    requires Given(cfg, oldImage, orig) && Shape(cfg, oldImage, orig, st)
    requires OpOk(orig, op) && Exec(cfg, op, st) == Some(st')
    requires Origins(cfg, st0, ops, st)
    ensures Origins(cfg, st0, ops + [op], st')
  {
    hide Origin;
    forall x | x in st'.stss
      ensures Origin(cfg, st0, ops + [op], x)
    {
      if op.Recreate? {
        WithImageIn(st.stss, op.sc, cfg.image, x);
        var y :| y in st.stss && x == if y.name == op.sc then y.(image := cfg.image) else y;
        if y.name == op.sc {
          OriginRecreated(cfg, st0, ops, y);
        } else {
          OriginMore(cfg, st0, ops, op, y);
        }
      } else if x in st.stss {
        OriginMore(cfg, st0, ops, op, x);
      } else {
        OriginNew(cfg, oldImage, orig, st0, ops, op, st, st', x);
      }
    }
  }

  lemma OriginNew(cfg: Config, oldImage: string, orig: seq<Subcluster>, st0: State, ops: seq<Op>, op: Op,
          st: State, st': State, x: Sts)
    requires Given(cfg, oldImage, orig) && Shape(cfg, oldImage, orig, st)
    requires OpOk(orig, op) && Exec(cfg, op, st) == Some(st') && !op.Recreate?
    requires x in st'.stss && x !in st.stss
    ensures Origin(cfg, st0, ops + [op], x)
  {
    match op {
      case CreateTransientSts(_) =>
      case ReconcileSts(sc) =>
        UserLookup(cfg, oldImage, orig, st, sc);
        assert op in ops + [op];
      case _ =>
    }
  }

  lemma {:induction false} OriginsKept(cfg: Config, oldImage: string, orig: seq<Subcluster>, ops: seq<Op>,
          st: State, st': State)
    requires Given(cfg, oldImage, orig) && Shape(cfg, oldImage, orig, st)
    requires OpsOk(orig, ops) && ExecAll(cfg, ops, st) == Some(st')
    ensures Origins(cfg, st, ops, st')
  {
    hide Shape, Given, Exec, Origin;
    if ops == [] {
      OriginsAtStart(cfg, oldImage, orig, st);
    } else {
      var n := |ops| - 1;
      var mid := ExecAll(cfg, ops[..n], st).value;
      ShapeKept(cfg, oldImage, orig, ops[..n], st, mid);
      OriginsKept(cfg, oldImage, orig, ops[..n], st, mid);
      OriginStep(cfg, oldImage, orig, st, ops[..n], ops[n], mid, st');
      assert ops == ops[..n] + [ops[n]];
    }
  }

  lemma OriginsAtStart(cfg: Config, oldImage: string, orig: seq<Subcluster>, st: State)
    requires Shape(cfg, oldImage, orig, st)
    ensures Origins(cfg, st, [], st)
  {
  }

  // ---------------------------------------------------------------- the order of the plan

  predicate OpFor(op: Op, names: seq<string>) {
    match op
    case Drain(sc) => sc in names
    case Recreate(sc) => sc in names
    case BringOnline(sc) => sc in names
    case Post => true
    case Other => true
    case _ => false
  }

  lemma {:induction false} PrimaryPhaseOps(fns: seq<StsFunc>, primaries: seq<string>)
    ensures forall op | op in PrimaryPhase(fns, primaries) :: OpFor(op, primaries)
  {
    if fns != [] {
      PrimaryPhaseOps(fns[..|fns| - 1], primaries);
    }
  }

  lemma {:induction false} PrimaryPhaseHas(fns: seq<StsFunc>, primaries: seq<string>, fn: StsFunc, name: string)
    requires fn in fns && name in primaries
    ensures ForSts(fn, name) in PrimaryPhase(fns, primaries)
  {
    var n := |fns| - 1;
    assert fns == fns[..n] + [fns[n]];
    if fn == fns[n] {
      var i :| 0 <= i < |primaries| && primaries[i] == name;
      assert ForEach(fn, primaries)[i] == ForSts(fn, name);
    } else {
      PrimaryPhaseHas(fns[..n], primaries, fn, name);
    }
  }

  lemma {:induction false} SecondaryPhaseOps(secondaries: seq<string>)
    ensures forall op | op in SecondaryPhase(secondaries) :: OpFor(op, secondaries)
    ensures forall s | s in secondaries :: Recreate(s) in SecondaryPhase(secondaries)
  {
    if secondaries != [] {
      var n := |secondaries| - 1;
      SecondaryPhaseOps(secondaries[..n]);
      assert secondaries == secondaries[..n] + [secondaries[n]];
      assert SecondaryOps(secondaries[n])[3] == Recreate(secondaries[n]);
    }
  }

  function Front(st: State, upAdd: bool, upCreate: bool): seq<Op> {
    SetupPhase(upAdd, upCreate) + PrimaryPhase(PRIMARY_FUNCS, NamesOf(st.stss, true))
  }

  lemma FrontOps(st: State, upAdd: bool, upCreate: bool)
    ensures forall n | Recreate(n) in Front(st, upAdd, upCreate) :: n in NamesOf(st.stss, true)
    ensures !Cleaning(Front(st, upAdd, upCreate))
    ensures forall p | p in NamesOf(st.stss, true) :: Recreate(p) in Front(st, upAdd, upCreate)
    ensures Front(st, upAdd, upCreate) <= Plan(st, upAdd, upCreate)
  {
    hide NamesOf, PrimaryPhase, SetupPhase, PRIMARY_FUNCS;
    var ps := NamesOf(st.stss, true);
    PrimaryPhaseOps(PRIMARY_FUNCS, ps);
    SetupOps(upAdd, upCreate);
    RecreatesPrimaries(ps);
  }

  lemma SetupOps(upAdd: bool, upCreate: bool)
    ensures forall op | op in SetupPhase(upAdd, upCreate) :: OpFor(op, []) || op.Start? || op.Load? || op.Precompute? || op.AddTransient? || op.CreateTransientSts?
  {
  }

  lemma RecreatesPrimaries(ps: seq<string>)
    ensures forall p | p in ps :: Recreate(p) in PrimaryPhase(PRIMARY_FUNCS, ps)
  {
    hide PrimaryPhase;
    forall p | p in ps
      ensures Recreate(p) in PrimaryPhase(PRIMARY_FUNCS, ps)
    {
      assert PRIMARY_FUNCS[1] == RecreateFn;
      PrimaryPhaseHas(PRIMARY_FUNCS, ps, RecreateFn, p);
    }
  }

  /** Whatever prefix of the plan recreates a secondary or starts the clean-up has recreated every
      primary before. */
  lemma PrimariesFirst(st: State, upAdd: bool, upCreate: bool, k: nat, p: string)
    requires k <= |Plan(st, upAdd, upCreate)| && p in NamesOf(st.stss, true)
    requires var ops := Plan(st, upAdd, upCreate)[..k];
             Cleaning(ops) || exists n :: Recreate(n) in ops && n !in NamesOf(st.stss, true)
    ensures Recreate(p) in Plan(st, upAdd, upCreate)[..k]
  {
    hide NamesOf, Plan, Front;
    var plan, front := Plan(st, upAdd, upCreate), Front(st, upAdd, upCreate);
    FrontOps(st, upAdd, upCreate);
    assert k > |front| by {
      if k <= |front| {
        InsideFront(plan, front, k);
        assert false;
      }
    }
    assert plan[..k][..|front|] == front;
  }

  lemma InsideFront(plan: seq<Op>, front: seq<Op>, k: nat)
    requires front <= plan && k <= |front|
    ensures forall op | op in plan[..k] :: op in front
  {
  }

  lemma PlanOps(cfg: Config, oldImage: string, orig: seq<Subcluster>, st: State, upAdd: bool, upCreate: bool)
    requires Given(cfg, oldImage, orig) && Shape(cfg, oldImage, orig, st)
    ensures OpsOk(orig, Plan(st, upAdd, upCreate))
    ensures forall s | s in st.stss && !s.isTransient :: Recreate(s.name) in Plan(st, upAdd, upCreate)
  {
    hide PrimaryPhase, SecondaryPhase, SetupPhase, CleanupPhase, NonTransient;
    var ps, ss := NamesOf(st.stss, true), NamesOf(st.stss, false);
    UserSubclusters(cfg, oldImage, orig, st);
    SetupOps(upAdd, upCreate);
    PrimaryPhaseOps(PRIMARY_FUNCS, ps);
    RecreatesPrimaries(ps);
    SecondaryPhaseOps(ss);
    CleanupOps(orig);
  }

  lemma CleanupOps(orig: seq<Subcluster>)
    ensures OpsOk(orig, CleanupPhase(ScNames(orig)))
  {
  }

  /** A prefix of a pass never lets a secondary overtake a primary. */
  lemma PassKeepsOrder(cfg: Config, oldImage: string, orig: seq<Subcluster>, st: State, upAdd: bool,
          upCreate: bool, k: nat, st': State)
    requires Given(cfg, oldImage, orig) && Shape(cfg, oldImage, orig, FreshPass(st))
    requires SecondariesWait(cfg, st)
    requires PassEnds(cfg, st, upAdd, upCreate, k, st') && UpgradeNeeded(cfg, st)
    ensures SecondariesWait(cfg, st')
  {
    hide Shape, Given, Exec, NamesOf, Plan, ExecAll;
    var st0 := FreshPass(st);
    var ops := Plan(st, upAdd, upCreate)[..k];
    assert Plan(st0, upAdd, upCreate) == Plan(st, upAdd, upCreate) by {
      SamePlan(st, upAdd, upCreate);
    }
    PlanOps(cfg, oldImage, orig, st0, upAdd, upCreate);
    OriginsKept(cfg, oldImage, orig, ops, st0, st');
    forall s, p | s in st'.stss && p in st'.stss && !s.isTransient && !s.isPrimary && s.image == cfg.image
                  && !p.isTransient && p.isPrimary
      ensures p.image == cfg.image
    {
      PairInOrder(cfg, oldImage, orig, st0, upAdd, upCreate, k, s, p);
    }
  }

  lemma SamePlan(st: State, upAdd: bool, upCreate: bool)
    ensures Plan(FreshPass(st), upAdd, upCreate) == Plan(st, upAdd, upCreate)
  {
  }

  lemma PairInOrder(cfg: Config, oldImage: string, orig: seq<Subcluster>, st: State, upAdd: bool,
          upCreate: bool, k: nat, s: Sts, p: Sts)
    requires Given(cfg, oldImage, orig) && Shape(cfg, oldImage, orig, st) && SecondariesWait(cfg, st)
    requires k <= |Plan(st, upAdd, upCreate)|
    requires Origin(cfg, st, Plan(st, upAdd, upCreate)[..k], s) && Origin(cfg, st, Plan(st, upAdd, upCreate)[..k], p)
    requires !s.isTransient && !s.isPrimary && s.image == cfg.image && !p.isTransient && p.isPrimary
    ensures p.image == cfg.image
  {
    hide Plan, NamesOf;
    var ops := Plan(st, upAdd, upCreate)[..k];
    var y := FindSts(st.stss, p.name);
    if !(p.image == cfg.image && Cleaning(ops)) {
      assert p.name in NamesOf(st.stss, true);
      if Cleaning(ops) || (Recreate(s.name) in ops && s.name !in NamesOf(st.stss, true)) {
        PrimariesFirst(st, upAdd, upCreate, k, p.name);
      } else if Recreate(s.name) in ops {
        var z := FindSts(st.stss, s.name);
        assert z.value in st.stss;
      }
    }
  }

  // ---------------------------------------------------------------- sequencing

  lemma {:induction false} ExecConcat(cfg: Config, a: seq<Op>, b: seq<Op>, st: State)
    ensures ExecAll(cfg, a + b, st)
         == match ExecAll(cfg, a, st) case None => None case Some(mid) => ExecAll(cfg, b, mid)
  {
    hide Exec;
    if b == [] {
      assert a + b == a;
    } else {
      var n := |b| - 1;
      ExecConcat(cfg, a, b[..n], st);
      assert (a + b)[..|a + b| - 1] == a + b[..n];
    }
  }

  /** The last operation of a list, and the state before it. */
  lemma LastStep(cfg: Config, ops: seq<Op>, st: State, st': State) returns (mid: State)
    requires ops != [] && ExecAll(cfg, ops, st) == Some(st')
    ensures ExecAll(cfg, ops[..|ops| - 1], st) == Some(mid) && Exec(cfg, ops[|ops| - 1], mid) == Some(st')
    ensures ops[|ops| - 1] in ops && forall op | op in ops[..|ops| - 1] :: op in ops
  {
    hide Exec;
    mid := ExecAll(cfg, ops[..|ops| - 1], st).value;
  }

  // ---------------------------------------------------------------- services

  /** A service is on its normal, service-name routing. */
  ghost predicate Normal(st: State, service: string) {
    service in st.services ==> st.services[service] == ByService(service)
  }

  /** The service of one of the user's subclusters. */
  ghost function ServiceNameOf(orig: seq<Subcluster>, name: string): string {
    var r := Lookup(orig, name);
    if r.Some? then ServiceOf(r.value) else ""
  }

  /** Only draining a subcluster takes a service off its normal routing, and only its own. */
  lemma NormalStep(cfg: Config, oldImage: string, orig: seq<Subcluster>, op: Op, st: State, st': State, service: string)
    requires Given(cfg, oldImage, orig) && Shape(cfg, oldImage, orig, st)
    requires OpOk(orig, op) && Exec(cfg, op, st) == Some(st')
    requires Normal(st, service)
    requires op.Drain? ==> ServiceNameOf(orig, op.sc) != service
    ensures Normal(st', service)
  {
    match op {
      case Drain(sc) => UserLookup(cfg, oldImage, orig, st, sc);
      case BringOnline(sc) => UserLookup(cfg, oldImage, orig, st, sc);
      case ReconcileSvc(sc) => UserLookup(cfg, oldImage, orig, st, sc);
      case _ =>
    }
  }

  lemma OnlineRestores(cfg: Config, oldImage: string, orig: seq<Subcluster>, sc: string, st: State, st': State)
    requires Given(cfg, oldImage, orig) && Shape(cfg, oldImage, orig, st)
    requires sc in ScNames(orig) && Exec(cfg, BringOnline(sc), st) == Some(st')
    ensures Normal(st', ServiceNameOf(orig, sc))
  {
    UserLookup(cfg, oldImage, orig, st, sc);
  }

  ghost predicate NoDrainOf(orig: seq<Subcluster>, ops: seq<Op>, service: string) {
    forall op | op in ops && op.Drain? :: ServiceNameOf(orig, op.sc) != service
  }

  lemma {:induction false} NormalKept(cfg: Config, oldImage: string, orig: seq<Subcluster>, ops: seq<Op>,
          st: State, st': State, service: string)
    requires Given(cfg, oldImage, orig) && Shape(cfg, oldImage, orig, st)
    requires OpsOk(orig, ops) && ExecAll(cfg, ops, st) == Some(st')
    requires Normal(st, service) && NoDrainOf(orig, ops, service)
    ensures Normal(st', service)
  {
    hide Shape, Given, Exec, Normal, ServiceNameOf;
    if ops != [] {
      var n := |ops| - 1;
      var mid := ExecAll(cfg, ops[..n], st).value;
      assert forall op | op in ops[..n] :: op in ops;
      ShapeKept(cfg, oldImage, orig, ops[..n], st, mid);
      NormalKept(cfg, oldImage, orig, ops[..n], st, mid, service);
      NormalStep(cfg, oldImage, orig, ops[n], mid, st', service);
    }
  }

  /** Services of these subclusters are on their normal routing. */
  ghost predicate AllNormal(orig: seq<Subcluster>, names: seq<string>, st: State) {
    forall n | n in names :: Normal(st, ServiceNameOf(orig, n))
  }

  /** Bringing subclusters online one after the other restores the services of all of them, also
      when they share one. */
  lemma {:induction false} OnlineAllRestores(cfg: Config, oldImage: string, orig: seq<Subcluster>,
          names: seq<string>, st: State, st': State)
    requires Given(cfg, oldImage, orig) && Shape(cfg, oldImage, orig, st)
    requires forall n | n in names :: n in ScNames(orig)
    requires ExecAll(cfg, ForEach(OnlineFn, names), st) == Some(st')
    ensures AllNormal(orig, names, st') && Shape(cfg, oldImage, orig, st')
  {
    hide Shape, Given, Exec, Normal, ServiceNameOf;
    if names != [] {
      var k := |names| - 1;
      assert names == names[..k] + [names[k]];
      var ops := ForEach(OnlineFn, names);
      assert ops[..k] == ForEach(OnlineFn, names[..k]);
      var mid := ExecAll(cfg, ops[..k], st).value;
      OnlineAllRestores(cfg, oldImage, orig, names[..k], st, mid);
      assert ops[k] == BringOnline(names[k]);
      OnlineRestores(cfg, oldImage, orig, names[k], mid, st');
      ShapeStep(cfg, oldImage, orig, ops[k], mid, st');
      forall n | n in names[..k]
        ensures Normal(st', ServiceNameOf(orig, n))
      {
        NormalStep(cfg, oldImage, orig, ops[k], mid, st', ServiceNameOf(orig, n));
      }
    }
  }

  /** Processing one secondary may reroute its service for a while, but gives it back. */
  lemma SecondaryRestores(cfg: Config, oldImage: string, orig: seq<Subcluster>, names: seq<string>, sc: string,
          st: State, st': State)
    requires Given(cfg, oldImage, orig) && Shape(cfg, oldImage, orig, st)
    requires sc in ScNames(orig) && ExecAll(cfg, SecondaryOps(sc), st) == Some(st')
    requires AllNormal(orig, names, st)
    ensures AllNormal(orig, names + [sc], st') && Shape(cfg, oldImage, orig, st')
  {
    hide Shape, Given, Exec, Normal, ServiceNameOf;
    var ops := SecondaryOps(sc);
    var most := ops[..7];
    assert ops[..|ops| - 1] == most;
    var mid := ExecAll(cfg, most, st).value;
    assert forall op | op in most :: op in ops;
    ShapeKept(cfg, oldImage, orig, most, st, mid);
    ShapeKept(cfg, oldImage, orig, ops, st, st');
    OnlineRestores(cfg, oldImage, orig, sc, mid, st');
    forall n | n in names
      ensures Normal(st', ServiceNameOf(orig, n))
    {
      var service := ServiceNameOf(orig, n);
      if service != ServiceNameOf(orig, sc) {
        NormalKept(cfg, oldImage, orig, ops, st, st', service);
      }
    }
  }

  lemma {:induction false} SecondariesRestore(cfg: Config, oldImage: string, orig: seq<Subcluster>,
          primaries: seq<string>, secondaries: seq<string>, st: State, st': State)
    requires Given(cfg, oldImage, orig) && Shape(cfg, oldImage, orig, st)
    requires forall n | n in secondaries :: n in ScNames(orig)
    requires ExecAll(cfg, SecondaryPhase(secondaries), st) == Some(st')
    requires AllNormal(orig, primaries, st)
    ensures AllNormal(orig, primaries + secondaries, st') && Shape(cfg, oldImage, orig, st')
  {
    hide Shape, Given, Exec, Normal, ServiceNameOf;
    if secondaries == [] {
      assert primaries + secondaries == primaries;
    } else {
      var k := |secondaries| - 1;
      var sc := secondaries[k];
      var before := SecondaryPhase(secondaries[..k]);
      ExecConcat(cfg, before, SecondaryOps(sc), st);
      var mid := ExecAll(cfg, before, st).value;
      SecondariesRestore(cfg, oldImage, orig, primaries, secondaries[..k], st, mid);
      SecondaryRestores(cfg, oldImage, orig, primaries + secondaries[..k], sc, mid, st');
      assert primaries + secondaries == primaries + secondaries[..k] + [sc];
    }
  }

  /** After restartPrimaries the services of all primaries are back to normal. */
  lemma PrimariesRestore(cfg: Config, oldImage: string, orig: seq<Subcluster>, primaries: seq<string>,
          st: State, st': State)
    requires Given(cfg, oldImage, orig) && Shape(cfg, oldImage, orig, st)
    requires forall n | n in primaries :: n in ScNames(orig)
    requires ExecAll(cfg, PrimaryPhase(PRIMARY_FUNCS, primaries), st) == Some(st')
    ensures AllNormal(orig, primaries, st') && Shape(cfg, oldImage, orig, st')
  {
    hide Shape, Given, Exec, Normal, ServiceNameOf;
    var n := |PRIMARY_FUNCS| - 1;
    var before := PrimaryPhase(PRIMARY_FUNCS[..n], primaries) + [Post];
    assert PRIMARY_FUNCS[n] == OnlineFn;
    assert PrimaryPhase(PRIMARY_FUNCS, primaries) == before + ForEach(OnlineFn, primaries);
    ExecConcat(cfg, before, ForEach(OnlineFn, primaries), st);
    var mid := ExecAll(cfg, before, st).value;
    PrimaryPhaseOps(PRIMARY_FUNCS[..n], primaries);
    ShapeKept(cfg, oldImage, orig, before, st, mid);
    OnlineAllRestores(cfg, oldImage, orig, primaries, mid, st');
  }

  // ---------------------------------------------------------------- what stays across passes

  ghost predicate HasSts(st: State, name: string) {
    exists s :: s in st.stss && s.name == name && !s.isTransient
  }

  /** Every service off its normal routing belongs to a subcluster that has a statefulset, so a
      later pass will visit it. */
  ghost predicate Owned(orig: seq<Subcluster>, st: State) {
    forall v | v in st.services ::
      Normal(st, v) || exists n :: n in ScNames(orig) && HasSts(st, n) && ServiceNameOf(orig, n) == v
  }

  lemma StsPersists(cfg: Config, oldImage: string, orig: seq<Subcluster>, op: Op, st: State, st': State, name: string)
    requires Given(cfg, oldImage, orig) && Shape(cfg, oldImage, orig, st)
    requires OpOk(orig, op) && Exec(cfg, op, st) == Some(st')
    requires HasSts(st, name)
    ensures HasSts(st', name)
  {
    var s :| s in st.stss && s.name == name && !s.isTransient;
    match op {
      case Recreate(sc) =>
        var i :| 0 <= i < |st.stss| && st.stss[i] == s;
        assert st'.stss[i] in st'.stss;
      case ReconcileSts(sc) =>
        UserLookup(cfg, oldImage, orig, st, sc);
        assert s in st'.stss;
      case DeleteGone =>
        KeptUser(cfg, oldImage, orig, st, s);
        assert s in st'.stss;
      case CreateTransientSts(_) =>
        assert s in st'.stss;
      case _ =>
        assert s in st'.stss;
    }
  }

  lemma KeptUser(cfg: Config, oldImage: string, orig: seq<Subcluster>, st: State, s: Sts)
    requires Given(cfg, oldImage, orig) && Shape(cfg, oldImage, orig, st)
    requires s in st.stss && !s.isTransient
    ensures s.name in ScNames(st.subclusters)
  {
    var i :| 0 <= i < |orig| && ScNames(orig)[i] == s.name;
    assert ScNames(st.subclusters)[i] == s.name;
  }

  lemma OwnedStep(cfg: Config, oldImage: string, orig: seq<Subcluster>, op: Op, st: State, st': State)
    requires Given(cfg, oldImage, orig) && Shape(cfg, oldImage, orig, st)
    requires OpOk(orig, op) && Exec(cfg, op, st) == Some(st')
    requires op.Drain? ==> HasSts(st, op.sc)
    requires Owned(orig, st)
    ensures Owned(orig, st')
  {
    hide Shape, Given, Exec, HasSts, ServiceNameOf;
    forall v | v in st'.services
      ensures Normal(st', v) || exists n :: n in ScNames(orig) && HasSts(st', n) && ServiceNameOf(orig, n) == v
    {
      if op.Drain? && ServiceNameOf(orig, op.sc) == v {
        StsPersists(cfg, oldImage, orig, op, st, st', op.sc);
      } else if Normal(st, v) {
        NormalStep(cfg, oldImage, orig, op, st, st', v);
      } else {
        var n :| n in ScNames(orig) && HasSts(st, n) && ServiceNameOf(orig, n) == v;
        StsPersists(cfg, oldImage, orig, op, st, st', n);
      }
    }
  }

  lemma {:induction false} OwnedKept(cfg: Config, oldImage: string, orig: seq<Subcluster>, ops: seq<Op>,
          st: State, st': State)
    requires Given(cfg, oldImage, orig) && Shape(cfg, oldImage, orig, st)
    requires OpsOk(orig, ops) && ExecAll(cfg, ops, st) == Some(st')
    requires forall op | op in ops && op.Drain? :: HasSts(st, op.sc)
    requires Owned(orig, st)
    ensures Owned(orig, st')
    ensures forall n | HasSts(st, n) :: HasSts(st', n)
  {
    hide Shape, Given, Exec, HasSts, Owned;
    if ops != [] {
      var n := |ops| - 1;
      var mid := ExecAll(cfg, ops[..n], st).value;
      assert forall op | op in ops[..n] :: op in ops;
      ShapeKept(cfg, oldImage, orig, ops[..n], st, mid);
      OwnedKept(cfg, oldImage, orig, ops[..n], st, mid);
      assert ops[n] in ops;
      OwnedStep(cfg, oldImage, orig, ops[n], mid, st');
      forall m | HasSts(st, m)
        ensures HasSts(st', m)
      {
        StsPersists(cfg, oldImage, orig, ops[n], mid, st', m);
      }
    }
  }

  lemma PlanDrains(st: State, upAdd: bool, upCreate: bool)
    ensures forall op | op in Plan(st, upAdd, upCreate) && op.Drain? :: HasSts(st, op.sc)
  {
    PrimaryPhaseOps(PRIMARY_FUNCS, NamesOf(st.stss, true));
    SecondaryPhaseOps(NamesOf(st.stss, false));
  }

  // ---------------------------------------------------------------- runs

  /** What holds whenever a pass has ended, aborted or not. */
  ghost predicate BetweenPasses(cfg: Config, oldImage: string, orig: seq<Subcluster>, st: State) {
    && Shape(cfg, oldImage, orig, FreshPass(st))
    && SecondariesWait(cfg, st)
    && Owned(orig, st)
  }

  /** Before the upgrade: the user's spec, every statefulset on the old image, all services on
      their normal routing. */
  ghost predicate BeforeUpgrade(cfg: Config, oldImage: string, orig: seq<Subcluster>, st: State) {
    && Given(cfg, oldImage, orig)
    && st.subclusters == orig && !st.inProgress && st.upgradeStatus == ""
    && Listed(st.stss)
    && (forall s | s in st.stss :: !s.isTransient && s.name in ScNames(orig) && s.image == oldImage)
    && (forall v | v in st.services :: st.services[v] == ByService(v))
  }

  lemma ShapeForgetsPass(cfg: Config, oldImage: string, orig: seq<Subcluster>, st: State)
    requires Shape(cfg, oldImage, orig, st)
    ensures Shape(cfg, oldImage, orig, FreshPass(st))
  {
  }

  lemma BeforeIsBetween(cfg: Config, oldImage: string, orig: seq<Subcluster>, st: State)
    requires BeforeUpgrade(cfg, oldImage, orig, st)
    ensures BetweenPasses(cfg, oldImage, orig, st)
  {
  }

  lemma PassKeepsBetween(cfg: Config, oldImage: string, orig: seq<Subcluster>, st: State, upAdd: bool,
          upCreate: bool, k: nat, st': State)
    requires Given(cfg, oldImage, orig) && BetweenPasses(cfg, oldImage, orig, st)
    requires PassEnds(cfg, st, upAdd, upCreate, k, st')
    ensures BetweenPasses(cfg, oldImage, orig, st')
  {
    hide Shape, Given, Exec, NamesOf, Plan, ExecAll, SecondariesWait, HasSts, UpgradeNeeded;
    if UpgradeNeeded(cfg, st) {
      var st0 := FreshPass(st);
      var plan := Plan(st, upAdd, upCreate);
      SamePlan(st, upAdd, upCreate);
      PlanOps(cfg, oldImage, orig, st0, upAdd, upCreate);
      PlanDrains(st0, upAdd, upCreate);
      assert forall op | op in plan[..k] :: op in plan;
      ShapeKept(cfg, oldImage, orig, plan[..k], st0, st');
      ShapeForgetsPass(cfg, oldImage, orig, st');
      PassKeepsOrder(cfg, oldImage, orig, st, upAdd, upCreate, k, st');
      OwnedFresh(orig, st);
      OwnedKept(cfg, oldImage, orig, plan[..k], st0, st');
    }
  }

  lemma OwnedFresh(orig: seq<Subcluster>, st: State)
    requires Owned(orig, st)
    ensures Owned(orig, FreshPass(st))
  {
  }

  /** Some pass starting in st, aborted or not, ends in st'. */
  ghost predicate Follows(cfg: Config, st: State, st': State) {
    exists upAdd, upCreate, k :: PassEnds(cfg, st, upAdd, upCreate, k, st')
  }

  ghost predicate IsRun(cfg: Config, oldImage: string, orig: seq<Subcluster>, run: seq<State>) {
    && |run| > 0
    && BeforeUpgrade(cfg, oldImage, orig, run[0])
    && forall i | 0 <= i < |run| - 1 :: Follows(cfg, run[i], run[i + 1])
  }

  /** In every state that aborted and resumed passes can reach, no secondary statefulset has the
      new image unless every primary has it, the transient still runs the old image, and the spec
      is the user's with at most the transient appended. */
  lemma {:induction false} UpgradeInvariant(cfg: Config, oldImage: string, orig: seq<Subcluster>,
          run: seq<State>, i: nat)
    requires IsRun(cfg, oldImage, orig, run) && i < |run|
    ensures BetweenPasses(cfg, oldImage, orig, run[i])
  {
    hide BetweenPasses, BeforeUpgrade, PassEnds;
    if i == 0 {
      BeforeIsBetween(cfg, oldImage, orig, run[0]);
    } else {
      UpgradeInvariant(cfg, oldImage, orig, run, i - 1);
      assert Follows(cfg, run[i - 1], run[i - 1 + 1]);
      var upAdd, upCreate, k :| PassEnds(cfg, run[i - 1], upAdd, upCreate, k, run[i]);
      GivenOf(cfg, oldImage, orig, run[0]);
      PassKeepsBetween(cfg, oldImage, orig, run[i - 1], upAdd, upCreate, k, run[i]);
    }
  }

  lemma GivenOf(cfg: Config, oldImage: string, orig: seq<Subcluster>, st: State)
    requires BeforeUpgrade(cfg, oldImage, orig, st)
    ensures Given(cfg, oldImage, orig)
  {
  }

  // ---------------------------------------------------------------- completion

  lemma {:induction false} SpecKept(cfg: Config, ops: seq<Op>, st: State, st': State)
    requires ExecAll(cfg, ops, st) == Some(st')
    requires forall op | op in ops :: !op.AddTransient? && !op.RemoveTransient?
    ensures st'.subclusters == st.subclusters
  {
    hide ExecReconcileSvc, ExecReconcileSts, RouteTraffic, PostMessage;
    if ops != [] {
      var n := |ops| - 1;
      assert ops == ops[..n] + [ops[n]];
      var mid := ExecAll(cfg, ops[..n], st).value;
      SpecKept(cfg, ops[..n], st, mid);
      SpecKeptBy(cfg, ops[n], mid, st');
    }
  }

  lemma SpecKeptBy(cfg: Config, op: Op, st: State, st': State)
    requires Exec(cfg, op, st) == Some(st') && !op.AddTransient? && !op.RemoveTransient?
    ensures st'.subclusters == st.subclusters
  {
  }

  lemma ExecTwo(cfg: Config, op1: Op, op2: Op, st: State)
    ensures ExecAll(cfg, [op1, op2], st)
         == match Exec(cfg, op1, st) case None => None case Some(mid) => Exec(cfg, op2, mid)
  {
    hide Exec;
    var ops := [op1, op2];
    assert ops[..1] == [op1] && [op1][..0] == [];
    assert ExecAll(cfg, [op1], st) == Exec(cfg, op1, st);
  }

  lemma CleanupSpec(cfg: Config, oldImage: string, orig: seq<Subcluster>, names: seq<string>, st: State, st': State)
    requires Given(cfg, oldImage, orig) && Shape(cfg, oldImage, orig, st)
    requires ExecAll(cfg, CleanupPhase(names), st) == Some(st')
    ensures st'.subclusters == orig && st'.upgradeStatus == "" && !st'.inProgress
    ensures RequiresTransient(cfg) ==> forall s | s in st'.stss :: s.name in ScNames(orig)
  {
    hide Shape, Given, Exec, ExecAll;
    var a: seq<Op> := [Post, RemoveTransient];
    var b: seq<Op> := [Other, Other, Other] + ReconcileAll(names);
    var c: seq<Op> := [DeleteGone, ClearStatus, Finish];
    assert CleanupPhase(names) == a + (b + c);
    ExecConcat(cfg, a, b + c, st);
    var m1 := ExecAll(cfg, a, st).value;
    RemovalSpec(cfg, oldImage, orig, st, m1);
    ExecConcat(cfg, b, c, m1);
    var m2 := ExecAll(cfg, b, m1).value;
    SpecKept(cfg, b, m1, m2);
    LastThree(cfg, m2, st');
  }

  lemma RemovalSpec(cfg: Config, oldImage: string, orig: seq<Subcluster>, st: State, st': State)
    requires Given(cfg, oldImage, orig) && Shape(cfg, oldImage, orig, st)
    requires ExecAll(cfg, [Post, RemoveTransient], st) == Some(st')
    ensures st'.subclusters == orig
  {
    hide Shape, Given, PostMessage, ExecAll;
    ExecTwo(cfg, Post, RemoveTransient, st);
    var mid := Exec(cfg, Post, st).value;
    ShapeStep(cfg, oldImage, orig, Post, st, mid);
    UserSubclusters(cfg, oldImage, orig, mid);
    NoneToRemove(cfg, oldImage, orig, mid);
  }

  lemma NoneToRemove(cfg: Config, oldImage: string, orig: seq<Subcluster>, st: State)
    requires Given(cfg, oldImage, orig) && Shape(cfg, oldImage, orig, st)
    ensures !RequiresTransient(cfg) || FindTransient(st.subclusters).None? ==> st.subclusters == orig
  {
  }

  lemma LastThree(cfg: Config, st: State, st': State)
    requires ExecAll(cfg, [DeleteGone, ClearStatus, Finish], st) == Some(st')
    ensures st'.subclusters == st.subclusters && st'.upgradeStatus == "" && !st'.inProgress
    ensures RequiresTransient(cfg) ==> forall s | s in st'.stss :: s.name in ScNames(st.subclusters)
  {
    ExecTwo(cfg, DeleteGone, ClearStatus, st);
    var ops: seq<Op> := [DeleteGone, ClearStatus, Finish];
    assert ops[..2] == [DeleteGone, ClearStatus];
  }

  /** A pass cut at the points where a phase ends. */
  lemma PhaseStates(cfg: Config, st: State, upAdd: bool, upCreate: bool, st': State)
    returns (m1: State, m2: State, m3: State)
    requires ExecAll(cfg, Plan(st, upAdd, upCreate), FreshPass(st)) == Some(st')
    ensures ExecAll(cfg, SetupPhase(upAdd, upCreate), FreshPass(st)) == Some(m1)
    ensures ExecAll(cfg, PrimaryPhase(PRIMARY_FUNCS, NamesOf(st.stss, true)), m1) == Some(m2)
    ensures ExecAll(cfg, SecondaryPhase(NamesOf(st.stss, false)), m2) == Some(m3)
    ensures ExecAll(cfg, CleanupPhase(ScNames(NonTransient(st.subclusters))), m3) == Some(st')
  {
    hide Exec, NamesOf, PrimaryPhase, SecondaryPhase, CleanupPhase, SetupPhase, NonTransient, ScNames;
    var a, b := SetupPhase(upAdd, upCreate), PrimaryPhase(PRIMARY_FUNCS, NamesOf(st.stss, true));
    var c, d := SecondaryPhase(NamesOf(st.stss, false)), CleanupPhase(ScNames(NonTransient(st.subclusters)));
    ExecConcat(cfg, a + b + c, d, FreshPass(st));
    ExecConcat(cfg, a + b, c, FreshPass(st));
    ExecConcat(cfg, a, b, FreshPass(st));
    m1 := ExecAll(cfg, a, FreshPass(st)).value;
    m2 := ExecAll(cfg, a + b, FreshPass(st)).value;
    m3 := ExecAll(cfg, a + b + c, FreshPass(st)).value;
  }

  /** When a pass completes, the services of all subclusters that had a statefulset are on their
      normal routing, whatever earlier passes left behind and whoever shares a service. */
  lemma CompletedPassRestores(cfg: Config, oldImage: string, orig: seq<Subcluster>, st: State, upAdd: bool,
          upCreate: bool, st': State)
    requires Given(cfg, oldImage, orig) && Shape(cfg, oldImage, orig, FreshPass(st))
    requires ExecAll(cfg, Plan(st, upAdd, upCreate), FreshPass(st)) == Some(st')
    ensures forall s | s in st.stss && !s.isTransient :: Normal(st', ServiceNameOf(orig, s.name))
    ensures st'.subclusters == orig && st'.upgradeStatus == "" && !st'.inProgress
    ensures RequiresTransient(cfg) ==> forall s | s in st'.stss :: s.name in ScNames(orig)
  {
    hide Shape, Given, Exec, ExecAll, PrimaryPhase, SecondaryPhase, CleanupPhase, SetupPhase, Plan, Normal, ServiceNameOf;
    var ps, ss := NamesOf(st.stss, true), NamesOf(st.stss, false);
    var m1, m2, m3 := PhaseStates(cfg, st, upAdd, upCreate, st');
    NamesAreUsers(cfg, oldImage, orig, st);
    SetupOk(orig, upAdd, upCreate);
    ShapeKept(cfg, oldImage, orig, SetupPhase(upAdd, upCreate), FreshPass(st), m1);
    PrimariesRestore(cfg, oldImage, orig, ps, m1, m2);
    SecondariesRestore(cfg, oldImage, orig, ps, ss, m2, m3);
    CleanupSpec(cfg, oldImage, orig, ScNames(orig), m3, st');
    forall s | s in st.stss && !s.isTransient
      ensures Normal(st', ServiceNameOf(orig, s.name))
    {
      assert s.name in ps + ss;
      CleanupOk(orig, ServiceNameOf(orig, s.name));
      NormalKept(cfg, oldImage, orig, CleanupPhase(ScNames(orig)), m3, st', ServiceNameOf(orig, s.name));
    }
  }

  lemma NamesAreUsers(cfg: Config, oldImage: string, orig: seq<Subcluster>, st: State)
    requires Given(cfg, oldImage, orig) && Shape(cfg, oldImage, orig, FreshPass(st))
    ensures forall n | n in NamesOf(st.stss, true) || n in NamesOf(st.stss, false) :: n in ScNames(orig)
    ensures NonTransient(st.subclusters) == orig
  {
    UserSubclusters(cfg, oldImage, orig, FreshPass(st));
  }

  lemma SetupOk(orig: seq<Subcluster>, upAdd: bool, upCreate: bool)
    ensures OpsOk(orig, SetupPhase(upAdd, upCreate))
  {
  }

  lemma CleanupOk(orig: seq<Subcluster>, service: string)
    ensures OpsOk(orig, CleanupPhase(ScNames(orig))) && NoDrainOf(orig, CleanupPhase(ScNames(orig)), service)
  {
    hide ServiceNameOf;
  }

  /** The upgrade is done: every statefulset, and no other, runs the new image; the spec is the
      user's; every service is on its normal routing; no upgrade is needed any more. */
  ghost predicate Upgraded(cfg: Config, orig: seq<Subcluster>, st: State) {
    && (forall s | s in st.stss :: !s.isTransient && s.image == cfg.image)
    && st.subclusters == orig
    && (forall v | v in st.services :: st.services[v] == ByService(v))
    && st.upgradeStatus == "" && !st.inProgress
    && !UpgradeNeeded(cfg, st)
  }

  /** When finishUpgrade is reached after any number of aborted passes, the upgrade is complete. */
  lemma CompletedUpgrade(cfg: Config, oldImage: string, orig: seq<Subcluster>, st: State, upAdd: bool,
          upCreate: bool, st': State)
    requires Given(cfg, oldImage, orig) && BetweenPasses(cfg, oldImage, orig, st)
    requires PassCompletes(cfg, st, upAdd, upCreate, st')
    ensures Upgraded(cfg, orig, st')
  {
    hide Shape, Given, Exec, ExecAll, Plan, ServiceNameOf, HasSts, SecondariesWait;
    var st0 := FreshPass(st);
    var plan := Plan(st, upAdd, upCreate);
    assert plan[..|plan|] == plan;
    SamePlan(st, upAdd, upCreate);
    CompletedPassRestores(cfg, oldImage, orig, st, upAdd, upCreate, st');
    PlanOps(cfg, oldImage, orig, st0, upAdd, upCreate);
    ShapeKept(cfg, oldImage, orig, plan, st0, st');
    OriginsKept(cfg, oldImage, orig, plan, st0, st');
    forall s | s in st'.stss
      ensures !s.isTransient && s.image == cfg.image
    {
      TransientGone(cfg, oldImage, orig, st', s);
    }
    forall v | v in st'.services
      ensures st'.services[v] == ByService(v)
    {
      ServiceBack(cfg, oldImage, orig, st, upAdd, upCreate, st', v);
    }
  }

  lemma TransientGone(cfg: Config, oldImage: string, orig: seq<Subcluster>, st: State, s: Sts)
    requires Given(cfg, oldImage, orig) && Shape(cfg, oldImage, orig, st) && s in st.stss
    requires RequiresTransient(cfg) ==> s.name in ScNames(orig)
    ensures !s.isTransient
  {
  }

  lemma ServiceBack(cfg: Config, oldImage: string, orig: seq<Subcluster>, st: State, upAdd: bool,
          upCreate: bool, st': State, v: string)
    requires Given(cfg, oldImage, orig) && BetweenPasses(cfg, oldImage, orig, st)
    requires ExecAll(cfg, Plan(st, upAdd, upCreate), FreshPass(st)) == Some(st')
    requires forall s | s in st.stss && !s.isTransient :: Normal(st', ServiceNameOf(orig, s.name))
    ensures Normal(st', v)
  {
    hide Shape, Given, Exec, ExecAll, Plan, ServiceNameOf, SecondariesWait;
    var plan := Plan(st, upAdd, upCreate);
    SamePlan(st, upAdd, upCreate);
    PlanOps(cfg, oldImage, orig, FreshPass(st), upAdd, upCreate);
    if n :| n in ScNames(orig) && HasSts(st, n) && ServiceNameOf(orig, n) == v {
    } else {
      PlanDrains(st, upAdd, upCreate);
      forall op | op in plan && op.Drain?
        ensures ServiceNameOf(orig, op.sc) != v
      {
        assert HasSts(st, op.sc) && OpOk(orig, op);
      }
      assert Normal(FreshPass(st), v);
      NormalKept(cfg, oldImage, orig, plan, FreshPass(st), st', v);
    }
  }

  /** Over whole runs: a pass that completes, after any sequence of aborted ones, has upgraded
      everything. */
  lemma RunCompletes(cfg: Config, oldImage: string, orig: seq<Subcluster>, run: seq<State>, i: nat,
          upAdd: bool, upCreate: bool)
    requires IsRun(cfg, oldImage, orig, run) && i + 1 < |run|
    requires PassCompletes(cfg, run[i], upAdd, upCreate, run[i + 1])
    ensures Upgraded(cfg, orig, run[i + 1])
  {
    hide Upgraded, PassCompletes, BetweenPasses, PassEnds;
    UpgradeInvariant(cfg, oldImage, orig, run, i);
    CompletedUpgrade(cfg, oldImage, orig, run[i], upAdd, upCreate, run[i + 1]);
  }

  // ---------------------------------------------------------------- where traffic goes meanwhile

  lemma {:induction false} NamedElsewhere(scs: seq<Subcluster>, names: seq<string>, offline: string,
          sofar: Option<Subcluster>)
    requires sofar.Some? ==> sofar.value.name == offline
    ensures var r := PickNamed(scs, names, offline, sofar);
            r.Some? && r.value.name != offline <==> exists n :: n in names && n != offline && Lookup(scs, n).Some?
  {
    if names != [] {
      var found := Lookup(scs, names[0]);
      if found.Some? && names[0] != offline {
        assert names[0] in names;
      } else {
        NamedElsewhere(scs, names[1..], offline, if found.Some? then found else sofar);
        assert forall n :: n in names <==> n == names[0] || n in names[1..];
      }
    }
  }

  /** By default the clients of a primary go to a secondary exactly when there is one. */
  lemma PrimaryRoutedToSecondary(cfg: Config, st: State, offline: Subcluster)
    requires st.transientSc.None? && cfg.routingNames == [] && offline.isPrimary && st.subclusters != []
    ensures var r := TemporaryRouting(cfg, st, offline);
            r.Some? && (!r.value.isPrimary <==> exists sc :: sc in st.subclusters && !sc.isPrimary)
  {
  }

  /** With a transient subcluster, clients go there as soon as its statefulset exists and nowhere
      else before. */
  lemma RoutedToTransient(cfg: Config, st: State, offline: Subcluster)
    requires st.transientSc.Some?
    ensures TemporaryRouting(cfg, st, offline)
         == if exists s :: s in st.stss && s.name == st.transientSc.value.name then st.transientSc else None
  {
  }

  /** Without one, while a subcluster is down its clients are sent to another one exactly when there is one to
      send them to: a configured one; by default any other one when a secondary goes down, and a
      secondary, or the first subcluster, when a primary does. */
  lemma RoutedElsewhere(cfg: Config, st: State, offline: Subcluster)
    requires st.transientSc.None?
    requires cfg.routingNames == [] && offline.isPrimary ==> offline in st.subclusters && DistinctNames(st.subclusters)
    ensures var r := TemporaryRouting(cfg, st, offline);
            r.Some? && r.value.name != offline.name <==>
              if cfg.routingNames != [] then
                exists n :: n in cfg.routingNames && n != offline.name && Lookup(st.subclusters, n).Some?
              else if offline.isPrimary then
                (exists sc :: sc in st.subclusters && !sc.isPrimary) || st.subclusters[0] != offline
              else
                exists sc :: sc in st.subclusters && sc.name != offline.name
  {
    hide Lookup;
    if cfg.routingNames != [] {
      NamedElsewhere(st.subclusters, cfg.routingNames, offline.name, None);
    } else if offline.isPrimary {
      PrimaryRoutedToSecondary(cfg, st, offline);
    }
  }
}
