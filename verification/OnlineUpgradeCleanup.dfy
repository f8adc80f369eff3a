/** How an online upgrade ends and is told: an interrupted one is resumed, a completed one leaves every
    subcluster with its statefulset and service, and the message shown is about the step at hand. */
module OnlineUpgradeCleanup {
  import opened Text
  import opened Api
  import opened OnlineUpgrade
  import opened OnlineUpgradeSafety
  import opened OnlineUpgradeMessages

  // ---------------------------------------------------------------- resuming

  lemma {:induction false} StaysInProgress(cfg: Config, ops: seq<Op>, st: State, st': State)
    requires st.inProgress && ExecAll(cfg, ops, st) == Some(st') && forall op | op in ops :: !op.Finish?
    ensures st'.inProgress
  {
    hide TemporaryRouting, Lookup, PostMessage, Messages;
    if ops != [] {
      var mid := LastStep(cfg, ops, st, st');
      StaysInProgress(cfg, ops[..|ops| - 1], st, mid);
    }
  }

  lemma OnlyLastFinishes(st: State, upAdd: bool, upCreate: bool)
    ensures var plan := Plan(st, upAdd, upCreate);
            && |plan| > 11 && plan[0] == Start
            && forall op | op in plan[..|plan| - 1] :: !op.Finish?
  {
    hide PrimaryPhase, SecondaryPhase, NamesOf, NonTransient, ReconcileAll;
    var ps, ss, names := NamesOf(st.stss, true), NamesOf(st.stss, false), ScNames(NonTransient(st.subclusters));
    var plan := Plan(st, upAdd, upCreate);
    PrimaryPhaseOps(PRIMARY_FUNCS, ps);
    SecondaryPhaseOps(ss);
    var front := SetupPhase(upAdd, upCreate) + PrimaryPhase(PRIMARY_FUNCS, ps) + SecondaryPhase(ss);
    var back: seq<Op> := [Post, RemoveTransient, Other, Other, Other] + ReconcileAll(names) + [DeleteGone, ClearStatus];
    assert plan[..|plan| - 1] == front + back;
  }

  /** A pass that has begun an upgrade and was cut short leaves a state from which the next pass goes on
      with it, whatever the images are by then. */
  lemma StartedIsResumed(cfg: Config, st: State, upAdd: bool, upCreate: bool, k: nat, st': State)
    requires UpgradeNeeded(cfg, st) && PassEnds(cfg, st, upAdd, upCreate, k, st')
    requires 1 <= k < |Plan(st, upAdd, upCreate)|
    ensures st'.inProgress && UpgradeNeeded(cfg, st')
  {
    hide Plan, Exec;
    OnlyLastFinishes(st, upAdd, upCreate);
    var plan := Plan(st, upAdd, upCreate);
    assert plan[..k] == [Start] + plan[1..k];
    ExecConcat(cfg, [Start], plan[1..k], FreshPass(st));
    var mid := ExecAll(cfg, [Start], FreshPass(st)).value;
    Begun(cfg, FreshPass(st), mid);
    assert forall op | op in plan[1..k] :: op in plan[..|plan| - 1];
    StaysInProgress(cfg, plan[1..k], mid, st');
  }

  lemma Begun(cfg: Config, st: State, st': State)
    requires ExecAll(cfg, [Start], st) == Some(st')
    ensures st'.inProgress
  {
    var ops: seq<Op> := [Start];
    assert ops[..0] == [];
  }

  // ---------------------------------------------------------------- what the clean-up creates

  /** The subcluster has its statefulset and its service. */
  ghost predicate Served(orig: seq<Subcluster>, st: State, name: string) {
    HasSts(st, name) && ServiceNameOf(orig, name) in st.services
  }

  lemma ServicesGrow(cfg: Config, op: Op, st: State, st': State)
    requires Exec(cfg, op, st) == Some(st')
    ensures st.services.Keys <= st'.services.Keys
  {
    hide TemporaryRouting, Lookup, PostMessage, Messages, FindSts;
  }

  lemma ServedStep(cfg: Config, oldImage: string, orig: seq<Subcluster>, op: Op, st: State, st': State, name: string)
    requires Given(cfg, oldImage, orig) && Shape(cfg, oldImage, orig, st)
    requires OpOk(orig, op) && Exec(cfg, op, st) == Some(st') && Served(orig, st, name)
    ensures Served(orig, st', name)
  {
    hide Given, Shape, Exec, HasSts, ServiceNameOf;
    StsPersists(cfg, oldImage, orig, op, st, st', name);
    ServicesGrow(cfg, op, st, st');
  }

  lemma {:induction false} ServedKept(cfg: Config, oldImage: string, orig: seq<Subcluster>, ops: seq<Op>, st: State,
          st': State, name: string)
    requires Given(cfg, oldImage, orig) && Shape(cfg, oldImage, orig, st) && OpsOk(orig, ops)
    requires ExecAll(cfg, ops, st) == Some(st') && Served(orig, st, name)
    ensures Served(orig, st', name)
  {
    hide Given, Shape, Exec, Served, OpOk;
    if ops != [] {
      var mid := LastStep(cfg, ops, st, st');
      ServedKept(cfg, oldImage, orig, ops[..|ops| - 1], st, mid, name);
      ShapeKept(cfg, oldImage, orig, ops[..|ops| - 1], st, mid);
      ServedStep(cfg, oldImage, orig, ops[|ops| - 1], mid, st', name);
    }
  }

  /** The two operations for one subcluster. */
  lemma OneServed(cfg: Config, oldImage: string, orig: seq<Subcluster>, name: string, st: State, st': State)
    requires Given(cfg, oldImage, orig) && Shape(cfg, oldImage, orig, st) && RequiresTransient(cfg) && name in ScNames(orig)
    requires ExecAll(cfg, [ReconcileSvc(name), ReconcileSts(name)], st) == Some(st')
    ensures Served(orig, st', name)
  {
    hide Lookup, FindSts, Inserted;
    ExecTwo(cfg, ReconcileSvc(name), ReconcileSts(name), st);
    UserLookup(cfg, oldImage, orig, st, name);
    var mid := Exec(cfg, ReconcileSvc(name), st).value;
    var sc := Lookup(st.subclusters, name).value;
    assert ServiceOf(sc) in st'.services;
    var s := if FindSts(mid.stss, name).Some? then FindSts(mid.stss, name).value else NewSts(cfg, sc);
    assert s in st'.stss && s.name == name;
    NotTheTransient(cfg, oldImage, orig, mid, s, name);
  }

  lemma NotTheTransient(cfg: Config, oldImage: string, orig: seq<Subcluster>, st: State, s: Sts, name: string)
    requires Given(cfg, oldImage, orig) && Shape(cfg, oldImage, orig, st) && name in ScNames(orig) && s.name == name
    requires s in st.stss || exists sc :: sc in orig && s == NewSts(cfg, sc)
    ensures !s.isTransient
  {
    var i :| 0 <= i < |orig| && ScNames(orig)[i] == name;
    assert orig[i] in orig;
  }

  lemma {:induction false} AllServed(cfg: Config, oldImage: string, orig: seq<Subcluster>, names: seq<string>, st: State,
          st': State)
    requires Given(cfg, oldImage, orig) && Shape(cfg, oldImage, orig, st) && RequiresTransient(cfg)
    requires forall n | n in names :: n in ScNames(orig)
    requires ExecAll(cfg, ReconcileAll(names), st) == Some(st')
    ensures forall n | n in names :: Served(orig, st', n)
  {
    hide Given, Shape, Exec, Served, RequiresTransient, ScNames;
    if names != [] {
      var n := |names| - 1;
      var a, b := ReconcileAll(names[..n]), [ReconcileSvc(names[n]), ReconcileSts(names[n])];
      ExecConcat(cfg, a, b, st);
      var mid := ExecAll(cfg, a, st).value;
      AllServed(cfg, oldImage, orig, names[..n], st, mid);
      assert OpsOk(orig, a) && OpsOk(orig, b);
      ShapeKept(cfg, oldImage, orig, a, st, mid);
      OneServed(cfg, oldImage, orig, names[n], mid, st');
      forall m | m in names[..n]
        ensures Served(orig, st', m)
      {
        ServedKept(cfg, oldImage, orig, b, mid, st', m);
      }
      assert forall m | m in names :: m in names[..n] || m == names[n];
    }
  }

  /** When an upgrade with a transient template completes, every subcluster of the user has its
      statefulset and its service. */
  lemma CompletedServes(cfg: Config, oldImage: string, orig: seq<Subcluster>, st: State, upAdd: bool, upCreate: bool,
          st': State, name: string)
    requires Given(cfg, oldImage, orig) && BetweenPasses(cfg, oldImage, orig, st) && RequiresTransient(cfg)
    requires PassCompletes(cfg, st, upAdd, upCreate, st') && name in ScNames(orig)
    ensures Served(orig, st', name)
  {
    hide Given, Shape, Exec, Served, RequiresTransient, ExecAll, NonTransient, UpgradeNeeded, SecondariesWait, Owned,
      PrimaryPhase, SecondaryPhase, SetupPhase, NamesOf;
    var plan := Plan(st, upAdd, upCreate);
    assert plan[..|plan|] == plan;
    var m1, m2, m3 := PhaseStates(cfg, st, upAdd, upCreate, st');
    UserSubclusters(cfg, oldImage, orig, FreshPass(st));
    var names := ScNames(orig);
    FrontShape(cfg, oldImage, orig, st, upAdd, upCreate, m3);
    var a: seq<Op>, b, c: seq<Op> := [Post, RemoveTransient, Other, Other, Other], ReconcileAll(names), [DeleteGone, ClearStatus, Finish];
    assert CleanupPhase(names) == a + b + c;
    ExecConcat(cfg, a + b, c, m3);
    ExecConcat(cfg, a, b, m3);
    var m4, m5 := ExecAll(cfg, a, m3).value, ExecAll(cfg, a + b, m3).value;
    assert OpsOk(orig, a) && OpsOk(orig, b) && OpsOk(orig, c);
    ShapeKept(cfg, oldImage, orig, a, m3, m4);
    AllServed(cfg, oldImage, orig, names, m4, m5);
    ShapeKept(cfg, oldImage, orig, b, m4, m5);
    ServedKept(cfg, oldImage, orig, c, m5, st', name);
  }

  lemma FrontShape(cfg: Config, oldImage: string, orig: seq<Subcluster>, st: State, upAdd: bool, upCreate: bool, m: State)
    requires Given(cfg, oldImage, orig) && Shape(cfg, oldImage, orig, FreshPass(st))
    requires exists m1, m2 ::
      && ExecAll(cfg, SetupPhase(upAdd, upCreate), FreshPass(st)) == Some(m1)
      && ExecAll(cfg, PrimaryPhase(PRIMARY_FUNCS, NamesOf(st.stss, true)), m1) == Some(m2)
      && ExecAll(cfg, SecondaryPhase(NamesOf(st.stss, false)), m2) == Some(m)
    ensures Shape(cfg, oldImage, orig, m)
  {
    hide Given, Shape, Exec, ExecAll, NamesOf, PrimaryPhase, SecondaryPhase, CleanupPhase;
    var m1, m2 :|
      && ExecAll(cfg, SetupPhase(upAdd, upCreate), FreshPass(st)) == Some(m1)
      && ExecAll(cfg, PrimaryPhase(PRIMARY_FUNCS, NamesOf(st.stss, true)), m1) == Some(m2)
      && ExecAll(cfg, SecondaryPhase(NamesOf(st.stss, false)), m2) == Some(m);
    var a, b := SetupPhase(upAdd, upCreate), PrimaryPhase(PRIMARY_FUNCS, NamesOf(st.stss, true));
    var c := SecondaryPhase(NamesOf(st.stss, false));
    PlanOps(cfg, oldImage, orig, FreshPass(st), upAdd, upCreate);
    SamePlan(st, upAdd, upCreate);
    var plan := Plan(st, upAdd, upCreate);
    assert forall op | op in a || op in b || op in c :: op in plan;
    ShapeKept(cfg, oldImage, orig, a, FreshPass(st), m1);
    ShapeKept(cfg, oldImage, orig, b, m1, m2);
    ShapeKept(cfg, oldImage, orig, c, m2, m);
  }

  // ---------------------------------------------------------------- the message is about the step

  predicate HasText(op: Op) {
    || op.AddTransient? || op.CreateTransientSts? || op.Drain? || op.Recreate? || op.BringOnline?
    || op.RemoveTransient? || op.ReconcileSvc? || op.ReconcileSts? || op.DeleteGone?
  }

  /** What a user should read while the operation runs. */
  function TextFor(primaries: seq<string>, op: Op): string
    requires HasText(op)
  {
    match op
    case AddTransient(_) => "Creating transient secondary subcluster"
    case CreateTransientSts(_) => "Creating transient secondary subcluster"
    case Drain(sc) =>
      if sc in primaries then "Draining primary subclusters" else "Draining secondary subcluster '" + sc + "'"
    case Recreate(sc) =>
      if sc in primaries then "Recreating pods for primary subclusters"
      else "Recreating pods for secondary subcluster '" + sc + "'"
    case BringOnline(sc) =>
      if sc in primaries then "Restarting vertica in primary subclusters"
      else "Restarting vertica in secondary subcluster '" + sc + "'"
    case _ => "Destroying transient secondary subcluster"
  }

  /** With `c` messages posted, the last one is about the operation. */
  predicate IsTold(primaries: seq<string>, msgs: seq<string>, op: Op, c: int) {
    HasText(op) ==> 0 < c <= |msgs| && msgs[c - 1] == TextFor(primaries, op)
  }

  /** The same before each operation of a list, with `base` messages posted before the list. */
  ghost predicate Told(primaries: seq<string>, msgs: seq<string>, ops: seq<Op>, base: nat) {
    forall i | 0 <= i < |ops| :: IsTold(primaries, msgs, ops[i], base + Posts(ops[..i]))
  }

  lemma PostsBefore(a: seq<Op>, b: seq<Op>, i: nat)
    requires i < |a + b|
    ensures i < |a| ==> (a + b)[..i] == a[..i] && (a + b)[i] == a[i]
    ensures i >= |a| ==> Posts((a + b)[..i]) == Posts(a) + Posts(b[..i - |a|]) && (a + b)[i] == b[i - |a|]
  {
    hide Posts;
    if i >= |a| {
      assert (a + b)[..i] == a + b[..i - |a|];
      PostsConcat(a, b[..i - |a|]);
    }
  }

  lemma ToldConcat(ps: seq<string>, msgs: seq<string>, a: seq<Op>, b: seq<Op>, base: nat)
    requires Told(ps, msgs, a, base) && Told(ps, msgs, b, base + Posts(a))
    ensures Told(ps, msgs, a + b, base)
  {
    hide IsTold, Posts, Told;
    forall i | 0 <= i < |a + b|
      ensures IsTold(ps, msgs, (a + b)[i], base + Posts((a + b)[..i]))
    {
      PostsBefore(a, b, i);
      if i < |a| {
        ToldGives(ps, msgs, a, base, i);
      } else {
        ToldGives(ps, msgs, b, base + Posts(a), i - |a|);
      }
    }
    IsToldAll(ps, msgs, a + b, base);
  }

  lemma ToldGives(ps: seq<string>, msgs: seq<string>, ops: seq<Op>, base: nat, i: nat)
    requires Told(ps, msgs, ops, base) && i < |ops|
    ensures IsTold(ps, msgs, ops[i], base + Posts(ops[..i]))
  {
    hide IsTold, Posts;
  }

  lemma IsToldAll(ps: seq<string>, msgs: seq<string>, ops: seq<Op>, base: nat)
    requires forall i | 0 <= i < |ops| :: IsTold(ps, msgs, ops[i], base + Posts(ops[..i]))
    ensures Told(ps, msgs, ops, base)
  {
    hide IsTold, Posts;
  }

  /** A post, and operations that all have the text just posted. */
  lemma ToldAfterPost(ps: seq<string>, msgs: seq<string>, ops: seq<Op>, base: nat)
    requires base < |msgs| && forall op | op in ops :: !op.Post? && (HasText(op) ==> TextFor(ps, op) == msgs[base])
    ensures Told(ps, msgs, [Post] + ops, base) && Posts([Post] + ops) == 1
  {
    hide TextFor;
    var all := [Post] + ops;
    forall i | 0 < i <= |all|
      ensures Posts(all[..i]) == 1
    {
      OnePost([], ops[..i - 1]);
      assert all[..i] == [] + [Post] + ops[..i - 1];
    }
    assert all[..|all|] == all;
    assert forall i | 0 < i < |all| :: all[i] == ops[i - 1];
  }

  lemma {:induction false} PrimariesTold(ps: seq<string>, msgs: seq<string>, k: nat)
    requires k <= |PRIMARY_FUNCS| && |msgs| >= 8 && msgs[..8] == FIRST_MESSAGES
    ensures Told(ps, msgs, PrimaryPhase(PRIMARY_FUNCS[..k], ps), 1) && Posts(PrimaryPhase(PRIMARY_FUNCS[..k], ps)) == k
  {
    hide Told, Posts, HasText, TextFor;
    var fns := PRIMARY_FUNCS[..k];
    PrimaryPosts(fns, ps);
    if k == 0 {
      NothingTold(ps, msgs);
    } else {
      PrimariesTold(ps, msgs, k - 1);
      assert fns[..k - 1] == PRIMARY_FUNCS[..k - 1];
      var before, each := PrimaryPhase(fns[..k - 1], ps), ForEach(fns[k - 1], ps);
      assert msgs[k] == msgs[..8][k];
      forall op | op in each
        ensures !op.Post? && (HasText(op) ==> TextFor(ps, op) == msgs[k])
      {
        var i :| 0 <= i < |each| && each[i] == op;
        PrimaryText(ps, k, ps[i]);
      }
      ToldAfterPost(ps, msgs, each, k);
      ToldConcat(ps, msgs, before, [Post] + each, 1);
      assert before + [Post] + each == before + ([Post] + each);
    }
  }

  lemma PrimaryText(ps: seq<string>, k: nat, sc: string)
    requires 0 < k <= |PRIMARY_FUNCS| && sc in ps
    ensures var op := ForSts(PRIMARY_FUNCS[k - 1], sc);
            !op.Post? && (HasText(op) ==> TextFor(ps, op) == FIRST_MESSAGES[k])
  {
  }

  lemma NothingTold(ps: seq<string>, msgs: seq<string>)
    ensures Told(ps, msgs, [], 1)
  {
  }

  lemma {:induction false} SecondaryMessageAt(ss: seq<string>, k: nat, r: nat)
    requires k < |ss| && r < 3
    ensures SecondaryMessages(ss)[3 * k + r] == MessagesFor(ss[k])[r]
  {
    var n := |ss| - 1;
    if k < n {
      SecondaryMessageAt(ss[..n], k, r);
    }
  }

  lemma MessageAt(ss: seq<string>, k: nat)
    requires k < |ss|
    ensures var msgs := Messages(ss);
            && msgs[8 + 3 * k] == MessagesFor(ss[k])[0] && msgs[8 + 3 * k + 1] == MessagesFor(ss[k])[1]
            && msgs[8 + 3 * k + 2] == MessagesFor(ss[k])[2]
  {
    hide MessagesFor, SecondaryMessages;
    SecondaryMessageAt(ss, k, 0);
    SecondaryMessageAt(ss, k, 1);
    SecondaryMessageAt(ss, k, 2);
  }

  lemma OneSecondaryTold(ps: seq<string>, msgs: seq<string>, sc: string, base: nat)
    requires sc !in ps && base + 2 < |msgs|
    requires msgs[base] == MessagesFor(sc)[0] && msgs[base + 1] == MessagesFor(sc)[1] && msgs[base + 2] == MessagesFor(sc)[2]
    ensures Told(ps, msgs, SecondaryOps(sc), base) && Posts(SecondaryOps(sc)) == 3
  {
    hide Told, Posts, HasText;
    var a: seq<Op>, b: seq<Op>, c: seq<Op> := [Drain(sc)], [Recreate(sc)], [Other, Other, BringOnline(sc)];
    TextsOf(ps, sc);
    ToldAfterPost(ps, msgs, a, base);
    ToldAfterPost(ps, msgs, b, base + 1);
    ToldAfterPost(ps, msgs, c, base + 2);
    ToldConcat(ps, msgs, [Post] + a, [Post] + b, base);
    PostsConcat([Post] + a, [Post] + b);
    ToldConcat(ps, msgs, [Post] + a + ([Post] + b), [Post] + c, base);
    PostsConcat([Post] + a + ([Post] + b), [Post] + c);
    assert SecondaryOps(sc) == [Post] + a + ([Post] + b) + ([Post] + c);
  }

  lemma TextsOf(ps: seq<string>, sc: string)
    requires sc !in ps
    ensures HasText(Drain(sc)) && TextFor(ps, Drain(sc)) == MessagesFor(sc)[0]
    ensures HasText(Recreate(sc)) && TextFor(ps, Recreate(sc)) == MessagesFor(sc)[1]
    ensures HasText(BringOnline(sc)) && TextFor(ps, BringOnline(sc)) == MessagesFor(sc)[2]
    ensures !HasText(Other)
  {
  }

  lemma {:induction false} SecondariesTold(ps: seq<string>, ss: seq<string>, k: nat)
    requires k <= |ss| && forall sc | sc in ss :: sc !in ps
    ensures Told(ps, Messages(ss), SecondaryPhase(ss[..k]), 8) && Posts(SecondaryPhase(ss[..k])) == 3 * k
    decreases k
  {
    hide Told, Posts, SecondaryOps, MessagesFor, Messages;
    SecondaryPosts(ss[..k]);
    if k == 0 {
      NoSecondaryTold(ps, Messages(ss));
    } else {
      SecondariesTold(ps, ss, k - 1);
      MessageAt(ss, k - 1);
      OneSecondaryTold(ps, Messages(ss), ss[k - 1], 8 + 3 * (k - 1));
      assert ss[..k][..k - 1] == ss[..k - 1];
      ToldConcat(ps, Messages(ss), SecondaryPhase(ss[..k - 1]), SecondaryOps(ss[k - 1]), 8);
    }
  }

  lemma NoSecondaryTold(ps: seq<string>, msgs: seq<string>)
    ensures Told(ps, msgs, [], 8)
  {
  }

  lemma SetupTold(ps: seq<string>, msgs: seq<string>, upAdd: bool, upCreate: bool)
    requires |msgs| > 0 && msgs[0] == FIRST_MESSAGES[0]
    ensures Told(ps, msgs, SetupPhase(upAdd, upCreate), 0) && Posts(SetupPhase(upAdd, upCreate)) == 1
  {
    hide Told, Posts, HasText, TextFor;
    FixedTexts(ps);
    var a: seq<Op> := [Start, Load, Precompute];
    var b: seq<Op> := [AddTransient(upAdd), CreateTransientSts(upCreate), Other, Other, Other, Other, Other];
    NoTextTold(ps, msgs, a);
    ToldAfterPost(ps, msgs, b, 0);
    ToldConcat(ps, msgs, a, [Post] + b, 0);
    PostsConcat(a, [Post] + b);
    assert SetupPhase(upAdd, upCreate) == a + ([Post] + b);
  }

  lemma FixedTexts(ps: seq<string>)
    ensures forall op: Op | op.AddTransient? || op.CreateTransientSts? :: HasText(op) && TextFor(ps, op) == FIRST_MESSAGES[0]
    ensures forall op: Op | op.RemoveTransient? || op.ReconcileSvc? || op.ReconcileSts? || op.DeleteGone? ::
              HasText(op) && TextFor(ps, op) == LAST_MESSAGE
    ensures forall op: Op | op.Start? || op.Load? || op.Precompute? || op.Other? || op.ClearStatus? || op.Finish? :: !HasText(op)
  {
  }

  lemma NoTextTold(ps: seq<string>, msgs: seq<string>, ops: seq<Op>)
    requires forall op | op in ops :: !HasText(op) && !op.Post?
    ensures Told(ps, msgs, ops, 0) && Posts(ops) == 0
  {
    NoPosts(ops);
  }

  lemma CleanupTold(ps: seq<string>, msgs: seq<string>, names: seq<string>, base: nat)
    requires base < |msgs| && msgs[base] == LAST_MESSAGE
    ensures Told(ps, msgs, CleanupPhase(names), base)
  {
    hide Told, Posts, HasText, TextFor;
    FixedTexts(ps);
    var ops: seq<Op> := [RemoveTransient, Other, Other, Other] + ReconcileAll(names) + [DeleteGone, ClearStatus, Finish];
    ToldAfterPost(ps, msgs, ops, base);
    assert CleanupPhase(names) == [Post] + ops;
  }

  lemma FirstAndLast(ss: seq<string>)
    ensures var msgs := Messages(ss);
            |msgs| == 9 + 3 * |ss| && msgs[..8] == FIRST_MESSAGES && msgs[8 + 3 * |ss|] == LAST_MESSAGE
  {
    hide SecondaryMessages;
  }

  /** Throughout a pass, the message posted last is about the operation that runs: it names the kind of
      step, and the subcluster when that is a secondary. */
  lemma MessagesTellTheStep(st: State, upAdd: bool, upCreate: bool, i: nat)
    requires i < |Plan(st, upAdd, upCreate)| && HasText(Plan(st, upAdd, upCreate)[i])
    requires forall sc | sc in NamesOf(st.stss, false) :: sc !in NamesOf(st.stss, true)
    ensures var plan, msgs := Plan(st, upAdd, upCreate), Messages(NamesOf(st.stss, false));
            && 0 < Posts(plan[..i]) <= |msgs|
            && msgs[Posts(plan[..i]) - 1] == TextFor(NamesOf(st.stss, true), plan[i])
  {
    hide Posts, PrimaryPhase, SecondaryPhase, SetupPhase, CleanupPhase, NamesOf, Messages, TextFor, HasText;
    var ps, ss, names := NamesOf(st.stss, true), NamesOf(st.stss, false), ScNames(NonTransient(st.subclusters));
    var msgs := Messages(ss);
    var a, b, c, d := SetupPhase(upAdd, upCreate), PrimaryPhase(PRIMARY_FUNCS, ps), SecondaryPhase(ss), CleanupPhase(names);
    FirstAndLast(ss);
    assert msgs[0] == msgs[..8][0];
    SetupTold(ps, msgs, upAdd, upCreate);
    assert PRIMARY_FUNCS[..|PRIMARY_FUNCS|] == PRIMARY_FUNCS && ss[..|ss|] == ss;
    PrimariesTold(ps, msgs, |PRIMARY_FUNCS|);
    SecondariesTold(ps, ss, |ss|);
    CleanupTold(ps, msgs, names, 8 + 3 * |ss|);
    ToldConcat(ps, msgs, a, b, 0);
    PostsConcat(a, b);
    ToldConcat(ps, msgs, a + b, c, 0);
    PostsConcat(a + b, c);
    ToldConcat(ps, msgs, a + b + c, d, 0);
  }
}
