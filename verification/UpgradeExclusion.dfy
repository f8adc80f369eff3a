/** Which of the two upgrade reconcilers is at work.

    Every reconcile pass runs the offline upgrade actor and then the online one; either may abort
    the pass after any of its steps, and the next pass starts over.  Between any two steps a user
    may edit the spec as far as the webhook allows.  The module proves, over every run of such
    steps, exactly when the two in-progress conditions can be set at the same time. */
module UpgradeExclusion {
  import opened Text
  import opened Conditions
  import opened Version

  datatype Policy = Unset | Auto | Online | Offline

  datatype Template = Template(name: string, size: int)

  datatype Spec = Spec(
    scheduleOnly: bool,
    policy: Policy,
    licenseSecret: string,
    kSafety0: bool,
    template: Template,
    routingNames: seq<string>,
    image: string,
    ignoreUpgradePath: bool,
    subclusters: set<string>
  )

  /** What an actor does to the state that decides the upgrade kind. */
  datatype Effect = Nothing | SetImages | CheckVersion | Finish

  /** The functions of each reconciler, in order, after startUpgrade. */
  const OFFLINE_STEPS: seq<Effect> := [
    Nothing,      // logEventIfOnlineUpgradeRequested
    Nothing,      // postStoppingClusterMsg
    Nothing,      // stopCluster
    Nothing,      // postReschedulePodsMsg
    SetImages,    // updateImageInStatefulSets
    Nothing,      // deletePods
    Nothing,      // checkForNewPods
    CheckVersion, // checkVersion
    Nothing,      // postRestartingClusterMsg
    Nothing,      // addPodAnnotations
    Nothing,      // runInstaller
    Nothing,      // restartCluster
    Nothing,      // addClientRoutingLabel
    Finish        // finishUpgrade
  ]

  const ONLINE_STEPS: seq<Effect> := [
    Nothing,      // loadSubclusterState
    Nothing,      // precomputeStatusMsgs
    Nothing,      // postNextStatusMsg
    Nothing,      // addTransientToVdb
    SetImages,    // createTransientSts
    Nothing,      // installTransientNodes
    Nothing,      // addTransientSubcluster
    Nothing,      // addTransientNodes
    Nothing,      // rebalanceTransientNodes
    Nothing,      // addClientRoutingLabelToTransientNodes
    Nothing,      // restartPrimaries: drainSubcluster
    SetImages,    // restartPrimaries: recreateSubclusterWithNewImage
    CheckVersion, // restartPrimaries: checkVersion
    Nothing,      // restartPrimaries: the remaining functions
    SetImages,    // restartSecondaries
    Nothing,      // postNextStatusMsg
    Nothing,      // removeTransientFromVdb
    Nothing,      // removeClientRoutingLabelFromTransientNodes
    Nothing,      // removeTransientSubclusters
    Nothing,      // uninstallTransientNodes
    SetImages,    // deleteTransientSts
    Finish        // finishUpgrade
  ]

  /** Where a pass is.  A gate is the point where a reconciler decides whether an upgrade is
      needed; Rest stands for the actors after both of them. */
  datatype Pc = Idle | OfflineGate | OfflineAt(k: nat) | OnlineGate | OnlineAt(k: nat) | Rest

  datatype World = World(
    spec: Spec,
    version: Option<Components>,     // the version annotation; None if absent or unparsable
    conditions: seq<Condition>,
    images: map<string, string>,     // image of each existing statefulset
    pc: Pc
  )

  predicate OnlineSet(w: World) {
    IsSet(w.conditions, OnlineUpgradeInProgress)
  }

  predicate OfflineSet(w: World) {
    IsSet(w.conditions, OfflineUpgradeInProgress)
  }

  predicate ImageChangeSet(w: World) {
    IsSet(w.conditions, ImageChangeInProgress)
  }

  predicate Both(w: World) {
    OnlineSet(w) && OfflineSet(w)
  }

  predicate RequiresTransient(s: Spec) {
    s.template.name != "" && s.template.size > 0
  }

  predicate AutoPolicy(s: Spec) {
    s.policy.Auto? || s.policy.Unset?
  }

  predicate OnlineAllowed(w: World) {
    if w.spec.policy.Offline? then false
    else if AutoPolicy(w.spec)
         && ((RequiresTransient(w.spec) && w.spec.licenseSecret == "") || w.spec.kSafety0) then false
    else w.version.Some? && IsEqualOrNewer(w.version.value, ONLINE_UPGRADE_VERSION)
  }

  predicate ImageDiffers(w: World) {
    exists n :: n in w.spec.subclusters && n in w.images && w.images[n] != w.spec.image
  }

  /** IsUpgradeNeeded for one of the two reconcilers. */
  predicate Needed(w: World, inProgress: bool, allowed: bool) {
    !w.spec.scheduleOnly && (inProgress || (allowed && ImageDiffers(w)))
  }

  /** toggleImageChangeInProgress, with its two condition writes as one step. */
  function Toggled(conditions: seq<Condition>, kind: ConditionType, status: ConditionStatus, now: int): seq<Condition> {
    Updated(Updated(conditions, Condition(ImageChangeInProgress, status, now)), Condition(kind, status, now))
  }

  /** The checks of the webhook that concern these fields. */
  predicate WebhookAccepts(w: World, s: Spec) {
    && s.kSafety0 == w.spec.kSafety0
    && s.scheduleOnly == w.spec.scheduleOnly
    && (ImageChangeSet(w) ==>
          s.policy == w.spec.policy && s.template == w.spec.template && s.routingNames == w.spec.routingNames)
  }

  // ---------------------------------------------------------------- steps

  /** Each statefulset keeps its image or gets the one in the spec; new ones may appear. */
  predicate ImagesStep(w: World, images': map<string, string>) {
    forall n | n in images' && n in w.images :: images'[n] == w.images[n] || images'[n] == w.spec.image
  }

  predicate VersionStep(w: World, v': Option<Components>) {
    || v' == w.version
    || (&& !w.spec.ignoreUpgradePath
        && v'.Some?
        && (w.version.Some? ==> IsValidUpgradePath(w.version.value, v'.value)))
  }

  predicate EffectStep(w: World, e: Effect, kind: ConditionType, w': World) {
    && w'.spec == w.spec
    && match e
       case Nothing => w'.version == w.version && w'.images == w.images && w'.conditions == w.conditions
       case SetImages => w'.version == w.version && w'.conditions == w.conditions && ImagesStep(w, w'.images)
       case CheckVersion => w'.images == w.images && w'.conditions == w.conditions && VersionStep(w, w'.version)
       case Finish =>
         && w'.version == w.version && w'.images == w.images
         && w'.conditions == Toggled(w.conditions, kind, False, 0)
  }

  predicate Start(w: World, kind: ConditionType, pc: Pc, w': World) {
    w' == w.(conditions := Toggled(w.conditions, kind, True, 0), pc := pc)
  }

  predicate OfflineActor(w: World, w': World) {
    match w.pc
    case OfflineGate =>
      if Needed(w, OfflineSet(w), !OnlineAllowed(w)) then Start(w, OfflineUpgradeInProgress, OfflineAt(0), w')
      else w' == w.(pc := OnlineGate)
    case OfflineAt(k) =>
      && k < |OFFLINE_STEPS|
      && EffectStep(w, OFFLINE_STEPS[k], OfflineUpgradeInProgress, w')
      && w'.pc == if k + 1 == |OFFLINE_STEPS| then OnlineGate else OfflineAt(k + 1)
    case _ => false
  }

  predicate OnlineActor(w: World, w': World) {
    match w.pc
    case OnlineGate =>
      if Needed(w, OnlineSet(w), OnlineAllowed(w)) then Start(w, OnlineUpgradeInProgress, OnlineAt(0), w')
      else w' == w.(pc := Rest)
    case OnlineAt(k) =>
      && k < |ONLINE_STEPS|
      && EffectStep(w, ONLINE_STEPS[k], OnlineUpgradeInProgress, w')
      && w'.pc == if k + 1 == |ONLINE_STEPS| then Rest else OnlineAt(k + 1)
    case _ => false
  }

  /** The later actors record whatever version runs and create or patch statefulsets. */
  predicate RestActor(w: World, w': World) {
    && w.pc.Rest? && w'.pc.Rest?
    && w'.spec == w.spec && w'.conditions == w.conditions
  }

  predicate PassBoundary(w: World, w': World) {
    || (w.pc.Idle? && w' == w.(pc := OfflineGate))
    || (!w.pc.Idle? && w' == w.(pc := Idle))
  }

  predicate Edit(w: World, w': World) {
    w' == w.(spec := w'.spec) && WebhookAccepts(w, w'.spec)
  }

  predicate Next(w: World, w': World) {
    OfflineActor(w, w') || OnlineActor(w, w') || RestActor(w, w') || PassBoundary(w, w') || Edit(w, w')
  }

  predicate Initial(w: World) {
    w.pc.Idle? && !OnlineSet(w) && !OfflineSet(w) && !ImageChangeSet(w)
  }

  ghost predicate IsRun(run: seq<World>) {
    && |run| > 0
    && Initial(run[0])
    && forall i | 0 <= i < |run| - 1 :: Next(run[i], run[i + 1])
  }

  // ---------------------------------------------------------------- what decides the kind of upgrade

  /** By the fields of the spec alone: no policy at all counts as automatic, which needs k-safety and,
      for a transient subcluster, a license; the online policy asks for neither. */
  lemma OnlineAllowedExact(w: World)
    ensures OnlineAllowed(w) <==>
              && w.version.Some?
              && (w.version.value.major > 11 || (w.version.value.major == 11 && w.version.value.minor >= 1))
              && w.spec.policy != Offline
              && (w.spec.policy != Online ==>
                    && !w.spec.kSafety0
                    && (w.spec.template.name == "" || w.spec.template.size <= 0 || w.spec.licenseSecret != ""))
  {
  }

  /** An upgrade records a version only if paths are checked, and then never an older one. */
  lemma UpgradeRecordsVersion(w: World, w': World)
    requires OfflineActor(w, w') || OnlineActor(w, w')
    ensures w.spec.ignoreUpgradePath ==> w'.version == w.version
    ensures w.version.Some? ==> w'.version.Some? && IsEqualOrNewer(w'.version.value, w.version.value)
  {
    if w.version.Some? {
      hide Toggled, UPGRADE_PATHS;
      if w'.version.Some? && w'.version != w.version {
        AcceptedPathKeepsFloor(w.version.value, w'.version.value, w.version.value);
      }
    }
  }

  /** Either upgrade sets images before it checks a version, and touches its conditions last. */
  lemma StepsInOrder(steps: seq<Effect>, k: nat)
    requires (steps == OFFLINE_STEPS || steps == ONLINE_STEPS) && k < |steps|
    ensures steps[k].Finish? <==> k == |steps| - 1
    ensures CheckVersion in steps
    ensures steps[k].CheckVersion? ==> SetImages in steps[..k] && CheckVersion !in steps[..k]
  {
    assert OFFLINE_STEPS[7] == CheckVersion && ONLINE_STEPS[12] == CheckVersion;
    if steps[k].CheckVersion? {
      var j := if steps == OFFLINE_STEPS then 4 else 11;
      assert steps[..k][j] == SetImages;
    }
  }

  /** What the webhook holds fixed while an upgrade is in progress. */
  predicate SameUpgrade(a: Spec, b: Spec) {
    a.policy == b.policy && a.template == b.template && a.routingNames == b.routingNames
  }

  /** Over every run: the k-safety and the initialisation policy never change, and neither the upgrade
      policy, nor the template, nor the routing does from the start of an upgrade to its end. */
  lemma {:induction false} FrozenDuringUpgrade(run: seq<World>, i: nat, j: nat)
    requires IsRun(run) && i <= j < |run|
    ensures run[j].spec.kSafety0 == run[i].spec.kSafety0 && run[j].spec.scheduleOnly == run[i].spec.scheduleOnly
    ensures (forall k | i <= k < j :: ImageChangeSet(run[k])) ==> SameUpgrade(run[i].spec, run[j].spec)
  {
    hide ImageChangeSet, Toggled, ImagesStep, VersionStep, Needed, OnlineAllowed;
    if i < j {
      FrozenDuringUpgrade(run, i, j - 1);
      assert Next(run[j - 1], run[j - 1 + 1]);
    }
  }

  // ---------------------------------------------------------------- what every step keeps

  predicate OnlineReady(w: World) {
    && !w.spec.policy.Offline?
    && (AutoPolicy(w.spec) ==> !w.spec.kSafety0)
    && w.version.Some? && IsEqualOrNewer(w.version.value, ONLINE_UPGRADE_VERSION)
  }

  predicate Inv(w: World) {
    && !Both(w)
    && (ImageChangeSet(w) <==> OnlineSet(w) || OfflineSet(w))
    && (w.spec.scheduleOnly ==> !ImageChangeSet(w))
    && (OnlineSet(w) ==> OnlineReady(w))
    && (w.pc.OfflineAt? ==> OfflineSet(w))
    && (w.pc.OnlineAt? ==> OnlineSet(w))
    && (w.pc.OnlineGate? ==> !OfflineSet(w))
    && (w.pc.Rest? ==> !OnlineSet(w) && !OfflineSet(w))
  }

  /** An offline upgrade begins although an online one is in progress: automatic policy, a
      transient template, and the license gone. */
  predicate UnlicensedStart(w: World, w': World) {
    && w.pc.OfflineGate? && w'.pc == OfflineAt(0)
    && OnlineSet(w)
    && AutoPolicy(w.spec) && RequiresTransient(w.spec) && w.spec.licenseSecret == ""
  }

  lemma ToggledAll(conditions: seq<Condition>, kind: ConditionType, status: ConditionStatus)
    requires kind == OnlineUpgradeInProgress || kind == OfflineUpgradeInProgress
    ensures var cs := Toggled(conditions, kind, status, 0);
            && (IsSet(cs, ImageChangeInProgress) <==> status == True)
            && (IsSet(cs, OnlineUpgradeInProgress)
                <==> if kind == OnlineUpgradeInProgress then status == True else IsSet(conditions, OnlineUpgradeInProgress))
            && (IsSet(cs, OfflineUpgradeInProgress)
                <==> if kind == OfflineUpgradeInProgress then status == True else IsSet(conditions, OfflineUpgradeInProgress))
  {
  }

  lemma OfflineKeepsInv(w: World, w': World)
    requires Inv(w) && OfflineActor(w, w')
    ensures Inv(w') <==> !Both(w')
    ensures Both(w') ==> UnlicensedStart(w, w')
  {
    hide Toggled, IsSet;
    ToggledAll(w.conditions, OfflineUpgradeInProgress, True);
    ToggledAll(w.conditions, OfflineUpgradeInProgress, False);
  }

  lemma OnlineKeepsInv(w: World, w': World)
    requires Inv(w) && OnlineActor(w, w')
    ensures Inv(w')
  {
    hide Toggled, IsSet, UPGRADE_PATHS;
    ToggledAll(w.conditions, OnlineUpgradeInProgress, True);
    ToggledAll(w.conditions, OnlineUpgradeInProgress, False);
    if w.version.Some? && w'.version.Some? && w.version != w'.version {
      VersionKept(w, w');
    }
  }

  lemma VersionKept(w: World, w': World)
    requires w.version.Some? && VersionStep(w, w'.version)
    ensures w'.version.Some?
    ensures IsEqualOrNewer(w.version.value, ONLINE_UPGRADE_VERSION)
        ==> IsEqualOrNewer(w'.version.value, ONLINE_UPGRADE_VERSION)
  {
    if IsEqualOrNewer(w.version.value, ONLINE_UPGRADE_VERSION) {
      AcceptedPathKeepsFloor(w.version.value, w'.version.value, ONLINE_UPGRADE_VERSION);
    }
  }

  /** One step from a good state either keeps it good or is an unlicensed offline start. */
  lemma StepKeepsInv(w: World, w': World)
    requires Inv(w) && Next(w, w')
    ensures Inv(w') <==> !Both(w')
    ensures Both(w') ==> UnlicensedStart(w, w')
  {
    hide Toggled, IsSet;
    if OfflineActor(w, w') {
      OfflineKeepsInv(w, w');
    } else if OnlineActor(w, w') {
      OnlineKeepsInv(w, w');
    }
  }

  lemma UnlicensedStartSetsBoth(w: World, w': World)
    requires Next(w, w') && UnlicensedStart(w, w')
    ensures Both(w')
  {
  }

  lemma {:induction false} FirstClash(run: seq<World>, i: nat)
    requires IsRun(run) && i < |run|
    ensures Inv(run[i]) || exists j :: 0 <= j < i && UnlicensedStart(run[j], run[j + 1])
  {
    if i > 0 {
      FirstClash(run, i - 1);
      if Inv(run[i - 1]) {
        assert Next(run[i - 1], run[i - 1 + 1]);
        StepKeepsInv(run[i - 1], run[i]);
        if !Inv(run[i]) {
          assert UnlicensedStart(run[i - 1], run[i - 1 + 1]);
        }
      }
    }
  }

  /** Over every run, both conditions are set in some state if and only if some offline upgrade
      started while an online one was in progress and the license it needs had been removed. */
  lemma ExclusionExact(run: seq<World>)
    requires IsRun(run)
    ensures (exists i :: 0 <= i < |run| && Both(run[i]))
       <==> (exists j :: 0 <= j < |run| - 1 && UnlicensedStart(run[j], run[j + 1]))
  {
    if i :| 0 <= i < |run| && Both(run[i]) {
      FirstClash(run, i);
    }
    if j :| 0 <= j < |run| - 1 && UnlicensedStart(run[j], run[j + 1]) {
      UnlicensedStartSetsBoth(run[j], run[j + 1]);
    }
  }

  /** In particular the conditions exclude each other in every reachable state as long as nobody
      takes the license away from an automatic online upgrade that uses a transient template. */
  lemma UpgradesExclude(run: seq<World>, i: nat)
    requires IsRun(run) && i < |run|
    requires forall j | 0 <= j < |run| && OnlineSet(run[j]) ::
               !AutoPolicy(run[j].spec) || !RequiresTransient(run[j].spec) || run[j].spec.licenseSecret != ""
    ensures !Both(run[i])
    ensures ImageChangeSet(run[i]) <==> OnlineSet(run[i]) || OfflineSet(run[i])
  {
    FirstClash(run, i);
  }

  /** An upgrade that will go online, automatically, with a transient subcluster. */
  predicate LicensedUpgrade(w: World) {
    && Initial(w) && OnlineAllowed(w) && AutoPolicy(w.spec) && RequiresTransient(w.spec)
    && !w.spec.scheduleOnly && ImageDiffers(w)
  }

  /** Such an upgrade starts online. */
  lemma OnlineStarts(w0: World) returns (w1: World, w2: World, w3: World)
    requires LicensedUpgrade(w0)
    ensures Next(w0, w1) && Next(w1, w2) && Next(w2, w3) && OnlineSet(w3)
    ensures w3 == w0.(pc := OnlineAt(0), conditions := w3.conditions)
  {
    hide Toggled, IsSet;
    w1, w2 := w0.(pc := OfflineGate), w0.(pc := OnlineGate);
    assert ImageDiffers(w1) && ImageDiffers(w2);
    w3 := w0.(pc := OnlineAt(0), conditions := Toggled(w0.conditions, OnlineUpgradeInProgress, True, 0));
    ToggledAll(w0.conditions, OnlineUpgradeInProgress, True);
    assert PassBoundary(w0, w1) && OfflineActor(w1, w2) && OnlineActor(w2, w3);
  }

  /** Without its license the next pass starts it offline. */
  lemma OfflineStarts(w4: World) returns (w5: World, w6: World, w7: World)
    requires w4.pc.Idle? && AutoPolicy(w4.spec) && RequiresTransient(w4.spec) && !w4.spec.scheduleOnly && ImageDiffers(w4)
    requires OnlineSet(w4)
    ensures Next(w4, w5) && Next(w5, w6) && Next(w6, w7) && Both(w7)
  {
    hide Toggled, IsSet;
    w5 := w4.(spec := w4.spec.(licenseSecret := ""));
    w6 := w5.(pc := OfflineGate);
    assert ImageDiffers(w5) && ImageDiffers(w6);
    w7 := w6.(pc := OfflineAt(0), conditions := Toggled(w4.conditions, OfflineUpgradeInProgress, True, 0));
    ToggledAll(w4.conditions, OfflineUpgradeInProgress, True);
    assert Edit(w4, w5) && PassBoundary(w5, w6) && OfflineActor(w6, w7);
  }

  /** The license can be taken away: from every such start, the webhook lets the edit through in
      mid-upgrade, and the next pass then sets both conditions. */
  lemma LicenseEditClashes(w0: World) returns (run: seq<World>)
    requires LicensedUpgrade(w0)
    ensures IsRun(run) && run[0] == w0 && Both(run[|run| - 1])
  {
    hide Next, Both, OnlineSet, ImageDiffers, OnlineAllowed;
    var w1, w2, w3 := OnlineStarts(w0);
    var w4 := w3.(pc := Idle);
    Aborts(w3, w4);
    SameImages(w0, w4);
    var w5, w6, w7 := OfflineStarts(w4);
    run := [w0, w1, w2, w3, w4, w5, w6, w7];
  }

  lemma Aborts(w: World, w': World)
    requires !w.pc.Idle? && w' == w.(pc := Idle) && OnlineSet(w)
    ensures Next(w, w') && OnlineSet(w')
  {
  }

  lemma SameImages(w: World, w': World)
    requires w'.spec == w.spec && w'.images == w.images
    ensures ImageDiffers(w) == ImageDiffers(w')
  {
  }

  lemma LicensedUpgradeExists()
    ensures var spec := Spec(false, Auto, "license", false, Template("transient", 1), [], "new", false, {"sc1"});
            LicensedUpgrade(World(spec, Some(Components(11, 1, 0)), [], map["sc1" := "old"], Idle))
  {
  }
}
