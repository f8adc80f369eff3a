/** The online upgrade protocol (pkg/controllers/vdb/onlineupgrade_reconciler.go).

    A pass is a fixed list of functions, some of them run once per statefulset.  It is written
    here as a flat plan of operations; a pass that aborts has executed a prefix of its plan, and
    the next pass starts over with a fresh reconciler.  This module defines the operations and the
    plan; OnlineUpgradeSafety proves what holds after every prefix of every pass. */
module OnlineUpgrade {
  import opened Text
  import opened Api

  /** A statefulset with the labels and the server image the protocol looks at. */
  datatype Sts = Sts(name: string, isPrimary: bool, isTransient: bool, image: string)

  /** What a service object selects: the pods of all subclusters with its service name, or, while
      traffic is rerouted, the pods of one subcluster. */
  datatype Selector = ByService(service: string) | BySubcluster(subcluster: string)

  /** The part of the spec that does not change during an upgrade. */
  datatype Config = Config(
    image: string, templateName: string, templateSize: int, routingNames: seq<string>,
    scheduleOnly: bool, onlineAllowed: bool)   // the init policy, and what onlineUpgradeAllowed says

  datatype State = State(
    // in the API server
    subclusters: seq<Subcluster>,
    stss: seq<Sts>,                  // listed in name order
    services: map<string, Selector>,
    inProgress: bool,
    upgradeStatus: string,
    // fields of the reconciler, rebuilt in every pass
    transientSc: Option<Subcluster>,
    primaryImages: seq<string>,
    statusMsgs: seq<string>,
    msgIndex: int
  )

  datatype Op =
    | Start
    | Load
    | Precompute
    | Post
    | AddTransient(up: bool)
    | CreateTransientSts(up: bool)
    | Drain(sc: string)
    | Recreate(sc: string)
    | BringOnline(sc: string)
    | RemoveTransient
    | ReconcileSvc(sc: string)
    | ReconcileSts(sc: string)
    | DeleteGone
    | ClearStatus
    | Finish
    | Other                          // touches nothing that is modelled; it can still abort

  // ---------------------------------------------------------------- lookups

  /** The entry of the subcluster map: the last subcluster with the name. */
  function Lookup(scs: seq<Subcluster>, name: string): (r: Option<Subcluster>)
    ensures r.Some? ==> r.value in scs && r.value.name == name
    ensures r.None? ==> forall sc | sc in scs :: sc.name != name
  {
    if scs == [] then None
    else if scs[|scs| - 1].name == name then Some(scs[|scs| - 1])
    else Lookup(scs[..|scs| - 1], name)
  }

  function FindTransient(scs: seq<Subcluster>): (r: Option<Subcluster>)
    ensures r.Some? ==> r.value in scs && r.value.isTransient
    ensures r.None? ==> forall sc | sc in scs :: !sc.isTransient
  {
    if scs == [] then None
    else if scs[0].isTransient then Some(scs[0])
    else FindTransient(scs[1..])
  }

  function FindSts(stss: seq<Sts>, name: string): (r: Option<Sts>)
    ensures r.Some? ==> r.value in stss && r.value.name == name
    ensures r.None? ==> forall s | s in stss :: s.name != name
  {
    if stss == [] then None
    else if stss[0].name == name then Some(stss[0])
    else FindSts(stss[1..], name)
  }

  /** The statefulsets iterateSubclusterType visits: transient ones never match. */
  function NamesOf(stss: seq<Sts>, primary: bool): (r: seq<string>)
    ensures forall n :: n in r <==> exists s :: s in stss && s.name == n && s.isPrimary == primary && !s.isTransient
  {
    if stss == [] then []
    else
      var rest := NamesOf(stss[1..], primary);
      if stss[0].isPrimary == primary && !stss[0].isTransient then [stss[0].name] + rest else rest
  }

  function NonTransient(scs: seq<Subcluster>): seq<Subcluster> {
    if scs == [] then []
    else if scs[0].isTransient then NonTransient(scs[1..])
    else [scs[0]] + NonTransient(scs[1..])
  }

  function ScNames(scs: seq<Subcluster>): (r: seq<string>)
    ensures |r| == |scs| && forall i | 0 <= i < |scs| :: r[i] == scs[i].name
  {
    seq(|scs|, i requires 0 <= i < |scs| => scs[i].name)
  }

  function PrimaryImages(stss: seq<Sts>): seq<string> {
    if stss == [] then []
    else
      var images := PrimaryImages(stss[..|stss| - 1]);
      var s := stss[|stss| - 1];
      if s.isPrimary && s.image !in images then images + [s.image] else images
  }

  function FetchOldImage(images: seq<string>, image: string): (r: Option<string>)
    ensures r.Some? ==> r.value in images && r.value != image
    ensures r.None? ==> forall i | 0 <= i < |images| :: images[i] == image
  {
    if images == [] then None
    else if images[0] != image then Some(images[0])
    else FetchOldImage(images[1..], image)
  }

  predicate RequiresTransient(cfg: Config) {
    cfg.templateName != "" && cfg.templateSize > 0
  }

  /** `up` says that some node is up and writable. */
  predicate SkipTransientSetup(cfg: Config, st: State, up: bool) {
    !RequiresTransient(cfg) || st.primaryImages == [cfg.image] || !up
  }

  function BuildTransient(cfg: Config, oldImage: string): Subcluster {
    Subcluster(cfg.templateName, "", cfg.templateSize, false, true, oldImage, None, "", None, 0, "")
  }

  function PickImage(cfg: Config, sc: Subcluster): string {
    if sc.imageOverride != "" then sc.imageOverride else cfg.image
  }

  function NewSts(cfg: Config, sc: Subcluster): Sts {
    Sts(sc.name, sc.isPrimary, sc.isTransient, PickImage(cfg, sc))
  }

  /** Insertion into the listing by name. */
  function Inserted(stss: seq<Sts>, s: Sts): (r: seq<Sts>)
    ensures forall x :: x in r <==> x in stss || x == s
  {
    if stss == [] then [s]
    else if LexLess(s.name, stss[0].name) then [s] + stss
    else [stss[0]] + Inserted(stss[1..], s)
  }

  function WithImage(stss: seq<Sts>, name: string, image: string): (r: seq<Sts>)
    ensures |r| == |stss|
    ensures forall i | 0 <= i < |stss| :: r[i] == if stss[i].name == name then stss[i].(image := image) else stss[i]
  {
    seq(|stss|, i requires 0 <= i < |stss| => if stss[i].name == name then stss[i].(image := image) else stss[i])
  }

  function Kept(stss: seq<Sts>, names: seq<string>): (r: seq<Sts>)
    ensures forall s :: s in r <==> s in stss && s.name in names
  {
    if stss == [] then []
    else if stss[0].name in names then [stss[0]] + Kept(stss[1..], names)
    else Kept(stss[1..], names)
  }

  // ---------------------------------------------------------------- routing

  /** The first routing name that is not being taken offline; failing that, the last known one. */
  function PickNamed(scs: seq<Subcluster>, names: seq<string>, offline: string,
          sofar: Option<Subcluster>): Option<Subcluster> {
    if names == [] then sofar
    else
      match Lookup(scs, names[0])
      case None => PickNamed(scs, names[1..], offline, sofar)
      case Some(sc) => if names[0] != offline then Some(sc) else PickNamed(scs, names[1..], offline, Some(sc))
  }

  function FirstSecondary(scs: seq<Subcluster>): (r: Option<Subcluster>)
    ensures r.Some? ==> r.value in scs && !r.value.isPrimary
    ensures r.None? ==> forall sc | sc in scs :: sc.isPrimary
  {
    if scs == [] then None else if !scs[0].isPrimary then Some(scs[0]) else FirstSecondary(scs[1..])
  }

  function FirstOther(scs: seq<Subcluster>, name: string): (r: Option<Subcluster>)
    ensures r.Some? ==> r.value in scs && r.value.name != name
    ensures r.None? ==> forall sc | sc in scs :: sc.name == name
  {
    if scs == [] then None else if scs[0].name != name then Some(scs[0]) else FirstOther(scs[1..], name)
  }

  function PickDefault(scs: seq<Subcluster>, offline: Subcluster): Option<Subcluster> {
    if offline.isPrimary then
      match FirstSecondary(scs)
      case Some(sc) => Some(sc)
      case None => if scs == [] then None else Some(scs[0])
    else FirstOther(scs, offline.name)
  }

  function TemporaryRouting(cfg: Config, st: State, offline: Subcluster): Option<Subcluster> {
    match st.transientSc
    case Some(t) => if FindSts(st.stss, t.name).Some? then Some(t) else None
    case None =>
      if cfg.routingNames == [] then PickDefault(st.subclusters, offline)
      else PickNamed(st.subclusters, cfg.routingNames, offline.name, None)
  }

  /** routeClientTraffic; None is its error for a subcluster that is not in the spec. */
  function RouteTraffic(cfg: Config, st: State, name: string, temporary: bool): Option<State> {
    match Lookup(st.subclusters, name)
    case None => None
    case Some(sc) =>
      var svc := ServiceOf(sc);
      if svc !in st.services then Some(st)
      else if !temporary then Some(st.(services := st.services[svc := ByService(svc)]))
      else
        match TemporaryRouting(cfg, st, sc)
        case None => Some(st)
        case Some(r) => Some(st.(services := st.services[svc := BySubcluster(r.name)]))
  }

  // ---------------------------------------------------------------- status messages

  const FIRST_MESSAGES: seq<string> := [
    "Creating transient secondary subcluster",
    "Draining primary subclusters",
    "Recreating pods for primary subclusters",
    "Checking if new version is compatible",
    "Adding annotations to pods",
    "Running installer",
    "Waiting for secondary nodes to become read-only",
    "Restarting vertica in primary subclusters"
  ]

  const LAST_MESSAGE := "Destroying transient secondary subcluster"

  function MessagesFor(sc: string): seq<string> {
    [ "Draining secondary subcluster '" + sc + "'",
      "Recreating pods for secondary subcluster '" + sc + "'",
      "Restarting vertica in secondary subcluster '" + sc + "'" ]
  }

  function SecondaryMessages(secondaries: seq<string>): (r: seq<string>)
    ensures |r| == 3 * |secondaries|
  {
    if secondaries == [] then []
    else SecondaryMessages(secondaries[..|secondaries| - 1]) + MessagesFor(secondaries[|secondaries| - 1])
  }

  function Messages(secondaries: seq<string>): (r: seq<string>)
    ensures |r| == 9 + 3 * |secondaries|
  {
    FIRST_MESSAGES + SecondaryMessages(secondaries) + [LAST_MESSAGE]
  }

  /** UpgradeManager.postNextStatusMsg; None is the out-of-bounds error. */
  function PostMessage(status: string, msgs: seq<string>, msgIndex: int): Option<string> {
    if msgIndex >= |msgs| then None
    else if msgIndex == 0 then Some(if status == "" then msgs[0] else status)
    else Some(if msgIndex > 0 && status in msgs[..msgIndex] then msgs[msgIndex] else status)
  }

  // ---------------------------------------------------------------- operations

  function ExecAddTransient(cfg: Config, st: State, up: bool): Option<State> {
    if st.transientSc.Some? || SkipTransientSetup(cfg, st, up) then Some(st)
    else
      match FetchOldImage(st.primaryImages, cfg.image)
      case None => None
      case Some(oldImage) =>
        match FindTransient(st.subclusters)
        case Some(other) => Some(st.(transientSc := Some(other)))
        case None =>
          var t := BuildTransient(cfg, oldImage);
          Some(st.(subclusters := st.subclusters + [t], transientSc := Some(t)))
  }

  function ExecCreateTransientSts(cfg: Config, st: State, up: bool): Option<State> {
    if SkipTransientSetup(cfg, st, up) then Some(st)
    else
      match st.transientSc
      case None => None
      case Some(t) =>
        if FindSts(st.stss, t.name).Some? then Some(st)
        else Some(st.(stss := Inserted(st.stss, NewSts(cfg, t))))
  }

  /** checkForCreatedSubcluster: the service, and then the statefulset. */
  function ExecReconcileSvc(cfg: Config, st: State, name: string): State {
    match Lookup(st.subclusters, name)
    case None => st
    case Some(sc) =>
      if sc.isTransient then st else st.(services := st.services[ServiceOf(sc) := ByService(ServiceOf(sc))])
  }

  function ExecReconcileSts(cfg: Config, st: State, name: string): State {
    match Lookup(st.subclusters, name)
    case None => st
    case Some(sc) =>
      if FindSts(st.stss, name).Some? then st else st.(stss := Inserted(st.stss, NewSts(cfg, sc)))
  }

  /** One function call of the pass; None means it returns an error. */
  function Exec(cfg: Config, op: Op, st: State): Option<State> {
    match op
    case Start => Some(st.(inProgress := true))
    case Load => Some(st.(transientSc := FindTransient(st.subclusters), primaryImages := PrimaryImages(st.stss)))
    case Precompute => Some(st.(statusMsgs := Messages(NamesOf(st.stss, false)), msgIndex := -1))
    case Post =>
      (match PostMessage(st.upgradeStatus, st.statusMsgs, st.msgIndex + 1)
       case None => None
       case Some(status) => Some(st.(msgIndex := st.msgIndex + 1, upgradeStatus := status)))
    case AddTransient(up) => ExecAddTransient(cfg, st, up)
    case CreateTransientSts(up) => ExecCreateTransientSts(cfg, st, up)
    case Drain(sc) =>
      (match FindSts(st.stss, sc)
       case Some(s) => if s.image != cfg.image then RouteTraffic(cfg, st, sc, true) else Some(st)
       case None => Some(st))
    case Recreate(sc) => Some(st.(stss := WithImage(st.stss, sc, cfg.image)))
    case BringOnline(sc) => RouteTraffic(cfg, st, sc, false)
    case RemoveTransient =>
      if !RequiresTransient(cfg) || FindTransient(st.subclusters).None? then Some(st)
      else Some(st.(subclusters := NonTransient(st.subclusters), transientSc := None))
    case ReconcileSvc(sc) => Some(if RequiresTransient(cfg) then ExecReconcileSvc(cfg, st, sc) else st)
    case ReconcileSts(sc) => Some(if RequiresTransient(cfg) then ExecReconcileSts(cfg, st, sc) else st)
    case DeleteGone =>
      if RequiresTransient(cfg) then Some(st.(stss := Kept(st.stss, ScNames(st.subclusters)))) else Some(st)
    case ClearStatus => Some(st.(upgradeStatus := ""))
    case Finish => Some(st.(inProgress := false))
    case Other => Some(st)
  }

  function ExecAll(cfg: Config, ops: seq<Op>, st: State): Option<State> {
    if ops == [] then Some(st)
    else
      match ExecAll(cfg, ops[..|ops| - 1], st)
      case None => None
      case Some(mid) => Exec(cfg, ops[|ops| - 1], mid)
  }

  // ---------------------------------------------------------------- the plan of a pass

  datatype StsFunc = DrainFn | RecreateFn | OnlineFn | OtherFn

  function ForSts(fn: StsFunc, sc: string): Op {
    match fn
    case DrainFn => Drain(sc)
    case RecreateFn => Recreate(sc)
    case OnlineFn => BringOnline(sc)
    case OtherFn => Other
  }

  /** The functions restartPrimaries runs, each over all primaries before the next. */
  const PRIMARY_FUNCS: seq<StsFunc> := [
    DrainFn,      // drainSubcluster
    RecreateFn,   // recreateSubclusterWithNewImage
    OtherFn,      // checkVersion
    OtherFn,      // addPodAnnotations
    OtherFn,      // runInstaller
    OtherFn,      // waitForReadOnly
    OnlineFn      // bringSubclusterOnline
  ]

  function ForEach(fn: StsFunc, names: seq<string>): (r: seq<Op>)
    ensures |r| == |names| && forall i | 0 <= i < |names| :: r[i] == ForSts(fn, names[i])
  {
    seq(|names|, i requires 0 <= i < |names| => ForSts(fn, names[i]))
  }

  function PrimaryPhase(fns: seq<StsFunc>, primaries: seq<string>): seq<Op> {
    if fns == [] then []
    else PrimaryPhase(fns[..|fns| - 1], primaries) + [Post] + ForEach(fns[|fns| - 1], primaries)
  }

  /** processSecondary */
  function SecondaryOps(sc: string): seq<Op> {
    [Post, Drain(sc), Post, Recreate(sc), Post, Other, Other, BringOnline(sc)]
  }

  function SecondaryPhase(secondaries: seq<string>): seq<Op> {
    if secondaries == [] then []
    else SecondaryPhase(secondaries[..|secondaries| - 1]) + SecondaryOps(secondaries[|secondaries| - 1])
  }

  /** The functions before restartPrimaries.  Whether a node is up and writable is asked twice. */
  function SetupPhase(upAdd: bool, upCreate: bool): seq<Op> {
    [Start, Load, Precompute, Post, AddTransient(upAdd), CreateTransientSts(upCreate), Other, Other, Other, Other, Other]
  }

  function ReconcileAll(names: seq<string>): (r: seq<Op>)
    ensures |r| == 2 * |names|
    ensures forall op | op in r :: (op.ReconcileSvc? || op.ReconcileSts?) && op.sc in names
  {
    if names == [] then []
    else
      var n := |names| - 1;
      ReconcileAll(names[..n]) + [ReconcileSvc(names[n]), ReconcileSts(names[n])]
  }

  function CleanupPhase(names: seq<string>): seq<Op> {
    [Post, RemoveTransient, Other, Other, Other] + ReconcileAll(names) + [DeleteGone, ClearStatus, Finish]
  }

  function Plan(st: State, upAdd: bool, upCreate: bool): seq<Op> {
    SetupPhase(upAdd, upCreate)
    + PrimaryPhase(PRIMARY_FUNCS, NamesOf(st.stss, true))
    + SecondaryPhase(NamesOf(st.stss, false))
    + CleanupPhase(ScNames(NonTransient(st.subclusters)))
  }

  /** A new reconciler knows nothing yet. */
  function FreshPass(st: State): State {
    st.(transientSc := None, primaryImages := [], statusMsgs := [], msgIndex := 0)
  }

  predicate UpgradeNeeded(cfg: Config, st: State) {
    && !cfg.scheduleOnly
    && (st.inProgress ||
        (cfg.onlineAllowed && exists s :: s in st.stss && s.name in ScNames(st.subclusters) && s.image != cfg.image))
  }

  /** st' is where a pass that starts in st ends when it executes k operations of its plan. */
  predicate PassEnds(cfg: Config, st: State, upAdd: bool, upCreate: bool, k: nat, st': State) {
    if UpgradeNeeded(cfg, st) then
      && k <= |Plan(st, upAdd, upCreate)|
      && ExecAll(cfg, Plan(st, upAdd, upCreate)[..k], FreshPass(st)) == Some(st')
    else st' == st
  }

  predicate PassCompletes(cfg: Config, st: State, upAdd: bool, upCreate: bool, st': State) {
    UpgradeNeeded(cfg, st) && PassEnds(cfg, st, upAdd, upCreate, |Plan(st, upAdd, upCreate)|, st')
  }
}
