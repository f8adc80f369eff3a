/** Pods from install to removal (pkg/controllers/vdb/verticadb_controller.go:133-205 and the actors
    it lists).  A world holds, per subcluster, what is true (statefulset replicas, admintools.conf
    entries with their node numbers, install indicators, pods with the database, running pods) and what the operator
    believes (counts in the status, cached pod facts).  Actors run in a fixed order, with the checks
    and requeues that end a pass; a pass may also abort anywhere, pods start and stop at any time,
    and the spec changes whenever no actor is in the middle of its subclusters.

    Facts about a pod that is not running are rebuilt from the counts in the status, so the gate
    that guards scale-down is only as good as those counts. */
module ScaleDown {
  import opened Text
  import opened PodFacts

  const NEW_SUB := Sub(None, None, map[], {}, map[], {}, 0, 0, [], [])

  // ---------------------------------------------------------------- what the actors select

  /** findPodsSuitableForScaleDown of the uninstall actor, from pod i on. */
  function UninstallFrom(s: Sub, i: nat): (r: seq<nat>)
    decreases Replicas(s) - i
  {
    if i >= Replicas(s) then []
    else
      var rest := UninstallFrom(s, i + 1);
      if i < |s.facts| && s.facts[i].installed && s.facts[i].running && !s.facts[i].db then [i] + rest else rest
  }

  function UninstallTargets(s: Sub): seq<nat> {
    UninstallFrom(s, Size(s))
  }

  /** findPodsSuitableForScaleDown of db_remove_node, from pod i on. */
  function RemoveNodeFrom(s: Sub, i: nat): (r: seq<nat>)
    decreases Replicas(s) - i
  {
    if i >= Replicas(s) then []
    else
      var rest := RemoveNodeFrom(s, i + 1);
      if i < |s.facts| && s.facts[i].db && s.facts[i].running then [i] + rest else rest
  }

  function RemoveTargets(s: Sub): seq<nat> {
    RemoveNodeFrom(s, Size(s))
  }

  /** Of the pods in the range, some is unknown or stays installed: the uninstall asks for a requeue. */
  predicate StaysInstalled(s: Sub, pods: seq<nat>, i: nat) {
    i >= |s.facts| || (s.facts[i].installed && i !in pods)
  }

  predicate KeepsSomeInstalled(s: Sub) {
    exists i :: Size(s) <= i < Replicas(s) && StaysInstalled(s, UninstallTargets(s), i)
  }

  /** Of the pods in the range, some is unknown or keeps its database. */
  predicate KeepsDb(s: Sub, pods: seq<nat>, i: nat) {
    i >= |s.facts| || (s.facts[i].db && i !in pods)
  }

  predicate KeepsSomeDb(s: Sub) {
    exists i :: Size(s) <= i < Replicas(s) && KeepsDb(s, RemoveTargets(s), i)
  }

  /** getInstallTargets for one subcluster, from pod i on. */
  function InstallFrom(s: Sub, i: nat): (r: seq<nat>)
    decreases Size(s) - i
  {
    if i >= Size(s) || i >= |s.facts| then []
    else if s.facts[i].installed || s.facts[i].db then InstallFrom(s, i + 1)
    else if !s.facts[i].running then []
    else [i] + InstallFrom(s, i + 1)
  }

  function InstallTargets(s: Sub): seq<nat> {
    InstallFrom(s, s.installCount)
  }

  /** As far as the facts go, the pod has neither an admintools.conf entry nor the database. */
  predicate Clear(s: Sub, i: nat) {
    i < |s.facts| && !s.facts[i].installed && !s.facts[i].db
  }

  /** checkForOrphanAdmintoolsConfEntries lets the statefulset go down to `size` pods. */
  predicate Gate(s: Sub, size: nat) {
    forall i | size <= i < Replicas(s) :: Clear(s, i)
  }

  // ---------------------------------------------------------------- by the facts alone

  /** A pod of the range can be uninstalled, or has to be and cannot. */
  predicate CanUninstallPod(s: Sub, i: nat) {
    i < |s.facts| && s.facts[i].installed && s.facts[i].running && !s.facts[i].db
  }

  predicate CannotUninstallPod(s: Sub, i: nat) {
    i >= |s.facts| || (s.facts[i].installed && (!s.facts[i].running || s.facts[i].db))
  }

  /** It can lose its database, or has to and cannot. */
  predicate CanRemovePod(s: Sub, i: nat) {
    i < |s.facts| && s.facts[i].db && s.facts[i].running
  }

  predicate CannotRemovePod(s: Sub, i: nat) {
    i >= |s.facts| || (s.facts[i].db && !s.facts[i].running)
  }

  /** It is not installed, and every pod from `from` up to it is known and is installed or runs. */
  predicate CanInstallPod(s: Sub, from: nat, i: nat) {
    && from <= i < Size(s) && i < |s.facts| && !s.facts[i].installed && !s.facts[i].db
    && forall j | from <= j <= i :: s.facts[j].installed || s.facts[j].db || s.facts[j].running
  }

  ghost predicate Ascending(pods: seq<nat>) {
    forall a, b | 0 <= a < b < |pods| :: pods[a] < pods[b]
  }

  lemma AscendingMore(i: nat, rest: seq<nat>)
    requires Ascending(rest) && forall k | k in rest :: i < k
    ensures Ascending([i] + rest)
  {
    assert forall a | 0 <= a < |rest| :: rest[a] in rest;
  }

  lemma {:induction false} UninstallIs(s: Sub, i: nat)
    ensures forall k :: k in UninstallFrom(s, i) <==> i <= k < Replicas(s) && CanUninstallPod(s, k)
    ensures Ascending(UninstallFrom(s, i))
    decreases Replicas(s) - i
  {
    if i < Replicas(s) {
      UninstallIs(s, i + 1);
      AscendingMore(i, UninstallFrom(s, i + 1));
    }
  }

  lemma {:induction false} RemoveIs(s: Sub, i: nat)
    ensures forall k :: k in RemoveNodeFrom(s, i) <==> i <= k < Replicas(s) && CanRemovePod(s, k)
    ensures Ascending(RemoveNodeFrom(s, i))
    decreases Replicas(s) - i
  {
    if i < Replicas(s) {
      RemoveIs(s, i + 1);
      AscendingMore(i, RemoveNodeFrom(s, i + 1));
    }
  }

  lemma {:induction false} InstallIs(s: Sub, i: nat)
    ensures forall k :: k in InstallFrom(s, i) <==> CanInstallPod(s, i, k)
    ensures Ascending(InstallFrom(s, i))
    decreases Size(s) - i
  {
    if i < Size(s) && i < |s.facts| {
      InstallIs(s, i + 1);
      var ok := s.facts[i].installed || s.facts[i].db || s.facts[i].running;
      assert forall k: nat | k > i && ok :: CanInstallPod(s, i, k) <==> CanInstallPod(s, i + 1, k);
      assert forall k: nat | !ok :: !CanInstallPod(s, i, k);
      AscendingMore(i, InstallFrom(s, i + 1));
    }
  }

  /** A requeue of the uninstall and of db_remove_node, by the facts alone. */
  lemma RequeuesExact(s: Sub)
    ensures KeepsSomeInstalled(s) <==> exists i :: Size(s) <= i < Replicas(s) && CannotUninstallPod(s, i)
    ensures KeepsSomeDb(s) <==> exists i :: Size(s) <= i < Replicas(s) && CannotRemovePod(s, i)
  {
    UninstallIs(s, Size(s));
    RemoveIs(s, Size(s));
    forall i | Size(s) <= i < Replicas(s)
      ensures StaysInstalled(s, UninstallTargets(s), i) <==> CannotUninstallPod(s, i)
      ensures KeepsDb(s, RemoveTargets(s), i) <==> CannotRemovePod(s, i)
    {
    }
  }

  // ---------------------------------------------------------------- changes to one subcluster

  /** Node numbers are handed out in the order of the targets, from base + 1. */
  function Numbered(nodes: map<nat, nat>, targets: seq<nat>, base: nat): map<nat, nat>
    decreases |targets|
  {
    if targets == [] then nodes
    else Numbered(nodes[targets[0] := base + 1], targets[1..], base + 1)
  }

  function InstalledInto(s: Sub, base: nat): Sub {
    s.(nodes := Numbered(s.nodes, InstallTargets(s), base), marks := s.marks + (set i | i in InstallTargets(s)))
  }

  function WithoutDb(s: Sub): Sub {
    s.(db := map i | i in s.db && i !in RemoveTargets(s) :: s.db[i])
  }

  function Uninstalled(s: Sub): Sub {
    s.(nodes := map i | i in s.nodes && i !in UninstallTargets(s) :: s.nodes[i],
       marks := s.marks - (set i | i in UninstallTargets(s)))
  }

  /** The statefulset gets `size` pods; pods beyond that are gone. */
  function Resized(s: Sub, size: nat): Sub {
    s.(sts := Some(size), running := set i | i in s.running && i < size)
  }

  function Deleted(s: Sub): Sub {
    s.(sts := None, running := {})
  }

  // ---------------------------------------------------------------- the machine

  datatype Actor =
    | Status
    | UpgradeSetup | UpgradeInstall | UpgradeUninstall | UpgradeObjs   // what the two upgrades do to pods
    | CreateMissing | Restart | RemoveSubcluster | RemoveNode | Uninstall | ObjAll | Install | CreateDb | AddNode

  const ACTORS: seq<Actor> := [
    Status, UpgradeSetup, UpgradeInstall, UpgradeUninstall, UpgradeObjs, CreateMissing, Restart, Status,
    RemoveSubcluster, Status, RemoveNode, Status, Uninstall, Status, ObjAll, Install, Status, CreateDb, Status,
    AddNode, Status
  ]

  /** The cached facts: to be collected again, collected, or emptied by a collection that failed
      without telling. */
  datatype Cache = Stale | Fresh | Failed

  /** `done` and `open` belong to the actor at pc: the subclusters it has handled, and whether it has
      passed the checks at its start. */
  datatype World = World(subs: map<string, Sub>, cache: Cache, pc: nat, done: set<string>, open: bool)

  datatype Event =
    | Edit(name: string, want: Option<nat>)
    | PodStarts(name: string, pod: nat)
    | PodStops(name: string, pod: nat)
    | Abort
    | Invalidate
    | Gather
    | GatherFails
    | Next
    | Enter
    | Refresh
    | CreateSts(name: string)
    | LoseDb(name: string, pods: set<nat>)
    | DoRemoveNode(name: string)
    | DoUninstall(name: string)
    | UninstallFails(name: string, kept: set<nat>)                          // these keep their indicators
    | Resize(name: string)
    | Delete(name: string)
    | DoInstall(order: seq<string>, base: nat)
    | InstallFails(order: seq<string>, base: nat, lost: map<string, set<nat>>)   // these get none
    | GainDb(name: string, vnodes: map<nat, string>)

  predicate At(w: World, a: Actor) {
    w.pc < |ACTORS| && ACTORS[w.pc] == a
  }

  predicate AtUninstall(w: World) {
    At(w, Uninstall) || At(w, UpgradeUninstall)
  }

  predicate AtObjs(w: World) {
    At(w, ObjAll) || At(w, UpgradeObjs)
  }

  predicate AtInstall(w: World) {
    At(w, Install) || At(w, UpgradeInstall)
  }

  function SubOf(w: World, name: string): Sub {
    if name in w.subs then w.subs[name] else NEW_SUB
  }

  function With(w: World, name: string, s: Sub): World {
    w.(subs := w.subs[name := s])
  }

  /** The pass ends; the next one starts over with new facts. */
  function Over(w: World): World {
    w.(cache := Stale, pc := 0, done := {}, open := false)
  }

  function Moved(w: World): World {
    w.(pc := w.pc + 1, done := {}, open := false)
  }

  /** One subcluster has been handled; a requeue ends the pass after the fact. */
  function Handled(w: World, name: string, s: Sub, changed: bool, requeue: bool): World {
    var w' := With(w, name, s).(cache := if changed then Stale else w.cache, done := w.done + {name});
    if requeue then Over(w') else w'
  }

  /** Installed pods, as far as the facts go, are running. */
  predicate Quiet(s: Sub) {
    forall i | 0 <= i < |s.facts| :: s.facts[i].installed ==> s.facts[i].running
  }

  /** The guard of the uninstall and install actors: anyInstalledPodsNotRunning. */
  predicate NoneDown(w: World) {
    forall n | n in w.subs :: Quiet(w.subs[n])
  }

  predicate ToShrink(s: Sub) {
    Replicas(s) > Size(s)
  }

  /** The actor at pc has handled everything it has to and has not asked for a requeue.  The parts of
      an upgrade may be passed, as without one.  Restart is there for what it does to the facts; with
      automatic restart switched off it does nothing. */
  predicate Finished(w: World) {
    && w.pc < |ACTORS|
    && match ACTORS[w.pc]
       case Status => false
       case Install => false
       case CreateMissing => forall n | n in w.subs :: w.subs[n].want.Some? ==> w.subs[n].sts.Some?
       case RemoveNode => forall n | n in w.subs :: w.subs[n].want.Some? && ToShrink(w.subs[n]) ==> n in w.done
       case Uninstall => w.open && forall n | n in w.subs :: ToShrink(w.subs[n]) ==> n in w.done
       case ObjAll => w.open && forall n | n in w.subs :: if w.subs[n].want.Some? then n in w.done else w.subs[n].sts.None?
       case _ => true
  }

  function InstallAll(subs: map<string, Sub>, order: seq<string>, base: nat): map<string, Sub>
    requires forall n | n in order :: n in subs
    decreases |order|
  {
    if order == [] then subs
    else
      var s := subs[order[0]];
      InstallAll(subs[order[0] := InstalledInto(s, base)], order[1..], base + |InstallTargets(s)|)
  }

  predicate CanUninstall(w: World, name: string) {
    && AtUninstall(w) && w.open && !w.cache.Stale? && name in w.subs && name !in w.done && ToShrink(w.subs[name])
    && forall i | i in UninstallTargets(w.subs[name]) :: i in w.subs[name].running
  }

  predicate CanInstall(w: World, order: seq<string>, base: nat) {
    && AtInstall(w) && !w.cache.Stale? && NoneDown(w)
    && (forall i, j | 0 <= i < j < |order| :: order[i] != order[j])
    && (forall n | n in order :: n in w.subs && w.subs[n].want.Some?)
    && (forall n | n in w.subs :: w.subs[n].want.Some? ==> n in order)
    && (forall n | n in order :: forall i | i in InstallTargets(w.subs[n]) :: i in w.subs[n].running)
    && (forall n | n in w.subs :: forall i | i in w.subs[n].nodes :: w.subs[n].nodes[i] <= base)
  }

  predicate Enabled(w: World, e: Event) {
    match e
    case Edit(name, want) => !w.open && w.done == {}
    case PodStarts(name, pod) => name in w.subs && pod < Replicas(w.subs[name])
    case PodStops(name, pod) => name in w.subs && pod in w.subs[name].running
    case Abort => true
    case Invalidate =>
      || At(w, UpgradeSetup) || At(w, UpgradeInstall) || At(w, CreateMissing) || At(w, Restart)
      || (AtObjs(w) && w.open) || At(w, CreateDb) || At(w, AddNode)
    case Gather => !w.cache.Fresh? && !(AtObjs(w) && w.open)
    case GatherFails => !w.cache.Fresh? && !(AtObjs(w) && w.open)
    case Next => Finished(w)
    case Enter => !w.open && !w.cache.Stale? && ((AtUninstall(w) && NoneDown(w)) || AtObjs(w))
    case Refresh => At(w, Status) && !w.cache.Stale?
    case CreateSts(name) =>
      && (At(w, UpgradeSetup) || At(w, CreateMissing) || (AtObjs(w) && w.open))
      && name in w.subs && w.subs[name].want.Some? && w.subs[name].sts.None?
    case LoseDb(name, pods) =>
      && (At(w, RemoveSubcluster) || (At(w, UpgradeUninstall) && !w.open))
      && name in w.subs && w.subs[name].want.None?
    case DoRemoveNode(name) =>
      && At(w, RemoveNode) && !w.cache.Stale? && name in w.subs && name !in w.done
      && w.subs[name].want.Some? && ToShrink(w.subs[name])
    case DoUninstall(name) => CanUninstall(w, name)
    case UninstallFails(name, kept) =>
      CanUninstall(w, name) && kept != {} && forall i | i in kept :: i in UninstallTargets(w.subs[name])
    case Resize(name) =>
      && (At(w, UpgradeSetup) || (AtObjs(w) && w.open)) && name in w.subs && name !in w.done
      && w.subs[name].want.Some? && w.subs[name].sts.Some? && Gate(w.subs[name], Size(w.subs[name]))
    case Delete(name) =>
      && AtObjs(w) && w.open && name in w.subs
      && w.subs[name].want.None? && w.subs[name].sts.Some? && Gate(w.subs[name], 0)
    case DoInstall(order, base) => CanInstall(w, order, base)
    case InstallFails(order, base, lost) =>
      && CanInstall(w, order, base) && lost != map[]
      && forall n | n in lost :: n in order && lost[n] != {} && forall i | i in lost[n] :: i in InstallTargets(w.subs[n])
    case GainDb(name, vnodes) =>
      && (At(w, UpgradeInstall) || At(w, CreateDb) || At(w, AddNode)) && name in w.subs
      && vnodes.Keys <= w.subs[name].nodes.Keys
  }

  function Apply(w: World, e: Event): World
    requires Enabled(w, e)
  {
    match e
    case Edit(name, want) => With(w, name, SubOf(w, name).(want := want))
    case PodStarts(name, pod) => With(w, name, w.subs[name].(running := w.subs[name].running + {pod}))
    case PodStops(name, pod) => With(w, name, w.subs[name].(running := w.subs[name].running - {pod}))
    case Abort => Over(w)
    case Invalidate => w.(cache := Stale)
    case Gather => w.(subs := map n | n in w.subs :: Collected(w.subs[n]), cache := Fresh)
    case GatherFails => w.(subs := map n | n in w.subs :: w.subs[n].(facts := []), cache := Failed)
    case Next => Moved(w)
    case Enter => w.(open := true)
    case Refresh => Moved(w.(subs := map n | n in w.subs :: Refreshed(w.subs[n])))
    case CreateSts(name) => Handled(w, name, w.subs[name].(sts := Some(Size(w.subs[name]))), true, false)
    case LoseDb(name, pods) => With(w, name, w.subs[name].(db := w.subs[name].db - pods))
    case DoRemoveNode(name) =>
      var s := w.subs[name];
      Handled(w, name, WithoutDb(s), RemoveTargets(s) != [], KeepsSomeDb(s))
    case DoUninstall(name) =>
      var s := w.subs[name];
      Handled(w, name, Uninstalled(s), UninstallTargets(s) != [], KeepsSomeInstalled(s))
    case UninstallFails(name, kept) =>
      var s := Uninstalled(w.subs[name]);
      Over(With(w, name, s.(marks := s.marks + kept)))
    case Resize(name) =>
      var s := w.subs[name];
      Handled(w, name, Resized(s, Size(s)), s.sts != Some(Size(s)), false)
    case Delete(name) => With(w, name, Deleted(w.subs[name]))
    case DoInstall(order, base) =>
      var subs' := InstallAll(w.subs, order, base);
      var w' := w.(subs := subs', cache := if subs' == w.subs then w.cache else Stale);
      if At(w, Install) then Moved(w') else w'
    case InstallFails(order, base, lost) =>
      var subs' := InstallAll(w.subs, order, base);
      Over(w.(subs := map n | n in subs' :: if n in lost then subs'[n].(marks := subs'[n].marks - lost[n]) else subs'[n]))
    case GainDb(name, vnodes) =>
      With(w, name, w.subs[name].(db := w.subs[name].db + vnodes)).(cache := Stale)
  }
}
