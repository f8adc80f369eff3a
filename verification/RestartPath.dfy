/** Which way a restart goes after the online upgrade has waited for read-only
    (pkg/controllers/vdb/onlineupgrade_reconciler.go:484-509, restart_reconcile.go, podfacts.go). */
module RestartPath {
  import opened Text
  import opened Version

  datatype PodFact = PodFact(
    isPrimary: bool, isTransient: bool, running: bool, managedByParent: bool, installed: bool,
    dbExists: bool, upNode: bool, readOnly: bool, hasAnnotations: bool, image: string, podIP: string)

  type Detail = map<string, PodFact>

  /** A node can only be up where there is a running pod with a database. */
  ghost predicate Collected(d: Detail) {
    forall k | k in d :: d[k].upNode ==> d[k].running && d[k].dbExists
  }

  // ---------------------------------------------------------------- counting and filtering

  ghost function Chosen(d: Detail, f: PodFact -> bool): set<string> {
    set k | k in d && f(d[k])
  }

  ghost function ChosenIn(d: Detail, f: PodFact -> bool, keys: set<string>): set<string> {
    set k | k in keys && k in d && f(d[k])
  }

  lemma ChosenMore(d: Detail, f: PodFact -> bool, keys: set<string>, k: string)
    requires k in d && k !in keys
    ensures |ChosenIn(d, f, keys + {k})| == |ChosenIn(d, f, keys)| + if f(d[k]) then 1 else 0
  {
    var was := ChosenIn(d, f, keys);
    assert ChosenIn(d, f, keys + {k}) == if f(d[k]) then was + {k} else was;
  }

  lemma ChosenAll(d: Detail, f: PodFact -> bool)
    ensures ChosenIn(d, f, {}) == {} && ChosenIn(d, f, d.Keys) == Chosen(d, f)
  {
  }

  /** countPods: walks the map in any order. */
  method CountPods(d: Detail, f: PodFact -> bool) returns (count: nat)
    ensures count == |Chosen(d, f)|
  {
    hide ChosenIn, Chosen;
    count := 0;
    var keys := d.Keys;
    ghost var seen: set<string> := {};
    ChosenAll(d, f);
    while keys != {}
      invariant seen !! keys && seen + keys == d.Keys
      invariant count == |ChosenIn(d, f, seen)|
    {
      var k :| k in keys;
      ChosenMore(d, f, seen, k);
      if f(d[k]) {
        count := count + 1;
      }
      keys, seen := keys - {k}, seen + {k};
    }
    assert seen == d.Keys;
  }

  /** filterPods: the chosen pods, each once, in any order. */
  method FilterPods(d: Detail, f: PodFact -> bool) returns (pods: seq<string>)
    ensures forall k :: k in pods <==> k in d && f(d[k])
    ensures forall i, j | 0 <= i < j < |pods| :: pods[i] != pods[j]
  {
    pods := [];
    var keys := d.Keys;
    while keys != {}
      invariant keys <= d.Keys
      invariant forall k :: k in pods <==> k in d && k !in keys && f(d[k])
      invariant forall i, j | 0 <= i < j < |pods| :: pods[i] != pods[j]
    {
      var k :| k in keys;
      if f(d[k]) {
        pods := pods + [k];
      }
      keys := keys - {k};
    }
  }

  lemma NoneChosen(d: Detail, f: PodFact -> bool)
    ensures |Chosen(d, f)| == 0 <==> forall k | k in d :: !f(d[k])
  {
    if |Chosen(d, f)| == 0 {
      forall k | k in d
        ensures !f(d[k])
      {
        assert k !in Chosen(d, f);
      }
    } else {
      var k :| k in Chosen(d, f);
    }
  }

  predicate UpPrimary(v: PodFact) {
    v.upNode && v.isPrimary
  }

  predicate WritableWithOldImage(v: PodFact, newImage: string) {
    v.running && v.upNode && !v.readOnly && v.image != newImage
  }

  predicate UpAndWritable(v: PodFact) {
    v.upNode && !v.readOnly
  }

  predicate RunningAndInstalled(v: PodFact) {
    v.running && v.installed
  }

  predicate InstalledNotRestartable(v: PodFact) {
    v.installed && v.managedByParent && (!v.running || !v.hasAnnotations)
  }

  predicate NotAllIdle(v: PodFact) {
    (!v.running && v.managedByParent) || v.installed
  }

  predicate HasDb(v: PodFact) {
    v.dbExists
  }

  predicate OfflineAdmintools(v: PodFact) {
    v.installed && v.running && !v.upNode
  }

  predicate Restartable(v: PodFact, restartReadOnly: bool, restartTransient: bool) {
    && (restartTransient || !v.isTransient)
    && (!v.upNode || (restartReadOnly && v.readOnly)) && v.dbExists && v.running && v.hasAnnotations
  }

  // ---------------------------------------------------------------- waiting for read-only

  ghost predicate NoPrimaryUp(d: Detail) {
    forall k | k in d :: !UpPrimary(d[k])
  }

  /** Every node that is up on the old image is read-only. */
  ghost predicate OldImageReadOnly(d: Detail, newImage: string) {
    forall k | k in d :: !WritableWithOldImage(d[k], newImage)
  }

  method WaitForReadOnly(d: Detail, newImage: string) returns (done: bool)
    ensures done <==> !NoPrimaryUp(d) || OldImageReadOnly(d, newImage)
    ensures done <==>
              || (exists k :: k in d && d[k].upNode && d[k].isPrimary)
              || (forall k | k in d && d[k].running && d[k].upNode && !d[k].readOnly :: d[k].image == newImage)
  {
    var primaries := CountPods(d, UpPrimary);
    NoneChosen(d, UpPrimary);
    if primaries != 0 {
      return true;
    }
    var f := v => WritableWithOldImage(v, newImage);
    var writable := CountPods(d, f);
    NoneChosen(d, f);
    return writable == 0;
  }

  // ---------------------------------------------------------------- the restart

  /** What killing old processes and re_ip come to: either may end the pass. */
  datatype Outcome = Outcome(killedSome: bool, reipAborts: bool)

  datatype AfterKill = KilledSome | ReIpAborted | NoDatabase | StartDb(hosts: Option<seq<string>>)

  datatype Action =
    | Nodes(down: seq<string>)
    | Nothing
    | Requeue
    | Cluster(down: seq<string>, next: AfterKill)   // kill processes in these pods, then go on

  datatype Settings = Settings(
    autoRestart: bool, scheduleOnly: bool, kSafety0: bool, restartReadOnly: bool, version: Option<Components>)

  predicate TakesHostList(version: Option<Components>) {
    version.Some? && IsEqualOrNewer(version.value, START_DB_HOST_LIST_VERSION)
  }

  ghost predicate ClusterDown(d: Detail) {
    forall k | k in d :: !UpAndWritable(d[k])
  }

  /** The hosts of start_db are the pods that were killed before, by address. */
  method GenStartDBHosts(d: Detail, down: seq<string>) returns (hosts: seq<string>)
    requires forall k | k in down :: k in d
    ensures |hosts| == |down| && forall i | 0 <= i < |down| :: hosts[i] == d[down[i]].podIP
  {
    hosts := [];
    for i := 0 to |down|
      invariant |hosts| == i && forall j | 0 <= j < i :: hosts[j] == d[down[j]].podIP
    {
      hosts := hosts + [d[down[i]].podIP];
    }
  }

  /** Some running pod is installed, k-safety 0 waits for no other one, and admintools has a pod. */
  ghost predicate CanRestart(d: Detail, kSafety0: bool) {
    && (exists k :: k in d && RunningAndInstalled(d[k]))
    && (kSafety0 ==> forall k | k in d :: !InstalledNotRestartable(d[k]))
    && (exists k :: k in d && OfflineAdmintools(d[k]))
  }

  /** By the facts alone: the pod is there to be restarted, and either its node is down, or it is
      read-only and such nodes are restarted as well. */
  predicate Ready(v: PodFact) {
    v.running && v.dbExists && v.hasAnnotations
  }

  ghost predicate DownList(d: Detail, restartReadOnly: bool, withTransient: bool, down: seq<string>) {
    && (forall k | k in down ::
          && k in d && Ready(d[k]) && (withTransient || !d[k].isTransient)
          && (d[k].upNode ==> restartReadOnly && d[k].readOnly))
    && (forall k | k in d && Ready(d[k]) && (withTransient || !d[k].isTransient) ::
          (!d[k].upNode || (restartReadOnly && d[k].readOnly)) ==> k in down)
  }

  lemma RestartableIs(d: Detail, restartReadOnly: bool, withTransient: bool, down: seq<string>)
    requires forall k :: k in down <==> k in d && Restartable(d[k], restartReadOnly, withTransient)
    ensures DownList(d, restartReadOnly, withTransient, down)
  {
  }

  /** A restart of the whole cluster: which pods lose their processes, why it ends before start_db,
      and with which hosts start_db is called. */
  ghost predicate ClusterRestart(d: Detail, o: Settings, outcome: Outcome, r: Action)
    requires r.Cluster?
  {
    && (forall k :: k in r.down <==> k in d && Restartable(d[k], o.restartReadOnly, true))
    && DownList(d, o.restartReadOnly, true, r.down)
    && (r.next.KilledSome? <==> outcome.killedSome)
    && (r.next.ReIpAborted? <==> !outcome.killedSome && outcome.reipAborts)
    && (r.next.StartDb? <==> !outcome.killedSome && !outcome.reipAborts && exists k :: k in d && d[k].dbExists)
    && (r.next.StartDb? ==>
          && (r.next.hosts.Some? <==> o.version.Some? && IsEqualOrNewer(o.version.value, Components(11, 0, 1)))
          && (r.next.hosts.Some? ==> |r.next.hosts.value| == |r.down|
                                     && forall i | 0 <= i < |r.down| && r.down[i] in d :: r.next.hosts.value[i] == d[r.down[i]].podIP))
  }

  method ReconcileCluster(d: Detail, o: Settings, outcome: Outcome) returns (r: Action)
    ensures !r.Nodes?
    ensures r.Nothing? <==> forall k | k in d :: !d[k].installed && (d[k].running || !d[k].managedByParent)
    ensures r.Cluster? <==> CanRestart(d, o.kSafety0)
    ensures r.Cluster? <==>
              && (exists k :: k in d && d[k].installed && d[k].running && !d[k].upNode)
              && (o.kSafety0 ==> forall k | k in d && d[k].installed && d[k].managedByParent ::
                                   d[k].running && d[k].hasAnnotations)
    ensures r.Cluster? ==> ClusterRestart(d, o, outcome, r)
  {
    hide Chosen, ClusterRestart;
    var busy := CountPods(d, NotAllIdle);
    NoneChosen(d, NotAllIdle);
    if busy == 0 {
      return Nothing;
    }
    NoneChosen(d, RunningAndInstalled);
    NoneChosen(d, InstalledNotRestartable);
    var installed := CountPods(d, RunningAndInstalled);
    if installed == 0 {
      return Requeue;
    }
    var waiting := CountPods(d, InstalledNotRestartable);
    if o.kSafety0 && waiting > 0 {
      return Requeue;
    }
    var atPods := FilterPods(d, OfflineAdmintools);
    if |atPods| == 0 {
      return Requeue;
    }
    assert atPods[0] in atPods;
    r := KillAndStart(d, o, outcome);
  }

  method KillAndStart(d: Detail, o: Settings, outcome: Outcome) returns (r: Action)
    ensures r.Cluster? && ClusterRestart(d, o, outcome, r)
  {
    var down := FilterPods(d, v => Restartable(v, o.restartReadOnly, true));
    RestartableIs(d, o.restartReadOnly, true, down);
    if outcome.killedSome {
      return Cluster(down, KilledSome);
    }
    if outcome.reipAborts {
      return Cluster(down, ReIpAborted);
    }
    var withDb := CountPods(d, HasDb);
    NoneChosen(d, HasDb);
    if withDb == 0 {
      return Cluster(down, NoDatabase);
    }
    if !TakesHostList(o.version) {
      return Cluster(down, StartDb(None));
    }
    var hosts := GenStartDBHosts(d, down);
    return Cluster(down, StartDb(Some(hosts)));
  }

  method Reconcile(d: Detail, o: Settings, outcome: Outcome) returns (r: Action)
    ensures !o.autoRestart ==> r == Nothing
    ensures o.autoRestart ==> (r.Nodes? <==> o.scheduleOnly || exists k :: k in d && d[k].upNode && !d[k].readOnly)
    ensures r.Nodes? ==> forall k :: k in r.down <==> k in d && Restartable(d[k], o.restartReadOnly, false)
    ensures r.Nodes? ==> DownList(d, o.restartReadOnly, false, r.down)
    ensures r.Cluster? ==> CanRestart(d, o.kSafety0) && ClusterRestart(d, o, outcome, r)
  {
    if !o.autoRestart {
      return Nothing;
    }
    var writable := CountPods(d, UpAndWritable);
    NoneChosen(d, UpAndWritable);
    if writable == 0 && !o.scheduleOnly {
      r := ReconcileCluster(d, o, outcome);
    } else {
      var down := FilterPods(d, v => Restartable(v, o.restartReadOnly, false));
      RestartableIs(d, o.restartReadOnly, false, down);
      r := Nodes(down);
    }
  }

  // ---------------------------------------------------------------- the path after the wait

  /** After the wait, with no primary up, the cluster path is taken exactly when no secondary on the
      new image is up and writable. */
  lemma ClusterPathExact(d: Detail, newImage: string)
    requires Collected(d) && NoPrimaryUp(d) && OldImageReadOnly(d, newImage)
    ensures ClusterDown(d) <==> forall k | k in d && !d[k].isPrimary && d[k].image == newImage :: !UpAndWritable(d[k])
  {
  }

  /** No up node is killed or started exactly when read-only nodes are left alone, or there are none
      to restart. */
  lemma KillListExact(d: Detail, restartReadOnly: bool)
    ensures (forall k | k in d && Restartable(d[k], restartReadOnly, true) :: !d[k].upNode)
        <==> !restartReadOnly || forall k | k in d && d[k].upNode && d[k].readOnly ::
               !(d[k].dbExists && d[k].running && d[k].hasAnnotations)
  {
  }

  /** The online upgrade brings a primary online: it waits for read-only and restarts on the same
      facts, leaving read-only nodes alone.  With all primaries down and no secondary on the new
      image the restart does not go node by node, it kills no node that is up, and start_db names
      its hosts, so that it starts none that is up. */
  method WaitThenRestart(d: Detail, newImage: string, autoRestart: bool, kSafety0: bool, version: Components, outcome: Outcome)
    returns (done: bool, r: Action)
    requires Collected(d) && NoPrimaryUp(d) && IsEqualOrNewer(version, ONLINE_UPGRADE_VERSION)
    requires forall k | k in d && !d[k].isPrimary :: d[k].image != newImage
    ensures done <==> OldImageReadOnly(d, newImage)
    ensures done ==> !r.Nodes?
    ensures done && r.Cluster? ==>
              && (forall k | k in r.down :: k in d && !d[k].upNode && Ready(d[k]))
              && (forall k | k in d && !d[k].upNode && Ready(d[k]) :: k in r.down)
    ensures done && r.Cluster? && r.next.StartDb? ==>
              && r.next.hosts.Some? && |r.next.hosts.value| == |r.down|
              && forall i | 0 <= i < |r.down| && r.down[i] in d :: r.next.hosts.value[i] == d[r.down[i]].podIP
  {
    done := WaitForReadOnly(d, newImage);
    if !done {
      return false, Requeue;
    }
    ClusterPathExact(d, newImage);
    KillListExact(d, false);
    r := Reconcile(d, Settings(autoRestart, false, kSafety0, false, Some(version)), outcome);
  }
}
