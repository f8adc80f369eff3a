/** The loops of the scale-down, object and install actors, proved against the functions that the
    machine of ScaleDown uses. */
module ScaleDownActors {
  import opened Text
  import opened PodFacts
  import opened ScaleDown

  /** Some pod of the range is unknown or stays installed although it should go. */
  ghost predicate SomeStay(s: Sub, pods: seq<nat>, lo: nat, hi: nat) {
    exists i :: lo <= i < hi && StaysInstalled(s, pods, i)
  }

  lemma StayStep(s: Sub, pods: seq<nat>, lo: nat, i: nat)
    requires lo <= i
    ensures SomeStay(s, pods, lo, i + 1) <==> SomeStay(s, pods, lo, i) || StaysInstalled(s, pods, i)
    ensures !SomeStay(s, pods, lo, lo)
  {
  }

  lemma StaySame(s: Sub, pods: seq<nat>, lo: nat, i: nat)
    ensures SomeStay(s, pods + [i], lo, i) == SomeStay(s, pods, lo, i)
  {
    assert forall k: nat | k < i :: StaysInstalled(s, pods, k) == StaysInstalled(s, pods + [i], k);
  }

  lemma UninstallStep(s: Sub, pods: seq<nat>, i: nat)
    ensures i >= Replicas(s) ==> UninstallFrom(s, i) == []
    ensures i < Replicas(s) ==>
              var taken := i < |s.facts| && s.facts[i].installed && s.facts[i].running && !s.facts[i].db;
              pods + UninstallFrom(s, i) == (if taken then pods + [i] else pods) + UninstallFrom(s, i + 1)
  {
  }

  /** UninstallReconciler.findPodsSuitableForScaleDown; a requeue is asked for exactly when a pod of
      the range is unknown, or is installed and either down or has the database. */
  method FindPodsToUninstall(s: Sub) returns (pods: seq<nat>, requeue: bool)
    ensures pods == UninstallTargets(s)
    ensures requeue == KeepsSomeInstalled(s)
    ensures (forall k :: k in pods <==> Size(s) <= k < Replicas(s) && CanUninstallPod(s, k)) && Ascending(pods)
    ensures requeue <==> exists i :: Size(s) <= i < Replicas(s) && CannotUninstallPod(s, i)
  {
    hide UninstallFrom, SomeStay;
    pods, requeue := [], false;
    StayStep(s, pods, Size(s), Size(s));
    for i := Size(s) to if Size(s) <= Replicas(s) then Replicas(s) else Size(s)
      invariant pods + UninstallFrom(s, i) == UninstallTargets(s)
      invariant forall k | k in pods :: k < i
      invariant requeue == SomeStay(s, pods, Size(s), i)
    {
      UninstallStep(s, pods, i);
      StayStep(s, pods, Size(s), i);
      if i >= |s.facts| {
        requeue := true;
        continue;
      }
      if !s.facts[i].installed {
        continue;
      }
      if !s.facts[i].running {
        requeue := true;
        continue;
      }
      if s.facts[i].db {
        requeue := true;
        continue;
      }
      StaySame(s, pods, Size(s), i);
      StayStep(s, pods + [i], Size(s), i);
      pods := pods + [i];
    }
    UninstallStep(s, pods, Span(s));
    StayIs(s, pods);
    UninstallIs(s, Size(s));
    RequeuesExact(s);
  }

  lemma StayIs(s: Sub, pods: seq<nat>)
    requires pods == UninstallTargets(s)
    ensures KeepsSomeInstalled(s) == SomeStay(s, pods, Size(s), Replicas(s))
  {
  }

  /** Some pod of the range is unknown or keeps its database although it should lose it. */
  ghost predicate SomeKeep(s: Sub, pods: seq<nat>, lo: nat, hi: nat) {
    exists i :: lo <= i < hi && KeepsDb(s, pods, i)
  }

  lemma KeepStep(s: Sub, pods: seq<nat>, lo: nat, i: nat)
    requires lo <= i
    ensures SomeKeep(s, pods, lo, i + 1) <==> SomeKeep(s, pods, lo, i) || KeepsDb(s, pods, i)
    ensures !SomeKeep(s, pods, lo, lo)
  {
  }

  lemma KeepSame(s: Sub, pods: seq<nat>, lo: nat, i: nat)
    ensures SomeKeep(s, pods + [i], lo, i) == SomeKeep(s, pods, lo, i)
  {
    assert forall k: nat | k < i :: KeepsDb(s, pods, k) == KeepsDb(s, pods + [i], k);
  }

  lemma RemoveStep(s: Sub, pods: seq<nat>, i: nat)
    ensures i >= Replicas(s) ==> RemoveNodeFrom(s, i) == []
    ensures i < Replicas(s) ==>
              var taken := i < |s.facts| && s.facts[i].db && s.facts[i].running;
              pods + RemoveNodeFrom(s, i) == (if taken then pods + [i] else pods) + RemoveNodeFrom(s, i + 1)
  {
  }

  /** DBRemoveNodeReconciler.findPodsSuitableForScaleDown; a requeue is asked for exactly when a pod
      of the range is unknown, or has the database and is down. */
  method FindPodsToRemove(s: Sub) returns (pods: seq<nat>, requeue: bool)
    ensures pods == RemoveTargets(s)
    ensures requeue == KeepsSomeDb(s)
    ensures (forall k :: k in pods <==> Size(s) <= k < Replicas(s) && CanRemovePod(s, k)) && Ascending(pods)
    ensures requeue <==> exists i :: Size(s) <= i < Replicas(s) && CannotRemovePod(s, i)
  {
    hide RemoveNodeFrom, SomeKeep;
    pods, requeue := [], false;
    KeepStep(s, pods, Size(s), Size(s));
    for i := Size(s) to if Size(s) <= Replicas(s) then Replicas(s) else Size(s)
      invariant pods + RemoveNodeFrom(s, i) == RemoveNodeFrom(s, Size(s))
      invariant forall k | k in pods :: k < i
      invariant requeue == SomeKeep(s, pods, Size(s), i)
    {
      RemoveStep(s, pods, i);
      KeepStep(s, pods, Size(s), i);
      if i >= |s.facts| {
        requeue := true;
        continue;
      }
      if s.facts[i].db && !s.facts[i].running {
        requeue := true;
        continue;
      }
      if !s.facts[i].db {
        continue;
      }
      KeepSame(s, pods, Size(s), i);
      KeepStep(s, pods + [i], Size(s), i);
      pods := pods + [i];
    }
    RemoveStep(s, pods, Span(s));
    KeepIs(s, pods);
    RemoveIs(s, Size(s));
    RequeuesExact(s);
  }

  /** When db_remove_node does not ask for a requeue and the facts are right about the databases in its
      range, it leaves no pod there with the database. */
  lemma RemoveNodeClears(w: World, name: string)
    requires Enabled(w, DoRemoveNode(name)) && Apply(w, DoRemoveNode(name)).pc == w.pc
    requires forall i | Size(w.subs[name]) <= i < Replicas(w.subs[name]) && i < |w.subs[name].facts| ::
      w.subs[name].facts[i].db == (i in w.subs[name].db)
    ensures var s' := Apply(w, DoRemoveNode(name)).subs[name];
            forall i | Size(s') <= i < Replicas(s') :: i !in s'.db
  {
    hide RemoveNodeFrom, KeepsSomeDb;
    var s := w.subs[name];
    RemoveIs(s, Size(s));
    RequeuesExact(s);
    forall i | Size(s) <= i < Replicas(s)
      ensures i !in WithoutDb(s).db
    {
      assert !CannotRemovePod(s, i);
    }
  }

  /** db_remove_node is done only when it has handled every subcluster of the spec whose statefulset
      has more pods than it asks for. */
  lemma RemoveNodeCovers(w: World, name: string)
    requires w.pc < |ACTORS| && ACTORS[w.pc] == RemoveNode && Finished(w)
    requires name in w.subs && w.subs[name].sts.Some? && w.subs[name].want.Some?
    requires w.subs[name].want.value < w.subs[name].sts.value
    ensures name in w.done
  {
  }

  /** The uninstall actor is done only when it has handled every statefulset with more pods than the
      spec asks for, and every one with any pod whose subcluster is not in the spec. */
  lemma UninstallCovers(w: World, name: string)
    requires w.pc < |ACTORS| && ACTORS[w.pc] == Uninstall && Finished(w)
    requires name in w.subs && w.subs[name].sts.Some?
    requires if w.subs[name].want.Some? then w.subs[name].want.value < w.subs[name].sts.value else w.subs[name].sts.value > 0
    ensures name in w.done
  {
  }

  /** The same for the uninstall: no pod beyond the size in the spec, and no pod at all of a subcluster
      that is not in it, stays in admintools.conf. */
  lemma UninstallClears(w: World, name: string)
    requires Enabled(w, DoUninstall(name)) && Apply(w, DoUninstall(name)).pc == w.pc
    requires forall i | Size(w.subs[name]) <= i < Replicas(w.subs[name]) && i < |w.subs[name].facts| ::
      i in w.subs[name].nodes ==> w.subs[name].facts[i].installed
    ensures var s' := Apply(w, DoUninstall(name)).subs[name];
            forall i | (if s'.want.Some? then s'.want.value else 0) <= i < Replicas(s') :: i !in s'.nodes
  {
    hide UninstallFrom, KeepsSomeInstalled;
    var s := w.subs[name];
    UninstallIs(s, Size(s));
    RequeuesExact(s);
    forall i | Size(s) <= i < Replicas(s)
      ensures i !in Uninstalled(s).nodes
    {
      assert !CannotUninstallPod(s, i);
    }
  }

  lemma KeepIs(s: Sub, pods: seq<nat>)
    requires pods == RemoveTargets(s)
    ensures KeepsSomeDb(s) == SomeKeep(s, pods, Size(s), Replicas(s))
  {
  }

  datatype GateResult = Proceed | Requeue | MissingFacts

  /** checkForOrphanAdmintoolsConfEntries */
  method CheckForOrphanEntries(s: Sub, newSize: nat) returns (r: GateResult)
    ensures r.Proceed? <==> Gate(s, newSize)
    ensures r.Proceed? <==>
              || newSize >= Replicas(s)
              || (Replicas(s) <= |s.facts| && forall i | newSize <= i < Replicas(s) :: !s.facts[i].installed && !s.facts[i].db)
    ensures r.MissingFacts? ==> newSize < Replicas(s) && |s.facts| < Replicas(s)
    ensures r.Requeue? ==> exists i :: newSize <= i < Replicas(s) && i < |s.facts| && (s.facts[i].installed || s.facts[i].db)
  {
    assert forall i: nat :: Clear(s, i) <==> i < |s.facts| && !s.facts[i].installed && !s.facts[i].db;
    if newSize >= Replicas(s) {
      return Proceed;
    }
    for i := newSize to Replicas(s)
      invariant forall k | newSize <= k < i :: Clear(s, k)
    {
      if i >= |s.facts| {
        assert !Clear(s, i);
        return MissingFacts;
      }
      if s.facts[i].installed || s.facts[i].db {
        assert !Clear(s, i);
        return Requeue;
      }
    }
    assert Clear(s, Replicas(s) - 1);
    return Proceed;
  }

  /** The targets of all subclusters, in the order in which the subcluster map is walked. */
  function AllTargets(subs: map<string, Sub>, order: seq<string>): seq<(string, nat)>
    requires forall n | n in order :: n in subs
  {
    if order == [] then []
    else
      var n := |order| - 1;
      AllTargets(subs, order[..n]) + Pairs(order[n], InstallTargets(subs[order[n]]))
  }

  function Pairs(name: string, pods: seq<nat>): seq<(string, nat)> {
    seq(|pods|, i requires 0 <= i < |pods| => (name, pods[i]))
  }

  lemma TargetsStep(subs: map<string, Sub>, order: seq<string>, k: nat)
    requires k < |order| && forall n | n in order :: n in subs
    ensures forall n | n in order[..k + 1] :: n in subs
    ensures AllTargets(subs, order[..k + 1]) == AllTargets(subs, order[..k]) + Pairs(order[k], InstallTargets(subs[order[k]]))
  {
    assert order[..k + 1][..k] == order[..k];
  }

  lemma InstallStep(s: Sub, pods: seq<nat>, i: nat)
    ensures i >= Size(s) || i >= |s.facts| ==> InstallFrom(s, i) == []
    ensures i < Size(s) && i < |s.facts| ==>
              pods + InstallFrom(s, i) ==
              if s.facts[i].installed || s.facts[i].db then pods + InstallFrom(s, i + 1)
              else if !s.facts[i].running then pods
              else pods + [i] + InstallFrom(s, i + 1)
  {
  }

  /** The targets of one subcluster, in pod order, up to the first pod that cannot be installed. */
  method AddInstallTargets(name: string, s: Sub, podList: seq<(string, nat)>) returns (r: seq<(string, nat)>)
    ensures r == podList + Pairs(name, InstallTargets(s))
    ensures (forall k :: k in InstallTargets(s) <==> CanInstallPod(s, s.installCount, k)) && Ascending(InstallTargets(s))
  {
    hide InstallFrom;
    InstallIs(s, s.installCount);
    r := podList;
    var i := s.installCount;
    ghost var pods: seq<nat> := [];
    while i < Size(s)
      invariant pods + InstallFrom(s, i) == InstallTargets(s)
      invariant r == podList + Pairs(name, pods)
      decreases Size(s) - i
    {
      InstallStep(s, pods, i);
      if i >= |s.facts| {
        break;
      }
      if s.facts[i].installed || s.facts[i].db {
        i := i + 1;
        continue;
      }
      if !s.facts[i].running {
        assert pods == InstallTargets(s);
        return;
      }
      r := r + [(name, i)];
      pods := pods + [i];
      i := i + 1;
    }
    InstallStep(s, pods, i);
  }

  /** getInstallTargets */
  method GetInstallTargets(subs: map<string, Sub>, order: seq<string>) returns (podList: seq<(string, nat)>)
    requires forall n | n in order :: n in subs
    ensures podList == AllTargets(subs, order)
  {
    hide InstallFrom, Pairs;
    podList := [];
    for k := 0 to |order|
      invariant podList == AllTargets(subs, order[..k])
    {
      TargetsStep(subs, order, k);
      podList := AddInstallTargets(order[k], subs[order[k]], podList);
    }
    assert order[..|order|] == order;
  }
}
