/** No statefulset is shrunk or deleted past a pod that still has an admintools.conf entry or the
    database, in every run in which an installed pod stops only while the install count reaches it,
    uninstalling works from the highest pod down, no status is written from emptied facts while an
    installed pod is down, no install starts from a count above the installed pods, and none fails
    between admintools.conf and the indicator files.  Each of the five conditions is needed; the
    fourth always holds for the install of a pass in which the spec is not read again on the way to
    it. */
module ScaleDownSafety {
  import opened Text
  import opened PodFacts
  import opened ScaleDown

  // ---------------------------------------------------------------- the invariant of a subcluster

  ghost predicate UpTo(nodes: map<nat, nat>, n: nat) {
    forall i: nat :: i in nodes <==> i < n
  }

  /** Exactly the pods below n are installed and have the indicator, all of them are pods of the statefulset, their node
      numbers increase, and the status knows of every one of them that is not running. */
  ghost predicate SubInv(s: Sub, n: nat) {
    && UpTo(s.nodes, n) && s.marks == s.nodes.Keys
    && n <= Replicas(s)
    && (forall i, j | i in s.nodes && j in s.nodes && i < j :: s.nodes[i] < s.nodes[j])
    && s.db.Keys <= s.nodes.Keys
    && (forall i | i in s.running :: i < Replicas(s))
    && (forall i: nat | i !in s.running && i < n :: i < s.installCount)
    && s.dbCount <= s.installCount
  }

  /** As far as the cached facts go, they miss no installed pod, and no database of a running pod; of
      pods that are not running they may show too many as installed. */
  ghost predicate Sound(s: Sub, n: nat) {
    && (forall i | 0 <= i < |s.facts| && i < n :: s.facts[i].installed)
    && (forall i | 0 <= i < |s.facts| && s.facts[i].installed && s.facts[i].running :: i < n)
    && (forall i | 0 <= i < |s.facts| :: s.facts[i].db ==> s.facts[i].installed)
    && (forall i | 0 <= i < |s.facts| && s.facts[i].running && !s.facts[i].db :: i !in s.db)
  }

  /** They also cover every installed pod. */
  ghost predicate FactsOk(s: Sub, n: nat) {
    n <= |s.facts| && Sound(s, n)
  }

  /** How far the facts can be relied on at some point of a pass. */
  datatype Trust = Unusable | AsFarAsTheyGo | Right

  ghost predicate FactsMeet(s: Sub, n: nat, trust: Trust) {
    match trust
    case Unusable => true
    case AsFarAsTheyGo => Sound(s, n)
    case Right => FactsOk(s, n)
  }

  /** What the pass has established about the install count on its way to the install. */
  datatype Stage = Anywhere | Counted | NotAbove | Removable | Guarded

  /** Pods that are believed installed and are not are all about to be removed. */
  ghost predicate ExcessRemovable(s: Sub, n: nat, trust: Trust) {
    && (s.installCount <= n || Size(s) <= n)
    && (!trust.Unusable? ==> forall i | 0 <= i < |s.facts| && s.facts[i].installed && n <= i :: Size(s) <= i)
  }

  ghost predicate CountMeets(s: Sub, n: nat, trust: Trust, stage: Stage) {
    match stage
    case Anywhere => true
    case Counted => Quiet(s) ==> s.installCount <= n
    case NotAbove => s.installCount <= n
    case Removable => ExcessRemovable(s, n, trust)
    case Guarded => s.installCount <= n || !Gate(s, Size(s))
  }

  ghost predicate GoodAt(s: Sub, n: nat, trust: Trust, stage: Stage) {
    SubInv(s, n) && FactsMeet(s, n, trust) && CountMeets(s, n, trust, stage)
  }

  ghost predicate Good(s: Sub, trust: Trust, stage: Stage) {
    exists n :: GoodAt(s, n, trust, stage)
  }

  /** The object reconciler goes by the facts it has at its start, the set-up of an upgrade by those of
      the first status. */
  function TrustIn(w: World): Trust {
    if w.cache.Fresh? then Right
    else if w.cache.Failed? || At(w, UpgradeSetup) || (AtObjs(w) && w.open) then AsFarAsTheyGo
    else Unusable
  }

  /** From the status refresh before the uninstall to the install. */
  predicate Underway(w: World) {
    12 <= w.pc <= 15
  }

  /** What a run in which the spec is not read again on that way establishes. */
  function StageOf(w: World, name: string, calm: bool): Stage {
    if !calm || !Underway(w) then Anywhere
    else if At(w, Uninstall) then if w.open then Removable else if w.cache.Fresh? then Counted else NotAbove
    else if At(w, ObjAll) then if name in w.done || (!w.open && !w.cache.Fresh?) then NotAbove else Guarded
    else if At(w, Install) then NotAbove
    else Removable
  }

  ghost predicate Inv(w: World, calm: bool) {
    forall name | name in w.subs :: Good(w.subs[name], TrustIn(w), StageOf(w, name, calm))
  }

  // ---------------------------------------------------------------- collecting and counting

  lemma CollectedOk(s: Sub, n: nat)
    requires SubInv(s, n)
    ensures SubInv(Collected(s), n) && FactsOk(Collected(s), n)
  {
  }

  /** A count of at most the entries below a bound. */
  lemma CountWithin(bs: seq<bool>, r: nat)
    requires forall i | 0 <= i < |bs| :: bs[i] ==> i < r
    ensures Count(bs) <= r
  {
    var k := if r <= |bs| then r else |bs|;
    var cs := seq(|bs|, i => i < k);
    CountLess(bs, cs);
    CountBelow(cs, k);
  }

  lemma CountReaches(bs: seq<bool>, n: nat)
    requires n <= |bs| && forall i | 0 <= i < n :: bs[i]
    ensures n <= Count(bs)
  {
    var cs := seq(|bs|, i => i < n);
    CountLess(cs, bs);
    CountBelow(cs, n);
  }

  /** A refresh never counts too few; it counts right when every pod believed installed runs. */
  lemma RefreshedOk(s: Sub, n: nat)
    requires SubInv(s, n) && FactsOk(s, n)
    ensures SubInv(Refreshed(s), n) && FactsOk(Refreshed(s), n)
    ensures n <= Refreshed(s).installCount
    ensures Quiet(s) ==> Refreshed(s).installCount == n
  {
    hide Count;
    var d := Detail(s);
    CountReaches(Installed(d), n);
    CountLess(WithDb(d), Installed(d));
    if Quiet(s) {
      CountBelow(Installed(d), n);
    }
  }

  /** A count beyond the installed pods shows in the facts it was taken from. */
  lemma ExcessShows(s: Sub, n: nat)
    requires SubInv(s, n) && FactsOk(s, n) && Refreshed(s).installCount > n
    ensures exists i :: n <= i < Span(s) && i < |s.facts| && s.facts[i].installed
  {
    hide Count;
    var d := Detail(s);
    if forall i | 0 <= i < |d| :: Installed(d)[i] ==> i < n {
      CountWithin(Installed(d), n);
      assert false;
    }
    var i :| 0 <= i < |d| && Installed(d)[i] && !(i < n);
    assert s.facts[i].installed;
  }

  lemma {:induction false} CountNone(bs: seq<bool>)
    requires forall i | 0 <= i < |bs| :: !bs[i]
    ensures Count(bs) == 0
  {
    CountBelow(bs, 0);
  }

  /** A status written from emptied facts says that nothing is installed. */
  lemma BlindRefresh(s: Sub)
    requires s.facts == []
    ensures Refreshed(s).installCount == 0 && Refreshed(s).dbCount == 0
  {
    CountNone(Installed(Detail(s)));
    CountNone(WithDb(Detail(s)));
  }

  /** Such a status keeps the invariant exactly when every installed pod is running. */
  lemma BlindRefreshExact(s: Sub, n: nat)
    requires SubInv(s, n) && s.facts == []
    ensures (exists m :: SubInv(Refreshed(s), m)) <==> forall i | i in s.nodes :: i in s.running
  {
    BlindRefresh(s);
    var s' := Refreshed(s);
    if forall i | i in s.nodes :: i in s.running {
      assert SubInv(s', n);
    }
    if exists m :: SubInv(s', m) {
      var m: nat :| SubInv(s', m);
      forall i | i in s.nodes
        ensures i in s.running
      {
        assert i in s'.nodes <==> i < m;
      }
    }
  }

  // ---------------------------------------------------------------- pods start and stop

  /** The status does not miss the pod. */
  predicate Recorded(s: Sub, i: nat) {
    i in s.nodes ==> i < s.installCount
  }

  lemma SameGate(s: Sub, running: set<nat>, size: nat)
    ensures Gate(s.(running := running), size) == Gate(s, size)
  {
    assert forall i: nat :: Clear(s, i) == Clear(s.(running := running), i);
  }

  lemma StartGood(s: Sub, i: nat, trust: Trust, stage: Stage)
    requires Good(s, trust, stage) && i < Replicas(s)
    ensures Good(s.(running := s.running + {i}), trust, stage)
  {
    var n: nat :| GoodAt(s, n, trust, stage);
    SameGate(s, s.running + {i}, Size(s));
    assert GoodAt(s.(running := s.running + {i}), n, trust, stage);
  }

  lemma StopGood(s: Sub, i: nat, trust: Trust, stage: Stage)
    requires Good(s, trust, stage) && Recorded(s, i)
    ensures Good(s.(running := s.running - {i}), trust, stage)
  {
    var n: nat :| GoodAt(s, n, trust, stage);
    SameGate(s, s.running - {i}, Size(s));
    assert GoodAt(s.(running := s.running - {i}), n, trust, stage);
  }

  // ---------------------------------------------------------------- uninstall

  /** No pod that is still installed afterwards stands above one that is uninstalled. */
  ghost predicate TopDown(s: Sub) {
    forall i, j | i in UninstallTargets(s) && j in s.nodes && i <= j :: j in UninstallTargets(s)
  }

  lemma TargetsInstalled(s: Sub, n: nat, i: nat)
    requires SubInv(s, n) && FactsMeet(s, n, AsFarAsTheyGo) && i in UninstallTargets(s)
    ensures Size(s) <= i < n && i !in s.db
  {
    UninstallIs(s, Size(s));
  }

  lemma UninstalledUpTo(s: Sub, n: nat) returns (m: nat)
    requires SubInv(s, n) && FactsMeet(s, n, AsFarAsTheyGo) && TopDown(s)
    ensures m <= n && forall i: nat :: i in UninstallTargets(s) <==> m <= i < n
    ensures m < n ==> Size(s) <= m
  {
    var ts := UninstallTargets(s);
    UninstallIs(s, Size(s));
    if ts == [] {
      m := n;
    } else {
      m := ts[0];
      assert m in ts;
      TargetsInstalled(s, n, m);
      forall i: nat | m <= i < n
        ensures i in ts
      {
        assert i in s.nodes;
      }
      forall i: nat | i in ts
        ensures m <= i < n
      {
        TargetsInstalled(s, n, i);
        var k :| 0 <= k < |ts| && ts[k] == i;
      }
    }
  }

  lemma UninstallOk(s: Sub, n: nat) returns (m: nat)
    requires SubInv(s, n) && FactsMeet(s, n, AsFarAsTheyGo) && TopDown(s)
    ensures SubInv(Uninstalled(s), m) && m <= n && (m < n ==> Size(s) <= m)
  {
    m := UninstalledUpTo(s, n);
    var s' := Uninstalled(s);
    forall i: nat
      ensures i in s'.nodes <==> i < m
    {
      assert i in s.nodes <==> i < n;
    }
    forall i | i in s.db
      ensures i in s'.nodes
    {
      assert i in s.nodes;
      if i in UninstallTargets(s) {
        TargetsInstalled(s, n, i);
        assert false;
      }
    }
  }

  /** Uninstalling keeps the installed pods a prefix exactly when it works from the top down. */
  lemma UninstallExact(s: Sub, n: nat)
    requires SubInv(s, n) && FactsOk(s, n)
    ensures (exists m :: UpTo(Uninstalled(s).nodes, m)) <==> TopDown(s)
  {
    var s' := Uninstalled(s);
    if TopDown(s) {
      var m := UninstallOk(s, n);
      assert UpTo(s'.nodes, m);
    }
    if exists m :: UpTo(s'.nodes, m) {
      var m: nat :| UpTo(s'.nodes, m);
      forall i, j | i in UninstallTargets(s) && j in s.nodes && i <= j
        ensures j in UninstallTargets(s)
      {
        TargetsInstalled(s, n, i);
        assert i in s'.nodes <==> i < m;
        assert j in s'.nodes <==> j < m;
      }
    }
  }

  // ---------------------------------------------------------------- the gate

  /** The gate never opens while an installed pod would go. */
  lemma GateSafe(s: Sub, n: nat, size: nat)
    requires SubInv(s, n) && FactsMeet(s, n, AsFarAsTheyGo) && Gate(s, size)
    ensures n <= size
  {
    assert n > size ==> Clear(s, n - 1);
  }

  /** When every pod believed installed runs, it opens exactly when no installed pod would go and the
      facts cover the pods that would. */
  lemma GateExact(s: Sub, n: nat, size: nat)
    requires SubInv(s, n) && FactsOk(s, n) && Quiet(s)
    ensures Gate(s, size) <==> n <= size && (Replicas(s) <= size || Replicas(s) <= |s.facts|)
  {
    if Gate(s, size) {
      GateSafe(s, n, size);
      assert size < Replicas(s) ==> Clear(s, Replicas(s) - 1);
    }
  }

  /** When the guard of the uninstall lets it run, and every installed pod to be removed has no
      database, it works from the top down, and with facts collected again the gate is open. */
  lemma CleanScaleDownPasses(s: Sub, n: nat)
    requires SubInv(s, n) && s == Collected(s) && Quiet(s)
    requires forall i: nat | Size(s) <= i < n :: i !in s.db
    ensures TopDown(s)
    ensures Gate(Collected(Uninstalled(s)), Size(s))
  {
    CollectedOk(s, n);
    UninstallIs(s, Size(s));
    assert forall i: nat | i < Span(s) :: s.facts[i] == FactOf(s, i);
    forall i: nat
      ensures i in UninstallTargets(s) <==> Size(s) <= i < n
    {
      if Size(s) <= i < n {
        assert i < Span(s) && s.facts[i].installed;
      }
    }
    var s' := Uninstalled(s);
    forall i | Size(s) <= i < Replicas(s)
      ensures Clear(Collected(s'), i)
    {
      assert s.facts[i] == FactOf(s, i) && Collected(s').facts[i] == FactOf(s', i);
      assert i in s.nodes <==> i < n;
    }
  }

  // ---------------------------------------------------------------- install

  lemma {:induction false} SkipInstalled(s: Sub, n: nat, i: nat)
    requires SubInv(s, n) && FactsOk(s, n) && i <= n
    ensures InstallFrom(s, i) == InstallFrom(s, n)
    decreases n - i
  {
    if i < n {
      assert s.facts[i].installed;
      SkipInstalled(s, n, i + 1);
    }
  }

  /** With no pod believed installed that does not run, the targets are the next pods, without a gap. */
  lemma {:induction false} InstallRun(s: Sub, n: nat, i: nat)
    requires FactsOk(s, n) && Quiet(s) && n <= i
    ensures forall k | 0 <= k < |InstallFrom(s, i)| :: InstallFrom(s, i)[k] == i + k
    decreases Size(s) - i
  {
    if i < Size(s) && i < |s.facts| {
      assert !s.facts[i].installed && !s.facts[i].db;
      if s.facts[i].running {
        InstallRun(s, n, i + 1);
        var rest := InstallFrom(s, i + 1);
        forall k | 0 <= k < |rest| + 1
          ensures ([i] + rest)[k] == i + k
        {
          if k > 0 {
            assert rest[k - 1] == i + 1 + (k - 1);
          }
        }
      }
    }
  }

  lemma {:induction false} NumberedIs(nodes: map<nat, nat>, targets: seq<nat>, base: nat, n: nat)
    requires UpTo(nodes, n)
    requires forall k | 0 <= k < |targets| :: targets[k] == n + k
    requires forall i, j | i in nodes && j in nodes && i < j :: nodes[i] < nodes[j]
    requires forall i | i in nodes :: nodes[i] <= base
    ensures var r := Numbered(nodes, targets, base);
            && UpTo(r, n + |targets|)
            && (forall i, j | i in r && j in r && i < j :: r[i] < r[j])
            && (forall i | i in r :: r[i] <= base + |targets|)
    decreases |targets|
  {
    if targets != [] {
      var rest := targets[1..];
      forall k | 0 <= k < |rest|
        ensures rest[k] == n + 1 + k
      {
        assert rest[k] == targets[k + 1];
      }
      NumberedIs(nodes[targets[0] := base + 1], rest, base + 1, n + 1);
    }
  }

  /** The install count is not above the installed pods, or there is nothing to install. */
  ghost predicate NoGap(s: Sub) {
    InstallTargets(s) == [] || s.installCount <= |s.nodes|
  }

  lemma {:induction false} HowMany(nodes: map<nat, nat>, n: nat)
    requires UpTo(nodes, n)
    ensures |nodes| == n
  {
    if n == 0 {
      assert nodes == map[];
    } else {
      var rest := nodes - {n - 1};
      HowMany(rest, n - 1);
      assert nodes.Keys == rest.Keys + {n - 1};
      assert |nodes| == |nodes.Keys| && |rest| == |rest.Keys|;
    }
  }

  lemma TargetsFollow(s: Sub, n: nat)
    requires SubInv(s, n) && FactsMeet(s, n, AsFarAsTheyGo) && Quiet(s) && s.installCount <= n
    ensures forall k | 0 <= k < |InstallTargets(s)| :: InstallTargets(s)[k] == n + k
  {
    if n <= |s.facts| {
      SkipInstalled(s, n, s.installCount);
      InstallRun(s, n, n);
    } else {
      NoTargets(s, n, s.installCount);
    }
  }

  lemma {:induction false} NoTargets(s: Sub, n: nat, i: nat)
    requires Sound(s, n) && |s.facts| < n
    ensures InstallFrom(s, i) == []
    decreases Size(s) - i
  {
    if i < Size(s) && i < |s.facts| {
      assert s.facts[i].installed;
      NoTargets(s, n, i + 1);
    }
  }

  lemma InstalledFields(s: Sub, base: nat)
    requires s.marks == s.nodes.Keys
    ensures var s' := InstalledInto(s, base);
            && s' == s.(nodes := Numbered(s.nodes, InstallTargets(s), base), marks := s'.nodes.Keys)
  {
    hide InstallTargets;
    NumberedKeys(s.nodes, InstallTargets(s), base);
    var s' := InstalledInto(s, base);
    assert forall i :: i in s'.marks <==> i in s'.nodes;
  }

  lemma InstallOk(s: Sub, n: nat, base: nat)
    requires SubInv(s, n) && FactsMeet(s, n, AsFarAsTheyGo) && Quiet(s) && NoGap(s)
    requires forall i | i in InstallTargets(s) :: i in s.running
    requires forall i | i in s.nodes :: s.nodes[i] <= base
    ensures SubInv(InstalledInto(s, base), n + |InstallTargets(s)|)
    ensures forall i | i in InstalledInto(s, base).nodes :: InstalledInto(s, base).nodes[i] <= base + |InstallTargets(s)|
  {
    hide InstallTargets, InstalledInto, Sound, NoGap;
    var ts := InstallTargets(s);
    EmptyOrNotAbove(s, n);
    InstalledFields(s, base);
    if ts != [] {
      TargetsFollow(s, n);
    }
    NumberedIs(s.nodes, ts, base, n);
    var s', m := InstalledInto(s, base), n + |ts|;
    forall i: nat | n <= i < m
      ensures i in s.running
    {
      assert ts[i - n] == i;
    }
    assert m > n ==> m - 1 in s.running;
    forall i | i in s.db
      ensures i in s'.nodes
    {
      assert i in s.nodes;
    }
  }

  lemma EmptyOrNotAbove(s: Sub, n: nat)
    requires SubInv(s, n) && NoGap(s)
    ensures InstallTargets(s) == [] || s.installCount <= n
  {
    HowMany(s.nodes, n);
  }

  lemma {:induction false} TargetsFrom(s: Sub, i: nat)
    ensures forall k | k in InstallFrom(s, i) :: i <= k < |s.facts| && !s.facts[k].installed
    decreases Size(s) - i
  {
    if i < Size(s) && i < |s.facts| {
      TargetsFrom(s, i + 1);
    }
  }

  lemma {:induction false} NumberedKeys(nodes: map<nat, nat>, targets: seq<nat>, base: nat)
    ensures forall i :: i in Numbered(nodes, targets, base) <==> i in nodes || i in targets
    decreases |targets|
  {
    if targets != [] {
      NumberedKeys(nodes[targets[0] := base + 1], targets[1..], base + 1);
      assert targets == [targets[0]] + targets[1..];
    }
  }

  /** An install that passes its guard keeps the installed pods a prefix exactly when there is nothing
      to install or the count is not above the installed pods. */
  lemma InstallExact(s: Sub, n: nat, base: nat)
    requires SubInv(s, n) && FactsOk(s, n) && Quiet(s)
    requires forall i | i in InstallTargets(s) :: i in s.running
    requires forall i | i in s.nodes :: s.nodes[i] <= base
    ensures (exists m :: UpTo(InstalledInto(s, base).nodes, m)) <==> NoGap(s)
  {
    hide InstallFrom, InstallTargets, Numbered, SubInv, Sound;
    HowManyInstalled(s, n);
    if NoGap(s) {
      InstallOk(s, n, base);
      PrefixOf(InstalledInto(s, base), n + |InstallTargets(s)|);
    } else {
      GapBelow(s, n, base);
    }
  }

  /** The first target stands above pod n, and pod n is not installed. */
  lemma GapBelow(s: Sub, n: nat, base: nat)
    requires SubInv(s, n) && !NoGap(s)
    ensures n !in InstalledInto(s, base).nodes && exists i: nat :: i > n && i in InstalledInto(s, base).nodes
    ensures !exists m :: UpTo(InstalledInto(s, base).nodes, m)
  {
    hide InstallFrom, InstallTargets, Numbered;
    HowManyInstalled(s, n);
    AllAbove(s);
    NumberedKeys(s.nodes, InstallTargets(s), base);
    var first := InstallTargets(s)[0];
    assert first in InstallTargets(s) && first in InstalledInto(s, base).nodes;
  }

  lemma PrefixOf(s: Sub, n: nat)
    requires SubInv(s, n)
    ensures UpTo(s.nodes, n)
  {
  }

  lemma HowManyInstalled(s: Sub, n: nat)
    requires SubInv(s, n)
    ensures |s.nodes| == n && n !in s.nodes
  {
    HowMany(s.nodes, n);
  }

  lemma AllAbove(s: Sub)
    ensures forall i | i in InstallTargets(s) :: i >= s.installCount
  {
    TargetsFrom(s, s.installCount);
  }

  ghost predicate Ready(s: Sub) {
    Good(s, AsFarAsTheyGo, Anywhere) && Quiet(s) && NoGap(s)
  }

  lemma {:induction false} InstallAllOk(subs: map<string, Sub>, order: seq<string>, base: nat)
    requires forall n | n in order :: n in subs
    requires forall i, j | 0 <= i < j < |order| :: order[i] != order[j]
    requires forall n | n in subs :: Good(subs[n], Unusable, Anywhere)
    requires forall n | n in order :: Ready(subs[n])
    requires forall n | n in order :: forall i | i in InstallTargets(subs[n]) :: i in subs[n].running
    requires forall n | n in subs :: forall i | i in subs[n].nodes :: subs[n].nodes[i] <= base
    ensures InstallAll(subs, order, base).Keys == subs.Keys
    ensures forall n | n in subs :: Good(InstallAll(subs, order, base)[n], Unusable, Anywhere)
    decreases |order|
  {
    hide Good, Ready, InstalledInto, InstallTargets;
    if order != [] {
      var name, rest := order[0], order[1..];
      assert name in order;
      var s := subs[name];
      InstallGood(s, base);
      var subs' := subs[name := InstalledInto(s, base)];
      forall n | n in rest
        ensures n in order && n != name
      {
        var k :| 0 <= k < |rest| && rest[k] == n;
        assert order[k + 1] == n;
      }
      InstallAllOk(subs', rest, base + |InstallTargets(s)|);
    }
  }

  lemma InstallGood(s: Sub, base: nat)
    requires Ready(s)
    requires forall i | i in InstallTargets(s) :: i in s.running
    requires forall i | i in s.nodes :: s.nodes[i] <= base
    ensures Good(InstalledInto(s, base), Unusable, Anywhere)
    ensures forall i | i in InstalledInto(s, base).nodes :: InstalledInto(s, base).nodes[i] <= base + |InstallTargets(s)|
  {
    hide SubInv, Sound, InstallTargets, InstalledInto, NoGap;
    var n: nat :| GoodAt(s, n, AsFarAsTheyGo, Anywhere);
    InstallOk(s, n, base);
    assert GoodAt(InstalledInto(s, base), n + |InstallTargets(s)|, Unusable, Anywhere);
  }

  // ---------------------------------------------------------------- every event keeps the invariant

  /** The five conditions: on the environment, on the order of the uninstall, on a collection of facts
      that fails, on the count that an install starts from, and that no install or uninstall fails
      between admintools.conf and the last indicator file. */
  ghost predicate Orderly(w: World, e: Event) {
    match e
    case PodStops(name, pod) => name in w.subs ==> Recorded(w.subs[name], pod)
    case DoUninstall(name) => name in w.subs ==> TopDown(w.subs[name])
    case Refresh => w.cache.Failed? ==> forall n | n in w.subs :: forall i | i in w.subs[n].nodes :: i in w.subs[n].running
    case DoInstall(order, base) => forall n | n in order && n in w.subs :: NoGap(w.subs[n])
    case UninstallFails(_, _) => false
    case InstallFails(_, _, _) => false
    case _ => true
  }

  /** The spec is not read again from the status before the uninstall to the install. */
  predicate Calm(w: World, e: Event) {
    e.Edit? ==> !Underway(w)
  }

  /** Of the install that ends that way nothing is asked. */
  ghost predicate OrderlyOrCalm(w: World, e: Event, calm: bool) {
    if calm then Calm(w, e) && (Orderly(w, e) || (e.DoInstall? && At(w, Install))) else Orderly(w, e)
  }

  /** What is known with (trust, stage) covers what is asked with (trust', stage'). */
  predicate Covers(trust: Trust, stage: Stage, trust': Trust, stage': Stage) {
    && (trust'.Unusable? || trust' == trust || trust.Right?)
    && (stage'.Anywhere? || stage' == stage || (stage.NotAbove? && (stage'.Counted? || stage'.Guarded?)))
  }

  lemma GoodWeaker(s: Sub, trust: Trust, stage: Stage, trust': Trust, stage': Stage)
    requires Good(s, trust, stage) && Covers(trust, stage, trust', stage')
    ensures Good(s, trust', stage')
  {
    hide SubInv, Sound, Gate, Quiet;
    var n: nat :| GoodAt(s, n, trust, stage);
    assert GoodAt(s, n, trust', stage');
  }

  lemma EditGood(s: Sub, want: Option<nat>, trust: Trust)
    requires Good(s, trust, Anywhere)
    ensures Good(s.(want := want), trust, Anywhere)
  {
    var n: nat :| GoodAt(s, n, trust, Anywhere);
    assert GoodAt(s.(want := want), n, trust, Anywhere);
  }

  lemma NewGood(trust: Trust)
    ensures Good(NEW_SUB, trust, Anywhere)
  {
    assert GoodAt(NEW_SUB, 0, trust, Anywhere);
  }

  /** Facts collected anew; on the way to the install they show no more than the count does. */
  lemma CollectGood(s: Sub, stage: Stage)
    requires Good(s, Unusable, stage) && (stage.Anywhere? || stage.NotAbove? || stage.Removable?)
    ensures Good(Collected(s), Right, stage)
  {
    var n: nat :| GoodAt(s, n, Unusable, stage);
    CollectedOk(s, n);
    assert forall i: nat | i < Span(s) :: Collected(s).facts[i] == FactOf(s, i);
    assert GoodAt(Collected(s), n, Right, stage);
  }

  lemma EmptyGood(s: Sub, stage: Stage)
    requires Good(s, Unusable, stage) && (stage.Anywhere? || stage.NotAbove? || stage.Removable?)
    ensures Good(s.(facts := []), AsFarAsTheyGo, stage)
  {
    var n: nat :| GoodAt(s, n, Unusable, stage);
    assert GoodAt(s.(facts := []), n, AsFarAsTheyGo, stage);
  }

  lemma RefreshGood(s: Sub, stage: Stage)
    requires Good(s, Right, stage) && (stage.Anywhere? || stage.Removable?)
    ensures Good(Refreshed(s), Right, Counted)
    ensures stage.Removable? ==> Good(Refreshed(s), Right, Guarded)
  {
    hide SubInv, FactsOk, Count, Detail;
    var n: nat :| GoodAt(s, n, Right, stage);
    RefreshedOk(s, n);
    assert GoodAt(Refreshed(s), n, Right, Counted);
    if stage.Removable? {
      if Refreshed(s).installCount > n {
        ExcessShows(s, n);
        var i :| n <= i < Span(s) && i < |s.facts| && s.facts[i].installed;
        assert !Clear(Refreshed(s), i);
      }
      assert GoodAt(Refreshed(s), n, Right, Guarded);
    }
  }

  lemma BlindRefreshGood(s: Sub)
    requires Good(s, AsFarAsTheyGo, Anywhere) && s.facts == []
    requires forall i | i in s.nodes :: i in s.running
    ensures Good(Refreshed(s), AsFarAsTheyGo, NotAbove)
  {
    var n: nat :| GoodAt(s, n, AsFarAsTheyGo, Anywhere);
    BlindRefresh(s);
    assert GoodAt(Refreshed(s), n, AsFarAsTheyGo, NotAbove);
  }

  /** The guard of the uninstall has found every pod that is believed installed running. */
  lemma EnterGood(s: Sub, trust: Trust, stage: Stage)
    requires Good(s, trust, stage) && !trust.Unusable? && (stage.Counted? || stage.NotAbove?) && Quiet(s)
    ensures Good(s, trust, Removable)
  {
    var n: nat :| GoodAt(s, n, trust, stage);
    assert GoodAt(s, n, trust, Removable);
  }

  /** With no statefulset the gate is open. */
  lemma CreateGood(s: Sub, trust: Trust, stage: Stage)
    requires Good(s, trust, stage) && s.want.Some? && s.sts.None? && (stage.Anywhere? || stage.Guarded? || stage.NotAbove?)
    ensures Good(s.(sts := Some(Size(s))), trust, if stage.Anywhere? then Anywhere else NotAbove)
  {
    var n: nat :| GoodAt(s, n, trust, stage);
    assert GoodAt(s.(sts := Some(Size(s))), n, trust, if stage.Anywhere? then Anywhere else NotAbove);
  }

  lemma LoseGood(s: Sub, db: map<nat, string>, trust: Trust)
    requires Good(s, trust, Anywhere) && db.Keys <= s.db.Keys
    ensures Good(s.(db := db), trust, Anywhere)
  {
    var n: nat :| GoodAt(s, n, trust, Anywhere);
    assert GoodAt(s.(db := db), n, trust, Anywhere);
  }

  lemma GainGood(s: Sub, pods: map<nat, string>)
    requires Good(s, Unusable, Anywhere) && pods.Keys <= s.nodes.Keys
    ensures Good(s.(db := s.db + pods), Unusable, Anywhere)
  {
    var n: nat :| GoodAt(s, n, Unusable, Anywhere);
    assert GoodAt(s.(db := s.db + pods), n, Unusable, Anywhere);
  }

  lemma UninstallGood(s: Sub, trust: Trust, stage: Stage)
    requires Good(s, trust, stage) && !trust.Unusable? && (stage.Anywhere? || stage.Removable?) && TopDown(s)
    ensures Good(Uninstalled(s), Unusable, stage)
    ensures UninstallTargets(s) == [] ==> Uninstalled(s) == s
  {
    hide SubInv, Sound, TopDown, UninstallTargets;
    var n: nat :| GoodAt(s, n, trust, stage);
    var m := UninstallOk(s, n);
    assert GoodAt(Uninstalled(s), m, Unusable, stage);
  }

  lemma ResizeGood(s: Sub, trust: Trust, stage: Stage)
    requires Good(s, trust, stage) && !trust.Unusable? && s.want.Some? && s.sts.Some? && Gate(s, Size(s))
    requires stage.Anywhere? || stage.Guarded?
    ensures Good(Resized(s, Size(s)), trust, if stage.Anywhere? then Anywhere else NotAbove)
  {
    var n: nat :| GoodAt(s, n, trust, stage);
    GateSafe(s, n, Size(s));
    assert GoodAt(Resized(s, Size(s)), n, trust, if stage.Anywhere? then Anywhere else NotAbove);
  }

  lemma DeleteGood(s: Sub, trust: Trust, stage: Stage)
    requires Good(s, trust, stage) && !trust.Unusable? && s.want.None? && s.sts.Some? && Gate(s, 0)
    requires stage.Anywhere? || stage.Guarded?
    ensures Good(Deleted(s), trust, if stage.Anywhere? then Anywhere else NotAbove)
  {
    var n: nat :| GoodAt(s, n, trust, stage);
    GateSafe(s, n, 0);
    assert GoodAt(Deleted(s), n, trust, if stage.Anywhere? then Anywhere else NotAbove);
  }

  lemma AbsentGood(s: Sub, trust: Trust, stage: Stage)
    requires Good(s, trust, stage) && s.want.None? && s.sts.None? && (stage.Guarded? || stage.NotAbove?)
    ensures Good(s, trust, NotAbove)
  {
    var n: nat :| GoodAt(s, n, trust, stage);
    assert GoodAt(s, n, trust, NotAbove);
  }

  /** At the end of a calm way the install starts right. */
  lemma NotAboveFollows(s: Sub, trust: Trust)
    requires Good(s, trust, NotAbove)
    ensures NoGap(s)
  {
    var n: nat :| GoodAt(s, n, trust, NotAbove);
    HowMany(s.nodes, n);
  }

  // ---------------------------------------------------------------- worlds

  ghost predicate OthersCovered(w: World, w': World, name: string, calm: bool) {
    forall m | m in w.subs && m != name ::
      Covers(TrustIn(w), StageOf(w, m, calm), TrustIn(w'), StageOf(w', m, calm))
  }

  /** Changing one subcluster, and asking no more of the others than before. */
  lemma OneChanged(w: World, w': World, name: string, calm: bool)
    requires Inv(w, calm) && name in w'.subs && w'.subs == w.subs[name := w'.subs[name]]
    requires OthersCovered(w, w', name, calm)
    requires Good(w'.subs[name], TrustIn(w'), StageOf(w', name, calm))
    ensures Inv(w', calm)
  {
    hide Good, TrustIn, StageOf, Covers;
    forall m | m in w'.subs
      ensures Good(w'.subs[m], TrustIn(w'), StageOf(w', m, calm))
    {
      if m != name {
        assert m in w.subs;
        GoodWeaker(w.subs[m], TrustIn(w), StageOf(w, m, calm), TrustIn(w'), StageOf(w', m, calm));
      }
    }
  }

  lemma SameSubs(w: World, w': World, calm: bool)
    requires Inv(w, calm) && w'.subs == w.subs
    requires forall m | m in w.subs :: Covers(TrustIn(w), StageOf(w, m, calm), TrustIn(w'), StageOf(w', m, calm))
    ensures Inv(w', calm)
  {
    hide Good, TrustIn, StageOf, Covers;
    forall m | m in w'.subs
      ensures Good(w'.subs[m], TrustIn(w'), StageOf(w', m, calm))
    {
      GoodWeaker(w.subs[m], TrustIn(w), StageOf(w, m, calm), TrustIn(w'), StageOf(w', m, calm));
    }
  }

  /** The actors by position. */
  lemma Order(w: World)
    ensures At(w, UpgradeSetup) <==> w.pc == 1
    ensures At(w, UpgradeInstall) <==> w.pc == 2
    ensures At(w, UpgradeUninstall) <==> w.pc == 3
    ensures At(w, UpgradeObjs) <==> w.pc == 4
    ensures At(w, CreateMissing) <==> w.pc == 5
    ensures At(w, Restart) <==> w.pc == 6
    ensures At(w, RemoveSubcluster) <==> w.pc == 8
    ensures At(w, RemoveNode) <==> w.pc == 10
    ensures At(w, Uninstall) <==> w.pc == 12
    ensures At(w, ObjAll) <==> w.pc == 14
    ensures At(w, Install) <==> w.pc == 15
    ensures At(w, CreateDb) <==> w.pc == 17
    ensures At(w, AddNode) <==> w.pc == 19
    ensures At(w, Status) <==> w.pc in {0, 7, 9, 11, 13, 16, 18, 20}
  {
  }

  lemma OutsideStep(w: World, e: Event, calm: bool)
    requires Inv(w, calm) && Enabled(w, e) && OrderlyOrCalm(w, e, calm)
    requires e.Edit? || e.PodStarts? || e.PodStops? || e.Abort? || e.Invalidate?
    ensures Inv(Apply(w, e), calm)
  {
    hide Good, At;
    var w' := Apply(w, e);
    Order(w);
    Order(w');
    match e {
      case Edit(name, want) =>
        NewGood(TrustIn(w));
        EditGood(SubOf(w, name), want, TrustIn(w));
        OneChanged(w, w', name, calm);
      case PodStarts(name, pod) =>
        StartGood(w.subs[name], pod, TrustIn(w), StageOf(w, name, calm));
        OneChanged(w, w', name, calm);
      case PodStops(name, pod) =>
        StopGood(w.subs[name], pod, TrustIn(w), StageOf(w, name, calm));
        OneChanged(w, w', name, calm);
      case Abort => SameSubs(w, w', calm);
      case Invalidate => SameSubs(w, w', calm);
    }
  }

  lemma NextKeeps(w: World, calm: bool)
    requires Inv(w, calm) && Enabled(w, Next)
    ensures Inv(Moved(w), calm)
  {
    hide Good, At;
    var w' := Moved(w);
    Order(w);
    Order(w');
    if w.pc == 14 && calm {
      forall m | m in w.subs
        ensures Good(w'.subs[m], TrustIn(w'), StageOf(w', m, calm))
      {
        if w.subs[m].want.None? {
          AbsentGood(w.subs[m], TrustIn(w), StageOf(w, m, calm));
        }
        GoodWeaker(w.subs[m], TrustIn(w), NotAbove, TrustIn(w'), NotAbove);
      }
    } else {
      SameSubs(w, w', calm);
    }
  }

  lemma EnterKeeps(w: World, calm: bool)
    requires Inv(w, calm) && Enabled(w, Enter)
    ensures Inv(w.(open := true), calm)
  {
    hide Good, Quiet, At;
    var w' := w.(open := true);
    Order(w);
    Order(w');
    if w.pc == 12 && calm {
      forall m | m in w.subs
        ensures Good(w'.subs[m], TrustIn(w'), StageOf(w', m, calm))
      {
        EnterGood(w.subs[m], TrustIn(w), StageOf(w, m, calm));
      }
    } else {
      SameSubs(w, w', calm);
    }
  }

  lemma CreateKeeps(w: World, name: string, calm: bool)
    requires Inv(w, calm) && Enabled(w, CreateSts(name))
    ensures Inv(Apply(w, CreateSts(name)), calm)
  {
    hide Good, At;
    var w', s, stage := Apply(w, CreateSts(name)), w.subs[name], StageOf(w, name, calm);
    Order(w);
    Order(w');
    GoodWeaker(s, TrustIn(w), stage, TrustIn(w'), stage);
    CreateGood(s, TrustIn(w'), stage);
    OneChanged(w, w', name, calm);
  }

  lemma DbKeeps(w: World, e: Event, calm: bool)
    requires Inv(w, calm) && Enabled(w, e)
    requires e.LoseDb? || e.DoRemoveNode? || e.GainDb?
    ensures Inv(Apply(w, e), calm)
  {
    hide Good, RemoveNodeFrom, RemoveTargets, KeepsSomeDb, At;
    var w', s := Apply(w, e), w.subs[e.name];
    Order(w);
    Order(w');
    if e.GainDb? {
      GoodWeaker(s, TrustIn(w), Anywhere, Unusable, Anywhere);
      GainGood(s, e.vnodes);
    } else {
      GoodWeaker(s, TrustIn(w), Anywhere, TrustIn(w'), Anywhere);
      LoseGood(s, w'.subs[e.name].db, TrustIn(w'));
    }
    OneChanged(w, w', e.name, calm);
  }

  lemma UninstallKeeps(w: World, name: string, calm: bool)
    requires Inv(w, calm) && Enabled(w, DoUninstall(name)) && Orderly(w, DoUninstall(name))
    ensures Inv(Apply(w, DoUninstall(name)), calm)
  {
    hide Good, TopDown, UninstallTargets, Uninstalled, KeepsSomeInstalled, At;
    var w', s, stage := Apply(w, DoUninstall(name)), w.subs[name], StageOf(w, name, calm);
    Order(w);
    Order(w');
    UninstallGood(s, TrustIn(w), stage);
    if UninstallTargets(s) == [] {
      GoodWeaker(s, TrustIn(w), stage, TrustIn(w'), StageOf(w', name, calm));
    } else {
      GoodWeaker(Uninstalled(s), Unusable, stage, TrustIn(w'), StageOf(w', name, calm));
    }
    OneChanged(w, w', name, calm);
  }

  lemma GateKeeps(w: World, e: Event, calm: bool)
    requires Inv(w, calm) && Enabled(w, e)
    requires e.Resize? || e.Delete?
    ensures Inv(Apply(w, e), calm)
  {
    hide Good, Gate, Resized, Deleted, At;
    var w', s := Apply(w, e), w.subs[e.name];
    Order(w);
    Order(w');
    var stage := if StageOf(w, e.name, calm).Anywhere? then Anywhere else Guarded;
    GoodWeaker(s, TrustIn(w), StageOf(w, e.name, calm), TrustIn(w), stage);
    if e.Resize? {
      ResizeGood(s, TrustIn(w), stage);
    } else {
      DeleteGood(s, TrustIn(w), stage);
    }
    GoodWeaker(w'.subs[e.name], TrustIn(w), if stage.Anywhere? then Anywhere else NotAbove, TrustIn(w'),
      StageOf(w', e.name, calm));
    OneChanged(w, w', e.name, calm);
  }

  lemma GatherKeeps(w: World, e: Event, calm: bool)
    requires Inv(w, calm) && Enabled(w, e) && (e.Gather? || e.GatherFails?)
    ensures Inv(Apply(w, e), calm)
  {
    hide Good, Collected, At;
    var w' := Apply(w, e);
    Order(w);
    Order(w');
    forall m | m in w.subs
      ensures Good(w'.subs[m], TrustIn(w'), StageOf(w', m, calm))
    {
      var stage := StageOf(w, m, calm);
      GoodWeaker(w.subs[m], TrustIn(w), stage, Unusable, stage);
      if e.Gather? {
        CollectGood(w.subs[m], stage);
        GoodWeaker(w'.subs[m], Right, stage, TrustIn(w'), StageOf(w', m, calm));
      } else {
        EmptyGood(w.subs[m], stage);
      }
    }
  }

  lemma RefreshKeeps(w: World, calm: bool)
    requires Inv(w, calm) && Enabled(w, Refresh) && Orderly(w, Refresh) && Emptied(w)
    ensures Inv(Apply(w, Refresh), calm)
  {
    hide Good, Refreshed, At;
    var w' := Apply(w, Refresh);
    Order(w);
    Order(w');
    forall m | m in w.subs
      ensures Good(w'.subs[m], TrustIn(w'), StageOf(w', m, calm))
    {
      var s, stage := w.subs[m], StageOf(w, m, calm);
      if w.cache.Fresh? {
        RefreshGood(s, stage);
        GoodWeaker(w'.subs[m], Right, if stage.Removable? then Guarded else Counted, TrustIn(w'), StageOf(w', m, calm));
      } else {
        GoodWeaker(s, AsFarAsTheyGo, stage, AsFarAsTheyGo, Anywhere);
        BlindRefreshGood(s);
        GoodWeaker(w'.subs[m], AsFarAsTheyGo, NotAbove, TrustIn(w'), StageOf(w', m, calm));
      }
    }
  }

  lemma InstallKeeps(w: World, order: seq<string>, base: nat, calm: bool)
    requires Inv(w, calm) && Enabled(w, DoInstall(order, base)) && OrderlyOrCalm(w, DoInstall(order, base), calm)
    ensures Inv(Apply(w, DoInstall(order, base)), calm)
  {
    hide Good, InstallTargets, Quiet, InstallAll, At, NoGap;
    var w' := Apply(w, DoInstall(order, base));
    Order(w);
    Order(w');
    if w'.subs == w.subs {
      SameSubs(w, w', calm);
    } else {
      forall n | n in w.subs
        ensures Good(w.subs[n], Unusable, Anywhere) && (n in order ==> Ready(w.subs[n]))
      {
        GoodWeaker(w.subs[n], TrustIn(w), StageOf(w, n, calm), Unusable, Anywhere);
        GoodWeaker(w.subs[n], TrustIn(w), StageOf(w, n, calm), AsFarAsTheyGo, Anywhere);
        if calm && At(w, Install) {
          NotAboveFollows(w.subs[n], TrustIn(w));
        }
      }
      InstallAllOk(w.subs, order, base);
    }
  }

  /** A failed collection leaves no facts at all. */
  ghost predicate Emptied(w: World) {
    w.cache.Failed? ==> forall n | n in w.subs :: w.subs[n].facts == []
  }

  lemma {:induction false} InstallKeepsFacts(subs: map<string, Sub>, order: seq<string>, base: nat)
    requires forall n | n in order :: n in subs
    ensures InstallAll(subs, order, base).Keys == subs.Keys
    ensures forall n | n in subs :: InstallAll(subs, order, base)[n].facts == subs[n].facts
    decreases |order|
  {
    if order != [] {
      var s := subs[order[0]];
      InstallKeepsFacts(subs[order[0] := InstalledInto(s, base)], order[1..], base + |InstallTargets(s)|);
    }
  }

  lemma EmptiedKept(w: World, e: Event)
    requires Emptied(w) && Enabled(w, e)
    ensures Emptied(Apply(w, e))
  {
    hide Collected, Detail, Gate, UninstallTargets, RemoveTargets, InstallTargets, Numbered, At, Finished, NoneDown,
      KeepsSomeDb, KeepsSomeInstalled, ToShrink, Count, Installed, WithDb, Vnodes, AtUninstall, AtObjs, AtInstall,
      Quiet, InstallAll;
    if e.DoInstall? {
      InstallKeepsFacts(w.subs, e.order, e.base);
    }
  }

  lemma NothingFails(w: World, e: Event, calm: bool)
    requires OrderlyOrCalm(w, e, calm)
    ensures !e.UninstallFails? && !e.InstallFails?
  {
  }

  lemma Step(w: World, e: Event, calm: bool)
    requires Inv(w, calm) && Emptied(w) && Enabled(w, e) && OrderlyOrCalm(w, e, calm)
    ensures Inv(Apply(w, e), calm) && Emptied(Apply(w, e))
  {
    hide Inv, Orderly, Emptied, Finished, At;
    EmptiedKept(w, e);
    match e {
      case Next => NextKeeps(w, calm);
      case Enter => EnterKeeps(w, calm);
      case Gather => GatherKeeps(w, e, calm);
      case GatherFails => GatherKeeps(w, e, calm);
      case Refresh => RefreshKeeps(w, calm);
      case DoInstall(order, base) => InstallKeeps(w, order, base, calm);
      case CreateSts(name) => CreateKeeps(w, name, calm);
      case LoseDb(_, _) => DbKeeps(w, e, calm);
      case DoRemoveNode(_) => DbKeeps(w, e, calm);
      case GainDb(_, _) => DbKeeps(w, e, calm);
      case DoUninstall(name) => UninstallKeeps(w, name, calm);
      case Resize(_) => GateKeeps(w, e, calm);
      case Delete(_) => GateKeeps(w, e, calm);
      case _ =>
        NothingFails(w, e, calm);
        OutsideStep(w, e, calm);
    }
  }

  // ---------------------------------------------------------------- runs

  const START := World(map[], Stale, 0, {}, false)

  ghost predicate IsRun(run: seq<World>, events: seq<Event>) {
    && |run| == |events| + 1
    && run[0] == START
    && forall k | 0 <= k < |events| :: Enabled(run[k], events[k]) && run[k + 1] == Apply(run[k], events[k])
  }

  /** Every pod with an admintools.conf entry or the database is a pod of its statefulset. */
  ghost predicate NoOrphans(w: World) {
    forall name | name in w.subs ::
      forall i | i in w.subs[name].nodes || i in w.subs[name].db :: i < Replicas(w.subs[name])
  }

  /** The installed pods of each subcluster are the first ones, and their node numbers increase with
      the pod index. */
  ghost predicate InPodOrder(w: World) {
    forall name | name in w.subs ::
      && (exists n :: UpTo(w.subs[name].nodes, n))
      && (forall i, j | i in w.subs[name].nodes && j in w.subs[name].nodes && i < j ::
            w.subs[name].nodes[i] < w.subs[name].nodes[j])
  }

  lemma InvGives(w: World, calm: bool)
    requires Inv(w, calm)
    ensures NoOrphans(w) && InPodOrder(w)
  {
    hide FactsMeet, CountMeets, StageOf, TrustIn;
  }

  lemma {:induction false} RunKeepsInv(run: seq<World>, events: seq<Event>, k: nat, calm: bool)
    requires IsRun(run, events) && k < |run|
    requires forall j | 0 <= j < k :: OrderlyOrCalm(run[j], events[j], calm)
    ensures Inv(run[k], calm) && Emptied(run[k])
  {
    hide Inv, Emptied, OrderlyOrCalm, Enabled, Apply;
    if k == 0 {
      StartInv(calm);
    } else {
      RunKeepsInv(run, events, k - 1, calm);
      assert Enabled(run[k - 1], events[k - 1]) && run[k - 1 + 1] == Apply(run[k - 1], events[k - 1]);
      Step(run[k - 1], events[k - 1], calm);
    }
  }

  lemma StartInv(calm: bool)
    ensures Inv(START, calm) && Emptied(START)
  {
  }

  /** The main result: over every orderly run, no statefulset is ever below a pod that is in
      admintools.conf or has the database, and installation stays in pod order. */
  lemma NothingOrphaned(run: seq<World>, events: seq<Event>, k: nat)
    requires IsRun(run, events) && k < |run|
    requires forall j | 0 <= j < k :: Orderly(run[j], events[j])
    ensures NoOrphans(run[k]) && InPodOrder(run[k])
  {
    hide Inv, NoOrphans, InPodOrder, IsRun, Orderly;
    RunKeepsInv(run, events, k, false);
    InvGives(run[k], false);
  }

  /** When the spec is not read again from the status before the uninstall to the install, nothing has
      to be asked of that install: it is orderly by itself. */
  lemma CalmInstallsAreOrderly(run: seq<World>, events: seq<Event>, k: nat)
    requires IsRun(run, events) && k < |events|
    requires forall j | 0 <= j < k ::
      Calm(run[j], events[j]) && (Orderly(run[j], events[j]) || (events[j].DoInstall? && At(run[j], Install)))
    requires events[k].DoInstall? && At(run[k], Install)
    ensures Orderly(run[k], events[k])
    ensures NoOrphans(run[k]) && InPodOrder(run[k])
  {
    hide NoOrphans, InPodOrder, Good, NoGap, At, Calm, Orderly, Inv, Enabled, Apply;
    assert forall j | 0 <= j < k :: OrderlyOrCalm(run[j], events[j], true);
    RunKeepsInv(run, events, k, true);
    InvGives(run[k], true);
    InstallIsOrderly(run[k], events[k]);
  }

  lemma InstallIsOrderly(w: World, e: Event)
    requires Inv(w, true) && e.DoInstall? && At(w, Install)
    ensures Orderly(w, e)
  {
    hide Good, NoGap, At;
    Order(w);
    forall n | n in w.subs
      ensures NoGap(w.subs[n])
    {
      NotAboveFollows(w.subs[n], TrustIn(w));
    }
  }
}
