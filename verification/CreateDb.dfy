/** The host order of create_db (pkg/controllers/vdb/createdb_reconcile.go): the pods of the first
    primary subcluster, sorted by their compat21 node name. */
module CreateDb {
  import opened Text
  import opened PodFacts
  import opened ScaleDown
  import opened ScaleDownSafety
  import AdmintoolsConf

  function NodeNameOf(s: Sub, pod: nat): string {
    if pod in s.nodes then AdmintoolsConf.NodeName(s.nodes[pod]) else ""
  }

  /** What sorting by node name may give: the same pods, none before one with a smaller name. */
  ghost predicate IsSortOf(s: Sub, pods: seq<nat>, sorted: seq<nat>) {
    && multiset(sorted) == multiset(pods)
    && forall i, j | 0 <= i < j < |sorted| :: !LexLess(NodeNameOf(s, sorted[j]), NodeNameOf(s, sorted[i]))
  }

  /** Of two node numbers, the first smaller, the names sort the same way. */
  predicate SortsAlike(m: nat, n: nat)
    requires m < n
  {
    Pad4Wider(m, n);
    |Pad4(m)| == |Pad4(n)| || m * Pow10(|Pad4(n)| - |Pad4(m)|) <= n
  }

  lemma Pad4Wider(m: nat, n: nat)
    requires m <= n
    ensures |Pad4(m)| <= |Pad4(n)|
  {
    DecimalWider(m, n);
  }

  /** Names of one width sort like the numbers.  Of different widths they do so exactly when the
      smaller number, with zeros appended up to the width of the larger one, is not beyond it. */
  lemma NamesSortExact(m: nat, n: nat)
    requires m < n
    ensures LexLess(AdmintoolsConf.NodeName(m), AdmintoolsConf.NodeName(n)) <==> SortsAlike(m, n)
    ensures AdmintoolsConf.NodeName(m) != AdmintoolsConf.NodeName(n)
  {
    hide Decimal, LexLess, DigitsValue, Pad4, Pow10;
    Pad4RoundTrip(m);
    Pad4RoundTrip(n);
    Pad4Wider(m, n);
    LexLessPrefix(AdmintoolsConf.NODE_PREFIX, Pad4(m), Pad4(n));
    assert AdmintoolsConf.NodeName(m)[|AdmintoolsConf.NODE_PREFIX|..] == Pad4(m);
    assert AdmintoolsConf.NodeName(n)[|AdmintoolsConf.NODE_PREFIX|..] == Pad4(n);
    if |Pad4(m)| == |Pad4(n)| {
      LexLessIsNumeric(Pad4(m), Pad4(n));
    } else {
      LexLessShorter(Pad4(m), Pad4(n));
    }
  }

  /** The pattern by which the install looks up the name it writes to the indicator file has exactly
      four digits. */
  predicate IsFoundByInstall(name: string) {
    |name| == |AdmintoolsConf.NODE_PREFIX| + 4
  }

  /** It finds the nodes up to 9999; at node 10000 the install stops. */
  lemma FoundExact(n: nat)
    ensures IsFoundByInstall(AdmintoolsConf.NodeName(n)) <==> n <= 9999
  {
    hide Pad4, Decimal;
    if n <= 9999 {
      Pad4Width(n);
    } else {
      Pad4Wider(10000, n);
      FiveDigits();
    }
  }

  lemma FiveDigits()
    ensures |Pad4(10000)| == 5
  {
    assert Decimal(1) == "1";
    assert Decimal(10) == "10";
    assert Decimal(100) == "100";
    assert Decimal(1000) == "1000";
  }

  /** Up to 9999 all names have one width. */
  lemma FourDigitsSortAlike(m: nat, n: nat)
    requires m < n <= 9999
    ensures SortsAlike(m, n)
  {
    Pad4Width(m);
    Pad4Width(n);
  }

  /** The first two names that do not. */
  lemma FiveDigitsSortFirst()
    ensures LexLess(AdmintoolsConf.NodeName(10000), AdmintoolsConf.NodeName(9999))
  {
  }

  /** The pods are installed, and their node numbers increase. */
  ghost predicate Increasing(s: Sub, pods: seq<nat>) {
    && (forall i | i in pods :: i in s.nodes)
    && (forall i, j | 0 <= i < j < |pods| :: s.nodes[pods[i]] < s.nodes[pods[j]])
  }

  /** The first pod has the smallest name. */
  ghost predicate FirstAligned(s: Sub, pods: seq<nat>)
    requires Increasing(s, pods)
  {
    forall j | 0 < j < |pods| :: SortsAlike(s.nodes[pods[0]], s.nodes[pods[j]])
  }

  ghost predicate Aligned(s: Sub, pods: seq<nat>)
    requires Increasing(s, pods)
  {
    forall i, j | 0 <= i < j < |pods| :: SortsAlike(s.nodes[pods[i]], s.nodes[pods[j]])
  }

  lemma Members(s: Sub, pods: seq<nat>, sorted: seq<nat>)
    requires IsSortOf(s, pods, sorted)
    ensures |sorted| == |pods| && forall i :: i in sorted <==> i in pods
  {
    assert |sorted| == |multiset(sorted)| == |pods|;
    assert forall i :: i in sorted <==> i in multiset(sorted);
    assert forall i :: i in pods <==> i in multiset(pods);
  }

  /** The sort puts the first pod first exactly when its name is the smallest. */
  lemma FirstExact(s: Sub, pods: seq<nat>, sorted: seq<nat>)
    requires Increasing(s, pods) && IsSortOf(s, pods, sorted) && pods != []
    ensures sorted != [] && (sorted[0] == pods[0] <==> FirstAligned(s, pods))
  {
    hide LexLess, SortsAlike, AdmintoolsConf.NodeName;
    Members(s, pods, sorted);
    if sorted[0] == pods[0] {
      forall j | 0 < j < |pods|
        ensures SortsAlike(s.nodes[pods[0]], s.nodes[pods[j]])
      {
        assert pods[j] in sorted;
        var p :| 0 <= p < |sorted| && sorted[p] == pods[j];
        NamesSortExact(s.nodes[pods[0]], s.nodes[pods[j]]);
        LexLessTotal(NodeNameOf(s, pods[0]), NodeNameOf(s, pods[j]));
      }
    }
    if FirstAligned(s, pods) {
      assert pods[0] in sorted && sorted[0] in pods;
      var p :| 0 <= p < |sorted| && sorted[p] == pods[0];
      var q :| 0 <= q < |pods| && pods[q] == sorted[0];
      if q > 0 {
        NamesSortExact(s.nodes[pods[0]], s.nodes[pods[q]]);
      }
    }
  }

  lemma RestIsSorted(s: Sub, pods: seq<nat>, sorted: seq<nat>)
    requires IsSortOf(s, pods, sorted) && pods != [] && sorted != [] && sorted[0] == pods[0]
    ensures IsSortOf(s, pods[1..], sorted[1..])
  {
    hide LexLess, NodeNameOf;
    assert pods == [pods[0]] + pods[1..] && sorted == [sorted[0]] + sorted[1..];
    assert multiset(sorted[1..]) == multiset(sorted) - multiset{sorted[0]};
    assert multiset(pods[1..]) == multiset(pods) - multiset{pods[0]};
  }

  lemma NothingSorted(s: Sub, sorted: seq<nat>)
    requires IsSortOf(s, [], sorted)
    ensures sorted == []
  {
    assert |sorted| == |multiset(sorted)|;
  }

  /** Whatever the sort does with pods whose node numbers increase, it leaves them where they are
      exactly when all of their names sort like the numbers. */
  lemma {:induction false} SortExact(s: Sub, pods: seq<nat>, sorted: seq<nat>)
    requires Increasing(s, pods) && IsSortOf(s, pods, sorted)
    ensures sorted == pods <==> Aligned(s, pods)
  {
    hide IsSortOf, SortsAlike;
    if pods == [] {
      NothingSorted(s, sorted);
    } else {
      FirstExact(s, pods, sorted);
      assert pods == [pods[0]] + pods[1..] && sorted == [sorted[0]] + sorted[1..];
      if sorted[0] == pods[0] {
        RestIsSorted(s, pods, sorted);
        SortExact(s, pods[1..], sorted[1..]);
        assert sorted == pods <==> sorted[1..] == pods[1..];
      }
    }
  }

  /** With k-safety 0 only the first pod goes to create_db. */
  function Hosts(sorted: seq<nat>, kSafety0: bool): seq<nat>
    requires sorted != []
  {
    if kSafety0 then sorted[..1] else sorted
  }

  /** Over every orderly run: the host list of create_db is in pod order exactly when the node names
      sort like the numbers, for k-safety 0 when the name of the first pod is the smallest. */
  lemma CreateDbInPodOrder(
    run: seq<World>, events: seq<Event>, k: nat, name: string, size: nat, sorted: seq<nat>, kSafety0: bool)
    requires IsRun(run, events) && k < |run|
    requires forall j | 0 <= j < k :: Orderly(run[j], events[j])
    requires name in run[k].subs && size > 0
    requires forall i: nat | i < size :: i in run[k].subs[name].nodes
    requires IsSortOf(run[k].subs[name], Upto(size), sorted)
    ensures var s := run[k].subs[name];
            && Increasing(s, Upto(size)) && sorted != []
            && (Hosts(sorted, kSafety0) == Hosts(Upto(size), kSafety0)
                <==> if kSafety0 then FirstAligned(s, Upto(size)) else Aligned(s, Upto(size)))
  {
    hide IsRun, Orderly, IsSortOf, SortsAlike;
    NothingOrphaned(run, events, k);
    FirstExact(run[k].subs[name], Upto(size), sorted);
    SortExact(run[k].subs[name], Upto(size), sorted);
    assert sorted[..1] == [sorted[0]] && Upto(size)[..1] == [Upto(size)[0]];
  }

  /** In particular it is for all names that the install can have written to an indicator file. */
  lemma FoundInPodOrder(s: Sub, pods: seq<nat>)
    requires Increasing(s, pods) && forall i | i in pods :: IsFoundByInstall(NodeNameOf(s, i))
    ensures Aligned(s, pods) && FirstAligned(s, pods)
  {
    hide SortsAlike, Pad4, IsFoundByInstall, AdmintoolsConf.NodeName;
    forall i, j | 0 <= i < j < |pods|
      ensures SortsAlike(s.nodes[pods[i]], s.nodes[pods[j]])
    {
      assert pods[j] in pods && pods[i] in pods;
      FoundExact(s.nodes[pods[j]]);
      FourDigitsSortAlike(s.nodes[pods[i]], s.nodes[pods[j]]);
    }
  }

  /** So over every orderly run the host list of create_db is in pod order. */
  lemma CreateDbStaysInPodOrder(
    run: seq<World>, events: seq<Event>, k: nat, name: string, size: nat, sorted: seq<nat>, kSafety0: bool)
    requires IsRun(run, events) && k < |run|
    requires forall j | 0 <= j < k :: Orderly(run[j], events[j])
    requires name in run[k].subs && size > 0
    requires forall i: nat | i < size ::
      i in run[k].subs[name].nodes && IsFoundByInstall(NodeNameOf(run[k].subs[name], i))
    requires IsSortOf(run[k].subs[name], Upto(size), sorted)
    ensures sorted != [] && Hosts(sorted, kSafety0) == Hosts(Upto(size), kSafety0)
  {
    hide IsRun, Orderly, IsSortOf, SortsAlike, IsFoundByInstall, NodeNameOf, Aligned, FirstAligned, Increasing;
    CreateDbInPodOrder(run, events, k, name, size, sorted, kSafety0);
    FoundInPodOrder(run[k].subs[name], Upto(size));
  }
}
