/** Pod facts and the status they are compressed to (pkg/controllers/vdb/podfacts.go and
    status_reconcile.go).  A running pod is asked; of any other pod only the counts and the node
    names in the status are known. */
module PodFacts {
  import opened Text

  datatype Fact = Fact(installed: bool, db: bool, vnode: string, running: bool)

  /** What is true of one subcluster, and what the operator holds about it. */
  datatype Sub = Sub(
    want: Option<nat>,      // size in the spec; None when the subcluster is not in it
    sts: Option<nat>,       // replicas of the statefulset
    nodes: map<nat, nat>,   // pod index to node number, for pods in admintools.conf
    marks: set<nat>,        // pods with an install indicator file
    db: map<nat, string>,   // pod index to vnode name, for pods with the database
    running: set<nat>,
    installCount: nat,      // the status of the subcluster: two counts and a vnode name per pod
    dbCount: nat,
    vnodes: seq<string>,
    facts: seq<Fact>        // as last collected
  )

  /** A subcluster that is not in the spec is treated as having size 0. */
  function Size(s: Sub): nat {
    if s.want.Some? then s.want.value else 0
  }

  function Replicas(s: Sub): nat {
    if s.sts.Some? then s.sts.value else 0
  }

  /** Facts and status cover this many pods. */
  function Span(s: Sub): nat {
    if Size(s) < Replicas(s) then Replicas(s) else Size(s)
  }

  function FactOf(s: Sub, i: nat): Fact {
    var inherited := if i < |s.vnodes| then s.vnodes[i] else "";
    if i in s.running then Fact(i in s.marks, i in s.db, if i in s.db then s.db[i] else inherited, true)
    else Fact(i < s.installCount, i < s.dbCount, inherited, false)
  }

  function Collected(s: Sub): Sub {
    s.(facts := seq(Span(s), i requires i >= 0 => FactOf(s, i)))
  }

  function Count(bs: seq<bool>): nat {
    if bs == [] then 0 else Count(bs[..|bs| - 1]) + if bs[|bs| - 1] then 1 else 0
  }

  const UNKNOWN := Fact(false, false, "", false)

  /** The detail of the status; a pod without facts keeps the zero entry. */
  function Detail(s: Sub): seq<Fact> {
    seq(Span(s), i requires i >= 0 => if i < |s.facts| then s.facts[i] else UNKNOWN)
  }

  function Installed(fs: seq<Fact>): seq<bool> {
    seq(|fs|, i requires 0 <= i < |fs| => fs[i].installed)
  }

  function WithDb(fs: seq<Fact>): seq<bool> {
    seq(|fs|, i requires 0 <= i < |fs| => fs[i].db)
  }

  function Vnodes(fs: seq<Fact>): seq<string> {
    seq(|fs|, i requires 0 <= i < |fs| => fs[i].vnode)
  }

  function Refreshed(s: Sub): Sub {
    var d := Detail(s);
    s.(installCount := Count(Installed(d)), dbCount := Count(WithDb(d)), vnodes := Vnodes(d))
  }

  // ---------------------------------------------------------------- counting

  lemma {:induction false} CountBelow(bs: seq<bool>, n: nat)
    requires n <= |bs| && forall i | 0 <= i < |bs| :: bs[i] == (i < n)
    ensures Count(bs) == n
  {
    if bs != [] {
      var m := |bs| - 1;
      assert bs[m] == (m < n);
      CountBelow(bs[..m], if n == |bs| then n - 1 else n);
    }
  }

  lemma {:induction false} CountLess(bs: seq<bool>, cs: seq<bool>)
    requires |bs| == |cs| && forall i | 0 <= i < |bs| :: bs[i] ==> cs[i]
    ensures Count(bs) <= Count(cs)
  {
    if bs != [] {
      CountLess(bs[..|bs| - 1], cs[..|cs| - 1]);
    }
  }

  lemma {:induction false} CountAtMost(bs: seq<bool>)
    ensures Count(bs) <= |bs|
  {
    if bs != [] {
      CountAtMost(bs[..|bs| - 1]);
    }
  }

  lemma {:induction false} CountIsSize(bs: seq<bool>)
    ensures Count(bs) == |set i | 0 <= i < |bs| && bs[i]|
  {
    if bs != [] {
      var n := |bs| - 1;
      CountIsSize(bs[..n]);
      var before := set i | 0 <= i < n && bs[..n][i];
      assert (set i | 0 <= i < |bs| && bs[i]) == before + if bs[n] then {n} else {};
    }
  }

  /** The counts of the status are numbers of pods, as far as the facts go. */
  lemma StatusCounts(s: Sub)
    ensures var installed := set i | 0 <= i < |s.facts| && i < Span(s) && s.facts[i].installed;
            var withDb := set i | 0 <= i < |s.facts| && i < Span(s) && s.facts[i].db;
            Refreshed(s).installCount == |installed| && Refreshed(s).dbCount == |withDb|
    ensures |Refreshed(s).vnodes| == Span(s)
    ensures forall i | 0 <= i < Span(s) :: Refreshed(s).vnodes[i] == if i < |s.facts| then s.facts[i].vnode else ""
  {
    var d := Detail(s);
    CountIsSize(Installed(d));
    CountIsSize(WithDb(d));
    assert (set i | 0 <= i < |d| && Installed(d)[i]) == set i | 0 <= i < |s.facts| && i < Span(s) && s.facts[i].installed;
    assert (set i | 0 <= i < |d| && WithDb(d)[i]) == set i | 0 <= i < |s.facts| && i < Span(s) && s.facts[i].db;
  }

  /** All true entries come first. */
  ghost predicate IsPrefix(bs: seq<bool>) {
    forall i, j | 0 <= i < j < |bs| :: bs[j] ==> bs[i]
  }

  /** A count tells which entries are true exactly when those come first. */
  lemma {:induction false} CountTells(bs: seq<bool>)
    ensures IsPrefix(bs) <==> forall i | 0 <= i < |bs| :: bs[i] == (i < Count(bs))
  {
    if IsPrefix(bs) {
      PrefixCount(bs);
    }
  }

  lemma {:induction false} PrefixCount(bs: seq<bool>)
    requires IsPrefix(bs)
    ensures forall i | 0 <= i < |bs| :: bs[i] == (i < Count(bs))
  {
    if bs != [] {
      var m := |bs| - 1;
      PrefixCount(bs[..m]);
      CountAtMost(bs[..m]);
      if bs[m] {
        assert forall i | 0 <= i < m :: bs[..m][i];
        CountBelow(bs[..m], m);
      }
      forall i | 0 <= i < |bs|
        ensures bs[i] == (i < Count(bs))
      {
        if i < m {
          assert bs[..m][i] == bs[i];
        }
      }
    }
  }

  // ---------------------------------------------------------------- compressing and collecting again

  predicate SameState(f: Fact, g: Fact) {
    f.installed == g.installed && f.db == g.db && f.vnode == g.vnode
  }

  /** The facts collected while only some of the pods that ran before are still running. */
  function Again(s: Sub, stillRunning: set<nat>): Sub {
    Collected(Refreshed(s).(running := stillRunning))
  }

  ghost predicate Lossless(s: Sub)
    requires |s.facts| == Span(s)
  {
    forall stillRunning | stillRunning <= s.running ::
      forall i | 0 <= i < Span(s) :: SameState(Again(s, stillRunning).facts[i], s.facts[i])
  }

  lemma StoppedFact(s: Sub, stillRunning: set<nat>, i: nat)
    requires s == Collected(s) && i < Span(s) && stillRunning <= s.running
    ensures var f, g := Again(s, stillRunning).facts[i], s.facts[i];
            && f.vnode == g.vnode
            && (i in stillRunning ==> SameState(f, g))
            && (i !in stillRunning ==> f.installed == (i < Count(Installed(s.facts))) && f.db == (i < Count(WithDb(s.facts))))
  {
    assert Detail(s) == s.facts;
    var r := Refreshed(s).(running := stillRunning);
    assert Again(s, stillRunning).facts[i] == FactOf(r, i);
    assert s.facts[i] == FactOf(s, i);
    assert r.vnodes[i] == s.facts[i].vnode;
  }

  /** Compressing the facts to the status and collecting again, with any of the running pods
      stopped meanwhile, gives back the same facts exactly when the installed pods and the pods with
      the database come first. */
  lemma LosslessExact(s: Sub)
    requires s == Collected(s) && |s.facts| == Span(s)
    ensures Lossless(s) <==> IsPrefix(Installed(s.facts)) && IsPrefix(WithDb(s.facts))
  {
    hide Collected, Count, Refreshed, Again, Span;
    Covered(s);
    CountTells(Installed(s.facts));
    CountTells(WithDb(s.facts));
    if IsPrefix(Installed(s.facts)) && IsPrefix(WithDb(s.facts)) {
      forall stillRunning, i | stillRunning <= s.running && 0 <= i < Span(s)
        ensures SameState(Again(s, stillRunning).facts[i], s.facts[i])
      {
        StoppedFact(s, stillRunning, i);
        assert Installed(s.facts)[i] == s.facts[i].installed && WithDb(s.facts)[i] == s.facts[i].db;
      }
    }
    if Lossless(s) {
      forall i | 0 <= i < Span(s)
        ensures Installed(s.facts)[i] == (i < Count(Installed(s.facts)))
        ensures WithDb(s.facts)[i] == (i < Count(WithDb(s.facts)))
      {
        StoppedFact(s, {}, i);
        assert SameState(Again(s, {}).facts[i], s.facts[i]);
      }
    }
  }

  lemma Covered(s: Sub)
    ensures s == Collected(s) ==> |s.facts| == Span(s)
    ensures forall r :: |Again(s, r).facts| == Span(s)
  {
  }

  /** A running pod with the database has the vnode name of that database in its fact and, after a
      refresh, in the status; a pod that is down keeps the name it has there. */
  lemma VnodesKnown(s: Sub, i: nat)
    requires i < Span(s)
    ensures var c, r := Collected(s), Refreshed(Collected(s));
            var vnode := if i in s.running && i in s.db then s.db[i] else if i < |s.vnodes| then s.vnodes[i] else "";
            |c.facts| == |r.vnodes| == Span(s) && c.facts[i].vnode == vnode && r.vnodes[i] == vnode
  {
    hide Count;
    assert Detail(Collected(s))[i] == Collected(s).facts[i] == FactOf(s, i);
  }

  // ---------------------------------------------------------------- the loops

  /** The facts of one pod, filled in step by step. */
  method CollectPod(s: Sub, i: nat) returns (fact: Fact)
    ensures fact == FactOf(s, i)
    ensures fact.running <==> i in s.running
    ensures i in s.running ==> (fact.installed <==> i in s.marks) && (fact.db <==> i in s.db)
    ensures i in s.running && i in s.db ==> fact.vnode == s.db[i]
    ensures i !in s.running ==> (fact.installed <==> i < s.installCount) && (fact.db <==> i < s.dbCount)
    ensures i !in s.running || i !in s.db ==> fact.vnode == if i < |s.vnodes| then s.vnodes[i] else ""
  {
    var installed := s.installCount > i;
    var db := s.dbCount > i;
    var vnode := "";
    if i < |s.vnodes| {
      vnode := s.vnodes[i];
    }
    if i in s.running {
      installed := i in s.marks;
      db := false;
      if i in s.db {
        db := true;
        vnode := s.db[i];
      }
    }
    return Fact(installed, db, vnode, i in s.running);
  }

  method CollectSubcluster(s: Sub) returns (facts: seq<Fact>)
    ensures facts == Collected(s).facts
    ensures (s.want.Some? ==> s.want.value <= |facts|) && (s.sts.Some? ==> s.sts.value <= |facts|)
    ensures |facts| == 0 || s.want == Some(|facts|) || s.sts == Some(|facts|)
  {
    var maxStsSize := Size(s);
    if s.sts.Some? && s.sts.value > maxStsSize {
      maxStsSize := s.sts.value;
    }
    facts := [];
    for i := 0 to maxStsSize
      invariant |facts| == i && forall k | 0 <= k < i :: facts[k] == FactOf(s, k)
    {
      var fact := CollectPod(s, i);
      facts := facts + [fact];
    }
  }

  /** Grows the detail, by one entry at least, and cuts it to size. */
  method ResizeDetail(detail: seq<Fact>, size: nat) returns (r: seq<Fact>)
    ensures |r| == size
    ensures forall i | 0 <= i < size :: r[i] == if i < |detail| then detail[i] else UNKNOWN
  {
    r := detail;
    var ok := true;
    while ok
      invariant |r| >= |detail| && r[..|detail|] == detail
      invariant forall i | |detail| <= i < |r| :: r[i] == UNKNOWN
      invariant !ok ==> |r| >= size
      decreases ok, size - |r|
    {
      r := r + [UNKNOWN];
      ok := |r| < size;
    }
    if |r| > size {
      r := r[..size];
    }
  }

  /** Copies the facts into the detail. */
  method FillDetail(s: Sub) returns (detail: seq<Fact>)
    ensures detail == Detail(s)
  {
    detail := ResizeDetail([], Span(s));
    for i := 0 to |detail|
      invariant |detail| == Span(s)
      invariant forall k | 0 <= k < |detail| :: detail[k] == if k < i && k < |s.facts| then s.facts[k] else UNKNOWN
    {
      if i < |s.facts| {
        detail := detail[i := s.facts[i]];
      }
    }
  }

  method CalculateSubclusterStatus(s: Sub) returns (installCount: nat, dbCount: nat, vnodes: seq<string>)
    ensures s.(installCount := installCount, dbCount := dbCount, vnodes := vnodes) == Refreshed(s)
    ensures installCount == |set i | 0 <= i < |s.facts| && i < Span(s) && s.facts[i].installed|
    ensures dbCount == |set i | 0 <= i < |s.facts| && i < Span(s) && s.facts[i].db|
    ensures |vnodes| == Span(s)
    ensures forall i | 0 <= i < |vnodes| :: vnodes[i] == if i < |s.facts| then s.facts[i].vnode else ""
  {
    StatusCounts(s);
    hide Detail;
    var detail := FillDetail(s);
    installCount, dbCount, vnodes := 0, 0, [];
    for i := 0 to |detail|
      invariant installCount == Count(Installed(detail)[..i]) && dbCount == Count(WithDb(detail)[..i])
      invariant vnodes == Vnodes(detail)[..i]
    {
      assert Installed(detail)[..i + 1][..i] == Installed(detail)[..i];
      assert WithDb(detail)[..i + 1][..i] == WithDb(detail)[..i];
      if detail[i].installed {
        installCount := installCount + 1;
      }
      if detail[i].db {
        dbCount := dbCount + 1;
      }
      vnodes := vnodes + [detail[i].vnode];
    }
    assert Installed(detail)[..|detail|] == Installed(detail);
    assert WithDb(detail)[..|detail|] == WithDb(detail);
  }
}
