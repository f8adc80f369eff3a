/** The order of hosts for revive_db: vdb-gen run-length encodes the node order of an existing
    database (pkg/vdbgen/vdb.go), and the revive reconciler decodes it into a list of pods
    (pkg/controllers/vdb/revivedb_reconcile.go). */
module Revive {
  import opened Text

  datatype Row = Row(name: string, isPrimary: bool)
  datatype Subcluster = Subcluster(name: string, size: nat, isPrimary: bool)
  datatype PodCount = PodCount(index: int, count: int)
  datatype Pod = Pod(sc: nat, index: nat)

  // ---------------------------------------------------------------- decoding

  /** The pod indices of one subcluster, in the order of the list. */
  function Of(list: seq<Pod>, c: nat): (r: seq<nat>)
    ensures |r| <= |list|
  {
    if list == [] then []
    else
      var last := list[|list| - 1];
      Of(list[..|list| - 1], c) + if last.sc == c then [last.index] else []
  }

  /** m pods of subcluster c from pod `start` on. */
  function Run(c: nat, start: nat, m: nat): seq<Pod> {
    seq(m, j requires j >= 0 => Pod(c, start + j))
  }

  /** The list so far, and how many pods of each subcluster are still to come. */
  datatype Progress = Progress(list: seq<Pod>, left: seq<nat>)

  predicate Fits(p: Progress, sizes: seq<nat>) {
    |p.left| == |sizes| && forall c | 0 <= c < |sizes| :: p.left[c] <= sizes[c]
  }

  /** addPodsFromSubcluster */
  function Take(p: Progress, sizes: seq<nat>, c: nat, m: nat): (q: Progress)
    requires Fits(p, sizes) && c < |sizes| && m <= p.left[c]
    ensures Fits(q, sizes)
  {
    Progress(p.list + Run(c, sizes[c] - p.left[c], m), p.left[c := p.left[c] - m])
  }

  /** How many pods an entry of the revive order takes: all that are left when it asks for more than
      that, for none, or for a negative number. */
  function Clamp(left: nat, count: int): (r: nat)
    ensures r <= left
  {
    if left < count || count <= 0 then left else count
  }

  predicate InRange(sizes: seq<nat>, order: seq<PodCount>) {
    forall i | 0 <= i < |order| :: 0 <= order[i].index < |sizes|
  }

  function DecodeOrder(sizes: seq<nat>, order: seq<PodCount>): (p: Progress)
    requires InRange(sizes, order)
    ensures Fits(p, sizes)
  {
    if order == [] then Progress([], sizes)
    else
      var n := |order| - 1;
      var p := DecodeOrder(sizes, order[..n]);
      Take(p, sizes, order[n].index, Clamp(p.left[order[n].index], order[n].count))
  }

  /** The final loop: what the first c subclusters still have. */
  function TakeRest(p: Progress, sizes: seq<nat>, c: nat): (q: Progress)
    requires Fits(p, sizes) && c <= |sizes|
    ensures Fits(q, sizes)
  {
    if c == 0 then p
    else
      var q := TakeRest(p, sizes, c - 1);
      Take(q, sizes, c - 1, q.left[c - 1])
  }

  function Decode(sizes: seq<nat>, order: seq<PodCount>): seq<Pod>
    requires InRange(sizes, order)
  {
    TakeRest(DecodeOrder(sizes, order), sizes, |sizes|).list
  }

  // ---------------------------------------------------------------- every pod exactly once

  lemma {:induction false} OfRun(list: seq<Pod>, c: nat, start: nat, m: nat, d: nat)
    ensures Of(list + Run(c, start, m), d) == Of(list, d) + if d == c then seq(m, j requires j >= 0 => start + j) else []
  {
    if m == 0 {
      assert list + Run(c, start, 0) == list;
    } else {
      var all := list + Run(c, start, m);
      assert all[..|all| - 1] == list + Run(c, start, m - 1);
      assert all[|all| - 1] == Pod(c, start + m - 1);
      OfRun(list, c, start, m - 1, d);
    }
  }

  /** Of every subcluster, exactly the first pods have been taken, in order. */
  ghost predicate InOrder(p: Progress, sizes: seq<nat>) {
    && Fits(p, sizes)
    && (forall c | 0 <= c < |sizes| :: Of(p.list, c) == Upto(sizes[c] - p.left[c]))
    && (forall x | x in p.list :: x.sc < |sizes|)
  }

  lemma TakeInOrder(p: Progress, sizes: seq<nat>, c: nat, m: nat)
    requires InOrder(p, sizes) && c < |sizes| && m <= p.left[c]
    ensures InOrder(Take(p, sizes, c, m), sizes)
  {
    hide Of;
    var q, start := Take(p, sizes, c, m), sizes[c] - p.left[c];
    forall d | 0 <= d < |sizes|
      ensures Of(q.list, d) == Upto(sizes[d] - q.left[d])
    {
      OfRun(p.list, c, start, m, d);
      if d == c {
        assert Upto(start) + seq(m, j requires j >= 0 => start + j) == Upto(start + m);
      } else {
        assert Of(p.list, d) + [] == Of(p.list, d);
      }
    }
  }

  /** An entry that asks for no positive number of pods, or for too many, takes all that are left;
      any other one takes what it asks for. */
  lemma EntryTakes(sizes: seq<nat>, order: seq<PodCount>, e: PodCount)
    requires InRange(sizes, order) && 0 <= e.index < |sizes|
    ensures InRange(sizes, order + [e])
    ensures var left, left' := DecodeOrder(sizes, order).left[e.index], DecodeOrder(sizes, order + [e]).left[e.index];
            left' == if 0 < e.count <= left then left - e.count else 0
  {
    assert (order + [e])[..|order|] == order;
  }

  lemma {:induction false} DecodeOrderInOrder(sizes: seq<nat>, order: seq<PodCount>)
    requires InRange(sizes, order)
    ensures InOrder(DecodeOrder(sizes, order), sizes)
  {
    if order != [] {
      var n := |order| - 1;
      DecodeOrderInOrder(sizes, order[..n]);
      var p := DecodeOrder(sizes, order[..n]);
      TakeInOrder(p, sizes, order[n].index, Clamp(p.left[order[n].index], order[n].count));
    }
  }

  lemma {:induction false} TakeRestInOrder(p: Progress, sizes: seq<nat>, c: nat)
    requires Fits(p, sizes) && InOrder(p, sizes) && c <= |sizes|
    ensures InOrder(TakeRest(p, sizes, c), sizes)
    ensures forall d | 0 <= d < c :: TakeRest(p, sizes, c).left[d] == 0
  {
    hide InOrder, Run;
    if c > 0 {
      TakeRestInOrder(p, sizes, c - 1);
      var q := TakeRest(p, sizes, c - 1);
      TakeInOrder(q, sizes, c - 1, q.left[c - 1]);
    }
  }

  /** A pod list holds every pod of every subcluster once, those of one subcluster by index. */
  ghost predicate IsPodList(sizes: seq<nat>, list: seq<Pod>) {
    && (forall c | 0 <= c < |sizes| :: Of(list, c) == Upto(sizes[c]))
    && (forall x | x in list :: x.sc < |sizes|)
  }

  /** After the entries of the order come the pods they left out, subcluster by subcluster. */
  lemma {:induction false} RestFollows(p: Progress, sizes: seq<nat>, c: nat)
    requires Fits(p, sizes) && c <= |sizes|
    ensures var r := TakeRest(p, sizes, c).list;
            && p.list <= r && (forall j | |p.list| <= j < |r| :: r[j].sc < c)
            && forall j, k | |p.list| <= j < k < |r| :: r[j].sc <= r[k].sc
  {
    if c > 0 {
      RestFollows(p, sizes, c - 1);
    }
  }

  /** However short, long, zero or negative the counts of the revive order are. */
  lemma DecodeIsPodList(sizes: seq<nat>, order: seq<PodCount>)
    requires InRange(sizes, order)
    ensures IsPodList(sizes, Decode(sizes, order))
  {
    DecodeOrderInOrder(sizes, order);
    TakeRestInOrder(DecodeOrder(sizes, order), sizes, |sizes|);
  }

  /** The index of a pod is the number of earlier pods of its subcluster. */
  lemma {:induction false} IndexCounts(list: seq<Pod>, k: nat, n: nat)
    requires k < |list| && Of(list, list[k].sc) == Upto(n)
    ensures list[k].index == |Of(list[..k], list[k].sc)|
  {
    var m, c := |list| - 1, list[k].sc;
    var before := Of(list[..m], c);
    if k < m {
      assert list[..m][..k] == list[..k];
      if list[m].sc == c {
        assert before == Of(list, c)[..n - 1] == Upto(n - 1);
        IndexCounts(list[..m], k, n - 1);
      } else {
        IndexCounts(list[..m], k, n);
      }
    } else {
      assert Of(list, c)[n - 1] == n - 1;
    }
  }

  lemma {:induction false} OfHas(list: seq<Pod>, c: nat, i: nat)
    ensures i in Of(list, c) <==> Pod(c, i) in list
  {
    if list != [] {
      var m := |list| - 1;
      assert list == list[..m] + [list[m]];
      OfHas(list[..m], c, i);
    }
  }

  lemma {:induction false} OfGrows(list: seq<Pod>, k: nat, c: nat)
    requires k <= |list|
    ensures |Of(list[..k], c)| <= |Of(list, c)|
    ensures k < |list| && list[k].sc == c ==> |Of(list[..k], c)| < |Of(list, c)|
    decreases |list|
  {
    if k == |list| {
      assert list[..k] == list;
    } else if k < |list| - 1 {
      assert list[..|list| - 1][..k] == list[..k];
      OfGrows(list[..|list| - 1], k, c);
    }
  }

  /** In other words: each pod is somewhere in the list, and nowhere twice. */
  lemma EachPodOnce(sizes: seq<nat>, list: seq<Pod>)
    requires IsPodList(sizes, list)
    ensures forall c: nat, i: nat :: Pod(c, i) in list <==> c < |sizes| && i < sizes[c]
    ensures forall j, k | 0 <= j < k < |list| :: list[j] != list[k]
    ensures forall j, k | 0 <= j < k < |list| && list[j].sc == list[k].sc :: list[j].index < list[k].index
  {
    forall c: nat, i: nat
      ensures Pod(c, i) in list <==> c < |sizes| && i < sizes[c]
    {
      OfHas(list, c, i);
      if c < |sizes| && i < sizes[c] {
        assert Upto(sizes[c])[i] == i;
      }
    }
    forall j, k | 0 <= j < k < |list| && list[j].sc == list[k].sc
      ensures list[j].index < list[k].index
    {
      var c := list[j].sc;
      assert list[j] in list && list[k] in list;
      IndexCounts(list, j, sizes[c]);
      IndexCounts(list, k, sizes[c]);
      assert list[..k][..j] == list[..j];
      OfGrows(list[..k], j, c);
    }
  }

  // ---------------------------------------------------------------- the decoder's loops

  function Sizes(scs: seq<Subcluster>): (r: seq<nat>)
    ensures |r| == |scs| && forall c | 0 <= c < |scs| :: r[c] == scs[c].size
  {
    seq(|scs|, c requires 0 <= c < |scs| => scs[c].size)
  }

  /** The pods that were found when the facts were collected. */
  predicate AllFound(sizes: seq<nat>, facts: set<Pod>) {
    forall c: nat, i: nat | c < |sizes| && i < sizes[c] :: Pod(c, i) in facts
  }

  lemma RunGrows(list: seq<Pod>, c: nat, start: nat, j: nat)
    ensures list + Run(c, start, j) + [Pod(c, start + j)] == list + Run(c, start, j + 1)
    ensures list + Run(c, start, 0) == list
  {
  }

  class ReviveDBReconciler {
    const subclusters: seq<Subcluster>
    const reviveOrder: seq<PodCount>
    const facts: set<Pod>
    var scPodCounts: map<int, nat>
    var podList: seq<Pod>

    constructor (subclusters: seq<Subcluster>, reviveOrder: seq<PodCount>, facts: set<Pod>)
      ensures this.subclusters == subclusters && this.reviveOrder == reviveOrder && this.facts == facts
    {
      this.subclusters, this.reviveOrder, this.facts := subclusters, reviveOrder, facts;
      scPodCounts, podList := map[], [];
    }

    /** The two fields hold this progress. */
    ghost predicate Holds(p: Progress)
      reads this
    {
      && Fits(p, Sizes(subclusters))
      && podList == p.list
      && (forall c | 0 <= c < |subclusters| :: c in scPodCounts && scPodCounts[c] == p.left[c])
    }

    method AddPodsFromSubcluster(subclusterIndex: nat, podsToAdd: nat, ghost p: Progress) returns (ok: bool)
      requires Holds(p) && subclusterIndex < |subclusters| && podsToAdd <= p.left[subclusterIndex]
      modifies this
      ensures ok ==> Holds(Take(p, Sizes(subclusters), subclusterIndex, podsToAdd))
      ensures ok <== AllFound(Sizes(subclusters), facts)
      ensures ok ==> forall x | x in podList && x !in old(podList) :: x in facts
    {
      var sc := subclusters[subclusterIndex];
      ghost var start := sc.size - p.left[subclusterIndex];
      RunGrows(p.list, subclusterIndex, start, 0);
      for j := 0 to podsToAdd
        invariant podList == p.list + Run(subclusterIndex, start, j)
        invariant forall c | 0 <= c < |subclusters| ::
                    c in scPodCounts && scPodCounts[c] == if c == subclusterIndex then p.left[c] - j else p.left[c]
        invariant forall x | x in podList && x !in old(podList) :: x in facts
      {
        var podsLeft := scPodCounts[subclusterIndex];
        var pod := Pod(subclusterIndex, sc.size - podsLeft);
        if pod !in facts {
          return false;
        }
        RunGrows(p.list, subclusterIndex, start, j);
        podList := podList + [pod];
        scPodCounts := scPodCounts[subclusterIndex := podsLeft - 1];
      }
      return true;
    }

    /** Nothing listed yet, all pods of every subcluster left. */
    method InitPodCounts()
      modifies this
      ensures Holds(Progress([], Sizes(subclusters)))
    {
      scPodCounts, podList := map[], [];
      for i := 0 to |subclusters|
        invariant podList == []
        invariant forall c | 0 <= c < i :: c in scPodCounts && scPodCounts[c] == subclusters[c].size
      {
        scPodCounts := scPodCounts[i := subclusters[i].size];
      }
    }

    /** Fails exactly when an index of the revive order is out of range or a pod is not found. */
    method GetPodList() returns (r: Option<seq<Pod>>)
      modifies this
      ensures r.Some? <==> InRange(Sizes(subclusters), reviveOrder) && AllFound(Sizes(subclusters), facts)
      ensures r.Some? ==> r.value == Decode(Sizes(subclusters), reviveOrder) && IsPodList(Sizes(subclusters), r.value)
    {
      hide IsPodList, Decode;
      ghost var sizes := Sizes(subclusters);
      InitPodCounts();
      ghost var p := Progress([], sizes);
      for i := 0 to |reviveOrder|
        invariant InRange(sizes, reviveOrder[..i]) && p == DecodeOrder(sizes, reviveOrder[..i]) && Holds(p)
        invariant forall x | x in podList :: x in facts
      {
        var cur := reviveOrder[i];
        if cur.index < 0 || cur.index >= |subclusters| {
          return None;
        }
        var podsToAdd, podsLeft := cur.count, scPodCounts[cur.index];
        if podsLeft < podsToAdd || podsToAdd <= 0 {
          podsToAdd := podsLeft;
        }
        assert reviveOrder[..i + 1][..i] == reviveOrder[..i];
        var ok := AddPodsFromSubcluster(cur.index, podsToAdd, p);
        if !ok {
          return None;
        }
        p := Take(p, sizes, cur.index, podsToAdd);
      }
      assert reviveOrder[..|reviveOrder|] == reviveOrder;
      r := AddRest(p);
    }

    /** The pods that the revive order has not named. */
    method AddRest(ghost p: Progress) returns (r: Option<seq<Pod>>)
      requires InRange(Sizes(subclusters), reviveOrder) && p == DecodeOrder(Sizes(subclusters), reviveOrder) && Holds(p)
      requires forall x | x in podList :: x in facts
      modifies this
      ensures r.Some? <==> AllFound(Sizes(subclusters), facts)
      ensures r.Some? ==> r.value == Decode(Sizes(subclusters), reviveOrder) && IsPodList(Sizes(subclusters), r.value)
    {
      ghost var sizes := Sizes(subclusters);
      for i := 0 to |subclusters|
        invariant Holds(TakeRest(p, sizes, i))
        invariant forall x | x in podList :: x in facts
      {
        ghost var q := TakeRest(p, sizes, i);
        var ok := AddPodsFromSubcluster(i, scPodCounts[i], q);
        if !ok {
          return None;
        }
      }
      DecodeIsPodList(sizes, reviveOrder);
      EachPodOnce(sizes, podList);
      return Some(podList);
    }
  }
}
