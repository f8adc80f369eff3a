/** The autoscaler (pkg/controllers/vas): whole subclusters are added or removed until the pods
    behind a service reach the target, or the existing subclusters are resized. */
module Autoscaler {
  import opened Text
  import opened Api

  datatype Spec = Spec(name: string, serviceName: string, targetSize: int, template: Subcluster)

  predicate Matches(sc: Subcluster, svc: string) {
    ServiceOf(sc) == svc
  }

  /** The pods behind a service. */
  function Total(scs: seq<Subcluster>, svc: string): int {
    if scs == [] then 0
    else Total(scs[..|scs| - 1], svc) + if Matches(scs[|scs| - 1], svc) then scs[|scs| - 1].size else 0
  }

  function Others(scs: seq<Subcluster>, svc: string): seq<Subcluster> {
    if scs == [] then []
    else Others(scs[..|scs| - 1], svc) + if Matches(scs[|scs| - 1], svc) then [] else [scs[|scs| - 1]]
  }

  /** The last subcluster behind the service; None when there is none. */
  function LastMatch(scs: seq<Subcluster>, svc: string): (r: Option<Subcluster>)
    ensures r.Some? ==> r.value in scs && Matches(r.value, svc)
    ensures r.None? ==> forall sc | sc in scs :: !Matches(sc, svc)
  {
    if scs == [] then None
    else if Matches(scs[|scs| - 1], svc) then Some(scs[|scs| - 1])
    else
      assert forall sc | sc in scs :: sc in scs[..|scs| - 1] || sc == scs[|scs| - 1];
      LastMatch(scs[..|scs| - 1], svc)
  }

  ghost predicate NonNegative(scs: seq<Subcluster>) {
    forall sc | sc in scs :: sc.size >= 0
  }

  // ---------------------------------------------------------------- removing subclusters

  /** Whole subclusters go, the last first, while they fit into what is to be removed. */
  function Removed(scs: seq<Subcluster>, svc: string, pods: int): seq<Subcluster> {
    if scs == [] then []
    else
      var n := |scs| - 1;
      if !Matches(scs[n], svc) then Removed(scs[..n], svc, pods) + [scs[n]]
      else if pods > 0 && scs[n].size <= pods then Removed(scs[..n], svc, pods - scs[n].size)
      else scs
  }

  lemma AppendTotals(scs: seq<Subcluster>, sc: Subcluster, svc: string)
    ensures Total(scs + [sc], svc) == Total(scs, svc) + if Matches(sc, svc) then sc.size else 0
    ensures Others(scs + [sc], svc) == Others(scs, svc) + if Matches(sc, svc) then [] else [sc]
    ensures LastMatch(scs + [sc], svc) == if Matches(sc, svc) then Some(sc) else LastMatch(scs, svc)
  {
  }

  lemma RemovedStep(before: seq<Subcluster>, sc: Subcluster, svc: string, pods: int)
    ensures Removed(before + [sc], svc, pods)
         == if !Matches(sc, svc) then Removed(before, svc, pods) + [sc]
            else if pods > 0 && sc.size <= pods then Removed(before, svc, pods - sc.size)
            else before + [sc]
  {
  }

  lemma RemovedNone(svc: string, pods: int)
    ensures Removed([], svc, pods) == []
  {
  }

  /** Removing never takes too much; it stops when all is done, when nothing is left behind the
      service, or when the last subcluster there is bigger than what remains to be removed.
      Subclusters of other services keep their content and order. */
  lemma {:induction false} RemovedIs(scs: seq<Subcluster>, svc: string, pods: int)
    requires NonNegative(scs) && pods >= 0
    ensures var r := Removed(scs, svc, pods);
            var left := pods - (Total(scs, svc) - Total(r, svc));
            && 0 <= left <= pods
            && Others(r, svc) == Others(scs, svc)
            && (left == 0 || LastMatch(r, svc).None? || LastMatch(r, svc).value.size > left)
  {
    hide Total, Others, LastMatch, Matches, Removed;
    if scs == [] {
      assert Removed(scs, svc, pods) == [] by { RemovedNone(svc, pods); }
    } else {
      var n := |scs| - 1;
      var before, sc := scs[..n], scs[n];
      assert scs == before + [sc];
      AppendTotals(before, sc, svc);
      RemovedStep(before, sc, svc, pods);
      if !Matches(sc, svc) {
        RemovedIs(before, svc, pods);
        AppendTotals(Removed(before, svc, pods), sc, svc);
      } else if pods > 0 && sc.size <= pods {
        RemovedIs(before, svc, pods - sc.size);
      }
    }
  }

  function Behind(scs: seq<Subcluster>, svc: string): seq<Subcluster> {
    if scs == [] then []
    else Behind(scs[..|scs| - 1], svc) + if Matches(scs[|scs| - 1], svc) then [scs[|scs| - 1]] else []
  }

  lemma BehindMore(scs: seq<Subcluster>, sc: Subcluster, svc: string)
    ensures Behind(scs + [sc], svc) == Behind(scs, svc) + if Matches(sc, svc) then [sc] else []
  {
    assert (scs + [sc])[..|scs|] == scs;
  }

  /** Behind the service the first ones stay, unchanged, and the last ones go. */
  lemma {:induction false} RemovedFromEnd(scs: seq<Subcluster>, svc: string, pods: int)
    ensures Behind(Removed(scs, svc, pods), svc) <= Behind(scs, svc)
  {
    hide Behind, Matches, Removed;
    if scs == [] {
      RemovedNone(svc, pods);
    } else {
      var n := |scs| - 1;
      var before, sc := scs[..n], scs[n];
      assert scs == before + [sc];
      RemovedStep(before, sc, svc, pods);
      BehindMore(before, sc, svc);
      if !Matches(sc, svc) {
        RemovedFromEnd(before, svc, pods);
        BehindMore(Removed(before, svc, pods), sc, svc);
      } else if pods > 0 && sc.size <= pods {
        RemovedFromEnd(before, svc, pods - sc.size);
      }
    }
  }

  /** What is left is a part of what was there, in the same order. */
  lemma {:induction false} RemovedNames(scs: seq<Subcluster>, svc: string, pods: int)
    ensures forall sc | sc in Removed(scs, svc, pods) :: sc in scs
    ensures DistinctNames(scs) ==> DistinctNames(Removed(scs, svc, pods))
  {
    if scs != [] {
      var n := |scs| - 1;
      RemovedNames(scs[..n], svc, pods);
      RemovedNames(scs[..n], svc, pods - scs[n].size);
      assert forall sc | sc in scs[..n] :: sc in scs;
      if !Matches(scs[n], svc) && DistinctNames(scs) {
        StillDistinct(scs, Removed(scs[..n], svc, pods));
      }
    }
  }

  lemma StillDistinct(scs: seq<Subcluster>, r: seq<Subcluster>)
    requires scs != [] && DistinctNames(scs) && DistinctNames(r)
    requires forall sc | sc in r :: sc in scs[..|scs| - 1]
    ensures DistinctNames(r + [scs[|scs| - 1]])
  {
    var n := |scs| - 1;
    forall i | 0 <= i < |r|
      ensures r[i].name != scs[n].name
    {
      assert r[i] in r;
      var k :| 0 <= k < n && scs[..n][k] == r[i];
    }
  }

  /** Removing once is enough. */
  lemma {:induction false} RemovedTwice(scs: seq<Subcluster>, svc: string, left: int)
    requires left == 0 || LastMatch(scs, svc).None? || LastMatch(scs, svc).value.size > left
    ensures Removed(scs, svc, left) == scs
  {
    if scs != [] {
      var n := |scs| - 1;
      assert scs == scs[..n] + [scs[n]];
      if !Matches(scs[n], svc) {
        RemovedTwice(scs[..n], svc, left);
      }
    }
  }

  // ---------------------------------------------------------------- names for new subclusters

  function BaseName(spec: Spec): string {
    if spec.template.name == "" then spec.name else spec.template.name
  }

  function NumberedName(base: string, i: nat): string {
    base + "-" + Decimal(i)
  }

  lemma NumberedInjective(base: string, i: nat, j: nat)
    requires NumberedName(base, i) == NumberedName(base, j)
    ensures i == j
  {
    var k := |base| + 1;
    assert NumberedName(base, i)[k..] == Decimal(i) && NumberedName(base, j)[k..] == Decimal(j);
    DecimalInjective(i, j);
  }

  /** i taken names are i different keys. */
  lemma {:induction false} TakenNames(keys: set<string>, base: string, i: nat)
    requires forall j: nat | j < i :: NumberedName(base, j) in keys
    ensures i <= |keys|
  {
    if i > 0 {
      var last := NumberedName(base, i - 1);
      forall j: nat | j < i - 1
        ensures NumberedName(base, j) in keys - {last}
      {
        if NumberedName(base, j) == last {
          NumberedInjective(base, j, i - 1);
        }
      }
      TakenNames(keys - {last}, base, i - 1);
    }
  }

  /** The first number from i on whose name is free. */
  function FreeNumber(base: string, keys: set<string>, i: nat): (r: nat)
    requires forall j: nat | j < i :: NumberedName(base, j) in keys
    ensures NumberedName(base, r) !in keys
    ensures forall j: nat | j < r :: NumberedName(base, j) in keys
    decreases |keys| - i
  {
    if NumberedName(base, i) !in keys then i
    else
      TakenNames(keys, base, i + 1);
      FreeNumber(base, keys, i + 1)
  }

  lemma NumberedIs(spec: Spec, i: nat)
    ensures NumberedName(BaseName(spec), i)
         == (if spec.template.name == "" then spec.name else spec.template.name) + "-" + Decimal(i)
  {
  }

  /** Tries name after name; the map has at most as many of them as it has keys. */
  method GenNextSubclusterName(spec: Spec, keys: set<string>) returns (name: string, ghost tries: nat)
    ensures name !in keys && tries <= |keys| && name == NumberedName(BaseName(spec), tries)
    ensures name == (if spec.template.name == "" then spec.name else spec.template.name) + "-" + Decimal(tries)
    ensures forall j: nat | j < tries :: NumberedName(BaseName(spec), j) in keys
    ensures tries == FreeNumber(BaseName(spec), keys, 0)
  {
    hide NumberedName, FreeNumber;
    var base := BaseName(spec);
    var i := 0;
    while true
      invariant i <= |keys| && forall j: nat | j < i :: NumberedName(base, j) in keys
      decreases |keys| - i
    {
      name := NumberedName(base, i);
      if name !in keys {
        tries := i;
        NumberedIs(spec, i);
        return;
      }
      TakenNames(keys, base, i + 1);
      i := i + 1;
    }
  }

  // ---------------------------------------------------------------- adding subclusters

  predicate CanUseTemplate(spec: Spec) {
    spec.template.size > 0
  }

  /** What the next subcluster is copied from: the template, or else the last one behind the
      service. */
  function NextBase(spec: Spec, scs: seq<Subcluster>): Option<Subcluster> {
    if CanUseTemplate(spec) then Some(spec.template)
    else
      match LastMatch(scs, spec.serviceName)
      case None => None
      case Some(sc) => Some(sc.(serviceName := spec.serviceName))
  }

  /** The webhook's rule for templates. */
  predicate ValidTemplate(spec: Spec) {
    CanUseTemplate(spec) ==> spec.template.serviceName == spec.serviceName
  }

  /** A new subcluster is behind the service exactly when the service has a name. */
  lemma NewMatches(spec: Spec, scs: seq<Subcluster>, name: string)
    requires ValidTemplate(spec) && NextBase(spec, scs).Some? && name != ""
    ensures Matches(NextBase(spec, scs).value.(name := name), spec.serviceName) <==> spec.serviceName != ""
  {
  }

  /** The base of the next copy, up to its name. */
  ghost predicate SameBase(next: Option<Subcluster>, base: Subcluster) {
    next.Some? && next.value == base.(name := next.value.name)
  }

  function Names(scs: seq<Subcluster>): set<string> {
    set sc | sc in scs :: sc.name
  }

  function NextName(spec: Spec, scs: seq<Subcluster>): string {
    NumberedName(BaseName(spec), FreeNumber(BaseName(spec), Names(scs), 0))
  }

  function NextSubcluster(spec: Spec, scs: seq<Subcluster>): Subcluster
    requires NextBase(spec, scs).Some?
  {
    NextBase(spec, scs).value.(name := NextName(spec, scs))
  }

  lemma NextNameIsNew(spec: Spec, scs: seq<Subcluster>)
    ensures NextName(spec, scs) != "" && NextName(spec, scs) !in Names(scs)
  {
    hide FreeNumber;
  }

  // ---------------------------------------------------------------- the loop that adds

  /** The list after k iterations. */
  function Grown(spec: Spec, scs: seq<Subcluster>, k: nat): (r: seq<Subcluster>)
    requires NextBase(spec, scs).Some?
    ensures |r| == |scs| + k
    ensures SameBase(NextBase(spec, r), NextBase(spec, scs).value)
  {
    if k == 0 then scs
    else
      var before := Grown(spec, scs, k - 1);
      before + [NextSubcluster(spec, before)]
  }

  /** The pods still needed after k iterations. */
  function PodsLeft(spec: Spec, scs: seq<Subcluster>, pods: int, k: nat): int
    requires NextBase(spec, scs).Some?
  {
    if k == 0 then pods
    else PodsLeft(spec, scs, pods, k - 1) - NextSubcluster(spec, Grown(spec, scs, k - 1)).size
  }

  /** The loop ends after exactly k iterations. */
  ghost predicate EndsAfter(spec: Spec, scs: seq<Subcluster>, pods: int, k: nat)
    requires NextBase(spec, scs).Some?
  {
    var size := NextBase(spec, scs).value.size;
    && PodsLeft(spec, scs, pods, k) < size
    && forall j: nat | j < k :: PodsLeft(spec, scs, pods, j) >= size
  }

  lemma {:induction false} PodsLeftIs(spec: Spec, scs: seq<Subcluster>, pods: int, k: nat)
    requires NextBase(spec, scs).Some?
    ensures PodsLeft(spec, scs, pods, k) == pods - k * NextBase(spec, scs).value.size
  {
    hide NextBase, NextName, Grown;
    if k > 0 {
      PodsLeftIs(spec, scs, pods, k - 1);
    }
  }

  /** When pods are needed, the loop ends exactly when the base has a positive size, and then after
      as many copies as fit. */
  lemma LoopEndsExact(spec: Spec, scs: seq<Subcluster>, pods: int)
    requires NextBase(spec, scs).Some? && pods > 0
    ensures (exists k: nat :: EndsAfter(spec, scs, pods, k)) <==> NextBase(spec, scs).value.size > 0
    ensures var size := NextBase(spec, scs).value.size;
            size > 0 ==> EndsAfter(spec, scs, pods, pods / size)
  {
    hide NextBase, PodsLeft, Grown;
    var size := NextBase(spec, scs).value.size;
    if size > 0 {
      var k := pods / size;
      PodsLeftIs(spec, scs, pods, k);
      forall j: nat | j < k
        ensures PodsLeft(spec, scs, pods, j) >= size
      {
        PodsLeftIs(spec, scs, pods, j);
        StillFits(pods, size, j);
      }
      assert EndsAfter(spec, scs, pods, k);
    } else {
      forall k: nat
        ensures !EndsAfter(spec, scs, pods, k)
      {
        PodsLeftIs(spec, scs, pods, k);
        assert k * size <= 0;
      }
    }
  }

  lemma StillFits(pods: int, size: int, j: nat)
    requires size > 0 && pods > 0 && j < pods / size
    ensures pods - j * size >= size
  {
    assert (j + 1) * size <= (pods / size) * size;
  }

  /** A service whose subclusters have been resized to nothing is such a case: without a template the
      loop adds one empty subcluster after the other. */
  lemma EmptyBaseNeverEnds(spec: Spec, scs: seq<Subcluster>, k: nat)
    requires !CanUseTemplate(spec) && LastMatch(scs, spec.serviceName).Some?
    requires LastMatch(scs, spec.serviceName).value.size == 0 && Total(scs, spec.serviceName) < spec.targetSize
    ensures var pods := spec.targetSize - Total(scs, spec.serviceName);
            !EndsAfter(spec, scs, pods, k) && PodsLeft(spec, scs, pods, k) == pods
  {
    hide Grown, PodsLeft, EndsAfter;
    var pods := spec.targetSize - Total(scs, spec.serviceName);
    LoopEndsExact(spec, scs, pods);
    PodsLeftIs(spec, scs, pods, k);
  }

  /** The loop appends copies of the base under new and different names; they count for the service
      exactly when it has a name. */
  lemma {:induction false} GrownIs(spec: Spec, scs: seq<Subcluster>, k: nat)
    requires ValidTemplate(spec) && NextBase(spec, scs).Some?
    ensures var r, base, svc := Grown(spec, scs, k), NextBase(spec, scs).value, spec.serviceName;
            && scs <= r
            && (forall i | |scs| <= i < |r| :: r[i] == base.(name := r[i].name))
            && (DistinctNames(scs) ==> DistinctNames(r))
            && Total(r, svc) == Total(scs, svc) + (if svc != "" then k * base.size else 0)
            && Others(r, svc) == Others(scs, svc) + (if svc != "" then [] else r[|scs|..])
  {
    hide NextBase, NextName, Total, Others, LastMatch, Matches, DistinctNames, ValidTemplate;
    if k == 0 {
      assert scs[|scs|..] == [];
    } else {
      GrownIs(spec, scs, k - 1);
      var before := Grown(spec, scs, k - 1);
      var sc := NextSubcluster(spec, before);
      NextNameIsNew(spec, before);
      NewMatches(spec, before, sc.name);
      AppendTotals(before, sc, spec.serviceName);
      AppendDistinct(before, sc);
      assert (before + [sc])[|scs|..] == before[|scs|..] + [sc];
    }
  }

  lemma AppendDistinct(scs: seq<Subcluster>, sc: Subcluster)
    requires sc.name !in Names(scs)
    ensures DistinctNames(scs) ==> DistinctNames(scs + [sc])
  {
    assert forall i | 0 <= i < |scs| :: scs[i] in scs;
  }

  // ---------------------------------------------------------------- a step

  /** What a step asks for: sizes that are not negative, the webhook's rule, and, when there is
      something to add, a loop that ends. */
  ghost predicate Steppable(spec: Spec, scs: seq<Subcluster>) {
    && NonNegative(scs) && ValidTemplate(spec)
    && (Total(scs, spec.serviceName) < spec.targetSize && NextBase(spec, scs).Some? ==> NextBase(spec, scs).value.size > 0)
  }

  ghost function Stepped(spec: Spec, scs: seq<Subcluster>): seq<Subcluster>
    requires Steppable(spec, scs)
  {
    var delta, base := spec.targetSize - Total(scs, spec.serviceName), NextBase(spec, scs);
    if delta < 0 then Removed(scs, spec.serviceName, -delta)
    else if delta > 0 && base.Some? then Grown(spec, scs, delta / base.value.size)
    else scs
  }

  lemma GrowStep(spec: Spec, scs: seq<Subcluster>)
    requires Steppable(spec, scs) && NextBase(spec, scs).Some? && Total(scs, spec.serviceName) < spec.targetSize
    ensures var r, base, delta := Stepped(spec, scs), NextBase(spec, scs).value, spec.targetSize - Total(scs, spec.serviceName);
            && NonNegative(r) && scs <= r && |r| == |scs| + delta / base.size
            && SameBase(NextBase(spec, r), base)
            && (DistinctNames(scs) ==> DistinctNames(r))
            && (spec.serviceName == "" ==> Total(r, spec.serviceName) == Total(scs, spec.serviceName))
            && (spec.serviceName != "" ==>
                  && Others(r, spec.serviceName) == Others(scs, spec.serviceName)
                  && 0 <= spec.targetSize - Total(r, spec.serviceName) < base.size)
  {
    hide NextBase, NextName, Grown, Total, Others, DistinctNames;
    var base, delta := NextBase(spec, scs).value, spec.targetSize - Total(scs, spec.serviceName);
    GrownIs(spec, scs, delta / base.size);
    var r := Stepped(spec, scs);
    forall sc | sc in r
      ensures sc.size >= 0
    {
      var i :| 0 <= i < |r| && r[i] == sc;
      assert i < |scs| ==> r[i] == scs[i];
    }
  }

  /** The last subcluster behind the service stands at j. */
  ghost predicate LastAt(scs: seq<Subcluster>, svc: string, j: nat) {
    j < |scs| && ServiceOf(scs[j]) == svc && forall i | j < i < |scs| :: ServiceOf(scs[i]) != svc
  }

  lemma {:induction false} LastMatchAt(scs: seq<Subcluster>, svc: string, j: nat)
    requires LastAt(scs, svc, j)
    ensures LastMatch(scs, svc) == Some(scs[j])
  {
    hide ServiceOf;
    var n := |scs| - 1;
    if j < n {
      LastMatchAt(scs[..n], svc, j);
    }
  }

  lemma {:induction false} NoMatch(scs: seq<Subcluster>, svc: string)
    ensures LastMatch(scs, svc).None? <==> forall i | 0 <= i < |scs| :: ServiceOf(scs[i]) != svc
  {
    hide ServiceOf;
    if scs != [] {
      var n := |scs| - 1;
      NoMatch(scs[..n], svc);
      assert forall i | 0 <= i < n :: scs[..n][i] == scs[i];
    }
  }

  /** The subclusters from |scs| on are `count` copies of sc under other names. */
  ghost predicate CopiesAdded(scs: seq<Subcluster>, r: seq<Subcluster>, sc: Subcluster, count: int) {
    scs <= r && |r| == |scs| + count && forall i | |scs| <= i < |r| :: r[i] == sc.(name := r[i].name)
  }

  /** What a step adds when pods are missing: copies of the template; without one, copies of the last
      subcluster behind the service, under that service name; and nothing when there is neither. */
  ghost predicate AddsCopies(spec: Spec, scs: seq<Subcluster>, r: seq<Subcluster>) {
    var svc, delta := spec.serviceName, spec.targetSize - Total(scs, spec.serviceName);
    && (spec.template.size > 0 ==> CopiesAdded(scs, r, spec.template, delta / spec.template.size))
    && (spec.template.size <= 0 ==>
          && (forall j: nat | LastAt(scs, svc, j) ::
                scs[j].size > 0 && CopiesAdded(scs, r, scs[j].(serviceName := svc), delta / scs[j].size))
          && ((forall i | 0 <= i < |scs| :: ServiceOf(scs[i]) != svc) ==> r == scs))
  }

  lemma StepAddsCopies(spec: Spec, scs: seq<Subcluster>)
    requires Steppable(spec, scs) && Total(scs, spec.serviceName) < spec.targetSize
    ensures AddsCopies(spec, scs, Stepped(spec, scs))
  {
    hide Total, LastMatch, Grown, Others, DistinctNames, NonNegative;
    NoMatch(scs, spec.serviceName);
    forall j: nat | LastAt(scs, spec.serviceName, j)
      ensures LastMatch(scs, spec.serviceName) == Some(scs[j])
    {
      LastMatchAt(scs, spec.serviceName, j);
    }
    var base, delta := NextBase(spec, scs), spec.targetSize - Total(scs, spec.serviceName);
    if base.Some? {
      GrownIs(spec, scs, delta / base.value.size);
      assert |Stepped(spec, scs)| == |scs| + delta / base.value.size;
    }
  }

  lemma ShrinkStep(spec: Spec, scs: seq<Subcluster>)
    requires Steppable(spec, scs) && Total(scs, spec.serviceName) > spec.targetSize
    ensures var r := Stepped(spec, scs);
            && NonNegative(r)
            && (DistinctNames(scs) ==> DistinctNames(r))
            && Others(r, spec.serviceName) == Others(scs, spec.serviceName)
            && spec.targetSize <= Total(r, spec.serviceName) <= Total(scs, spec.serviceName)
            && Removed(r, spec.serviceName, Total(r, spec.serviceName) - spec.targetSize) == r
  {
    hide NextBase, Removed, Grown, Total, Others, LastMatch, DistinctNames, Matches;
    var svc, delta := spec.serviceName, Total(scs, spec.serviceName) - spec.targetSize;
    RemovedIs(scs, svc, delta);
    RemovedNames(scs, svc, delta);
    RemovedTwice(Removed(scs, svc, delta), svc, Total(Removed(scs, svc, delta), svc) - spec.targetSize);
  }

  lemma StepKeepsSteppable(spec: Spec, scs: seq<Subcluster>)
    requires Steppable(spec, scs)
    ensures Steppable(spec, Stepped(spec, scs))
  {
    hide Total, NextBase, Removed, Grown, Others, DistinctNames;
    if Total(scs, spec.serviceName) > spec.targetSize {
      ShrinkStep(spec, scs);
    } else if Total(scs, spec.serviceName) < spec.targetSize && NextBase(spec, scs).Some? {
      GrowStep(spec, scs);
    }
  }

  /** There is a base that fits, and what is added does not count. */
  ghost predicate AddsInVain(spec: Spec, scs: seq<Subcluster>) {
    && spec.serviceName == "" && Total(scs, spec.serviceName) < spec.targetSize
    && NextBase(spec, scs).Some? && NextBase(spec, scs).value.size <= spec.targetSize - Total(scs, spec.serviceName)
  }

  lemma SecondStep(spec: Spec, scs: seq<Subcluster>)
    requires Steppable(spec, scs) && Steppable(spec, Stepped(spec, scs))
    ensures Stepped(spec, Stepped(spec, scs)) == Stepped(spec, scs) <==> !AddsInVain(spec, scs)
  {
    hide Total, NextBase, Removed, Grown, Others, DistinctNames, NonNegative, ValidTemplate;
    var svc, r := spec.serviceName, Stepped(spec, scs);
    var total := Total(scs, svc);
    if total > spec.targetSize {
      ShrinkStep(spec, scs);
    } else if total < spec.targetSize && NextBase(spec, scs).Some? {
      GrowStep(spec, scs);
      if svc == "" {
        GrowStep(spec, r);
        if r == Stepped(spec, r) {
          SameGrown(spec, r, spec.targetSize - total);
        }
        if NextBase(spec, scs).value.size > spec.targetSize - total {
          assert Grown(spec, r, 0) == r by { NoneGrown(spec, r); }
        }
      } else {
        if Total(r, svc) < spec.targetSize {
          NoneGrown(spec, r);
        }
      }
    }
  }

  lemma NoneGrown(spec: Spec, scs: seq<Subcluster>)
    requires NextBase(spec, scs).Some?
    ensures Grown(spec, scs, 0) == scs
  {
  }

  lemma SameGrown(spec: Spec, scs: seq<Subcluster>, delta: int)
    requires NextBase(spec, scs).Some? && NextBase(spec, scs).value.size > 0 && delta > 0
    ensures Grown(spec, scs, delta / NextBase(spec, scs).value.size) == scs ==> delta / NextBase(spec, scs).value.size == 0
  {
    hide NextBase;
  }

  ghost function Steps(spec: Spec, scs: seq<Subcluster>, k: nat): (r: seq<Subcluster>)
    requires Steppable(spec, scs)
    ensures Steppable(spec, r)
  {
    if k == 0 then scs
    else
      var before := Steps(spec, scs, k - 1);
      StepKeepsSteppable(spec, before);
      Stepped(spec, before)
  }

  /** A second step changes nothing, except when the first one adds subclusters to a service without
      a name. */
  lemma SecondStepExact(spec: Spec, scs: seq<Subcluster>)
    requires Steppable(spec, scs)
    ensures Steps(spec, scs, 2) == Steps(spec, scs, 1) <==> !AddsInVain(spec, scs)
  {
    hide Total, NextBase, AddsInVain, Stepped;
    assert Steps(spec, scs, 0) == scs;
    assert Steps(spec, scs, 1) == Stepped(spec, scs);
    SecondStep(spec, scs);
  }

  /** In that case every step adds the same number of subclusters again, and the pods behind the
      service stay as they are. */
  lemma {:induction false} AddsForever(spec: Spec, scs: seq<Subcluster>, k: nat)
    requires Steppable(spec, scs) && AddsInVain(spec, scs)
    ensures var r, base, delta := Steps(spec, scs, k), NextBase(spec, scs).value, spec.targetSize - Total(scs, spec.serviceName);
            && |r| == |scs| + k * (delta / base.size) && delta / base.size > 0
            && Total(r, spec.serviceName) == Total(scs, spec.serviceName)
            && SameBase(NextBase(spec, r), base)
  {
    hide Total, NextBase, Removed, Grown, Others, DistinctNames, Steppable, Stepped;
    var base, delta := NextBase(spec, scs).value, spec.targetSize - Total(scs, spec.serviceName);
    PositiveBase(spec, scs);
    if k > 0 {
      AddsForever(spec, scs, k - 1);
      var before := Steps(spec, scs, k - 1);
      GrowStep(spec, before);
    }
  }

  lemma PositiveBase(spec: Spec, scs: seq<Subcluster>)
    requires Steppable(spec, scs) && AddsInVain(spec, scs)
    ensures NextBase(spec, scs).value.size > 0
  {
  }

  lemma SplitAt(all: seq<Subcluster>, kept: seq<Subcluster>, j: nat)
    requires j < |all|
    ensures all[..j + 1] == all[..j] + [all[j]]
    ensures var now := all[..j + 1] + kept;
            now[j] == all[j] && now[..j] + now[j + 1..] == all[..j] + kept && now == all[..j] + ([all[j]] + kept)
  {
  }

  lemma Regroup(a: seq<Subcluster>, b: seq<Subcluster>, c: seq<Subcluster>)
    ensures a + b + c == a + (b + c)
  {
  }

  class SubclusterScaleReconciler {
    const spec: Spec
    var subclusters: seq<Subcluster>

    constructor (spec: Spec, subclusters: seq<Subcluster>)
      ensures this.spec == spec && this.subclusters == subclusters
    {
      this.spec, this.subclusters := spec, subclusters;
    }

    method FindTotal() returns (total: int)
      ensures total == Total(subclusters, spec.serviceName)
    {
      total := 0;
      for i := 0 to |subclusters|
        invariant total == Total(subclusters[..i], spec.serviceName)
      {
        assert subclusters[..i + 1][..i] == subclusters[..i];
        if Matches(subclusters[i], spec.serviceName) {
          total := total + subclusters[i].size;
        }
      }
      assert subclusters[..|subclusters|] == subclusters;
    }

    method GenSubclusterMap() returns (keys: set<string>)
      ensures keys == Names(subclusters)
    {
      keys := {};
      for i := 0 to |subclusters|
        invariant keys == Names(subclusters[..i])
      {
        NamesAppend(subclusters[..i], subclusters[i]);
        assert subclusters[..i + 1] == subclusters[..i] + [subclusters[i]];
        keys := keys + {subclusters[i].name};
      }
      assert subclusters[..|subclusters|] == subclusters;
    }

    method FindLastMatch() returns (r: Option<Subcluster>)
      ensures r == LastMatch(subclusters, spec.serviceName)
    {
      r := None;
      for i := 0 to |subclusters|
        invariant r == LastMatch(subclusters[..i], spec.serviceName)
      {
        assert subclusters[..i + 1][..i] == subclusters[..i];
        if Matches(subclusters[i], spec.serviceName) {
          r := Some(subclusters[i]);
        }
      }
      assert subclusters[..|subclusters|] == subclusters;
    }

    method CalcNextSubcluster(keys: set<string>) returns (r: Option<Subcluster>)
      requires keys == Names(subclusters)
      ensures r.Some? == NextBase(spec, subclusters).Some?
      ensures r.Some? ==> r.value == NextSubcluster(spec, subclusters) && r.value.name !in keys && r.value.name != ""
    {
      hide LastMatch, FreeNumber;
      var name, _ := GenNextSubclusterName(spec, keys);
      if CanUseTemplate(spec) {
        return Some(spec.template.(name := name));
      }
      var last := FindLastMatch();
      if last.None? {
        return None;
      }
      return Some(last.value.(serviceName := spec.serviceName, name := name));
    }

    /** Shrinks by whole subclusters, the last first. */
    method ConsiderRemovingSubclusters(podsToRemove: int) returns (changed: bool)
      modifies `subclusters
      ensures subclusters == Removed(old(subclusters), spec.serviceName, podsToRemove)
      ensures changed == (|subclusters| != |old(subclusters)|)
    {
      hide Removed, Matches;
      ghost var all, kept: seq<Subcluster> := subclusters, [];
      var orig := |subclusters|;
      var pods, j := podsToRemove, |subclusters| - 1;
      assert all[..j + 1] == all;
      while j >= 0
        invariant -1 <= j < |all|
        invariant subclusters == all[..j + 1] + kept
        invariant Removed(all, spec.serviceName, podsToRemove) == Removed(all[..j + 1], spec.serviceName, pods) + kept
      {
        SplitAt(all, kept, j);
        RemovedStep(all[..j], all[j], spec.serviceName, pods);
        if Matches(subclusters[j], spec.serviceName) {
          if pods > 0 && subclusters[j].size <= pods {
            pods := pods - subclusters[j].size;
            subclusters := subclusters[..j] + subclusters[j + 1..];
          } else {
            return orig != |subclusters|;
          }
        } else {
          Regroup(Removed(all[..j], spec.serviceName, pods), [all[j]], kept);
          kept := [all[j]] + kept;
        }
        j := j - 1;
      }
      RemovedNone(spec.serviceName, pods);
      return orig != |subclusters|;
    }

    /** Grows by whole subclusters while they fit into what is needed. */
    method ConsiderAddingSubclusters(podsNeeded: int) returns (changed: bool)
      requires podsNeeded > 0 && (NextBase(spec, subclusters).Some? ==> NextBase(spec, subclusters).value.size > 0)
      modifies `subclusters
      ensures changed == (subclusters != old(subclusters))
      ensures subclusters == if NextBase(spec, old(subclusters)).None? then old(subclusters)
                             else Grown(spec, old(subclusters), podsNeeded / NextBase(spec, old(subclusters)).value.size)
    {
      hide NextBase, NextName, Names;
      ghost var all, k: nat := subclusters, 0;
      var orig := |subclusters|;
      var keys := GenSubclusterMap();
      var next := CalcNextSubcluster(keys);
      if next.None? {
        return false;
      }
      var newScSize, pods := next.value.size, podsNeeded;
      while pods >= newScSize
        invariant keys == Names(subclusters) && subclusters == Grown(spec, all, k)
        invariant 0 <= pods == podsNeeded - k * newScSize
        decreases pods
      {
        var newSc := CalcNextSubcluster(keys);
        NamesAppend(subclusters, newSc.value);
        Multiples(k + 1, k + 1, newScSize);
        subclusters := subclusters + [newSc.value];
        keys := keys + {newSc.value.name};
        pods := pods - newSc.value.size;
        k := k + 1;
      }
      ExactlyFits(podsNeeded, newScSize, k);
      return orig != |subclusters|;
    }

    /** One step towards the target. */
    method ScaleSubcluster() returns (changed: bool)
      requires Steppable(spec, subclusters)
      modifies `subclusters
      ensures subclusters == Stepped(spec, old(subclusters))
      ensures changed == (subclusters != old(subclusters))
      ensures DistinctNames(old(subclusters)) ==> DistinctNames(subclusters)
      ensures var before, after := Total(old(subclusters), spec.serviceName), Total(subclusters, spec.serviceName);
              && (before <= spec.targetSize ==> before <= after <= spec.targetSize && old(subclusters) <= subclusters)
              && (before >= spec.targetSize ==> spec.targetSize <= after <= before)
      ensures spec.serviceName != "" ==> Others(subclusters, spec.serviceName) == Others(old(subclusters), spec.serviceName)
      ensures Total(old(subclusters), spec.serviceName) < spec.targetSize ==>
                AddsCopies(spec, old(subclusters), subclusters)
    {
      hide Total, Others, NextBase, Removed, Grown, DistinctNames, AddsCopies;
      ghost var all := subclusters;
      var total := FindTotal();
      var delta := spec.targetSize - total;
      if delta < 0 {
        ShrinkStep(spec, all);
        SameLength(all, spec.serviceName, -delta);
        changed := ConsiderRemovingSubclusters(-delta);
      } else if delta > 0 {
        StepAddsCopies(spec, all);
        if NextBase(spec, all).Some? {
          GrowStep(spec, all);
          StepGrows(spec, all);
        }
        changed := ConsiderAddingSubclusters(delta);
      } else {
        changed := false;
      }
    }
  }

  /** A step that adds never passes the target, whether or not what it adds counts. */
  lemma StepGrows(spec: Spec, scs: seq<Subcluster>)
    requires Steppable(spec, scs) && Total(scs, spec.serviceName) < spec.targetSize && NextBase(spec, scs).Some?
    ensures Total(scs, spec.serviceName) <= Total(Stepped(spec, scs), spec.serviceName) <= spec.targetSize
  {
    hide Total, Others, NextBase, Grown, DistinctNames;
    var base, delta := NextBase(spec, scs).value, spec.targetSize - Total(scs, spec.serviceName);
    GrownIs(spec, scs, delta / base.size);
    assert 0 <= (delta / base.size) * base.size <= delta;
  }

  lemma ExactlyFits(pods: int, size: int, k: nat)
    requires size > 0 && 0 <= pods - k * size < size
    ensures k == pods / size
  {
    var q := pods / size;
    Multiples(k + 1, q, size);
    Multiples(q + 1, k, size);
  }

  lemma Multiples(a: int, b: int, size: int)
    requires size > 0
    ensures a <= b ==> a * size <= b * size
    ensures (a - 1) * size == a * size - size
  {
  }

  lemma NamesAppend(scs: seq<Subcluster>, sc: Subcluster)
    ensures Names(scs + [sc]) == Names(scs) + {sc.name}
  {
    var r := Names(scs + [sc]);
    forall n | n in Names(scs) + {sc.name}
      ensures n in r
    {
      if n in Names(scs) {
        var x :| x in scs && x.name == n;
        assert x in scs + [sc];
      } else {
        assert sc in scs + [sc];
      }
    }
  }

  /** Removed changes nothing exactly when it removes nothing. */
  lemma {:induction false} SameLength(scs: seq<Subcluster>, svc: string, pods: int)
    ensures |Removed(scs, svc, pods)| <= |scs|
    ensures |Removed(scs, svc, pods)| == |scs| ==> Removed(scs, svc, pods) == scs
  {
    if scs != [] {
      var n := |scs| - 1;
      SameLength(scs[..n], svc, pods);
      SameLength(scs[..n], svc, pods - scs[n].size);
    }
  }

  // ---------------------------------------------------------------- resizing

  /** The positions of the subclusters behind the service. */
  function Found(scs: seq<Subcluster>, svc: string): (r: seq<nat>)
    ensures forall k | 0 <= k < |r| :: r[k] < |scs| && Matches(scs[r[k]], svc)
    ensures forall i, j | 0 <= i < j < |r| :: r[i] < r[j]
  {
    if scs == [] then []
    else Found(scs[..|scs| - 1], svc) + if Matches(scs[|scs| - 1], svc) then [|scs| - 1] else []
  }

  /** Different positions of the list, in increasing order. */
  ghost predicate Positions(scs: seq<Subcluster>, at: seq<nat>) {
    && (forall k | 0 <= k < |at| :: at[k] < |scs|)
    && (forall i, j | 0 <= i < j < |at| :: at[i] < at[j])
  }

  function WithSize(scs: seq<Subcluster>, i: nat, size: int): (r: seq<Subcluster>)
    requires i < |scs|
    ensures |r| == |scs|
  {
    scs[i := scs[i].(size := size)]
  }

  /** The backward loop over these positions. */
  function ResizedAt(scs: seq<Subcluster>, at: seq<nat>, delta: int): (r: seq<Subcluster>)
    requires forall k | 0 <= k < |at| :: at[k] < |scs|
    ensures |r| == |scs|
    decreases |at|
  {
    if at == [] || delta == 0 then scs
    else
      var n := |at| - 1;
      var size := scs[at[n]].size;
      if delta < 0 && -delta > size then ResizedAt(WithSize(scs, at[n], 0), at[..n], delta + size)
      else WithSize(scs, at[n], size + delta)
  }

  function SumAt(scs: seq<Subcluster>, at: seq<nat>): int
    requires forall k | 0 <= k < |at| :: at[k] < |scs|
  {
    if at == [] then 0 else SumAt(scs, at[..|at| - 1]) + scs[at[|at| - 1]].size
  }

  lemma {:induction false} SumAtSame(scs: seq<Subcluster>, at: seq<nat>, i: nat, size: int)
    requires i < |scs| && forall k | 0 <= k < |at| :: at[k] < i
    ensures SumAt(WithSize(scs, i, size), at) == SumAt(scs, at)
  {
    if at != [] {
      SumAtSame(scs, at[..|at| - 1], i, size);
    }
  }

  lemma {:induction false} SumOfPrefix(scs: seq<Subcluster>, more: seq<Subcluster>, at: seq<nat>)
    requires forall k | 0 <= k < |at| :: at[k] < |scs|
    ensures SumAt(scs + more, at) == SumAt(scs, at)
  {
    if at != [] {
      SumOfPrefix(scs, more, at[..|at| - 1]);
    }
  }

  lemma FoundAppend(scs: seq<Subcluster>, sc: Subcluster, svc: string)
    ensures Found(scs + [sc], svc) == if Matches(sc, svc) then Found(scs, svc) + [|scs|] else Found(scs, svc)
  {
    assert (scs + [sc])[..|scs|] == scs;
  }

  lemma SumAtAppend(scs: seq<Subcluster>, at: seq<nat>, i: nat)
    requires i < |scs| && forall k | 0 <= k < |at| :: at[k] < |scs|
    ensures SumAt(scs, at + [i]) == SumAt(scs, at) + scs[i].size
  {
  }

  lemma {:induction false} SumIsTotal(scs: seq<Subcluster>, svc: string)
    ensures SumAt(scs, Found(scs, svc)) == Total(scs, svc)
  {
    hide Matches;
    if scs != [] {
      var n := |scs| - 1;
      var before, sc := scs[..n], scs[n];
      SumIsTotal(before, svc);
      SumStep(before, sc, svc);
      assert scs == before + [sc];
    }
  }

  lemma SumStep(before: seq<Subcluster>, sc: Subcluster, svc: string)
    requires SumAt(before, Found(before, svc)) == Total(before, svc)
    ensures SumAt(before + [sc], Found(before + [sc], svc)) == Total(before + [sc], svc)
  {
    hide Total, Found, SumAt, Matches, Others, LastMatch;
    AppendTotals(before, sc, svc);
    FoundAppend(before, sc, svc);
    SumOfPrefix(before, [sc], Found(before, svc));
    SumAtAppend(before + [sc], Found(before, svc), |before|);
  }

  lemma {:induction false} TotalWithSize(scs: seq<Subcluster>, svc: string, i: nat, size: int)
    requires i < |scs| && Matches(scs[i], svc)
    ensures Total(WithSize(scs, i, size), svc) == Total(scs, svc) - scs[i].size + size
  {
    var n := |scs| - 1;
    var r := WithSize(scs, i, size);
    if i < n {
      assert r[..n] == WithSize(scs[..n], i, size);
      TotalWithSize(scs[..n], svc, i, size);
    } else {
      assert r[..n] == scs[..n];
    }
  }

  /** Everything but the sizes at these positions stays. */
  ghost predicate OnlySizes(scs: seq<Subcluster>, r: seq<Subcluster>, at: seq<nat>) {
    && |r| == |scs|
    && (forall i | 0 <= i < |scs| :: r[i] == scs[i].(size := r[i].size))
    && (forall i | 0 <= i < |scs| && i !in at :: r[i] == scs[i])
  }

  lemma {:induction false} ResizedOnlySizes(scs: seq<Subcluster>, at: seq<nat>, delta: int)
    requires Positions(scs, at)
    ensures OnlySizes(scs, ResizedAt(scs, at, delta), at)
    decreases |at|
  {
    hide OnlySizes, WithSize;
    if at != [] && delta != 0 {
      var n := |at| - 1;
      var size := scs[at[n]].size;
      if delta < 0 && -delta > size {
        ResizedOnlySizes(WithSize(scs, at[n], 0), at[..n], delta + size);
        OneMore(scs, at, ResizedAt(WithSize(scs, at[n], 0), at[..n], delta + size));
      } else {
        JustOne(scs, at, size + delta);
      }
    } else {
      NothingChanged(scs, at);
    }
  }

  lemma NothingChanged(scs: seq<Subcluster>, at: seq<nat>)
    ensures OnlySizes(scs, scs, at)
  {
  }

  lemma JustOne(scs: seq<Subcluster>, at: seq<nat>, size: int)
    requires Positions(scs, at) && at != []
    ensures OnlySizes(scs, WithSize(scs, at[|at| - 1], size), at)
  {
  }

  lemma OneMore(scs: seq<Subcluster>, at: seq<nat>, r: seq<Subcluster>)
    requires Positions(scs, at) && at != [] && OnlySizes(WithSize(scs, at[|at| - 1], 0), r, at[..|at| - 1])
    ensures OnlySizes(scs, r, at)
  {
  }

  /** Where the loop stops: below, nothing changes; above, everything is empty, or, when growing,
      there is nothing. */
  ghost predicate CutAt(scs: seq<Subcluster>, r: seq<Subcluster>, at: seq<nat>, delta: int, m: nat)
    requires Positions(scs, at) && |r| == |scs|
  {
    && m < |at|
    && (forall k | 0 <= k < m :: r[at[k]] == scs[at[k]])
    && (forall k | m < k < |at| :: delta < 0 && r[at[k]].size == 0)
    && (delta > 0 ==> r[at[m]].size == scs[at[m]].size + delta)
    && (delta < 0 ==> 0 <= r[at[m]].size <= scs[at[m]].size)
  }

  /** Growing gives everything to the last subcluster; shrinking empties the last ones and cuts at
      most one more.  No size becomes negative. */
  lemma {:induction false} ResizedCut(scs: seq<Subcluster>, at: seq<nat>, delta: int) returns (m: nat)
    requires Positions(scs, at) && NonNegative(scs)
    requires at != [] && delta != 0 && SumAt(scs, at) + delta >= 0
    ensures CutAt(scs, ResizedAt(scs, at, delta), at, delta, m)
    decreases |at|
  {
    hide NonNegative, Positions, CutAt;
    var n := |at| - 1;
    PositionsBelow(scs, at);
    var size := scs[at[n]].size;
    if delta < 0 && -delta > size {
      var scs' := WithSize(scs, at[n], 0);
      SumAtSame(scs, at[..n], at[n], 0);
      m := ResizedCut(scs', at[..n], delta + size);
      ResizedOnlySizes(scs', at[..n], delta + size);
      CutDeeper(scs, ResizedAt(scs', at[..n], delta + size), at, delta, m);
    } else {
      m := n;
      CutHere(scs, at, delta);
    }
  }

  lemma PositionsBelow(scs: seq<Subcluster>, at: seq<nat>)
    requires Positions(scs, at) && at != [] && NonNegative(scs)
    ensures var n := |at| - 1;
            && at[n] < |scs| && scs[at[n]].size >= 0
            && Positions(WithSize(scs, at[n], 0), at[..n]) && NonNegative(WithSize(scs, at[n], 0))
    ensures forall k | 0 <= k < |at| - 1 :: at[k] < at[|at| - 1]
  {
  }

  lemma CutHere(scs: seq<Subcluster>, at: seq<nat>, delta: int)
    requires Positions(scs, at) && at != [] && delta != 0 && scs[at[|at| - 1]].size >= 0
    requires delta < 0 ==> -delta <= scs[at[|at| - 1]].size
    ensures var n := |at| - 1;
            CutAt(scs, WithSize(scs, at[n], scs[at[n]].size + delta), at, delta, n)
  {
  }

  lemma CutDeeper(scs: seq<Subcluster>, r: seq<Subcluster>, at: seq<nat>, delta: int, m: nat)
    requires Positions(scs, at) && at != [] && delta < 0 && |r| == |scs|
    requires var n := |at| - 1;
             var scs' := WithSize(scs, at[n], 0);
             && Positions(scs', at[..n]) && -delta > scs[at[n]].size
             && CutAt(scs', r, at[..n], delta + scs[at[n]].size, m) && OnlySizes(scs', r, at[..n])
    ensures CutAt(scs, r, at, delta, m)
  {
  }

  /** Resizing reaches the target exactly. */
  lemma {:induction false} ResizedTotal(scs: seq<Subcluster>, svc: string, at: seq<nat>, delta: int)
    requires Positions(scs, at) && (forall k | 0 <= k < |at| :: Matches(scs[at[k]], svc))
    requires at != [] && SumAt(scs, at) + delta >= 0
    ensures Total(ResizedAt(scs, at, delta), svc) == Total(scs, svc) + delta
    decreases |at|
  {
    hide Total;
    var n := |at| - 1;
    var size := scs[at[n]].size;
    if delta < 0 && -delta > size {
      SumAtSame(scs, at[..n], at[n], 0);
      TotalWithSize(scs, svc, at[n], 0);
      ResizedTotal(WithSize(scs, at[n], 0), svc, at[..n], delta + size);
    } else {
      TotalWithSize(scs, svc, at[n], size + delta);
    }
  }

  lemma {:induction false} FoundSome(scs: seq<Subcluster>, svc: string)
    ensures Found(scs, svc) == [] <==> LastMatch(scs, svc).None?
  {
    if scs != [] {
      FoundSome(scs[..|scs| - 1], svc);
    }
  }

  /** The pods behind the service after a resize are exactly the target, no size is negative, and
      nothing else in the spec changes. */
  lemma ResizeExact(scs: seq<Subcluster>, svc: string, target: nat)
    requires NonNegative(scs) && LastMatch(scs, svc).Some?
    ensures var at, delta := Found(scs, svc), target - Total(scs, svc);
            var r := ResizedAt(scs, at, delta);
            Total(r, svc) == target && NonNegative(r) && OnlySizes(scs, r, at)
  {
    hide Total, LastMatch, ResizedAt, NonNegative, OnlySizes, CutAt, Matches;
    var at, delta := Found(scs, svc), target - Total(scs, svc);
    var r := ResizedAt(scs, at, delta);
    FoundSome(scs, svc);
    SumIsTotal(scs, svc);
    ResizedTotal(scs, svc, at, delta);
    ResizedOnlySizes(scs, at, delta);
    NothingToResize(scs, at);
    if delta != 0 {
      var m := ResizedCut(scs, at, delta);
      CutNonNegative(scs, r, at, delta, m);
    }
  }

  lemma CutNonNegative(scs: seq<Subcluster>, r: seq<Subcluster>, at: seq<nat>, delta: int, m: nat)
    requires NonNegative(scs) && Positions(scs, at) && OnlySizes(scs, r, at) && delta != 0 && CutAt(scs, r, at, delta, m)
    ensures NonNegative(r)
  {
  }

  lemma NothingToResize(scs: seq<Subcluster>, at: seq<nat>)
    requires Positions(scs, at)
    ensures ResizedAt(scs, at, 0) == scs
  {
  }

  lemma ResizeReaches(spec: Spec, scs: seq<Subcluster>)
    requires Positions(scs, Found(scs, spec.serviceName))
    ensures LastMatch(scs, spec.serviceName).Some? && NonNegative(scs) && spec.targetSize >= 0 ==>
              var at, delta := Found(scs, spec.serviceName), spec.targetSize - Total(scs, spec.serviceName);
              var r := ResizedAt(scs, at, delta);
              Total(r, spec.serviceName) == spec.targetSize && NonNegative(r) && OnlySizes(scs, r, at)
  {
    hide Total, LastMatch, ResizedAt, NonNegative, OnlySizes, Found;
    if LastMatch(scs, spec.serviceName).Some? && NonNegative(scs) && spec.targetSize >= 0 {
      ResizeExact(scs, spec.serviceName, spec.targetSize);
    }
  }

  class SubclusterResizeReconciler {
    const spec: Spec
    var subclusters: seq<Subcluster>

    constructor (spec: Spec, subclusters: seq<Subcluster>)
      ensures this.spec == spec && this.subclusters == subclusters
    {
      this.spec, this.subclusters := spec, subclusters;
    }

    method FindSubclusters() returns (found: seq<nat>, total: int)
      ensures found == Found(subclusters, spec.serviceName)
      ensures total == Total(subclusters, spec.serviceName)
    {
      found, total := [], 0;
      for i := 0 to |subclusters|
        invariant found == Found(subclusters[..i], spec.serviceName) && total == Total(subclusters[..i], spec.serviceName)
      {
        assert subclusters[..i + 1][..i] == subclusters[..i];
        if Matches(subclusters[i], spec.serviceName) {
          found := found + [i];
          total := total + subclusters[i].size;
        }
      }
      assert subclusters[..|subclusters|] == subclusters;
    }

    /** Resizes to the target; None when nothing is behind the service. */
    method ResizeSubcluster() returns (changed: Option<bool>)
      modifies `subclusters
      ensures changed.None? <==> LastMatch(old(subclusters), spec.serviceName).None?
      ensures changed.None? ==> subclusters == old(subclusters)
      ensures changed.Some? ==>
                var delta := spec.targetSize - Total(old(subclusters), spec.serviceName);
                && changed.value == (delta != 0)
                && subclusters == ResizedAt(old(subclusters), Found(old(subclusters), spec.serviceName), delta)
      ensures changed.Some? && NonNegative(old(subclusters)) && spec.targetSize >= 0 ==>
                && Total(subclusters, spec.serviceName) == spec.targetSize && NonNegative(subclusters)
                && OnlySizes(old(subclusters), subclusters, Found(old(subclusters), spec.serviceName))
    {
      hide Total, LastMatch, ResizedAt, OnlySizes, NonNegative;
      ResizeReaches(spec, subclusters);
      NothingToResize(subclusters, Found(subclusters, spec.serviceName));
      var found, total := FindSubclusters();
      FoundSome(subclusters, spec.serviceName);
      if |found| == 0 {
        return None;
      }
      var delta := spec.targetSize - total;
      if delta == 0 {
        return Some(false);
      }
      ResizeBackward(found, delta);
      return Some(true);
    }

    /** From the last subcluster found to the first, until nothing is left to hand out or take. */
    method ResizeBackward(found: seq<nat>, delta: int)
      requires delta != 0 && forall k | 0 <= k < |found| :: found[k] < |subclusters|
      modifies `subclusters
      ensures subclusters == ResizedAt(old(subclusters), found, delta)
    {
      hide WithSize;
      ghost var all := subclusters;
      var left, i := delta, |found| - 1;
      assert found[..i + 1] == found;
      while i >= 0
        invariant -1 <= i < |found| && |subclusters| == |all| && left != 0
        invariant ResizedAt(all, found, delta) == ResizedAt(subclusters, found[..i + 1], left)
      {
        var at := found[i];
        assert found[..i + 1][..i] == found[..i];
        if left > 0 {
          subclusters := WithSize(subclusters, at, subclusters[at].size + left);
          left := 0;
        } else if -left > subclusters[at].size {
          left := left + subclusters[at].size;
          subclusters := WithSize(subclusters, at, 0);
        } else {
          subclusters := WithSize(subclusters, at, subclusters[at].size + left);
          left := 0;
        }
        if left == 0 {
          break;
        }
        i := i - 1;
      }
    }
  }
}
