/** Two checks of the admission webhook that relate subclusters to each other
    (api/v1beta1/verticadb_webhook.go). */
module Webhook {
  import opened Text
  import opened Api

  datatype Field = Name | ExternalIPs | LoadBalancerIP | ServiceAnnotations | NodePort | ServiceType

  /** An error about a field of one subcluster, found when comparing it with an earlier one. */
  datatype Error = Invalid(fld: Field, index: nat, other: nat)

  // ---------------------------------------------------------------- duplicate names

  ghost predicate DistinctFrom(scs: seq<Subcluster>, i: nat, hi: nat)
    requires i < |scs| && hi <= |scs|
  {
    forall j | i < j < hi :: scs[i].name != scs[j].name
  }

  /** Reports nothing exactly when all names differ. */
  method HasDuplicateScName(scs: seq<Subcluster>, allErrs: seq<Error>) returns (errs: seq<Error>)
    ensures allErrs <= errs
    ensures errs == allErrs <==> DistinctNames(scs)
    ensures forall e | e in errs[|allErrs|..] ::
              e.fld == Name && e.other < e.index < |scs| && scs[e.index].name == scs[e.other].name
  {
    errs := allErrs;
    var i := 0;
    while i < |scs| - 1
      invariant 0 <= i && (i <= |scs| - 1 || i == 0) && allErrs <= errs
      invariant errs == allErrs <==> forall k | 0 <= k < i :: DistinctFrom(scs, k, |scs|)
      invariant forall e | e in errs[|allErrs|..] ::
                  e.fld == Name && e.other < e.index < |scs| && scs[e.index].name == scs[e.other].name
    {
      ghost var before := errs;
      for j := i + 1 to |scs|
        invariant before <= errs && (errs == before <==> DistinctFrom(scs, i, j))
        invariant forall e | e in errs[|allErrs|..] ::
                    e.fld == Name && e.other < e.index < |scs| && scs[e.index].name == scs[e.other].name
      {
        if scs[i].name == scs[j].name {
          errs := errs + [Invalid(Name, j, i)];
        }
      }
      i := i + 1;
    }
    if errs == allErrs {
      forall k, j | 0 <= k < j < |scs|
        ensures scs[k].name != scs[j].name
      {
        assert DistinctFrom(scs, k, |scs|);
      }
    }
  }

  // ---------------------------------------------------------------- shared services

  predicate SameService(a: Subcluster, b: Subcluster) {
    && a.externalIPs == b.externalIPs && a.loadBalancerIP == b.loadBalancerIP
    && a.serviceAnnotations == b.serviceAnnotations && a.nodePort == b.nodePort && a.serviceType == b.serviceType
  }

  /** Any two subclusters that share a service agree on everything that concerns it. */
  ghost predicate Consistent(scs: seq<Subcluster>) {
    forall i, j | 0 <= i < j < |scs| && ServiceOf(scs[i]) == ServiceOf(scs[j]) :: SameService(scs[i], scs[j])
  }

  lemma ConsistentIs(scs: seq<Subcluster>)
    ensures Consistent(scs) <==>
              forall i, j | 0 <= i < j < |scs| && ServiceOf(scs[i]) == ServiceOf(scs[j]) ::
                && scs[i].externalIPs == scs[j].externalIPs && scs[i].loadBalancerIP == scs[j].loadBalancerIP
                && scs[i].serviceAnnotations == scs[j].serviceAnnotations
                && scs[i].nodePort == scs[j].nodePort && scs[i].serviceType == scs[j].serviceType
  {
  }

  /** A later subcluster agrees with subcluster i if it shares its service. */
  ghost predicate AgreesFrom(scs: seq<Subcluster>, i: nat, hi: nat)
    requires i < |scs| && hi <= |scs|
  {
    forall j | i < j < hi && ServiceOf(scs[i]) == ServiceOf(scs[j]) :: SameService(scs[i], scs[j])
  }

  predicate IsFirst(scs: seq<Subcluster>, i: nat)
    requires i < |scs|
  {
    forall j | 0 <= j < i :: ServiceOf(scs[j]) != ServiceOf(scs[i])
  }

  predicate Differ(a: Subcluster, b: Subcluster, fld: Field) {
    match fld
    case Name => a.name != b.name
    case ExternalIPs => a.externalIPs != b.externalIPs
    case LoadBalancerIP => a.loadBalancerIP != b.loadBalancerIP
    case ServiceAnnotations => a.serviceAnnotations != b.serviceAnnotations
    case NodePort => a.nodePort != b.nodePort
    case ServiceType => a.serviceType != b.serviceType
  }

  /** An error names two subclusters that share a service and a field of it in which they differ. */
  predicate Justified(scs: seq<Subcluster>, e: Error) {
    && e.other < e.index < |scs| && ServiceOf(scs[e.other]) == ServiceOf(scs[e.index])
    && e.fld != Name && Differ(scs[e.other], scs[e.index], e.fld)
  }

  const SERVICE_FIELDS: seq<Field> := [ExternalIPs, LoadBalancerIP, ServiceAnnotations, NodePort, ServiceType]

  /** The errors for these fields, in order. */
  function Errors(a: Subcluster, b: Subcluster, i: nat, j: nat, fields: seq<Field>): (r: seq<Error>)
    ensures r == [] <==> forall f | f in fields :: !Differ(a, b, f)
    ensures forall e | e in r :: e.index == j && e.other == i && e.fld in fields && Differ(a, b, e.fld)
  {
    if fields == [] then []
    else
      var n := |fields| - 1;
      assert fields == fields[..n] + [fields[n]];
      Errors(a, b, i, j, fields[..n]) + if Differ(a, b, fields[n]) then [Invalid(fields[n], j, i)] else []
  }

  function ErrorsUpTo(a: Subcluster, b: Subcluster, i: nat, j: nat, k: nat): seq<Error>
    requires k <= 5
  {
    Errors(a, b, i, j, SERVICE_FIELDS[..k])
  }

  lemma ErrorsStep(a: Subcluster, b: Subcluster, i: nat, j: nat, k: nat)
    requires k < 5
    ensures ErrorsUpTo(a, b, i, j, 0) == [] && ErrorsUpTo(a, b, i, j, 5) == Errors(a, b, i, j, SERVICE_FIELDS)
    ensures ErrorsUpTo(a, b, i, j, k + 1)
         == ErrorsUpTo(a, b, i, j, k) + if Differ(a, b, SERVICE_FIELDS[k]) then [Invalid(SERVICE_FIELDS[k], j, i)] else []
  {
    assert SERVICE_FIELDS[..k + 1][..k] == SERVICE_FIELDS[..k] && SERVICE_FIELDS[..5] == SERVICE_FIELDS;
  }

  lemma NoErrors(a: Subcluster, b: Subcluster, i: nat, j: nat)
    ensures Errors(a, b, i, j, SERVICE_FIELDS) == [] <==> SameService(a, b)
  {
    var fields := SERVICE_FIELDS;
    assert fields[0] in fields && fields[1] in fields && fields[2] in fields && fields[3] in fields && fields[4] in fields;
  }

  /** One of the five comparisons. */
  method Report(sc: Subcluster, osc: Subcluster, i: nat, j: nat, k: nat, errs: seq<Error>, ghost allErrs: seq<Error>)
    returns (r: seq<Error>)
    requires k < 5 && errs == allErrs + ErrorsUpTo(sc, osc, i, j, k)
    ensures r == allErrs + ErrorsUpTo(sc, osc, i, j, k + 1)
  {
    hide Errors, ErrorsUpTo;
    ErrorsStep(sc, osc, i, j, k);
    if Differ(sc, osc, SERVICE_FIELDS[k]) {
      return errs + [Invalid(SERVICE_FIELDS[k], j, i)];
    }
    return errs;
  }

  method CompareServices(sc: Subcluster, osc: Subcluster, i: nat, j: nat,
          allErrs: seq<Error>) returns (errs: seq<Error>)
    ensures errs == allErrs + Errors(sc, osc, i, j, SERVICE_FIELDS)
  {
    hide Errors, ErrorsUpTo;
    ErrorsStep(sc, osc, i, j, 0);
    errs := Report(sc, osc, i, j, 0, allErrs, allErrs);
    errs := Report(sc, osc, i, j, 1, errs, allErrs);
    errs := Report(sc, osc, i, j, 2, errs, allErrs);
    errs := Report(sc, osc, i, j, 3, errs, allErrs);
    errs := Report(sc, osc, i, j, 4, errs, allErrs);
  }

  /** Comparing with the first subcluster of each service is enough. */
  lemma FirstsSuffice(scs: seq<Subcluster>)
    ensures Consistent(scs) <==> forall i | 0 <= i < |scs| && IsFirst(scs, i) :: AgreesFrom(scs, i, |scs|)
  {
    hide ServiceOf, SameService;
    if forall i | 0 <= i < |scs| && IsFirst(scs, i) :: AgreesFrom(scs, i, |scs|) {
      forall i, j | 0 <= i < j < |scs| && ServiceOf(scs[i]) == ServiceOf(scs[j])
        ensures SameService(scs[i], scs[j])
      {
        var f := FirstOf(scs, i);
        assert AgreesFrom(scs, f, |scs|);
        Transitive(scs[f], scs[i], scs[j]);
        assert f < i ==> SameService(scs[f], scs[i]);
        assert SameService(scs[f], scs[j]);
      }
    }
  }

  lemma Transitive(a: Subcluster, b: Subcluster, c: Subcluster)
    ensures SameService(a, b) && SameService(a, c) ==> SameService(b, c)
  {
  }

  lemma {:induction false} FirstOf(scs: seq<Subcluster>, i: nat) returns (f: nat)
    requires i < |scs|
    ensures f <= i && ServiceOf(scs[f]) == ServiceOf(scs[i]) && IsFirst(scs, f)
  {
    if j :| 0 <= j < i && ServiceOf(scs[j]) == ServiceOf(scs[i]) {
      f := FirstOf(scs, j);
    } else {
      f := i;
    }
  }

  /** Reports nothing exactly when every two subclusters that share a service agree, although it
      compares only with the first one. */
  method MatchingServiceNamesAreConsistent(scs: seq<Subcluster>, allErrs: seq<Error>) returns (errs: seq<Error>)
    ensures allErrs <= errs
    ensures errs == allErrs <==> Consistent(scs)
    ensures errs == allErrs <==>
              forall i, j | 0 <= i < j < |scs| && ServiceOf(scs[i]) == ServiceOf(scs[j]) ::
                && scs[i].externalIPs == scs[j].externalIPs && scs[i].loadBalancerIP == scs[j].loadBalancerIP
                && scs[i].serviceAnnotations == scs[j].serviceAnnotations
                && scs[i].nodePort == scs[j].nodePort && scs[i].serviceType == scs[j].serviceType
    ensures forall e | e in errs[|allErrs|..] :: Justified(scs, e)
  {
    hide ServiceOf, SameService, Consistent, Differ, Errors;
    ConsistentIs(scs);
    errs := allErrs;
    var processed: set<string> := {};
    for i := 0 to |scs|
      invariant allErrs <= errs
      invariant forall s :: s in processed <==> exists k :: 0 <= k < i && ServiceOf(scs[k]) == s
      invariant errs == allErrs <==> forall k | 0 <= k < i && IsFirst(scs, k) :: AgreesFrom(scs, k, |scs|)
      invariant forall e | e in errs[|allErrs|..] :: Justified(scs, e)
    {
      var sc := scs[i];
      assert IsFirst(scs, i) <==> ServiceOf(sc) !in processed;
      if ServiceOf(sc) in processed {
        continue;
      }
      ghost var before := errs;
      for j := i + 1 to |scs|
        invariant before <= errs && (errs == before <==> AgreesFrom(scs, i, j))
        invariant forall e | e in errs[|allErrs|..] :: Justified(scs, e)
      {
        if ServiceOf(sc) == ServiceOf(scs[j]) {
          ghost var had := errs;
          errs := CompareServices(sc, scs[j], i, j, errs);
          NoErrors(sc, scs[j], i, j);
          assert errs[|allErrs|..] == had[|allErrs|..] + Errors(sc, scs[j], i, j, SERVICE_FIELDS);
        }
      }
      processed := processed + {ServiceOf(sc)};
    }
    FirstsSuffice(scs);
  }
}
