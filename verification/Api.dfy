/** The subcluster of a VerticaDB spec (api/v1beta1/verticadb_types.go). */
module Api {
  import opened Text

  /** None stands for a field that is not set, which differs from an empty one. */
  datatype Subcluster = Subcluster(
    name: string,
    serviceName: string,
    size: int,
    isPrimary: bool,
    isTransient: bool,
    imageOverride: string,
    externalIPs: Option<seq<string>>,
    loadBalancerIP: string,
    serviceAnnotations: Option<map<string, string>>,
    nodePort: int,
    serviceType: string
  )

  /** The service that routes to a subcluster; by default it has the subcluster's name. */
  function ServiceOf(sc: Subcluster): string {
    if sc.serviceName == "" then sc.name else sc.serviceName
  }

  ghost predicate DistinctNames(scs: seq<Subcluster>) {
    forall i, j | 0 <= i < j < |scs| :: scs[i].name != scs[j].name
  }
}
