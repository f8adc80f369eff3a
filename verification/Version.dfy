/** Server versions and the upgrade paths the operator accepts (pkg/version/version.go). */
module Version {

  datatype Components = Components(major: nat, minor: nat, patch: nat)

  const ONLINE_UPGRADE_VERSION := Components(11, 1, 0)
  const START_DB_HOST_LIST_VERSION := Components(11, 0, 1)

  predicate IsEqualOrNewer(v: Components, than: Components) {
    if v.major > than.major then true
    else if v.major < than.major then false
    else if v.minor > than.minor then true
    else if v.minor < than.minor then false
    else if v.patch > than.patch then true
    else if v.patch < than.patch then false
    else true
  }

  predicate IsEqualExceptPatch(v: Components, other: Components) {
    other.major == v.major && other.minor == v.minor
  }

  const UPGRADE_PATHS: map<Components, Components> := map[
    Components(11, 0, 0) := Components(11, 1, 0),
    Components(11, 0, 1) := Components(11, 1, 0),
    Components(11, 0, 2) := Components(11, 1, 0),
    Components(11, 1, 0) := Components(12, 0, 0),
    Components(11, 1, 1) := Components(12, 0, 0)
  ]

  predicate IsValidUpgradePath(from: Components, to: Components) {
    if from == to then true
    else if to.major < from.major
         || (to.major == from.major && to.minor < from.minor)
         || (to.major == from.major && to.minor == from.minor && to.patch < from.patch) then false
    else if IsEqualExceptPatch(from, to) then true
    else if from !in UPGRADE_PATHS then true
    else IsEqualExceptPatch(to, UPGRADE_PATHS[from])
  }

  /** What the table comes to: nothing goes back, a newer patch level is always accepted, 11.0.0 to
      11.0.2 lead to 11.1 only, 11.1.0 and 11.1.1 to 12.0 only, and any other version anywhere. */
  lemma UpgradePathExact(from: Components, to: Components)
    ensures IsValidUpgradePath(from, to) <==>
              && IsEqualOrNewer(to, from)
              && ((to.major == from.major && to.minor == from.minor) ||
                  (&& (from.major == 11 && from.minor == 0 && from.patch <= 2 ==> to.major == 11 && to.minor == 1)
                   && (from.major == 11 && from.minor == 1 && from.patch <= 1 ==> to.major == 12 && to.minor == 0)))
  {
  }

  /** Every version is reached from the one before it by an accepted upgrade. */
  ghost predicate IsChain(vs: seq<Components>) {
    forall i | 0 <= i < |vs| - 1 :: IsValidUpgradePath(vs[i], vs[i + 1])
  }

  ghost predicate Passes(vs: seq<Components>, major: nat, minor: nat, patch: nat) {
    exists i :: 0 <= i < |vs| && vs[i].major == major && vs[i].minor == minor && vs[i].patch >= patch
  }

  /** A chain of upgrades that starts with 11.0 and gets past 11.1 goes through 11.1, or through a
      patch level of 11.0 that the table does not list. */
  lemma {:induction false} NoReleaseSkipped(vs: seq<Components>)
    requires IsChain(vs) && vs != [] && vs[0].major == 11 && vs[0].minor == 0
    requires IsEqualOrNewer(vs[|vs| - 1], Components(11, 2, 0))
    ensures Passes(vs, 11, 1, 0) || Passes(vs, 11, 0, 3)
  {
    hide IsValidUpgradePath;
    UpgradePathExact(vs[0], vs[1]);
    if vs[0].patch <= 2 && vs[1].minor == 0 && vs[1].major == 11 {
      var rest := vs[1..];
      forall i | 0 <= i < |rest| - 1
        ensures IsValidUpgradePath(rest[i], rest[i + 1])
      {
        assert rest[i] == vs[i + 1] && rest[i + 1] == vs[i + 1 + 1];
      }
      NoReleaseSkipped(rest);
      assert forall i | 0 <= i < |rest| :: rest[i] == vs[i + 1];
    }
  }

  /** The table does not stop such a chain: 11.0.0, 11.0.3, 12.0.0. */
  lemma ReleaseSkipped()
    ensures var vs := [Components(11, 0, 0), Components(11, 0, 3), Components(12, 0, 0)];
            IsChain(vs) && !Passes(vs, 11, 1, 0)
  {
  }

  /** An accepted path never goes below a version already reached. */
  lemma AcceptedPathKeepsFloor(from: Components, to: Components, floor: Components)
    requires IsValidUpgradePath(from, to) && IsEqualOrNewer(from, floor)
    ensures IsEqualOrNewer(to, floor)
  {
  }
}
