/** Where a pass gets to: over every run of the scale-down machine, orderly or not, a pass that gets
    through the actor that resizes statefulsets leaves each of them as the spec asks for. */
module ScaleDownProgress {
  import opened Text
  import opened PodFacts
  import opened ScaleDown
  import opened ScaleDownSafety

  /** The statefulset has as many pods as the spec asks for. */
  predicate AtSize(s: Sub) {
    s.want.Some? && s.sts == s.want
  }

  /** What the object actor has handled is as the spec asks for. */
  ghost predicate HandledAtSize(w: World) {
    AtObjs(w) ==> forall n | n in w.done :: n in w.subs && AtSize(w.subs[n])
  }

  lemma HandledStep(w: World, e: Event)
    requires HandledAtSize(w) && Enabled(w, e)
    ensures HandledAtSize(Apply(w, e))
  {
    hide Refreshed, FactOf, Gate, UninstallTargets, RemoveTargets, InstallTargets, Numbered, NoneDown, InstallAll,
      KeepsSomeDb, KeepsSomeInstalled, ToShrink, Quiet;
  }

  lemma {:induction false} HandledInRun(run: seq<World>, events: seq<Event>, k: nat)
    requires IsRun(run, events) && k < |run|
    ensures HandledAtSize(run[k])
  {
    hide HandledAtSize, Enabled, Apply;
    if k == 0 {
      StartHandled();
    } else {
      HandledInRun(run, events, k - 1);
      assert Enabled(run[k - 1], events[k - 1]) && run[k - 1 + 1] == Apply(run[k - 1], events[k - 1]);
      HandledStep(run[k - 1], events[k - 1]);
    }
  }

  lemma StartHandled()
    ensures HandledAtSize(START)
  {
  }

  /** When a pass goes on from there, every subcluster of the spec has a statefulset of its size and
      no other subcluster has one. */
  lemma PassReachesSpec(run: seq<World>, events: seq<Event>, k: nat)
    requires IsRun(run, events) && k < |events|
    requires At(run[k], ObjAll) && events[k].Next?
    ensures var subs := run[k + 1].subs;
            forall n | n in subs :: subs[n].sts == subs[n].want
  {
    HandledInRun(run, events, k);
    assert Enabled(run[k], events[k]) && run[k + 1] == Apply(run[k], events[k]);
  }
}
