/** Each of the five conditions of ScaleDownSafety is needed: for each there is a run from the start
    in which only that condition is broken and at the end of which a statefulset has been shrunk past
    a pod that is in admintools.conf.  The runs are runs of the whole machine, with the checks and
    requeues of its actors; one subcluster of three pods is enough. */
module ScaleDownLimits {
  import opened Text
  import opened PodFacts
  import opened ScaleDown
  import opened ScaleDownSafety

  datatype Violation = UnrecordedStop | DisorderlyUninstall | BlindStatus | EarlyInstall | HalfDone

  predicate Breaks(e: Event, v: Violation) {
    match v
    case UnrecordedStop => e.PodStops?
    case DisorderlyUninstall => e.DoUninstall?
    case BlindStatus => e.Refresh?
    case EarlyInstall => e.DoInstall?
    case HalfDone => e.InstallFails? || e.UninstallFails?
  }

  /** A run from the start to the given world in which every event of another kind is orderly. */
  ghost predicate RunTo(run: seq<World>, events: seq<Event>, v: Violation, w: World) {
    && IsRun(run, events) && run[|run| - 1] == w
    && forall k | 0 <= k < |events| :: Orderly(run[k], events[k]) || Breaks(events[k], v)
  }

  ghost predicate Reached(v: Violation, w: World) {
    exists run, events :: RunTo(run, events, v, w)
  }

  lemma Then(v: Violation, w: World, e: Event)
    requires Reached(v, w) && Enabled(w, e) && (Orderly(w, e) || Breaks(e, v))
    ensures Reached(v, Apply(w, e))
  {
    hide Enabled, Apply, Orderly, Breaks;
    var run, events :| RunTo(run, events, v, w);
    var run', events' := run + [Apply(w, e)], events + [e];
    forall k | 0 <= k < |events'|
      ensures Enabled(run'[k], events'[k]) && run'[k + 1] == Apply(run'[k], events'[k])
      ensures Orderly(run'[k], events'[k]) || Breaks(events'[k], v)
    {
      if k < |events| {
        assert Enabled(run[k], events[k]) && run[k + 1] == Apply(run[k], events[k]);
      }
    }
    assert RunTo(run', events', v, Apply(w, e));
  }

  // ---------------------------------------------------------------- worlds with one subcluster

  const MAIN := "main"

  function One(s: Sub, cache: Cache, pc: nat, done: set<string>, open: bool): World {
    World(map[MAIN := s], cache, pc, done, open)
  }

  lemma Edits(v: Violation, s: Sub, size: nat)
    requires Reached(v, One(s, Stale, 0, {}, false))
    ensures Reached(v, One(s.(want := Some(size)), Stale, 0, {}, false))
  {
    hide Reached;
    var w := One(s, Stale, 0, {}, false);
    Then(v, w, Edit(MAIN, Some(size)));
    assert Apply(w, Edit(MAIN, Some(size))).subs == map[MAIN := s.(want := Some(size))];
  }

  lemma Aborts(v: Violation, w: World)
    requires Reached(v, w)
    ensures Reached(v, Over(w))
  {
    hide Reached;
    Then(v, w, Abort);
  }

  lemma Starts(v: Violation, s: Sub, cache: Cache, pc: nat, done: set<string>, pod: nat)
    requires Reached(v, One(s, cache, pc, done, false)) && pod < Replicas(s)
    ensures Reached(v, One(s.(running := s.running + {pod}), cache, pc, done, false))
  {
    hide Reached;
    var w := One(s, cache, pc, done, false);
    Then(v, w, PodStarts(MAIN, pod));
    assert Apply(w, PodStarts(MAIN, pod)).subs == map[MAIN := s.(running := s.running + {pod})];
  }

  lemma Stops(v: Violation, s: Sub, cache: Cache, pc: nat, pod: nat)
    requires Reached(v, One(s, cache, pc, {}, false)) && pod in s.running
    requires Recorded(s, pod) || v.UnrecordedStop?
    ensures Reached(v, One(s.(running := s.running - {pod}), cache, pc, {}, false))
  {
    hide Reached;
    var w := One(s, cache, pc, {}, false);
    Then(v, w, PodStops(MAIN, pod));
    assert Apply(w, PodStops(MAIN, pod)).subs == map[MAIN := s.(running := s.running - {pod})];
  }

  lemma Gathers(v: Violation, s: Sub, pc: nat, done: set<string>)
    requires Reached(v, One(s, Stale, pc, done, false))
    ensures Reached(v, One(Collected(s), Fresh, pc, done, false))
  {
    hide Reached, Collected;
    var w := One(s, Stale, pc, done, false);
    Then(v, w, Gather);
    assert Apply(w, Gather).subs == map[MAIN := Collected(s)];
  }

  lemma Refreshes(v: Violation, s: Sub, pc: nat)
    requires Reached(v, One(s, Fresh, pc, {}, false)) && pc in {0, 7, 9, 11, 13, 16}
    ensures Reached(v, One(Refreshed(s), Fresh, pc + 1, {}, false))
  {
    hide Reached, Refreshed, At;
    var w := One(s, Fresh, pc, {}, false);
    Order(w);
    Then(v, w, Refresh);
    assert Apply(w, Refresh).subs == map[MAIN := Refreshed(s)];
  }

  lemma Moves(v: Violation, s: Sub, cache: Cache, pc: nat, done: set<string>, open: bool)
    requires Reached(v, One(s, cache, pc, done, open)) && Finished(One(s, cache, pc, done, open))
    ensures Reached(v, One(s, cache, pc + 1, {}, false))
  {
    hide Reached, Finished;
    Then(v, One(s, cache, pc, done, open), Next);
  }

  lemma Enters(v: Violation, s: Sub, pc: nat)
    requires Reached(v, One(s, Fresh, pc, {}, false)) && pc in {12, 14} && Quiet(s)
    ensures Reached(v, One(s, Fresh, pc, {}, true))
  {
    hide Reached, Quiet, At;
    var w := One(s, Fresh, pc, {}, false);
    Order(w);
    Then(v, w, Enter);
  }

  // ---------------------------------------------------------------- parts of a pass

  /** The facts are those that the status was last written from. */
  predicate Steady(s: Sub) {
    s == Refreshed(s)
  }

  lemma RefreshedSteady(s: Sub)
    ensures Steady(Refreshed(s))
  {
    assert Detail(Refreshed(s)) == Detail(s);
  }

  /** A pass starts, perhaps with another size: facts are collected and the status is written. */
  function Seen(s: Sub, size: nat): Sub {
    Refreshed(Collected(s.(want := Some(size))))
  }

  lemma PassStarts(v: Violation, w: World, s: Sub, size: nat)
    requires Reached(v, w) && w.subs == map[MAIN := s]
    ensures Reached(v, One(Seen(s, size), Fresh, 1, {}, false)) && Steady(Seen(s, size))
  {
    hide Reached, Refreshed, Collected;
    Aborts(v, w);
    assert Over(w) == One(s, Stale, 0, {}, false);
    Edits(v, s, size);
    var s' := s.(want := Some(size));
    Gathers(v, s', 0, {});
    Refreshes(v, Collected(s'), 0);
    RefreshedSteady(Collected(s'));
  }

  /** No upgrade is due. */
  lemma ToCreateMissing(v: Violation, s: Sub)
    requires Reached(v, One(s, Fresh, 1, {}, false))
    ensures Reached(v, One(s, Fresh, 5, {}, false))
  {
    hide Reached;
    Moves(v, s, Fresh, 1, {}, false);
    Moves(v, s, Fresh, 2, {}, false);
    Moves(v, s, Fresh, 3, {}, false);
    Moves(v, s, Fresh, 4, {}, false);
  }

  /** Nothing is missing, restarted or dropped from the spec on the way to db_remove_node. */
  lemma ToRemoveNode(v: Violation, s: Sub)
    requires Reached(v, One(s, Fresh, 1, {}, false)) && Steady(s) && s.want.Some? && s.sts.Some?
    ensures Reached(v, One(s, Fresh, 10, {}, false))
  {
    hide Reached, Refreshed;
    ToCreateMissing(v, s);
    Moves(v, s, Fresh, 5, {}, false);
    Moves(v, s, Fresh, 6, {}, false);
    Refreshes(v, s, 7);
    Moves(v, s, Fresh, 8, {}, false);
    Refreshes(v, s, 9);
  }

  lemma NoneSelected(s: Sub)
    requires Gate(s, Size(s))
    ensures RemoveTargets(s) == [] && UninstallTargets(s) == [] && TopDown(s)
    ensures !KeepsSomeDb(s) && !KeepsSomeInstalled(s)
  {
    NoneToRemove(s, Size(s));
    NoneToUninstall(s, Size(s));
    forall i | Size(s) <= i < Replicas(s)
      ensures !StaysInstalled(s, UninstallTargets(s), i) && !KeepsDb(s, RemoveTargets(s), i)
    {
      assert Clear(s, i);
    }
  }

  lemma {:induction false} NoneToRemove(s: Sub, i: nat)
    requires Gate(s, i)
    ensures RemoveNodeFrom(s, i) == []
    decreases Replicas(s) - i
  {
    if i < Replicas(s) {
      assert Clear(s, i);
      NoneToRemove(s, i + 1);
    }
  }

  lemma {:induction false} NoneToUninstall(s: Sub, i: nat)
    requires Gate(s, i)
    ensures UninstallFrom(s, i) == []
    decreases Replicas(s) - i
  {
    if i < Replicas(s) {
      assert Clear(s, i);
      NoneToUninstall(s, i + 1);
    }
  }

  lemma RemovesNothing(v: Violation, s: Sub)
    requires Reached(v, One(s, Fresh, 10, {}, false)) && s.want.Some? && ToShrink(s)
    requires RemoveTargets(s) == [] && !KeepsSomeDb(s)
    ensures Reached(v, One(s, Fresh, 10, {MAIN}, false))
  {
    hide Reached, RemoveTargets, UninstallTargets, KeepsSomeDb, At;
    var w := One(s, Fresh, 10, {}, false);
    Order(w);
    Then(v, w, DoRemoveNode(MAIN));
    assert WithoutDb(s).db == s.db;
    assert Apply(w, DoRemoveNode(MAIN)) == One(s, Fresh, 10, {MAIN}, false);
  }

  /** There is no database to remove, and every pod believed installed runs. */
  lemma ToUninstall(v: Violation, s: Sub)
    requires Reached(v, One(s, Fresh, 1, {}, false)) && Steady(s) && s.want.Some? && ToShrink(s) && Quiet(s)
    requires RemoveTargets(s) == [] && !KeepsSomeDb(s)
    ensures Reached(v, One(s, Fresh, 12, {}, true))
  {
    hide Reached, Refreshed, Quiet, RemoveTargets, KeepsSomeDb;
    ToRemoveNode(v, s);
    RemovesNothing(v, s);
    Moves(v, s, Fresh, 10, {MAIN}, false);
    Refreshes(v, s, 11);
    Enters(v, s, 12);
  }

  lemma UninstallsNothing(v: Violation, s: Sub)
    requires Reached(v, One(s, Fresh, 12, {}, true)) && s.want.Some? && ToShrink(s) && Gate(s, Size(s))
    ensures Reached(v, One(s, Fresh, 12, {MAIN}, true))
  {
    hide Reached, Gate, RemoveTargets, UninstallTargets, KeepsSomeInstalled, TopDown, At;
    var w := One(s, Fresh, 12, {}, true);
    Order(w);
    NoneSelected(s);
    Then(v, w, DoUninstall(MAIN));
    assert Uninstalled(s).nodes == s.nodes && Uninstalled(s).marks == s.marks;
    assert Apply(w, DoUninstall(MAIN)) == One(s, Fresh, 12, {MAIN}, true);
  }

  /** When the facts show the pods to be removed clear, and every pod they show as installed runs, the
      pass goes on to the object reconciler and the statefulset shrinks. */
  lemma ShrinkPass(v: Violation, s: Sub)
    requires Reached(v, One(s, Fresh, 1, {}, false)) && Steady(s) && s.want.Some? && ToShrink(s)
    requires Gate(s, Size(s)) && Quiet(s)
    ensures Reached(v, One(Resized(s, Size(s)), Stale, 14, {MAIN}, true))
  {
    hide Reached, Refreshed, Gate, Quiet, Resized, At, RemoveTargets, UninstallTargets, KeepsSomeDb, KeepsSomeInstalled, TopDown;
    NoneSelected(s);
    ToUninstall(v, s);
    UninstallsNothing(v, s);
    Moves(v, s, Fresh, 12, {MAIN}, true);
    Refreshes(v, s, 13);
    Enters(v, s, 14);
    var w := One(s, Fresh, 14, {}, true);
    Order(w);
    Then(v, w, Resize(MAIN));
    assert Apply(w, Resize(MAIN)) == One(Resized(s, Size(s)), Stale, 14, {MAIN}, true);
  }

  // ---------------------------------------------------------------- three pods get installed

  const IDLE := Fact(false, false, "", true)
  const BLANK := ["", "", ""]
  const NODES: map<nat, nat> := map[0 := 1, 1 := 2, 2 := 3]

  /** Three pods run and nothing is installed. */
  const UP := Sub(Some(3), Some(3), map[], {}, map[], {0, 1, 2}, 0, 0, BLANK, [IDLE, IDLE, IDLE])

  /** They have been installed, and the status does not know yet. */
  const INSTALLED := UP.(nodes := NODES, marks := {0, 1, 2})

  lemma Count3(bs: seq<bool>)
    requires |bs| == 3
    ensures Count(bs) == (if bs[0] then 1 else 0) + (if bs[1] then 1 else 0) + (if bs[2] then 1 else 0)
  {
    assert Count(bs[..2]) == Count(bs[..2][..1]) + if bs[1] then 1 else 0;
    assert Count(bs[..2][..1]) == Count([]) + if bs[0] then 1 else 0;
  }

  /** Facts and status of three pods. */
  lemma SeenIs(s: Sub, a: Fact, b: Fact, c: Fact)
    requires Span(s) == 3 && FactOf(s, 0) == a && FactOf(s, 1) == b && FactOf(s, 2) == c
    ensures Collected(s) == s.(facts := [a, b, c])
    ensures Refreshed(Collected(s)) == s.(facts := [a, b, c], vnodes := [a.vnode, b.vnode, c.vnode],
      installCount := (if a.installed then 1 else 0) + (if b.installed then 1 else 0) + (if c.installed then 1 else 0),
      dbCount := (if a.db then 1 else 0) + (if b.db then 1 else 0) + (if c.db then 1 else 0))
  {
    hide Count, FactOf;
    assert Collected(s).facts == [a, b, c];
    var d := Detail(Collected(s));
    assert d == [a, b, c];
    Count3(Installed(d));
    Count3(WithDb(d));
    assert Vnodes(d) == [a.vnode, b.vnode, c.vnode];
  }

  lemma Begins(v: Violation)
    ensures Reached(v, One(NEW_SUB, Stale, 0, {}, false).(subs := map[]))
  {
    assert One(NEW_SUB, Stale, 0, {}, false).(subs := map[]) == START;
    ReachedBy([START], [], v, START);
  }

  lemma Added(v: Violation, size: nat)
    ensures Reached(v, One(NEW_SUB.(want := Some(size)), Stale, 0, {}, false))
  {
    hide Reached;
    Begins(v);
    Then(v, START, Edit(MAIN, Some(size)));
    assert Apply(START, Edit(MAIN, Some(size))).subs == map[MAIN := NEW_SUB.(want := Some(size))];
  }

  /** The statefulset is created and its pods come up. */
  lemma Creates(v: Violation, s: Sub)
    requires Reached(v, One(s, Fresh, 5, {}, false)) && s.want == Some(3) && s.sts.None? && s.running == {}
    ensures Reached(v, One(Collected(s.(sts := Some(3), running := {0, 1, 2})), Fresh, 5, {MAIN}, false))
  {
    hide Reached, Collected, At;
    var w, s' := One(s, Fresh, 5, {}, false), s.(sts := Some(3));
    Order(w);
    Then(v, w, CreateSts(MAIN));
    assert Apply(w, CreateSts(MAIN)) == One(s', Stale, 5, {MAIN}, false);
    Starts(v, s', Stale, 5, {MAIN}, 0);
    Starts(v, s'.(running := {} + {0}), Stale, 5, {MAIN}, 1);
    Starts(v, s'.(running := {} + {0} + {1}), Stale, 5, {MAIN}, 2);
    assert {} + {0} + {1} + {2} == {0, 1, 2};
    Gathers(v, s'.(running := {0, 1, 2}), 5, {MAIN});
  }

  lemma ToFirstStatus(v: Violation, s: Sub)
    requires Reached(v, One(s, Fresh, 5, {MAIN}, false)) && s.want.Some? && s.sts.Some?
    ensures Reached(v, One(Refreshed(s), Fresh, 8, {}, false))
  {
    hide Reached, Refreshed;
    Moves(v, s, Fresh, 5, {MAIN}, false);
    Moves(v, s, Fresh, 6, {}, false);
    Refreshes(v, s, 7);
  }

  lemma Created(v: Violation)
    ensures Reached(v, One(UP, Fresh, 8, {}, false)) && Steady(UP)
  {
    hide Reached, Collected, Refreshed, One;
    Added(v, 3);
    var s0 := NEW_SUB.(want := Some(3));
    Gathers(v, s0, 0, {});
    Refreshes(v, Collected(s0), 0);
    ToCreateMissing(v, Refreshed(Collected(s0)));
    SeenIs(s0, UNKNOWN, UNKNOWN, UNKNOWN);
    var s1 := s0.(facts := [UNKNOWN, UNKNOWN, UNKNOWN], vnodes := BLANK);
    Creates(v, s1);
    var s2 := s1.(sts := Some(3), running := {0, 1, 2});
    SeenIs(s2, IDLE, IDLE, IDLE);
    ToFirstStatus(v, UP);
    RefreshedSteady(UP);
  }

  lemma ReachedBy(run: seq<World>, events: seq<Event>, v: Violation, w: World)
    requires RunTo(run, events, v, w)
    ensures Reached(v, w)
  {
  }

  lemma InstallsThree()
    ensures InstallTargets(UP) == [0, 1, 2] && InstalledInto(UP, 0) == INSTALLED
  {
    assert InstallFrom(UP, 3) == [];
    assert InstallFrom(UP, 2) == [2];
    assert InstallFrom(UP, 1) == [1, 2];
    assert InstallFrom(UP, 0) == [0, 1, 2];
    NumbersThree();
    assert InstalledInto(UP, 0).marks == {0, 1, 2};
  }

  lemma NumbersThree()
    ensures Numbered(map[], [0, 1, 2], 0) == NODES
  {
    assert [0, 1, 2][1..] == [1, 2] && [1, 2][1..] == [2] && [2][1..] == [];
    var a: map<nat, nat> := map[0 := 1];
    var b := a[1 := 2];
    var c := b[2 := 3];
    assert Numbered(c, [], 3) == c;
    assert Numbered(b, [2], 2) == c;
    assert Numbered(a, [1, 2], 1) == c;
    assert c == NODES;
  }

  /** A pass that finds nothing to remove gets to the install. */
  lemma ToInstall(v: Violation, s: Sub)
    requires Reached(v, One(s, Fresh, 8, {}, false)) && Steady(s) && Quiet(s)
    requires s.want.Some? && s.sts == s.want && forall i | i in s.running :: i < Size(s)
    ensures Reached(v, One(s, Fresh, 15, {}, false))
  {
    hide Reached, Refreshed, Quiet;
    Moves(v, s, Fresh, 8, {}, false);
    Refreshes(v, s, 9);
    Moves(v, s, Fresh, 10, {}, false);
    Refreshes(v, s, 11);
    Enters(v, s, 12);
    Moves(v, s, Fresh, 12, {}, true);
    Refreshes(v, s, 13);
    Enters(v, s, 14);
    Stays(v, s);
    Moves(v, s, Fresh, 14, {MAIN}, true);
  }

  lemma Stays(v: Violation, s: Sub)
    requires Reached(v, One(s, Fresh, 14, {}, true))
    requires s.want.Some? && s.sts == s.want && forall i | i in s.running :: i < Size(s)
    ensures Reached(v, One(s, Fresh, 14, {MAIN}, true))
  {
    hide Reached, At;
    var w := One(s, Fresh, 14, {}, true);
    Order(w);
    Then(v, w, Resize(MAIN));
    assert Resized(s, Size(s)).running == s.running;
    assert Apply(w, Resize(MAIN)) == One(s, Fresh, 14, {MAIN}, true);
  }

  /** Nothing keeps the install from running. */
  lemma MayInstall(s: Sub, pc: nat, base: nat)
    requires pc in {2, 15} && Quiet(s) && s.want.Some?
    requires (forall i | i in InstallTargets(s) :: i in s.running) && forall i | i in s.nodes :: s.nodes[i] <= base
    ensures CanInstall(One(s, Fresh, pc, {}, false), [MAIN], base)
    ensures InstallAll(map[MAIN := s], [MAIN], base) == map[MAIN := InstalledInto(s, base)]
  {
    hide InstallTargets, InstalledInto, Quiet, At;
    Order(One(s, Fresh, pc, {}, false));
    assert [MAIN][1..] == [];
    assert map[MAIN := s][MAIN := InstalledInto(s, base)] == map[MAIN := InstalledInto(s, base)];
  }

  lemma Differs(s: Sub, t: Sub, i: nat)
    requires i in t.nodes && i !in s.nodes
    ensures map[MAIN := t] != map[MAIN := s]
  {
    assert map[MAIN := t][MAIN] == t && map[MAIN := s][MAIN] == s;
  }

  lemma Installs(v: Violation)
    ensures Reached(v, One(INSTALLED, Stale, 16, {}, false))
  {
    hide Reached, Refreshed, InstallFrom, Numbered, InstallTargets, InstalledInto, At, CanInstall, InstallAll;
    Created(v);
    ToInstall(v, UP);
    var w := One(UP, Fresh, 15, {}, false);
    Order(w);
    InstallsThree();
    MayInstall(UP, 15, 0);
    Then(v, w, DoInstall([MAIN], 0));
    Differs(UP, INSTALLED, 0);
    assert Apply(w, DoInstall([MAIN], 0)) == One(INSTALLED, Stale, 16, {}, false);
  }

  // ---------------------------------------------------------------- the runs

  /** The third pod stands in admintools.conf, and the statefulset is smaller. */
  lemma Orphaned(v: Violation, s: Sub, cache: Cache, pc: nat, done: set<string>, open: bool)
    requires Reached(v, One(s, cache, pc, done, open)) && 2 in s.nodes && Replicas(s) <= 2
    ensures exists run, events, w :: RunTo(run, events, v, w) && !NoOrphans(w)
  {
    var w := One(s, cache, pc, done, open);
    assert MAIN in w.subs;
    assert !NoOrphans(w);
  }

  const OFF := Fact(false, false, "", false)
  const BARE := Fact(true, false, "", true)

  /** An installed pod stops before the status has recorded its installation. */
  lemma UnrecordedStopOrphans()
    ensures exists run, events, w :: RunTo(run, events, UnrecordedStop, w) && !NoOrphans(w)
  {
    hide Reached, Refreshed, Collected;
    var v := UnrecordedStop;
    Installs(v);
    Stops(v, INSTALLED, Stale, 16, 2);
    assert {0, 1, 2} - {2} == {0, 1};
    var s := INSTALLED.(running := {0, 1});
    PassStarts(v, One(s, Stale, 16, {}, false), s, 2);
    SeenIs(s.(want := Some(2)), BARE, BARE, OFF);
    ShrinkPass(v, Seen(s, 2));
    Orphaned(v, Resized(Seen(s, 2), 2), Stale, 14, {MAIN}, true);
  }

  /** The status has recorded the installation of all three. */
  const RECORDED := INSTALLED.(facts := [BARE, BARE, BARE], installCount := 3)

  lemma Records(v: Violation)
    ensures Reached(v, One(RECORDED, Fresh, 17, {}, false))
  {
    hide Reached, Refreshed, Collected;
    Installs(v);
    Gathers(v, INSTALLED, 16, {});
    Refreshes(v, Collected(INSTALLED), 16);
    SeenIs(INSTALLED, BARE, BARE, BARE);
  }

  /** A collection of facts fails, and the status is written all the same. */
  lemma Blinds(s: Sub)
    requires Reached(BlindStatus, One(s, Stale, 0, {}, false))
    ensures Reached(BlindStatus, One(Refreshed(s.(facts := [])), Failed, 1, {}, false))
  {
    hide Reached, Refreshed, At;
    var u, e := One(s, Stale, 0, {}, false), s.(facts := []);
    Order(u);
    Then(BlindStatus, u, GatherFails);
    assert Apply(u, GatherFails).subs == map[MAIN := e];
    var w := One(e, Failed, 0, {}, false);
    Order(w);
    Then(BlindStatus, w, Refresh);
    assert Apply(w, Refresh).subs == map[MAIN := Refreshed(e)];
  }

  /** A collection of facts fails unnoticed, and the status is written from no facts while an installed
      pod is down. */
  lemma BlindStatusOrphans()
    ensures exists run, events, w :: RunTo(run, events, BlindStatus, w) && !NoOrphans(w)
  {
    hide Reached, Refreshed, Collected;
    var v := BlindStatus;
    Records(v);
    Stops(v, RECORDED, Fresh, 17, 2);
    assert {0, 1, 2} - {2} == {0, 1};
    var s := RECORDED.(running := {0, 1});
    Aborts(v, One(s, Fresh, 17, {}, false));
    Blinds(s);
    BlindRefresh(s.(facts := []));
    BlindVnodes(s.(facts := []));
    var r := Refreshed(s.(facts := []));
    PassStarts(v, One(r, Failed, 1, {}, false), r, 2);
    SeenIs(r.(want := Some(2)), BARE, BARE, OFF);
    ShrinkPass(v, Seen(r, 2));
    Orphaned(v, Resized(Seen(r, 2), 2), Stale, 14, {MAIN}, true);
  }

  lemma BlindVnodes(s: Sub)
    requires s.facts == [] && Span(s) == 3
    ensures Refreshed(s).vnodes == BLANK && Refreshed(s) == s.(installCount := Refreshed(s).installCount, dbCount := Refreshed(s).dbCount, vnodes := BLANK)
  {
    assert Detail(s) == [UNKNOWN, UNKNOWN, UNKNOWN];
    assert Vnodes(Detail(s)) == BLANK;
  }

  const DB: map<nat, string> := map[0 := "v1", 1 := "v2", 2 := "v3"]

  /** The last pod was down while db_remove_node took the database from the one below it: the status
      did not know of its database.  Then the uninstall meets it running, with the database, and takes
      the entry of the pod below. */
  const HALFWAY := RECORDED.(want := Some(1), db := map[0 := "v1", 2 := "v3"], installCount := 3, dbCount := 2,
    vnodes := ["v1", "v2", "v3"],
    facts := [Fact(true, true, "v1", true), Fact(true, false, "v2", true), Fact(true, true, "v3", true)])

  const GAP := HALFWAY.(nodes := map[0 := 1, 2 := 3], marks := {0, 2})

  lemma TakesOne(s: Sub)
    requires s.want == Some(1) && s.sts == Some(3) && s.db == DB
    requires s.facts == [Fact(true, true, "v1", true), Fact(true, true, "v2", true), Fact(true, false, "", false)]
    ensures RemoveTargets(s) == [1] && !KeepsSomeDb(s) && WithoutDb(s) == s.(db := map[0 := "v1", 2 := "v3"])
  {
    assert RemoveNodeFrom(s, 3) == [];
    assert RemoveNodeFrom(s, 2) == [];
    assert RemoveTargets(s) == [1];
    assert WithoutDb(s).db == map[0 := "v1", 2 := "v3"];
  }

  lemma LosesDb(v: Violation, s: Sub)
    requires s.want == Some(1) && s.sts == Some(3) && s.db == DB
    requires s.facts == [Fact(true, true, "v1", true), Fact(true, true, "v2", true), Fact(true, false, "", false)]
    requires Reached(v, One(s, Fresh, 10, {}, false))
    ensures Reached(v, One(s.(db := map[0 := "v1", 2 := "v3"]), Stale, 10, {MAIN}, false))
  {
    hide Reached, At, RemoveTargets, RemoveNodeFrom, KeepsSomeDb, WithoutDb;
    var w := One(s, Fresh, 10, {}, false);
    Order(w);
    TakesOne(s);
    Then(v, w, DoRemoveNode(MAIN));
    assert Apply(w, DoRemoveNode(MAIN)) == One(s.(db := map[0 := "v1", 2 := "v3"]), Stale, 10, {MAIN}, false);
  }

  /** The database is created, and the last pod stops before the status knows of it. */
  lemma GainsDb(v: Violation)
    ensures Reached(v, One(RECORDED.(db := DB, running := {0, 1}), Stale, 17, {}, false))
  {
    hide Reached, At;
    Records(v);
    var w := One(RECORDED, Fresh, 17, {}, false);
    Order(w);
    Then(v, w, GainDb(MAIN, DB));
    var s := RECORDED.(db := DB);
    assert RECORDED.db + DB == DB;
    assert Apply(w, GainDb(MAIN, DB)) == One(s, Stale, 17, {}, false);
    Stops(v, s, Stale, 17, 2);
    assert {0, 1, 2} - {2} == {0, 1};
  }

  const TAKEN := RECORDED.(want := Some(1), db := map[0 := "v1", 2 := "v3"], running := {0, 1}, dbCount := 2,
    vnodes := ["v1", "v2", ""],
    facts := [Fact(true, true, "v1", true), Fact(true, true, "v2", true), Fact(true, false, "", false)])

  lemma ToTaken(v: Violation)
    ensures Reached(v, One(TAKEN, Stale, 10, {MAIN}, false))
  {
    hide Reached, Refreshed, Collected;
    GainsDb(v);
    var t := RECORDED.(db := DB, running := {0, 1});
    PassStarts(v, One(t, Stale, 17, {}, false), t, 1);
    SeenIs(t.(want := Some(1)), TAKEN.facts[0], TAKEN.facts[1], TAKEN.facts[2]);
    ToRemoveNode(v, Seen(t, 1));
    LosesDb(v, Seen(t, 1));
  }

  lemma ToHalfway(v: Violation)
    ensures Reached(v, One(HALFWAY, Fresh, 12, {}, false))
  {
    hide Reached, Refreshed, Collected;
    ToTaken(v);
    Moves(v, TAKEN, Stale, 10, {MAIN}, false);
    Starts(v, TAKEN, Stale, 11, {}, 2);
    assert {0, 1} + {2} == {0, 1, 2};
    var y := TAKEN.(running := {0, 1, 2});
    Gathers(v, y, 11, {});
    Refreshes(v, Collected(y), 11);
    SeenIs(y, HALFWAY.facts[0], HALFWAY.facts[1], HALFWAY.facts[2]);
  }

  lemma LeavesGap()
    ensures UninstallTargets(HALFWAY) == [1] && KeepsSomeInstalled(HALFWAY) && Uninstalled(HALFWAY) == GAP
  {
    assert UninstallFrom(HALFWAY, 3) == [];
    assert UninstallFrom(HALFWAY, 2) == [];
    assert UninstallTargets(HALFWAY) == [1];
    assert StaysInstalled(HALFWAY, UninstallTargets(HALFWAY), 2);
    assert Uninstalled(HALFWAY).nodes == GAP.nodes && Uninstalled(HALFWAY).marks == GAP.marks;
  }

  /** An uninstall passes over a pod that still has the database and takes one below it. */
  lemma DisorderlyUninstallOrphans()
    ensures exists run, events, w :: RunTo(run, events, DisorderlyUninstall, w) && !NoOrphans(w)
  {
    hide Reached, Refreshed, Collected, UninstallFrom, UninstallTargets, Uninstalled, KeepsSomeInstalled, At;
    var v := DisorderlyUninstall;
    ToHalfway(v);
    Enters(v, HALFWAY, 12);
    var w := One(HALFWAY, Fresh, 12, {}, true);
    Order(w);
    LeavesGap();
    Then(v, w, DoUninstall(MAIN));
    assert Apply(w, DoUninstall(MAIN)) == One(GAP, Stale, 0, {}, false);
    Stops(v, GAP, Stale, 0, 2);
    assert {0, 1, 2} - {2} == {0, 1};
    var s := GAP.(running := {0, 1});
    PassStarts(v, One(s, Stale, 0, {}, false), s, 1);
    SeenIs(s.(want := Some(1)), GAP.facts[0], Fact(false, false, "v2", true), Fact(true, false, "v3", false));
    var t := Seen(s, 1);
    PassStarts(v, One(t, Fresh, 1, {}, false), t, 1);
    SeenIs(t.(want := Some(1)), GAP.facts[0], Fact(false, false, "v2", true), Fact(false, false, "v3", false));
    ShrinkPass(v, Seen(t, 1));
    Orphaned(v, Resized(Seen(t, 1), 1), Stale, 14, {MAIN}, true);
  }

  // ---------------------------------------------------------------- an install from too high a count

  const DOWN := Fact(true, false, "", false)

  /** Pods 1 and 2 have been uninstalled, and the status has not been written since. */
  const TRIMMED := RECORDED.(want := Some(1), nodes := map[0 := 1], marks := {0})

  lemma Trims()
    ensures var s := RECORDED.(want := Some(1));
            && RemoveTargets(s) == [] && !KeepsSomeDb(s) && Quiet(s)
            && UninstallTargets(s) == [1, 2] && !KeepsSomeInstalled(s) && TopDown(s) && Uninstalled(s) == TRIMMED
  {
    var s := RECORDED.(want := Some(1));
    assert RemoveNodeFrom(s, 3) == [];
    assert RemoveNodeFrom(s, 2) == [];
    assert RemoveTargets(s) == [];
    assert UninstallFrom(s, 3) == [];
    assert UninstallFrom(s, 2) == [2];
    assert UninstallTargets(s) == [1, 2];
    assert 1 in UninstallTargets(s) && 2 in UninstallTargets(s);
    assert Uninstalled(s).nodes == TRIMMED.nodes && Uninstalled(s).marks == TRIMMED.marks;
  }

  /** A pass with size 1 uninstalls them; then pod 1 stops. */
  lemma ToTrimmed(v: Violation)
    ensures Reached(v, One(TRIMMED.(running := {0, 2}), Stale, 0, {}, false))
  {
    hide Reached, Refreshed, Collected, UninstallTargets, RemoveTargets, KeepsSomeDb, KeepsSomeInstalled, TopDown, Uninstalled, At;
    Records(v);
    PassStarts(v, One(RECORDED, Fresh, 17, {}, false), RECORDED, 1);
    var s := RECORDED.(want := Some(1));
    SeenIs(s, BARE, BARE, BARE);
    assert Seen(RECORDED, 1) == s;
    Trims();
    ToUninstall(v, s);
    var w := One(s, Fresh, 12, {}, true);
    Order(w);
    Then(v, w, DoUninstall(MAIN));
    assert Apply(w, DoUninstall(MAIN)) == One(TRIMMED, Stale, 12, {MAIN}, true);
    Aborts(v, One(TRIMMED, Stale, 12, {MAIN}, true));
    Stops(v, TRIMMED, Stale, 0, 1);
    assert {0, 1, 2} - {1} == {0, 2};
  }

  /** The size is back at 3, and the first status has counted the pod that is down.  It comes up, and an
      upgrade collects facts again. */
  const COUNTED := TRIMMED.(want := Some(3), installCount := 2, facts := [BARE, IDLE, IDLE])

  lemma ToCounted(v: Violation)
    ensures Reached(v, One(COUNTED, Fresh, 2, {}, false))
  {
    hide Reached, Refreshed, Collected, At;
    ToTrimmed(v);
    var s := TRIMMED.(running := {0, 2});
    PassStarts(v, One(s, Stale, 0, {}, false), s, 3);
    SeenIs(s.(want := Some(3)), BARE, DOWN, IDLE);
    var t := Seen(s, 3);
    Starts(v, t, Fresh, 1, {}, 1);
    assert {0, 2} + {1} == {0, 1, 2};
    var u := t.(running := {0, 1, 2});
    Moves(v, u, Fresh, 1, {}, false);
    var w := One(u, Fresh, 2, {}, false);
    Order(w);
    Then(v, w, Invalidate);
    Gathers(v, u, 2, {});
    SeenIs(u, BARE, IDLE, IDLE);
  }

  /** Pod 2 is installed and pod 1 is not. */
  const HOLE := COUNTED.(nodes := map[0 := 1, 2 := 2], marks := {0, 2})

  lemma LeavesHole()
    ensures InstallTargets(COUNTED) == [2] && InstalledInto(COUNTED, 1) == HOLE
  {
    assert InstallFrom(COUNTED, 3) == [];
    assert InstallTargets(COUNTED) == [2];
    assert [2][1..] == [];
    assert Numbered(COUNTED.nodes[2 := 2], [], 2) == COUNTED.nodes[2 := 2];
    assert InstalledInto(COUNTED, 1).marks == HOLE.marks;
  }

  lemma ToHole()
    ensures Reached(EarlyInstall, One(HOLE, Stale, 2, {}, false))
  {
    hide Reached, InstallFrom, InstallTargets, InstalledInto, Numbered, At, CanInstall, InstallAll;
    ToCounted(EarlyInstall);
    var w := One(COUNTED, Fresh, 2, {}, false);
    Order(w);
    LeavesHole();
    MayInstall(COUNTED, 2, 1);
    Then(EarlyInstall, w, DoInstall([MAIN], 1));
    Differs(COUNTED, HOLE, 2);
    assert Apply(w, DoInstall([MAIN], 1)) == One(HOLE, Stale, 2, {}, false);
  }

  /** Pod 1 is down again when the status is written, so that the count reaches pod 2; that one stops. */
  lemma ToForgotten()
    ensures var s := HOLE.(running := {0, 1}, installCount := 3, facts := [BARE, DOWN, BARE]);
            Reached(EarlyInstall, One(s, Fresh, 1, {}, false))
  {
    hide Reached, Refreshed, Collected;
    var v := EarlyInstall;
    ToHole();
    Aborts(v, One(HOLE, Stale, 2, {}, false));
    Stops(v, HOLE, Stale, 0, 1);
    assert {0, 1, 2} - {1} == {0, 2};
    var s := HOLE.(running := {0, 2});
    PassStarts(v, One(s, Stale, 0, {}, false), s, 3);
    SeenIs(s.(want := Some(3)), BARE, DOWN, BARE);
    var t := Seen(s, 3);
    Stops(v, t, Fresh, 1, 2);
    assert {0, 2} - {2} == {0};
    Starts(v, t.(running := {0}), Fresh, 1, {}, 1);
    assert {0} + {1} == {0, 1};
  }

  /** The install of an upgrade starts from a count above the installed pods. */
  lemma EarlyInstallOrphans()
    ensures exists run, events, w :: RunTo(run, events, EarlyInstall, w) && !NoOrphans(w)
  {
    hide Reached, Refreshed, Collected;
    var v := EarlyInstall;
    ToForgotten();
    var s := HOLE.(running := {0, 1}, installCount := 3, facts := [BARE, DOWN, BARE]);
    PassStarts(v, One(s, Fresh, 1, {}, false), s, 3);
    SeenIs(s.(want := Some(3)), BARE, IDLE, DOWN);
    var t := Seen(s, 3);
    PassStarts(v, One(t, Fresh, 1, {}, false), t, 2);
    SeenIs(t.(want := Some(2)), BARE, IDLE, OFF);
    ShrinkPass(v, Seen(t, 2));
    Orphaned(v, Resized(Seen(t, 2), 2), Stale, 14, {MAIN}, true);
  }

  // ---------------------------------------------------------------- an install that fails half-way

  /** All three are in admintools.conf; the last one has no indicator file. */
  const UNMARKED := INSTALLED.(marks := {0, 1})

  lemma ToUnmarked()
    ensures Reached(HalfDone, One(UNMARKED, Stale, 0, {}, false))
  {
    hide Reached, Refreshed, InstallFrom, Numbered, InstallTargets, InstalledInto, At, CanInstall, InstallAll;
    Created(HalfDone);
    ToInstall(HalfDone, UP);
    var w, e := One(UP, Fresh, 15, {}, false), InstallFails([MAIN], 0, map[MAIN := {2}]);
    Order(w);
    InstallsThree();
    MayInstall(UP, 15, 0);
    assert MAIN in e.lost && 2 in e.lost[MAIN] && 2 in InstallTargets(UP);
    Then(HalfDone, w, e);
    assert {0, 1, 2} - {2} == {0, 1};
    assert Apply(w, e).subs == map[MAIN := UNMARKED];
  }

  /** An install fails after admintools.conf has been distributed and before every indicator file has
      been written; the pod without one is taken for not installed. */
  lemma HalfDoneOrphans()
    ensures exists run, events, w :: RunTo(run, events, HalfDone, w) && !NoOrphans(w)
  {
    hide Reached, Refreshed, Collected;
    var v := HalfDone;
    ToUnmarked();
    PassStarts(v, One(UNMARKED, Stale, 0, {}, false), UNMARKED, 2);
    SeenIs(UNMARKED.(want := Some(2)), BARE, BARE, IDLE);
    ShrinkPass(v, Seen(UNMARKED, 2));
    Orphaned(v, Resized(Seen(UNMARKED, 2), 2), Stale, 14, {MAIN}, true);
  }
}
