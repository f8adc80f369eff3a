/** The status message of the online upgrade (postNextStatusMsg): a pass posts exactly the messages
    it precomputed, and the message that is kept in the status never moves backward when a pass
    resumes an upgrade that an earlier one aborted. */
module OnlineUpgradeMessages {
  import opened Text
  import opened Api
  import opened OnlineUpgrade
  import opened OnlineUpgradeSafety

  // ---------------------------------------------------------------- how many messages a pass posts

  function Posts(ops: seq<Op>): nat {
    if ops == [] then 0
    else Posts(ops[..|ops| - 1]) + if ops[|ops| - 1].Post? then 1 else 0
  }

  lemma {:induction false} PostsConcat(a: seq<Op>, b: seq<Op>)
    ensures Posts(a + b) == Posts(a) + Posts(b)
  {
    if b == [] {
      assert a + b == a;
    } else {
      assert (a + b)[..|a + b| - 1] == a + b[..|b| - 1];
      PostsConcat(a, b[..|b| - 1]);
    }
  }

  lemma {:induction false} NoPosts(ops: seq<Op>)
    requires forall op | op in ops :: !op.Post?
    ensures Posts(ops) == 0
  {
    if ops != [] {
      assert forall op | op in ops[..|ops| - 1] :: op in ops;
      NoPosts(ops[..|ops| - 1]);
    }
  }

  lemma OnePost(a: seq<Op>, b: seq<Op>)
    requires forall op | op in a || op in b :: !op.Post?
    ensures Posts(a + [Post] + b) == 1
  {
    NoPosts(a);
    NoPosts(b);
    PostsConcat(a, [Post]);
    PostsConcat(a + [Post], b);
  }

  lemma OneFunction(before: seq<Op>, fn: StsFunc, names: seq<string>)
    ensures Posts(before + [Post] + ForEach(fn, names)) == Posts(before) + 1
  {
    hide Posts;
    var each := ForEach(fn, names);
    OnePost([], each);
    assert [] + [Post] + each == [Post] + each;
    assert before + [Post] + each == before + ([Post] + each);
    PostsConcat(before, [Post] + each);
  }

  lemma {:induction false} PrimaryPosts(fns: seq<StsFunc>, primaries: seq<string>)
    ensures Posts(PrimaryPhase(fns, primaries)) == |fns|
  {
    if fns != [] {
      var n := |fns| - 1;
      PrimaryPosts(fns[..n], primaries);
      OneFunction(PrimaryPhase(fns[..n], primaries), fns[n], primaries);
    }
  }

  lemma OneSecondaryPosts(sc: string)
    ensures Posts(SecondaryOps(sc)) == 3
  {
    hide Posts;
    OnePost([], [Drain(sc)]);
    OnePost([], [Recreate(sc)]);
    OnePost([], [Other, Other, BringOnline(sc)]);
    var a: seq<Op>, b: seq<Op>, c: seq<Op> := [Post, Drain(sc)], [Post, Recreate(sc)], [Post, Other, Other, BringOnline(sc)];
    assert [] + [Post] + [Drain(sc)] == a && [] + [Post] + [Recreate(sc)] == b
        && [] + [Post] + [Other, Other, BringOnline(sc)] == c;
    PostsConcat(a, b);
    PostsConcat(a + b, c);
    assert SecondaryOps(sc) == a + b + c;
  }

  lemma {:induction false} SecondaryPosts(secondaries: seq<string>)
    ensures Posts(SecondaryPhase(secondaries)) == 3 * |secondaries|
  {
    hide SecondaryOps;
    if secondaries != [] {
      var n := |secondaries| - 1;
      SecondaryPosts(secondaries[..n]);
      OneSecondaryPosts(secondaries[n]);
      PostsConcat(SecondaryPhase(secondaries[..n]), SecondaryOps(secondaries[n]));
    }
  }

  lemma EndPosts(upAdd: bool, upCreate: bool, names: seq<string>)
    ensures Posts(SetupPhase(upAdd, upCreate)) == 1 && Posts(CleanupPhase(names)) == 1
  {
    var a: seq<Op> := [Start, Load, Precompute];
    var b: seq<Op> := [AddTransient(upAdd), CreateTransientSts(upCreate), Other, Other, Other, Other, Other];
    OnePost(a, b);
    assert SetupPhase(upAdd, upCreate) == a + [Post] + b;
    var c: seq<Op> := [RemoveTransient, Other, Other, Other] + ReconcileAll(names) + [DeleteGone, ClearStatus, Finish];
    OnePost([], c);
    assert CleanupPhase(names) == [] + [Post] + c;
  }

  /** A complete pass posts as many messages as it precomputed. */
  lemma PlanPosts(st: State, upAdd: bool, upCreate: bool)
    ensures Posts(Plan(st, upAdd, upCreate)) == |Messages(NamesOf(st.stss, false))| == 9 + 3 * |NamesOf(st.stss, false)|
  {
    hide SetupPhase, PrimaryPhase, SecondaryPhase, CleanupPhase, NamesOf, Posts, NonTransient, ScNames;
    var ps, ss, names := NamesOf(st.stss, true), NamesOf(st.stss, false), ScNames(NonTransient(st.subclusters));
    var a, b, c, d := SetupPhase(upAdd, upCreate), PrimaryPhase(PRIMARY_FUNCS, ps), SecondaryPhase(ss), CleanupPhase(names);
    EndPosts(upAdd, upCreate, names);
    PrimaryPosts(PRIMARY_FUNCS, ps);
    SecondaryPosts(ss);
    PostsConcat(a, b);
    PostsConcat(a + b, c);
    PostsConcat(a + b + c, d);
  }

  // ---------------------------------------------------------------- the messages are distinct

  lemma DistinctConcat(a: seq<string>, b: seq<string>)
    requires Distinct(a) && Distinct(b)
    requires forall x | x in a :: x !in b
    ensures Distinct(a + b)
  {
    forall i, j | 0 <= i < j < |a + b|
      ensures (a + b)[i] != (a + b)[j]
    {
      if i < |a| {
        assert a[i] in a;
        if j >= |a| {
          assert b[j - |a|] in b;
        }
      }
    }
  }

  predicate EndsQuoted(m: string) {
    |m| > 3 && m[|m| - 1] == '\''
  }

  /** Wrapping a name in two different ways never gives the same message when the third character
      differs, and wrapping two names in one way gives different messages. */
  lemma Wrapped(p: string, q: string, x: string, y: string)
    requires |p| > 3 && |q| > 3
    requires p[2] != q[2] || (p == q && x != y)
    ensures p + x + "'" != q + y + "'"
    ensures EndsQuoted(p + x + "'")
  {
    var a, b := p + x + "'", q + y + "'";
    assert a[2] == p[2] && b[2] == q[2];
    assert a[|p|..|a| - 1] == x && b[|q|..|b| - 1] == y;
  }

  const DRAINING := "Draining secondary subcluster '"
  const RECREATING := "Recreating pods for secondary subcluster '"
  const RESTARTING := "Restarting vertica in secondary subcluster '"

  lemma MessagesForAre(sc: string)
    ensures MessagesFor(sc) == [DRAINING + sc + "'", RECREATING + sc + "'", RESTARTING + sc + "'"]
  {
  }

  lemma MessagesForDiffer(x: string, y: string)
    ensures Distinct(MessagesFor(x))
    ensures forall m | m in MessagesFor(x) :: EndsQuoted(m) && (x != y ==> m !in MessagesFor(y))
  {
    hide MessagesFor;
    MessagesForAre(x);
    MessagesForAre(y);
    DifferParametric(DRAINING, RECREATING, RESTARTING, x, y);
  }

  lemma DifferParametric(a: string, b: string, c: string, x: string, y: string)
    requires |a| > 3 && |b| > 3 && |c| > 3 && a[2] != b[2] && b[2] != c[2] && a[2] != c[2]
    ensures var xs, ys := [a + x + "'", b + x + "'", c + x + "'"], [a + y + "'", b + y + "'", c + y + "'"];
            Distinct(xs) && forall m | m in xs :: EndsQuoted(m) && (x != y ==> m !in ys)
  {
    forall p, q | p in [a, b, c] && q in [a, b, c] && (p[2] != q[2] || (p == q && x != y))
      ensures p + x + "'" != q + y + "'"
    {
      Wrapped(p, q, x, y);
    }
    Wrapped(a, b, x, x);
    Wrapped(a, c, x, x);
    Wrapped(b, c, x, x);
    Wrapped(c, b, x, x);
    assert forall p | p in [a, b, c] :: x != y ==> p + x + "'" != p + y + "'";
    assert a in [a, b, c] && b in [a, b, c] && c in [a, b, c];
  }

  lemma {:induction false} SecondaryMessagesFrom(secondaries: seq<string>)
    ensures forall m | m in SecondaryMessages(secondaries) ::
              EndsQuoted(m) && exists sc :: sc in secondaries && m in MessagesFor(sc)
  {
    hide MessagesFor, EndsQuoted;
    if secondaries != [] {
      var n := |secondaries| - 1;
      assert secondaries[n] in secondaries && forall sc | sc in secondaries[..n] :: sc in secondaries;
      SecondaryMessagesFrom(secondaries[..n]);
      MessagesForDiffer(secondaries[n], secondaries[n]);
    }
  }

  lemma {:induction false} SecondaryMessagesDistinct(secondaries: seq<string>)
    requires Distinct(secondaries)
    ensures Distinct(SecondaryMessages(secondaries))
  {
    hide MessagesFor, EndsQuoted;
    if secondaries != [] {
      var n := |secondaries| - 1;
      var before := SecondaryMessages(secondaries[..n]);
      SecondaryMessagesDistinct(secondaries[..n]);
      SecondaryMessagesFrom(secondaries[..n]);
      MessagesForDiffer(secondaries[n], secondaries[n]);
      forall m | m in before
        ensures m !in MessagesFor(secondaries[n])
      {
        var sc :| sc in secondaries[..n] && m in MessagesFor(sc);
        MessagesForDiffer(sc, secondaries[n]);
      }
      DistinctConcat(before, MessagesFor(secondaries[n]));
    }
  }

  lemma MessagesDistinct(secondaries: seq<string>)
    requires Distinct(secondaries)
    ensures Distinct(Messages(secondaries)) && "" !in Messages(secondaries)
  {
    hide SecondaryMessages, FIRST_MESSAGES, LAST_MESSAGE, Distinct, EndsQuoted;
    var ms := SecondaryMessages(secondaries);
    SecondaryMessagesDistinct(secondaries);
    SecondaryMessagesFrom(secondaries);
    FixedDistinct();
    DistinctConcat(FIRST_MESSAGES, ms);
    DistinctConcat(FIRST_MESSAGES + ms, [LAST_MESSAGE]);
  }

  lemma FixedDistinct()
    ensures Distinct(FIRST_MESSAGES) && LAST_MESSAGE !in FIRST_MESSAGES && "" !in FIRST_MESSAGES && LAST_MESSAGE != ""
    ensures forall m | m in FIRST_MESSAGES :: !EndsQuoted(m)
    ensures !EndsQuoted(LAST_MESSAGE) && !EndsQuoted("")
  {
  }

  // ---------------------------------------------------------------- the message in the status

  /** Where a status stands in the list of messages; -1 when it is not there. */
  function Index(msgs: seq<string>, status: string): (r: int)
    ensures -1 <= r < |msgs|
    ensures r >= 0 ==> msgs[r] == status
    ensures r == -1 <==> status !in msgs
    ensures forall i | 0 <= i < r :: msgs[i] != status
  {
    if msgs == [] then -1
    else if msgs[0] == status then 0
    else
      var r := Index(msgs[1..], status);
      if r == -1 then -1 else r + 1
  }

  function Max(a: int, b: int): int {
    if a < b then b else a
  }

  /** The status is empty or one of the messages this pass posts. */
  predicate Known(msgs: seq<string>, status: string) {
    status == "" || status in msgs
  }

  lemma PostAdvances(status: string, msgs: seq<string>, m: nat)
    requires m < |msgs| && Distinct(msgs) && "" !in msgs
    requires Known(msgs, status) && (status == "" ==> m == 0)
    ensures PostMessage(status, msgs, m).Some?
    ensures var status' := PostMessage(status, msgs, m).value;
            status' in msgs && Index(msgs, status') == Max(Index(msgs, status), m)
  {
  }

  ghost predicate Quiet(ops: seq<Op>) {
    forall op | op in ops :: !op.Precompute? && !op.ClearStatus?
  }

  lemma QuietStep(cfg: Config, op: Op, st: State, st': State)
    requires Exec(cfg, op, st) == Some(st') && !op.Precompute? && !op.ClearStatus? && !op.Post?
    ensures st'.statusMsgs == st.statusMsgs && st'.msgIndex == st.msgIndex && st'.upgradeStatus == st.upgradeStatus
  {
    hide Lookup, TemporaryRouting, FindSts;
  }

  lemma PostStep(cfg: Config, st: State, st': State)
    requires Exec(cfg, Post, st) == Some(st')
    ensures PostMessage(st.upgradeStatus, st.statusMsgs, st.msgIndex + 1) == Some(st'.upgradeStatus)
    ensures st'.msgIndex == st.msgIndex + 1 && st'.statusMsgs == st.statusMsgs
  {
  }

  lemma PostInBounds(status: string, msgs: seq<string>, m: int)
    requires PostMessage(status, msgs, m).Some?
    ensures m < |msgs|
  {
  }

  lemma NoStep(cfg: Config, st: State, st': State)
    requires ExecAll(cfg, [], st) == Some(st')
    ensures st' == st
  {
  }

  /** After some posts, the index in the status is the larger of where it was and the last index
      posted. */
  lemma {:induction false} PostsAdvance(cfg: Config, ops: seq<Op>, st: State, st': State)
    requires ExecAll(cfg, ops, st) == Some(st') && Quiet(ops)
    requires Distinct(st.statusMsgs) && "" !in st.statusMsgs && Known(st.statusMsgs, st.upgradeStatus)
    requires st.msgIndex == -1
    ensures st'.statusMsgs == st.statusMsgs && st'.msgIndex == Posts(ops) - 1
    ensures Posts(ops) > 0 ==> st'.upgradeStatus in st.statusMsgs
    ensures Posts(ops) == 0 ==> st'.upgradeStatus == st.upgradeStatus
    ensures Index(st.statusMsgs, st'.upgradeStatus) == Max(Index(st.statusMsgs, st.upgradeStatus), Posts(ops) - 1)
  {
    hide Distinct, Index, Exec, ExecAll;
    if ops != [] {
      var n := |ops| - 1;
      var mid := LastStep(cfg, ops, st, st');
      PostsAdvance(cfg, ops[..n], st, mid);
      if ops[n].Post? {
        PostStep(cfg, mid, st');
        PostInBounds(mid.upgradeStatus, mid.statusMsgs, mid.msgIndex + 1);
        PostAdvances(mid.upgradeStatus, mid.statusMsgs, mid.msgIndex + 1);
      } else {
        QuietStep(cfg, ops[n], mid, st');
      }
    } else {
      NoStep(cfg, st, st');
      assert Index(st.statusMsgs, st.upgradeStatus) >= -1;
    }
  }

  /** A status that belongs to no message of this pass stays as it is. */
  lemma {:induction false} ForeignStays(cfg: Config, ops: seq<Op>, st: State, st': State)
    requires ExecAll(cfg, ops, st) == Some(st') && Quiet(ops) && !Known(st.statusMsgs, st.upgradeStatus)
    ensures st'.upgradeStatus == st.upgradeStatus && st'.statusMsgs == st.statusMsgs
  {
    if ops != [] {
      var n := |ops| - 1;
      assert ops[n] in ops && forall op | op in ops[..n] :: op in ops;
      var mid := ExecAll(cfg, ops[..n], st).value;
      ForeignStays(cfg, ops[..n], st, mid);
      if !ops[n].Post? {
        QuietStep(cfg, ops[n], mid, st');
      }
    }
  }

  // ---------------------------------------------------------------- whole passes

  /** The plan after its first three steps and before its last two. */
  function Middle(st: State, upAdd: bool, upCreate: bool): seq<Op>
    requires |Plan(st, upAdd, upCreate)| >= 5
  {
    var plan := Plan(st, upAdd, upCreate);
    plan[3..|plan| - 2]
  }

  lemma PlanParts(st: State, upAdd: bool, upCreate: bool)
    ensures |Plan(st, upAdd, upCreate)| >= 5
    ensures Plan(st, upAdd, upCreate) == [Start, Load, Precompute] + Middle(st, upAdd, upCreate) + [ClearStatus, Finish]
    ensures Quiet(Middle(st, upAdd, upCreate))
  {
    hide PrimaryPhase, SecondaryPhase, NamesOf, NonTransient, ReconcileAll;
    var plan := Plan(st, upAdd, upCreate);
    var ps, ss := NamesOf(st.stss, true), NamesOf(st.stss, false);
    var names := ScNames(NonTransient(st.subclusters));
    var before := SetupPhase(upAdd, upCreate)[3..] + PrimaryPhase(PRIMARY_FUNCS, ps) + SecondaryPhase(ss);
    var last := [Post, RemoveTransient, Other, Other, Other] + ReconcileAll(names) + [DeleteGone];
    assert plan == [Start, Load, Precompute] + (before + last) + [ClearStatus, Finish];
    assert Middle(st, upAdd, upCreate) == before + last;
    PrimaryPhaseOps(PRIMARY_FUNCS, ps);
    SecondaryPhaseOps(ss);
  }

  lemma AfterPrecompute(cfg: Config, st: State)
    ensures ExecAll(cfg, [Start, Load, Precompute], st).Some?
    ensures var mid := ExecAll(cfg, [Start, Load, Precompute], st).value;
            && mid.statusMsgs == Messages(NamesOf(st.stss, false)) && mid.msgIndex == -1
            && mid.upgradeStatus == st.upgradeStatus
  {
    hide Messages, NamesOf, FindTransient, PrimaryImages;
    var ops: seq<Op> := [Start, Load, Precompute];
    ExecTwo(cfg, Start, Load, st);
    assert ops[..2] == [Start, Load];
  }

  lemma PrefixParts(st: State, upAdd: bool, upCreate: bool, k: nat)
    requires 3 <= k < |Plan(st, upAdd, upCreate)| - 1
    ensures Plan(st, upAdd, upCreate)[..k] == [Start, Load, Precompute] + Middle(st, upAdd, upCreate)[..k - 3]
    ensures Quiet(Middle(st, upAdd, upCreate)[..k - 3])
    ensures Posts(Plan(st, upAdd, upCreate)[..k]) == Posts(Middle(st, upAdd, upCreate)[..k - 3])
  {
    hide Plan, Posts;
    PlanParts(st, upAdd, upCreate);
    var first: seq<Op>, rest := [Start, Load, Precompute], Middle(st, upAdd, upCreate)[..k - 3];
    assert Plan(st, upAdd, upCreate)[..k] == first + rest;
    assert forall op | op in rest :: op in Middle(st, upAdd, upCreate);
    NoPosts(first);
    PostsConcat(first, rest);
  }

  /** Where a pass stands after k steps, once it has its messages and before it finishes: it has
      posted as many as its index says, and the index kept in the status is the larger of the one
      it found and the last one posted.  This holds exactly for a status that is empty or among the
      messages; any other one is left alone. */
  lemma PassPosts(cfg: Config, st: State, upAdd: bool, upCreate: bool, k: nat, st': State)
    requires 3 <= k < |Plan(st, upAdd, upCreate)| - 1 && Distinct(NamesOf(st.stss, false))
    requires ExecAll(cfg, Plan(st, upAdd, upCreate)[..k], FreshPass(st)) == Some(st')
    ensures var msgs, c := Messages(NamesOf(st.stss, false)), Posts(Plan(st, upAdd, upCreate)[..k]);
            if Known(msgs, st.upgradeStatus) then
              && st'.statusMsgs == msgs && st'.msgIndex == c - 1
              && Known(msgs, st'.upgradeStatus)
              && Index(msgs, st'.upgradeStatus) == Max(Index(msgs, st.upgradeStatus), c - 1)
            else
              st'.upgradeStatus == st.upgradeStatus
  {
    hide Plan, Messages, Distinct, NamesOf, Posts, Exec, Quiet, Index;
    PrefixParts(st, upAdd, upCreate, k);
    var first: seq<Op>, rest := [Start, Load, Precompute], Middle(st, upAdd, upCreate)[..k - 3];
    ExecConcat(cfg, first, rest, FreshPass(st));
    AfterPrecompute(cfg, FreshPass(st));
    MessagesDistinct(NamesOf(st.stss, false));
    var mid := ExecAll(cfg, first, FreshPass(st)).value;
    if Known(mid.statusMsgs, st.upgradeStatus) {
      PostsAdvance(cfg, rest, mid, st');
    } else {
      ForeignStays(cfg, rest, mid, st');
    }
  }

  lemma {:induction false} IndexMoves(cfg: Config, ops: seq<Op>, st: State, st': State)
    requires ExecAll(cfg, ops, st) == Some(st') && Quiet(ops)
    ensures st'.statusMsgs == st.statusMsgs && st'.msgIndex == st.msgIndex + Posts(ops)
  {
    if ops != [] {
      var n := |ops| - 1;
      assert ops[n] in ops && forall op | op in ops[..n] :: op in ops;
      var mid := ExecAll(cfg, ops[..n], st).value;
      IndexMoves(cfg, ops[..n], st, mid);
      if !ops[n].Post? {
        QuietStep(cfg, ops[n], mid, st');
      }
    }
  }

  /** Posting never runs out of messages, whatever status an earlier pass left. */
  lemma PostNeverOutOfBounds(cfg: Config, st: State, upAdd: bool, upCreate: bool, k: nat, st': State)
    requires k < |Plan(st, upAdd, upCreate)| && Plan(st, upAdd, upCreate)[k] == Post
    requires ExecAll(cfg, Plan(st, upAdd, upCreate)[..k], FreshPass(st)) == Some(st')
    ensures 0 <= st'.msgIndex + 1 < |st'.statusMsgs|
    ensures Exec(cfg, Post, st').Some?
  {
    hide Plan, Messages, NamesOf, Posts, Quiet, ExecAll;
    var plan := Plan(st, upAdd, upCreate);
    PlanParts(st, upAdd, upCreate);
    assert k >= 3;
    PrefixParts(st, upAdd, upCreate, k);
    var first: seq<Op>, rest := [Start, Load, Precompute], Middle(st, upAdd, upCreate)[..k - 3];
    ExecConcat(cfg, first, rest, FreshPass(st));
    AfterPrecompute(cfg, FreshPass(st));
    var mid := ExecAll(cfg, first, FreshPass(st)).value;
    IndexMoves(cfg, rest, mid, st');
    PlanPosts(st, upAdd, upCreate);
    MorePosts(plan, k);
  }

  lemma MorePosts(ops: seq<Op>, k: nat)
    requires k < |ops| && ops[k] == Post
    ensures Posts(ops[..k]) < Posts(ops)
  {
    assert ops == ops[..k] + ops[k..];
    PostsConcat(ops[..k], ops[k..]);
    assert ops[k..] == [Post] + ops[k + 1..];
    PostsConcat([Post], ops[k + 1..]);
    assert Posts([Post]) == 1;
  }

  // ---------------------------------------------------------------- resumed passes

  // What the next listing shows.  Names are never lost; only the clean-up adds some.

  lemma {:induction false} InsertedDistinct(stss: seq<Sts>, s: Sts)
    requires Listed(stss)
    requires forall x | x in stss :: x.name != s.name
    ensures Listed(Inserted(stss, s))
  {
    if stss != [] && !LexLess(s.name, stss[0].name) {
      InsertedDistinct(stss[1..], s);
      var rest := Inserted(stss[1..], s);
      forall x | x in rest
        ensures x.name != stss[0].name
      {
        if x in stss[1..] {
          var i :| 0 <= i < |stss[1..]| && stss[1..][i] == x;
          assert x == stss[i + 1];
        }
      }
      forall i, j | 0 <= i < j < |rest| + 1
        ensures ([stss[0]] + rest)[i].name != ([stss[0]] + rest)[j].name
      {
        if i == 0 {
          assert rest[j - 1] in rest;
        } else {
          assert rest[i - 1].name != rest[j - 1].name;
        }
      }
    }
  }

  lemma {:induction false} KeptListed(stss: seq<Sts>, names: seq<string>)
    requires Listed(stss)
    ensures Listed(Kept(stss, names))
  {
    if stss != [] {
      KeptListed(stss[1..], names);
      var rest := Kept(stss[1..], names);
      forall j | 0 <= j < |rest|
        ensures rest[j].name != stss[0].name
      {
        assert rest[j] in rest;
        var k :| 0 <= k < |stss[1..]| && stss[1..][k] == rest[j];
        assert stss[k + 1] == rest[j];
      }
    }
  }

  lemma {:induction false} ListedNames(stss: seq<Sts>, primary: bool)
    requires Listed(stss)
    ensures Distinct(NamesOf(stss, primary))
  {
    if stss != [] {
      ListedNames(stss[1..], primary);
      var rest := NamesOf(stss[1..], primary);
      forall j | 0 <= j < |rest|
        ensures rest[j] != stss[0].name
      {
        assert rest[j] in rest;
        var s :| s in stss[1..] && s.name == rest[j];
        var k :| 0 <= k < |stss[1..]| && stss[1..][k] == s;
        assert stss[k + 1] == s;
      }
    }
  }

  lemma {:induction false} NamesInserted(stss: seq<Sts>, s: Sts, primary: bool)
    ensures |NamesOf(Inserted(stss, s), primary)| >= |NamesOf(stss, primary)|
    ensures s.isTransient ==> NamesOf(Inserted(stss, s), primary) == NamesOf(stss, primary)
  {
    if stss != [] {
      var r := Inserted(stss, s);
      if LexLess(s.name, stss[0].name) {
        assert r[1..] == stss;
      } else {
        assert r[1..] == Inserted(stss[1..], s);
        NamesInserted(stss[1..], s, primary);
      }
    }
  }

  lemma {:induction false} NamesWithImage(stss: seq<Sts>, name: string, image: string, primary: bool)
    ensures NamesOf(WithImage(stss, name, image), primary) == NamesOf(stss, primary)
  {
    if stss != [] {
      assert WithImage(stss, name, image)[1..] == WithImage(stss[1..], name, image);
      NamesWithImage(stss[1..], name, image, primary);
    }
  }

  lemma {:induction false} NamesOfKept(stss: seq<Sts>, names: seq<string>, primary: bool)
    requires forall s | s in stss && !s.isTransient :: s.name in names
    ensures NamesOf(Kept(stss, names), primary) == NamesOf(stss, primary)
  {
    if stss != [] {
      NamesOfKept(stss[1..], names, primary);
      var rest := Kept(stss[1..], names);
      if stss[0].name in names {
        assert ([stss[0]] + rest)[1..] == rest;
      }
    }
  }

  /** Listing the statefulsets again gives the same names, until the clean-up creates a missing one. */
  lemma NamesStep(cfg: Config, oldImage: string, orig: seq<Subcluster>, op: Op, st: State, st': State, primary: bool)
    requires Given(cfg, oldImage, orig) && Shape(cfg, oldImage, orig, st)
    requires OpOk(orig, op) && Exec(cfg, op, st) == Some(st') && Listed(st.stss)
    ensures Listed(st'.stss) && |NamesOf(st'.stss, primary)| >= |NamesOf(st.stss, primary)|
    ensures !op.ReconcileSts? ==> NamesOf(st'.stss, primary) == NamesOf(st.stss, primary)
  {
    hide NamesOf, TemporaryRouting, PostMessage, Messages, ExecCreateTransientSts, ExecReconcileSts, LexLess, Inserted;
    match op {
      case CreateTransientSts(up) =>
        NamesAfterTransient(cfg, oldImage, orig, st, st', up, primary);
      case Recreate(sc) =>
        NamesWithImage(st.stss, sc, cfg.image, primary);
      case ReconcileSts(sc) =>
        NamesAfterCreation(cfg, st, sc, primary);
      case DeleteGone =>
        NamesAfterDeletion(cfg, oldImage, orig, st, primary);
      case _ =>
    }
  }

  lemma NamesAfterTransient(cfg: Config, oldImage: string, orig: seq<Subcluster>, st: State, st': State,
          up: bool, primary: bool)
    requires Shape(cfg, oldImage, orig, st) && ExecCreateTransientSts(cfg, st, up) == Some(st') && Listed(st.stss)
    ensures Listed(st'.stss) && NamesOf(st'.stss, primary) == NamesOf(st.stss, primary)
  {
    hide NamesOf, Inserted;
    if st'.stss != st.stss {
      var s := NewSts(cfg, st.transientSc.value);
      NamesInserted(st.stss, s, primary);
      InsertedDistinct(st.stss, s);
    }
  }

  lemma NamesAfterCreation(cfg: Config, st: State, sc: string, primary: bool)
    requires Listed(st.stss)
    ensures var st' := ExecReconcileSts(cfg, st, sc);
            Listed(st'.stss) && |NamesOf(st'.stss, primary)| >= |NamesOf(st.stss, primary)|
  {
    hide NamesOf, Inserted;
    var found := Lookup(st.subclusters, sc);
    if found.Some? && FindSts(st.stss, sc).None? {
      NamesInserted(st.stss, NewSts(cfg, found.value), primary);
      InsertedDistinct(st.stss, NewSts(cfg, found.value));
    }
  }

  lemma NamesAfterDeletion(cfg: Config, oldImage: string, orig: seq<Subcluster>, st: State, primary: bool)
    requires Given(cfg, oldImage, orig) && Shape(cfg, oldImage, orig, st) && Listed(st.stss)
    ensures var kept := Kept(st.stss, ScNames(st.subclusters));
            Listed(kept) && NamesOf(kept, primary) == NamesOf(st.stss, primary)
  {
    hide NamesOf, Kept;
    forall s | s in st.stss && !s.isTransient
      ensures s.name in ScNames(st.subclusters)
    {
      KeptUser(cfg, oldImage, orig, st, s);
    }
    NamesOfKept(st.stss, ScNames(st.subclusters), primary);
    KeptListed(st.stss, ScNames(st.subclusters));
  }

  lemma {:induction false} NamesKept(cfg: Config, oldImage: string, orig: seq<Subcluster>, ops: seq<Op>,
          st: State, st': State, primary: bool)
    requires Given(cfg, oldImage, orig) && Shape(cfg, oldImage, orig, st)
    requires OpsOk(orig, ops) && ExecAll(cfg, ops, st) == Some(st') && Listed(st.stss)
    ensures Listed(st'.stss) && |NamesOf(st'.stss, primary)| >= |NamesOf(st.stss, primary)|
    ensures !Cleaning(ops) ==> NamesOf(st'.stss, primary) == NamesOf(st.stss, primary)
  {
    hide Shape, Given, Exec, NamesOf, Listed, ExecAll;
    if ops != [] {
      var n := |ops| - 1;
      var mid := LastStep(cfg, ops, st, st');
      ShapeKept(cfg, oldImage, orig, ops[..n], st, mid);
      NamesKept(cfg, oldImage, orig, ops[..n], st, mid, primary);
      NamesStep(cfg, oldImage, orig, ops[n], mid, st', primary);
    } else {
      NoStep(cfg, st, st');
    }
  }

  /** No message is posted once the clean-up has begun to create statefulsets. */
  lemma PostsBeforeCreation(st: State, upAdd: bool, upCreate: bool, k: nat)
    requires k <= |Plan(st, upAdd, upCreate)| && Cleaning(Plan(st, upAdd, upCreate)[..k])
    ensures Posts(Plan(st, upAdd, upCreate)[..k]) == Posts(Plan(st, upAdd, upCreate))
  {
    hide PrimaryPhase, SecondaryPhase, SetupPhase, NamesOf, NonTransient, ReconcileAll, Posts;
    var plan := Plan(st, upAdd, upCreate);
    var ps, ss, names := NamesOf(st.stss, true), NamesOf(st.stss, false), ScNames(NonTransient(st.subclusters));
    var before := SetupPhase(upAdd, upCreate) + PrimaryPhase(PRIMARY_FUNCS, ps) + SecondaryPhase(ss)
                  + [Post, RemoveTransient, Other, Other, Other];
    var rest := ReconcileAll(names) + [DeleteGone, ClearStatus, Finish];
    assert plan == before + rest;
    SetupOps(upAdd, upCreate);
    PrimaryPhaseOps(PRIMARY_FUNCS, ps);
    SecondaryPhaseOps(ss);
    assert k > |before| by {
      if k <= |before| {
        InsideFront(plan, before, k);
        assert false;
      }
    }
    assert plan[..k] == before + rest[..k - |before|];
    assert forall op | op in rest[..k - |before|] :: op in rest;
    NoPosts(rest);
    NoPosts(rest[..k - |before|]);
    PostsConcat(before, rest);
    PostsConcat(before, rest[..k - |before|]);
  }

  lemma BeforeMessages(cfg: Config, st: State, k: nat, st': State)
    requires k < 3 && ExecAll(cfg, [Start, Load, Precompute][..k], st) == Some(st')
    ensures st'.upgradeStatus == st.upgradeStatus
  {
    hide Messages, NamesOf, FindTransient, PrimaryImages;
    var ops: seq<Op> := [Start, Load, Precompute];
    if k == 0 {
      assert ops[..0] == [];
    } else if k == 1 {
      assert ops[..1] == [Start] && [Start][..0] == [];
      assert ExecAll(cfg, [Start], st) == Exec(cfg, Start, st);
    } else {
      assert ops[..2] == [Start, Load];
      ExecTwo(cfg, Start, Load, st);
    }
  }

  /** The messages of the secondaries, and where the upgrade stands among them. */
  ghost function Stage(st: State): int {
    Index(Messages(NamesOf(st.stss, false)), st.upgradeStatus)
  }

  ghost predicate Tracked(st: State) {
    Listed(st.stss) && Known(Messages(NamesOf(st.stss, false)), st.upgradeStatus)
  }

  lemma LastIndex(names: seq<string>)
    requires Distinct(names)
    ensures LAST_MESSAGE in Messages(names) && Index(Messages(names), LAST_MESSAGE) == |Messages(names)| - 1
  {
    hide SecondaryMessages, FIRST_MESSAGES, LAST_MESSAGE;
    MessagesDistinct(names);
    var msgs := Messages(names);
    assert msgs[|msgs| - 1] == LAST_MESSAGE;
  }

  /** A pass that does not clear the status at its end never moves it backward.  When it has created
      the statefulset of a new secondary, and so lengthened the list, the status is the last message. */
  lemma PassMovesForward(cfg: Config, oldImage: string, orig: seq<Subcluster>, st: State, upAdd: bool,
          upCreate: bool, k: nat, st': State)
    requires Given(cfg, oldImage, orig) && BetweenPasses(cfg, oldImage, orig, st) && Tracked(st)
    requires PassEnds(cfg, st, upAdd, upCreate, k, st')
    ensures Tracked(st')
    ensures NamesOf(st'.stss, false) == NamesOf(st.stss, false) || st'.upgradeStatus == "" || st'.upgradeStatus == LAST_MESSAGE
    ensures st'.upgradeStatus != "" ==> Stage(st) <= Stage(st')
  {
    hide Shape, Given, Exec, ExecAll, NamesOf, Plan, SecondariesWait, UpgradeNeeded, Owned, Distinct, Messages, Index,
         LAST_MESSAGE, Listed, Cleaning;
    if UpgradeNeeded(cfg, st) {
      var plan, st0 := Plan(st, upAdd, upCreate), FreshPass(st);
      var names, names' := NamesOf(st.stss, false), NamesOf(st'.stss, false);
      SamePlan(st, upAdd, upCreate);
      PlanOps(cfg, oldImage, orig, st0, upAdd, upCreate);
      assert forall op | op in plan[..k] :: op in plan;
      NamesKept(cfg, oldImage, orig, plan[..k], st0, st', false);
      ListedNames(st.stss, false);
      ListedNames(st'.stss, false);
      StatusAfter(cfg, st, upAdd, upCreate, k, st');
      if Cleaning(plan[..k]) && st'.upgradeStatus != "" {
        PostsBeforeCreation(st, upAdd, upCreate, k);
        AllPosted(cfg, st, upAdd, upCreate, k, st');
        LastIndex(names');
        assert Index(Messages(names), st.upgradeStatus) < |Messages(names)|;
      }
    }
  }

  /** After the last post the status is the last message, until it is cleared. */
  lemma AllPosted(cfg: Config, st: State, upAdd: bool, upCreate: bool, k: nat, st': State)
    requires k <= |Plan(st, upAdd, upCreate)| && Distinct(NamesOf(st.stss, false))
    requires Known(Messages(NamesOf(st.stss, false)), st.upgradeStatus) && st'.upgradeStatus != ""
    requires ExecAll(cfg, Plan(st, upAdd, upCreate)[..k], FreshPass(st)) == Some(st')
    requires Posts(Plan(st, upAdd, upCreate)[..k]) == Posts(Plan(st, upAdd, upCreate))
    ensures st'.upgradeStatus == LAST_MESSAGE
  {
    hide Plan, ExecAll, Distinct, Messages, NamesOf, Index, LAST_MESSAGE, Posts;
    var plan, msgs := Plan(st, upAdd, upCreate), Messages(NamesOf(st.stss, false));
    PlanPosts(st, upAdd, upCreate);
    PlanParts(st, upAdd, upCreate);
    LastIndex(NamesOf(st.stss, false));
    if k < 3 {
      assert plan[..k] == [Start, Load, Precompute][..k];
      NoPosts(plan[..k]);
      assert false;
    } else if k < |plan| - 1 {
      PassPosts(cfg, st, upAdd, upCreate, k, st');
      assert Index(msgs, st'.upgradeStatus) == |msgs| - 1;
    } else {
      assert plan[..k] == plan[..|plan| - 2] + [ClearStatus, Finish][..k - (|plan| - 2)];
      FinishedPass(cfg, plan[..|plan| - 2], k - (|plan| - 2), FreshPass(st), st');
    }
  }

  /** The status after k steps of a pass that found a status it knows. */
  lemma StatusAfter(cfg: Config, st: State, upAdd: bool, upCreate: bool, k: nat, st': State)
    requires k <= |Plan(st, upAdd, upCreate)| && Distinct(NamesOf(st.stss, false))
    requires Known(Messages(NamesOf(st.stss, false)), st.upgradeStatus)
    requires ExecAll(cfg, Plan(st, upAdd, upCreate)[..k], FreshPass(st)) == Some(st')
    ensures var msgs := Messages(NamesOf(st.stss, false));
            && Known(msgs, st'.upgradeStatus)
            && (st'.upgradeStatus != "" ==> Index(msgs, st.upgradeStatus) <= Index(msgs, st'.upgradeStatus))
  {
    hide Plan, ExecAll, Distinct, Messages, NamesOf, Index;
    var plan, st0 := Plan(st, upAdd, upCreate), FreshPass(st);
    PlanParts(st, upAdd, upCreate);
    if k < 3 {
      assert plan[..k] == [Start, Load, Precompute][..k];
      BeforeMessages(cfg, st0, k, st');
    } else if k < |plan| - 1 {
      PassPosts(cfg, st, upAdd, upCreate, k, st');
    } else {
      assert plan[..k] == plan[..|plan| - 2] + [ClearStatus, Finish][..k - (|plan| - 2)];
      FinishedPass(cfg, plan[..|plan| - 2], k - (|plan| - 2), st0, st');
    }
  }

  lemma FinishedPass(cfg: Config, before: seq<Op>, n: nat, st: State, st': State)
    requires 1 <= n <= 2 && ExecAll(cfg, before + [ClearStatus, Finish][..n], st) == Some(st')
    ensures st'.upgradeStatus == ""
  {
    var last: seq<Op> := [ClearStatus, Finish];
    ExecConcat(cfg, before, last[..n], st);
    var mid := ExecAll(cfg, before, st).value;
    if n == 2 {
      assert last[..n] == last;
      ExecTwo(cfg, ClearStatus, Finish, mid);
    } else {
      assert last[..n] == [ClearStatus] && [ClearStatus][..0] == [];
      assert ExecAll(cfg, [ClearStatus], mid) == Exec(cfg, ClearStatus, mid);
    }
  }

  lemma {:induction false} RunTracked(cfg: Config, oldImage: string, orig: seq<Subcluster>, run: seq<State>, i: nat)
    requires IsRun(cfg, oldImage, orig, run) && i < |run|
    ensures Tracked(run[i])
  {
    hide BetweenPasses, PassEnds, NamesOf, Messages, Given;
    if i > 0 {
      RunTracked(cfg, oldImage, orig, run, i - 1);
      UpgradeInvariant(cfg, oldImage, orig, run, i - 1);
      assert Follows(cfg, run[i - 1], run[i - 1 + 1]);
      var upAdd, upCreate, k :| PassEnds(cfg, run[i - 1], upAdd, upCreate, k, run[i]);
      PassMovesForward(cfg, oldImage, orig, run[i - 1], upAdd, upCreate, k, run[i]);
    }
  }

  /** Across aborted and resumed passes the status stays where it is or moves to a later message,
      until finishUpgrade clears it. */
  lemma {:induction false} StatusNeverMovesBack(cfg: Config, oldImage: string, orig: seq<Subcluster>,
          run: seq<State>, i: nat, j: nat)
    requires IsRun(cfg, oldImage, orig, run) && i <= j < |run|
    requires forall m | i < m <= j :: run[m].upgradeStatus != ""
    ensures Stage(run[i]) <= Stage(run[j])
    decreases j
  {
    hide BetweenPasses, PassEnds, NamesOf, Tracked, Stage, Given;
    if i < j {
      StatusNeverMovesBack(cfg, oldImage, orig, run, i, j - 1);
      RunTracked(cfg, oldImage, orig, run, j - 1);
      UpgradeInvariant(cfg, oldImage, orig, run, j - 1);
      assert Follows(cfg, run[j - 1], run[j - 1 + 1]);
      var upAdd, upCreate, k :| PassEnds(cfg, run[j - 1], upAdd, upCreate, k, run[j]);
      PassMovesForward(cfg, oldImage, orig, run[j - 1], upAdd, upCreate, k, run[j]);
    }
  }
}
