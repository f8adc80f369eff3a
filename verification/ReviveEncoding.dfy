/** The encoder of the revive order, and the round trip through the decoder of Revive. */
module ReviveEncoding {
  import opened Text
  import opened Revive

  // ---------------------------------------------------------------- what an encoding is

  predicate NameChar(c: char) {
    'a' <= c <= 'z' || '0' <= c <= '9'
  }

  /** A subcluster name must be usable in the name of a statefulset. */
  predicate ValidName(s: string) {
    && 1 <= |s| <= 63
    && NameChar(s[0]) && NameChar(s[|s| - 1])
    && forall i | 0 <= i < |s| :: NameChar(s[i]) || s[i] == '-'
  }

  predicate Spelled(s: string, a: char, mid: string, b: char) {
    && s == [a] + mid + [b] && |mid| <= 61
    && ('a' <= a <= 'z' || '0' <= a <= '9') && ('a' <= b <= 'z' || '0' <= b <= '9')
    && forall i | 0 <= i < |mid| :: 'a' <= mid[i] <= 'z' || '0' <= mid[i] <= '9' || mid[i] == '-'
  }

  lemma SpelledIsValid(s: string, a: char, mid: string, b: char)
    requires Spelled(s, a, mid, b)
    ensures ValidName(s)
  {
    assert forall i | 0 < i < |s| - 1 :: s[i] == mid[i - 1];
  }

  /** The same as the regular expression: a letter or digit, alone or followed by up to 61 letters,
      digits and dashes and a letter or digit again. */
  lemma ValidNameExact(s: string)
    ensures ValidName(s) <==>
              || (exists a :: s == [a] && ('a' <= a <= 'z' || '0' <= a <= '9'))
              || (exists a, mid, b :: Spelled(s, a, mid, b))
  {
    var n := |s|;
    if ValidName(s) && n == 1 {
      assert s == [s[0]];
    } else if ValidName(s) {
      var mid := s[1..n - 1];
      assert Spelled(s, s[0], mid, s[n - 1]);
    }
    forall a, mid, b | Spelled(s, a, mid, b)
      ensures ValidName(s)
    {
      SpelledIsValid(s, a, mid, b);
    }
  }

  function Position(scs: seq<Subcluster>, name: string): (r: int)
    ensures -1 <= r < |scs|
    ensures r >= 0 ==> scs[r].name == name
    ensures r == -1 ==> forall c | 0 <= c < |scs| :: scs[c].name != name
  {
    if scs == [] then -1
    else
      var n := |scs| - 1;
      var r := Position(scs[..n], name);
      if r >= 0 then r else if scs[n].name == name then n else -1
  }

  /** The subcluster of each row. */
  function Indexes(scs: seq<Subcluster>, rows: seq<Row>): (r: seq<int>)
    ensures |r| == |rows| && forall k | 0 <= k < |rows| :: r[k] == Position(scs, rows[k].name)
  {
    seq(|rows|, k requires 0 <= k < |rows| => Position(scs, rows[k].name))
  }

  function Repeat(x: int, n: int): seq<int> {
    if n <= 0 then [] else Repeat(x, n - 1) + [x]
  }

  function Expand(order: seq<PodCount>): seq<int> {
    if order == [] then []
    else Expand(order[..|order| - 1]) + Repeat(order[|order| - 1].index, order[|order| - 1].count)
  }

  function Occurrences(xs: seq<int>, x: int): nat {
    if xs == [] then 0 else Occurrences(xs[..|xs| - 1], x) + if xs[|xs| - 1] == x then 1 else 0
  }

  function RowsOf(rows: seq<Row>, name: string): nat {
    if rows == [] then 0 else RowsOf(rows[..|rows| - 1], name) + if rows[|rows| - 1].name == name then 1 else 0
  }

  ghost predicate DistinctNames(scs: seq<Subcluster>) {
    forall i, j | 0 <= i < j < |scs| :: scs[i].name != scs[j].name
  }

  ghost predicate AllNamed(scs: seq<Subcluster>, rows: seq<Row>) {
    forall k | 0 <= k < |rows| :: Position(scs, rows[k].name) >= 0
  }

  ghost predicate Sized(scs: seq<Subcluster>, rows: seq<Row>) {
    forall c | 0 <= c < |scs| :: scs[c].size == Occurrences(Indexes(scs, rows), c)
  }

  /** Entries of the order are in range and positive, and no two neighbours name one subcluster. */
  ghost predicate RunLengths(scs: seq<Subcluster>, order: seq<PodCount>) {
    && (forall i | 0 <= i < |order| :: 0 <= order[i].index < |scs| && order[i].count > 0)
    && (forall i | 0 < i < |order| :: order[i - 1].index != order[i].index)
  }

  /** The subcluster is primary or secondary as the first row with its name is. */
  ghost predicate FlaggedBy(rows: seq<Row>, sc: Subcluster) {
    exists k :: 0 <= k < |rows| && rows[k].name == sc.name && rows[k].isPrimary == sc.isPrimary
                && forall j | 0 <= j < k :: rows[j].name != sc.name
  }

  ghost predicate Flagged(scs: seq<Subcluster>, rows: seq<Row>) {
    forall c | 0 <= c < |scs| :: FlaggedBy(rows, scs[c])
  }

  /** One subcluster per name, as large as it has rows, primary when its first row is, and an order that
      spells out the rows. */
  ghost predicate Encodes(rows: seq<Row>, scs: seq<Subcluster>, order: seq<PodCount>) {
    && DistinctNames(scs) && AllNamed(scs, rows) && Sized(scs, rows) && Flagged(scs, rows) && RunLengths(scs, order)
    && Expand(order) == Indexes(scs, rows)
  }

  // ---------------------------------------------------------------- adding one row

  lemma OccurrencesAppend(xs: seq<int>, y: int, x: int)
    ensures Occurrences(xs + [y], x) == Occurrences(xs, x) + if y == x then 1 else 0
  {
  }

  lemma {:induction false} SameNames(scs: seq<Subcluster>, scs': seq<Subcluster>, name: string)
    requires |scs| == |scs'| && forall c | 0 <= c < |scs| :: scs[c].name == scs'[c].name
    ensures Position(scs, name) == Position(scs', name)
  {
    if scs != [] {
      SameNames(scs[..|scs| - 1], scs'[..|scs'| - 1], name);
    }
  }

  lemma PositionAppend(scs: seq<Subcluster>, sc: Subcluster, name: string)
    ensures Position(scs + [sc], name)
         == if Position(scs, name) >= 0 then Position(scs, name) else if sc.name == name then |scs| else -1
  {
  }

  /** The subclusters once the row has one. */
  function WithName(scs: seq<Subcluster>, row: Row): seq<Subcluster> {
    if Position(scs, row.name) >= 0 then scs else scs + [Subcluster(row.name, 0, row.isPrimary)]
  }

  function WithRow(scs: seq<Subcluster>, row: Row): (r: seq<Subcluster>)
    ensures |r| == |WithName(scs, row)|
  {
    var all := WithName(scs, row);
    var c := Position(all, row.name);
    if c >= 0 then all[c := all[c].(size := all[c].size + 1)] else all
  }

  function Appended(order: seq<PodCount>, c: int): seq<PodCount> {
    var n := |order|;
    if n == 0 || order[n - 1].index != c then order + [PodCount(c, 1)]
    else order[n - 1 := order[n - 1].(count := order[n - 1].count + 1)]
  }

  lemma ExpandAppended(order: seq<PodCount>, c: int)
    requires order != [] ==> order[|order| - 1].count > 0
    ensures Expand(Appended(order, c)) == Expand(order) + [c]
  {
    hide Expand, Repeat;
    var n := |order|;
    if n == 0 || order[n - 1].index != c {
      ExpandStep(order, PodCount(c, 1));
      RepeatMore(c, 0);
      assert Repeat(c, 1) == [c];
    } else {
      var before, last := order[..n - 1], order[n - 1];
      assert order == before + [last] && Appended(order, c) == before + [last.(count := last.count + 1)];
      ExpandStep(before, last);
      ExpandStep(before, last.(count := last.count + 1));
      RepeatMore(c, last.count);
    }
  }

  lemma ExpandStep(order: seq<PodCount>, e: PodCount)
    ensures Expand(order + [e]) == Expand(order) + Repeat(e.index, e.count)
  {
  }

  lemma RepeatMore(x: int, n: nat)
    ensures Repeat(x, n + 1) == Repeat(x, n) + [x] && Repeat(x, 0) == []
  {
  }

  lemma PositionWithRow(scs: seq<Subcluster>, row: Row, name: string)
    ensures Position(WithRow(scs, row), name) == Position(WithName(scs, row), name)
         == if Position(scs, name) < 0 && name == row.name then |scs| else Position(scs, name)
  {
    hide Position;
    PositionAppend(scs, Subcluster(row.name, 0, row.isPrimary), name);
    SameNames(WithName(scs, row), WithRow(scs, row), name);
  }

  lemma WithNameIndexes(scs: seq<Subcluster>, rows: seq<Row>, row: Row)
    requires AllNamed(scs, rows)
    ensures Indexes(WithRow(scs, row), rows) == Indexes(scs, rows)
    ensures Position(WithRow(scs, row), row.name) == Position(WithName(scs, row), row.name)
         == if Position(scs, row.name) >= 0 then Position(scs, row.name) else |scs|
  {
    hide Position, WithRow, WithName;
    forall k | 0 <= k < |rows|
      ensures Position(WithRow(scs, row), rows[k].name) == Position(scs, rows[k].name)
    {
      PositionWithRow(scs, row, rows[k].name);
    }
    PositionWithRow(scs, row, row.name);
  }

  lemma {:induction false} NoOccurrences(xs: seq<int>, x: int)
    requires forall k | 0 <= k < |xs| :: xs[k] != x
    ensures Occurrences(xs, x) == 0
  {
    if xs != [] {
      NoOccurrences(xs[..|xs| - 1], x);
    }
  }

  lemma IndexesAppend(scs: seq<Subcluster>, rows: seq<Row>, row: Row)
    ensures Indexes(scs, rows + [row]) == Indexes(scs, rows) + [Position(scs, row.name)]
  {
  }

  lemma StillSized(scs: seq<Subcluster>, rows: seq<Row>, row: Row)
    requires AllNamed(scs, rows) && Sized(scs, rows)
    ensures Sized(WithRow(scs, row), rows + [row])
  {
    hide Position, Indexes, Occurrences;
    var scs', xs := WithRow(scs, row), Indexes(scs, rows);
    var c := Position(WithName(scs, row), row.name);
    WithNameIndexes(scs, rows, row);
    IndexesAppend(scs', rows, row);
    forall d | 0 <= d < |scs'|
      ensures scs'[d].size == Occurrences(xs + [c], d)
    {
      OccurrencesAppend(xs, c, d);
      if d == |scs| {
        NoOccurrences(xs, d);
      }
    }
  }

  lemma StillNamed(scs: seq<Subcluster>, rows: seq<Row>, row: Row)
    requires DistinctNames(scs) && AllNamed(scs, rows)
    ensures DistinctNames(WithRow(scs, row)) && AllNamed(WithRow(scs, row), rows + [row])
  {
    hide Indexes;
    var scs' := WithRow(scs, row);
    WithNameIndexes(scs, rows, row);
    forall k | 0 <= k < |rows|
      ensures Position(scs', rows[k].name) >= 0
    {
      assert Indexes(scs', rows)[k] == Indexes(scs, rows)[k];
    }
  }

  lemma KeepsFlag(rows: seq<Row>, row: Row, sc: Subcluster)
    requires FlaggedBy(rows, sc)
    ensures FlaggedBy(rows + [row], sc.(size := sc.size + 1)) && FlaggedBy(rows + [row], sc)
  {
    var k :| 0 <= k < |rows| && rows[k].name == sc.name && rows[k].isPrimary == sc.isPrimary
             && forall j | 0 <= j < k :: rows[j].name != sc.name;
    var all := rows + [row];
    assert all[k] == rows[k] && forall j | 0 <= j < k :: all[j] == rows[j];
  }

  lemma StillFlagged(scs: seq<Subcluster>, rows: seq<Row>, row: Row)
    requires AllNamed(scs, rows) && Flagged(scs, rows)
    ensures Flagged(WithRow(scs, row), rows + [row])
  {
    hide FlaggedBy, Indexes;
    var scs', all := WithRow(scs, row), rows + [row];
    forall c | 0 <= c < |scs'|
      ensures FlaggedBy(all, scs'[c])
    {
      if c < |scs| {
        KeepsFlag(rows, row, scs[c]);
      } else {
        assert Position(scs, row.name) < 0;
        FlagOfNew(scs, rows, row, scs'[c]);
      }
    }
  }

  lemma FlagOfNew(scs: seq<Subcluster>, rows: seq<Row>, row: Row, sc: Subcluster)
    requires AllNamed(scs, rows) && Position(scs, row.name) < 0
    requires sc.name == row.name && sc.isPrimary == row.isPrimary
    ensures FlaggedBy(rows + [row], sc)
  {
    var all := rows + [row];
    assert all[|rows|] == row;
    forall j | 0 <= j < |rows|
      ensures all[j].name != row.name
    {
      assert all[j] == rows[j] && Position(scs, rows[j].name) >= 0;
    }
  }

  lemma AddRow(rows: seq<Row>, row: Row, scs: seq<Subcluster>, order: seq<PodCount>)
    requires Encodes(rows, scs, order)
    ensures Encodes(rows + [row], WithRow(scs, row), Appended(order, Position(WithName(scs, row), row.name)))
  {
    hide Position, Indexes, Sized, AllNamed, DistinctNames, Expand, Flagged;
    StillNamed(scs, rows, row);
    StillFlagged(scs, rows, row);
    StillSized(scs, rows, row);
    Named(scs, rows, row);
    IndexesAppend(WithRow(scs, row), rows, row);
    ExpandAppended(order, Position(WithName(scs, row), row.name));
  }

  lemma Named(scs: seq<Subcluster>, rows: seq<Row>, row: Row)
    requires AllNamed(scs, rows)
    ensures Indexes(WithRow(scs, row), rows) == Indexes(scs, rows)
    ensures 0 <= Position(WithName(scs, row), row.name) == Position(WithRow(scs, row), row.name)
    ensures |scs| <= |WithRow(scs, row)|
  {
    hide Position, Indexes;
    WithNameIndexes(scs, rows, row);
  }

  // ---------------------------------------------------------------- the encoder's loop

  class DBGenerator {
    var subclusters: seq<Subcluster>
    var reviveOrder: seq<PodCount>

    constructor ()
      ensures subclusters == [] && reviveOrder == []
    {
      subclusters, reviveOrder := [], [];
    }

    /** Fails exactly when there is no row or a subcluster name cannot be used. */
    method SetSubclusterDetail(rows: seq<Row>) returns (ok: bool)
      requires subclusters == [] && reviveOrder == []
      modifies this
      ensures ok <==> rows != [] && forall k | 0 <= k < |rows| :: ValidName(rows[k].name)
      ensures ok ==> Encodes(rows, subclusters, reviveOrder)
    {
      hide Encodes, ValidName, Mapped;
      var subclusterInxMap: map<string, nat> := map[];
      EncodesNothing();
      for k := 0 to |rows|
        invariant Encodes(rows[..k], subclusters, reviveOrder)
        invariant forall j | 0 <= j < k :: ValidName(rows[j].name)
        invariant Mapped(subclusters, subclusterInxMap)
        invariant (|subclusterInxMap| == 0) == (k == 0)
      {
        if !ValidName(rows[k].name) {
          return false;
        }
        assert rows[..k] + [rows[k]] == rows[..k + 1];
        subclusterInxMap := AddNode(rows[k], rows[..k], subclusterInxMap);
      }
      assert rows[..|rows|] == rows;
      return |subclusterInxMap| != 0;
    }

    /** One row of the query. */
    method AddNode(row: Row, ghost rows: seq<Row>, subclusterInxMap: map<string,
            nat>) returns (inxMap: map<string, nat>)
      requires Encodes(rows, subclusters, reviveOrder) && Mapped(subclusters, subclusterInxMap)
      modifies this
      ensures Encodes(rows + [row], subclusters, reviveOrder) && Mapped(subclusters, inxMap) && |inxMap| > 0
    {
      hide Encodes, Mapped, Position;
      AddRow(rows, row, subclusters, reviveOrder);
      MappedNext(subclusters, row, subclusterInxMap);
      inxMap := subclusterInxMap;
      var inx: nat;
      if row.name in inxMap {
        inx := inxMap[row.name];
      } else {
        inx := |subclusters|;
        subclusters := subclusters + [Subcluster(row.name, 0, row.isPrimary)];
        inxMap := inxMap[row.name := inx];
      }
      subclusters := subclusters[inx := subclusters[inx].(size := subclusters[inx].size + 1)];
      var revSz := |reviveOrder|;
      if revSz == 0 || reviveOrder[revSz - 1].index != inx {
        reviveOrder := reviveOrder + [PodCount(inx, 1)];
      } else {
        reviveOrder := reviveOrder[revSz - 1 := reviveOrder[revSz - 1].(count := reviveOrder[revSz - 1].count + 1)];
      }
      assert row.name in inxMap;
    }
  }

  lemma EncodesNothing()
    ensures Encodes([], [], []) && Mapped([], map[])
  {
  }

  /** The map gives the position of every subcluster name. */
  ghost predicate Mapped(scs: seq<Subcluster>, m: map<string, nat>) {
    forall name :: Position(scs, name) == if name in m then m[name] else -1
  }

  lemma MappedNext(scs: seq<Subcluster>, row: Row, m: map<string, nat>)
    requires Mapped(scs, m)
    ensures Position(scs, row.name) == if row.name in m then m[row.name] else -1
    ensures Position(WithName(scs, row), row.name) == if row.name in m then m[row.name] else |scs|
    ensures Mapped(WithRow(scs, row), if row.name in m then m else m[row.name := |scs|])
  {
    hide Position, WithRow, WithName;
    PositionWithRow(scs, row, row.name);
    forall name
      ensures Position(WithRow(scs, row), name) == if name in m then m[name] else if name == row.name then |scs| else -1
    {
      PositionWithRow(scs, row, name);
    }
  }

  // ---------------------------------------------------------------- the round trip

  function ScsOf(list: seq<Pod>): (r: seq<int>)
    ensures |r| == |list| && forall k | 0 <= k < |list| :: r[k] == list[k].sc
  {
    seq(|list|, k requires 0 <= k < |list| => list[k].sc)
  }

  lemma {:induction false} OccurrencesRepeat(xs: seq<int>, y: int, n: nat, x: int)
    ensures Occurrences(xs + Repeat(y, n), x) == Occurrences(xs, x) + if x == y then n else 0
  {
    if n == 0 {
      assert xs + Repeat(y, 0) == xs;
    } else {
      OccurrencesRepeat(xs, y, n - 1, x);
      assert xs + Repeat(y, n) == (xs + Repeat(y, n - 1)) + [y];
      OccurrencesAppend(xs + Repeat(y, n - 1), y, x);
    }
  }

  lemma {:induction false} ScsOfRun(list: seq<Pod>, c: nat, start: nat, m: nat)
    ensures ScsOf(list + Run(c, start, m)) == ScsOf(list) + Repeat(c, m)
  {
    if m == 0 {
      assert list + Run(c, start, 0) == list;
    } else {
      ScsOfRun(list, c, start, m - 1);
      RunGrows(list, c, start, m - 1);
      var before := list + Run(c, start, m - 1);
      assert ScsOf(before + [Pod(c, start + m - 1)]) == ScsOf(before) + [c];
    }
  }

  /** An order that asks for no more pods than there are is decoded entry by entry. */
  lemma {:induction false} DecodesAsSpelled(sizes: seq<nat>, order: seq<PodCount>)
    requires InRange(sizes, order) && forall i | 0 <= i < |order| :: order[i].count > 0
    requires forall c | 0 <= c < |sizes| :: Occurrences(Expand(order), c) <= sizes[c]
    ensures ScsOf(DecodeOrder(sizes, order).list) == Expand(order)
    ensures forall c | 0 <= c < |sizes| :: DecodeOrder(sizes, order).left[c] == sizes[c] - Occurrences(Expand(order), c)
  {
    hide Occurrences, Repeat;
    if order == [] {
      forall c | 0 <= c < |sizes|
        ensures Occurrences([], c) == 0
      {
        NoOccurrences([], c);
      }
    } else {
      var n := |order| - 1;
      var before, e := order[..n], order[n];
      forall c
        ensures Occurrences(Expand(order), c) == Occurrences(Expand(before), c) + if c == e.index then e.count else 0
      {
        OccurrencesRepeat(Expand(before), e.index, e.count, c);
      }
      DecodesAsSpelled(sizes, before);
      var p := DecodeOrder(sizes, before);
      assert Occurrences(Expand(order), e.index) <= sizes[e.index];
      ScsOfRun(p.list, e.index, sizes[e.index] - p.left[e.index], e.count);
    }
  }

  lemma {:induction false} NothingLeft(p: Progress, sizes: seq<nat>, c: nat)
    requires Fits(p, sizes) && c <= |sizes| && forall d | 0 <= d < |sizes| :: p.left[d] == 0
    ensures TakeRest(p, sizes, c) == p
  {
    if c > 0 {
      NothingLeft(p, sizes, c - 1);
      assert p.list + Run(c - 1, sizes[c - 1], 0) == p.list;
    }
  }

  lemma EncodedSizes(rows: seq<Row>, scs: seq<Subcluster>, order: seq<PodCount>)
    requires Encodes(rows, scs, order)
    ensures InRange(Sizes(scs), order)
    ensures ScsOf(Decode(Sizes(scs), order)) == Indexes(scs, rows)
  {
    hide Occurrences, Expand, Indexes;
    var sizes := Sizes(scs);
    DecodesAsSpelled(sizes, order);
    NothingLeft(DecodeOrder(sizes, order), sizes, |sizes|);
  }

  lemma {:induction false} OfCounts(list: seq<Pod>, c: nat)
    ensures |Of(list, c)| == Occurrences(ScsOf(list), c)
  {
    if list != [] {
      var n := |list| - 1;
      OfCounts(list[..n], c);
      assert ScsOf(list)[..n] == ScsOf(list[..n]);
    }
  }

  lemma {:induction false} RowsCount(scs: seq<Subcluster>, rows: seq<Row>, c: nat)
    requires DistinctNames(scs) && AllNamed(scs, rows) && c < |scs|
    ensures Occurrences(Indexes(scs, rows), c) == RowsOf(rows, scs[c].name)
  {
    if rows != [] {
      var n := |rows| - 1;
      RowsCount(scs, rows[..n], c);
      assert Indexes(scs, rows)[..n] == Indexes(scs, rows[..n]);
      assert (Position(scs, rows[n].name) == c) == (rows[n].name == scs[c].name);
    }
  }

  /** The rows with this name are all primary or all secondary. */
  ghost predicate Agreeing(rows: seq<Row>, name: string) {
    forall i, j | 0 <= i < j < |rows| && rows[i].name == name && rows[j].name == name ::
      rows[i].isPrimary == rows[j].isPrimary
  }

  lemma FlagAgrees(rows: seq<Row>, sc: Subcluster, k: nat)
    requires FlaggedBy(rows, sc) && k < |rows| && rows[k].name == sc.name
    ensures Agreeing(rows, sc.name) ==> sc.isPrimary == rows[k].isPrimary
  {
    var j :| 0 <= j < |rows| && rows[j].name == sc.name && rows[j].isPrimary == sc.isPrimary
             && forall i | 0 <= i < j :: rows[i].name != sc.name;
    assert j <= k;
  }

  /** Decoding what was encoded: the k-th pod is of the k-th row's subcluster, which is primary when the
      row is, and its index is the number of earlier rows of that subcluster. */
  lemma RoundTrip(rows: seq<Row>, scs: seq<Subcluster>, order: seq<PodCount>, k: nat)
    requires Encodes(rows, scs, order) && k < |rows|
    ensures InRange(Sizes(scs), order) && |Decode(Sizes(scs), order)| == |rows|
    ensures var pod := Decode(Sizes(scs), order)[k];
            && pod.sc < |scs| && scs[pod.sc].name == rows[k].name && pod.index == RowsOf(rows[..k], rows[k].name)
            && (Agreeing(rows, rows[k].name) ==> scs[pod.sc].isPrimary == rows[k].isPrimary)
  {
    hide Occurrences, Expand, Of, RowsOf, Position, Decode, Sized, RunLengths, FlaggedBy, Agreeing;
    var sizes := Sizes(scs);
    EncodedSizes(rows, scs, order);
    DecodeIsPodList(sizes, order);
    var list := Decode(sizes, order);
    assert |list| == |ScsOf(list)| == |rows|;
    assert ScsOf(list)[k] == Indexes(scs, rows)[k];
    var c := list[k].sc;
    IndexCounts(list, k, sizes[c]);
    OfCounts(list[..k], c);
    assert ScsOf(list[..k]) == ScsOf(list)[..k] == Indexes(scs, rows[..k]);
    RowsCount(scs, rows[..k], c);
    FlagAgrees(rows, scs[c], k);
  }
}
