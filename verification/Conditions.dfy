/** The status conditions of a VerticaDB.  They are kept in an array whose slots have fixed
    meanings and which grows on demand (pkg/vdbstatus/status.go, api/v1beta1/verticadb_types.go).
    The array is shown to behave like a map from condition type to the last status written. */
module Conditions {
  import opened Text

  datatype ConditionType =
    | AutoRestartVertica
    | DBInitialized
    | ImageChangeInProgress
    | OfflineUpgradeInProgress
    | OnlineUpgradeInProgress
    | VerticaRestartNeeded
    | Unlisted(name: string)

  datatype ConditionStatus = True | False | Unknown

  datatype Condition = Condition(kind: ConditionType, status: ConditionStatus, transition: int)

  const NUM_CONDITIONS := 6

  /** VerticaDBConditionIndexMap */
  function IndexOf(kind: ConditionType): (inx: Option<nat>)
    ensures inx.Some? ==> inx.value < NUM_CONDITIONS && NameAt(inx.value) == kind
    ensures inx.None? <==> kind.Unlisted?
  {
    match kind
    case AutoRestartVertica => Some(0)
    case DBInitialized => Some(1)
    case ImageChangeInProgress => Some(2)
    case OfflineUpgradeInProgress => Some(3)
    case OnlineUpgradeInProgress => Some(4)
    case VerticaRestartNeeded => Some(5)
    case Unlisted(_) => None
  }

  /** VerticaDBConditionNameMap; an index that is not in the map reads as the empty name. */
  function NameAt(inx: nat): ConditionType {
    match inx
    case 0 => AutoRestartVertica
    case 1 => DBInitialized
    case 2 => ImageChangeInProgress
    case 3 => OfflineUpgradeInProgress
    case 4 => OnlineUpgradeInProgress
    case 5 => VerticaRestartNeeded
    case _ => Unlisted("")
  }

  predicate IsIndexSet(conditions: seq<Condition>, inx: nat) {
    inx < |conditions| && conditions[inx].status == True
  }

  /** IsConditionSet; the error for an unlisted type reads as not set. */
  predicate IsSet(conditions: seq<Condition>, kind: ConditionType) {
    match IndexOf(kind)
    case Some(inx) => IsIndexSet(conditions, inx)
    case None => false
  }

  function Filler(inx: nat): Condition {
    Condition(NameAt(inx), False, 0)
  }

  function Grown(conditions: seq<Condition>, n: nat): (r: seq<Condition>)
    ensures |r| == if |conditions| < n then n else |conditions|
    ensures forall i | 0 <= i < |r| :: r[i] == if i < |conditions| then conditions[i] else Filler(i)
    decreases n - |conditions|
  {
    if |conditions| >= n then conditions else Grown(conditions + [Filler(|conditions|)], n)
  }

  function Updated(conditions: seq<Condition>, c: Condition): seq<Condition> {
    match IndexOf(c.kind)
    case None => conditions
    case Some(inx) =>
      var grown := Grown(conditions, inx + 1);
      if grown[inx].status != c.status then grown[inx := c] else grown
  }

  class VerticaDBStatus {
    var conditions: seq<Condition>

    constructor ()
      ensures conditions == []
    {
      conditions := [];
    }

    /** UpdateCondition; false is the error return for a type missing from the index map. */
    method UpdateCondition(c: Condition) returns (ok: bool)
      modifies this
      ensures ok == !c.kind.Unlisted?
      ensures conditions == Updated(old(conditions), c)
      ensures !ok ==> conditions == old(conditions)
      ensures ok ==> var inx := IndexOf(c.kind).value;
                && |conditions| == (if |old(conditions)| <= inx then inx + 1 else |old(conditions)|)
                && conditions[inx].status == c.status
                && (inx < |old(conditions)| ==>
                      conditions[inx] == if old(conditions)[inx].status == c.status then old(conditions)[inx] else c)
                && (forall i | 0 <= i < |old(conditions)| && i != inx :: conditions[i] == old(conditions)[i])
                && (forall i | |old(conditions)| <= i < inx :: conditions[i] == Condition(NameAt(i), False, 0))
    {
      match IndexOf(c.kind) {
        case None =>
          ok := false;
        case Some(inx) =>
          var i := |conditions|;
          while i <= inx
            invariant i == |conditions| && |old(conditions)| <= i
            invariant i <= inx + 1 || i == |old(conditions)|
            invariant Grown(conditions, inx + 1) == Grown(old(conditions), inx + 1)
          {
            conditions := conditions + [Condition(NameAt(i), False, 0)];
            i := i + 1;
          }
          if conditions[inx].status != c.status {
            conditions := conditions[inx := c];
          }
          ok := true;
      }
    }
  }

  // ---------------------------------------------------------------- the array is a map

  function AfterWrites(writes: seq<Condition>): seq<Condition> {
    if writes == [] then []
    else Updated(AfterWrites(writes[..|writes| - 1]), writes[|writes| - 1])
  }

  /** The status last written for a type, if any write named it. */
  function LastWrite(writes: seq<Condition>, kind: ConditionType): Option<ConditionStatus> {
    if writes == [] then None
    else
      var c := writes[|writes| - 1];
      if c.kind == kind then Some(c.status) else LastWrite(writes[..|writes| - 1], kind)
  }

  /** After any sequence of writes, a condition is set exactly when its last write was True. */
  lemma {:induction false} ArrayRefinesMap(writes: seq<Condition>, kind: ConditionType)
    requires !kind.Unlisted?
    ensures IsSet(AfterWrites(writes), kind) <==> LastWrite(writes, kind) == Some(True)
  {
    if writes != [] {
      var n := |writes| - 1;
      ArrayRefinesMap(writes[..n], kind);
    }
  }

  /** The write that last changed the status of a type; before any, it is False since time 0. */
  function LastChange(writes: seq<Condition>, kind: ConditionType): Condition {
    if writes == [] then Condition(kind, False, 0)
    else
      var before, c := LastChange(writes[..|writes| - 1], kind), writes[|writes| - 1];
      if c.kind == kind && c.status != before.status then c else before
  }

  /** After any sequence of writes a slot is there exactly when some write went to it or to a later
      one, and it shows the write that last changed its status, with the time of that change. */
  lemma {:induction false} SlotShowsLastChange(writes: seq<Condition>, i: nat)
    requires i < NUM_CONDITIONS
    ensures i < |AfterWrites(writes)| <==>
              exists k :: 0 <= k < |writes| && !writes[k].kind.Unlisted? && i <= IndexOf(writes[k].kind).value
    ensures i < |AfterWrites(writes)| ==> AfterWrites(writes)[i] == LastChange(writes, NameAt(i))
    ensures i >= |AfterWrites(writes)| ==> LastChange(writes, NameAt(i)) == Condition(NameAt(i), False, 0)
  {
    hide NameAt, Grown;
    if writes != [] {
      var n := |writes| - 1;
      SlotShowsLastChange(writes[..n], i);
      assert forall k | 0 <= k < n :: writes[..n][k] == writes[k];
      OnlySlot(writes[n].kind, i);
    }
  }

  lemma OnlySlot(kind: ConditionType, i: nat)
    requires i < NUM_CONDITIONS
    ensures kind == NameAt(i) <==> IndexOf(kind) == Some(i)
  {
  }

  /** Slot i always holds the i-th condition type, and the array never grows past the last one. */
  lemma {:induction false} SlotsKeepTheirMeaning(writes: seq<Condition>)
    ensures var cs := AfterWrites(writes);
            && |cs| <= NUM_CONDITIONS && (forall i | 0 <= i < |cs| :: cs[i].kind == NameAt(i))
            && forall i | 0 <= i < |cs| :: cs[i].kind ==
                 [AutoRestartVertica, DBInitialized, ImageChangeInProgress,
                  OfflineUpgradeInProgress, OnlineUpgradeInProgress, VerticaRestartNeeded][i]
  {
    if writes != [] {
      SlotsKeepTheirMeaning(writes[..|writes| - 1]);
    }
  }

  /** More writes never shorten the array. */
  lemma {:induction false} NeverShrinks(writes: seq<Condition>, more: seq<Condition>)
    ensures |AfterWrites(writes)| <= |AfterWrites(writes + more)|
  {
    if more == [] {
      assert writes + more == writes;
    } else {
      var n := |more| - 1;
      NeverShrinks(writes, more[..n]);
      assert (writes + more)[..|writes + more| - 1] == writes + more[..n];
    }
  }
}
