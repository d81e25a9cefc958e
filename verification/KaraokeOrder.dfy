/** The order machine of scripts/karaoke-maintenance-journal.ts: which events may follow
    which, and what the journal's state and pass history are. */
module KaraokeOrder {
  import opened Outcomes

  type Id = string

  const OBJECT_COUNT := 6

  /** One of the six frozen object ids, by its position in the inventory. */
  type ObjectIndex = n: nat | n < 6

  datatype Event =
    | Begin(evidenceIds: seq<Id>)
    | FenceObserved(evidenceIds: seq<Id>)
    | FenceBroken(evidenceIds: seq<Id>)
    | ResetVerified(evidenceIds: seq<Id>)
    | AllRetired(evidenceIds: seq<Id>)
    | Released(evidenceIds: seq<Id>)
    | Pass(objectId: ObjectIndex, receiptId: Id, evidenceIds: seq<Id>)

  datatype Entry = Entry(
    epoch: Id,
    collector: Id,
    sequence: nat,
    previousId: Option<Id>,
    observedAt: nat,
    event: Event)

  datatype State = Unestablished | Held | Reset | Retired | Released | Broken

  datatype Machine = Machine(state: State, previousTime: int, history: seq<seq<Id>>)

  const START := Machine(Unestablished, -1, [[], [], [], [], [], []])

  /** The state after one event, or the reason why the event is refused. */
  function NextState(state: State, history: seq<seq<Id>>, event: Event): Result<State>
    requires |history| == OBJECT_COUNT
  {
    match event
    case Begin(_) => Success(state)
    case FenceObserved(_) =>
      if state.Released? then Failure("karaoke_journal_release_monotonic")
      else if state.Unestablished? then Success(Held)
      else Success(state)
    case ResetVerified(_) =>
      if !state.Held? then Failure("karaoke_journal_reset_denied") else Success(Reset)
    case AllRetired(_) =>
      if !state.Reset? && !state.Retired? then Failure("karaoke_journal_retirement_denied") else Success(Retired)
    case Released(_) =>
      if !state.Retired? then Failure("karaoke_journal_release_denied") else Success(State.Released)
    case FenceBroken(_) => Success(Broken)
    case Pass(target, receipt, _) =>
      if state.Unestablished? then Failure("karaoke_journal_pass_denied")
      else if receipt in history[target] then Failure("karaoke_journal_receipt_denied")
      else Success(state)
  }

  function Recorded(history: seq<seq<Id>>, event: Event): (r: seq<seq<Id>>)
    requires |history| == OBJECT_COUNT
    ensures |r| == OBJECT_COUNT
  {
    match event
    case Pass(target, receipt, _) => history[target := history[target] + [receipt]]
    case _ => history
  }

  function OrderStep(m: Machine, entry: Entry): (r: Result<Machine>)
    requires |m.history| == OBJECT_COUNT
    ensures r.Success? ==> |r.value.history| == OBJECT_COUNT
  {
    if entry.observedAt < m.previousTime || (entry.sequence == 0) != entry.event.Begin? || m.state.Broken? then
      Failure("karaoke_journal_order_denied")
    else
      var state :- NextState(m.state, m.history, entry.event);
      Success(Machine(state, entry.observedAt, Recorded(m.history, entry.event)))
  }

  /** The machine after a whole journal. */
  function Order(entries: seq<Entry>): (r: Result<Machine>)
    ensures r.Success? ==> |r.value.history| == OBJECT_COUNT
  {
    if entries == [] then Success(START)
    else
      var before :- Order(entries[..|entries| - 1]);
      OrderStep(before, entries[|entries| - 1])
  }

  lemma OrderGrows(entries: seq<Entry>, entry: Entry)
    ensures Order(entries + [entry])
         == if Order(entries).Failure? then Order(entries) else OrderStep(Order(entries).value, entry)
  {
    assert (entries + [entry])[..|entries|] == entries;
  }

  lemma {:induction false} OrderOfPrefix(entries: seq<Entry>, k: nat)
    requires k <= |entries|
    ensures Order(entries).Success? ==> Order(entries[..k]).Success?
    ensures Order(entries[..k]).Failure? ==> Order(entries) == Order(entries[..k])
  {
    if k == |entries| {
      assert entries[..k] == entries;
    } else {
      var front := entries[..|entries| - 1];
      assert front[..k] == entries[..k];
      OrderOfPrefix(front, k);
    }
  }

  /** `validateJournalOrder`: a loop over the entries that stops at the first refusal. */
  method ValidateJournalOrder(entries: seq<Entry>) returns (r: Result<Machine>)
    ensures r == Order(entries)
  {
    var state := Unestablished;
    var previousTime: int := -1;
    var history := START.history;
    for i := 0 to |entries|
      invariant |history| == OBJECT_COUNT
      invariant Order(entries[..i]) == Success(Machine(state, previousTime, history))
    {
      var entry := entries[i];
      OrderGrows(entries[..i], entry);
      TakeStep(entries, i);
      OrderOfPrefix(entries, i + 1);
      if entry.observedAt < previousTime || (entry.sequence == 0) != entry.event.Begin? || state == Broken {
        return Failure("karaoke_journal_order_denied");
      }
      var next := NextState(state, history, entry.event);
      if next.Failure? {
        return Failure(next.error);
      }
      state, previousTime, history := next.value, entry.observedAt, Recorded(history, entry.event);
    }
    TakeAll(entries);
    r := Success(Machine(state, previousTime, history));
  }

  // ---- What the machine admits, told without it -------------------------------------

  datatype Kind = Beginning | Observation | Breakage | Verification | Retirement | Release | Passing

  function KindOf(event: Event): Kind {
    match event
    case Begin(_) => Beginning
    case FenceObserved(_) => Observation
    case FenceBroken(_) => Breakage
    case ResetVerified(_) => Verification
    case AllRetired(_) => Retirement
    case Released(_) => Release
    case Pass(_, _, _) => Passing
  }

  ghost predicate Happened(entries: seq<Entry>, kind: Kind) {
    exists i :: 0 <= i < |entries| && KindOf(entries[i].event) == kind
  }

  /** The receipts of a target's passes, in order. */
  function Receipts(entries: seq<Entry>, target: ObjectIndex): seq<Id> {
    if entries == [] then []
    else
      var event := entries[|entries| - 1].event;
      Receipts(entries[..|entries| - 1], target)
      + (if event.Pass? && event.objectId == target then [event.receiptId] else [])
  }

  /** What an event needs of the entries before it. */
  ghost predicate Admissible(before: seq<Entry>, entry: Entry) {
    && !Happened(before, Breakage)
    && (before != [] ==> before[|before| - 1].observedAt <= entry.observedAt)
    && (entry.event.Begin? <==> entry.sequence == 0)
    && match entry.event
       case Begin(_) => true
       case FenceBroken(_) => true
       case FenceObserved(_) => !Happened(before, Release)
       case ResetVerified(_) => Happened(before, Observation) && !Happened(before, Verification)
       case AllRetired(_) => Happened(before, Verification) && !Happened(before, Release)
       case Released(_) => Happened(before, Retirement) && !Happened(before, Release)
       case Pass(target, receipt, _) => Happened(before, Observation) && receipt !in Receipts(before, target)
  }

  /** The state is the furthest milestone that happened, a breakage the furthest of all. */
  ghost function Furthest(entries: seq<Entry>): State {
    if Happened(entries, Breakage) then Broken
    else if Happened(entries, Release) then State.Released
    else if Happened(entries, Retirement) then Retired
    else if Happened(entries, Verification) then Reset
    else if Happened(entries, Observation) then Held
    else Unestablished
  }

  ghost predicate AllAdmissible(entries: seq<Entry>) {
    forall k :: 0 <= k < |entries| ==> Admissible(entries[..k], entries[k])
  }

  lemma HappenedGrows(entries: seq<Entry>, entry: Entry, kind: Kind)
    ensures Happened(entries + [entry], kind) <==> Happened(entries, kind) || KindOf(entry.event) == kind
  {
    var grown := entries + [entry];
    assert grown[|entries|] == entry;
    assert forall i :: 0 <= i < |entries| ==> grown[i] == entries[i];
  }

  lemma AdmissibleGrows(entries: seq<Entry>, entry: Entry)
    ensures AllAdmissible(entries + [entry]) <==> AllAdmissible(entries) && Admissible(entries, entry)
  {
    var grown := entries + [entry];
    assert forall k :: 0 <= k < |entries| ==> grown[..k] == entries[..k] && grown[k] == entries[k];
    assert grown[..|entries|] == entries && grown[|entries|] == entry;
  }

  ghost predicate MilestonesInOrder(entries: seq<Entry>) {
    && (Happened(entries, Release) ==> Happened(entries, Retirement))
    && (Happened(entries, Retirement) ==> Happened(entries, Verification))
    && (Happened(entries, Verification) ==> Happened(entries, Observation))
  }

  /** What the machine knows about the entries it has read. */
  ghost predicate Knows(m: Machine, entries: seq<Entry>) {
    && m.state == Furthest(entries)
    && m.previousTime == (if entries == [] then -1 else entries[|entries| - 1].observedAt)
    && |m.history| == OBJECT_COUNT
    && (forall target: ObjectIndex :: m.history[target] == Receipts(entries, target))
    && MilestonesInOrder(entries)
  }

  lemma StepAdmits(m: Machine, entries: seq<Entry>, entry: Entry)
    requires Knows(m, entries)
    ensures OrderStep(m, entry).Success? <==> Admissible(entries, entry)
  {
  }

  lemma StateFollows(m: Machine, entries: seq<Entry>, entry: Entry)
    requires Knows(m, entries) && OrderStep(m, entry).Success?
    ensures OrderStep(m, entry).value.state == Furthest(entries + [entry])
    ensures MilestonesInOrder(entries + [entry])
  {
    HappenedGrows(entries, entry, Breakage);
    HappenedGrows(entries, entry, Release);
    HappenedGrows(entries, entry, Retirement);
    HappenedGrows(entries, entry, Verification);
    HappenedGrows(entries, entry, Observation);
  }

  lemma HistoryFollows(m: Machine, entries: seq<Entry>, entry: Entry, target: ObjectIndex)
    requires |m.history| == OBJECT_COUNT && m.history[target] == Receipts(entries, target)
    ensures Recorded(m.history, entry.event)[target] == Receipts(entries + [entry], target)
  {
    assert (entries + [entry])[..|entries|] == entries;
  }

  lemma StepKnows(m: Machine, entries: seq<Entry>, entry: Entry)
    requires Knows(m, entries) && OrderStep(m, entry).Success?
    ensures Knows(OrderStep(m, entry).value, entries + [entry])
  {
    StateFollows(m, entries, entry);
    forall target: ObjectIndex
      ensures OrderStep(m, entry).value.history[target] == Receipts(entries + [entry], target)
    {
      HistoryFollows(m, entries, entry, target);
    }
  }

  /** The machine accepts a journal exactly when each entry is admissible after the ones
      before it, and then its state is the furthest milestone, and its history the receipts
      of the passes. */
  lemma {:induction false} OrderExactly(entries: seq<Entry>)
    ensures Order(entries).Success? <==> AllAdmissible(entries)
    ensures Order(entries).Success? ==> Knows(Order(entries).value, entries)
  {
    if entries != [] {
      var front, entry := entries[..|entries| - 1], entries[|entries| - 1];
      SplitLast(entries);
      OrderExactly(front);
      AdmissibleGrows(front, entry);
      OrderGrows(front, entry);
      if Order(front).Success? {
        StepAdmits(Order(front).value, front, entry);
        if OrderStep(Order(front).value, entry).Success? {
          StepKnows(Order(front).value, front, entry);
        }
      }
    }
  }

  // ---- What that means for a journal ------------------------------------------------

  function Rank(state: State): nat {
    match state
    case Unestablished => 0
    case Held => 1
    case Reset => 2
    case Retired => 3
    case Released => 4
    case Broken => 5
  }

  /** The state never goes back. */
  lemma RankNeverDrops(entries: seq<Entry>, k: nat)
    requires Order(entries).Success? && k <= |entries|
    ensures Order(entries[..k]).Success?
    ensures Rank(Order(entries[..k]).value.state) <= Rank(Order(entries).value.state)
  {
    OrderOfPrefix(entries, k);
    OrderExactly(entries);
    OrderExactly(entries[..k]);
    FurthestNeverDrops(entries, k);
  }

  lemma FurthestNeverDrops(entries: seq<Entry>, k: nat)
    requires k <= |entries|
    ensures Rank(Furthest(entries[..k])) <= Rank(Furthest(entries))
  {
    HappenedEarlier(entries, k, Breakage);
    HappenedEarlier(entries, k, Release);
    HappenedEarlier(entries, k, Retirement);
    HappenedEarlier(entries, k, Verification);
    HappenedEarlier(entries, k, Observation);
  }

  lemma HappenedEarlier(entries: seq<Entry>, k: nat, kind: Kind)
    requires k <= |entries|
    ensures Happened(entries[..k], kind) ==> Happened(entries, kind)
  {
    if Happened(entries[..k], kind) {
      var i :| 0 <= i < k && KindOf(entries[..k][i].event) == kind;
      assert entries[i] == entries[..k][i];
    }
  }

  lemma AdmittedAt(entries: seq<Entry>, k: nat)
    requires Order(entries).Success? && k < |entries|
    ensures entries[k].event.AllRetired? ==> Happened(entries[..k], Verification)
    ensures entries[k].event.Released? ==> Happened(entries[..k], Retirement)
  {
    OrderExactly(entries);
    assert Admissible(entries[..k], entries[k]);
  }

  lemma OfKind(entries: seq<Entry>, k: nat, kind: Kind) returns (i: nat)
    requires k <= |entries| && Happened(entries[..k], kind)
    ensures i < k && KindOf(entries[i].event) == kind
  {
    i :| 0 <= i < k && KindOf(entries[..k][i].event) == kind;
  }

  /** A release comes after a retirement that came after a verified reset. */
  lemma ReleaseIsEarned(entries: seq<Entry>, k: nat) returns (i: nat, j: nat)
    requires Order(entries).Success? && k < |entries| && entries[k].event.Released?
    ensures i < j < k && entries[i].event.ResetVerified? && entries[j].event.AllRetired?
  {
    AdmittedAt(entries, k);
    j := OfKind(entries, k, Retirement);
    AdmittedAt(entries, j);
    i := OfKind(entries, j, Verification);
  }

  /** Nothing follows a broken fence. */
  lemma NothingFollowsABreak(entries: seq<Entry>, k: nat)
    requires Order(entries).Success? && k < |entries| && entries[k].event.FenceBroken?
    ensures k == |entries| - 1 && Order(entries).value.state == Broken
  {
    OrderExactly(entries);
    if k < |entries| - 1 {
      BreakageEndsTheJournal(entries, k);
    }
    assert KindOf(entries[k].event) == Breakage;
  }

  lemma BreakageEndsTheJournal(entries: seq<Entry>, k: nat)
    requires k + 1 < |entries| && entries[k].event.FenceBroken?
    ensures !AllAdmissible(entries)
  {
    assert KindOf(entries[..k + 1][k].event) == Breakage;
    assert !Admissible(entries[..k + 1], entries[k + 1]);
  }

  /** No two passes of an object share a receipt, and a pass is in the journal's history. */
  lemma ReceiptsAreDistinct(entries: seq<Entry>, i: nat, j: nat)
    requires Order(entries).Success? && i < j < |entries|
    requires entries[i].event.Pass? && entries[j].event.Pass? && entries[i].event.objectId == entries[j].event.objectId
    ensures entries[i].event.receiptId != entries[j].event.receiptId
    ensures entries[i].event.receiptId in Order(entries).value.history[entries[i].event.objectId]
  {
    OrderExactly(entries);
    assert Admissible(entries[..j], entries[j]);
    assert entries[..j][i] == entries[i];
    ReceiptIsKept(entries[..j], i);
    ReceiptIsKept(entries, i);
  }

  lemma {:induction false} ReceiptIsKept(entries: seq<Entry>, i: nat)
    requires i < |entries| && entries[i].event.Pass?
    ensures entries[i].event.receiptId in Receipts(entries, entries[i].event.objectId)
  {
    if i < |entries| - 1 {
      ReceiptIsKept(entries[..|entries| - 1], i);
    }
  }

  /** Times never go back. */
  lemma {:induction false} TimesNeverGoBack(entries: seq<Entry>, i: nat, j: nat)
    requires Order(entries).Success? && i <= j < |entries|
    ensures entries[i].observedAt <= entries[j].observedAt
  {
    if i < j {
      TimesNeverGoBack(entries, i, j - 1);
      OrderExactly(entries);
      assert Admissible(entries[..j], entries[j]);
    }
  }
}
