/** The reusable test-schema owner of scripts/postgres-test-baseline.ts: a promise chain
    that gives every admitted `run` its turn, a pending counter, one memoised disposal,
    and the life of a single schema (create, initialise, reset before each later use,
    drop at the end).

    The owner is an interleaving of steps. The synchronous prefix of `run` and of
    `dispose` is one step; every awaited call of the driver ends a step, and the step that
    follows takes the call's reply, which may be a failure. `log` is the history of driver
    calls and replies that the owner's promises are stated about. */
module SchemaOwner {
  import opened Outcomes

  datatype Key = Key(connection: string, schemaName: string)

  /** What a driver call came back with. Each call reads the field it needs. */
  datatype Reply = Threw | Returned(text: string, present: bool)

  datatype Call =
    | Connect | Create | Select | Initialize | Fingerprint | Reset | Use
    | Rollback | ClearPath | Close | Drop | Exists

  datatype Actor = Ticket(number: nat) | Cleaner

  datatype Entry =
    | Issued(who: Actor, call: Call)
    | Settled(who: Actor, call: Call, reply: Reply)
    | PrepareFailed(who: Actor)

  /** Where a run stands: the driver call it awaits, or one of the waits around them. */
  datatype Phase =
    | Waiting
    | Connecting
    | Creating | Selecting | Initializing | Recording
    | Reselecting | Resetting | Comparing
    | Using
    | RollingBack | Clearing | Closing
    | Leaving
    | Left

  datatype CleanupPhase =
    | Opening
    | Confirming
    | Restoring | Wiping | Checking
    | Detaching | Dropping | Verifying
    | Undoing | Unsetting | Shutting
    | Finished

  datatype Schema = Schema(
    key: Key,
    creationAttempted: bool,
    created: bool,
    initialized: bool,
    fingerprint: Option<string>,
    prepareFailed: bool)

  datatype Run = Run(preceding: Option<nat>, phase: Phase, failures: nat)
  datatype Cleanup = Cleanup(phase: CleanupPhase, failures: nat)

  datatype Owner = Owner(
    schema: Option<Schema>,
    pending: nat,
    queue: Option<nat>,
    closed: bool,
    disposal: Option<Cleanup>,
    runs: seq<Run>,
    log: seq<Entry>)

  const NEW_OWNER := Owner(None, 0, None, false, None, [], [])

  function NewSchema(key: Key): Schema {
    Schema(key, false, false, false, None, false)
  }

  predicate Awaits(p: Phase) {
    !p.Waiting? && !p.Leaving? && !p.Left?
  }

  function CallOf(p: Phase): Call
    requires Awaits(p)
  {
    match p
    case Connecting => Connect
    case Creating => Create
    case Selecting | Reselecting => Select
    case Initializing => Initialize
    case Recording | Comparing => Fingerprint
    case Resetting => Reset
    case Using => Use
    case RollingBack => Rollback
    case Clearing => ClearPath
    case Closing => Close
  }

  function CleanupCallOf(p: CleanupPhase): Call
    requires !p.Finished?
  {
    match p
    case Opening => Connect
    case Confirming | Verifying => Exists
    case Restoring => Select
    case Wiping => Reset
    case Checking => Fingerprint
    case Detaching | Unsetting => ClearPath
    case Dropping => Drop
    case Undoing => Rollback
    case Shutting => Close
  }

  // ---- One step of a run ------------------------------------------------------------

  datatype Advance = Advance(next: Phase, schema: Schema, failed: bool, prepareFailed: bool)

  /** A preparation that failed is remembered, and the client is rolled back. */
  function Refuse(s: Schema): Advance {
    Advance(RollingBack, s.(prepareFailed := true), true, true)
  }

  function Go(next: Phase, s: Schema): Advance {
    Advance(next, s, false, false)
  }

  /** What a run does with the reply to the call it awaits. */
  function OnReply(s: Schema, p: Phase, r: Reply): Advance
    requires Awaits(p)
  {
    match p
    case Connecting =>
      if r.Threw? then Advance(Closing, s, true, false)
      else if s.prepareFailed then Refuse(s)
      else if s.initialized then Go(Reselecting, s)
      else Go(Creating, s.(creationAttempted := true))
    case Creating => if r.Threw? then Refuse(s) else Go(Selecting, s.(created := true))
    case Selecting => if r.Threw? then Refuse(s) else Go(Initializing, s)
    case Initializing => if r.Threw? then Refuse(s) else Go(Recording, s)
    case Recording =>
      if r.Threw? then Refuse(s) else Go(Using, s.(fingerprint := Some(r.text), initialized := true))
    case Reselecting => if r.Threw? then Refuse(s) else Go(Resetting, s)
    case Resetting => if r.Threw? then Refuse(s) else Go(Comparing, s)
    case Comparing => if r.Threw? || s.fingerprint != Some(r.text) then Refuse(s) else Go(Using, s)
    case Using => Advance(RollingBack, s, r.Threw?, false)
    case RollingBack => Advance(Clearing, s, r.Threw?, false)
    case Clearing => Advance(Closing, s, r.Threw?, false)
    case Closing => Advance(Leaving, s, r.Threw?, false)
  }

  function Issue(who: Actor, p: Phase): seq<Entry> {
    if Awaits(p) then [Issued(who, CallOf(p))] else []
  }

  function Count(failed: bool): nat {
    if failed then 1 else 0
  }

  // ---- One step of the disposal -----------------------------------------------------

  datatype CleanupAdvance = CleanupAdvance(next: CleanupPhase, schema: Schema, failed: bool)

  function OnCleanupReply(s: Schema, p: CleanupPhase, r: Reply): CleanupAdvance
    requires !p.Finished?
  {
    match p
    case Opening =>
      if r.Threw? then CleanupAdvance(Shutting, s, true)
      else if !s.created then CleanupAdvance(Confirming, s, false)
      else if s.initialized then CleanupAdvance(Restoring, s, false)
      else CleanupAdvance(Detaching, s, false)
    case Confirming => CleanupAdvance(Undoing, s, r.Threw? || r.present)
    case Restoring => if r.Threw? then CleanupAdvance(Detaching, s, true) else CleanupAdvance(Wiping, s, false)
    case Wiping => if r.Threw? then CleanupAdvance(Detaching, s, true) else CleanupAdvance(Checking, s, false)
    case Checking => CleanupAdvance(Detaching, s, r.Threw? || s.fingerprint != Some(r.text))
    case Detaching => CleanupAdvance(Dropping, s, r.Threw?)
    case Dropping => CleanupAdvance(Verifying, s, r.Threw?)
    case Verifying =>
      if r.Threw? || r.present then CleanupAdvance(Undoing, s, true)
      else CleanupAdvance(Undoing, s.(created := false, initialized := false), false)
    case Undoing => CleanupAdvance(Unsetting, s, r.Threw?)
    case Unsetting => CleanupAdvance(Shutting, s, r.Threw?)
    case Shutting => CleanupAdvance(Finished, s, r.Threw?)
  }

  function CleanupIssue(p: CleanupPhase): seq<Entry> {
    if p.Finished? then [] else [Issued(Cleaner, CleanupCallOf(p))]
  }

  // ---- The steps of the owner -------------------------------------------------------

  datatype Event =
    | CallRun(key: Key)
    | Resume(ticket: nat, built: bool)
    | Settle(ticket: nat, reply: Reply)
    | Leave(ticket: nat)
    | CallDispose(built: bool)
    | SettleCleanup(reply: Reply)

  /** `run` rejects before it changes anything when the owner is closed or the key is not
      the owner's. */
  predicate Admits(o: Owner, key: Key) {
    !o.closed && (o.schema.Some? ==> o.schema.value.key == key)
  }

  function Admit(o: Owner, key: Key): Owner {
    if Admits(o, key) then
      o.(schema := if o.schema.Some? then o.schema else Some(NewSchema(key)),
         pending := o.pending + 1,
         queue := Some(|o.runs|),
         runs := o.runs + [Run(o.queue, Waiting, 0)])
    else o
  }

  /** The promise a run awaits is resolved when the run before it has left. */
  predicate CanResume(o: Owner, t: nat) {
    && t < |o.runs|
    && o.runs[t].phase.Waiting?
    && (o.runs[t].preceding.Some? ==>
          o.runs[t].preceding.value < |o.runs| && o.runs[o.runs[t].preceding.value].phase.Left?)
  }

  /** The client is constructed, which may throw, and then connects. */
  function Resumed(o: Owner, t: nat, built: bool): Owner
    requires CanResume(o, t)
  {
    if built then
      o.(runs := o.runs[t := o.runs[t].(phase := Connecting)],
         log := o.log + [Issued(Ticket(t), Connect)])
    else
      o.(runs := o.runs[t := o.runs[t].(phase := Leaving, failures := o.runs[t].failures + 1)])
  }

  predicate CanSettle(o: Owner, t: nat) {
    t < |o.runs| && Awaits(o.runs[t].phase) && o.schema.Some?
  }

  function AfterReply(o: Owner, t: nat, r: Reply): Owner
    requires CanSettle(o, t)
  {
    var run := o.runs[t];
    var a := OnReply(o.schema.value, run.phase, r);
    o.(schema := Some(a.schema),
       runs := o.runs[t := run.(phase := a.next, failures := run.failures + Count(a.failed))],
       log := o.log + [Settled(Ticket(t), CallOf(run.phase), r)]
              + (if a.prepareFailed then [PrepareFailed(Ticket(t))] else [])
              + Issue(Ticket(t), a.next))
  }

  predicate CanLeave(o: Owner, t: nat) {
    t < |o.runs| && o.runs[t].phase.Leaving? && o.pending > 0
  }

  function Gone(o: Owner, t: nat): Owner
    requires CanLeave(o, t)
  {
    o.(pending := o.pending - 1, runs := o.runs[t := o.runs[t].(phase := Left)])
  }

  /** `dispose` throws while a run is pending; otherwise it closes the owner and starts
      the cleanup unless one was started before. */
  function Disposed(o: Owner, built: bool): Owner {
    if o.pending != 0 then o
    else if o.disposal.Some? then o.(closed := true)
    else if o.schema.None? || !o.schema.value.creationAttempted then
      o.(closed := true, disposal := Some(Cleanup(Finished, 0)))
    else if !built then
      o.(closed := true, disposal := Some(Cleanup(Finished, 1)))
    else
      o.(closed := true,
         disposal := Some(Cleanup(Opening, 0)),
         log := o.log + [Issued(Cleaner, Connect)])
  }

  predicate CanSettleCleanup(o: Owner) {
    o.disposal.Some? && !o.disposal.value.phase.Finished? && o.schema.Some?
  }

  function AfterCleanupReply(o: Owner, r: Reply): Owner
    requires CanSettleCleanup(o)
  {
    var c := o.disposal.value;
    var a := OnCleanupReply(o.schema.value, c.phase, r);
    o.(schema := Some(a.schema),
       disposal := Some(Cleanup(a.next, c.failures + Count(a.failed))),
       log := o.log + [Settled(Cleaner, CleanupCallOf(c.phase), r)] + CleanupIssue(a.next))
  }

  predicate Enabled(o: Owner, e: Event) {
    match e
    case CallRun(_) => true
    case Resume(t, _) => CanResume(o, t)
    case Settle(t, _) => CanSettle(o, t)
    case Leave(t) => CanLeave(o, t)
    case CallDispose(_) => true
    case SettleCleanup(_) => CanSettleCleanup(o)
  }

  function Step(o: Owner, e: Event): Owner
    requires Enabled(o, e)
  {
    match e
    case CallRun(key) => Admit(o, key)
    case Resume(t, built) => Resumed(o, t, built)
    case Settle(t, r) => AfterReply(o, t, r)
    case Leave(t) => Gone(o, t)
    case CallDispose(built) => Disposed(o, built)
    case SettleCleanup(r) => AfterCleanupReply(o, r)
  }

  /** Whether a whole interleaving can happen from `o`, and where it leads. */
  predicate CanHappen(o: Owner, events: seq<Event>)
    decreases events
  {
    events == [] || (Enabled(o, events[0]) && CanHappen(Step(o, events[0]), events[1..]))
  }

  function After(o: Owner, events: seq<Event>): Owner
    requires CanHappen(o, events)
    decreases events
  {
    if events == [] then o else After(Step(o, events[0]), events[1..])
  }

  // ---- Turns ------------------------------------------------------------------------

  /** The run whose turn it is, when any run is pending. */
  function Turn(o: Owner): int {
    |o.runs| - o.pending
  }

  /** The runs before the turn have left, the runs after it wait, each for the one before;
      a closed owner has no pending run. */
  ghost predicate InTurn(o: Owner) {
    && o.pending <= |o.runs|
    && (forall t :: 0 <= t < Turn(o) ==> o.runs[t].phase.Left?)
    && (forall t :: Turn(o) < t < |o.runs| ==> o.runs[t].phase.Waiting?)
    && (o.pending > 0 ==> !o.runs[Turn(o)].phase.Left?)
    && (forall t :: 0 <= t < |o.runs| ==> o.runs[t].preceding == (if t == 0 then None else Some(t - 1)))
    && o.queue == (if o.runs == [] then None else Some(|o.runs| - 1))
    && (o.schema.None? <==> o.runs == [])
    && (o.disposal.Some? <==> o.closed)
    && (o.closed ==> o.pending == 0)
  }

  /** A run is in its body from the moment its wait ends until it leaves. */
  predicate InBody(p: Phase) {
    !p.Waiting? && !p.Left?
  }

  /** At most one run is in its body: the one whose turn it is. */
  lemma OneBodyAtATime(o: Owner, t: nat)
    requires InTurn(o) && t < |o.runs| && InBody(o.runs[t].phase)
    ensures t == Turn(o) && o.pending > 0
  {
  }

  /** The wait of a run ends only when its turn has come. */
  lemma ResumesInOrder(o: Owner, t: nat)
    requires InTurn(o) && CanResume(o, t)
    ensures t == Turn(o) && o.pending > 0
  {
    assert t > 0 ==> o.runs[t].preceding == Some(t - 1);
  }

  lemma MovingTheTurn(o: Owner, o': Owner, t: nat)
    requires InTurn(o) && o.pending > 0 && t == Turn(o)
    requires |o'.runs| == |o.runs| && o'.runs == o.runs[t := o'.runs[t]]
    requires o'.runs[t].preceding == o.runs[t].preceding && !o'.runs[t].phase.Left?
    requires o'.schema.Some? && o'.pending == o.pending && o'.queue == o.queue
    requires o'.closed == o.closed && o'.disposal == o.disposal
    ensures InTurn(o')
  {
  }

  lemma AdmittingKeepsTurns(o: Owner, key: Key)
    requires InTurn(o)
    ensures InTurn(Admit(o, key))
  {
  }

  lemma LeavingPassesTheTurn(o: Owner, t: nat)
    requires InTurn(o) && CanLeave(o, t)
    ensures InTurn(Gone(o, t)) && Turn(Gone(o, t)) == Turn(o) + 1
  {
    OneBodyAtATime(o, t);
  }

  lemma TurnsKeep(o: Owner, e: Event)
    requires InTurn(o) && Enabled(o, e)
    ensures InTurn(Step(o, e))
  {
    match e
    case CallRun(key) => AdmittingKeepsTurns(o, key);
    case Resume(t, built) =>
      ResumesInOrder(o, t);
      MovingTheTurn(o, Resumed(o, t, built), t);
    case Settle(t, r) =>
      OneBodyAtATime(o, t);
      MovingTheTurn(o, AfterReply(o, t, r), t);
    case Leave(t) => LeavingPassesTheTurn(o, t);
    case CallDispose(_) =>
    case SettleCleanup(_) =>
  }

  /** The runs that were admitted and have not left. */
  function Unfinished(runs: seq<Run>): nat {
    if runs == [] then 0
    else Unfinished(runs[..|runs| - 1]) + Count(!runs[|runs| - 1].phase.Left?)
  }

  /** The counter is the number of admitted runs that have not left. */
  lemma PendingCountsUnfinished(o: Owner)
    requires InTurn(o)
    ensures o.pending == Unfinished(o.runs)
  {
    CountFrom(o.runs, Turn(o));
  }

  lemma {:induction false} CountFrom(runs: seq<Run>, from: nat)
    requires from <= |runs|
    requires forall t :: 0 <= t < |runs| ==> (runs[t].phase.Left? <==> t < from)
    ensures Unfinished(runs) == |runs| - from
  {
    if runs != [] {
      var front := runs[..|runs| - 1];
      CountFrom(front, if from == |runs| then from - 1 else from);
    }
  }

  // ---- Progress ---------------------------------------------------------------------

  /** A bound on the steps a run still takes, the step that ends its wait included. */
  function StepsLeft(p: Phase): nat {
    match p
    case Waiting => 13
    case Connecting => 12
    case Creating => 11
    case Selecting => 10
    case Initializing => 9
    case Recording => 8
    case Reselecting => 10
    case Resetting => 9
    case Comparing => 8
    case Using => 7
    case RollingBack => 6
    case Clearing => 5
    case Closing => 4
    case Leaving => 3
    case Left => 0
  }

  /** A bound on the steps until a waiting run gets its turn. */
  function Distance(o: Owner, t: nat): int
    requires InTurn(o) && t < |o.runs|
  {
    if o.runs[t].phase.Waiting? then 14 * (t - Turn(o)) + StepsLeft(o.runs[Turn(o)].phase) else 0
  }

  predicate IsMove(e: Event) {
    e.Resume? || e.Settle? || e.Leave?
  }

  /** The run whose turn it is can always move, whatever the driver replies. */
  lemma SomeMoveIsEnabled(o: Owner, built: bool, r: Reply)
    requires InTurn(o) && o.pending > 0
    ensures var t := Turn(o);
            Enabled(o, Resume(t, built)) || Enabled(o, Settle(t, r)) || Enabled(o, Leave(t))
  {
    var t := Turn(o);
    assert o.runs[t].preceding == (if t == 0 then None else Some(t - 1));
  }

  lemma RepliesShortenTheBody(s: Schema, p: Phase, r: Reply)
    requires Awaits(p)
    ensures 0 < StepsLeft(OnReply(s, p, r).next) < StepsLeft(p)
    ensures InBody(OnReply(s, p, r).next)
  {
  }

  lemma DistanceShrinks(o: Owner, e: Event, t: nat)
    requires InTurn(o) && Enabled(o, e) && t < |o.runs|
    requires o.runs[t].phase.Waiting?
    ensures InTurn(Step(o, e)) && t < |Step(o, e).runs|
    ensures Distance(Step(o, e), t) <= Distance(o, t) - (if IsMove(e) then 1 else 0)
  {
    TurnsKeep(o, e);
    match e
    case CallRun(_) =>
    case Resume(u, _) => ResumesInOrder(o, u);
    case Settle(u, r) =>
      OneBodyAtATime(o, u);
      RepliesShortenTheBody(o.schema.value, o.runs[u].phase, r);
    case Leave(u) =>
      OneBodyAtATime(o, u);
      assert Turn(Gone(o, u)) == Turn(o) + 1 <= t;
    case CallDispose(_) =>
    case SettleCleanup(_) =>
  }

  function Moves(events: seq<Event>): nat {
    if events == [] then 0 else (if IsMove(events[0]) then 1 else 0) + Moves(events[1..])
  }

  lemma WaitsNoMore(o: Owner, e: Event, t: nat)
    requires InTurn(o) && Enabled(o, e) && t < |o.runs| && !o.runs[t].phase.Waiting?
    ensures InTurn(Step(o, e)) && t < |Step(o, e).runs| && !Step(o, e).runs[t].phase.Waiting?
  {
    TurnsKeep(o, e);
    if e.Settle? {
      RepliesShortenTheBody(o.schema.value, o.runs[e.ticket].phase, e.reply);
    }
  }

  /** Every admitted run gets its turn: no interleaving, with other runs admitted and
      disposals attempted in between, makes it wait past a number of moves fixed when it
      is admitted, and SomeMoveIsEnabled says that a move is there to be made. */
  lemma {:induction false} EveryRunGetsItsTurn(o: Owner, events: seq<Event>, t: nat)
    requires InTurn(o) && t < |o.runs| && CanHappen(o, events)
    requires Moves(events) >= Distance(o, t)
    ensures t < |After(o, events).runs| && !After(o, events).runs[t].phase.Waiting?
    decreases events
  {
    if events != [] {
      var o' := Step(o, events[0]);
      if o.runs[t].phase.Waiting? {
        DistanceShrinks(o, events[0], t);
      } else {
        WaitsNoMore(o, events[0], t);
      }
      EveryRunGetsItsTurn(o', events[1..], t);
    }
  }
}
