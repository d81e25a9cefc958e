/** What the reusable schema owner promises about its driver calls, over every
    interleaving of `run`, `dispose` and driver replies: calls never overlap, bodies come
    in the order their runs were admitted, the cleanup comes once and last, CREATE is
    issued at most once, a fixture body is started only on a freshly prepared schema and
    never after a preparation failed, and DROP is issued only for a schema whose CREATE
    returned. */
module SchemaOwnerHistory {
  import opened Outcomes
  import opened SchemaOwner

  // ---- What a history says ----------------------------------------------------------

  predicate IsIssue(e: Entry, call: Call) {
    e.Issued? && e.call == call
  }

  predicate IsReturn(e: Entry, call: Call) {
    e.Settled? && e.call == call && e.reply.Returned?
  }

  ghost predicate CreateIssued(log: seq<Entry>) {
    exists i :: 0 <= i < |log| && IsIssue(log[i], Create)
  }

  ghost predicate CreateReturned(log: seq<Entry>) {
    exists i :: 0 <= i < |log| && IsReturn(log[i], Create)
  }

  ghost predicate PreparationFailed(log: seq<Entry>) {
    exists i :: 0 <= i < |log| && log[i].PrepareFailed?
  }

  /** The history ends with a fingerprint that was read right after `call` returned. */
  predicate EndsWithFingerprintAfter(log: seq<Entry>, call: Call) {
    var n := |log|;
    && n >= 3
    && IsReturn(log[n - 3], call)
    && IsReturn(log[n - 1], Fingerprint)
    && log[n - 3].who == log[n - 1].who
  }

  /** The fingerprint read right after the schema was initialised. */
  function Recorded(log: seq<Entry>): Option<string> {
    if log == [] then None
    else if EndsWithFingerprintAfter(log, Initialize) then Some(log[|log| - 1].reply.text)
    else Recorded(log[..|log| - 1])
  }

  /** The schema was just initialised or just reset by `who`, and the fingerprint read
      after that is the recorded one. */
  predicate Prepared(log: seq<Entry>, who: Actor) {
    && (EndsWithFingerprintAfter(log, Initialize) || EndsWithFingerprintAfter(log, Reset))
    && log[|log| - 1].who == who
    && Recorded(log) == Some(log[|log| - 1].reply.text)
  }

  /** Tickets in the order they were given out, then the cleanup. */
  predicate InOrder(earlier: Actor, later: Actor) {
    later.Cleaner? || (earlier.Ticket? && earlier.number <= later.number)
  }

  /** No driver call is outstanding. */
  predicate Quiet(log: seq<Entry>) {
    log == [] || !log[|log| - 1].Issued?
  }

  ghost predicate OrderedBefore(log: seq<Entry>, who: Actor) {
    forall i :: 0 <= i < |log| ==> InOrder(log[i].who, who)
  }

  ghost predicate CleanupUnstarted(log: seq<Entry>) {
    forall i :: 0 <= i < |log| ==> !log[i].who.Cleaner?
  }

  /** What must hold of the history when an entry is added to it. */
  ghost predicate MayFollow(before: seq<Entry>, e: Entry) {
    && OrderedBefore(before, e.who)
    && (e.Issued? ==> Quiet(before))
    && (e.Settled? ==> before != [] && before[|before| - 1] == Issued(e.who, e.call))
    && (IsIssue(e, Create) ==> e.who.Ticket? && !CreateIssued(before))
    && (IsIssue(e, Use) ==> e.who.Ticket? && Prepared(before, e.who) && !PreparationFailed(before))
    && (IsIssue(e, Drop) ==> e.who.Cleaner? && CreateReturned(before))
    && (IsIssue(e, Connect) && e.who.Cleaner? ==> CleanupUnstarted(before))
  }

  ghost predicate Safe(log: seq<Entry>) {
    forall n :: 0 <= n < |log| ==> MayFollow(log[..n], log[n])
  }

  lemma SafeGrows(log: seq<Entry>, e: Entry)
    requires Safe(log) && MayFollow(log, e)
    ensures Safe(log + [e])
  {
    var grown := log + [e];
    forall n | 0 <= n < |grown| ensures MayFollow(grown[..n], grown[n]) {
      assert grown[..n] == log[..n];
      assert log[..|log|] == log;
    }
  }

  lemma FactsGrow(log: seq<Entry>, e: Entry)
    ensures CreateIssued(log + [e]) <==> CreateIssued(log) || IsIssue(e, Create)
    ensures CreateReturned(log + [e]) <==> CreateReturned(log) || IsReturn(e, Create)
    ensures PreparationFailed(log + [e]) <==> PreparationFailed(log) || e.PrepareFailed?
    ensures CleanupUnstarted(log + [e]) <==> CleanupUnstarted(log) && !e.who.Cleaner?
  {
    var grown := log + [e];
    assert grown[|log|] == e;
    assert forall i :: 0 <= i < |log| ==> grown[i] == log[i];
  }

  lemma RecordGrows(log: seq<Entry>, e: Entry)
    ensures Recorded(log + [e])
         == if EndsWithFingerprintAfter(log + [e], Initialize) then Some(e.reply.text) else Recorded(log)
  {
    assert (log + [e])[..|log|] == log;
  }

  // ---- How the owner's fields and its history agree ---------------------------------

  ghost predicate Agrees(log: seq<Entry>, s: Schema) {
    && (CreateIssued(log) ==> s.creationAttempted)
    && (s.created ==> CreateReturned(log))
    && (PreparationFailed(log) ==> s.prepareFailed)
    && Recorded(log) == s.fingerprint
    && (s.initialized ==> s.creationAttempted)
  }

  /** One more entry that tells nothing about the schema. */
  predicate Silent(log: seq<Entry>, e: Entry) {
    && !IsIssue(e, Create)
    && !e.PrepareFailed?
    && !EndsWithFingerprintAfter(log + [e], Initialize)
  }

  lemma AgreesThroughSilence(log: seq<Entry>, e: Entry, s: Schema)
    requires Agrees(log, s) && Silent(log, e)
    ensures Agrees(log + [e], s)
  {
    FactsGrow(log, e);
    RecordGrows(log, e);
  }

  predicate Preparing(p: Phase) {
    || p.Creating? || p.Selecting? || p.Initializing? || p.Recording?
    || p.Reselecting? || p.Resetting? || p.Comparing?
  }

  predicate FirstTime(p: Phase) {
    p.Creating? || p.Selecting? || p.Initializing? || p.Recording?
  }

  /** What holds of the schema and the history while a run awaits the call of phase `p`. */
  ghost predicate AwaitingRun(log: seq<Entry>, s: Schema, p: Phase, t: nat)
    requires Awaits(p)
  {
    && log != [] && log[|log| - 1] == Issued(Ticket(t), CallOf(p))
    && (Preparing(p) ==> !s.prepareFailed && s.creationAttempted)
    && (FirstTime(p) ==> !s.initialized)
    && (p.Recording? ==> |log| >= 2 && IsReturn(log[|log| - 2], Initialize) && log[|log| - 2].who == Ticket(t))
    && (p.Comparing? ==> |log| >= 2 && IsReturn(log[|log| - 2], Reset) && log[|log| - 2].who == Ticket(t))
    && (!FirstTime(p) && s.creationAttempted ==> s.initialized || s.prepareFailed)
  }

  predicate DropIsDue(p: CleanupPhase) {
    p.Restoring? || p.Wiping? || p.Checking? || p.Detaching? || p.Dropping? || p.Verifying?
  }

  ghost predicate AwaitingCleanup(log: seq<Entry>, p: CleanupPhase)
    requires !p.Finished?
  {
    && log != [] && log[|log| - 1] == Issued(Cleaner, CleanupCallOf(p))
    && (p.Checking? ==> |log| >= 2 && IsReturn(log[|log| - 2], Reset))
    && (DropIsDue(p) ==> CreateReturned(log))
  }

  /** No call is outstanding, and a schema whose creation was attempted is either usable
      or known to have failed. */
  ghost predicate AtRest(log: seq<Entry>, s: Schema) {
    Quiet(log) && (s.creationAttempted ==> s.initialized || s.prepareFailed)
  }

  lemma OrderGrows(log: seq<Entry>, e: Entry, who: Actor)
    requires OrderedBefore(log, who) && InOrder(e.who, who)
    ensures OrderedBefore(log + [e], who)
  {
  }

  /** The reply closes the outstanding call. */
  function WithReply(log: seq<Entry>, who: Actor, call: Call, r: Reply): seq<Entry> {
    log + [Settled(who, call, r)]
  }

  lemma ReplyMayFollow(log: seq<Entry>, who: Actor, call: Call, r: Reply)
    requires Safe(log) && OrderedBefore(log, who)
    requires log != [] && log[|log| - 1] == Issued(who, call)
    ensures Safe(WithReply(log, who, call, r)) && OrderedBefore(WithReply(log, who, call, r), who)
    ensures Quiet(WithReply(log, who, call, r))
  {
    SafeGrows(log, Settled(who, call, r));
    OrderGrows(log, Settled(who, call, r), who);
  }

  /** The schema's fields before any note of a failed preparation. */
  function Learnt(s: Schema, p: Phase, r: Reply): Schema {
    if r.Threw? then s
    else match p
      case Creating => s.(created := true)
      case Recording => s.(fingerprint := Some(r.text), initialized := true)
      case _ => s
  }

  lemma ReplyIsLearnt(log: seq<Entry>, s: Schema, p: Phase, t: nat, r: Reply)
    requires Awaits(p) && Agrees(log, s) && AwaitingRun(log, s, p, t)
    ensures Agrees(WithReply(log, Ticket(t), CallOf(p), r), Learnt(s, p, r))
  {
    var e := Settled(Ticket(t), CallOf(p), r);
    FactsGrow(log, e);
    RecordGrows(log, e);
    assert |log| >= 2 ==> (log + [e])[|log| - 2] == log[|log| - 2];
  }

  /** The note that a preparation failed. */
  lemma RefusalIsSafe(log: seq<Entry>, s: Schema, t: nat)
    requires Safe(log) && Agrees(log, s) && OrderedBefore(log, Ticket(t)) && Quiet(log)
    ensures var log' := log + [PrepareFailed(Ticket(t))];
            Safe(log') && Agrees(log', s.(prepareFailed := true)) && OrderedBefore(log', Ticket(t)) && Quiet(log')
  {
    var e := PrepareFailed(Ticket(t));
    SafeGrows(log, e);
    FactsGrow(log, e);
    RecordGrows(log, e);
    OrderGrows(log, e, Ticket(t));
  }

  /** A run issues its next call. */
  lemma IssueIsSafe(log: seq<Entry>, s: Schema, p: Phase, t: nat)
    requires Awaits(p) && Safe(log) && OrderedBefore(log, Ticket(t)) && Quiet(log)
    requires Agrees(log, s)
    requires p.Creating? ==> s.creationAttempted && !CreateIssued(log)
    requires p.Using? ==> Prepared(log, Ticket(t)) && !PreparationFailed(log)
    ensures var log' := log + [Issued(Ticket(t), CallOf(p))];
            Safe(log') && Agrees(log', s) && OrderedBefore(log', Ticket(t))
  {
    var e := Issued(Ticket(t), CallOf(p));
    SafeGrows(log, e);
    FactsGrow(log, e);
    RecordGrows(log, e);
    OrderGrows(log, e, Ticket(t));
  }

  /** A body is started right after the fingerprint that shows the schema as recorded. */
  lemma UseIsPrepared(log: seq<Entry>, s: Schema, p: Phase, t: nat, r: Reply)
    requires Awaits(p) && Agrees(log, s) && AwaitingRun(log, s, p, t)
    requires OnReply(s, p, r).next.Using?
    ensures var log' := WithReply(log, Ticket(t), CallOf(p), r);
            Prepared(log', Ticket(t)) && !PreparationFailed(log')
  {
    var log' := WithReply(log, Ticket(t), CallOf(p), r);
    FactsGrow(log, Settled(Ticket(t), CallOf(p), r));
    ReplyIsLearnt(log, s, p, t, r);
    assert log'[|log'| - 3] == log[|log| - 2];
  }

  /** The history after a run took a reply. */
  function AfterRunReply(log: seq<Entry>, s: Schema, p: Phase, t: nat, r: Reply): seq<Entry>
    requires Awaits(p)
  {
    var a := OnReply(s, p, r);
    WithReply(log, Ticket(t), CallOf(p), r)
    + (if a.prepareFailed then [PrepareFailed(Ticket(t))] else [])
    + Issue(Ticket(t), a.next)
  }

  lemma CreateIsFirst(log: seq<Entry>, s: Schema, p: Phase, t: nat, r: Reply)
    requires Awaits(p) && Agrees(log, s) && AwaitingRun(log, s, p, t)
    requires OnReply(s, p, r).next.Creating?
    ensures !CreateIssued(WithReply(log, Ticket(t), CallOf(p), r))
  {
    FactsGrow(log, Settled(Ticket(t), CallOf(p), r));
  }

  /** A reply changes the schema's fields by what was learnt from it, except that the
      first CREATE is noted as attempted before it is issued. */
  lemma FieldsAfterReply(s: Schema, p: Phase, r: Reply)
    requires Awaits(p)
    ensures var a := OnReply(s, p, r);
            if a.prepareFailed then a.next.RollingBack? && Learnt(s, p, r) == s && a.schema == s.(prepareFailed := true)
            else if a.next.Creating? then Learnt(s, p, r) == s && a.schema == s.(creationAttempted := true)
            else a.schema == Learnt(s, p, r)
  {
  }

  lemma FieldsAgree(log: seq<Entry>, s: Schema, p: Phase, t: nat, r: Reply)
    requires Awaits(p) && Agrees(log, s) && AwaitingRun(log, s, p, t) && !OnReply(s, p, r).prepareFailed
    ensures Agrees(WithReply(log, Ticket(t), CallOf(p), r), OnReply(s, p, r).schema)
  {
    ReplyIsLearnt(log, s, p, t, r);
    FieldsAfterReply(s, p, r);
  }

  lemma IssueOrRest(log: seq<Entry>, s: Schema, p: Phase, t: nat)
    requires Safe(log) && OrderedBefore(log, Ticket(t)) && Quiet(log) && Agrees(log, s)
    requires p.Creating? ==> s.creationAttempted && !CreateIssued(log)
    requires p.Using? ==> Prepared(log, Ticket(t)) && !PreparationFailed(log)
    ensures var log' := log + Issue(Ticket(t), p);
            Safe(log') && OrderedBefore(log', Ticket(t)) && Agrees(log', s) && (!Awaits(p) ==> Quiet(log'))
  {
    if Awaits(p) {
      IssueIsSafe(log, s, p, t);
    } else {
      assert log + [] == log;
    }
  }

  lemma RunRefuses(log: seq<Entry>, s: Schema, p: Phase, t: nat, r: Reply)
    requires Awaits(p) && Safe(log) && OrderedBefore(log, Ticket(t)) && Agrees(log, s)
    requires AwaitingRun(log, s, p, t) && OnReply(s, p, r).prepareFailed
    ensures var log' := AfterRunReply(log, s, p, t, r);
            Safe(log') && OrderedBefore(log', Ticket(t)) && Agrees(log', OnReply(s, p, r).schema)
  {
    var log1 := WithReply(log, Ticket(t), CallOf(p), r);
    ReplyMayFollow(log, Ticket(t), CallOf(p), r);
    ReplyIsLearnt(log, s, p, t, r);
    FieldsAfterReply(s, p, r);
    RefusalIsSafe(log1, s, t);
    IssueOrRest(log1 + [PrepareFailed(Ticket(t))], s.(prepareFailed := true), RollingBack, t);
  }

  lemma RunGoesOn(log: seq<Entry>, s: Schema, p: Phase, t: nat, r: Reply)
    requires Awaits(p) && Safe(log) && OrderedBefore(log, Ticket(t)) && Agrees(log, s)
    requires AwaitingRun(log, s, p, t) && !OnReply(s, p, r).prepareFailed
    ensures var log' := AfterRunReply(log, s, p, t, r);
            Safe(log') && OrderedBefore(log', Ticket(t)) && Agrees(log', OnReply(s, p, r).schema)
  {
    var a := OnReply(s, p, r);
    var log1 := WithReply(log, Ticket(t), CallOf(p), r);
    ReplyMayFollow(log, Ticket(t), CallOf(p), r);
    FieldsAgree(log, s, p, t, r);
    if a.next.Creating? { CreateIsFirst(log, s, p, t, r); }
    if a.next.Using? { UseIsPrepared(log, s, p, t, r); }
    FieldsAfterReply(s, p, r);
    IssueOrRest(log1, a.schema, a.next, t);
    assert log1 + [] == log1;
  }

  /** What the next call of a run may rely on. */
  lemma NextCallAwaits(log: seq<Entry>, s: Schema, p: Phase, t: nat, r: Reply)
    requires Awaits(p) && Agrees(log, s) && AwaitingRun(log, s, p, t)
    ensures var a := OnReply(s, p, r); var log' := AfterRunReply(log, s, p, t, r);
            if Awaits(a.next) then AwaitingRun(log', a.schema, a.next, t) else AtRest(log', a.schema)
  {
    var a := OnReply(s, p, r);
    var log1 := WithReply(log, Ticket(t), CallOf(p), r);
    var before := if a.prepareFailed then log1 + [PrepareFailed(Ticket(t))] else log1;
    assert log1 + [] == log1;
    if Awaits(a.next) {
      assert AfterRunReply(log, s, p, t, r) == before + [Issued(Ticket(t), CallOf(a.next))];
    } else {
      assert before + [] == before;
    }
  }

  // ---- The disposal -----------------------------------------------------------------

  lemma EverythingPrecedesTheCleanup(log: seq<Entry>)
    ensures OrderedBefore(log, Cleaner)
  {
  }

  function AfterCleanup(log: seq<Entry>, s: Schema, p: CleanupPhase, r: Reply): seq<Entry>
    requires !p.Finished?
  {
    WithReply(log, Cleaner, CleanupCallOf(p), r) + CleanupIssue(OnCleanupReply(s, p, r).next)
  }

  lemma CleanupReplyAgrees(log: seq<Entry>, s: Schema, p: CleanupPhase, r: Reply)
    requires !p.Finished? && Agrees(log, s) && AwaitingCleanup(log, p)
    ensures var log1 := WithReply(log, Cleaner, CleanupCallOf(p), r);
            && Agrees(log1, s)
            && Agrees(log1, OnCleanupReply(s, p, r).schema)
            && (DropIsDue(OnCleanupReply(s, p, r).next) ==> CreateReturned(log1))
  {
    var e := Settled(Cleaner, CleanupCallOf(p), r);
    assert |log| >= 2 ==> (log + [e])[|log| - 2] == log[|log| - 2];
    AgreesThroughSilence(log, e, s);
    FactsGrow(log, e);
  }

  lemma CleanupIssueIsSafe(log: seq<Entry>, s: Schema, p: CleanupPhase)
    requires !p.Finished? && Safe(log) && Quiet(log) && Agrees(log, s)
    requires DropIsDue(p) ==> CreateReturned(log)
    requires p.Opening? ==> CleanupUnstarted(log)
    ensures var log' := log + [Issued(Cleaner, CleanupCallOf(p))];
            Safe(log') && Agrees(log', s) && (DropIsDue(p) ==> CreateReturned(log'))
  {
    var e := Issued(Cleaner, CleanupCallOf(p));
    EverythingPrecedesTheCleanup(log);
    SafeGrows(log, e);
    AgreesThroughSilence(log, e, s);
    FactsGrow(log, e);
  }

  lemma CleanupGoesOn(log: seq<Entry>, s: Schema, p: CleanupPhase, r: Reply)
    requires !p.Finished? && Safe(log) && Agrees(log, s) && AwaitingCleanup(log, p)
    ensures var a := OnCleanupReply(s, p, r); var log' := AfterCleanup(log, s, p, r);
            && Safe(log') && Agrees(log', a.schema)
            && (if a.next.Finished? then Quiet(log') else AwaitingCleanup(log', a.next))
  {
    var a := OnCleanupReply(s, p, r);
    var log1 := WithReply(log, Cleaner, CleanupCallOf(p), r);
    EverythingPrecedesTheCleanup(log);
    ReplyMayFollow(log, Cleaner, CleanupCallOf(p), r);
    CleanupReplyAgrees(log, s, p, r);
    if a.next.Finished? {
      assert log1 + [] == log1;
    } else {
      CleanupIssueIsSafe(log1, a.schema, a.next);
    }
  }

  // ---- Every reachable owner --------------------------------------------------------

  ghost predicate Linked(o: Owner) {
    && InTurn(o)
    && Safe(o.log)
    && (o.schema.None? ==> o.log == [])
    && (o.schema.Some? ==> Agrees(o.log, o.schema.value))
    && (o.schema.Some? && o.disposal.None? ==> LinkedToRuns(o))
    && (o.disposal.Some? && o.disposal.value.phase.Finished? ==> Quiet(o.log))
    && (o.disposal.Some? && !o.disposal.value.phase.Finished? ==> AwaitingCleanup(o.log, o.disposal.value.phase))
  }

  ghost predicate LinkedToRuns(o: Owner)
    requires InTurn(o) && o.schema.Some?
  {
    && OrderedBefore(o.log, Ticket(Turn(o)))
    && (if o.pending > 0 && Awaits(o.runs[Turn(o)].phase)
        then AwaitingRun(o.log, o.schema.value, o.runs[Turn(o)].phase, Turn(o))
        else AtRest(o.log, o.schema.value))
  }

  lemma ResumingKeepsLinks(o: Owner, t: nat, built: bool)
    requires Linked(o) && CanResume(o, t)
    ensures Linked(Resumed(o, t, built))
  {
    ResumesInOrder(o, t);
    TurnsKeep(o, Resume(t, built));
    if built {
      IssueIsSafe(o.log, o.schema.value, Connecting, t);
    }
  }

  /** The history a run leaves after a reply, whether it goes on or refuses. */
  lemma RunReplyIsSafe(log: seq<Entry>, s: Schema, p: Phase, t: nat, r: Reply)
    requires Awaits(p) && Safe(log) && OrderedBefore(log, Ticket(t)) && Agrees(log, s)
    requires AwaitingRun(log, s, p, t)
    ensures var log' := AfterRunReply(log, s, p, t, r);
            Safe(log') && OrderedBefore(log', Ticket(t)) && Agrees(log', OnReply(s, p, r).schema)
  {
    if OnReply(s, p, r).prepareFailed {
      RunRefuses(log, s, p, t, r);
    } else {
      RunGoesOn(log, s, p, t, r);
    }
  }

  /** Everything a reply to a run preserves, in terms of the history alone. */
  ghost predicate RunLinks(log: seq<Entry>, s: Schema, p: Phase, t: nat) {
    && Safe(log) && OrderedBefore(log, Ticket(t)) && Agrees(log, s)
    && (if Awaits(p) then AwaitingRun(log, s, p, t) else AtRest(log, s))
  }

  lemma RunReplyLinks(log: seq<Entry>, s: Schema, p: Phase, t: nat, r: Reply)
    requires Awaits(p) && RunLinks(log, s, p, t)
    ensures RunLinks(AfterRunReply(log, s, p, t, r), OnReply(s, p, r).schema, OnReply(s, p, r).next, t)
  {
    NextCallAwaits(log, s, p, t, r);
    RunReplyIsSafe(log, s, p, t, r);
  }

  lemma TurnLinks(o: Owner, t: nat)
    requires InTurn(o) && o.pending > 0 && t == Turn(o) && o.disposal.None? && o.schema.Some?
    ensures Linked(o) <==> RunLinks(o.log, o.schema.value, o.runs[t].phase, t)
  {
  }

  lemma ReplyMovesTheTurn(o: Owner, t: nat, r: Reply)
    requires InTurn(o) && CanSettle(o, t)
    ensures t == Turn(o) && o.pending > 0 && o.disposal.None?
    ensures var o' := AfterReply(o, t, r); var a := OnReply(o.schema.value, o.runs[t].phase, r);
            && InTurn(o') && o'.pending > 0 && Turn(o') == t && o'.disposal.None?
            && o'.schema == Some(a.schema) && o'.runs[t].phase == a.next
            && o'.log == AfterRunReply(o.log, o.schema.value, o.runs[t].phase, t, r)
  {
    OneBodyAtATime(o, t);
    TurnsKeep(o, Settle(t, r));
  }

  lemma ReplyingKeepsLinks(o: Owner, t: nat, r: Reply)
    requires Linked(o) && CanSettle(o, t)
    ensures Linked(AfterReply(o, t, r))
  {
    ReplyMovesTheTurn(o, t, r);
    TurnLinks(o, t);
    RunReplyLinks(o.log, o.schema.value, o.runs[t].phase, t, r);
    TurnLinks(AfterReply(o, t, r), t);
  }

  lemma LeavingKeepsLinks(o: Owner, t: nat)
    requires Linked(o) && CanLeave(o, t)
    ensures Linked(Gone(o, t))
  {
    OneBodyAtATime(o, t);
    LeavingPassesTheTurn(o, t);
  }

  lemma AdmittingKeepsLinks(o: Owner, key: Key)
    requires Linked(o)
    ensures Linked(Admit(o, key))
  {
    AdmittingKeepsTurns(o, key);
    if Admits(o, key) {
      assert Turn(Admit(o, key)) == Turn(o);
    }
  }

  lemma DisposingKeepsLinks(o: Owner, built: bool)
    requires Linked(o)
    ensures Linked(Disposed(o, built))
  {
    TurnsKeep(o, CallDispose(built));
    if Disposed(o, built).log != o.log {
      CleanupIssueIsSafe(o.log, o.schema.value, Opening);
    }
  }

  lemma CleaningKeepsLinks(o: Owner, r: Reply)
    requires Linked(o) && CanSettleCleanup(o)
    ensures Linked(AfterCleanupReply(o, r))
  {
    TurnsKeep(o, SettleCleanup(r));
    CleanupGoesOn(o.log, o.schema.value, o.disposal.value.phase, r);
  }

  lemma LinksKeep(o: Owner, e: Event)
    requires Linked(o) && Enabled(o, e)
    ensures Linked(Step(o, e))
  {
    match e
    case CallRun(key) => AdmittingKeepsLinks(o, key);
    case Resume(t, built) => ResumingKeepsLinks(o, t, built);
    case Settle(t, r) => ReplyingKeepsLinks(o, t, r);
    case Leave(t) => LeavingKeepsLinks(o, t);
    case CallDispose(built) => DisposingKeepsLinks(o, built);
    case SettleCleanup(r) => CleaningKeepsLinks(o, r);
  }

  lemma {:induction false} LinksKeepThroughout(o: Owner, events: seq<Event>)
    requires Linked(o) && CanHappen(o, events)
    ensures Linked(After(o, events))
    decreases events
  {
    if events != [] {
      LinksKeep(o, events[0]);
      LinksKeepThroughout(Step(o, events[0]), events[1..]);
    }
  }

  /** Every interleaving of a new owner has a safe history, runs one body at a time in the
      order of admission, and counts exactly the unfinished runs as pending. */
  lemma EveryInterleavingIsSafe(events: seq<Event>)
    requires CanHappen(NEW_OWNER, events)
    ensures var o := After(NEW_OWNER, events);
            Safe(o.log) && InTurn(o) && o.pending == Unfinished(o.runs)
  {
    LinksKeepThroughout(NEW_OWNER, events);
    PendingCountsUnfinished(After(NEW_OWNER, events));
  }

  // ---- What a safe history rules out ------------------------------------------------

  /** CREATE is issued at most once, and the cleanup connects at most once. */
  lemma OnceOnly(log: seq<Entry>, i: nat, j: nat)
    requires Safe(log) && i < j < |log|
    ensures IsIssue(log[i], Create) ==> !IsIssue(log[j], Create)
    ensures log[i] == Issued(Cleaner, Connect) ==> log[j] != Issued(Cleaner, Connect)
  {
    assert log[..j][i] == log[i] && MayFollow(log[..j], log[j]);
  }

  /** What two actors do to the driver never interleaves: once a later actor made a call,
      an earlier one makes none. */
  lemma NoOverlap(log: seq<Entry>, i: nat, j: nat)
    requires Safe(log) && i <= j < |log|
    ensures InOrder(log[i].who, log[j].who)
  {
    assert i < j ==> log[..j][i] == log[i] && MayFollow(log[..j], log[j]);
  }

  /** A fixture body never starts after a preparation failed, whichever run it was in. */
  lemma NoUseAfterFailure(log: seq<Entry>, i: nat, j: nat)
    requires Safe(log) && i < j < |log| && log[i].PrepareFailed?
    ensures !IsIssue(log[j], Use)
  {
    assert log[..j][i] == log[i] && MayFollow(log[..j], log[j]);
  }

  // ---- What a result means ----------------------------------------------------------

  ghost predicate BodyReturned(log: seq<Entry>, t: nat) {
    exists i :: 0 <= i < |log| && IsReturn(log[i], Use) && log[i].who == Ticket(t)
  }

  predicate PastUse(p: Phase) {
    p.RollingBack? || p.Clearing? || p.Closing? || p.Leaving? || p.Left?
  }

  ghost predicate SuccessMeansUse(o: Owner) {
    forall t :: 0 <= t < |o.runs| && PastUse(o.runs[t].phase) && o.runs[t].failures == 0 ==> BodyReturned(o.log, t)
  }

  lemma BodyReturnedStays(log: seq<Entry>, suffix: seq<Entry>, t: nat)
    requires BodyReturned(log, t)
    ensures BodyReturned(log + suffix, t)
  {
    var i :| 0 <= i < |log| && IsReturn(log[i], Use) && log[i].who == Ticket(t);
    assert (log + suffix)[i] == log[i];
  }

  lemma HistoryGrows(o: Owner, e: Event)
    requires Enabled(o, e)
    ensures o.log <= Step(o, e).log
  {
  }

  lemma ReplySuccessMeansUse(o: Owner, t: nat, r: Reply)
    requires CanSettle(o, t) && SuccessMeansUse(o)
    requires PastUse(AfterReply(o, t, r).runs[t].phase) && AfterReply(o, t, r).runs[t].failures == 0
    ensures BodyReturned(AfterReply(o, t, r).log, t)
  {
    var p := o.runs[t].phase;
    var a := OnReply(o.schema.value, p, r);
    if p.Using? {
      assert AfterReply(o, t, r).log[|o.log|] == Settled(Ticket(t), Use, r);
    } else {
      assert PastUse(p);
      HistoryGrows(o, Settle(t, r));
      BodyReturnedStays(o.log, AfterReply(o, t, r).log[|o.log|..], t);
    }
  }

  lemma SuccessKeepsMeaningUse(o: Owner, e: Event)
    requires Enabled(o, e) && SuccessMeansUse(o)
    ensures SuccessMeansUse(Step(o, e))
  {
    var o' := Step(o, e);
    HistoryGrows(o, e);
    forall t | 0 <= t < |o'.runs| && PastUse(o'.runs[t].phase) && o'.runs[t].failures == 0
      ensures BodyReturned(o'.log, t)
    {
      if e.Settle? && e.ticket == t {
        ReplySuccessMeansUse(o, t, e.reply);
      } else {
        assert PastUse(o.runs[t].phase) && o.runs[t].failures == 0;
        BodyReturnedStays(o.log, o'.log[|o.log|..], t);
      }
    }
  }

  /** The catalog was asked last and answered that the schema is not there. */
  ghost predicate ConfirmedAbsent(log: seq<Entry>) {
    exists i :: 0 <= i < |log| && IsReturn(log[i], Exists) && !log[i].reply.present
  }

  predicate Confirmed(p: CleanupPhase) {
    p.Undoing? || p.Unsetting? || p.Shutting? || p.Finished?
  }

  ghost predicate SuccessMeansAbsent(o: Owner) {
    o.disposal.Some? && o.schema.Some? ==>
      && (o.disposal.value.phase.Confirming? ==> !o.schema.value.created)
      && (o.schema.value.creationAttempted && Confirmed(o.disposal.value.phase) && o.disposal.value.failures == 0
          ==> !o.schema.value.created && ConfirmedAbsent(o.log))
  }

  lemma SuccessKeepsMeaningAbsent(o: Owner, e: Event)
    requires InTurn(o) && Enabled(o, e) && SuccessMeansAbsent(o)
    ensures SuccessMeansAbsent(Step(o, e))
  {
    var o' := Step(o, e);
    HistoryGrows(o, e);
    if e.SettleCleanup? {
      assert o'.log[|o.log|] == Settled(Cleaner, CleanupCallOf(o.disposal.value.phase), e.reply);
    }
    if ConfirmedAbsent(o.log) {
      var i :| 0 <= i < |o.log| && IsReturn(o.log[i], Exists) && !o.log[i].reply.present;
      assert o'.log[i] == o.log[i];
    }
  }

  lemma {:induction false} ResultsKeepTheirMeaning(o: Owner, events: seq<Event>)
    requires CanHappen(o, events) && InTurn(o) && SuccessMeansUse(o) && SuccessMeansAbsent(o)
    ensures SuccessMeansUse(After(o, events)) && SuccessMeansAbsent(After(o, events))
    decreases events
  {
    if events != [] {
      TurnsKeep(o, events[0]);
      SuccessKeepsMeaningUse(o, events[0]);
      SuccessKeepsMeaningAbsent(o, events[0]);
      ResultsKeepTheirMeaning(Step(o, events[0]), events[1..]);
    }
  }

  /** In every interleaving a run that ends without a failure had its fixture body return,
      and a disposal that ends without one was told by the catalog that a schema whose
      creation was attempted is gone. */
  lemma ResultsAreEarned(events: seq<Event>)
    requires CanHappen(NEW_OWNER, events)
    ensures var o := After(NEW_OWNER, events); SuccessMeansUse(o) && SuccessMeansAbsent(o)
  {
    ResultsKeepTheirMeaning(NEW_OWNER, events);
  }
}
