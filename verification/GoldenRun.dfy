/** Golden runs over one journal: `runMultiGolden` of
    scripts/megapot-base-sepolia-golden-multi.ts with the activities of
    scripts/megapot-golden-multi-activities.ts. A process may die at any point; what it did to
    the outside, the activities it started and the requests it sent, is kept as history, so
    what every run keeps holds over all sequences of runs. */
module GoldenRun {
  import opened Outcomes
  import opened GoldenAdmission
  import opened GoldenJournal

  /** What a run is authorized to do; the digest stands for the input file. */
  datatype RunPlan = RunPlan(
    participants: seq<Participant>,
    observeApp: bool,
    maxStudySubmissions: nat,
    maxKaraokeAttempts: nat,
    digest: string,
    funding: Option<string>)

  function NameOf(p: Participant, a: Activity): string {
    p.key + ":" + ActivityKey(a)
  }

  /** The participants whose activities the runner performs itself: all, or in the observing
      mode those without evidence. */
  predicate Performs(plan: RunPlan, p: Participant) {
    !(plan.observeApp && p.verified)
  }

  /** Every planned activity is recorded as completed. */
  predicate AllCompleted(plan: RunPlan, completed: seq<string>) {
    forall p | p in plan.participants :: forall a | a in p.activities :: NameOf(p, a) in completed
  }

  ghost predicate IsPerformed(plan: RunPlan, name: string) {
    exists p, a :: p in plan.participants && a in p.activities && Performs(plan, p) && name == NameOf(p, a)
  }

  datatype Outcome = NotStarted | Died | Threw | NotFunded | EvidenceIncomplete | ReconciliationRequired | Terminal

  datatype Step = Returned | Raised | Killed

  class Rehearsal {
    const plan: RunPlan
    const journal: JournalFile
    /** The activities ever started, and the requests ever sent. */
    ghost var started: seq<string>
    ghost var answersSent: nat
    ghost var attemptsSent: nat

    constructor (plan: RunPlan, c: Codec)
      requires Sound(c)
      ensures Valid() && fresh(journal) && this.plan == plan && started == [] && answersSent == attemptsSent == 0
    {
      this.plan := plan;
      journal := new JournalFile(c);
      started, answersSent, attemptsSent := [], 0, 0;
    }

    /** A state accounts for everything that was done: every activity started is completed or
        pending, every request sent is counted, and the counts are within the caps. Outside
        the observing mode nothing else is completed. */
    ghost predicate Accounts(s: JournalState)
      reads this
    {
      && (forall k :: 0 <= k < |started| ==> started[k] in s.completed || s.pending == Some(started[k]))
      && answersSent <= s.studySubmissions <= plan.maxStudySubmissions
      && attemptsSent <= s.karaokeAttempts <= plan.maxKaraokeAttempts
      && (!plan.observeApp ==> forall k :: 0 <= k < |s.completed| ==> s.completed[k] in started)
    }

    ghost predicate StartedOnce()
      reads this
    {
      && (forall i, j :: 0 <= i < j < |started| ==> started[i] != started[j])
      && (forall i :: 0 <= i < |started| ==> IsPerformed(plan, started[i]))
    }

    /** What holds between runs, and at every point of one. */
    ghost predicate Valid()
      reads this, journal
    {
      && journal.Valid()
      && StartedOnce()
      && (journal.saved.Some? ==> Accounts(journal.saved.value))
      && (journal.inFlight.Some? ==> Accounts(journal.inFlight.value))
      && (journal.saved.None? ==> started == [] && answersSent == attemptsSent == 0)
    }

    /** A process runs: it holds the journal open, and its state is the acknowledged one. */
    ghost predicate Running()
      reads this, journal
    {
      Valid() && journal.Open() && journal.saved == Some(journal.state) && journal.inFlight == None
    }

    /** The acknowledged state has nothing pending and every planned activity completed. */
    ghost predicate ReportsComplete()
      reads this, journal
    {
      && journal.saved == Some(journal.state)
      && journal.state.pending.None? && AllCompleted(plan, journal.state.completed)
    }

    method Save(next: JournalState) returns (alive: bool)
      requires Running() && Accounts(next)
      modifies journal
      ensures Valid() && journal.locked == old(journal.locked)
      ensures alive ==> Running() && journal.state == next
    {
      alive := journal.Save(next);
    }

    /** `submitAnswer`: counted before it is sent, up to the cap. As everywhere below, the
        process may die after the save is acknowledged and before what the save announces. */
    method SubmitAnswer() returns (step: Step)
      requires Running()
      modifies this`answersSent, journal
      ensures Valid() && answersSent <= old(answersSent) + 1
      ensures !step.Killed? ==> Running() && SameButCounts(old(journal.state), journal.state)
    {
      var late: bool := *;
      if late || journal.state.studySubmissions >= plan.maxStudySubmissions {
        return Raised;
      }
      var alive := Save(journal.state.(studySubmissions := journal.state.studySubmissions + 1));
      var dies: bool := *;
      if !alive || dies {
        return Killed;
      }
      answersSent := answersSent + 1;
      step := *;
    }

    /** `createAttempt` and `recordAttempt`. */
    method CreateAttempt(key: string) returns (step: Step)
      requires Running()
      modifies this`attemptsSent, journal
      ensures Valid() && attemptsSent <= old(attemptsSent) + 1
      ensures !step.Killed? ==> Running() && SameButCounts(old(journal.state), journal.state)
    {
      var late: bool := *;
      if late || journal.state.karaokeAttempts >= plan.maxKaraokeAttempts {
        return Raised;
      }
      var alive := Save(journal.state.(karaokeAttempts := journal.state.karaokeAttempts + 1));
      var dies: bool := *;
      if !alive || dies {
        return Killed;
      }
      attemptsSent := attemptsSent + 1;
      step := *;
      if step.Returned? {
        var session: string, attempt: string := *, *;
        alive := Save(journal.state.(attempts := journal.state.attempts + [Attempt(key, session, attempt)]));
        step := if alive then Returned else Killed;
      }
    }

    /** `runGoldenActivity`: any number of answers, or an attempt unless one was recorded. */
    method Perform(p: Participant, a: Activity) returns (step: Step)
      requires Running()
      modifies this`answersSent, this`attemptsSent, journal
      ensures Valid()
      ensures !step.Killed? ==> Running() && SameButCounts(old(journal.state), journal.state)
    {
      ghost var before := journal.state;
      if a.Study? {
        var answers: int := *;
        while answers > 0
          invariant Running() && SameButCounts(before, journal.state)
        {
          step := SubmitAnswer();
          if !step.Returned? {
            return;
          }
          answers := answers - 1;
        }
        return Returned;
      }
      if exists t | t in journal.state.attempts :: t.participantKey == p.key {
        return Returned;
      }
      step := CreateAttempt(p.key);
    }

    /** One activity: recorded as pending before it is started, and as completed after. */
    method RunActivity(p: Participant, a: Activity) returns (step: Step)
      requires Running() && journal.state.pending.None?
      requires p in plan.participants && a in p.activities && Performs(plan, p)
               && NameOf(p, a) !in journal.state.completed
      modifies this, journal
      ensures Valid()
      ensures !step.Killed? ==> Running()
      ensures step.Returned?
              ==> journal.state.pending.None?
                  && journal.state.completed == old(journal.state.completed) + [NameOf(p, a)]
      ensures old(started) <= started <= old(started) + [NameOf(p, a)]
    {
      var name := NameOf(p, a);
      var alive := Save(journal.state.(pending := Some(name)));
      var dies: bool := *;
      if !alive || dies {
        return Killed;
      }
      started := started + [name];
      step := Perform(p, a);
      if step.Returned? {
        alive := Save(journal.state.(pending := None, completed := journal.state.completed + [name]));
        step := if alive then Returned else Killed;
      }
    }

    /** The loops over participants and their activities. */
    method RunActivities() returns (step: Step)
      requires Running() && journal.state.pending.None?
      modifies this, journal
      ensures Valid() && old(started) <= started
      ensures !step.Killed? ==> Running()
      ensures step.Returned? ==> journal.state.pending.None?
      ensures step.Returned?
              ==> forall p :: p in plan.participants && Performs(plan, p) ==> HasCompleted(journal.state, p)
    {
      for i := 0 to |plan.participants|
        invariant Running() && journal.state.pending.None? && old(started) <= started
        invariant forall k ::
                    0 <= k < i && Performs(plan, plan.participants[k])
                    ==> HasCompleted(journal.state, plan.participants[k])
      {
        var p := plan.participants[i];
        if Performs(plan, p) {
          step := RunActivitiesOf(p);
          if !step.Returned? {
            return;
          }
        }
      }
      step := Returned;
    }

    /** An activity recorded as completed is skipped; the checks before one may fail. */
    method RunUnlessCompleted(p: Participant, a: Activity) returns (step: Step)
      requires Running() && journal.state.pending.None?
      requires p in plan.participants && a in p.activities && Performs(plan, p)
      modifies this, journal
      ensures Valid() && old(started) <= started
      ensures !step.Killed? ==> Running()
      ensures step.Returned? ==>
                journal.state.pending.None? && Extends(old(journal.state), journal.state)
                  && NameOf(p, a) in journal.state.completed
    {
      if NameOf(p, a) in journal.state.completed {
        return Returned;
      }
      var late: bool := *;
      if late {
        return Raised;
      }
      step := RunActivity(p, a);
    }

    method RunActivitiesOf(p: Participant) returns (step: Step)
      requires Running() && journal.state.pending.None? && p in plan.participants && Performs(plan, p)
      modifies this, journal
      ensures Valid() && old(started) <= started
      ensures !step.Killed? ==> Running()
      ensures step.Returned? ==> journal.state.pending.None? && HasCompleted(journal.state, p)
      ensures step.Returned? ==> Extends(old(journal.state), journal.state)
    {
      ghost var before := journal.state;
      for j := 0 to |p.activities|
        invariant Running() && journal.state.pending.None? && Extends(before, journal.state) && old(started) <= started
        invariant CompletedUpTo(journal.state, p, j)
      {
        ghost var earlier := journal.state;
        step := RunUnlessCompleted(p, p.activities[j]);
        if !step.Returned? {
          return;
        }
        OneMoreCompleted(before, earlier, journal.state, p, j);
      }
      step := Returned;
    }

    /** Preparing the pool changes only the leg, the funding effect and the drawing. */
    method PreparePool() returns (step: Step, funded: bool)
      requires Running() && journal.state.pending.None?
      modifies journal
      ensures Valid()
      ensures !step.Killed? ==> Running() && SameButCounts(old(journal.state), journal.state)
    {
      var leg: Option<string>, effect: Option<string>, drawing: Option<string> := *, *, *;
      var alive := Save(journal.state.(legId := leg, fundingEffectId := effect, drawingId := drawing));
      step, funded := if alive then Returned else Killed, *;
    }

    /** In the observing mode: once the admission is complete, every planned activity is
        recorded as completed; none is started. */
    method ObserveApp() returns (step: Step, complete: bool)
      requires Running() && journal.state.pending.None? && plan.observeApp
      modifies journal
      ensures Valid() && (!step.Killed? ==> Running())
      ensures step.Returned? ==> journal.state.pending.None?
      ensures step.Returned? && complete ==> AllCompleted(plan, journal.state.completed)
    {
      step, complete := *, *;
      if !step.Returned? || !complete {
        return;
      }
      for i := 0 to |plan.participants|
        invariant Running() && journal.state.pending.None?
        invariant forall k :: 0 <= k < i ==> HasCompleted(journal.state, plan.participants[k])
      {
        step := RecordObserved(plan.participants[i]);
        if !step.Returned? {
          return;
        }
      }
      step := Returned;
    }

    method RecordObserved(p: Participant) returns (step: Step)
      requires Running() && journal.state.pending.None? && plan.observeApp
      modifies journal
      ensures Valid() && (!step.Killed? ==> Running())
      ensures step.Returned? ==>
                journal.state.pending.None? && Extends(old(journal.state), journal.state)
                  && HasCompleted(journal.state, p)
    {
      ghost var before := journal.state;
      for j := 0 to |p.activities|
        invariant Running() && journal.state.pending.None? && Extends(before, journal.state)
        invariant CompletedUpTo(journal.state, p, j)
      {
        ghost var earlier := journal.state;
        var name := NameOf(p, p.activities[j]);
        if name !in journal.state.completed {
          var alive := Save(journal.state.(completed := journal.state.completed + [name]));
          if !alive {
            return Killed;
          }
        }
        OneMoreCompleted(before, earlier, journal.state, p, j);
      }
      step := Returned;
    }

    /** The part of a run that may start activities. It stops before any of them when an
        earlier run left one pending. */
    method Execute() returns (step: Step, outcome: Outcome)
      requires Running()
      modifies this, journal
      ensures Valid() && (!step.Killed? ==> Running()) && old(started) <= started
      ensures old(journal.state.pending.Some?) ==>
                step.Raised? && started == old(started) && answersSent == old(answersSent)
                  && attemptsSent == old(attemptsSent)
      ensures step.Returned? ==> !outcome.NotStarted?
      ensures step.Returned? && outcome.Terminal? ==> ReportsComplete()
    {
      outcome := Threw;
      var refused: bool := *;
      if journal.state.pending.Some? || refused {
        return Raised, outcome;
      }
      var funded: bool;
      step, funded := PreparePool();
      if !step.Returned? {
        return;
      }
      if !funded {
        return Returned, NotFunded;
      }
      step := RunActivities();
      if !step.Returned? {
        return;
      }
      if plan.observeApp {
        var complete: bool;
        step, complete := ObserveApp();
        if !step.Returned? {
          return;
        }
        if !complete {
          return Returned, EvidenceIncomplete;
        }
      }
      return Returned, Terminal;
    }

    /** Opening the journal keeps the accounts: what a process goes on from accounts for all
        that was done, and so does what it may leave in flight. */
    method BeginRun() returns (ok: bool)
      requires Valid()
      modifies journal
      ensures Valid() && (ok ==> Running())
      ensures old(journal.locked) ==> !ok
    {
      var begun := journal.Begin(plan.digest, plan.funding);
      ok := begun.Some?;
    }

    /** The last part of a run, which starts nothing and sends nothing. */
    method Reconcile(reconcileOnly: bool) returns (outcome: Outcome)
      requires Running()
      modifies journal
      ensures Valid() && !outcome.NotStarted?
      ensures outcome.Terminal? ==> ReportsComplete()
    {
      if reconcileOnly && journal.state.legId.Some? && journal.state.drawingId.None? {
        var recovered: Option<string> := *;
        var alive := Save(journal.state.(drawingId := recovered));
        if !alive {
          return Died;
        }
      }
      var settled: bool, threw: bool := *, *;
      journal.End();
      if threw || journal.state.legId.None? || journal.state.drawingId.None? {
        return Threw;
      }
      if !settled {
        return ReconciliationRequired;
      }
      if journal.state.pending.Some? || !AllCompleted(plan, journal.state.completed) {
        return EvidenceIncomplete;
      }
      return Terminal;
    }

    /** A run that may start activities, from the first check to the settlement. */
    method ExecuteAndReconcile() returns (outcome: Outcome)
      requires Running()
      modifies this, journal
      ensures Valid() && !outcome.NotStarted? && old(started) <= started
      ensures outcome.Terminal? ==> ReportsComplete()
    {
      var step: Step;
      step, outcome := Execute();
      if step.Killed? {
        return Died;
      }
      if step.Returned? && outcome.Terminal? {
        outcome := Reconcile(false);
      } else {
        journal.End();
        outcome := if step.Raised? then Threw else outcome;
      }
    }

    /** `runMultiGolden`: one run, by a process that may die. A run that only reconciles starts
        nothing and sends nothing, and a terminal settlement is returned only when nothing is
        pending and every planned activity is recorded as completed. */
    method RunMultiGolden(reconcileOnly: bool) returns (outcome: Outcome)
      requires Valid()
      modifies this, journal
      ensures Valid() && old(started) <= started
      ensures old(journal.locked) ==> outcome.NotStarted?
      ensures outcome.NotStarted? || reconcileOnly ==>
                started == old(started) && answersSent == old(answersSent) && attemptsSent == old(attemptsSent)
      ensures outcome.Terminal? ==> ReportsComplete()
    {
      var ok := BeginRun();
      if !ok {
        return NotStarted;
      }
      if reconcileOnly {
        outcome := Reconcile(true);
      } else {
        outcome := ExecuteAndReconcile();
      }
    }

    /** Any sequence of runs, between which the operator may remove a lock that a dead process
        left: each activity is started at most once, only planned ones that are the runner's
        to perform, and no more requests are sent than the caps allow. */
    method Rehearse(reconcileOnly: seq<bool>)
      requires Valid()
      modifies this, journal
      ensures Valid() && StartedOnce() && old(started) <= started
      ensures answersSent <= plan.maxStudySubmissions && attemptsSent <= plan.maxKaraokeAttempts
    {
      for i := 0 to |reconcileOnly|
        invariant Valid() && old(started) <= started
      {
        var _ := RunMultiGolden(reconcileOnly[i]);
        var removesLock: bool := *;
        if removesLock {
          journal.End();
        }
      }
    }
  }

  predicate HasCompleted(s: JournalState, p: Participant) {
    forall a | a in p.activities :: NameOf(p, a) in s.completed
  }

  ghost predicate CompletedUpTo(s: JournalState, p: Participant, j: nat) {
    forall k :: 0 <= k < j && k < |p.activities| ==> NameOf(p, p.activities[k]) in s.completed
  }

  lemma OneMoreCompleted(before: JournalState, s: JournalState, t: JournalState, p: Participant, j: nat)
    requires j < |p.activities| && Extends(before, s) && Extends(s, t) && CompletedUpTo(s, p, j)
    requires NameOf(p, p.activities[j]) in t.completed
    ensures Extends(before, t) && CompletedUpTo(t, p, j + 1)
  {
  }

  /** Nothing completed is lost. */
  ghost predicate Extends(s: JournalState, t: JournalState) {
    s.completed <= t.completed
  }

  predicate SameButCounts(s: JournalState, t: JournalState) {
    t.completed == s.completed && t.pending == s.pending
  }

  /** For participant keys without the delimiter, which is all the input schema admits, the
      names tell the activities apart: started at most once by name is at most once each. */
  lemma NamesTellActivitiesApart(p: Participant, a: Activity, q: Participant, b: Activity)
    requires ':' !in p.key && ':' !in q.key && NameOf(p, a) == NameOf(q, b)
    ensures p.key == q.key && a == b
  {
    JoinKeyTellsApart(Who(p.key, ActivityKey(a)), Who(q.key, ActivityKey(b)));
    assert ActivityKey(Study)[0] != ActivityKey(Karaoke)[0];
  }
}
