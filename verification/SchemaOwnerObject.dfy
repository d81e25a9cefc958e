/** The owner object of scripts/postgres-test-baseline.ts: the closure's variables and the
    schema's state are fields that each step updates in place. Every method is proved to
    do to the fields what the corresponding step of SchemaOwner says, so the fields of any
    owner, after any calls of its methods, are those of an interleaving that
    SchemaOwnerHistory speaks about. */
module SchemaOwnerObject {
  import opened Outcomes
  import opened SchemaOwner

  class SchemaState {
    const key: Key
    var creationAttempted: bool
    var created: bool
    var initialized: bool
    var catalogFingerprint: Option<string>
    var prepareFailed: bool

    constructor (key: Key)
      ensures this.key == key && View() == NewSchema(key)
    {
      this.key := key;
      creationAttempted, created, initialized := false, false, false;
      catalogFingerprint, prepareFailed := None, false;
    }

    ghost function View(): Schema
      reads this
    {
      Schema(key, creationAttempted, created, initialized, catalogFingerprint, prepareFailed)
    }

    /** One settled call of a run, the calls of `prepareReusableSchema` among them. */
    method Reply(p: Phase, r: SchemaOwner.Reply) returns (next: Phase, failed: bool, refused: bool)
      requires Awaits(p)
      modifies this
      ensures OnReply(old(View()), p, r) == Advance(next, View(), failed, refused)
    {
      failed, refused := r.Threw?, false;
      match p {
      case Connecting =>
        next := Closing;
        if !failed {
          if prepareFailed {
            refused := true;
          } else if initialized {
            next := Reselecting;
          } else {
            creationAttempted := true;
            next := Creating;
          }
        }
      case Creating =>
        created, next, refused := created || !failed, Selecting, failed;
      case Selecting =>
        next, refused := Initializing, failed;
      case Initializing =>
        next, refused := Recording, failed;
      case Recording =>
        if !failed {
          catalogFingerprint, initialized := Some(r.text), true;
        }
        next, refused := Using, failed;
      case Reselecting =>
        next, refused := Resetting, failed;
      case Resetting =>
        next, refused := Comparing, failed;
      case Comparing =>
        next, refused := Using, failed || catalogFingerprint != Some(r.text);
      case Using =>
        next := RollingBack;
      case RollingBack =>
        next := Clearing;
      case Clearing =>
        next := Closing;
      case Closing =>
        next := Leaving;
      }
      if refused {
        prepareFailed, failed, next := true, true, RollingBack;
      }
    }

    /** One settled call of `cleanupReusableSchema`. */
    method CleanupReply(p: CleanupPhase, r: SchemaOwner.Reply) returns (next: CleanupPhase, failed: bool)
      requires !p.Finished?
      modifies this
      ensures OnCleanupReply(old(View()), p, r) == CleanupAdvance(next, View(), failed)
    {
      failed := r.Threw?;
      match p
      case Opening =>
        next :=
          if failed then Shutting
          else if !created then Confirming
          else if initialized then Restoring
          else Detaching;
      case Confirming =>
        next, failed := Undoing, failed || r.present;
      case Restoring =>
        next := if failed then Detaching else Wiping;
      case Wiping =>
        next := if failed then Detaching else Checking;
      case Checking =>
        next, failed := Detaching, failed || catalogFingerprint != Some(r.text);
      case Detaching =>
        next := Dropping;
      case Dropping =>
        next := Verifying;
      case Verifying =>
        next, failed := Undoing, failed || r.present;
        if !failed {
          created, initialized := false, false;
        }
      case Undoing =>
        next := Unsetting;
      case Unsetting =>
        next := Shutting;
      case Shutting =>
        next := Finished;
    }
  }

  class ReusableSchemaOwner {
    var state: SchemaState?
    var pending: nat
    var queue: Option<nat>
    var closed: bool
    var disposal: Option<Cleanup>
    var runs: seq<Run>
    ghost var log: seq<Entry>

    constructor ()
      ensures View() == NEW_OWNER && fresh(Footprint())
    {
      state, pending, queue, closed, disposal, runs, log := null, 0, None, false, None, [], [];
    }

    ghost function Footprint(): set<object>
      reads this
    {
      if state == null then {this} else {this, state}
    }

    ghost function View(): Owner
      reads Footprint()
    {
      Owner(if state == null then None else Some(state.View()), pending, queue, closed, disposal, runs, log)
    }

    /** The synchronous prefix of `run`: the ticket, or a rejection. */
    method Run(key: Key) returns (ticket: Option<nat>)
      modifies this
      ensures View() == Admit(old(View()), key)
      ensures fresh(Footprint() - old(Footprint()))
      ensures ticket == if Admits(old(View()), key) then Some(|old(runs)|) else None
    {
      if closed {
        return None;
      }
      if state == null {
        state := new SchemaState(key);
      }
      if state.key != key {
        return None;
      }
      pending := pending + 1;
      var preceding := queue;
      ticket := Some(|runs|);
      queue := ticket;
      runs := runs + [SchemaOwner.Run(preceding, Waiting, 0)];
    }

    /** The wait for the preceding run is over: the client is built and connects. */
    method BeginBody(t: nat, built: bool)
      requires CanResume(View(), t)
      modifies this
      ensures View() == Resumed(old(View()), t, built) && state == old(state)
    {
      if built {
        runs := runs[t := runs[t].(phase := Connecting)];
        log := log + [Issued(Ticket(t), Connect)];
      } else {
        runs := runs[t := runs[t].(phase := Leaving, failures := runs[t].failures + 1)];
      }
    }

    /** A driver call, or the fixture body, of run `t` settled. */
    method SettleRun(t: nat, r: Reply)
      requires CanSettle(View(), t)
      modifies Footprint()
      ensures View() == AfterReply(old(View()), t, r) && state == old(state)
    {
      var run := runs[t];
      var next, failed, refused := state.Reply(run.phase, r);
      runs := runs[t := run.(phase := next, failures := run.failures + Count(failed))];
      log := log + [Settled(Ticket(t), CallOf(run.phase), r)]
      + (if refused then [PrepareFailed(Ticket(t))] else [])
      + Issue(Ticket(t), next);
    }

    /** The `finally` of `run`: the counter drops and the next run's wait resolves. */
    method EndBody(t: nat)
      requires CanLeave(View(), t)
      modifies this
      ensures View() == Gone(old(View()), t) && state == old(state)
    {
      pending := pending - 1;
      runs := runs[t := runs[t].(phase := Left)];
    }

    /** The synchronous prefix of `dispose`; `started` tells whether it did not throw. */
    method Dispose(built: bool) returns (started: bool)
      modifies this
      ensures View() == Disposed(old(View()), built) && state == old(state)
      ensures started <==> old(pending) == 0
    {
      if pending != 0 {
        return false;
      }
      closed := true;
      if disposal.None? {
        if state == null || !state.creationAttempted {
          disposal := Some(Cleanup(Finished, 0));
        } else if !built {
          disposal := Some(Cleanup(Finished, 1));
        } else {
          disposal := Some(Cleanup(Opening, 0));
          log := log + [Issued(Cleaner, Connect)];
        }
      }
      return true;
    }

    /** A driver call of the cleanup settled. */
    method SettleDisposal(r: Reply)
      requires CanSettleCleanup(View())
      modifies Footprint()
      ensures View() == AfterCleanupReply(old(View()), r) && state == old(state)
    {
      var c := disposal.value;
      var next, failed := state.CleanupReply(c.phase, r);
      disposal := Some(Cleanup(next, c.failures + Count(failed)));
      log := log + [Settled(Cleaner, CleanupCallOf(c.phase), r)] + CleanupIssue(next);
    }
  }
}
