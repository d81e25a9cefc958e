/** The one-shot HTTP release of scripts/public-post-http-release-core.ts: apply, verify and
    rollback processes over one evidence store in which every record is created exclusively.
    What the providers, the clock and the candidate report is arbitrary at every call, and at
    every awaited call any other processes may take any number of steps. */
module HttpRelease {
  import opened Outcomes

  datatype Configuration = Configuration(bindings: string, settings: string, namespaces: string, domains: string,
                                         subdomain: string)

  datatype Snapshot = Snapshot(
    version: string,
    message: string,
    deployment: string,
    latest: string,
    configuration: Configuration,
    declaredComparable: string,
    actualComparable: string)

  datatype Candidate = Candidate(source: string, tree: string, moduleDigest: string, toolingSource: string)

  /** The fixed tuple of the operation. */
  datatype Release = Release(
    source: string,
    tree: string,
    base: string,
    baseline: string,
    moduleDigest: string,
    packet: string,
    bindings: string,
    settings: string,
    reviewKind: string)

  /** A digest stands for what it was computed from. */
  datatype Attempt = Attempt(source: string, moduleDigest: string, candidate: Candidate, before: Snapshot)

  datatype Recovery = Recovery(version: string, attempt: Attempt, configuration: Configuration)

  datatype Review = Review(
    kind: string,
    verdict: string,
    role: string,
    toolingSource: string,
    snapshot: Snapshot,
    source: string,
    moduleDigest: string,
    packet: string,
    baseline: string,
    windowStart: Option<int>,
    windowEnd: Option<int>,
    recovery: Option<Recovery>)

  datatype Evidence =
    | UploadAttempt(attempt: Attempt)
    | Acknowledgement(version: string, attempt: Attempt)
    | RollbackAttempt(from: string, observed: Snapshot, attempt: Attempt)
    | Note

  // ---- The checks -------------------------------------------------------------------

  predicate IsBaseline(r: Release, s: Snapshot, latest: string) {
    && s.version == r.baseline && s.message == "git:" + r.base
    && s.latest == latest
    && s.configuration.bindings == r.bindings
    && s.configuration.settings == r.settings
    && s.declaredComparable == s.actualComparable
  }

  predicate IsHex40(s: string) {
    |s| == 40 && forall i | 0 <= i < |s| :: '0' <= s[i] <= '9' || 'a' <= s[i] <= 'f'
  }

  predicate ReviewHolds(r: Release, review: Review, now: int, mutating: bool) {
    && review.kind == r.reviewKind && review.verdict == "accepted" && review.role == "independent_coordinator_reviewer"
    && review.source == r.source && review.moduleDigest == r.moduleDigest && review.packet == r.packet
      && review.baseline == r.baseline
    && IsHex40(review.toolingSource)
    && (mutating ==>
          && review.windowStart.Some? && review.windowEnd.Some?
          && review.windowStart.value <= now
          && review.windowEnd.value - now >= 190_000
          && review.windowEnd.value - review.windowStart.value <= 3_600_000)
  }

  predicate IsCandidate(r: Release, c: Candidate) {
    c.source == r.source && c.tree == r.tree && c.moduleDigest == r.moduleDigest
  }

  predicate ServesCandidate(r: Release, after: Snapshot, before: Snapshot) {
    && after.version != before.version && after.message == "git:" + r.source && after.latest == after.version
    && after.configuration == before.configuration
  }

  const ATTEMPT := "upload-attempt.json"
  const ACKNOWLEDGEMENT := "upload-acknowledgement.json"
  const ROLLBACK := "rollback-attempt.json"
  const READBACK := "upload-readback.json"
  const ROLLBACK_READBACK := "rollback-readback.json"

  /** `attempt`: the recorded upload attempt, if it is one of this release. */
  function RecordedAttempt(r: Release, records: map<string, Evidence>): Option<Attempt> {
    if ATTEMPT !in records || !records[ATTEMPT].UploadAttempt? then None
    else
      var a := records[ATTEMPT].attempt;
      if a.source == r.source && a.moduleDigest == r.moduleDigest
         && a.candidate.source == r.source && a.candidate.tree == r.tree && IsBaseline(r, a.before, a.before.version)
      then Some(a)
      else None
  }

  // ---- What is durable --------------------------------------------------------------

  datatype Kind = Upload | Rollback

  function AttemptName(kind: Kind): string {
    if kind.Upload? then ATTEMPT else ROLLBACK
  }

  /** A record that became durable, or a command that was sent, by a process. */
  datatype Entry = Recorded(who: nat, name: string) | Commanded(who: nat, kind: Kind)

  /** The process has recorded its attempt and has not sent a command of that kind. */
  predicate MaySend(log: seq<Entry>, who: nat, kind: Kind) {
    Recorded(who, AttemptName(kind)) in log && Commanded(who, kind) !in log
  }

  /** Records are exclusive, and a command is sent by a process that recorded its attempt
      before, and by no process twice. */
  ghost predicate LogHolds(log: seq<Entry>) {
    && (forall i, j :: 0 <= i < j < |log| && log[i].Recorded? && log[j].Recorded? ==> log[i].name != log[j].name)
    && (forall i :: 0 <= i < |log| && log[i].Commanded? ==> MaySend(log[..i], log[i].who, log[i].kind))
  }

  /** However the processes interleave and wherever they stop: at most one command of each
      kind is ever sent, and it is sent after its attempt became durable, by the process that
      recorded it. */
  lemma OneCommandOfEachKind(log: seq<Entry>, i: nat, j: nat)
    requires LogHolds(log) && i < |log| && j < |log|
    requires log[i].Commanded? && log[j].Commanded? && log[i].kind == log[j].kind
    ensures i == j
    ensures exists k :: 0 <= k < i && log[k] == Recorded(log[i].who, AttemptName(log[i].kind))
  {
    var k := RecordBefore(log, i);
    var l := RecordBefore(log, j);
    assert log[k].name == log[l].name;
    if i < j {
      NotTwice(log, i, j);
    } else if j < i {
      NotTwice(log, j, i);
    }
  }

  lemma RecordBefore(log: seq<Entry>, i: nat) returns (k: nat)
    requires LogHolds(log) && i < |log| && log[i].Commanded?
    ensures k < i && log[k] == Recorded(log[i].who, AttemptName(log[i].kind))
  {
    assert MaySend(log[..i], log[i].who, log[i].kind);
    k :| 0 <= k < i && log[..i][k] == Recorded(log[i].who, AttemptName(log[i].kind));
  }

  lemma NotTwice(log: seq<Entry>, i: nat, j: nat)
    requires LogHolds(log) && i < j < |log| && log[i].Commanded? && log[j].Commanded?
    ensures log[i] != log[j]
  {
    assert MaySend(log[..j], log[j].who, log[j].kind);
    assert log[..j][i] == log[i];
  }

  lemma LogGrows(log: seq<Entry>, e: Entry)
    requires LogHolds(log)
    requires if e.Commanded? then MaySend(log, e.who, e.kind)
               else forall i :: 0 <= i < |log| && log[i].Recorded? ==> log[i].name != e.name
    ensures LogHolds(log + [e])
  {
    var grown := log + [e];
    forall i | 0 <= i < |grown| && grown[i].Commanded? ensures MaySend(grown[..i], grown[i].who, grown[i].kind) {
      assert grown[..i] == log[..i];
      assert log[..|log|] == log;
    }
  }

  /** Records are never changed or removed. */
  ghost predicate Keeps(before: map<string, Evidence>, after: map<string, Evidence>) {
    forall name :: name in before ==> name in after && after[name] == before[name]
  }

  class Desk {
    var records: map<string, Evidence>
    var log: seq<Entry>

    constructor (records: map<string, Evidence>)
      ensures Valid() && this.records == records && log == []
    {
      this.records, log := records, [];
    }

    ghost predicate Valid()
      reads this
    {
      && LogHolds(log)
      && forall i :: 0 <= i < |log| && log[i].Recorded? ==> log[i].name in records
    }

    /** What one process does keeps every record and adds entries of its own. */
    twostate predicate Grew()
      reads this
    {
      old(log) <= log && Keeps(old(records), records)
    }

    /** `record`: exclusive, durable creation. */
    method Record(me: nat, name: string, e: Evidence) returns (ok: bool)
      requires Valid()
      modifies this
      ensures Valid() && Grew()
      ensures ok ==>
                && name !in old(records) && records == old(records)[name := e]
                && log == old(log) + [Recorded(me, name)]
      ensures !ok ==> records == old(records) && log == old(log)
    {
      ok := *;
      if name in records {
        ok := false;
      }
      if ok {
        LogGrows(log, Recorded(me, name));
        records := records[name := e];
        log := log + [Recorded(me, name)];
      }
    }

    /** The one command an attempt allows. */
    method Send(me: nat, kind: Kind)
      requires Valid() && MaySend(log, me, kind)
      modifies this`log
      ensures Valid() && log == old(log) + [Commanded(me, kind)]
    {
      LogGrows(log, Commanded(me, kind));
      log := log + [Commanded(me, kind)];
    }

    /** The steps other processes take while this one awaits: records and commands of their
        own, none of this process. */
    method Others(me: nat)
      requires Valid()
      modifies this
      ensures Valid() && Grew()
      ensures forall i :: |old(log)| <= i < |log| ==> log[i].who != me
    {
      var steps: int := *;
      while steps > 0
        invariant Valid() && Grew()
        invariant forall i :: |old(log)| <= i < |log| ==> log[i].who != me
      {
        var who: int, name: string, e: Evidence, kind: Kind := *, *, *, *;
        if who >= 0 && who != me {
          if MaySend(log, who, kind) {
            Send(who, kind);
          } else {
            var _ := Record(who, name, e);
          }
        }
        steps := steps - 1;
      }
    }
  }

  // ---- The operation ----------------------------------------------------------------

  /** The process has left no trace yet. */
  predicate IsNew(log: seq<Entry>, me: nat) {
    forall e | e in log :: e.who != me
  }

  /** The process sent no command but possibly one of that kind. */
  predicate SentOnly(log: seq<Entry>, me: nat, kind: Kind) {
    forall e | e in log && e.Commanded? && e.who == me :: e.kind == kind
  }

  /** What a successful apply leaves: the durable attempt and acknowledgement, and, in the last
      snapshot it saw, the acknowledged version serving the candidate under the configuration
      that was there before. */
  ghost predicate Applied(r: Release, desk: Desk, me: nat, version: string, before: Snapshot, last: Snapshot)
    reads desk
  {
    && Commanded(me, Upload) in desk.log
    && RecordedAttempt(r, desk.records).Some? && RecordedAttempt(r, desk.records).value.before == before
    && ACKNOWLEDGEMENT in desk.records
    && desk.records[ACKNOWLEDGEMENT] == Acknowledgement(version, RecordedAttempt(r, desk.records).value)
    && last.version == version && ServesCandidate(r, last, before) && IsBaseline(r, before, before.version)
    && READBACK in desk.records
  }

  /** What a successful rollback leaves: in the last snapshot it saw, the baseline serving
      under the configuration of the recorded attempt, the uploaded version still the latest. */
  ghost predicate RolledBack(r: Release, desk: Desk, me: nat, from: string, last: Snapshot)
    reads desk
  {
    && Commanded(me, Rollback) in desk.log
    && RecordedAttempt(r, desk.records).Some?
    && IsBaseline(r, last, from)
    && last.configuration == RecordedAttempt(r, desk.records).value.before.configuration
    && ROLLBACK in desk.records && desk.records[ROLLBACK].RollbackAttempt? && desk.records[ROLLBACK].from == from
    && ROLLBACK_READBACK in desk.records
  }

  /** The candidate and the review, before anything else. */
  method Start(r: Release, review: Review, mutating: bool) returns (ok: bool, candidate: Candidate)
    ensures ok ==> IsCandidate(r, candidate) && candidate.toolingSource == review.toolingSource
  {
    candidate := *;
    var now: int := *;
    ok := IsCandidate(r, candidate) && ReviewHolds(r, review, now, mutating)
      && candidate.toolingSource == review.toolingSource;
  }

  /** The last checks before an upload, and the durable attempt. */
  method RecordUploadAttempt(desk: Desk, me: nat, r: Release, review: Review, candidate: Candidate, before: Snapshot)
    returns (ok: bool)
    requires desk.Valid() && IsNew(desk.log, me)
    requires IsCandidate(r, candidate) && IsBaseline(r, before, before.version)
    modifies desk
    ensures desk.Valid() && desk.Grew() && SentOnly(desk.log, me, Upload)
    ensures ok ==> MaySend(desk.log, me, Upload)
    ensures ok ==> RecordedAttempt(r, desk.records) == Some(Attempt(r.source, r.moduleDigest, candidate, before))
  {
    var now: int, again: Candidate, collected: Snapshot := *, *, *;
    desk.Others(me);
    OthersKeepNew(old(desk.log), desk.log, me);
    if !ReviewHolds(r, review, now, true) || again != candidate || collected != before {
      return false;
    }
    ok := desk.Record(me, ATTEMPT, UploadAttempt(Attempt(r.source, r.moduleDigest, candidate, before)));
  }

  /** The command itself, and the record of its result. */
  method SendCommand(desk: Desk, me: nat, kind: Kind, resultName: string) returns (ok: bool)
    requires desk.Valid() && MaySend(desk.log, me, kind) && SentOnly(desk.log, me, kind)
    modifies desk
    ensures desk.Valid() && desk.Grew() && SentOnly(desk.log, me, kind) && Commanded(me, kind) in desk.log
  {
    hide LogHolds;
    hide MaySend;
    desk.Send(me, kind);
    SentGrows(old(desk.log), Commanded(me, kind), me, kind);
    ghost var sent := desk.log;
    desk.Others(me);
    OthersKeepSent(sent, desk.log, me, kind);
    ghost var awaited := desk.log;
    SentGrows(awaited, Recorded(me, resultName), me, kind);
    var exitCode: int := *;
    ok := desk.Record(me, resultName, Note);
    ok := ok && exitCode == 0;
  }

  lemma SentGrows(log: seq<Entry>, e: Entry, me: nat, kind: Kind)
    requires SentOnly(log, me, kind) && (e.Commanded? ==> e.kind == kind)
    ensures SentOnly(log + [e], me, kind) && e in log + [e] && forall f :: f in log ==> f in log + [e]
  {
  }

  lemma OthersKeepNew(before: seq<Entry>, after: seq<Entry>, me: nat)
    requires IsNew(before, me) && OthersOnly(before, after, me)
    ensures IsNew(after, me)
  {
  }

  lemma OthersKeepSent(before: seq<Entry>, after: seq<Entry>, me: nat, kind: Kind)
    requires SentOnly(before, me, kind) && OthersOnly(before, after, me)
    ensures SentOnly(after, me, kind)
    ensures forall e :: e in before ==> e in after
    ensures MaySend(before, me, kind) ==> MaySend(after, me, kind)
  {
  }

  /** The commit of an upload: the last checks, the durable attempt, the command. */
  method CommitUpload(desk: Desk, me: nat, r: Release, review: Review, candidate: Candidate, before: Snapshot)
    returns (ok: bool)
    requires desk.Valid() && IsNew(desk.log, me)
    requires IsCandidate(r, candidate) && IsBaseline(r, before, before.version)
    modifies desk
    ensures desk.Valid() && desk.Grew() && SentOnly(desk.log, me, Upload)
    ensures ok ==> Commanded(me, Upload) in desk.log
    ensures ok ==> RecordedAttempt(r, desk.records) == Some(Attempt(r.source, r.moduleDigest, candidate, before))
  {
    ok := RecordUploadAttempt(desk, me, r, review, candidate, before);
    if ok {
      var threw: bool := *;
      ok := SendCommand(desk, me, Upload, if threw then "upload-command-error.json" else "upload-command-result.json");
      ok := ok && !threw;
    }
  }

  /** `verify`: observed, its modules checked, and observed again. */
  method VerifyServing(desk: Desk, me: nat, r: Release, before: Snapshot) returns (after: Option<Snapshot>)
    requires desk.Valid()
    modifies desk
    ensures desk.Valid() && desk.Grew() && OthersOnly(old(desk.log), desk.log, me)
    ensures after.Some? ==> ServesCandidate(r, after.value, before)
  {
    var seen: Snapshot, modules: bool, collected: Snapshot := *, *, *;
    desk.Others(me);
    after := if ServesCandidate(r, seen, before) && modules && collected == seen then Some(seen) else None;
  }

  /** After the upload: the acknowledgement, and the version seen serving. */
  method AcknowledgeAndVerify(desk: Desk, me: nat, r: Release, attempt: Attempt)
    returns (version: Option<string>, ghost last: Snapshot)
    requires desk.Valid() && SentOnly(desk.log, me, Upload) && Commanded(me, Upload) in desk.log
    requires RecordedAttempt(r, desk.records) == Some(attempt)
    modifies desk
    ensures desk.Valid() && desk.Grew() && SentOnly(desk.log, me, Upload)
    ensures version.Some? ==> Applied(r, desk, me, version.value, attempt.before, last)
  {
    hide LogHolds;
    hide IsBaseline;
    version, last := None, attempt.before;
    var acknowledged: string := *;
    if acknowledged == "" || acknowledged == attempt.before.version {
      return;
    }
    var ok := desk.Record(me, ACKNOWLEDGEMENT, Acknowledgement(acknowledged, RecordedAttempt(r, desk.records).value));
    if !ok {
      return;
    }
    ghost var noted := desk.log;
    SentGrows(old(desk.log), Recorded(me, ACKNOWLEDGEMENT), me, Upload);
    var after := VerifyServing(desk, me, r, attempt.before);
    OthersKeepSent(noted, desk.log, me, Upload);
    var again: Candidate := *;
    if after.None? || after.value.version != acknowledged || again != attempt.candidate {
      return;
    }
    SentGrows(desk.log, Recorded(me, READBACK), me, Upload);
    ok := desk.Record(me, READBACK, Note);
    if ok {
      version, last := Some(acknowledged), after.value;
    }
  }

  /** One apply. Whatever the other processes do, it sends no command but an upload, after its
      durable attempt. */
  method Apply(desk: Desk, me: nat, r: Release, review: Review)
    returns (version: Option<string>, ghost before: Snapshot, ghost last: Snapshot)
    requires desk.Valid() && IsNew(desk.log, me)
    modifies desk
    ensures desk.Valid() && desk.Grew() && SentOnly(desk.log, me, Upload)
    ensures version.Some? ==> Applied(r, desk, me, version.value, before, last) && before == review.snapshot
  {
    hide LogHolds;
    hide ReviewHolds;
    version := None;
    var ok, candidate := Start(r, review, true);
    var attempted := ATTEMPT in desk.records;
    var collected: Snapshot := *;
    before, last := collected, collected;
    desk.Others(me);
    OthersKeepNew(old(desk.log), desk.log, me);
    if !ok || attempted || !IsBaseline(r, collected, collected.version) || collected != review.snapshot {
      return;
    }
    ok := CommitUpload(desk, me, r, review, candidate, collected);
    if ok {
      version, last := AcknowledgeAndVerify(desk, me, r, Attempt(r.source, r.moduleDigest, candidate, collected));
    }
  }

  /** The entries added were other processes'. */
  predicate OthersOnly(before: seq<Entry>, after: seq<Entry>, me: nat) {
    before <= after && forall i | |before| <= i < |after| :: after[i].who != me
  }

  // ---- Verify -----------------------------------------------------------------------

  datatype Verdict = Refused | ServesBaseline(seen: Snapshot) | ServesUpload(seen: Snapshot)

  /** An acknowledgement or a rollback of this attempt that names the version. */
  predicate Names(records: map<string, Evidence>, name: string, attempt: Attempt, version: string) {
    && name in records
    && match records[name]
       case Acknowledgement(v, a) => a == attempt && v == version
       case RollbackAttempt(from, _, a) => a == attempt && from == version
       case _ => false
  }

  /** One verify: it sends no command, and says that the baseline is restored or that the
      candidate serves only for an upload attempt of this release. */
  method Verify(desk: Desk, me: nat, r: Release, review: Review, noteName: string) returns (verdict: Verdict)
    requires desk.Valid() && IsNew(desk.log, me)
    modifies desk
    ensures desk.Valid() && desk.Grew()
    ensures Commanded(me, Upload) !in desk.log && Commanded(me, Rollback) !in desk.log
    ensures !verdict.Refused? ==> RecordedAttempt(r, desk.records).Some?
    ensures verdict.ServesBaseline? ==>
              && IsBaseline(r, verdict.seen, verdict.seen.latest)
              && verdict.seen.configuration == RecordedAttempt(r, desk.records).value.before.configuration
              && (verdict.seen.latest == verdict.seen.version
                  || Names(desk.records, ACKNOWLEDGEMENT, RecordedAttempt(r, desk.records).value, verdict.seen.latest)
                  || Names(desk.records, ROLLBACK, RecordedAttempt(r, desk.records).value, verdict.seen.latest))
    ensures verdict.ServesUpload? ==> ServesCandidate(r, verdict.seen, RecordedAttempt(r, desk.records).value.before)
  {
    hide LogHolds;
    hide ReviewHolds;
    hide IsBaseline;
    verdict := Refused;
    var ok, _ := Start(r, review, false);
    var attempt := RecordedAttempt(r, desk.records);
    if !ok || attempt.None? {
      return;
    }
    var current: Snapshot := *;
    ghost var first := desk.log;
    desk.Others(me);
    OthersKeepNew(first, desk.log, me);
    if current.version == attempt.value.before.version {
      if (current.latest == current.version
          || Names(desk.records, ACKNOWLEDGEMENT, attempt.value, current.latest)
          || Names(desk.records, ROLLBACK, attempt.value, current.latest))
         && IsBaseline(r, current, current.latest)
         && current.configuration == attempt.value.before.configuration
      {
        verdict := ServesBaseline(current);
      }
      return;
    }
    if ACKNOWLEDGEMENT in desk.records && !Names(desk.records, ACKNOWLEDGEMENT, attempt.value, current.version) {
      return;
    }
    ghost var second := desk.log;
    var after := VerifyServing(desk, me, r, attempt.value.before);
    OthersKeepNew(second, desk.log, me);
    if after.Some? {
      ok := desk.Record(me, noteName, Note);
      verdict := if ok then ServesUpload(after.value) else Refused;
    }
  }

  // ---- Rollback ---------------------------------------------------------------------

  /** The checks of a rollback on what it sees: the reviewed, uploaded version serves, and it
      is the acknowledged one when one was acknowledged. */
  predicate MayRollBack(r: Release, records: map<string, Evidence>, attempt: Attempt, recovery: Recovery, from: string,
                        current: Snapshot)
  {
    && recovery.attempt == attempt
    && current.version == from == recovery.version
    && current.version != r.baseline && current.message == "git:" + r.source && current.latest == current.version
    && (ACKNOWLEDGEMENT in records ==> Names(records, ACKNOWLEDGEMENT, attempt, current.version))
    && current.configuration == recovery.configuration
  }

  /** The checks, the durable rollback attempt, and the checks again that the provider makes
      before it sends the command. */
  method RecordRollbackAttempt(desk: Desk, me: nat, r: Release, review: Review, from: string, attempt: Attempt)
    returns (ok: bool)
    requires desk.Valid() && IsNew(desk.log, me) && RecordedAttempt(r, desk.records) == Some(attempt)
    modifies desk
    ensures desk.Valid() && desk.Grew() && SentOnly(desk.log, me, Rollback)
    ensures ok ==> MaySend(desk.log, me, Rollback)
    ensures ok ==> ROLLBACK in desk.records && desk.records[ROLLBACK].RollbackAttempt?
                   && desk.records[ROLLBACK].from == from && desk.records[ROLLBACK].attempt == attempt
    ensures ok ==>
              && review.recovery.Some?
              && review.recovery.value.attempt == attempt && review.recovery.value.version == from
  {
    hide LogHolds;
    hide ReviewHolds;
    hide IsBaseline;
    ok := false;
    var current: Snapshot, again: Snapshot := *, *;
    desk.Others(me);
    OthersKeepNew(old(desk.log), desk.log, me);
    if review.recovery.None? || !MayRollBack(r, desk.records, attempt, review.recovery.value, from, current)
      || again != current {
      return;
    }
    ghost var noted := desk.log;
    ok := desk.Record(me, ROLLBACK, RollbackAttempt(from, current, attempt));
    if !ok {
      return;
    }
    SentGrows(noted, Recorded(me, ROLLBACK), me, Rollback);
    ghost var recorded := desk.log;
    desk.Others(me);
    OthersKeepSent(recorded, desk.log, me, Rollback);
    var now: int, seen: Snapshot, same: bool := *, *, *;
    ok := ReviewHolds(r, review, now, true) && seen == current && same;
  }

  /** One rollback. It sends no command but a rollback, after its durable attempt, and only
      for a version that the review names with this upload attempt. */
  method RollBack(desk: Desk, me: nat, r: Release, review: Review, from: string)
    returns (version: Option<string>, ghost last: Snapshot)
    requires desk.Valid() && IsNew(desk.log, me)
    modifies desk
    ensures desk.Valid() && desk.Grew() && SentOnly(desk.log, me, Rollback)
    ensures version.Some? ==> version.value == last.version && RolledBack(r, desk, me, from, last)
    ensures version.Some? ==> review.recovery.Some? && review.recovery.value.version == from
                              && Some(review.recovery.value.attempt) == RecordedAttempt(r, desk.records)
  {
    hide LogHolds;
    hide ReviewHolds;
    hide IsBaseline;
    version := None;
    var restored: Snapshot := *;
    last := restored;
    var ok, _ := Start(r, review, true);
    var attempt := RecordedAttempt(r, desk.records);
    if !ok || attempt.None? {
      return;
    }
    ok := RecordRollbackAttempt(desk, me, r, review, from, attempt.value);
    if !ok {
      return;
    }
    ok := SendCommand(desk, me, Rollback, "rollback-command-result.json");
    if !ok {
      return;
    }
    ghost var sent := desk.log;
    desk.Others(me);
    OthersKeepSent(sent, desk.log, me, Rollback);
    if !IsBaseline(r, restored, from) || restored.configuration != attempt.value.before.configuration {
      return;
    }
    SentGrows(desk.log, Recorded(me, ROLLBACK_READBACK), me, Rollback);
    ok := desk.Record(me, ROLLBACK_READBACK, Note);
    if ok {
      version := Some(restored.version);
    }
  }
}
