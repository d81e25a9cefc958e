/** scripts/karaoke-private-writer.ts and the append of
    scripts/karaoke-maintenance-journal.ts: one directory of files, changed one durable
    step at a time. Any file operation may fail, and a write that fails leaves arbitrary
    content under its new name; `trace` records every state the directory passes through,
    so what is proved of the trace is proved of a crash at any point. */
module KaraokeWriter {
  import opened Outcomes
  import opened KaraokeOrder
  import opened KaraokeJournal
  import opened KaraokeAppend

  datatype Written = Done | Present | Faulted

  /** The directory holds nothing but a lock. */
  predicate IsNewJournal(s: Store) {
    s.Keys <= {Lock}
  }

  class PrivateDirectory {
    var files: Store
    var faults: seq<bool>
    const torn: Name -> Bytes
    ghost var trace: seq<Store>

    constructor (files: Store, faults: seq<bool>, torn: Name -> Bytes)
      ensures this.files == files && this.faults == faults && trace == []
    {
      this.files, this.faults, this.torn, trace := files, faults, torn, [];
    }

    /** Every state since the `from`-th only added files to `s0`. */
    ghost predicate OnlyAdded(s0: Store, from: nat)
      reads this
    {
      && from <= |trace|
      && Before(s0, files)
      && forall k :: from <= k < |trace| ==> Before(s0, trace[k])
    }

    /** No operation to come fails. */
    predicate Calm()
      reads this
    {
      true !in faults
    }

    /** Whether the next operation fails. */
    method Strikes() returns (fails: bool)
      modifies this`faults
      ensures old(Calm()) ==> !fails && Calm()
    {
      if faults == [] {
        return false;
      }
      fails, faults := faults[0], faults[1..];
    }

    /** `writeNew`: exclusive creation, write and sync of one file. */
    method WriteNew(name: Name, bytes: Bytes, ghost s0: Store, ghost from: nat) returns (r: Written)
      requires name != Manifest && OnlyAdded(s0, from)
      modifies this
      ensures OnlyAdded(s0, from)
      ensures r.Present? <==> name in old(files)
      ensures r.Present? ==> files == old(files) && trace == old(trace)
      ensures r.Done? ==> files == old(files)[name := bytes]
      ensures r.Faulted? ==> files == old(files) || files == old(files)[name := torn(name)]
      ensures old(Calm()) ==> Calm() && !r.Faulted?
    {
      if name in files {
        return Present;
      }
      var early := Strikes();
      if early {
        return Faulted;
      }
      trace := trace + [files[name := torn(name)]];
      var late := Strikes();
      if late {
        files := files[name := torn(name)];
        return Faulted;
      }
      files := files[name := bytes];
      trace := trace + [files];
      return Done;
    }

    /** `putArtifact`: the content's id, or nothing when it could not be stored. */
    method PutArtifact(c: Crypto, bytes: Bytes, ghost s0: Store, ghost from: nat) returns (id: Option<Id>)
      requires OnlyAdded(s0, from)
      modifies this
      ensures OnlyAdded(s0, from) && Before(old(files), files) && SameOtherNames(old(files), files)
      ensures files.Keys <= old(files).Keys + {Artifact(c.digest(bytes))}
      ensures id.Some? ==>
                && id.value == c.digest(bytes) && Holds(c, files, id.value)
                && files[Artifact(id.value)] == bytes
      ensures old(Calm()) ==> Calm() && (id.Some? <==> CanPut(c, old(files), bytes))
    {
      if |bytes| > ARTIFACT_LIMIT {
        return None;
      }
      var digest := c.digest(bytes);
      var written := WriteNew(Artifact(digest), bytes, s0, from);
      if written.Faulted? || (written.Present? && files[Artifact(digest)] != bytes) {
        return None;
      }
      var fails := Strikes();
      id := if fails then None else Some(digest);
    }

    /** Every artifact of the list, in order; nothing when one could not be stored. */
    method PutArtifacts(c: Crypto, artifacts: seq<Bytes>, ghost s0: Store, ghost from: nat)
      returns (supplied: Option<set<Id>>)
      requires OnlyAdded(s0, from)
      modifies this
      ensures OnlyAdded(s0, from) && SameOtherNames(old(files), files)
      ensures supplied.Some? ==> supplied.value == Digests(c, artifacts) && SetHolds(c, files, supplied.value)
      ensures old(Calm()) && CollisionFree(c) && AllCanPut(c, old(files), artifacts)
              ==> Calm() && supplied.Some? && Additions(c, old(files), files)
    {
      var ids: set<Id> := {};
      ghost var calm := Calm() && CollisionFree(c) && AllCanPut(c, files, artifacts);
      ghost var start := files;
      for k := 0 to |artifacts|
        invariant OnlyAdded(s0, from) && SameOtherNames(start, files)
        invariant ids == Digests(c, artifacts[..k]) && SetHolds(c, files, ids)
        invariant calm ==> Calm() && Additions(c, start, files)
      {
        ghost var before := files;
        var id := PutArtifact(c, artifacts[k], s0, from);
        DigestsGrow(c, artifacts, k);
        SetStillHolds(c, before, files, ids);
        if calm {
          AdditionsStillPut(c, start, before, artifacts[k]);
          AdditionsGrow(c, start, before, files, artifacts[k]);
        }
        if id.None? {
          return None;
        }
        ids := ids + {id.value};
      }
      TakeAll(artifacts);
      supplied := Some(ids);
    }

    /** Every state since the `from`-th only added files to `s0`, until the head was
        replaced by `entry`'s. */
    ghost predicate Safely(c: Crypto, s0: Store, from: nat, entry: Entry, moved: bool)
      reads this
    {
      && from <= |trace|
      && (if moved then Advanced(c, s0, files, entry) else Before(s0, files))
      && forall k :: from <= k < |trace| ==> Before(s0, trace[k]) || (moved && Advanced(c, s0, trace[k], entry))
    }

    /** Removes a file that no reader of the journal looks at. */
    method Unlink(name: Name, c: Crypto, ghost s0: Store, ghost from: nat, ghost entry: Entry, ghost moved: bool)
      returns (ok: bool)
      requires name.Lock? || name.Temporary?
      requires Safely(c, s0, from, entry, moved)
      modifies this
      ensures Safely(c, s0, from, entry, moved)
      ensures files == if ok then old(files) - {name} else old(files)
      ensures old(Calm()) ==> ok && Calm()
    {
      var fails := Strikes();
      if fails {
        return false;
      }
      RemovalIsUnread(c, s0, files, name, entry, moved);
      files := files - {name};
      trace := trace + [files];
      ok := true;
    }

    /** `replaceManifest`: the new head is written aside and renamed over the old one. */
    method ReplaceManifest(c: Crypto, bytes: Bytes, nonce: string, ghost s0: Store, ghost from: nat, ghost entry: Entry)
      returns (ok: bool, ghost moved: bool)
      requires OnlyAdded(s0, from)
      requires bytes == c.sealHead(HeadOf(entry, EntryId(c, entry))) && CanAdvance(c, files, entry)
      modifies this
      ensures Safely(c, s0, from, entry, moved)
      ensures ok ==> moved
      ensures old(Calm()) && Temporary(nonce) !in old(files) && |bytes| <= MANIFEST_LIMIT ==> ok && Calm()
    {
      ok, moved := false, false;
      if |bytes| > MANIFEST_LIMIT {
        return;
      }
      var temporary := Temporary(nonce);
      ghost var before := files;
      var written := WriteNew(temporary, bytes, s0, from);
      if !written.Done? {
        return;
      }
      EvidenceKept(c, before, files, entry.event.evidenceIds);
      var fails := Strikes();
      if fails {
        var _ := Unlink(temporary, c, s0, from, entry, false);
        return;
      }
      RenameAdvances(c, s0, files, bytes, entry, temporary);
      files := (files - {temporary})[Manifest := bytes];
      trace := trace + [files];
      moved := true;
      var unsynced := Strikes();
      ok := !unsynced;
    }

    /** The journal to continue, read while the lock is held. */
    method FindStart(c: Crypto, trust: Trust, observedAt: nat, event: Event) returns (start: Option<Option<Journal>>)
      ensures start == StartingPoint(c, files, trust, observedAt, event)
    {
      if IsNewJournal(files) && trust.expectedHead.None? && event.Begin? {
        return Some(None);
      }
      var j := ReadKaraokeMaintenanceJournal(c, files, trust, observedAt);
      start := if j.None? then None else Some(j);
    }

    /** The supplied artifacts, all the evidence of the event among them. */
    method StoreEvidence(c: Crypto, artifacts: seq<Bytes>, refs: seq<Id>, ghost s0: Store, ghost from: nat)
      returns (ok: bool)
      requires OnlyAdded(s0, from)
      modifies this
      ensures OnlyAdded(s0, from) && SameOtherNames(old(files), files)
      ensures ok ==> EvidenceHolds(c, files, refs) && AllSupplied(c, artifacts, refs)
      ensures old(Calm()) && CollisionFree(c) && AllCanPut(c, old(files), artifacts) && AllSupplied(c, artifacts, refs)
              ==> ok && Calm() && Additions(c, old(files), files)
    {
      var supplied := PutArtifacts(c, artifacts, s0, from);
      ok := supplied.Some? && forall id | id in refs :: id in supplied.value;
      if ok {
        SuppliedEvidenceHolds(c, files, supplied.value, refs);
      }
    }

    /** The signed entry, and then the head that points to it. */
    method StoreEntry(c: Crypto, entry: Entry, nonce: string, ghost s0: Store, ghost from: nat)
      returns (ok: bool, ghost moved: bool)
      requires OnlyAdded(s0, from) && EvidenceHolds(c, files, entry.event.evidenceIds)
      modifies this
      ensures Safely(c, s0, from, entry, moved)
      ensures ok ==> moved
      ensures && old(Calm()) && CanPut(c, old(files), c.sealEntry(entry)) && Temporary(nonce) !in old(files)
              && |c.sealHead(HeadOf(entry, EntryId(c, entry)))| <= MANIFEST_LIMIT
              ==> ok && Calm()
    {
      ok, moved := false, false;
      ghost var before := files;
      var id := PutArtifact(c, c.sealEntry(entry), s0, from);
      if id.Some? {
        EvidenceKept(c, before, files, entry.event.evidenceIds);
        assert SameFile(before, files, Temporary(nonce));
        ok, moved := ReplaceManifest(c, c.sealHead(HeadOf(entry, id.value)), nonce, s0, from, entry);
      }
    }

    /** The entry is within bounds, the order machine admits it, and the keys agree. */
    method Admits(c: Crypto, previous: Option<Journal>, entry: Entry) returns (ok: bool)
      ensures ok <==> IsAdmitted(c, previous, entry)
    {
      var order := ValidateJournalOrder(Entries(OldRows(previous)) + [entry]);
      ok := entry.sequence <= LAST_SEQUENCE && order.Success? && c.openEntry(c.sealEntry(entry)).Some?;
    }

    /** The append once the journal it continues is known. */
    method AppendAfter(c: Crypto, previous: Option<Journal>, q: Request, ghost s0: Store, ghost from: nat)
      returns (ok: bool, ghost moved: bool)
      requires OnlyAdded(s0, from)
      modifies this
      ensures var accepted := Accepted(c, previous, q);
              if accepted.None? then !moved && OnlyAdded(s0, from) else Safely(c, s0, from, accepted.value, moved)
      ensures ok ==> moved
      ensures old(Calm()) && Accepted(c, previous, q).Some? && Fits(c, old(files), q, Accepted(c, previous, q).value)
              ==> ok && Calm()
    {
      ok, moved := false, false;
      ghost var start := files;
      if !MayContinue(previous, q) {
        return;
      }
      var stored := StoreEvidence(c, q.artifacts, q.event.evidenceIds, s0, from);
      if !stored {
        return;
      }
      var entry := Successor(previous, q);
      var admitted := Admits(c, previous, entry);
      if !admitted {
        return;
      }
      StillFits(c, start, files, q, entry);
      ok, moved := StoreEntry(c, entry, q.nonce, s0, from);
    }

    /** The append while the lock is held. */
    method AppendLocked(c: Crypto, q: Request, ghost s0: Store, ghost from: nat)
      returns (r: Option<Journal>, ghost moved: bool)
      requires OnlyAdded(s0, from)
      modifies this
      ensures var planned := Planned(c, old(files), q);
              if planned.None? then !moved && r.None? && OnlyAdded(s0, from)
                else Safely(c, s0, from, planned.value, moved)
      ensures r.Some? || (old(Calm()) && Unhindered(c, old(files), q)) ==>
                moved && r == Read(c, files, Retaining(q.trust, c, Planned(c, old(files), q).value), q.observedAt)
      ensures old(Calm()) && Unhindered(c, old(files), q) ==> Calm()
    {
      r, moved := None, false;
      var found := FindStart(c, q.trust, q.observedAt, q.event);
      if found.None? {
        return;
      }
      var ok: bool;
      ok, moved := AppendAfter(c, found.value, q, s0, from);
      if ok {
        r := ReadKaraokeMaintenanceJournal(c, files, Retaining(q.trust, c, Successor(found.value, q)), q.observedAt);
      }
    }

    /** `appendKaraokeMaintenanceEvent`: nothing happens while another writer's lock is
        there; otherwise every state passed through only added files to the directory, or
        is one with the head replaced by the planned entry's. */
    method Append(c: Crypto, q: Request, lockText: Bytes) returns (r: Option<Journal>, ghost moved: bool)
      modifies this
      ensures Lock in old(files) ==> r.None? && !moved && files == old(files) && trace == old(trace)
      ensures Lock !in old(files) ==>
                if Planned(c, old(files), q).None? then !moved && r.None? && OnlyAdded(old(files), |old(trace)|)
                else Safely(c, old(files), |old(trace)|, Planned(c, old(files), q).value, moved)
      ensures r.Some? || (old(Calm()) && Lock !in old(files) && Unhindered(c, old(files), q)) ==>
                && moved && Lock !in files
                && r == Read(c, files, Retaining(q.trust, c, Planned(c, old(files), q).value), q.observedAt)
    {
      r, moved := None, false;
      ghost var s0, from := files, |trace|;
      var locked := WriteNew(Lock, lockText, s0, from);
      if !locked.Done? {
        return;
      }
      LockChangesNoPlan(c, s0, files, q);
      r, moved := AppendLocked(c, q, s0, from);
      ghost var planned := Planned(c, s0, q);
      ghost var held := files;
      ghost var entry := if planned.Some? then planned.value else Successor(None, q);
      var unlocked := Unlink(Lock, c, s0, from, entry, moved);
      if planned.Some? {
        LockIsUnread(c, held, files, Retaining(q.trust, c, entry), q.observedAt);
      }
      if !unlocked {
        r := None;
      }
    }
  }

  lemma LockHindersNothing(c: Crypto, s0: Store, s: Store, artifacts: seq<Bytes>, bytes: Bytes, nonce: string)
    requires SameButLock(s0, s)
    ensures AllCanPut(c, s, artifacts) <==> AllCanPut(c, s0, artifacts)
    ensures CanPut(c, s, bytes) <==> CanPut(c, s0, bytes)
    ensures Temporary(nonce) in s <==> Temporary(nonce) in s0
  {
    forall b: Bytes
      ensures CanPut(c, s, b) <==> CanPut(c, s0, b)
    {
      assert SameFile(s0, s, Artifact(c.digest(b)));
    }
    assert SameFile(s0, s, Temporary(nonce));
  }

  lemma LockChangesNoPlan(c: Crypto, s0: Store, s: Store, q: Request)
    requires SameButLock(s0, s)
    ensures Planned(c, s, q) == Planned(c, s0, q)
    ensures Unhindered(c, s, q) <==> Unhindered(c, s0, q)
  {
    hide CanPut;
    hide AllCanPut;
    hide Read;
    hide Accepted;
    LockIsUnread(c, s0, s, q.trust, q.observedAt);
    if Planned(c, s0, q).Some? {
      LockHindersNothing(c, s0, s, q.artifacts, c.sealEntry(Planned(c, s0, q).value), q.nonce);
    }
  }

  /** The input of an append, the observation time and the name of the temporary file. */
  datatype Request = Request(
    trust: Trust,
    observedAt: nat,
    event: Event,
    expectedCurrentHead: Option<Mark>,
    artifacts: seq<Bytes>,
    nonce: string)

  /** Nothing in the directory stands in the way of the entry. */
  ghost predicate Fits(c: Crypto, s: Store, q: Request, entry: Entry) {
    && CollisionFree(c)
    && AllSupplied(c, q.artifacts, q.event.evidenceIds)
    && AllCanPut(c, s, q.artifacts)
    && CanPut(c, s, c.sealEntry(entry))
    && |c.sealHead(HeadOf(entry, EntryId(c, entry)))| <= MANIFEST_LIMIT
    && Temporary(q.nonce) !in s
  }

  lemma StillFits(c: Crypto, s0: Store, s: Store, q: Request, entry: Entry)
    requires SameOtherNames(s0, s)
    ensures Fits(c, s0, q, entry) && Additions(c, s0, s)
            ==> CanPut(c, s, c.sealEntry(entry)) && Temporary(q.nonce) !in s
  {
    assert SameFile(s0, s, Temporary(q.nonce));
    if Fits(c, s0, q, entry) && Additions(c, s0, s) {
      AdditionsStillPut(c, s0, s, c.sealEntry(entry));
    }
  }

  /** The directory differs from `s0` at most in its lock. */
  ghost predicate SameButLock(s0: Store, s: Store) {
    forall name: Name :: !name.Lock? ==> SameFile(s0, s, name)
  }

  lemma LockIsUnread(c: Crypto, s0: Store, s: Store, trust: Trust, now: nat)
    requires SameButLock(s0, s)
    ensures Read(c, s, trust, now) == Read(c, s0, trust, now)
    ensures IsNewJournal(s) <==> IsNewJournal(s0)
  {
    assert forall id :: SameFile(s0, s, Artifact(id));
    assert SameFile(s0, s, Manifest);
    assert forall name: Name :: name in s && !name.Lock? ==> SameFile(s0, s, name);
    assert forall name: Name :: name in s0 && !name.Lock? ==> SameFile(s0, s, name);
    if Read(c, s0, trust, now).Some? {
      ReadsAsBefore(c, s0, s, trust, now);
    } else if Read(c, s, trust, now).Some? {
      ReadsAsBefore(c, s, s0, trust, now);
    }
  }

  function OldRows(previous: Option<Journal>): seq<Row> {
    if previous.None? then [] else previous.value.rows
  }

  /** The caller's own expectation of the current head, when it has one. */
  predicate AtHead(previous: Option<Journal>, mark: Option<Mark>) {
    mark.Some? ==> previous.Some? && Mark(previous.value.head.entryId, previous.value.head.sequence) == mark.value
  }

  function Successor(previous: Option<Journal>, q: Request): Entry {
    Entry(q.trust.epoch, q.trust.collector,
          if previous.None? then 0 else previous.value.head.sequence + 1,
          if previous.None? then None else Some(previous.value.head.entryId),
          q.observedAt, q.event)
  }

  function Retaining(trust: Trust, c: Crypto, entry: Entry): Trust {
    trust.(expectedHead := Some(Mark(EntryId(c, entry), entry.sequence)))
  }

  /** The journal an append continues: none for the very first entry. */
  function StartingPoint(c: Crypto, s: Store, trust: Trust, now: nat, event: Event): Option<Option<Journal>> {
    if IsNewJournal(s) && trust.expectedHead.None? && event.Begin? then Some(None)
    else
      var j := Read(c, s, trust, now);
      if j.None? then None else Some(j)
  }

  /** What is checked before anything is stored. */
  predicate MayContinue(previous: Option<Journal>, q: Request) {
    && !(previous.Some? && previous.value.machine.state.Broken?)
    && AtHead(previous, q.expectedCurrentHead)
    && 1 <= |q.event.evidenceIds| <= EVIDENCE_LIMIT
  }

  predicate IsAdmitted(c: Crypto, previous: Option<Journal>, entry: Entry) {
    && entry.sequence <= LAST_SEQUENCE
    && Order(Entries(OldRows(previous)) + [entry]).Success?
    && c.openEntry(c.sealEntry(entry)).Some?
  }

  /** The entry an append will commit to, when every check on the request passes. */
  function Accepted(c: Crypto, previous: Option<Journal>, q: Request): Option<Entry> {
    var entry := Successor(previous, q);
    if MayContinue(previous, q) && AllSupplied(c, q.artifacts, q.event.evidenceIds) && IsAdmitted(c, previous, entry)
    then Some(entry)
    else None
  }

  function Planned(c: Crypto, s: Store, q: Request): Option<Entry> {
    var start := StartingPoint(c, s, q.trust, q.observedAt, q.event);
    if start.None? then None else Accepted(c, start.value, q)
  }

  ghost predicate Unhindered(c: Crypto, s: Store, q: Request) {
    Planned(c, s, q).Some? && Fits(c, s, q, Planned(c, s, q).value)
  }

  lemma {:induction false} SuppliedEvidenceHolds(c: Crypto, s: Store, supplied: set<Id>, ids: seq<Id>)
    requires SetHolds(c, s, supplied) && forall id :: id in ids ==> id in supplied
    ensures EvidenceHolds(c, s, ids)
  {
    if ids != [] {
      SuppliedEvidenceHolds(c, s, supplied, ids[..|ids| - 1]);
    }
  }

  const MANIFEST_LIMIT: nat := 8_388_608

  /** Everything the new head refers to is stored. */
  ghost predicate CanAdvance(c: Crypto, s: Store, entry: Entry) {
    && Holds(c, s, EntryId(c, entry)) && s[Artifact(EntryId(c, entry))] == c.sealEntry(entry)
    && EvidenceHolds(c, s, entry.event.evidenceIds)
  }

  lemma RenameAdvances(c: Crypto, s0: Store, s: Store, bytes: Bytes, entry: Entry, temporary: Name)
    requires Before(s0, s) && CanAdvance(c, s, entry) && temporary.Temporary?
    requires bytes == c.sealHead(HeadOf(entry, EntryId(c, entry)))
    ensures Advanced(c, s0, (s - {temporary})[Manifest := bytes], entry)
  {
    EvidenceKept(c, s, (s - {temporary})[Manifest := bytes], entry.event.evidenceIds);
  }

  lemma RemovalIsUnread(c: Crypto, s0: Store, s: Store, name: Name, entry: Entry, moved: bool)
    requires name.Lock? || name.Temporary?
    ensures !moved && Before(s0, s) ==> Before(s0, s - {name})
    ensures moved && Advanced(c, s0, s, entry) ==> Advanced(c, s0, s - {name}, entry)
  {
    if moved && Advanced(c, s0, s, entry) {
      EvidenceKept(c, s, s - {name}, entry.event.evidenceIds);
    }
  }

  ghost predicate SetHolds(c: Crypto, s: Store, ids: set<Id>) {
    forall id :: id in ids ==> Holds(c, s, id)
  }

  ghost predicate AllCanPut(c: Crypto, s: Store, artifacts: seq<Bytes>) {
    forall k :: 0 <= k < |artifacts| ==> CanPut(c, s, artifacts[k])
  }

  ghost predicate SameOtherNames(s0: Store, s: Store) {
    forall name: Name :: !name.Artifact? ==> SameFile(s0, s, name)
  }

  /** Only artifacts under their right names were added. */
  ghost predicate Additions(c: Crypto, s0: Store, s: Store) {
    forall id :: Artifact(id) in s
      ==> (Artifact(id) in s0 && s0[Artifact(id)] == s[Artifact(id)]) || c.digest(s[Artifact(id)]) == id
  }

  lemma DigestsGrow(c: Crypto, artifacts: seq<Bytes>, k: nat)
    requires k < |artifacts|
    ensures Digests(c, artifacts[..k + 1]) == Digests(c, artifacts[..k]) + {c.digest(artifacts[k])}
  {
    TakeStep(artifacts, k);
  }

  lemma SetStillHolds(c: Crypto, s0: Store, s: Store, ids: set<Id>)
    requires Keeps(s0, s) && SetHolds(c, s0, ids)
    ensures SetHolds(c, s, ids)
  {
  }

  lemma AdditionsStillPut(c: Crypto, s0: Store, s: Store, bytes: Bytes)
    requires CollisionFree(c) && Additions(c, s0, s) && CanPut(c, s0, bytes)
    ensures CanPut(c, s, bytes)
  {
  }

  lemma AdditionsGrow(c: Crypto, s0: Store, s: Store, s': Store, bytes: Bytes)
    requires Additions(c, s0, s) && Keeps(s, s')
    requires s'.Keys <= s.Keys + {Artifact(c.digest(bytes))}
    requires Artifact(c.digest(bytes)) in s' && c.digest(s'[Artifact(c.digest(bytes))]) == c.digest(bytes)
    ensures Additions(c, s0, s')
  {
    forall id | Artifact(id) in s'
      ensures (Artifact(id) in s0 && s0[Artifact(id)] == s'[Artifact(id)]) || c.digest(s'[Artifact(id)]) == id
    {
      if id != c.digest(bytes) {
        assert Artifact(id) in s;
      }
    }
  }

  /** An artifact can be stored: it is not too large, and a file already under its name has
      its content. */
  predicate CanPut(c: Crypto, s: Store, bytes: Bytes) {
    |bytes| <= ARTIFACT_LIMIT && (Artifact(c.digest(bytes)) in s ==> s[Artifact(c.digest(bytes))] == bytes)
  }

  // ---- What an interrupted append leaves --------------------------------------------

  predicate CanStep(m: Machine, entry: Entry) {
    |m.history| == OBJECT_COUNT && OrderStep(m, entry).Success?
  }

  /** The journal with one more entry, its state one step of the order machine further; or
      nothing, when one of the checks the append leaves to the reader fails. */
  function Continued(c: Crypto, s0: Store, q: Request, j: Journal, entry: Entry): Option<Journal>
    requires CanStep(j.machine, entry)
  {
    var id := EntryId(c, entry);
    if WillRead(c, s0, q.artifacts, j.rows, entry)
    then Some(Journal(HeadOf(entry, id), j.rows + [Row(id, entry)], OrderStep(j.machine, entry).value))
    else None
  }

  lemma PlannedFollows(c: Crypto, s0: Store, q: Request, j: Journal)
    requires !IsNewJournal(s0)
    requires Read(c, s0, q.trust, q.observedAt) == Some(j) && Planned(c, s0, q).Some?
    ensures Follows(c, j.rows, Planned(c, s0, q).value, q.trust, q.observedAt)
    ensures AllSupplied(c, q.artifacts, Planned(c, s0, q).value.event.evidenceIds)
    ensures StartsFrom(c, s0, q.trust, q.observedAt, j.rows)
    ensures j.rows != [] && j.rows[|j.rows| - 1].id == j.head.entryId && |j.rows| == j.head.sequence + 1
  {
    hide Order;
    hide TotalBytes;
    ChainLength(c, s0, q.trust, q.observedAt, Some(j.head.entryId), j.head.sequence);
    ChainEndsWithItsRow(c, s0, q.trust, q.observedAt, j.head.entryId, j.head.sequence);
  }

  lemma PlannedSteps(c: Crypto, s0: Store, q: Request, j: Journal)
    requires !IsNewJournal(s0)
    requires Read(c, s0, q.trust, q.observedAt) == Some(j) && Planned(c, s0, q).Some?
    ensures var entry := Planned(c, s0, q).value;
            CanStep(j.machine, entry)
            && Order(Entries(j.rows) + [entry]) == OrderStep(j.machine, entry)
  {
    PlannedFollows(c, s0, q, j);
    OneStepOfTheMachine(j.rows, Planned(c, s0, q).value);
  }

  /** What a reader of the old journal sees in a state of an append: the journal as it was,
      or, once the head was replaced, the journal continued. */
  lemma OldOrExtended(c: Crypto, s0: Store, s: Store, q: Request, j: Journal)
    requires CollisionFree(c) && SealsOpen(c) && !IsNewJournal(s0)
    requires Read(c, s0, q.trust, q.observedAt) == Some(j) && Planned(c, s0, q).Some?
    ensures var entry := Planned(c, s0, q).value;
            && CanStep(j.machine, entry)
            && (Before(s0, s) ==> Read(c, s, q.trust, q.observedAt) == Some(j))
            && (Advanced(c, s0, s, entry) ==> Read(c, s, q.trust, q.observedAt) == Continued(c, s0, q, j, entry))
  {
    var entry := Planned(c, s0, q).value;
    PlannedSteps(c, s0, q, j);
    if Before(s0, s) {
      ReadsAsBefore(c, s0, s, q.trust, q.observedAt);
    }
    if Advanced(c, s0, s, entry) {
      PlannedFollows(c, s0, q, j);
      ReadsAsExtended(c, s0, s, q.artifacts, q.trust, q.observedAt, j.rows, entry);
    }
  }

  /** A completed append returns the continuation of the journal it started from. */
  lemma CompletedAppendExtends(c: Crypto, s0: Store, s: Store, q: Request, j: Journal)
    requires CollisionFree(c) && SealsOpen(c) && !IsNewJournal(s0)
    requires Read(c, s0, q.trust, q.observedAt) == Some(j) && Planned(c, s0, q).Some?
    requires Advanced(c, s0, s, Planned(c, s0, q).value)
    ensures var entry := Planned(c, s0, q).value;
            && CanStep(j.machine, entry)
            && Read(c, s, Retaining(q.trust, c, entry), q.observedAt) == Continued(c, s0, q, j, entry)
  {
    var entry := Planned(c, s0, q).value;
    var trust := Retaining(q.trust, c, entry);
    PlannedSteps(c, s0, q, j);
    PlannedFollows(c, s0, q, j);
    MarkIsNotInTheChain(c, s0, q.trust, q.observedAt, Some(j.head.entryId), j.head.sequence, trust.expectedHead);
    ReadsAsExtended(c, s0, s, q.artifacts, trust, q.observedAt, j.rows, entry);
  }

  /** When the head an append commits cannot be read, it cannot be read by anyone, whatever
      they trust and whenever they look. */
  lemma UnreadableByAnyone(c: Crypto, s0: Store, s: Store, q: Request, j: Journal, trust: Trust, now: nat)
    requires CollisionFree(c) && SealsOpen(c) && !IsNewJournal(s0)
    requires Read(c, s0, q.trust, q.observedAt) == Some(j) && Planned(c, s0, q).Some?
    requires Advanced(c, s0, s, Planned(c, s0, q).value)
    requires !WillRead(c, s0, q.artifacts, j.rows, Planned(c, s0, q).value)
    ensures Read(c, s, trust, now).None?
  {
    var entry := Planned(c, s0, q).value;
    PlannedFollows(c, s0, q, j);
    if Read(c, s, trust, now).Some? {
      HeadOfRead(c, s0, s, j.rows, entry, q.trust, q.observedAt, trust, now);
      ChainEndsWithItsRow(c, s, trust, now, EntryId(c, entry), |j.rows|);
      NewChain(c, s0, s, q.trust, q.observedAt, j.rows, entry);
      SameChain(c, s, q.trust, q.observedAt, |j.rows|, s, trust, now, |j.rows|, Some(EntryId(c, entry)));
      ChainIsThere(c, s0, q.trust, q.observedAt, Some(j.head.entryId), j.head.sequence);
      BytesAreForeseen(c, s0, s, q.artifacts, j.rows, entry);
    }
  }

  /** A readable head is the committed one, small enough, with a chain and a receipt. */
  lemma HeadOfRead(c: Crypto, s0: Store, s: Store, rows: seq<Row>, entry: Entry, trust0: Trust, now0: nat,
                   trust: Trust, now: nat)
    requires SealsOpen(c) && Advanced(c, s0, s, entry) && Follows(c, rows, entry, trust0, now0)
    requires Read(c, s, trust, now).Some?
    ensures HeadFits(c, entry) && ReceiptIsEvidence(entry.event)
    ensures Read(c, s, trust, now).value.head == HeadOf(entry, EntryId(c, entry))
    ensures Chain(c, s, trust, now, Some(EntryId(c, entry)), |rows|) == Some(Read(c, s, trust, now).value.rows)
    ensures TotalBytes(s, ReadOrder(Read(c, s, trust, now).value.rows)) <= TOTAL_LIMIT
  {
    assert c.openEntry(s[Artifact(EntryId(c, entry))]) == Some(entry);
    ChainEndsWithItsRow(c, s, trust, now, EntryId(c, entry), |rows|);
  }

  /** So the journal has ended: no request is ever planned again. */
  lemma UnreadableHeadEndsTheJournal(c: Crypto, s0: Store, s: Store, q: Request, j: Journal, later: Request)
    requires CollisionFree(c) && SealsOpen(c) && !IsNewJournal(s0)
    requires Read(c, s0, q.trust, q.observedAt) == Some(j) && Planned(c, s0, q).Some?
    requires Advanced(c, s0, s, Planned(c, s0, q).value)
    requires !WillRead(c, s0, q.artifacts, j.rows, Planned(c, s0, q).value)
    ensures Planned(c, s, later).None?
  {
    UnreadableByAnyone(c, s0, s, q, j, later.trust, later.observedAt);
    assert Manifest in s.Keys;
  }

  /** An interrupted first append is refused by every later append, whatever it asks for,
      unless the interruption left nothing behind: without a head the only way to start is
      an empty directory and a first event. */
  lemma InterruptedFirstAppend(c: Crypto, s0: Store, s: Store, q: Request)
    requires Manifest !in s0 && Before(s0, s)
    ensures Read(c, s, q.trust, q.observedAt).None?
    ensures StartingPoint(c, s, q.trust, q.observedAt, q.event).Some?
       <==> IsNewJournal(s) && q.trust.expectedHead.None? && q.event.Begin?
    ensures !IsNewJournal(s) ==> Planned(c, s, q).None?
  {
  }

  /** A completed first append reads back as a journal of that one entry, when its head can
      be read. */
  lemma CompletedFirstAppend(c: Crypto, s0: Store, s: Store, q: Request)
    requires CollisionFree(c) && SealsOpen(c)
    requires IsNewJournal(s0) && q.trust.expectedHead.None? && q.event.Begin?
    requires Planned(c, s0, q).Some? && Advanced(c, s0, s, Planned(c, s0, q).value)
    ensures var entry := Planned(c, s0, q).value; var id := EntryId(c, entry);
            && CanStep(START, entry)
            && Read(c, s, Retaining(q.trust, c, entry), q.observedAt)
               == if WillRead(c, s0, q.artifacts, [], entry)
                  then Some(Journal(HeadOf(entry, id), [Row(id, entry)], OrderStep(START, entry).value))
                  else None
  {
    var entry := Planned(c, s0, q).value;
    ReadsAsExtended(c, s0, s, q.artifacts, Retaining(q.trust, c, entry), q.observedAt, [], entry);
    OneStepOfTheMachine([], entry);
    assert [] + [Row(EntryId(c, entry), entry)] == [Row(EntryId(c, entry), entry)];
  }
}
