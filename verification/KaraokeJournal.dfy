/** The reader of scripts/karaoke-maintenance-journal.ts: a hash-linked history in a store
    of content-addressed files with one replaceable, signed head. */
module KaraokeJournal {
  import opened Outcomes
  import opened KaraokeOrder

  type Bytes = seq<bv8>

  datatype Head = Head(epoch: Id, collector: Id, sequence: nat, entryId: Id)

  datatype Name = Manifest | Artifact(id: Id) | Lock | Temporary(nonce: string) | Other(name: string)

  type Store = map<Name, Bytes>

  /** SHA-256 and the signed record format: `openEntry` and `openHead` verify the signature
      with the trusted public key and parse the payload, `sealEntry` and `sealHead` print
      and sign with the private key. */
  datatype Crypto = Crypto(
    digest: Bytes -> Id,
    openEntry: Bytes -> Option<Entry>,
    openHead: Bytes -> Option<Head>,
    sealEntry: Entry -> Bytes,
    sealHead: Head -> Bytes)

  /** No two contents share a digest. */
  ghost predicate CollisionFree(c: Crypto) {
    forall a, b :: c.digest(a) == c.digest(b) ==> a == b
  }

  function HeadOf(entry: Entry, id: Id): Head {
    Head(entry.epoch, entry.collector, entry.sequence, id)
  }

  function EntryId(c: Crypto, entry: Entry): Id {
    c.digest(c.sealEntry(entry))
  }

  /** What was sealed opens, if it opens at all, as what was sealed; and the keys that agree
      for an entry agree for the head that points to it. */
  ghost predicate SealsOpen(c: Crypto) {
    forall e {:trigger c.sealEntry(e)} :: c.openEntry(c.sealEntry(e)).Some? ==>
      && c.openEntry(c.sealEntry(e)).value == e
      && c.openHead(c.sealHead(HeadOf(e, EntryId(c, e)))) == Some(HeadOf(e, EntryId(c, e)))
  }

  const ARTIFACT_LIMIT: nat := 262_144
  const TOTAL_LIMIT: nat := 67_108_864
  const LAST_SEQUENCE: nat := 8191
  const EVIDENCE_LIMIT: nat := 64

  datatype Mark = Mark(entryId: Id, sequence: nat)
  datatype Trust = Trust(epoch: Id, collector: Id, expectedHead: Option<Mark>)
  datatype Row = Row(id: Id, entry: Entry)
  datatype Journal = Journal(head: Head, rows: seq<Row>, machine: Machine)

  function Entries(rows: seq<Row>): (r: seq<Entry>)
    ensures |r| == |rows|
    ensures forall k :: 0 <= k < |rows| ==> r[k] == rows[k].entry
  {
    if rows == [] then [] else Entries(rows[..|rows| - 1]) + [rows[|rows| - 1].entry]
  }

  /** An artifact can be read: it is there, not too large, and its content is the one its
      name stands for. */
  predicate Holds(c: Crypto, store: Store, id: Id) {
    && Artifact(id) in store
    && |store[Artifact(id)]| <= ARTIFACT_LIMIT
    && c.digest(store[Artifact(id)]) == id
  }

  predicate EvidenceHolds(c: Crypto, store: Store, ids: seq<Id>) {
    ids == [] || (Holds(c, store, ids[|ids| - 1]) && EvidenceHolds(c, store, ids[..|ids| - 1]))
  }

  /** The bounds of the entry schema. */
  predicate WellFormed(e: Entry) {
    e.sequence <= LAST_SEQUENCE && 1 <= |e.event.evidenceIds| <= EVIDENCE_LIMIT
  }

  predicate ReceiptIsEvidence(e: Event) {
    e.Pass? ==> e.receiptId in e.evidenceIds
  }

  predicate InScope(e: Entry, trust: Trust, sequence: int, now: nat) {
    e.sequence == sequence && e.epoch == trust.epoch && e.collector == trust.collector && e.observedAt <= now
  }

  /** The row an id stands for at a place in the chain, if every check on it passes. */
  function RowAt(c: Crypto, store: Store, trust: Trust, now: nat, id: Id, sequence: int): Option<Row> {
    if !Holds(c, store, id) then None
    else
      var entry := c.openEntry(store[Artifact(id)]);
      if entry.None? || !WellFormed(entry.value) || !InScope(entry.value, trust, sequence, now)
         || !EvidenceHolds(c, store, entry.value.event.evidenceIds)
         || !ReceiptIsEvidence(entry.value.event)
      then None
      else Some(Row(id, entry.value))
  }

  /** The rows of the chain that ends in `id` at `sequence`, oldest first. */
  function Chain(c: Crypto, store: Store, trust: Trust, now: nat, id: Option<Id>, sequence: int): (r: Option<seq<Row>>)
    requires sequence >= -1
    decreases sequence + 1
  {
    if sequence < 0 then (if id.None? then Some([]) else None)
    else if id.None? then None
    else
      var row := RowAt(c, store, trust, now, id.value, sequence);
      if row.None? then None
      else
        var rest := Chain(c, store, trust, now, row.value.entry.previousId, sequence - 1);
        if rest.None? then None else Some(rest.value + [row.value])
  }

  /** The artifacts in the order the reader asks for them: newest entry first, each entry
      before its evidence. */
  function ReadOrder(rows: seq<Row>): seq<Id> {
    if rows == [] then []
    else
      var newest := rows[|rows| - 1];
      OwnReads(newest) + ReadOrder(rows[..|rows| - 1])
  }

  function Size(store: Store, id: Id): nat {
    if Artifact(id) in store then |store[Artifact(id)]| else 0
  }

  /** The bytes read for a list of artifacts, each artifact once. */
  function TotalBytes(store: Store, ids: seq<Id>): nat {
    if ids == [] then 0
    else
      var front := ids[..|ids| - 1];
      TotalBytes(store, front) + (if ids[|ids| - 1] in front then 0 else Size(store, ids[|ids| - 1]))
  }

  predicate Retains(rows: seq<Row>, mark: Option<Mark>) {
    mark.Some? ==> exists k ::
      0 <= k < |rows| && rows[k].id == mark.value.entryId && rows[k].entry.sequence == mark.value.sequence
  }

  function OpenedHead(c: Crypto, store: Store, trust: Trust): Option<Head> {
    if Manifest !in store || |store[Manifest]| > ARTIFACT_LIMIT then None
    else
      var head := c.openHead(store[Manifest]);
      if head.None? || head.value.sequence > LAST_SEQUENCE
         || head.value.epoch != trust.epoch || head.value.collector != trust.collector
      then None
      else head
  }

  /** What the reader returns, nothing standing for a refusal. */
  function Read(c: Crypto, store: Store, trust: Trust, now: nat): Option<Journal> {
    var head := OpenedHead(c, store, trust);
    if head.None? then None
    else
      var rows := Chain(c, store, trust, now, Some(head.value.entryId), head.value.sequence);
      if rows.None? || TotalBytes(store, ReadOrder(rows.value)) > TOTAL_LIMIT
        || !Retains(rows.value, trust.expectedHead)
      then None
      else
        var machine := Order(Entries(rows.value));
        if machine.Failure? then None else Some(Journal(head.value, rows.value, machine.value))
  }

  // ---- The reader's loop ------------------------------------------------------------

  lemma {:induction false} TotalGrows(store: Store, front: seq<Id>, back: seq<Id>)
    ensures TotalBytes(store, front) <= TotalBytes(store, front + back)
  {
    if back == [] {
      assert front + back == front;
    } else {
      var all := front + back;
      assert all[..|all| - 1] == front + back[..|back| - 1];
      TotalGrows(store, front, back[..|back| - 1]);
    }
  }

  lemma TotalOfOneMore(store: Store, ids: seq<Id>, id: Id)
    ensures TotalBytes(store, ids + [id]) == TotalBytes(store, ids) + (if id in ids then 0 else Size(store, id))
  {
    assert (ids + [id])[..|ids|] == ids;
  }

  /** The cache of artifacts read so far, and the bytes they took. */
  ghost predicate Cached(c: Crypto, store: Store, ids: seq<Id>, retained: map<Id, Bytes>, total: nat) {
    && (forall id :: id in retained <==> id in ids)
    && (forall id {:trigger retained[id]} ::
        id in retained ==> Holds(c, store, id) && retained[id] == store[Artifact(id)])
    && total == TotalBytes(store, ids) <= TOTAL_LIMIT
  }

  /** `readArtifact`: from the cache, or from the store within the budget. */
  method ReadArtifact(c: Crypto, store: Store, ghost ids: seq<Id>, retained: map<Id, Bytes>, total: nat, id: Id)
    returns (ok: bool, retained': map<Id, Bytes>, total': nat)
    requires Cached(c, store, ids, retained, total)
    ensures ok <==> Holds(c, store, id) && TotalBytes(store, ids + [id]) <= TOTAL_LIMIT
    ensures ok ==>
              && Cached(c, store, ids + [id], retained', total')
              && id in retained' && retained'[id] == store[Artifact(id)]
  {
    TotalOfOneMore(store, ids, id);
    retained', total' := retained, total;
    if id in retained {
      assert retained[id] == store[Artifact(id)];
      return true, retained, total;
    }
    if Artifact(id) !in store || |store[Artifact(id)]| > ARTIFACT_LIMIT {
      return false, retained, total;
    }
    var bytes := store[Artifact(id)];
    total' := total + |bytes|;
    if total' > TOTAL_LIMIT || c.digest(bytes) != id {
      return false, retained, total;
    }
    retained' := retained[id := bytes];
    ok := true;
  }

  lemma {:induction false} EvidenceOfPrefix(c: Crypto, store: Store, refs: seq<Id>, k: nat)
    requires k <= |refs| && EvidenceHolds(c, store, refs)
    ensures EvidenceHolds(c, store, refs[..k])
  {
    if k == |refs| {
      assert refs[..k] == refs;
    } else {
      assert refs[..|refs| - 1][..k] == refs[..k];
      EvidenceOfPrefix(c, store, refs[..|refs| - 1], k);
    }
  }

  lemma EvidenceGrows(c: Crypto, store: Store, refs: seq<Id>, id: Id)
    ensures EvidenceHolds(c, store, refs + [id]) <==> EvidenceHolds(c, store, refs) && Holds(c, store, id)
  {
    assert (refs + [id])[..|refs|] == refs;
  }

  lemma TotalOfPrefix(store: Store, ids: seq<Id>, refs: seq<Id>, k: nat)
    requires k <= |refs|
    ensures TotalBytes(store, ids + refs[..k]) <= TotalBytes(store, ids + refs)
  {
    assert ids + refs == (ids + refs[..k]) + refs[k..];
    TotalGrows(store, ids + refs[..k], refs[k..]);
  }

  lemma EvidenceFails(c: Crypto, store: Store, ids: seq<Id>, refs: seq<Id>, k: nat)
    requires k < |refs|
    requires !(Holds(c, store, refs[k]) && TotalBytes(store, ids + refs[..k] + [refs[k]]) <= TOTAL_LIMIT)
    ensures !(EvidenceHolds(c, store, refs) && TotalBytes(store, ids + refs) <= TOTAL_LIMIT)
  {
    TakeStep(refs, k);
    assert ids + refs[..k] + [refs[k]] == ids + refs[..k + 1];
    TotalOfPrefix(store, ids, refs, k + 1);
    if EvidenceHolds(c, store, refs) {
      EvidenceOfPrefix(c, store, refs, k + 1);
      EvidenceGrows(c, store, refs[..k], refs[k]);
    }
  }

  ghost predicate EvidenceRead(c: Crypto, store: Store, ids: seq<Id>, refs: seq<Id>, k: nat, retained: map<Id, Bytes>,
                               total: nat)
    requires k <= |refs|
  {
    Cached(c, store, ids + refs[..k], retained, total) && EvidenceHolds(c, store, refs[..k])
  }

  lemma OneMoreEvidence(c: Crypto, store: Store, ids: seq<Id>, refs: seq<Id>, k: nat, retained: map<Id, Bytes>,
                        total: nat)
    requires k < |refs| && EvidenceHolds(c, store, refs[..k]) && Holds(c, store, refs[k])
    requires Cached(c, store, ids + refs[..k] + [refs[k]], retained, total)
    ensures EvidenceRead(c, store, ids, refs, k + 1, retained, total)
  {
    EvidenceGrows(c, store, refs[..k], refs[k]);
    TakeStep(refs, k);
    Assoc(ids, refs[..k], [refs[k]]);
  }

  lemma Assoc<T>(a: seq<T>, b: seq<T>, c: seq<T>)
    ensures a + (b + c) == (a + b) + c
  {
  }

  method ReadEvidence(c: Crypto, store: Store, ghost ids: seq<Id>, retained: map<Id, Bytes>, total: nat, refs: seq<Id>)
    returns (ok: bool, retained': map<Id, Bytes>, total': nat)
    requires Cached(c, store, ids, retained, total)
    ensures ok <==> EvidenceHolds(c, store, refs) && TotalBytes(store, ids + refs) <= TOTAL_LIMIT
    ensures ok ==> Cached(c, store, ids + refs, retained', total')
  {
    retained', total' := retained, total;
    assert ids + refs[..0] == ids;
    for k := 0 to |refs|
      invariant EvidenceRead(c, store, ids, refs, k, retained', total')
    {
      ok, retained', total' := ReadArtifact(c, store, ids + refs[..k], retained', total', refs[k]);
      if !ok {
        EvidenceFails(c, store, ids, refs, k);
        return;
      }
      OneMoreEvidence(c, store, ids, refs, k, retained', total');
    }
    TakeAll(refs);
    ok := true;
  }

  /** The rows are collected newest first... */
  function Reversed(rows: seq<Row>): seq<Row> {
    if rows == [] then [] else [rows[|rows| - 1]] + Reversed(rows[..|rows| - 1])
  }

  /** ...and this is what has been read for them. */
  function Asked(rows: seq<Row>): seq<Id> {
    if rows == [] then []
    else
      var oldest := rows[|rows| - 1];
      Asked(rows[..|rows| - 1]) + OwnReads(oldest)
  }

  function OwnReads(row: Row): seq<Id> {
    [row.id] + row.entry.event.evidenceIds
  }

  lemma ReadOrderOfOneMore(rest: seq<Row>, row: Row)
    ensures ReadOrder(rest + [row]) == OwnReads(row) + ReadOrder(rest)
  {
    assert (rest + [row])[..|rest|] == rest;
  }

  lemma {:induction false} ReadOrderSplits(rest: seq<Row>, rows: seq<Row>)
    ensures ReadOrder(rest + Reversed(rows)) == Asked(rows) + ReadOrder(rest)
    decreases |rows|
  {
    if rows == [] {
      assert rest + Reversed(rows) == rest;
    } else {
      var oldest, front := rows[|rows| - 1], rows[..|rows| - 1];
      Assoc(rest, [oldest], Reversed(front));
      ReadOrderSplits(rest + [oldest], front);
      ReadOrderOfOneMore(rest, oldest);
      Assoc(Asked(front), OwnReads(oldest), ReadOrder(rest));
    }
  }

  function WithTail(rest: Option<seq<Row>>, tail: seq<Row>): Option<seq<Row>> {
    if rest.None? then None else Some(rest.value + tail)
  }

  /** Whether the budget suffices for a chain, when there is one. */
  predicate Affordable(store: Store, rows: Option<seq<Row>>) {
    rows.Some? && TotalBytes(store, ReadOrder(rows.value)) <= TOTAL_LIMIT
  }

  lemma ChainEndsWithItsRow(c: Crypto, store: Store, trust: Trust, now: nat, id: Id, sequence: nat)
    requires Chain(c, store, trust, now, Some(id), sequence).Some?
    ensures RowAt(c, store, trust, now, id, sequence).Some?
    ensures var rows := Chain(c, store, trust, now, Some(id), sequence).value;
            rows != [] && rows[|rows| - 1] == RowAt(c, store, trust, now, id, sequence).value
  {
  }

  /** A row's own reads already exceed the budget, so the whole chain does. */
  lemma OwnReadsAreTooLarge(store: Store, rest: seq<Row>, rows: seq<Row>)
    requires rest != [] && TotalBytes(store, Asked(rows) + OwnReads(rest[|rest| - 1])) > TOTAL_LIMIT
    ensures TotalBytes(store, ReadOrder(rest + Reversed(rows))) > TOTAL_LIMIT
  {
    var own, older := OwnReads(rest[|rest| - 1]), ReadOrder(rest[..|rest| - 1]);
    ReadOrderSplits(rest, rows);
    Assoc(Asked(rows), own, older);
    TotalGrows(store, Asked(rows) + own, older);
  }

  lemma ChainIsTooLarge(c: Crypto, store: Store, trust: Trust, now: nat, id: Id, sequence: nat, rows: seq<Row>)
    requires RowAt(c, store, trust, now, id, sequence).Some? ==>
               TotalBytes(store, Asked(rows) + OwnReads(RowAt(c, store, trust, now, id, sequence).value)) > TOTAL_LIMIT
    ensures !Affordable(store, WithTail(Chain(c, store, trust, now, Some(id), sequence), Reversed(rows)))
  {
    var chain := Chain(c, store, trust, now, Some(id), sequence);
    if chain.Some? {
      ChainEndsWithItsRow(c, store, trust, now, id, sequence);
      OwnReadsAreTooLarge(store, chain.value, rows);
    }
  }

  /** Where the walk back from the head stands. */
  ghost predicate Walking(c: Crypto, store: Store, trust: Trust, now: nat, head: Head,
                          id: Option<Id>, sequence: int, rows: seq<Row>, retained: map<Id, Bytes>, total: nat)
  {
    && -1 <= sequence
    && Cached(c, store, Asked(rows), retained, total)
    && Chain(c, store, trust, now, Some(head.entryId), head.sequence)
       == WithTail(Chain(c, store, trust, now, id, sequence), Reversed(rows))
  }

  lemma WalkStarts(c: Crypto, store: Store, trust: Trust, now: nat, head: Head)
    ensures Walking(c, store, trust, now, head, Some(head.entryId), head.sequence, [], map[], 0)
  {
    var chain := Chain(c, store, trust, now, Some(head.entryId), head.sequence);
    if chain.Some? {
      assert chain.value + [] == chain.value;
    }
  }

  lemma WalkGoesOn(c: Crypto, store: Store, trust: Trust, now: nat, head: Head,
                   id: Id, sequence: nat, rows: seq<Row>, row: Row, retained: map<Id, Bytes>, total: nat)
    requires Chain(c, store, trust, now, Some(head.entryId), head.sequence)
          == WithTail(Chain(c, store, trust, now, Some(id), sequence), Reversed(rows))
    requires RowAt(c, store, trust, now, id, sequence) == Some(row)
    requires Cached(c, store, Asked(rows) + OwnReads(row), retained, total)
    ensures Walking(c, store, trust, now, head, row.entry.previousId, sequence - 1, rows + [row], retained, total)
  {
    assert (rows + [row])[..|rows|] == rows;
    var rest := Chain(c, store, trust, now, row.entry.previousId, sequence - 1);
    if rest.Some? {
      Assoc(rest.value, [row], Reversed(rows));
    }
  }

  lemma WalkFails(c: Crypto, store: Store, trust: Trust, now: nat, head: Head,
                  id: Option<Id>, sequence: nat, rows: seq<Row>)
    requires Chain(c, store, trust, now, Some(head.entryId), head.sequence)
          == WithTail(Chain(c, store, trust, now, id, sequence), Reversed(rows))
    requires id.Some? && RowAt(c, store, trust, now, id.value, sequence).Some? ==>
               var row := RowAt(c, store, trust, now, id.value, sequence).value;
               TotalBytes(store, Asked(rows) + OwnReads(row)) > TOTAL_LIMIT
    ensures !Affordable(store, Chain(c, store, trust, now, Some(head.entryId), head.sequence))
  {
    if id.Some? {
      ChainIsTooLarge(c, store, trust, now, id.value, sequence, rows);
    }
  }

  lemma FirstReadFails(c: Crypto, store: Store, trust: Trust, now: nat, id: Id, sequence: nat, rows: seq<Row>)
    requires !(Holds(c, store, id) && TotalBytes(store, Asked(rows) + [id]) <= TOTAL_LIMIT)
    ensures RowAt(c, store, trust, now, id, sequence).Some? ==>
              TotalBytes(store, Asked(rows) + OwnReads(RowAt(c, store, trust, now, id, sequence).value)) > TOTAL_LIMIT
  {
    var row := RowAt(c, store, trust, now, id, sequence);
    if row.Some? {
      var refs := row.value.entry.event.evidenceIds;
      Assoc(Asked(rows), [id], refs);
      TotalGrows(store, Asked(rows) + [id], refs);
    }
  }

  lemma WalkEnds(c: Crypto, store: Store, trust: Trust, now: nat, head: Head,
                 id: Option<Id>, rows: seq<Row>, retained: map<Id, Bytes>, total: nat)
    requires Walking(c, store, trust, now, head, id, -1, rows, retained, total)
    ensures Chain(c, store, trust, now, Some(head.entryId), head.sequence)
         == if id.Some? then None else Some(Reversed(rows))
    ensures TotalBytes(store, ReadOrder(Reversed(rows))) <= TOTAL_LIMIT
  {
    ReadOrderSplits([], rows);
    assert [] + Reversed(rows) == Reversed(rows);
    assert Asked(rows) + [] == Asked(rows);
  }

  lemma RowOfHeld(c: Crypto, store: Store, trust: Trust, now: nat, id: Id, sequence: int)
    requires Holds(c, store, id)
    ensures var entry := c.openEntry(store[Artifact(id)]);
            RowAt(c, store, trust, now, id, sequence)
            == if entry.Some? && WellFormed(entry.value) && InScope(entry.value, trust, sequence, now)
                  && EvidenceHolds(c, store, entry.value.event.evidenceIds)
                  && ReceiptIsEvidence(entry.value.event)
               then Some(Row(id, entry.value))
               else None
  {
  }

  /** The loop of `readKaraokeMaintenanceJournal`, back from the head's entry to the first. */
  method WalkBack(c: Crypto, store: Store, trust: Trust, now: nat, head: Head) returns (r: Option<seq<Row>>)
    ensures var chain := Chain(c, store, trust, now, Some(head.entryId), head.sequence);
            r == if Affordable(store, chain) then chain else None
  {
    hide Cached, Chain, RowAt, TotalBytes, EvidenceHolds, Asked, Reversed, ReadOrder;
    var rows: seq<Row> := [];
    var retained: map<Id, Bytes>, total: nat := map[], 0;
    var id, sequence: int := Some(head.entryId), head.sequence;
    WalkStarts(c, store, trust, now, head);
    while sequence >= 0
      invariant Walking(c, store, trust, now, head, id, sequence, rows, retained, total)
      decreases sequence
    {
      if id.None? {
        WalkFails(c, store, trust, now, head, id, sequence, rows);
        return None;
      }
      var ok: bool;
      ok, retained, total := ReadArtifact(c, store, Asked(rows), retained, total, id.value);
      if !ok {
        FirstReadFails(c, store, trust, now, id.value, sequence, rows);
        WalkFails(c, store, trust, now, head, id, sequence, rows);
        return None;
      }
      RowOfHeld(c, store, trust, now, id.value, sequence);
      var entry := c.openEntry(retained[id.value]);
      if entry.None? || !WellFormed(entry.value) || !InScope(entry.value, trust, sequence, now) {
        WalkFails(c, store, trust, now, head, id, sequence, rows);
        return None;
      }
      var refs := entry.value.event.evidenceIds;
      Assoc(Asked(rows), [id.value], refs);
      ok, retained, total := ReadEvidence(c, store, Asked(rows) + [id.value], retained, total, refs);
      if !ok || !ReceiptIsEvidence(entry.value.event) {
        WalkFails(c, store, trust, now, head, id, sequence, rows);
        return None;
      }
      var row := Row(id.value, entry.value);
      WalkGoesOn(c, store, trust, now, head, id.value, sequence, rows, row, retained, total);
      rows := rows + [row];
      id := entry.value.previousId;
      sequence := sequence - 1;
    }
    WalkEnds(c, store, trust, now, head, id, rows, retained, total);
    r := if id.Some? then None else Some(Reversed(rows));
  }

  /** `readKaraokeMaintenanceJournal`. */
  method ReadKaraokeMaintenanceJournal(c: Crypto, store: Store, trust: Trust, now: nat) returns (r: Option<Journal>)
    ensures r == Read(c, store, trust, now)
  {
    var head := OpenedHead(c, store, trust);
    if head.None? {
      return None;
    }
    var rows := WalkBack(c, store, trust, now, head.value);
    if rows.None? || !Retains(rows.value, trust.expectedHead) {
      return None;
    }
    var machine := ValidateJournalOrder(Entries(rows.value));
    if machine.Failure? {
      return None;
    }
    r := Some(Journal(head.value, rows.value, machine.value));
  }

  // ---- What two readers agree on ----------------------------------------------------

  /** A row's place in a chain: the chain that ends in it is the part up to it. */
  lemma {:induction false} ChainUpTo(c: Crypto, store: Store, trust: Trust, now: nat, id: Option<Id>, sequence: int,
                                     k: nat)
    requires sequence >= -1 && Chain(c, store, trust, now, id, sequence).Some?
    requires k < |Chain(c, store, trust, now, id, sequence).value|
    ensures var rows := Chain(c, store, trust, now, id, sequence).value;
            |rows| == sequence + 1 && Chain(c, store, trust, now, Some(rows[k].id), k) == Some(rows[..k + 1])
    decreases sequence + 1
  {
    var rows := Chain(c, store, trust, now, id, sequence).value;
    ChainLength(c, store, trust, now, id, sequence);
    if k == |rows| - 1 {
      TakeAll(rows);
    } else {
      var row := RowAt(c, store, trust, now, id.value, sequence).value;
      var rest := Chain(c, store, trust, now, row.entry.previousId, sequence - 1).value;
      assert rows[..k + 1] == rest[..k + 1];
      ChainUpTo(c, store, trust, now, row.entry.previousId, sequence - 1, k);
    }
  }

  lemma {:induction false} ChainLength(c: Crypto, store: Store, trust: Trust, now: nat, id: Option<Id>, sequence: int)
    requires sequence >= -1 && Chain(c, store, trust, now, id, sequence).Some?
    ensures |Chain(c, store, trust, now, id, sequence).value| == sequence + 1
    decreases sequence + 1
  {
    if sequence >= 0 {
      var row := RowAt(c, store, trust, now, id.value, sequence).value;
      ChainLength(c, store, trust, now, row.entry.previousId, sequence - 1);
    }
  }

  /** An id names one content, so it names one entry, whatever store it is read from. */
  lemma SameRow(c: Crypto, store1: Store, trust1: Trust, now1: nat, sequence1: int,
                store2: Store, trust2: Trust, now2: nat, sequence2: int, id: Id)
    requires CollisionFree(c)
    requires RowAt(c, store1, trust1, now1, id, sequence1).Some? && RowAt(c, store2, trust2, now2, id, sequence2).Some?
    ensures sequence1 == sequence2
    ensures RowAt(c, store1, trust1, now1, id, sequence1) == RowAt(c, store2, trust2, now2, id, sequence2)
  {
    assert c.digest(store1[Artifact(id)]) == c.digest(store2[Artifact(id)]);
  }

  lemma {:induction false} SameChain(c: Crypto, store1: Store, trust1: Trust, now1: nat, sequence1: int,
                                     store2: Store, trust2: Trust, now2: nat, sequence2: int, id: Option<Id>)
    requires CollisionFree(c) && sequence1 >= -1 && sequence2 >= -1
    requires Chain(c, store1, trust1, now1, id, sequence1).Some? && Chain(c, store2, trust2, now2, id, sequence2).Some?
    ensures sequence1 == sequence2
    ensures Chain(c, store1, trust1, now1, id, sequence1) == Chain(c, store2, trust2, now2, id, sequence2)
    decreases sequence1 + 1
  {
    if id.Some? {
      SameRow(c, store1, trust1, now1, sequence1, store2, trust2, now2, sequence2, id.value);
      var row := RowAt(c, store1, trust1, now1, id.value, sequence1).value;
      SameChain(c, store1, trust1, now1, sequence1 - 1, store2, trust2, now2, sequence2 - 1, row.entry.previousId);
    }
  }

  /** Two reads, of whatever stores, that contain the same entry id agree on every entry up
      to it. */
  lemma ReadsAgree(c: Crypto, store1: Store, trust1: Trust, now1: nat, store2: Store, trust2: Trust, now2: nat, i: nat,
                   k: nat)
    requires CollisionFree(c)
    requires Read(c, store1, trust1, now1).Some? && Read(c, store2, trust2, now2).Some?
    requires var rows1, rows2 := Read(c, store1, trust1, now1).value.rows, Read(c, store2, trust2, now2).value.rows;
             i < |rows1| && k < |rows2| && rows1[i].id == rows2[k].id
    ensures i == k
    ensures Read(c, store1, trust1, now1).value.rows[..i + 1] == Read(c, store2, trust2, now2).value.rows[..i + 1]
  {
    var j1, j2 := Read(c, store1, trust1, now1).value, Read(c, store2, trust2, now2).value;
    ChainUpTo(c, store1, trust1, now1, Some(j1.head.entryId), j1.head.sequence, i);
    ChainUpTo(c, store2, trust2, now2, Some(j2.head.entryId), j2.head.sequence, k);
    SameChain(c, store1, trust1, now1, i, store2, trust2, now2, k, Some(j1.rows[i].id));
  }

  /** A read that passes the check against a retained head extends the whole history that
      was read when that head was retained: nothing was rolled back, cut or replaced. */
  lemma RetainedHistoryIsExtended(c: Crypto, store1: Store, trust1: Trust, now1: nat, store2: Store, trust2: Trust,
                                  now2: nat)
    requires CollisionFree(c)
    requires Read(c, store1, trust1, now1).Some? && Read(c, store2, trust2, now2).Some?
    requires var head := Read(c, store1, trust1, now1).value.head;
             trust2.expectedHead == Some(Mark(head.entryId, head.sequence))
    ensures Read(c, store1, trust1, now1).value.rows <= Read(c, store2, trust2, now2).value.rows
  {
    var j1, j2 := Read(c, store1, trust1, now1).value, Read(c, store2, trust2, now2).value;
    var last := |j1.rows| - 1;
    ChainLength(c, store1, trust1, now1, Some(j1.head.entryId), j1.head.sequence);
    var k :| 0 <= k < |j2.rows| && j2.rows[k].id == j1.head.entryId && j2.rows[k].entry.sequence == j1.head.sequence;
    ReadsAgree(c, store1, trust1, now1, store2, trust2, now2, last, k);
    TakeAll(j1.rows);
  }
}
