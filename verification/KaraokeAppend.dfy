/** What the files of a karaoke maintenance journal read as, before and after the head is
    replaced: the crash states of scripts/karaoke-maintenance-journal.ts's append. */
module KaraokeAppend {
  import opened Outcomes
  import opened KaraokeOrder
  import opened KaraokeJournal

  // ---- States before the head is replaced -------------------------------------------

  ghost predicate SameFile(s0: Store, s: Store, name: Name) {
    (name in s <==> name in s0) && (name in s0 ==> s[name] == s0[name])
  }

  /** Artifacts are never changed or removed. */
  ghost predicate Keeps(s0: Store, s: Store) {
    forall id :: Artifact(id) in s0 ==> Artifact(id) in s && s[Artifact(id)] == s0[Artifact(id)]
  }

  /** Files may have been added, none that a reader of `s0` looks at was changed. */
  ghost predicate Before(s0: Store, s: Store) {
    Keeps(s0, s) && SameFile(s0, s, Manifest)
  }

  lemma {:induction false} EvidenceKept(c: Crypto, s0: Store, s: Store, ids: seq<Id>)
    requires Keeps(s0, s) && EvidenceHolds(c, s0, ids)
    ensures EvidenceHolds(c, s, ids)
  {
    if ids != [] {
      EvidenceKept(c, s0, s, ids[..|ids| - 1]);
    }
  }

  lemma RowKept(c: Crypto, s0: Store, s: Store, trust: Trust, now: nat, id: Id, sequence: int)
    requires Keeps(s0, s) && RowAt(c, s0, trust, now, id, sequence).Some?
    ensures RowAt(c, s, trust, now, id, sequence) == RowAt(c, s0, trust, now, id, sequence)
  {
    EvidenceKept(c, s0, s, RowAt(c, s0, trust, now, id, sequence).value.entry.event.evidenceIds);
  }

  lemma {:induction false} ChainKept(c: Crypto, s0: Store, s: Store, trust: Trust, now: nat, id: Option<Id>,
                                     sequence: int)
    requires sequence >= -1 && Keeps(s0, s) && Chain(c, s0, trust, now, id, sequence).Some?
    ensures Chain(c, s, trust, now, id, sequence) == Chain(c, s0, trust, now, id, sequence)
    decreases sequence + 1
  {
    if sequence >= 0 {
      RowKept(c, s0, s, trust, now, id.value, sequence);
      var row := RowAt(c, s0, trust, now, id.value, sequence).value;
      ChainKept(c, s0, s, trust, now, row.entry.previousId, sequence - 1);
    }
  }

  /** Every artifact of a list is there. */
  ghost predicate AllHold(c: Crypto, store: Store, ids: seq<Id>) {
    forall k :: 0 <= k < |ids| ==> Holds(c, store, ids[k])
  }

  lemma {:induction false} EvidenceIsThere(c: Crypto, store: Store, ids: seq<Id>)
    requires EvidenceHolds(c, store, ids)
    ensures AllHold(c, store, ids)
  {
    if ids != [] {
      EvidenceIsThere(c, store, ids[..|ids| - 1]);
      SplitLast(ids);
    }
  }

  lemma AllHoldTogether(c: Crypto, store: Store, a: seq<Id>, b: seq<Id>)
    requires AllHold(c, store, a) && AllHold(c, store, b)
    ensures AllHold(c, store, a + b)
  {
  }

  lemma {:induction false} ChainIsThere(c: Crypto, store: Store, trust: Trust, now: nat, id: Option<Id>, sequence: int)
    requires sequence >= -1 && Chain(c, store, trust, now, id, sequence).Some?
    ensures AllHold(c, store, ReadOrder(Chain(c, store, trust, now, id, sequence).value))
    decreases sequence + 1
  {
    if sequence >= 0 {
      var row := RowAt(c, store, trust, now, id.value, sequence).value;
      var rest := Chain(c, store, trust, now, row.entry.previousId, sequence - 1).value;
      ChainIsThere(c, store, trust, now, row.entry.previousId, sequence - 1);
      EvidenceIsThere(c, store, row.entry.event.evidenceIds);
      AllHoldTogether(c, store, OwnReads(row), ReadOrder(rest));
      ReadOrderOfOneMore(rest, row);
    }
  }

  lemma {:induction false} TotalKept(c: Crypto, s0: Store, s: Store, ids: seq<Id>)
    requires Keeps(s0, s) && AllHold(c, s0, ids)
    ensures TotalBytes(s, ids) == TotalBytes(s0, ids)
  {
    if ids != [] {
      assert Holds(c, s0, ids[|ids| - 1]);
      assert forall k :: 0 <= k < |ids| - 1 ==> ids[..|ids| - 1][k] == ids[k];
      TotalKept(c, s0, s, ids[..|ids| - 1]);
    }
  }

  /** A store that only gained files reads as it did. */
  lemma ReadsAsBefore(c: Crypto, s0: Store, s: Store, trust: Trust, now: nat)
    requires Before(s0, s) && Read(c, s0, trust, now).Some?
    ensures Read(c, s, trust, now) == Read(c, s0, trust, now)
  {
    var head := OpenedHead(c, s0, trust).value;
    ChainKept(c, s0, s, trust, now, Some(head.entryId), head.sequence);
    ChainIsThere(c, s0, trust, now, Some(head.entryId), head.sequence);
    TotalKept(c, s0, s, ReadOrder(Read(c, s0, trust, now).value.rows));
  }

  // ---- States after the head is replaced --------------------------------------------

  /** The files a completed append leaves. */
  ghost predicate Advanced(c: Crypto, s0: Store, s: Store, entry: Entry) {
    var id := EntryId(c, entry);
    && Keeps(s0, s)
    && Manifest in s && s[Manifest] == c.sealHead(HeadOf(entry, id))
    && Holds(c, s, id) && s[Artifact(id)] == c.sealEntry(entry)
    && EvidenceHolds(c, s, entry.event.evidenceIds)
  }

  /** `entry` is the one that follows `rows` under `trust`, and it is admitted. */
  predicate Follows(c: Crypto, rows: seq<Row>, entry: Entry, trust: Trust, now: nat) {
    && entry.sequence == |rows|
    && entry.previousId == (if rows == [] then None else Some(rows[|rows| - 1].id))
    && WellFormed(entry) && InScope(entry, trust, |rows|, now)
    && c.openEntry(c.sealEntry(entry)).Some?
    && Order(Entries(rows) + [entry]).Success?
  }

  /** The chain the append started from: the old journal's rows, or none. */
  ghost predicate StartsFrom(c: Crypto, s0: Store, trust: Trust, now: nat, rows: seq<Row>) {
    Chain(c, s0, trust, now, if rows == [] then None else Some(rows[|rows| - 1].id), |rows| - 1) == Some(rows)
  }

  /** The chain does not depend on the head a caller retains. */
  lemma {:induction false} MarkIsNotInTheChain(c: Crypto, store: Store, trust: Trust, now: nat, id: Option<Id>,
                                               sequence: int, mark: Option<Mark>)
    requires sequence >= -1
    ensures Chain(c, store, trust.(expectedHead := mark), now, id, sequence)
              == Chain(c, store, trust, now, id, sequence)
    decreases sequence + 1
  {
    if sequence >= 0 && id.Some? && RowAt(c, store, trust, now, id.value, sequence).Some? {
      MarkIsNotInTheChain(c, store, trust, now, RowAt(c, store, trust, now, id.value, sequence).value.entry.previousId,
                          sequence - 1, mark);
    }
  }

  lemma EntriesGrow(rows: seq<Row>, row: Row)
    ensures Entries(rows + [row]) == Entries(rows) + [row.entry]
  {
    assert (rows + [row])[..|rows|] == rows;
  }

  lemma NewRow(c: Crypto, s0: Store, s: Store, trust: Trust, now: nat, rows: seq<Row>, entry: Entry)
    requires SealsOpen(c) && Advanced(c, s0, s, entry) && Follows(c, rows, entry, trust, now)
    ensures RowAt(c, s, trust, now, EntryId(c, entry), |rows|)
         == if ReceiptIsEvidence(entry.event) then Some(Row(EntryId(c, entry), entry)) else None
  {
    assert c.openEntry(s[Artifact(EntryId(c, entry))]) == Some(entry);
  }

  lemma NewChain(c: Crypto, s0: Store, s: Store, trust: Trust, now: nat, rows: seq<Row>, entry: Entry)
    requires SealsOpen(c) && Advanced(c, s0, s, entry) && Follows(c, rows, entry, trust, now)
    requires StartsFrom(c, s0, trust, now, rows)
    ensures Chain(c, s, trust, now, Some(EntryId(c, entry)), |rows|)
         == if ReceiptIsEvidence(entry.event) then Some(rows + [Row(EntryId(c, entry), entry)]) else None
  {
    NewRow(c, s0, s, trust, now, rows, entry);
    ChainKept(c, s0, s, trust, now, entry.previousId, |rows| - 1);
  }

  /** A sealed head is one a reader reads. (In the code it always is: its fields are digests
      and a small number.) */
  predicate HeadFits(c: Crypto, entry: Entry) {
    |c.sealHead(HeadOf(entry, EntryId(c, entry)))| <= ARTIFACT_LIMIT
  }

  lemma NewHead(c: Crypto, s0: Store, s: Store, trust: Trust, now: nat, rows: seq<Row>, entry: Entry)
    requires SealsOpen(c) && Advanced(c, s0, s, entry) && Follows(c, rows, entry, trust, now)
    ensures OpenedHead(c, s, trust) == if HeadFits(c, entry) then Some(HeadOf(entry, EntryId(c, entry))) else None
  {
  }

  /** A mark that is among the rows, or is the new row's. */
  predicate Marks(rows: seq<Row>, row: Row, mark: Option<Mark>) {
    Retains(rows, mark) || mark == Some(Mark(row.id, row.entry.sequence))
  }

  lemma StillRetained(rows: seq<Row>, row: Row, mark: Option<Mark>)
    requires Marks(rows, row, mark)
    ensures Retains(rows + [row], mark)
  {
    var grown := rows + [row];
    assert grown[|rows|] == row;
    if Retains(rows, mark) && mark.Some? {
      var k :| 0 <= k < |rows| && rows[k].id == mark.value.entryId && rows[k].entry.sequence == mark.value.sequence;
      assert grown[k] == rows[k];
    }
  }

  /** The content ids of a list of artifacts. */
  function Digests(c: Crypto, artifacts: seq<Bytes>): set<Id> {
    set b | b in artifacts :: c.digest(b)
  }

  /** Every evidence id is the id of a supplied artifact. */
  predicate AllSupplied(c: Crypto, artifacts: seq<Bytes>, refs: seq<Id>) {
    forall id | id in refs :: id in Digests(c, artifacts)
  }

  /** The store with some contents put under their ids, one after the other. */
  function Stocked(c: Crypto, s0: Store, contents: seq<Bytes>): Store {
    if contents == [] then s0
    else
      var last := contents[|contents| - 1];
      Stocked(c, s0, contents[..|contents| - 1])[Artifact(c.digest(last)) := last]
  }

  lemma {:induction false} StockedHas(c: Crypto, s0: Store, contents: seq<Bytes>, bytes: Bytes)
    requires CollisionFree(c)
    requires bytes in contents || (Artifact(c.digest(bytes)) in s0 && s0[Artifact(c.digest(bytes))] == bytes)
    ensures Artifact(c.digest(bytes)) in Stocked(c, s0, contents)
    ensures Stocked(c, s0, contents)[Artifact(c.digest(bytes))] == bytes
  {
    if contents != [] {
      var front, last := contents[..|contents| - 1], contents[|contents| - 1];
      SplitLast(contents);
      if c.digest(last) == c.digest(bytes) {
        assert last == bytes;
      } else {
        StockedHas(c, s0, front, bytes);
      }
    }
  }

  /** Two stores have the same sizes for a list of artifacts. */
  ghost predicate SameSizes(s1: Store, s2: Store, ids: seq<Id>) {
    forall k :: 0 <= k < |ids| ==> Size(s1, ids[k]) == Size(s2, ids[k])
  }

  lemma {:induction false} SameTotal(s1: Store, s2: Store, ids: seq<Id>)
    requires SameSizes(s1, s2, ids)
    ensures TotalBytes(s1, ids) == TotalBytes(s2, ids)
  {
    if ids != [] {
      assert forall k :: 0 <= k < |ids| - 1 ==> ids[..|ids| - 1][k] == ids[k];
      SameTotal(s1, s2, ids[..|ids| - 1]);
    }
  }

  /** An artifact of the old store or of the new contents has its size in the stocked store. */
  lemma ForeseenSize(c: Crypto, s0: Store, s: Store, contents: seq<Bytes>, id: Id)
    requires CollisionFree(c) && Keeps(s0, s) && Holds(c, s, id)
    requires Holds(c, s0, id) || id in Digests(c, contents)
    ensures Size(s, id) == Size(Stocked(c, s0, contents), id)
  {
    var bytes := s[Artifact(id)];
    if !Holds(c, s0, id) {
      var b :| b in contents && c.digest(b) == id;
      assert b == bytes;
    }
    StockedHas(c, s0, contents, bytes);
  }

  lemma ForeseenSizes(c: Crypto, s0: Store, s: Store, contents: seq<Bytes>, ids: seq<Id>)
    requires CollisionFree(c) && Keeps(s0, s) && AllHold(c, s, ids)
    requires AllHold(c, s0, ids) || AllSupplied(c, contents, ids)
    ensures SameSizes(s, Stocked(c, s0, contents), ids)
  {
    forall k | 0 <= k < |ids|
      ensures Size(s, ids[k]) == Size(Stocked(c, s0, contents), ids[k])
    {
      ForeseenSize(c, s0, s, contents, ids[k]);
    }
  }

  lemma SameSizesTogether(s1: Store, s2: Store, a: seq<Id>, b: seq<Id>)
    requires SameSizes(s1, s2, a) && SameSizes(s1, s2, b)
    ensures SameSizes(s1, s2, a + b)
  {
  }

  lemma MoreIsSupplied(c: Crypto, artifacts: seq<Bytes>, sealed: Bytes, refs: seq<Id>)
    requires AllSupplied(c, artifacts, refs)
    ensures AllSupplied(c, artifacts + [sealed], refs) && AllSupplied(c, artifacts + [sealed], [c.digest(sealed)])
  {
    var grown := artifacts + [sealed];
    assert sealed in grown;
    forall id | id in refs
      ensures id in Digests(c, grown)
    {
      var b :| b in artifacts && c.digest(b) == id;
      assert b in grown;
    }
  }

  /** What a journal and one more entry take, told from the store before the entry. */
  function ForeseenBytes(c: Crypto, s0: Store, artifacts: seq<Bytes>, rows: seq<Row>, entry: Entry): nat {
    TotalBytes(Stocked(c, s0, artifacts + [c.sealEntry(entry)]), ReadOrder(rows + [Row(EntryId(c, entry), entry)]))
  }

  lemma BytesAreForeseen(c: Crypto, s0: Store, s: Store, artifacts: seq<Bytes>, rows: seq<Row>, entry: Entry)
    requires CollisionFree(c) && Advanced(c, s0, s, entry) && AllSupplied(c, artifacts, entry.event.evidenceIds)
    requires AllHold(c, s0, ReadOrder(rows))
    ensures TotalBytes(s, ReadOrder(rows + [Row(EntryId(c, entry), entry)]))
         == ForeseenBytes(c, s0, artifacts, rows, entry)
  {
    var id, refs, older := EntryId(c, entry), entry.event.evidenceIds, ReadOrder(rows);
    var sealed := c.sealEntry(entry);
    var contents := artifacts + [sealed];
    var stocked := Stocked(c, s0, contents);
    MoreIsSupplied(c, artifacts, sealed, refs);
    EvidenceIsThere(c, s, refs);
    ForeseenSizes(c, s0, s, contents, [id]);
    ForeseenSizes(c, s0, s, contents, refs);
    StillThere(c, s0, s, older);
    ForeseenSizes(c, s0, s, contents, older);
    SameSizesTogether(s, stocked, [id], refs);
    SameSizesTogether(s, stocked, [id] + refs, older);
    ReadOrderOfOneMore(rows, Row(id, entry));
    SameTotal(s, stocked, ReadOrder(rows + [Row(id, entry)]));
  }

  lemma StillThere(c: Crypto, s0: Store, s: Store, ids: seq<Id>)
    requires Keeps(s0, s) && AllHold(c, s0, ids)
    ensures AllHold(c, s, ids)
  {
    forall k | 0 <= k < |ids|
      ensures Holds(c, s, ids[k])
    {
      assert Holds(c, s0, ids[k]);
    }
  }

  /** Whether the head an append is about to commit can be read, told from what the caller
      has before the append: the store, the artifacts and the entry. */
  predicate WillRead(c: Crypto, s0: Store, artifacts: seq<Bytes>, rows: seq<Row>, entry: Entry) {
    HeadFits(c, entry) && ReceiptIsEvidence(entry.event) && ForeseenBytes(c, s0, artifacts, rows, entry) <= TOTAL_LIMIT
  }

  /** What a completed append reads back, and exactly when: the reader still checks that a
      pass receipt is among its evidence and that the journal's bytes fit the budget, which
      the append does not check before it replaces the head. */
  lemma ReadsAsExtended(c: Crypto, s0: Store, s: Store, artifacts: seq<Bytes>, trust: Trust, now: nat,
                        rows: seq<Row>, entry: Entry)
    requires CollisionFree(c) && SealsOpen(c)
    requires Advanced(c, s0, s, entry) && Follows(c, rows, entry, trust, now)
    requires AllSupplied(c, artifacts, entry.event.evidenceIds)
    requires StartsFrom(c, s0, trust, now, rows)
    requires Marks(rows, Row(EntryId(c, entry), entry), trust.expectedHead)
    ensures var id := EntryId(c, entry);
            Read(c, s, trust, now)
            == if WillRead(c, s0, artifacts, rows, entry)
               then Some(Journal(HeadOf(entry, id), rows + [Row(id, entry)], Order(Entries(rows) + [entry]).value))
               else None
  {
    hide Order;
    hide Chain;
    hide TotalBytes;
    hide OpenedHead;
    hide Advanced;
    hide HeadFits;
    hide ForeseenBytes;
    var row := Row(EntryId(c, entry), entry);
    NewHead(c, s0, s, trust, now, rows, entry);
    NewChain(c, s0, s, trust, now, rows, entry);
    StillRetained(rows, row, trust.expectedHead);
    EntriesGrow(rows, row);
    ChainIsThere(c, s0, trust, now, if rows == [] then None else Some(rows[|rows| - 1].id), |rows| - 1);
    BytesAreForeseen(c, s0, s, artifacts, rows, entry);
  }

  /** The state after a completed append is one step of the order machine. */
  lemma OneStepOfTheMachine(rows: seq<Row>, entry: Entry)
    requires Order(Entries(rows) + [entry]).Success?
    ensures Order(Entries(rows)).Success?
    ensures OrderStep(Order(Entries(rows)).value, entry) == Order(Entries(rows) + [entry])
  {
    OrderGrows(Entries(rows), entry);
  }
}
