/** A small journal. It meets all hypotheses of the append theorems together, and one of its
    appends, a pass whose receipt is not among its evidence, commits a head that nobody can
    read. */
module KaraokeExample {
  import opened Outcomes
  import opened KaraokeOrder
  import opened KaraokeJournal
  import opened KaraokeAppend
  import opened KaraokeWriter

  /** A digest without collisions: the content itself, a letter for a byte. */
  function Letters(bytes: Bytes): Id {
    if bytes == [] then [] else Letters(bytes[..|bytes| - 1]) + [bytes[|bytes| - 1] as char]
  }

  lemma {:induction false} LettersDiffer(a: Bytes, b: Bytes)
    requires Letters(a) == Letters(b)
    ensures a == b
  {
    if a != [] && b != [] {
      var frontA, frontB := a[..|a| - 1], b[..|b| - 1];
      assert Letters(a)[..|Letters(a)| - 1] == Letters(frontA);
      assert Letters(b)[..|Letters(b)| - 1] == Letters(frontB);
      LettersDiffer(frontA, frontB);
      SplitLast(a);
      SplitLast(b);
    }
  }

  const EVIDENCE: Bytes := [0]

  const EVENTS: seq<Event> := [
    Begin([Letters(EVIDENCE)]),
    FenceObserved([Letters(EVIDENCE)]),
    Pass(0, Letters(EVIDENCE), [Letters(EVIDENCE)]),
    Pass(0, "receipt", [Letters(EVIDENCE)])]

  /** The entries for the four events: the last two are two ways to go on from the second. */
  function EntryFor(k: nat): Entry
    requires k < 4
  {
    var sequence := if k == 3 then 2 else k;
    Entry("epoch", "collector", sequence, if k == 0 then None else Some(Letters([sequence as bv8])), 0, EVENTS[k])
  }

  /** The entry is sealed as the byte after its number... */
  function SealEntry(e: Entry): Bytes {
    if e == EntryFor(0) then [1]
    else if e == EntryFor(1) then [2]
    else if e == EntryFor(2) then [3]
    else if e == EntryFor(3) then [4]
    else []
  }

  function OpenEntry(bytes: Bytes): Option<Entry> {
    if bytes == [1] then Some(EntryFor(0))
    else if bytes == [2] then Some(EntryFor(1))
    else if bytes == [3] then Some(EntryFor(2))
    else if bytes == [4] then Some(EntryFor(3))
    else None
  }

  /** ...and the head that points to it as that byte twice. */
  function SealHead(h: Head): Bytes {
    if h == HeadOf(EntryFor(0), Letters([1])) then [1, 1]
    else if h == HeadOf(EntryFor(1), Letters([2])) then [2, 2]
    else if h == HeadOf(EntryFor(2), Letters([3])) then [3, 3]
    else if h == HeadOf(EntryFor(3), Letters([4])) then [4, 4]
    else []
  }

  function OpenHead(bytes: Bytes): Option<Head> {
    if bytes == [1, 1] then Some(HeadOf(EntryFor(0), Letters([1])))
    else if bytes == [2, 2] then Some(HeadOf(EntryFor(1), Letters([2])))
    else if bytes == [3, 3] then Some(HeadOf(EntryFor(2), Letters([3])))
    else if bytes == [4, 4] then Some(HeadOf(EntryFor(3), Letters([4])))
    else None
  }

  const CRYPTO := Crypto(Letters, OpenEntry, OpenHead, SealEntry, SealHead)

  /** The retained head is that of the entry before. */
  function TrustFor(k: nat): Trust
    requires k < 4
  {
    var entry := EntryFor(k);
    Trust("epoch", "collector", if k == 0 then None else Some(Mark(entry.previousId.value, entry.sequence - 1)))
  }

  function RequestFor(k: nat): Request
    requires k < 4
  {
    Request(TrustFor(k), 0, EVENTS[k], None, [EVIDENCE], "nonce")
  }

  function RowFor(k: nat): Row
    requires k < 4
  {
    Row(Letters(SealEntry(EntryFor(k))), EntryFor(k))
  }

  lemma SealedOpens(e: Entry)
    requires OpenEntry(SealEntry(e)).Some?
    ensures |SealEntry(e)| == 1 && OpenEntry(SealEntry(e)).value == e
    ensures var h := HeadOf(e, Letters(SealEntry(e)));
            SealHead(h) == SealEntry(e) + SealEntry(e) && OpenHead(SealHead(h)) == Some(h)
  {
    hide EntryFor;
    hide Letters;
    forall k: bv8 | Letters([k]) == Letters(SealEntry(e))
      ensures SealEntry(e) == [k]
    {
      LettersDiffer([k], SealEntry(e));
    }
  }

  lemma CryptoIsSound()
    ensures CollisionFree(CRYPTO) && SealsOpen(CRYPTO)
  {
    forall a, b | Letters(a) == Letters(b)
      ensures a == b
    {
      LettersDiffer(a, b);
    }
    SealsAreSound();
  }

  lemma SealsAreSound()
    ensures SealsOpen(CRYPTO)
  {
    hide SealEntry;
    hide OpenEntry;
    hide SealHead;
    hide OpenHead;
    hide Letters;
    forall e | OpenEntry(SealEntry(e)).Some?
      ensures OpenEntry(SealEntry(e)).value == e
      ensures OpenHead(SealHead(HeadOf(e, Letters(SealEntry(e))))) == Some(HeadOf(e, Letters(SealEntry(e))))
    {
      SealedOpens(e);
    }
  }

  /** Artifacts of at most one byte, under their ids, and nothing temporary. */
  ghost predicate Tidy(s: Store) {
    && (forall id :: Artifact(id) in s ==> |s[Artifact(id)]| <= 1 && Letters(s[Artifact(id)]) == id)
    && Temporary("nonce") !in s
  }

  function Put(s: Store, bytes: Bytes): Store {
    s[Artifact(Letters(bytes)) := bytes]
  }

  lemma PutIsTidy(s: Store, bytes: Bytes)
    requires Tidy(s) && |bytes| <= 1
    ensures Tidy(Put(s, bytes)) && Keeps(s, Put(s, bytes)) && Holds(CRYPTO, Put(s, bytes), Letters(bytes))
  {
    hide Letters;
    if Artifact(Letters(bytes)) in s {
      LettersDiffer(s[Artifact(Letters(bytes))], bytes);
    }
  }

  /** What an append of an entry leaves. */
  function After(s: Store, e: Entry): Store {
    Put(Put(s, EVIDENCE), SealEntry(e))[Manifest := SealEntry(e) + SealEntry(e)]
  }

  lemma AfterIsTidy(s: Store, e: Entry)
    requires Tidy(s) && OpenEntry(SealEntry(e)).Some? && e.event.evidenceIds == [Letters(EVIDENCE)]
    ensures Tidy(After(s, e)) && Advanced(CRYPTO, s, After(s, e), e) && !IsNewJournal(After(s, e))
  {
    hide Letters;
    hide SealEntry;
    hide OpenEntry;
    hide SealHead;
    SealedOpens(e);
    PutIsTidy(s, EVIDENCE);
    PutIsTidy(Put(s, EVIDENCE), SealEntry(e));
    assert Manifest in After(s, e).Keys;
    assert Holds(CRYPTO, After(s, e), Letters(EVIDENCE));
    assert Holds(CRYPTO, After(s, e), EntryId(CRYPTO, e));
    assert e.event.evidenceIds[..0] == [];
    assert EvidenceHolds(CRYPTO, After(s, e), e.event.evidenceIds);
    assert Keeps(s, After(s, e));
    assert CRYPTO.sealHead(HeadOf(e, EntryId(CRYPTO, e))) == SealEntry(e) + SealEntry(e);
  }

  lemma FitsWhenTidy(s: Store, q: Request, e: Entry)
    requires Tidy(s) && OpenEntry(SealEntry(e)).Some?
    requires q.artifacts == [EVIDENCE] && q.event.evidenceIds == [Letters(EVIDENCE)] && q.nonce == "nonce"
    ensures Fits(CRYPTO, s, q, e)
  {
    hide Letters;
    hide SealEntry;
    hide OpenEntry;
    hide SealHead;
    CryptoIsSound();
    SealedOpens(e);
    assert AllSupplied(CRYPTO, q.artifacts, q.event.evidenceIds);
    assert CanPut(CRYPTO, s, EVIDENCE) && CanPut(CRYPTO, s, SealEntry(e));
  }

  lemma {:induction false} TinyTotal(s: Store, ids: seq<Id>)
    requires Tidy(s)
    ensures TotalBytes(s, ids) <= |ids|
  {
    if ids != [] {
      TinyTotal(s, ids[..|ids| - 1]);
    }
  }

  /** Rows whose entries refer to the one piece of evidence. */
  predicate Plain(rows: seq<Row>) {
    forall k :: 0 <= k < |rows| ==> rows[k].entry.event.evidenceIds == [Letters(EVIDENCE)]
  }

  lemma {:induction false} PlainReads(rows: seq<Row>)
    requires Plain(rows)
    ensures |ReadOrder(rows)| == 2 * |rows|
  {
    if rows != [] {
      var front := rows[..|rows| - 1];
      assert forall k :: 0 <= k < |front| ==> front[k] == rows[k];
      PlainReads(front);
    }
  }

  lemma TinyFits(s: Store, rows: seq<Row>, e: Entry)
    requires Tidy(s) && OpenEntry(SealEntry(e)).Some? && |rows| < 100
    requires Plain(rows + [Row(Letters(SealEntry(e)), e)])
    ensures WillRead(CRYPTO, s, [EVIDENCE], rows, e) <==> ReceiptIsEvidence(e.event)
  {
    hide Letters;
    hide SealEntry;
    hide OpenEntry;
    hide SealHead;
    hide TotalBytes;
    var row, sealed := Row(Letters(SealEntry(e)), e), SealEntry(e);
    SealedOpens(e);
    PutIsTidy(s, EVIDENCE);
    PutIsTidy(Put(s, EVIDENCE), sealed);
    assert ([EVIDENCE] + [sealed])[..1] == [EVIDENCE] && [EVIDENCE][..0] == [];
    assert Stocked(CRYPTO, s, [EVIDENCE]) == Put(s, EVIDENCE);
    assert Stocked(CRYPTO, s, [EVIDENCE] + [sealed]) == Put(Put(s, EVIDENCE), sealed);
    TinyTotal(Put(Put(s, EVIDENCE), sealed), ReadOrder(rows + [row]));
    PlainReads(rows + [row]);
  }

  // ---- The journal ------------------------------------------------------------------

  lemma EntriesOpen(k: nat)
    requires k < 4
    ensures OpenEntry(SealEntry(EntryFor(k))).Some?
    ensures k <= 1 ==> SealEntry(EntryFor(k)) == if k == 0 then [1] else [2]
    ensures EntryFor(k).event.evidenceIds == [Letters(EVIDENCE)] && Plain([RowFor(k)])
  {
    hide Letters;
  }

  lemma ReceiptIsSupplied(k: nat)
    requires k < 4
    ensures ReceiptIsEvidence(EntryFor(k).event) <==> k != 3
  {
    assert |Letters(EVIDENCE)| == 1;
  }

  /** The journal after the first entry and after the second. */
  function StoreAt(k: nat): Store
    requires k <= 2
  {
    if k == 0 then map[]
    else if k == 1 then After(map[], EntryFor(0))
    else After(After(map[], EntryFor(0)), EntryFor(1))
  }

  lemma StoresAreTidy(k: nat)
    requires k <= 2
    ensures Tidy(StoreAt(k)) && (k > 0 ==> !IsNewJournal(StoreAt(k)))
  {
    hide After;
    EntriesOpen(0);
    EntriesOpen(1);
    AfterIsTidy(map[], EntryFor(0));
    AfterIsTidy(After(map[], EntryFor(0)), EntryFor(1));
  }

  lemma FirstIsPlanned()
    ensures Planned(CRYPTO, map[], RequestFor(0)) == Some(EntryFor(0))
    ensures OrderStep(START, EntryFor(0)) == Success(Machine(Unestablished, 0, START.history))
  {
    hide Letters;
    EntriesOpen(0);
    OrderGrows([], EntryFor(0));
    assert [] + [EntryFor(0)] == [EntryFor(0)];
    assert AllSupplied(CRYPTO, [EVIDENCE], [Letters(EVIDENCE)]);
  }

  function JournalAt(k: nat): Journal
    requires 1 <= k <= 2
  {
    if k == 1
    then Journal(HeadOf(EntryFor(0), RowFor(0).id), [RowFor(0)], Machine(Unestablished, 0, START.history))
    else Journal(HeadOf(EntryFor(1), RowFor(1).id), [RowFor(0)] + [RowFor(1)], Machine(Held, 0, START.history))
  }

  lemma FirstReads()
    ensures Read(CRYPTO, StoreAt(1), TrustFor(1), 0) == Some(JournalAt(1))
  {
    hide Letters;
    hide SealEntry;
    hide OpenEntry;
    hide SealHead;
    hide After;
    hide WillRead;
    hide Planned;
    hide Read;
    hide OrderStep;
    var e := EntryFor(0);
    CryptoIsSound();
    FirstIsPlanned();
    EntriesOpen(0);
    AfterIsTidy(map[], e);
    CompletedFirstAppend(CRYPTO, map[], After(map[], e), RequestFor(0));
    assert [] + [RowFor(0)] == [RowFor(0)];
    TinyFits(map[], [], e);
    assert Retaining(TrustFor(0), CRYPTO, e) == TrustFor(1);
  }

  /** The request follows the journal it is given. */
  lemma NextIsPlanned(s: Store, q: Request, j: Journal, e: Entry)
    requires !IsNewJournal(s) && Read(CRYPTO, s, q.trust, q.observedAt) == Some(j)
    requires q.artifacts == [EVIDENCE] && q.event.evidenceIds == [Letters(EVIDENCE)]
    requires AtHead(Some(j), q.expectedCurrentHead) && !j.machine.state.Broken? && j.head.sequence < LAST_SEQUENCE
    requires e == Successor(Some(j), q) && OpenEntry(SealEntry(e)).Some?
    requires CanStep(j.machine, e)
    ensures Planned(CRYPTO, s, q) == Some(e)
  {
    hide Letters;
    hide SealEntry;
    hide OpenEntry;
    hide OrderStep;
    OrderGrows(Entries(j.rows), e);
    assert AllSupplied(CRYPTO, q.artifacts, q.event.evidenceIds);
  }

  lemma SecondReads()
    ensures Read(CRYPTO, StoreAt(2), TrustFor(2), 0) == Some(JournalAt(2)) && TrustFor(2) == TrustFor(3)
  {
    hide Letters;
    hide SealEntry;
    hide OpenEntry;
    hide SealHead;
    hide After;
    hide WillRead;
    hide Planned;
    hide Read;
    var e := EntryFor(1);
    CryptoIsSound();
    FirstReads();
    EntriesOpen(0);
    EntriesOpen(1);
    StoresAreTidy(1);
    AfterIsTidy(StoreAt(1), e);
    assert OrderStep(JournalAt(1).machine, e) == Success(JournalAt(2).machine);
    NextIsPlanned(StoreAt(1), RequestFor(1), JournalAt(1), e);
    CompletedAppendExtends(CRYPTO, StoreAt(1), StoreAt(2), RequestFor(1), JournalAt(1));
    TinyFits(StoreAt(1), [RowFor(0)], e);
    assert Retaining(TrustFor(1), CRYPTO, e) == TrustFor(2);
  }

  /** All hypotheses of the append theorems hold together of two appends to this journal, one
      whose head can be read and one whose head cannot. */
  lemma BothArePlanned(k: nat)
    requires k == 2 || k == 3
    ensures CollisionFree(CRYPTO) && SealsOpen(CRYPTO) && !IsNewJournal(StoreAt(2))
    ensures var q := RequestFor(k);
            Read(CRYPTO, StoreAt(2), q.trust, q.observedAt) == Some(JournalAt(2))
            && Planned(CRYPTO, StoreAt(2), q) == Some(EntryFor(k)) && Unhindered(CRYPTO, StoreAt(2), q)
    ensures Advanced(CRYPTO, StoreAt(2), After(StoreAt(2), EntryFor(k)), EntryFor(k))
    ensures WillRead(CRYPTO, StoreAt(2), RequestFor(k).artifacts, JournalAt(2).rows, EntryFor(k)) <==> k == 2
  {
    hide Letters;
    hide SealEntry;
    hide OpenEntry;
    hide SealHead;
    hide After;
    hide StoreAt;
    hide WillRead;
    hide Planned;
    hide Read;
    hide Fits;
    hide ReceiptIsEvidence;
    hide CollisionFree;
    hide SealsOpen;
    hide Advanced;
    hide Tidy;
    hide IsNewJournal;
    var e, j := EntryFor(k), JournalAt(2);
    CryptoIsSound();
    SecondReads();
    EntriesOpen(0);
    EntriesOpen(1);
    EntriesOpen(k);
    ReceiptIsSupplied(k);
    StoresAreTidy(2);
    AfterIsTidy(StoreAt(2), e);
    assert CanStep(j.machine, e);
    NextIsPlanned(StoreAt(2), RequestFor(k), j, e);
    FitsWhenTidy(StoreAt(2), RequestFor(k), e);
    TinyFits(StoreAt(2), j.rows, e);
  }

  lemma PassSteps()
    ensures OrderStep(JournalAt(2).machine, EntryFor(2)) == Success(JournalAfterPass().machine)
  {
    hide Letters;
    assert [] + [Letters(EVIDENCE)] == [Letters(EVIDENCE)];
  }

  function JournalAfterPass(): Journal {
    var rows := [RowFor(0), RowFor(1), RowFor(2)];
    Journal(HeadOf(EntryFor(2), RowFor(2).id), rows, Machine(Held, 0, START.history[0 := [Letters(EVIDENCE)]]))
  }

  /** The append theorems speak of this journal: a pass with its receipt among its evidence is
      read back. */
  lemma PassIsReadBack()
    ensures Read(CRYPTO, After(StoreAt(2), EntryFor(2)), TrustFor(2), 0) == Some(JournalAfterPass())
  {
    hide Letters;
    hide SealEntry;
    hide After;
    hide StoreAt;
    hide EntryFor;
    hide WillRead;
    hide Planned;
    hide Read;
    hide OrderStep;
    hide CollisionFree;
    hide SealsOpen;
    hide Advanced;
    hide Unhindered;
    hide IsNewJournal;
    BothArePlanned(2);
    PassSteps();
    OldOrExtended(CRYPTO, StoreAt(2), After(StoreAt(2), EntryFor(2)), RequestFor(2), JournalAt(2));
    assert JournalAt(2).rows + [RowFor(2)] == JournalAfterPass().rows;
  }

  /** A pass without it is committed all the same, and ends the journal: nobody reads it
      again, and no later append is planned. */
  lemma PassWithoutReceipt(trust: Trust, now: nat, later: Request)
    ensures Unhindered(CRYPTO, StoreAt(2), RequestFor(3))
    ensures var s := After(StoreAt(2), EntryFor(3));
            && Advanced(CRYPTO, StoreAt(2), s, Planned(CRYPTO, StoreAt(2), RequestFor(3)).value)
            && Read(CRYPTO, s, trust, now).None? && Planned(CRYPTO, s, later).None?
  {
    hide Letters;
    hide SealEntry;
    hide After;
    hide WillRead;
    hide Planned;
    hide Read;
    BothArePlanned(3);
    var s := After(StoreAt(2), EntryFor(3));
    UnreadableByAnyone(CRYPTO, StoreAt(2), s, RequestFor(3), JournalAt(2), trust, now);
    UnreadableHeadEndsTheJournal(CRYPTO, StoreAt(2), s, RequestFor(3), JournalAt(2), later);
  }
}
