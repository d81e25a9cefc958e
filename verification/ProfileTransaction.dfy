/** scripts/public-profile-backfill-transaction.ts: reading, replanning and writing
    inside one transaction. A refusal aborts the transaction and writes nothing. */
module ProfileTransaction {
  import opened Outcomes
  import opened ProfileTypes
  import opened ProfileTarget
  import opened ProfileManifest
  import opened RedirectCycles
  import opened ProfilePlanner
  import opened ProfileSafety

  // ---------------------------------------------------------------- snapshot

  function InsertHandle(h: Handle, handles: seq<Handle>, less: (string, string) -> bool): seq<Handle> {
    if handles == [] || less(h.id, handles[0].id) then [h] + handles
    else [handles[0]] + InsertHandle(h, handles[1..], less)
  }

  /** The snapshot lists the handles in id order. */
  function SortHandles(handles: seq<Handle>, less: (string, string) -> bool): seq<Handle> {
    if handles == [] then [] else InsertHandle(handles[0], SortHandles(handles[1..], less), less)
  }

  lemma {:induction false} InsertHandlePermutes(h: Handle, handles: seq<Handle>, less: (string, string) -> bool)
    ensures multiset(InsertHandle(h, handles, less)) == multiset(handles) + multiset{h}
  {
    if handles != [] {
      InsertHandlePermutes(h, handles[1..], less);
      assert handles == [handles[0]] + handles[1..];
    }
  }

  lemma {:induction false} SortHandlesPermutes(handles: seq<Handle>, less: (string, string) -> bool)
    ensures multiset(SortHandles(handles, less)) == multiset(handles)
  {
    if handles != [] {
      SortHandlesPermutes(handles[1..], less);
      InsertHandlePermutes(handles[0], SortHandles(handles[1..], less), less);
      assert handles == [handles[0]] + handles[1..];
    }
  }

  predicate GoodSnapshotHandle(h: Handle) {
    ValidId(h.id) && ValidId(h.slug) && ValidId(h.display) && ValidId(h.owner)
      && (h.target.Some? ==> ValidId(h.target.value))
  }

  /** The field checks of `parsePublicProfileTargetSnapshot`. */
  predicate GoodSnapshot(t: Target) {
    (forall user | user in t.users :: ValidId(user.id)) && (forall h | h in t.handles :: GoodSnapshotHandle(h))
  }

  /** A table the validator accepts is also one the snapshot parser accepts. */
  lemma ValidIsGoodSnapshot(t: Target)
    requires ValidTarget(t)
    ensures GoodSnapshot(t)
  {
    forall h | h in t.handles ensures GoodSnapshotHandle(h) {
      assert GoodFields(h);
      ValidLabelIsId(h.slug, h.display);
    }
  }

  /** The manifest and the snapshot are parsed, then planned. */
  method PlanAgainst(m: Manifest, t: Target, less: (string, string) -> bool)
    returns (r: Result<Plan>, ghost cycles: set<string>)
    requires StrictTotal(less)
    ensures r.Success? <==> Accepted(m, less) && GoodSnapshot(t)
    ensures r.Success? ==> r.value == PlanWith(m, t, cycles, less)
    ensures UniqueIds(m.rows) ==> forall id :: id in cycles <==> id in RowsById(m.rows) && OnCycle(RowsById(m.rows), id)
  {
    var parsed := ParseManifest(m, less);
    var plan, found := PlanProfileBackfill(m, t, less);
    cycles := found;
    if parsed.Failure? {
      return Failure(parsed.error), found;
    }
    if !GoodSnapshot(t) {
      return Failure("target-snapshot-invalid"), found;
    }
    return Success(plan), found;
  }

  /** The digest of a plan binds what is written: the inserted handles, in order. */
  function PlanDigest(ops: seq<Operation>): seq<Handle> {
    InsertedAll(ops)
  }

  lemma AcceptedIsGood(m: Manifest, less: (string, string) -> bool)
    requires Accepted(m, less)
    ensures ManifestGood(m)
  {
  }

  // ------------------------------------------------------------------- table

  /** `public_handle_index`, with the users it refers to. */
  class HandleTable {
    const users: seq<TargetUser>
    var handles: seq<Handle>

    constructor (users: seq<TargetUser>, handles: seq<Handle>)
      ensures this.users == users && this.handles == handles
    {
      this.users := users;
      this.handles := handles;
    }

    /** The table as a planning run reads it. */
    function Snapshot(less: (string, string) -> bool): Target
      reads this
    {
      Target(users, SortHandles(handles, less))
    }

    /** The insert loop; the table is valid before and after every single insert. */
    method WriteBackfillPlan(ops: seq<Operation>) returns (applied: nat)
      requires forall k | 0 <= k <= |ops| :: ValidTable(users, handles + InsertedAll(ops[..k]))
      modifies this
      ensures handles == old(handles) + InsertedAll(ops)
      ensures ValidTable(users, handles)
      ensures applied == |ops|
    {
      TakeNone(handles, ops);
      for k := 0 to |ops|
        invariant handles == old(handles) + InsertedAll(ops[..k])
        invariant ValidTable(users, handles)
      {
        InsertedStep(old(handles), ops, k);
        handles := handles + [Inserted(ops[k])];
      }
      TakeAll(ops);
      applied := |ops|;
    }

    /** One apply run. On success the planned handles, and nothing else, were added to
        the locked table; on a refusal nothing was written. */
    method Run(m: Manifest, less: (string, string) -> bool) returns (r: Result<nat>, ghost cycles: set<string>)
      requires StrictTotal(less)
      modifies this
      ensures UniqueIds(m.rows)
              ==> forall id :: id in cycles <==> id in RowsById(m.rows) && OnCycle(RowsById(m.rows), id)
      ensures r.Success? <==>
                && Accepted(m, less) && GoodSnapshot(old(Snapshot(less)))
                && PlanWith(m, old(Snapshot(less)), cycles, less).issues == []
      ensures r.Success? ==> ValidTable(users, handles)
      ensures r.Success? ==>
                handles == old(handles) + InsertedAll(PlanWith(m, old(Snapshot(less)), cycles, less).operations)
      ensures r.Success? ==> r.value == |PlanWith(m, old(Snapshot(less)), cycles, less).operations|
      ensures r.Failure? ==> handles == old(handles)
    {
      var planned, found := PlanAgainst(m, Snapshot(less), less);
      cycles := found;
      if planned.Failure? {
        return Failure(planned.error), found;
      }
      if planned.value.issues != [] {
        return Failure("public-profile-backfill-plan-has-errors"), found;
      }
      PrefixesOfTable(m, users, handles, found, less);
      var applied := WriteBackfillPlan(planned.value.operations);
      r := Success(applied);
    }

    /** Applying a reviewed plan: it is replanned against the locked table and written
        only if it would write exactly what was reviewed. */
    method Apply(plan: Plan, m: Manifest, less: (string, string) -> bool)
      returns (r: Result<nat>, ghost cycles: set<string>)
      requires StrictTotal(less)
      modifies this
      ensures UniqueIds(m.rows)
              ==> forall id :: id in cycles <==> id in RowsById(m.rows) && OnCycle(RowsById(m.rows), id)
      ensures r.Success? <==>
        && plan.issues == [] && Accepted(m, less) && GoodSnapshot(old(Snapshot(less)))
        && PlanWith(m, old(Snapshot(less)), cycles, less).issues == []
        && PlanDigest(PlanWith(m, old(Snapshot(less)), cycles, less).operations) == PlanDigest(plan.operations)
      ensures r.Success? ==> handles == old(handles) + InsertedAll(plan.operations) && ValidTable(users, handles)
      ensures r.Success? ==> r.value == |plan.operations|
      ensures r.Failure? ==> handles == old(handles)
    {
      var locked, found := PlanAgainst(m, Snapshot(less), less);
      cycles := found;
      if plan.issues != [] {
        return Failure("public-profile-backfill-plan-has-errors"), found;
      }
      if locked.Failure? {
        return Failure(locked.error), found;
      }
      if locked.value.issues != [] {
        return Failure("public-profile-backfill-target-changed"), found;
      }
      if PlanDigest(locked.value.operations) != PlanDigest(plan.operations) {
        return Failure("public-profile-backfill-plan-stale"), found;
      }
      assert |locked.value.operations| == |plan.operations| by {
        assert |PlanDigest(locked.value.operations)| == |PlanDigest(plan.operations)|;
      }
      PrefixesOfTable(m, users, handles, found, less);
      var applied := WriteBackfillPlan(locked.value.operations);
      r := Success(applied);
    }
  }

  lemma TakeNone(handles: seq<Handle>, ops: seq<Operation>)
    ensures handles + InsertedAll(ops[..0]) == handles
  {
  }

  lemma InsertedStep(handles: seq<Handle>, ops: seq<Operation>, k: nat)
    requires k < |ops|
    ensures handles + InsertedAll(ops[..k + 1]) == handles + InsertedAll(ops[..k]) + [Inserted(ops[k])]
  {
    assert ops[..k + 1][..k] == ops[..k];
  }

  /** The prefixes of the plan, seen from the table instead of from its snapshot. */
  lemma PrefixesOfTable(m: Manifest, users: seq<TargetUser>, handles: seq<Handle>, cycles: set<string>,
                        less: (string, string) -> bool)
    requires StrictTotal(less) && Accepted(m, less)
    requires PlanWith(m, Target(users, SortHandles(handles, less)), cycles, less).issues == []
    ensures forall k | 0 <= k <= |PlanWith(m, Target(users, SortHandles(handles, less)), cycles, less).operations| ::
      var plan := PlanWith(m, Target(users, SortHandles(handles, less)), cycles, less);
      ValidTable(users, handles + InsertedAll(plan.operations[..k]))
  {
    var t := Target(users, SortHandles(handles, less));
    var ops := PlanWith(m, t, cycles, less).operations;
    AcceptedIsGood(m, less);
    SortHandlesPermutes(handles, less);
    forall k | 0 <= k <= |ops| ensures ValidTable(users, handles + InsertedAll(ops[..k])) {
      PrefixStaysValid(m, t, cycles, less, k);
      ValidInAnyOrder(users, TableAfter(t, ops, k), handles + InsertedAll(ops[..k]));
    }
  }

  /** After a successful run, any further run of the same manifest reads a table it
      accepts, plans nothing and skips every row. */
  lemma RunAgainIsNoop(m: Manifest, users: seq<TargetUser>, table: seq<Handle>, written: seq<Handle>,
                       cycles: set<string>, less: (string, string) -> bool)
    requires StrictTotal(less) && Accepted(m, less)
    requires PlanWith(m, Target(users, SortHandles(table, less)), cycles, less).issues == []
    requires written == table + InsertedAll(
      PlanWith(m, Target(users, SortHandles(table, less)), cycles, less).operations)
    ensures PlanWith(m, Target(users, SortHandles(written, less)), cycles, less) == Plan([], [], m.rows)
    ensures GoodSnapshot(Target(users, SortHandles(written, less)))
    ensures UniqueIds(m.rows)
  {
    var (t, t') := (Target(users, SortHandles(table, less)), Target(users, SortHandles(written, less)));
    AcceptedIsGood(m, less);
    SortHandlesPermutes(table, less);
    SortHandlesPermutes(written, less);
    ReplanIsNoop(m, t, t', cycles, less);
    NoErrorsExactly(m, t', cycles, less);
    ValidIsGoodSnapshot(t');
  }
}
