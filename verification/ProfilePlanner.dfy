/** `planPublicProfileBackfill` of scripts/public-profile-backfill-planner.ts: which
    legacy handles are inserted, in which order, and what stops a row. */
module ProfilePlanner {
  import opened Outcomes
  import opened ProfileTypes
  import opened ProfileTarget
  import opened ProfileManifest
  import opened RedirectCycles

  datatype Code =
    | DuplicateSourceHandle | SourceLabelCollision | InvalidSourceId | InvalidSourceLabel | InvalidSourceStatusTarget
    | MissingOwner | MissingOwnerMapping | OwnerNotActive | ForeignOwner | ActiveOwnerCollision
    | TargetHandleConflict | OwnershipTransfer | TargetLabelCollision | MissingHandleMapping
    | RedirectTargetMissing | RedirectTargetNotActive | RedirectCycle | TargetSnapshotInvalid

  datatype Issue = Issue(code: Code, id: string)

  datatype Operation = Operation(row: SourceRow, handle: string, owner: string, target: Option<string>)

  datatype Plan = Plan(operations: seq<Operation>, issues: seq<Issue>, skips: seq<SourceRow>)

  /** The look-up tables of one planning run. */
  datatype Context = Context(
    rows: map<string, SourceRow>, owners: map<string, string>, handles: map<string, string>,
    users: map<string, bool>, byId: map<string, Handle>, bySlug: map<string, Handle>,
    activeByOwner: map<string, Handle>, cycles: set<string>)

  // ------------------------------------------------------------------- tables

  function UsersById(users: seq<TargetUser>): (m: map<string, bool>)
    ensures forall id {:trigger m[id]} | id in m :: TargetUser(id, m[id]) in users
    ensures forall user | user in users :: user.id in m
  {
    if users == [] then map[]
    else
      var (before, last) := (users[..|users| - 1], users[|users| - 1]);
      assert users == before + [last];
      assert last == TargetUser(last.id, last.active);
      UsersById(before)[last.id := last.active]
  }

  function HandlesBySlug(handles: seq<Handle>): (m: map<string, Handle>)
    ensures forall slug {:trigger m[slug]} | slug in m :: m[slug] in handles && m[slug].slug == slug
    ensures forall h | h in handles :: h.slug in m
  {
    if handles == [] then map[]
    else
      var (before, last) := (handles[..|handles| - 1], handles[|handles| - 1]);
      assert handles == before + [last];
      HandlesBySlug(before)[last.slug := last]
  }

  function ActiveByOwner(handles: seq<Handle>): (m: map<string, Handle>)
    ensures forall owner {:trigger m[owner]} | owner in m ::
              m[owner] in handles && m[owner].status.Active? && m[owner].owner == owner
    ensures forall h | h in handles && h.status.Active? :: h.owner in m
  {
    if handles == [] then map[]
    else
      var (before, last) := (handles[..|handles| - 1], handles[|handles| - 1]);
      assert handles == before + [last];
      if last.status.Active? then ActiveByOwner(before)[last.owner := last] else ActiveByOwner(before)
  }

  function ContextOf(m: Manifest, t: Target, cycles: set<string>): Context {
    Context(RowsById(m.rows), OwnerMap(m.owners), HandleMap(m.handles), UsersById(t.users),
            HandlesById(t.handles), HandlesBySlug(t.handles), ActiveByOwner(t.handles), cycles)
  }

  // --------------------------------------------------------------- one row

  function If(flagged: bool, code: Code): seq<Code> {
    if flagged then [code] else []
  }

  /** The handle a row becomes: what `equalProjectedHandle` compares and the insert writes. */
  function Project(row: SourceRow, handle: string, owner: string, c: Context): Handle {
    Handle(handle, row.slug, row.display, row.status, owner, MappedTarget(row, c))
  }

  function MappedTarget(row: SourceRow, c: Context): Option<string> {
    if row.target.None? then None else Get(c.handles, row.target.value)
  }

  function OwnerErrors(owner: Option<string>, c: Context): seq<Code> {
    if owner.None? then [MissingOwnerMapping]
    else if owner.value !in c.users then [MissingOwner]
    else if !c.users[owner.value] then [OwnerNotActive]
    else []
  }

  /** Where a redirect leads: a source row if there is one, else a handle of the target table. */
  function RedirectErrors(row: SourceRow, owner: Option<string>, c: Context): seq<Code> {
    if !row.status.Redirect? then []
    else if row.id in c.cycles then [RedirectCycle]
    else if row.target.None? then [RedirectTargetMissing]
    else if row.target.value in c.rows then
      var target := c.rows[row.target.value];
      var targetOwner := Get(c.owners, target.user);
      If(!target.status.Active?, RedirectTargetNotActive) + If(targetOwner.Some? && targetOwner != owner, ForeignOwner)
    else
      var mapped := Get(c.handles, row.target.value);
      var target := Get(c.byId, if mapped.Some? then mapped.value else "");
      if target.None? then [RedirectTargetMissing]
      else If(!target.value.status.Active?, RedirectTargetNotActive)
           + If(Some(target.value.owner) != owner, ForeignOwner)
  }

  function ExistingErrors(row: SourceRow, handle: Option<string>, owner: Option<string>, c: Context): seq<Code> {
    if handle.None? || owner.None? || handle.value !in c.byId then []
    else
      var existing := c.byId[handle.value];
      if existing == Project(row, handle.value, owner.value, c) then []
      else if existing.owner != owner.value then [OwnershipTransfer]
      else [TargetHandleConflict]
  }

  /** `sourceRowIssues`, check by check. */
  function RowErrors(row: SourceRow, c: Context): seq<Code> {
    var owner := Get(c.owners, row.user);
    var handle := Get(c.handles, row.id);
    If(!ValidId(row.id) || !ValidId(row.user), InvalidSourceId)
    + If(!ValidLabel(row.slug, row.display), InvalidSourceLabel)
    + If((row.status.Redirect? && row.target.None?) || (!row.status.Redirect? && row.target.Some?)
         || row.target == Some(row.id),
         InvalidSourceStatusTarget)
    + OwnerErrors(owner, c)
    + If(handle.None?, MissingHandleMapping)
    + RedirectErrors(row, owner, c)
    + If(row.status.Active? && owner.Some? && owner.value in c.activeByOwner
         && Some(c.activeByOwner[owner.value].id) != handle,
         ActiveOwnerCollision)
    + ExistingErrors(row, handle, owner, c)
    + If(row.slug in c.bySlug && Some(c.bySlug[row.slug].id) != handle, TargetLabelCollision)
  }

  datatype Decision = Excluded | Skip | Insert(op: Operation) | Lost

  /** What the main loop does with a row; `Lost` stands for its two bare `continue`s. */
  function Decide(row: SourceRow, c: Context, colliding: set<string>): Decision {
    if RowErrors(row, c) != [] || row.id in colliding then Excluded
    else
      var (handle, owner) := (Get(c.handles, row.id), Get(c.owners, row.user));
      if handle.None? || owner.None? then Lost
      else if handle.value in c.byId then
        if c.byId[handle.value] == Project(row, handle.value, owner.value, c) then Skip else Lost
      else Insert(Operation(row, handle.value, owner.value, MappedTarget(row, c)))
  }

  // ------------------------------------------------------------ the whole plan

  function MappedOwner(row: SourceRow, owners: map<string, string>): string {
    if row.user in owners then owners[row.user] else row.user
  }

  /** The active rows of one mapped owner, in source order. */
  function Group(rows: seq<SourceRow>, owners: map<string, string>, owner: string): seq<SourceRow> {
    if rows == [] then []
    else
      var (before, last) := (rows[..|rows| - 1], rows[|rows| - 1]);
      Group(before, owners, owner) + if last.status.Active? && MappedOwner(last, owners) == owner then [last] else []
  }

  /** The mapped owners of active rows, in order of first appearance. */
  function OwnerOrder(rows: seq<SourceRow>, owners: map<string, string>): seq<string> {
    if rows == [] then []
    else
      var (order, last) := (OwnerOrder(rows[..|rows| - 1], owners), rows[|rows| - 1]);
      if last.status.Active? && MappedOwner(last, owners) !in order then order + [MappedOwner(last, owners)] else order
  }

  function CollidingRows(order: seq<string>, rows: seq<SourceRow>, owners: map<string, string>): seq<SourceRow> {
    if order == [] then []
    else
      var group := Group(rows, owners, order[|order| - 1]);
      CollidingRows(order[..|order| - 1], rows, owners) + if |group| < 2 then [] else group
  }

  function CollidingIds(rows: seq<SourceRow>, owners: map<string, string>): set<string> {
    set row | row in CollidingRows(OwnerOrder(rows, owners), rows, owners) :: row.id
  }

  function ScanIssues(rows: seq<SourceRow>): seq<Issue> {
    if rows == [] then []
    else
      var (before, last) := (rows[..|rows| - 1], rows[|rows| - 1]);
      ScanIssues(before)
      + (if exists row | row in before :: row.id == last.id then [Issue(DuplicateSourceHandle, last.id)] else [])
      + (if exists row | row in before :: row.slug == last.slug then [Issue(SourceLabelCollision, last.id)] else [])
  }

  function Tag(codes: seq<Code>, id: string): (r: seq<Issue>)
    ensures |r| == |codes|
  {
    seq(|codes|, i requires 0 <= i < |codes| => Issue(codes[i], id))
  }

  function CollisionIssues(rows: seq<SourceRow>): (r: seq<Issue>)
    ensures |r| == |rows|
  {
    seq(|rows|, i requires 0 <= i < |rows| => Issue(ActiveOwnerCollision, rows[i].id))
  }

  function SnapshotIssues(ids: seq<string>): (r: seq<Issue>)
    ensures |r| == |ids|
  {
    seq(|ids|, i requires 0 <= i < |ids| => Issue(TargetSnapshotInvalid, ids[i]))
  }

  function RowIssues(rows: seq<SourceRow>, c: Context): seq<Issue> {
    if rows == [] then []
    else
      var (before, last) := (rows[..|rows| - 1], rows[|rows| - 1]);
      RowIssues(before, c) + Tag(RowErrors(last, c), last.id)
  }

  function Operations(rows: seq<SourceRow>, c: Context, colliding: set<string>): seq<Operation> {
    if rows == [] then []
    else
      var (before, last) := (rows[..|rows| - 1], rows[|rows| - 1]);
      var decision := Decide(last, c, colliding);
      Operations(before, c, colliding) + if decision.Insert? then [decision.op] else []
  }

  function Skips(rows: seq<SourceRow>, c: Context, colliding: set<string>): seq<SourceRow> {
    if rows == [] then []
    else
      var (before, last) := (rows[..|rows| - 1], rows[|rows| - 1]);
      Skips(before, c, colliding) + if Decide(last, c, colliding).Skip? then [last] else []
  }

  /** Active rows first, then retired ones, then redirects. */
  function Rank(op: Operation): nat {
    if op.row.status.Redirect? then 2 else if op.row.status.Active? then 0 else 1
  }

  predicate Before(a: Operation, b: Operation, less: (string, string) -> bool) {
    Rank(a) < Rank(b) || (Rank(a) == Rank(b) && less(a.row.id, b.row.id))
  }

  /** Stable insertion: after everything not behind it. */
  function Place(op: Operation, ops: seq<Operation>, less: (string, string) -> bool): seq<Operation> {
    if ops == [] then [op]
    else if Before(op, ops[|ops| - 1], less) then Place(op, ops[..|ops| - 1], less) + [ops[|ops| - 1]]
    else ops + [op]
  }

  function SortOperations(ops: seq<Operation>, less: (string, string) -> bool): seq<Operation> {
    if ops == [] then [] else Place(ops[|ops| - 1], SortOperations(ops[..|ops| - 1], less), less)
  }

  ghost function PlanWith(m: Manifest, t: Target, cycles: set<string>, less: (string, string) -> bool): Plan {
    var c := ContextOf(m, t, cycles);
    var collisions := CollidingRows(OwnerOrder(m.rows, c.owners), m.rows, c.owners);
    var colliding := CollidingIds(m.rows, c.owners);
    Plan(SortOperations(Operations(m.rows, c, colliding), less),
         SnapshotIssues(TargetIssues(t)) + ScanIssues(m.rows) + CollisionIssues(collisions) + RowIssues(m.rows, c),
         Skips(m.rows, c, colliding))
  }

  // ------------------------------------------------------------ the planner

  function IdsOfRows(rows: seq<SourceRow>): set<string> {
    set row | row in rows :: row.id
  }

  function SlugsOfRows(rows: seq<SourceRow>): set<string> {
    set row | row in rows :: row.slug
  }

  /** The groups of active rows built so far, one per owner in `order`. */
  ghost predicate Grouped(rows: seq<SourceRow>, owners: map<string, string>, order: seq<string>,
                          groups: map<string, seq<SourceRow>>)
  {
    && order == OwnerOrder(rows, owners)
    && (forall owner :: owner in order <==> owner in groups)
    && (forall owner :: Group(rows, owners, owner) == if owner in groups then groups[owner] else [])
  }

  lemma GroupStep(rows: seq<SourceRow>, row: SourceRow, owners: map<string, string>, owner: string)
    ensures Group(rows + [row], owners, owner) ==
            if row.status.Active? && MappedOwner(row, owners) == owner then Group(rows, owners, owner) + [row]
              else Group(rows, owners, owner)
  {
    assert (rows + [row])[..|rows|] == rows;
  }

  lemma OrderStep(rows: seq<SourceRow>, row: SourceRow, owners: map<string, string>)
    ensures OwnerOrder(rows + [row], owners) ==
            if row.status.Active? && MappedOwner(row, owners) !in OwnerOrder(rows, owners)
            then OwnerOrder(rows, owners) + [MappedOwner(row, owners)] else OwnerOrder(rows, owners)
  {
    assert (rows + [row])[..|rows|] == rows;
  }

  lemma GroupedSkips(rows: seq<SourceRow>, row: SourceRow, owners: map<string, string>, order: seq<string>,
                     groups: map<string, seq<SourceRow>>)
    requires Grouped(rows, owners, order, groups) && !row.status.Active?
    ensures Grouped(rows + [row], owners, order, groups)
  {
    OrderStep(rows, row, owners);
    forall owner ensures Group(rows + [row], owners, owner) == if owner in groups then groups[owner] else [] {
      GroupStep(rows, row, owners, owner);
    }
  }

  lemma GroupedAdds(rows: seq<SourceRow>, row: SourceRow, owners: map<string, string>, order: seq<string>,
                    groups: map<string, seq<SourceRow>>)
    requires Grouped(rows, owners, order, groups) && row.status.Active?
    ensures
      var owner := MappedOwner(row, owners);
      var group := if owner in groups then groups[owner] else [];
      Grouped(rows + [row], owners, if owner in groups then order else order + [owner], groups[owner := group + [row]])
  {
    OrderStep(rows, row, owners);
    var mapped := MappedOwner(row, owners);
    var group := if mapped in groups then groups[mapped] else [];
    var groups' := groups[mapped := group + [row]];
    forall owner ensures Group(rows + [row], owners, owner) == if owner in groups' then groups'[owner] else [] {
      GroupStep(rows, row, owners, owner);
      assert Group(rows, owners, owner) == if owner in groups then groups[owner] else [];
    }
  }

  ghost predicate Scanned(rows: seq<SourceRow>, issues: seq<Issue>, ids: set<string>, slugs: set<string>) {
    issues == ScanIssues(rows) && ids == IdsOfRows(rows) && slugs == SlugsOfRows(rows)
  }

  lemma ScannedExtends(rows: seq<SourceRow>, row: SourceRow, issues: seq<Issue>, ids: set<string>, slugs: set<string>)
    requires Scanned(rows, issues, ids, slugs)
    ensures Scanned(rows + [row], issues + RepeatIssues(row, ids, slugs), ids + {row.id}, slugs + {row.slug})
  {
    assert (rows + [row])[..|rows|] == rows;
    assert forall r :: r in rows + [row] <==> r in rows || r == row;
  }

  function RepeatIssues(row: SourceRow, ids: set<string>, slugs: set<string>): seq<Issue> {
    (if row.id in ids then [Issue(DuplicateSourceHandle, row.id)] else [])
    + (if row.slug in slugs then [Issue(SourceLabelCollision, row.id)] else [])
  }

  /** The first loop: duplicate ids and labels, and the active rows of each owner. */
  method ScanSource(rows: seq<SourceRow>, owners: map<string, string>)
    returns (issues: seq<Issue>, order: seq<string>, groups: map<string, seq<SourceRow>>)
    ensures issues == ScanIssues(rows)
    ensures Grouped(rows, owners, order, groups)
  {
    issues, order, groups := [], [], map[];
    var ids: set<string>, slugs: set<string> := {}, {};
    for k := 0 to |rows|
      invariant Scanned(rows[..k], issues, ids, slugs)
      invariant Grouped(rows[..k], owners, order, groups)
    {
      var row := rows[k];
      TakeStep(rows, k);
      ScannedExtends(rows[..k], row, issues, ids, slugs);
      issues := issues + RepeatIssues(row, ids, slugs);
      ids := ids + {row.id};
      slugs := slugs + {row.slug};
      order, groups := AddToGroup(rows[..k], row, owners, order, groups);
    }
    TakeAll(rows);
  }

  method AddToGroup(ghost earlier: seq<SourceRow>, row: SourceRow, owners: map<string, string>, order: seq<string>,
                    groups: map<string, seq<SourceRow>>)
    returns (order': seq<string>, groups': map<string, seq<SourceRow>>)
    requires Grouped(earlier, owners, order, groups)
    ensures Grouped(earlier + [row], owners, order', groups')
  {
    order', groups' := order, groups;
    if !row.status.Active? {
      GroupedSkips(earlier, row, owners, order, groups);
    } else {
      GroupedAdds(earlier, row, owners, order, groups);
      var owner := MappedOwner(row, owners);
      var group := if owner in groups then groups[owner] else [];
      order' := if owner in groups then order else order + [owner];
      groups' := groups[owner := group + [row]];
    }
  }

  lemma CollidingStep(order: seq<string>, owner: string, rows: seq<SourceRow>, owners: map<string, string>)
    ensures CollidingRows(order + [owner], rows, owners) ==
            CollidingRows(order, rows, owners) + if |Group(rows, owners, owner)| < 2 then []
              else Group(rows, owners, owner)
  {
    assert (order + [owner])[..|order|] == order;
  }

  method CollectCollisions(ghost rows: seq<SourceRow>, ghost owners: map<string, string>, order: seq<string>,
                           groups: map<string, seq<SourceRow>>)
    returns (collisions: seq<SourceRow>)
    requires forall owner | owner in order :: owner in groups && groups[owner] == Group(rows, owners, owner)
    ensures collisions == CollidingRows(order, rows, owners)
  {
    collisions := [];
    for k := 0 to |order|
      invariant collisions == CollidingRows(order[..k], rows, owners)
    {
      TakeStep(order, k);
      CollidingStep(order[..k], order[k], rows, owners);
      assert order[k] in order;
      var group := groups[order[k]];
      if |group| >= 2 {
        collisions := collisions + group;
      }
    }
    TakeAll(order);
  }

  function Pushed(decision: Decision): seq<Operation> {
    if decision.Insert? then [decision.op] else []
  }

  function Skipped(decision: Decision, row: SourceRow): seq<SourceRow> {
    if decision.Skip? then [row] else []
  }

  lemma DecideStep(rows: seq<SourceRow>, row: SourceRow, c: Context, colliding: set<string>)
    ensures Operations(rows + [row], c, colliding) == Operations(rows, c, colliding) + Pushed(Decide(row, c, colliding))
    ensures RowIssues(rows + [row], c) == RowIssues(rows, c) + Tag(RowErrors(row, c), row.id)
    ensures Skips(rows + [row], c, colliding) == Skips(rows, c, colliding) + Skipped(Decide(row, c, colliding), row)
  {
    assert (rows + [row])[..|rows|] == rows;
  }

  /** The main loop: each row's errors, and its operation or its skip. */
  method DecideRows(rows: seq<SourceRow>, c: Context, colliding: set<string>)
    returns (operations: seq<Operation>, issues: seq<Issue>, skips: seq<SourceRow>)
    ensures operations == Operations(rows, c, colliding)
    ensures issues == RowIssues(rows, c)
    ensures skips == Skips(rows, c, colliding)
  {
    operations, issues, skips := [], [], [];
    for k := 0 to |rows|
      invariant operations == Operations(rows[..k], c, colliding)
      invariant issues == RowIssues(rows[..k], c)
      invariant skips == Skips(rows[..k], c, colliding)
    {
      TakeStep(rows, k);
      DecideStep(rows[..k], rows[k], c, colliding);
      issues := issues + Tag(RowErrors(rows[k], c), rows[k].id);
      operations := operations + Pushed(Decide(rows[k], c, colliding));
      skips := skips + Skipped(Decide(rows[k], c, colliding), rows[k]);
    }
    TakeAll(rows);
  }

  method PlanProfileBackfill(m: Manifest, t: Target, less: (string, string) -> bool)
    returns (plan: Plan, cycles: set<string>)
    ensures plan == PlanWith(m, t, cycles, less)
    ensures UniqueIds(m.rows) ==> forall id :: id in cycles <==> id in RowsById(m.rows) && OnCycle(RowsById(m.rows), id)
  {
    var targetIssues := ValidateTargetSnapshot(t);
    var owners := OwnerMap(m.owners);
    var scanIssues, order, groups := ScanSource(m.rows, owners);
    var collisions := CollectCollisions(m.rows, owners, order, groups);
    var colliding := set row | row in collisions :: row.id;
    var members := CycleMemberIds(m.rows);
    var c := ContextOf(m, t, members);
    var operations, rowIssues, skips := DecideRows(m.rows, c, colliding);
    plan := Plan(SortOperations(operations, less),
                 SnapshotIssues(targetIssues) + scanIssues + CollisionIssues(collisions) + rowIssues, skips);
    cycles := members;
  }
}
