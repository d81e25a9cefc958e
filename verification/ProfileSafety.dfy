/** What a plan without errors guarantees: the planner and the validator were written
    apart, and these lemmas join them. */
module ProfileSafety {
  import opened Outcomes
  import opened ProfileTypes
  import opened ProfileTarget
  import opened ProfileManifest
  import opened RedirectCycles
  import opened ProfilePlanner

  // ------------------------------------------------- no error, row by row

  ghost predicate UniqueSlugs(rows: seq<SourceRow>) {
    forall i, j | 0 <= i < j < |rows| :: rows[i].slug != rows[j].slug
  }

  /** No two active rows map to one owner. */
  ghost predicate OwnersApart(rows: seq<SourceRow>, owners: map<string, string>) {
    forall i, j | 0 <= i < j < |rows| && rows[i].status.Active? && rows[j].status.Active? ::
      MappedOwner(rows[i], owners) != MappedOwner(rows[j], owners)
  }

  ghost predicate Clean(m: Manifest, t: Target, c: Context) {
    && ValidTarget(t) && UniqueIds(m.rows) && UniqueSlugs(m.rows) && OwnersApart(m.rows, c.owners)
    && forall row {:trigger RowErrors(row, c)} | row in m.rows :: RowErrors(row, c) == []
  }

  lemma {:induction false} NoScanIssues(rows: seq<SourceRow>)
    ensures ScanIssues(rows) == [] <==> UniqueIds(rows) && UniqueSlugs(rows)
  {
    if rows != [] {
      var (before, last) := (rows[..|rows| - 1], rows[|rows| - 1]);
      NoScanIssues(before);
      SplitLast(rows);
      assert UniqueIds(rows) <==> UniqueIds(before) && forall row | row in before :: row.id != last.id;
      assert UniqueSlugs(rows) <==> UniqueSlugs(before) && forall row | row in before :: row.slug != last.slug;
    }
  }

  lemma {:induction false} NoRowIssues(rows: seq<SourceRow>, c: Context)
    ensures RowIssues(rows, c) == [] <==> forall row | row in rows :: RowErrors(row, c) == []
  {
    if rows != [] {
      var (before, last) := (rows[..|rows| - 1], rows[|rows| - 1]);
      NoRowIssues(before, c);
      SplitLast(rows);
      assert |Tag(RowErrors(last, c), last.id)| == |RowErrors(last, c)|;
    }
  }

  lemma {:induction false} GroupEmpty(rows: seq<SourceRow>, owners: map<string, string>, owner: string)
    ensures Group(rows, owners, owner) == []
            <==> forall row | row in rows && row.status.Active? :: MappedOwner(row, owners) != owner
  {
    if rows != [] {
      var (before, last) := (rows[..|rows| - 1], rows[|rows| - 1]);
      SplitLast(rows);
      GroupEmpty(before, owners, owner);
    }
  }

  lemma {:induction false} OrderHoldsOwners(rows: seq<SourceRow>, owners: map<string, string>)
    ensures forall owner :: owner in OwnerOrder(rows, owners) <==> exists row | row in rows ::
              row.status.Active? && MappedOwner(row, owners) == owner
  {
    if rows != [] {
      var (before, last) := (rows[..|rows| - 1], rows[|rows| - 1]);
      SplitLast(rows);
      OrderHoldsOwners(before, owners);
    }
  }

  lemma {:induction false} GroupSmall(rows: seq<SourceRow>, owners: map<string, string>, owner: string)
    requires OwnersApart(rows, owners)
    ensures |Group(rows, owners, owner)| < 2
  {
    if rows != [] {
      var (before, last) := (rows[..|rows| - 1], rows[|rows| - 1]);
      SplitLast(rows);
      OwnersApartSplit(before, last, owners);
      GroupSmall(before, owners, owner);
      GroupStep(before, last, owners, owner);
      GroupEmpty(before, owners, owner);
    }
  }

  lemma {:induction false} GroupPair(rows: seq<SourceRow>, owners: map<string, string>, i: nat, j: nat)
    requires i < j < |rows| && rows[i].status.Active? && rows[j].status.Active?
    requires MappedOwner(rows[i], owners) == MappedOwner(rows[j], owners)
    ensures |Group(rows, owners, MappedOwner(rows[j], owners))| >= 2
  {
    var (before, last) := (rows[..|rows| - 1], rows[|rows| - 1]);
    SplitLast(rows);
    var owner := MappedOwner(rows[j], owners);
    GroupStep(before, last, owners, owner);
    if j < |rows| - 1 {
      GroupPair(before, owners, i, j);
    } else {
      assert rows[i] == before[i];
      GroupEmpty(before, owners, owner);
    }
  }

  lemma OwnersApartSplit(before: seq<SourceRow>, last: SourceRow, owners: map<string, string>)
    ensures OwnersApart(before + [last], owners) <==>
            OwnersApart(before, owners)
            && (last.status.Active?
                ==> forall row | row in before && row.status.Active? ::
                  MappedOwner(row, owners) != MappedOwner(last, owners))
  {
    var rows := before + [last];
    if OwnersApart(rows, owners) {
      forall i, j | 0 <= i < j < |before| && before[i].status.Active? && before[j].status.Active?
        ensures MappedOwner(before[i], owners) != MappedOwner(before[j], owners)
      {
        assert rows[i] == before[i] && rows[j] == before[j];
      }
      forall row | row in before && row.status.Active? && last.status.Active?
        ensures MappedOwner(row, owners) != MappedOwner(last, owners)
      {
        var i :| 0 <= i < |before| && before[i] == row;
        assert rows[i] == row && rows[|before|] == last;
      }
    }
  }

  lemma {:induction false} NoCollidingRows(order: seq<string>, rows: seq<SourceRow>, owners: map<string, string>)
    ensures CollidingRows(order, rows, owners) == []
            <==> forall owner | owner in order :: |Group(rows, owners, owner)| < 2
  {
    if order != [] {
      var (before, last) := (order[..|order| - 1], order[|order| - 1]);
      SplitLast(order);
      NoCollidingRows(before, rows, owners);
      CollidingStep(before, last, rows, owners);
      assert forall owner :: owner in order <==> owner in before || owner == last;
    }
  }

  lemma NoCollisions(rows: seq<SourceRow>, owners: map<string, string>)
    ensures CollidingRows(OwnerOrder(rows, owners), rows, owners) == [] <==> OwnersApart(rows, owners)
  {
    var order := OwnerOrder(rows, owners);
    NoCollidingRows(order, rows, owners);
    OrderHoldsOwners(rows, owners);
    if OwnersApart(rows, owners) {
      forall owner | owner in order ensures |Group(rows, owners, owner)| < 2 {
        GroupSmall(rows, owners, owner);
      }
    }
    if CollidingRows(order, rows, owners) == [] {
      forall i, j | 0 <= i < j < |rows| && rows[i].status.Active? && rows[j].status.Active?
        ensures MappedOwner(rows[i], owners) != MappedOwner(rows[j], owners)
      {
        if MappedOwner(rows[i], owners) == MappedOwner(rows[j], owners) {
          GroupPair(rows, owners, i, j);
        }
        assert rows[j] in rows && MappedOwner(rows[j], owners) in order;
      }
    }
  }

  lemma NoneCollides(rows: seq<SourceRow>, owners: map<string, string>)
    requires OwnersApart(rows, owners)
    ensures CollidingIds(rows, owners) == {}
  {
    NoCollisions(rows, owners);
  }

  lemma NoIssuesByPart(a: seq<Issue>, b: seq<Issue>, c: seq<Issue>, d: seq<Issue>)
    ensures a + b + c + d == [] <==> a == [] && b == [] && c == [] && d == []
  {
  }

  /** The report counts no error exactly when the target is valid and no row is
      repeated, colliding or in error. */
  lemma NoErrorsExactly(m: Manifest, t: Target, cycles: set<string>, less: (string, string) -> bool)
    ensures PlanWith(m, t, cycles, less).issues == [] <==> Clean(m, t, ContextOf(m, t, cycles))
  {
    var c := ContextOf(m, t, cycles);
    var collisions := CollidingRows(OwnerOrder(m.rows, c.owners), m.rows, c.owners);
    NoIssuesByPart(SnapshotIssues(TargetIssues(t)), ScanIssues(m.rows), CollisionIssues(collisions),
                   RowIssues(m.rows, c));
    NoIssuesExactly(t);
    NoScanIssues(m.rows);
    NoCollisions(m.rows, c.owners);
    NoRowIssues(m.rows, c);
  }

  // ------------------------------------------------- what a clean row becomes

  predicate Mapped(row: SourceRow, c: Context) {
    row.id in c.handles && row.user in c.owners
  }

  /** A mapped row, a live owner, and nothing of the wrong shape. */
  ghost predicate Settled(row: SourceRow, c: Context) {
    && Mapped(row, c)
    && c.owners[row.user] in c.users
    && ValidLabel(row.slug, row.display)
    && (row.status.Redirect? <==> row.target.Some?)
    && row.target != Some(row.id)
  }

  /** The nine checks of a row, one by one. */
  ghost predicate Passes(row: SourceRow, c: Context) {
    var (owner, handle) := (Get(c.owners, row.user), Get(c.handles, row.id));
    && ValidId(row.id) && ValidId(row.user)
    && Settled(row, c)
    && OwnerErrors(owner, c) == []
    && RedirectErrors(row, owner, c) == []
    && ExistingErrors(row, handle, owner, c) == []
    && (row.status.Active? && owner.value in c.activeByOwner ==> c.activeByOwner[owner.value].id == handle.value)
    && (row.slug in c.bySlug ==> c.bySlug[row.slug].id == handle.value)
  }

  lemma NoErrorsParts(row: SourceRow, c: Context)
    ensures RowErrors(row, c) == [] <==> Passes(row, c)
  {
    var (owner, handle) := (Get(c.owners, row.user), Get(c.handles, row.id));
    assert If(!ValidId(row.id) || !ValidId(row.user), InvalidSourceId) == [] <==> ValidId(row.id) && ValidId(row.user);
    assert If(!ValidLabel(row.slug, row.display), InvalidSourceLabel) == [] <==> ValidLabel(row.slug, row.display);
    assert If(handle.None?, MissingHandleMapping) == [] <==> row.id in c.handles;
    assert OwnerErrors(owner, c) == [] <==> row.user in c.owners && owner.value in c.users && c.users[owner.value];
  }

  function Become(row: SourceRow, c: Context): Handle
    requires Mapped(row, c)
  {
    Project(row, c.handles[row.id], c.owners[row.user], c)
  }

  /** What the tables of a planning run hold. */
  ghost predicate SourceTables(m: Manifest, c: Context) {
    && (forall x {:trigger c.rows[x]} | x in c.rows :: c.rows[x] in m.rows && c.rows[x].id == x)
    && (forall x {:trigger c.handles[x]} | x in c.handles :: ValidId(c.handles[x]) && x in c.rows)
    && (forall x, y | x in c.handles && y in c.handles && x != y :: c.handles[x] != c.handles[y])
    && (forall x {:trigger c.owners[x]} | x in c.owners :: ValidId(c.owners[x]))
  }

  ghost predicate TargetTables(t: Target, c: Context) {
    && (forall x {:trigger c.users[x]} | x in c.users :: TargetUser(x, c.users[x]) in t.users)
    && (forall h | h in t.handles ::
        h.id in c.byId && h.slug in c.bySlug && (h.status.Active? ==> h.owner in c.activeByOwner))
    && (forall x {:trigger c.byId[x]} | x in c.byId :: c.byId[x] in t.handles && c.byId[x].id == x)
    && (forall x {:trigger c.bySlug[x]} | x in c.bySlug :: c.bySlug[x] in t.handles && c.bySlug[x].slug == x)
    && (forall x {:trigger c.activeByOwner[x]} | x in c.activeByOwner ::
        c.activeByOwner[x] in t.handles && c.activeByOwner[x].owner == x && c.activeByOwner[x].status.Active?)
    && "" !in c.byId
  }

  ghost predicate Tables(m: Manifest, t: Target, c: Context) {
    SourceTables(m, c) && TargetTables(t, c)
  }

  lemma SourceTablesOf(m: Manifest, t: Target, cycles: set<string>)
    requires HandlesAccepted(m)
    requires forall o | o in m.owners :: GoodOwnerMapping(o)
    requires forall h | h in m.handles :: GoodHandleMapping(h)
    ensures SourceTables(m, ContextOf(m, t, cycles))
  {
    var c := ContextOf(m, t, cycles);
    HandleMapIsInjective(m);
    forall x | x in c.handles ensures ValidId(c.handles[x]) && x in c.rows {
      assert HandleMapping(x, c.handles[x]) in m.handles;
      assert x in SourceIds(m.rows);
    }
    forall x | x in c.owners ensures ValidId(c.owners[x]) {
      assert OwnerMapped(m.owners, x, c.owners[x]);
    }
  }

  lemma TargetTablesOf(m: Manifest, t: Target, cycles: set<string>)
    requires forall h | h in t.handles :: h.id != ""
    ensures TargetTables(t, ContextOf(m, t, cycles))
  {
  }

  lemma IdsAreNotEmpty(t: Target)
    requires ValidTarget(t)
    ensures forall h | h in t.handles :: h.id != ""
  {
    forall h | h in t.handles ensures h.id != "" {
      assert GoodFields(h);
    }
  }

  lemma TablesOf(m: Manifest, t: Target, cycles: set<string>)
    requires HandlesAccepted(m) && ValidTarget(t)
    requires forall o | o in m.owners :: GoodOwnerMapping(o)
    requires forall h | h in m.handles :: GoodHandleMapping(h)
    ensures Tables(m, t, ContextOf(m, t, cycles))
  {
    SourceTablesOf(m, t, cycles);
    IdsAreNotEmpty(t);
    TargetTablesOf(m, t, cycles);
  }

  /** A clean redirect leads to a source row: another one, active, of the same owner. */
  lemma RedirectLeadsToRow(m: Manifest, t: Target, c: Context, row: SourceRow) returns (target: SourceRow)
    requires Tables(m, t, c) && Clean(m, t, c)
    requires row in m.rows && row.status.Redirect?
    ensures target in m.rows && row.target == Some(target.id) && target.id != row.id
    ensures target.status.Active? && Settled(target, c) && Settled(row, c)
    ensures c.owners[target.user] == c.owners[row.user]
    ensures MappedTarget(row, c) == Some(c.handles[target.id])
  {
    NoErrorsParts(row, c);
    RedirectIsToRow(row, c);
    target := c.rows[row.target.value];
    NoErrorsParts(target, c);
  }

  lemma RedirectIsToRow(row: SourceRow, c: Context)
    requires row.status.Redirect? && Settled(row, c)
    requires RedirectErrors(row, Get(c.owners, row.user), c) == []
    requires (forall x | x in c.handles :: x in c.rows) && "" !in c.byId
    ensures row.target.value in c.rows
    ensures c.rows[row.target.value].status.Active?
    ensures c.rows[row.target.value].user in c.owners ==> c.owners[c.rows[row.target.value].user] == c.owners[row.user]
  {
  }

  lemma BecomesGood(m: Manifest, t: Target, c: Context, row: SourceRow)
    requires Tables(m, t, c) && Clean(m, t, c)
    requires row in m.rows
    ensures Settled(row, c)
    ensures GoodFields(Become(row, c)) && GoodShape(Become(row, c)) && Owned(t.users, Become(row, c))
  {
    NoErrorsParts(row, c);
    var owner := c.owners[row.user];
    assert TargetUser(owner, c.users[owner]) in t.users;
    if row.status.Redirect? {
      var target := RedirectLeadsToRow(m, t, c, row);
    }
  }

  /** A handle not yet in the table is apart from every handle in it. */
  lemma BecomesApart(m: Manifest, t: Target, c: Context, row: SourceRow, h: Handle)
    requires Tables(m, t, c) && RowErrors(row, c) == []
    requires Settled(row, c) && c.handles[row.id] !in c.byId && h in t.handles
    ensures Apart(h, Become(row, c))
  {
    NoErrorsParts(row, c);
  }

  lemma DifferentRows(rows: seq<SourceRow>, owners: map<string, string>, a: SourceRow, b: SourceRow)
    requires UniqueIds(rows) && UniqueSlugs(rows) && OwnersApart(rows, owners) && a in rows && b in rows && a != b
    ensures a.id != b.id && a.slug != b.slug
    ensures a.status.Active? && b.status.Active? ==> MappedOwner(a, owners) != MappedOwner(b, owners)
  {
    var i :| 0 <= i < |rows| && rows[i] == a;
    var j :| 0 <= j < |rows| && rows[j] == b;
    if i < j {
      assert rows[i].id != rows[j].id && rows[i].slug != rows[j].slug;
    } else {
      assert rows[j].id != rows[i].id && rows[j].slug != rows[i].slug;
    }
  }

  lemma RowsBecomeApart(m: Manifest, t: Target, c: Context, a: SourceRow, b: SourceRow)
    requires Tables(m, t, c) && Clean(m, t, c)
    requires a in m.rows && b in m.rows && a != b && Settled(a, c) && Settled(b, c)
    ensures Apart(Become(a, c), Become(b, c))
  {
    DifferentRows(m.rows, c.owners, a, b);
  }

  // -------------------------------------------------------- order of the plan

  function Inserted(op: Operation): Handle {
    Handle(op.handle, op.row.slug, op.row.display, op.row.status, op.owner, op.target)
  }

  function InsertedAll(ops: seq<Operation>): (r: seq<Handle>)
    ensures |r| == |ops|
  {
    if ops == [] then [] else InsertedAll(ops[..|ops| - 1]) + [Inserted(ops[|ops| - 1])]
  }

  lemma {:induction false} InsertedAt(ops: seq<Operation>, i: nat)
    requires i < |ops|
    ensures InsertedAll(ops)[i] == Inserted(ops[i])
  {
    if i < |ops| - 1 {
      InsertedAt(ops[..|ops| - 1], i);
    }
  }

  ghost predicate Ordered(ops: seq<Operation>, less: (string, string) -> bool) {
    forall i, j | 0 <= i < j < |ops| :: !Before(ops[j], ops[i], less)
  }

  lemma {:induction false} PlacePermutes(op: Operation, ops: seq<Operation>, less: (string, string) -> bool)
    ensures multiset(Place(op, ops, less)) == multiset(ops) + multiset{op}
  {
    if ops != [] {
      SplitLast(ops);
      PlacePermutes(op, ops[..|ops| - 1], less);
    }
  }

  lemma OrderedSplit(front: seq<Operation>, last: Operation, less: (string, string) -> bool)
    ensures Ordered(front + [last], less) <==> Ordered(front, less) && forall x | x in front :: !Before(last, x, less)
  {
    var ops := front + [last];
    if Ordered(ops, less) {
      forall x | x in front ensures !Before(last, x, less) {
        var i :| 0 <= i < |front| && front[i] == x;
        assert !Before(ops[|front|], ops[i], less);
      }
      forall i, j | 0 <= i < j < |front| ensures !Before(front[j], front[i], less) {
        assert !Before(ops[j], ops[i], less);
      }
    }
  }

  lemma PlaceMembers(op: Operation, ops: seq<Operation>, less: (string, string) -> bool)
    ensures forall x | x in Place(op, ops, less) :: x == op || x in ops
  {
    PlacePermutes(op, ops, less);
    forall x | x in Place(op, ops, less) ensures x == op || x in ops {
      assert x in multiset(Place(op, ops, less));
    }
  }

  lemma {:induction false} PlaceOrders(op: Operation, ops: seq<Operation>, less: (string, string) -> bool)
    requires StrictTotal(less) && Ordered(ops, less)
    ensures Ordered(Place(op, ops, less), less)
  {
    if ops != [] {
      var (front, last) := (ops[..|ops| - 1], ops[|ops| - 1]);
      SplitLast(ops);
      OrderedSplit(front, last, less);
      PlaceOrders(op, front, less);
      PlaceMembers(op, front, less);
      OrderedSplit(Place(op, front, less), last, less);
      OrderedSplit(ops, op, less);
    }
  }

  /** The operations are written in order of rank, then of id, and none is added or lost. */
  lemma {:induction false} SortedOperations(ops: seq<Operation>, less: (string, string) -> bool)
    requires StrictTotal(less)
    ensures multiset(SortOperations(ops, less)) == multiset(ops)
    ensures Ordered(SortOperations(ops, less), less)
  {
    if ops != [] {
      var (front, last) := (ops[..|ops| - 1], ops[|ops| - 1]);
      SplitLast(ops);
      SortedOperations(front, less);
      PlacePermutes(last, SortOperations(front, less), less);
      PlaceOrders(last, SortOperations(front, less), less);
    }
  }

  lemma {:induction false} OperationsFrom(rows: seq<SourceRow>, c: Context, colliding: set<string>)
    ensures forall op | op in Operations(rows, c, colliding) ::
              op.row in rows && Decide(op.row, c, colliding) == Insert(op)
  {
    if rows != [] {
      var (before, last) := (rows[..|rows| - 1], rows[|rows| - 1]);
      SplitLast(rows);
      OperationsFrom(before, c, colliding);
      DecideStep(before, last, c, colliding);
    }
  }

  lemma {:induction false} OperationsHold(rows: seq<SourceRow>, c: Context, colliding: set<string>, row: SourceRow)
    requires row in rows && Decide(row, c, colliding).Insert?
    ensures Decide(row, c, colliding).op in Operations(rows, c, colliding)
  {
    var (before, last) := (rows[..|rows| - 1], rows[|rows| - 1]);
    SplitLast(rows);
    DecideStep(before, last, c, colliding);
    if row != last {
      OperationsHold(before, c, colliding, row);
    }
  }

  // ---- Every row is accounted for ---------------------------------------------------

  /** A row is left out for its own errors or for an owner collision. */
  predicate Stopped(row: SourceRow, c: Context, colliding: set<string>) {
    RowErrors(row, c) != [] || row.id in colliding
  }

  function StoppedRows(rows: seq<SourceRow>, c: Context, colliding: set<string>): seq<SourceRow> {
    if rows == [] then []
    else
      var (before, last) := (rows[..|rows| - 1], rows[|rows| - 1]);
      StoppedRows(before, c, colliding) + if Stopped(last, c, colliding) then [last] else []
  }

  function RowsOf(ops: seq<Operation>): (r: seq<SourceRow>)
    ensures |r| == |ops|
  {
    if ops == [] then [] else RowsOf(ops[..|ops| - 1]) + [ops[|ops| - 1].row]
  }

  lemma NeverLost(row: SourceRow, c: Context, colliding: set<string>)
    ensures Decide(row, c, colliding) != Lost
    ensures Decide(row, c, colliding).Excluded? <==> Stopped(row, c, colliding)
    ensures Decide(row, c, colliding).Insert? ==> Decide(row, c, colliding).op.row == row
  {
    var (handle, owner) := (Get(c.handles, row.id), Get(c.owners, row.user));
    if RowErrors(row, c) == [] {
      assert OwnerErrors(owner, c) == [] && If(handle.None?, MissingHandleMapping) == [];
      assert ExistingErrors(row, handle, owner, c) == [];
    }
  }

  lemma RowsOfOneMore(ops: seq<Operation>, op: Operation)
    ensures RowsOf(ops + [op]) == RowsOf(ops) + [op.row]
  {
    assert (ops + [op])[..|ops|] == ops;
  }

  lemma {:induction false} PlacedRows(op: Operation, ops: seq<Operation>, less: (string, string) -> bool)
    ensures multiset(RowsOf(Place(op, ops, less))) == multiset(RowsOf(ops)) + multiset{op.row}
  {
    RowsOfOneMore([], op);
    assert [] + [op] == [op] && RowsOf([]) == [];
    if ops != [] {
      var (front, last) := (ops[..|ops| - 1], ops[|ops| - 1]);
      PlacedRows(op, front, less);
      RowsOfOneMore(Place(op, front, less), last);
      RowsOfOneMore(ops, op);
    }
  }

  lemma {:induction false} SortedRows(ops: seq<Operation>, less: (string, string) -> bool)
    ensures multiset(RowsOf(SortOperations(ops, less))) == multiset(RowsOf(ops))
  {
    if ops != [] {
      SortedRows(ops[..|ops| - 1], less);
      PlacedRows(ops[|ops| - 1], SortOperations(ops[..|ops| - 1], less), less);
    }
  }

  /** The rows of the operations, the skipped rows and the stopped rows, with repetitions. */
  ghost function Accounted(rows: seq<SourceRow>, c: Context, colliding: set<string>): multiset<SourceRow> {
    multiset(RowsOf(Operations(rows, c, colliding)))
    + multiset(Skips(rows, c, colliding))
    + multiset(StoppedRows(rows, c, colliding))
  }

  lemma StoppedStep(rows: seq<SourceRow>, row: SourceRow, c: Context, colliding: set<string>)
    ensures StoppedRows(rows + [row], c, colliding)
         == StoppedRows(rows, c, colliding) + if Stopped(row, c, colliding) then [row] else []
  {
    assert (rows + [row])[..|rows|] == rows;
  }

  lemma AccountedStep(rows: seq<SourceRow>, row: SourceRow, c: Context, colliding: set<string>)
    ensures Accounted(rows + [row], c, colliding) == Accounted(rows, c, colliding) + multiset{row}
  {
    hide Decide, Stopped, RowErrors, RowIssues, Operations, Skips, StoppedRows, RowsOf;
    var decision := Decide(row, c, colliding);
    NeverLost(row, c, colliding);
    DecideStep(rows, row, c, colliding);
    StoppedStep(rows, row, c, colliding);
    assert Operations(rows, c, colliding) + [] == Operations(rows, c, colliding);
    match decision {
      case Insert(op) => RowsOfOneMore(Operations(rows, c, colliding), op);
      case Skip =>
      case Excluded =>
    }
  }

  lemma {:induction false} AllAccounted(rows: seq<SourceRow>, c: Context, colliding: set<string>)
    ensures Accounted(rows, c, colliding) == multiset(rows)
  {
    if rows != [] {
      var (before, last) := (rows[..|rows| - 1], rows[|rows| - 1]);
      SplitLast(rows);
      AllAccounted(before, c, colliding);
      AccountedStep(before, last, c, colliding);
    }
  }

  lemma {:induction false} SkipsExactly(rows: seq<SourceRow>, c: Context, colliding: set<string>, row: SourceRow)
    ensures row in Skips(rows, c, colliding) <==> row in rows && Decide(row, c, colliding).Skip?
  {
    if rows != [] {
      var (before, last) := (rows[..|rows| - 1], rows[|rows| - 1]);
      SplitLast(rows);
      DecideStep(before, last, c, colliding);
      SkipsExactly(before, c, colliding, row);
    }
  }

  /** In every plan, with errors or without, the rows of the operations, the skipped rows and
      the rows that were stopped are together the rows of the manifest: none is lost, and
      none is handled twice. An operation or a skip belongs to a row exactly when the row's
      decision says so. */
  lemma NoRowIsLost(m: Manifest, t: Target, cycles: set<string>, less: (string, string) -> bool)
    requires StrictTotal(less)
    ensures var plan, c := PlanWith(m, t, cycles, less), ContextOf(m, t, cycles);
            var colliding := CollidingIds(m.rows, c.owners);
            var stopped := StoppedRows(m.rows, c, colliding);
            && multiset(RowsOf(plan.operations)) + multiset(plan.skips) + multiset(stopped) == multiset(m.rows)
            && |plan.operations| + |plan.skips| + |stopped| == |m.rows|
            && (forall op :: op in plan.operations <==> op.row in m.rows && Decide(op.row, c, colliding) == Insert(op))
            && (forall row :: row in plan.skips <==> row in m.rows && Decide(row, c, colliding).Skip?)
  {
    hide Decide, StrictTotal;
    var plan, c := PlanWith(m, t, cycles, less), ContextOf(m, t, cycles);
    var colliding := CollidingIds(m.rows, c.owners);
    var ops, stopped := Operations(m.rows, c, colliding), StoppedRows(m.rows, c, colliding);
    AllAccounted(m.rows, c, colliding);
    SortedRows(ops, less);
    assert |multiset(RowsOf(plan.operations))| + |multiset(plan.skips)| + |multiset(stopped)| == |multiset(m.rows)|;
    SortedOperations(ops, less);
    OperationsFrom(m.rows, c, colliding);
    forall op: Operation
      ensures op in plan.operations <==> op.row in m.rows && Decide(op.row, c, colliding) == Insert(op)
    {
      assert op in plan.operations <==> op in multiset(plan.operations);
      if op.row in m.rows && Decide(op.row, c, colliding) == Insert(op) {
        OperationsHold(m.rows, c, colliding, op.row);
      }
    }
    forall row: SourceRow
      ensures row in plan.skips <==> row in m.rows && Decide(row, c, colliding).Skip?
    {
      SkipsExactly(m.rows, c, colliding, row);
    }
  }

  lemma LastRowIsNew(before: seq<SourceRow>, last: SourceRow)
    requires UniqueIds(before + [last])
    ensures last !in before && UniqueIds(before)
  {
    var rows := before + [last];
    forall row | row in before ensures row.id != last.id {
      var i :| 0 <= i < |before| && before[i] == row;
      assert rows[i].id != rows[|before|].id;
    }
    forall i, j | 0 <= i < j < |before| ensures before[i].id != before[j].id {
      assert rows[i].id != rows[j].id;
    }
  }

  lemma OnceMore(ops: seq<Operation>, decision: Decision, op: Operation)
    requires multiset(ops)[op] <= 1 && (decision == Insert(op) ==> op !in ops)
    ensures multiset(ops + Pushed(decision))[op] <= 1
  {
    assert op in multiset(ops) <==> op in ops;
  }

  lemma {:induction false} OperationsOnce(rows: seq<SourceRow>, c: Context, colliding: set<string>, op: Operation)
    requires UniqueIds(rows)
    ensures multiset(Operations(rows, c, colliding))[op] <= 1
  {
    if rows != [] {
      var (before, last) := (rows[..|rows| - 1], rows[|rows| - 1]);
      SplitLast(rows);
      OperationsOnce(before, c, colliding, op);
      OperationsFrom(before, c, colliding);
      DecideStep(before, last, c, colliding);
      LastRowIsNew(before, last);
      OnceMore(Operations(before, c, colliding), Decide(last, c, colliding), op);
    }
  }

  // ------------------------------------------------- every prefix is valid

  ghost predicate ManifestGood(m: Manifest) {
    && HandlesAccepted(m)
    && (forall o | o in m.owners :: GoodOwnerMapping(o))
    && (forall h | h in m.handles :: GoodHandleMapping(h))
  }

  /** What the planned operations of a clean plan are. */
  ghost predicate Planned(m: Manifest, c: Context, ops: seq<Operation>) {
    && (forall op | op in ops ::
        op.row in m.rows && Settled(op.row, c) && Inserted(op) == Become(op.row, c) && op.handle !in c.byId)
    && (forall i, j | 0 <= i < j < |ops| :: ops[i].row != ops[j].row)
  }

  /** A row is served by the table or by an operation, never by neither. */
  ghost predicate ServedRow(row: SourceRow, c: Context, ops: seq<Operation>) {
    && Settled(row, c)
    && ((c.handles[row.id] in c.byId && c.byId[c.handles[row.id]] == Become(row, c))
        || exists i | 0 <= i < |ops| :: ops[i].row == row)
  }

  lemma OperationIsRow(row: SourceRow, c: Context, colliding: set<string>)
    requires RowErrors(row, c) == [] && row.id !in colliding && Settled(row, c)
    ensures c.handles[row.id] in c.byId
            ==> c.byId[c.handles[row.id]] == Become(row, c) && Decide(row, c, colliding) == Skip
    ensures c.handles[row.id] !in c.byId ==>
      Decide(row, c, colliding) == Insert(Operation(row, c.handles[row.id], c.owners[row.user], MappedTarget(row, c)))
  {
    NoErrorsParts(row, c);
  }

  lemma OperationsArePlanned(m: Manifest, t: Target, c: Context)
    requires Clean(m, t, c)
    ensures forall op | op in Operations(m.rows, c, {}) ::
      op.row in m.rows && Settled(op.row, c) && Inserted(op) == Become(op.row, c) && op.handle !in c.byId
  {
    OperationsFrom(m.rows, c, {});
    forall op | op in Operations(m.rows, c, {})
      ensures op.row in m.rows && Settled(op.row, c) && Inserted(op) == Become(op.row, c) && op.handle !in c.byId
    {
      assert Decide(op.row, c, {}) == Insert(op);
      NoErrorsParts(op.row, c);
      OperationIsRow(op.row, c, {});
    }
  }

  lemma PlannedInOrder(m: Manifest, t: Target, c: Context, less: (string, string) -> bool)
    requires StrictTotal(less) && Clean(m, t, c)
    ensures Planned(m, c, SortOperations(Operations(m.rows, c, {}), less))
  {
    var (raw, ops) := (Operations(m.rows, c, {}), SortOperations(Operations(m.rows, c, {}), less));
    SortedOperations(raw, less);
    OperationsArePlanned(m, t, c);
    forall op | op in ops ensures op in raw {
      assert op in multiset(ops);
    }
    forall i, j | 0 <= i < j < |ops| ensures ops[i].row != ops[j].row {
      OperationsFrom(m.rows, c, {});
      OperationsOnce(m.rows, c, {}, ops[i]);
      if ops[i] == ops[j] { OccursTwice(ops, i, j); }
      assert ops[i] in ops && ops[j] in ops;
    }
  }

  lemma OccursTwice<T>(items: seq<T>, i: nat, j: nat)
    requires i < j < |items| && items[i] == items[j]
    ensures multiset(items)[items[i]] >= 2
  {
    var (front, back) := (items[..j], items[j..]);
    assert items == front + back;
    assert front[i] == items[i] && back[0] == items[j];
    assert items[i] in multiset(front) && items[i] in multiset(back);
  }

  lemma RowIsServed(m: Manifest, t: Target, c: Context, less: (string, string) -> bool, row: SourceRow)
    requires StrictTotal(less) && Clean(m, t, c) && row in m.rows
    ensures ServedRow(row, c, SortOperations(Operations(m.rows, c, {}), less))
  {
    var (raw, ops) := (Operations(m.rows, c, {}), SortOperations(Operations(m.rows, c, {}), less));
    NoErrorsParts(row, c);
    OperationIsRow(row, c, {});
    if c.handles[row.id] !in c.byId {
      OperationsHold(m.rows, c, {}, row);
      SortedOperations(raw, less);
      var op := Decide(row, c, {}).op;
      assert op in multiset(ops);
      assert op in ops;
    }
  }

  lemma AddHandle(users: seq<TargetUser>, handles: seq<Handle>, g: Handle)
    requires ValidTable(users, handles)
    requires GoodFields(g) && GoodShape(g) && Owned(users, g) && Grounded(handles, g)
    requires forall h | h in handles :: Apart(h, g)
    ensures ValidTable(users, handles + [g])
  {
    PairwiseSplit(handles, g);
    forall h | h in handles + [g] ensures Grounded(handles + [g], h) {
      assert h in handles ==> Grounded(handles, h);
      assert Grounded(handles, h);
    }
  }

  lemma RanksAscend(ops: seq<Operation>, less: (string, string) -> bool, i: nat, j: nat)
    requires Ordered(ops, less) && i < j < |ops|
    ensures Rank(ops[i]) <= Rank(ops[j])
  {
    assert !Before(ops[j], ops[i], less);
  }

  /** An active row's operation stands before any redirect's. */
  lemma ActiveStandsBefore(ops: seq<Operation>, less: (string, string) -> bool, i: nat, j: nat)
    requires Ordered(ops, less) && i < |ops| && j < |ops|
    requires ops[i].row.status.Active? && ops[j].row.status.Redirect?
    ensures i < j
  {
    if j < i {
      RanksAscend(ops, less, j, i);
    }
  }

  function TableAfter(t: Target, ops: seq<Operation>, k: nat): seq<Handle>
    requires k <= |ops|
  {
    t.handles + InsertedAll(ops[..k])
  }

  lemma TableStep(t: Target, ops: seq<Operation>, k: nat)
    requires k < |ops|
    ensures TableAfter(t, ops, k + 1) == TableAfter(t, ops, k) + [Inserted(ops[k])]
  {
    assert ops[..k + 1][..k] == ops[..k];
    assert t.handles + (InsertedAll(ops[..k]) + [Inserted(ops[k])])
      == (t.handles + InsertedAll(ops[..k])) + [Inserted(ops[k])];
  }

  lemma TableHolds(t: Target, ops: seq<Operation>, k: nat, h: Handle)
    requires k <= |ops|
    ensures h in TableAfter(t, ops, k) <==> h in t.handles || exists i | 0 <= i < k :: Inserted(ops[i]) == h
  {
    var added := InsertedAll(ops[..k]);
    forall i | 0 <= i < k ensures added[i] == Inserted(ops[i]) {
      InsertedAt(ops[..k], i);
    }
    if h in added {
      var i :| 0 <= i < |added| && added[i] == h;
    }
  }

  lemma TargetIsInTable(t: Target, c: Context, less: (string, string) -> bool, ops: seq<Operation>, k: nat,
                        target: SourceRow)
    requires TargetTables(t, c) && Ordered(ops, less) && k < |ops| && ops[k].row.status.Redirect?
    requires forall op | op in ops :: Settled(op.row, c) && Inserted(op) == Become(op.row, c)
    requires ServedRow(target, c, ops) && target.status.Active?
    ensures Become(target, c) in TableAfter(t, ops, k)
  {
    var g := Become(target, c);
    TableHolds(t, ops, k, g);
    if !(c.handles[target.id] in c.byId && c.byId[c.handles[target.id]] == g) {
      var i :| 0 <= i < |ops| && ops[i].row == target;
      ActiveStandsBefore(ops, less, i, k);
      assert ops[i] in ops;
    }
  }

  lemma NextIsGrounded(m: Manifest, t: Target, c: Context, less: (string, string) -> bool, ops: seq<Operation>, k: nat)
    requires StrictTotal(less) && Tables(m, t, c) && Clean(m, t, c)
    requires ops == SortOperations(Operations(m.rows, c, {}), less) && Planned(m, c, ops) && k < |ops|
    ensures Grounded(TableAfter(t, ops, k), Inserted(ops[k]))
  {
    var row := ops[k].row;
    assert ops[k] in ops;
    if row.status.Redirect? {
      var target := RedirectLeadsToRow(m, t, c, row);
      RowIsServed(m, t, c, less, target);
      SortedOperations(Operations(m.rows, c, {}), less);
      TargetIsInTable(t, c, less, ops, k, target);
      assert Serves(Inserted(ops[k]), Become(target, c));
    }
  }

  lemma EarlierIsApart(m: Manifest, t: Target, c: Context, ops: seq<Operation>, i: nat, k: nat)
    requires Tables(m, t, c) && Clean(m, t, c) && Planned(m, c, ops) && i < k < |ops|
    ensures Apart(Inserted(ops[i]), Inserted(ops[k]))
  {
    assert ops[i] in ops && ops[k] in ops;
    assert ops[i].row != ops[k].row;
    RowsBecomeApart(m, t, c, ops[i].row, ops[k].row);
  }

  lemma NextIsApartFromTarget(m: Manifest, t: Target, c: Context, ops: seq<Operation>, k: nat)
    requires Tables(m, t, c) && Clean(m, t, c) && Planned(m, c, ops) && k < |ops|
    ensures forall h | h in t.handles :: Apart(h, Inserted(ops[k]))
  {
    assert ops[k] in ops;
    assert RowErrors(ops[k].row, c) == [];
    forall h | h in t.handles ensures Apart(h, Inserted(ops[k])) {
      BecomesApart(m, t, c, ops[k].row, h);
    }
  }

  lemma NextIsApart(m: Manifest, t: Target, c: Context, ops: seq<Operation>, k: nat)
    requires Tables(m, t, c) && Clean(m, t, c) && Planned(m, c, ops) && k < |ops|
    ensures forall h | h in TableAfter(t, ops, k) :: Apart(h, Inserted(ops[k]))
  {
    NextIsApartFromTarget(m, t, c, ops, k);
    forall i | 0 <= i < k ensures Apart(Inserted(ops[i]), Inserted(ops[k])) {
      EarlierIsApart(m, t, c, ops, i, k);
    }
    ApartFromTable(t, ops, k);
  }

  lemma ApartFromTable(t: Target, ops: seq<Operation>, k: nat)
    requires k < |ops|
    requires forall h | h in t.handles :: Apart(h, Inserted(ops[k]))
    requires forall i | 0 <= i < k :: Apart(Inserted(ops[i]), Inserted(ops[k]))
    ensures forall h | h in TableAfter(t, ops, k) :: Apart(h, Inserted(ops[k]))
  {
    forall h | h in TableAfter(t, ops, k) ensures Apart(h, Inserted(ops[k])) {
      TableHolds(t, ops, k, h);
    }
  }

  lemma NextIsValid(m: Manifest, t: Target, c: Context, less: (string, string) -> bool, ops: seq<Operation>, k: nat)
    requires StrictTotal(less) && Tables(m, t, c) && Clean(m, t, c)
    requires ops == SortOperations(Operations(m.rows, c, {}), less) && k < |ops|
    requires ValidTable(t.users, TableAfter(t, ops, k))
    ensures ValidTable(t.users, TableAfter(t, ops, k + 1))
  {
    PlannedInOrder(m, t, c, less);
    assert ops[k] in ops;
    BecomesGood(m, t, c, ops[k].row);
    NextIsGrounded(m, t, c, less, ops, k);
    NextIsApart(m, t, c, ops, k);
    AddHandle(t.users, TableAfter(t, ops, k), Inserted(ops[k]));
    TableStep(t, ops, k);
  }

  lemma NothingInserted(t: Target, ops: seq<Operation>)
    ensures TableAfter(t, ops, 0) == t.handles
  {
  }

  /** One insertion keeps the invariant. */
  ghost predicate StepKeeps(t: Target, ops: seq<Operation>, k: nat)
    requires k < |ops|
  {
    ValidTable(t.users, TableAfter(t, ops, k)) ==> ValidTable(t.users, TableAfter(t, ops, k + 1))
  }

  lemma {:induction false} StepsKeep(t: Target, ops: seq<Operation>, k: nat)
    requires ValidTable(t.users, t.handles) && k <= |ops|
    requires forall j | 0 <= j < |ops| :: StepKeeps(t, ops, j)
    ensures ValidTable(t.users, TableAfter(t, ops, k))
  {
    if k == 0 {
      NothingInserted(t, ops);
    } else {
      StepsKeep(t, ops, k - 1);
      assert StepKeeps(t, ops, k - 1);
    }
  }

  lemma PrefixIsValid(m: Manifest, t: Target, c: Context, less: (string, string) -> bool, ops: seq<Operation>, k: nat)
    requires StrictTotal(less) && Tables(m, t, c) && Clean(m, t, c)
    requires ops == SortOperations(Operations(m.rows, c, {}), less) && k <= |ops|
    ensures ValidTable(t.users, TableAfter(t, ops, k))
  {
    forall j | 0 <= j < |ops| ensures StepKeeps(t, ops, j) {
      if ValidTable(t.users, TableAfter(t, ops, j)) {
        NextIsValid(m, t, c, less, ops, j);
      }
    }
    StepsKeep(t, ops, k);
  }

  /** An error-free plan is the sorted operations of a clean context. */
  lemma CleanPlan(m: Manifest, t: Target, cycles: set<string>, less: (string, string) -> bool)
    requires ManifestGood(m) && PlanWith(m, t, cycles, less).issues == []
    ensures Clean(m, t, ContextOf(m, t, cycles)) && Tables(m, t, ContextOf(m, t, cycles))
    ensures PlanWith(m, t, cycles, less).operations
              == SortOperations(Operations(m.rows, ContextOf(m, t, cycles), {}), less)
  {
    NoErrorsExactly(m, t, cycles, less);
    NoneCollides(m.rows, OwnerMap(m.owners));
    TablesOf(m, t, cycles);
  }

  /** Inserting the operations of an error-free plan one at a time, in order, leaves
      a table the validator accepts after every one of them. */
  lemma PrefixStaysValid(m: Manifest, t: Target, cycles: set<string>, less: (string, string) -> bool, k: nat)
    requires StrictTotal(less) && ManifestGood(m)
    requires PlanWith(m, t, cycles, less).issues == []
    requires k <= |PlanWith(m, t, cycles, less).operations|
    ensures ValidTarget(t.(handles := TableAfter(t, PlanWith(m, t, cycles, less).operations, k)))
  {
    CleanPlan(m, t, cycles, less);
    PrefixIsValid(m, t, ContextOf(m, t, cycles), less, PlanWith(m, t, cycles, less).operations, k);
  }

  // ------------------------------------------------------- replanning is a no-op

  lemma FoundById(t: Target, c: Context, g: Handle)
    requires Pairwise(t.handles) && TargetTables(t, c) && g in t.handles
    ensures g.id in c.byId && c.byId[g.id] == g
  {
    SameHandle(t.handles, c.byId[g.id], g);
  }

  lemma FoundBySlug(t: Target, c: Context, g: Handle)
    requires Pairwise(t.handles) && TargetTables(t, c) && g in t.handles
    ensures g.slug in c.bySlug && c.bySlug[g.slug] == g
  {
    SameHandle(t.handles, c.bySlug[g.slug], g);
  }

  lemma FoundActive(t: Target, c: Context, g: Handle)
    requires Pairwise(t.handles) && TargetTables(t, c) && g in t.handles && g.status.Active?
    ensures g.owner in c.activeByOwner && c.activeByOwner[g.owner] == g
  {
    SameHandle(t.handles, c.activeByOwner[g.owner], g);
  }

  /** Every table finds the handle the row has become. */
  ghost predicate Found(row: SourceRow, c: Context, c': Context)
    requires Mapped(row, c)
  {
    && c.handles[row.id] in c'.byId && c'.byId[c.handles[row.id]] == Become(row, c)
    && row.slug in c'.bySlug && c'.bySlug[row.slug] == Become(row, c)
    && (row.status.Active?
        ==> c.owners[row.user] in c'.activeByOwner && c'.activeByOwner[c.owners[row.user]] == Become(row, c))
  }

  lemma AppliedIsFound(t': Target, c: Context, c': Context, row: SourceRow)
    requires Mapped(row, c) && Pairwise(t'.handles) && TargetTables(t', c') && Become(row, c) in t'.handles
    ensures Found(row, c, c')
  {
    FoundById(t', c', Become(row, c));
    FoundBySlug(t', c', Become(row, c));
    if row.status.Active? {
      FoundActive(t', c', Become(row, c));
    }
  }

  /** The two tables read the same source side. */
  ghost predicate SameSource(c: Context, c': Context) {
    c'.rows == c.rows && c'.owners == c.owners && c'.handles == c.handles && c'.users == c.users
      && c'.cycles == c.cycles
  }

  lemma SameRedirectErrors(c: Context, c': Context, row: SourceRow)
    requires SameSource(c, c')
    requires row.status.Redirect? ==> row.target.None? || row.target.value in c.rows
    ensures RedirectErrors(row, Get(c.owners, row.user), c') == RedirectErrors(row, Get(c.owners, row.user), c)
  {
  }

  lemma RedirectUnchanged(c: Context, c': Context, row: SourceRow)
    requires Passes(row, c) && SameSource(c, c')
    requires (forall x | x in c.handles :: x in c.rows) && "" !in c.byId
    ensures RedirectErrors(row, Get(c.owners, row.user), c') == []
  {
    if row.status.Redirect? {
      RedirectIsToRow(row, c);
    }
    SameRedirectErrors(c, c', row);
  }

  /** A row whose handle is in the table already, exactly as planned, has no error left. */
  lemma AppliedPasses(c: Context, c': Context, row: SourceRow)
    requires Passes(row, c) && SameSource(c, c')
    requires RedirectErrors(row, Get(c.owners, row.user), c') == []
    requires Found(row, c, c')
    ensures RowErrors(row, c') == [] && Decide(row, c', {}) == Skip
  {
    assert ExistingErrors(row, Get(c'.handles, row.id), Get(c'.owners, row.user), c') == [];
    assert OwnerErrors(Get(c'.owners, row.user), c') == OwnerErrors(Get(c.owners, row.user), c);
    NoErrorsParts(row, c');
  }

  lemma {:induction false} AllSkipped(rows: seq<SourceRow>, c: Context)
    requires forall row | row in rows :: Decide(row, c, {}) == Skip
    ensures Operations(rows, c, {}) == [] && Skips(rows, c, {}) == rows
  {
    if rows != [] {
      var (before, last) := (rows[..|rows| - 1], rows[|rows| - 1]);
      SplitLast(rows);
      AllSkipped(before, c);
      DecideStep(before, last, c, {});
    }
  }

  lemma RowIsInTable(m: Manifest, t: Target, c: Context, less: (string, string) -> bool, ops: seq<Operation>,
                     row: SourceRow)
    requires StrictTotal(less) && Tables(m, t, c) && Clean(m, t, c) && row in m.rows
    requires ops == SortOperations(Operations(m.rows, c, {}), less)
    ensures Settled(row, c) && Become(row, c) in TableAfter(t, ops, |ops|)
  {
    RowIsServed(m, t, c, less, row);
    PlannedInOrder(m, t, c, less);
    ServedIsInTable(t, c, ops, row);
  }

  lemma ServedIsInTable(t: Target, c: Context, ops: seq<Operation>, row: SourceRow)
    requires TargetTables(t, c) && ServedRow(row, c, ops)
    requires forall op | op in ops :: Settled(op.row, c) && Inserted(op) == Become(op.row, c)
    ensures Become(row, c) in TableAfter(t, ops, |ops|)
  {
    TableHolds(t, ops, |ops|, Become(row, c));
    if i :| 0 <= i < |ops| && ops[i].row == row {
      assert ops[i] in ops;
    }
  }

  lemma AppliedRow(m: Manifest, t: Target, c: Context, t': Target, c': Context, row: SourceRow)
    requires Tables(m, t, c) && SameSource(c, c') && RowErrors(row, c) == []
    requires Mapped(row, c) && Found(row, c, c')
    ensures RowErrors(row, c') == [] && Decide(row, c', {}) == Skip
  {
    NoErrorsParts(row, c);
    RedirectUnchanged(c, c', row);
    AppliedPasses(c, c', row);
  }

  lemma AppliedTable(m: Manifest, t: Target, t': Target, c: Context, less: (string, string) -> bool,
                     ops: seq<Operation>)
    requires StrictTotal(less) && Tables(m, t, c) && Clean(m, t, c)
    requires ops == SortOperations(Operations(m.rows, c, {}), less)
    requires t'.users == t.users && multiset(t'.handles) == multiset(t.handles + InsertedAll(ops))
    ensures ValidTarget(t') && forall h | h in TableAfter(t, ops, |ops|) :: h in t'.handles
  {
    PrefixIsValid(m, t, c, less, ops, |ops|);
    TakeAll(ops);
    ValidInAnyOrder(t.users, TableAfter(t, ops, |ops|), t'.handles);
    SameMembers(TableAfter(t, ops, |ops|), t'.handles);
  }

  lemma NoopPlan(m: Manifest, t': Target, cycles: set<string>, less: (string, string) -> bool)
    requires ValidTarget(t') && UniqueIds(m.rows) && UniqueSlugs(m.rows) && OwnersApart(m.rows, OwnerMap(m.owners))
    requires forall row | row in m.rows ::
               RowErrors(row, ContextOf(m, t', cycles)) == [] && Decide(row, ContextOf(m, t', cycles), {}) == Skip
    ensures PlanWith(m, t', cycles, less) == Plan([], [], m.rows)
  {
    NoErrorsExactly(m, t', cycles, less);
    NoneCollides(m.rows, OwnerMap(m.owners));
    AllSkipped(m.rows, ContextOf(m, t', cycles));
  }

  lemma RowIsSkipped(m: Manifest, t: Target, c: Context, t': Target, c': Context, less: (string, string) -> bool,
                     ops: seq<Operation>, row: SourceRow)
    requires StrictTotal(less) && Tables(m, t, c) && Clean(m, t, c) && TargetTables(t', c') && SameSource(c, c')
    requires ops == SortOperations(Operations(m.rows, c, {}), less)
    requires Pairwise(t'.handles) && forall h | h in TableAfter(t, ops, |ops|) :: h in t'.handles
    requires row in m.rows
    ensures RowErrors(row, c') == [] && Decide(row, c', {}) == Skip
  {
    RowIsInTable(m, t, c, less, ops, row);
    AppliedIsFound(t', c, c', row);
    assert RowErrors(row, c) == [];
    AppliedRow(m, t, c, t', c', row);
  }

  lemma RowsAreSkipped(m: Manifest, t: Target, t': Target, cycles: set<string>, less: (string, string) -> bool,
                       ops: seq<Operation>)
    requires StrictTotal(less) && Tables(m, t, ContextOf(m, t, cycles)) && Clean(m, t, ContextOf(m, t, cycles))
    requires ops == SortOperations(Operations(m.rows, ContextOf(m, t, cycles), {}), less)
    requires TargetTables(t', ContextOf(m, t', cycles)) && Pairwise(t'.handles)
    requires t'.users == t.users && forall h | h in TableAfter(t, ops, |ops|) :: h in t'.handles
    ensures forall row | row in m.rows ::
              RowErrors(row, ContextOf(m, t', cycles)) == [] && Decide(row, ContextOf(m, t', cycles), {}) == Skip
  {
    forall row | row in m.rows
      ensures RowErrors(row, ContextOf(m, t', cycles)) == [] && Decide(row, ContextOf(m, t', cycles), {}) == Skip
    {
      RowIsSkipped(m, t, ContextOf(m, t, cycles), t', ContextOf(m, t', cycles), less, ops, row);
    }
  }

  /** Planning the same manifest against the fully applied table, re-read in any
      order, finds no error, plans no operation and skips every row. */
  lemma ReplanIsNoop(m: Manifest, t: Target, t': Target, cycles: set<string>, less: (string, string) -> bool)
    requires StrictTotal(less) && ManifestGood(m)
    requires PlanWith(m, t, cycles, less).issues == []
    requires t'.users == t.users
    requires multiset(t'.handles) == multiset(t.handles + InsertedAll(PlanWith(m, t, cycles, less).operations))
    ensures PlanWith(m, t', cycles, less) == Plan([], [], m.rows)
  {
    var ops := PlanWith(m, t, cycles, less).operations;
    CleanPlan(m, t, cycles, less);
    AppliedTable(m, t, t', ContextOf(m, t, cycles), less, ops);
    IdsAreNotEmpty(t');
    TargetTablesOf(m, t', cycles);
    RowsAreSkipped(m, t, t', cycles, less, ops);
    NoopPlan(m, t', cycles, less);
  }

  // -------------------------------------------------------- redirects and cycles

  lemma CycleFollows(byId: map<string, SourceRow>, id: string, n: nat)
    requires n >= 1 && Walk(byId, id, n).Some?
    ensures Next(byId, id).Some? && Walk(byId, id, 1) == Next(byId, id)
  {
    assert Walk(byId, id, 0) == Some(id);
    if Walk(byId, id, 1).None? { WalkStops(byId, id, 1, n); }
  }

  /** The row a redirect into a cycle points at is itself a redirect. */
  lemma IntoCycleTarget(byId: map<string, SourceRow>, id: string, steps: nat)
    requires steps >= 1 && Walk(byId, id, steps).Some? && OnCycle(byId, Walk(byId, id, steps).value)
    ensures Next(byId, id).Some? && Next(byId, Next(byId, id).value).Some?
  {
    CycleFollows(byId, id, steps);
    var target := Next(byId, id).value;
    WalkAdds(byId, id, 1, steps - 1);
    if steps == 1 {
      var n: nat :| n >= 1 && Walk(byId, target, n) == Some(target);
      CycleFollows(byId, target, n);
    } else {
      CycleFollows(byId, target, steps - 1);
    }
  }

  lemma RefusedAsRedirect(row: SourceRow, c: Context)
    requires row.status.Redirect? && row.target.Some? && row.target.value in c.rows
    requires c.rows[row.target.value].status.Redirect?
    ensures row.id in c.cycles ==> RedirectCycle in RowErrors(row, c)
    ensures row.id !in c.cycles ==> RedirectTargetNotActive in RowErrors(row, c)
  {
    var errors := RedirectErrors(row, Get(c.owners, row.user), c);
    assert row.id in c.cycles ==> RedirectCycle in errors;
    assert row.id !in c.cycles ==> RedirectTargetNotActive in errors;
  }

  /** A redirect whose walk runs into a cycle is refused whether or not it lies on
      it: as a cycle member, or as not pointing at an active handle. */
  lemma IntoCycleIsRefused(m: Manifest, c: Context, row: SourceRow, steps: nat)
    requires UniqueIds(m.rows) && row in m.rows && c.rows == RowsById(m.rows)
    requires forall id :: id in c.cycles <==> id in c.rows && OnCycle(c.rows, id)
    requires steps >= 1 && Walk(c.rows, row.id, steps).Some? && OnCycle(c.rows, Walk(c.rows, row.id, steps).value)
    ensures if OnCycle(c.rows, row.id) then RedirectCycle in RowErrors(row, c)
              else RedirectTargetNotActive in RowErrors(row, c)
  {
    RowsByIdUnique(m.rows);
    IntoCycleTarget(c.rows, row.id, steps);
    RefusedAsRedirect(row, c);
  }
}
