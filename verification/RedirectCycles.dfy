/** `cycleMemberIds` of scripts/public-profile-backfill-planner.ts. */
module RedirectCycles {
  import opened Outcomes
  import opened ProfileTypes

  ghost predicate UniqueIds(rows: seq<SourceRow>) {
    forall i, j | 0 <= i < j < |rows| :: rows[i].id != rows[j].id
  }

  /** `new Map(rows.map(...))`: the last row of an id wins. */
  function RowsById(rows: seq<SourceRow>): (m: map<string, SourceRow>)
    ensures forall id {:trigger m[id]} | id in m :: m[id] in rows && m[id].id == id
    ensures forall row | row in rows :: row.id in m
  {
    if rows == [] then map[]
    else
      var (before, last) := (rows[..|rows| - 1], rows[|rows| - 1]);
      assert forall row | row in rows :: row in before || row == last;
      assert forall row | row in before :: row in rows;
      RowsById(before)[last.id := last]
  }

  lemma {:induction false} RowsByIdUnique(rows: seq<SourceRow>)
    requires UniqueIds(rows)
    ensures forall row | row in rows :: RowsById(rows)[row.id] == row
  {
    if rows != [] {
      var (before, last) := (rows[..|rows| - 1], rows[|rows| - 1]);
      RowsByIdUnique(before);
      forall row | row in rows ensures RowsById(rows)[row.id] == row {
        var i :| 0 <= i < |rows| && rows[i] == row;
        if i < |rows| - 1 { assert before[i] == row && row.id != last.id; }
      }
    }
  }

  predicate Follows(row: SourceRow) {
    row.status.Redirect? && row.target.Some?
  }

  /** The row a redirect row points at, when both are rows. */
  function Next(byId: map<string, SourceRow>, id: string): Option<string> {
    if id in byId && Follows(byId[id]) && byId[id].target.value in byId then byId[id].target else None
  }

  function Walk(byId: map<string, SourceRow>, id: string, steps: nat): Option<string> {
    if steps == 0 then Some(id)
    else
      var before := Walk(byId, id, steps - 1);
      if before.None? then None else Next(byId, before.value)
  }

  /** Following redirects from id for some positive number of steps leads back to it. */
  ghost predicate OnCycle(byId: map<string, SourceRow>, id: string) {
    exists steps: nat :: steps >= 1 && Walk(byId, id, steps) == Some(id)
  }

  lemma {:induction false} WalkAdds(byId: map<string, SourceRow>, id: string, m: nat, n: nat)
    requires Walk(byId, id, m).Some?
    ensures Walk(byId, id, m + n) == Walk(byId, Walk(byId, id, m).value, n)
    decreases n
  {
    if n > 0 {
      WalkAdds(byId, id, m, n - 1);
    }
  }

  lemma {:induction false} WalkStops(byId: map<string, SourceRow>, id: string, m: nat, n: nat)
    requires Walk(byId, id, m).None? && m <= n
    ensures Walk(byId, id, n).None?
    decreases n
  {
    if m < n {
      WalkStops(byId, id, m, n - 1);
    }
  }

  /** A period repeats, so a member of a cycle is met again arbitrarily late. */
  lemma {:induction false} PeriodRepeats(byId: map<string, SourceRow>, id: string, period: nat, times: nat)
    returns (late: nat)
    requires period >= 1 && Walk(byId, id, period) == Some(id)
    ensures late >= times && Walk(byId, id, late) == Some(id)
    decreases times
  {
    if times == 0 {
      late := 0;
    } else {
      late := PeriodRepeats(byId, id, period, times - 1);
      WalkAdds(byId, id, late, period);
      late := late + period;
    }
  }

  // ---------------------------------------------------------------- the walk

  /** `path` lists, without repetition, the ids met from its first one. */
  ghost predicate WalkedPath(byId: map<string, SourceRow>, start: string, path: seq<string>) {
    && (forall i | 0 <= i < |path| :: Walk(byId, start, i) == Some(path[i]))
    && (forall i, j | 0 <= i < j < |path| :: path[i] != path[j])
    && (forall i | 0 <= i < |path| :: path[i] in byId && Follows(byId[path[i]]))
  }

  /** When the walk returns to position `previous`, it stays in the suffix from there. */
  lemma {:induction false} LassoStays(byId: map<string, SourceRow>, start: string, path: seq<string>, previous: nat,
                                      m: nat)
    requires WalkedPath(byId, start, path) && previous < |path|
    requires Walk(byId, start, |path|) == Some(path[previous])
    requires previous <= m
    ensures Walk(byId, start, m).Some? && Walk(byId, start, m).value in path[previous..]
    decreases m
  {
    if m == previous {
      assert path[previous] == path[previous..][0];
    } else {
      LassoStays(byId, start, path, previous, m - 1);
      var j :| 0 <= j < |path[previous..]| && path[previous..][j] == Walk(byId, start, m - 1).value;
      var at := previous + j;
      assert path[at] == Walk(byId, start, m - 1).value;
      assert Walk(byId, start, at) == Walk(byId, start, m - 1);
      assert Walk(byId, start, m) == Walk(byId, start, at + 1);
      if at + 1 < |path| {
        assert path[at + 1] == path[previous..][j + 1];
      } else {
        assert path[previous] == path[previous..][0];
      }
    }
  }

  lemma SuffixIsCycle(byId: map<string, SourceRow>, start: string, path: seq<string>, previous: nat)
    requires WalkedPath(byId, start, path) && previous < |path|
    requires Walk(byId, start, |path|) == Some(path[previous])
    ensures forall id | id in path[previous..] :: OnCycle(byId, id)
  {
    forall id | id in path[previous..] ensures OnCycle(byId, id) {
      var j :| 0 <= j < |path[previous..]| && path[previous..][j] == id;
      var at := previous + j;
      assert path[at] == id;
      var period := |path| - previous;
      WalkAdds(byId, start, previous, period + j);
      WalkAdds(byId, start, |path|, j);
      WalkAdds(byId, start, previous, j);
      WalkAdds(byId, start, at, period);
      assert Walk(byId, start, at + period) == Walk(byId, start, |path| + j);
      assert Walk(byId, id, period) == Some(id);
    }
  }

  lemma StartIsInSuffix(byId: map<string, SourceRow>, start: string, path: seq<string>, previous: nat)
    requires WalkedPath(byId, start, path) && previous < |path|
    requires Walk(byId, start, |path|) == Some(path[previous])
    requires OnCycle(byId, start)
    ensures start in path[previous..]
  {
    var period: nat :| period >= 1 && Walk(byId, start, period) == Some(start);
    var late := PeriodRepeats(byId, start, period, previous);
    LassoStays(byId, start, path, previous, late);
  }

  lemma EndedWalkIsNoCycle(byId: map<string, SourceRow>, start: string, n: nat)
    requires Walk(byId, start, n).None?
    ensures !OnCycle(byId, start)
  {
    if period: nat :| period >= 1 && Walk(byId, start, period) == Some(start) {
      var late := PeriodRepeats(byId, start, period, n);
      WalkStops(byId, start, n, late);
    }
  }

  lemma {:induction false} DistinctFit<T>(path: seq<T>, within: set<T>)
    requires forall i, j | 0 <= i < j < |path| :: path[i] != path[j]
    requires forall p | p in path :: p in within
    ensures |path| <= |within|
  {
    if path != [] {
      var (before, last) := (path[..|path| - 1], path[|path| - 1]);
      forall p | p in before ensures p in within - {last} {
        var i :| 0 <= i < |before| && before[i] == p;
        assert path[i] != last && path[i] in path;
      }
      DistinctFit(before, within - {last});
    }
  }

  /** `seen` gives the position of every id on the path. */
  ghost predicate Positions(seen: map<string, nat>, path: seq<string>) {
    && (forall i | 0 <= i < |path| :: path[i] in seen && seen[path[i]] == i)
    && (forall id | id in seen :: seen[id] < |path| && path[seen[id]] == id)
  }

  lemma PositionsExtend(seen: map<string, nat>, path: seq<string>, id: string)
    requires Positions(seen, path) && id !in seen
    ensures Positions(seen[id := |path|], path + [id])
    ensures forall i, j | 0 <= i < j < |path + [id]| :: (path + [id])[i] != (path + [id])[j]
  {
    var longer := path + [id];
    forall i, j | 0 <= i < j < |longer| ensures longer[i] != longer[j] {
      assert longer[i] == path[i] && seen[path[i]] == i;
      if j < |path| { assert seen[path[j]] == j; }
    }
  }

  /** The walk along `path` stands at `current`, or has just left the rows. */
  ghost predicate Standing(byId: map<string, SourceRow>, start: string, path: seq<string>, current: Option<SourceRow>) {
    && WalkedPath(byId, start, path)
    && (current.Some? ==> Get(byId, current.value.id) == current && Walk(byId, start, |path|) == Some(current.value.id))
    && (current.None? ==> Walk(byId, start, |path|).None?)
  }

  lemma WalkExtends(byId: map<string, SourceRow>, start: string, path: seq<string>, row: SourceRow)
    requires forall id | id in byId :: byId[id].id == id
    requires Standing(byId, start, path, Some(row)) && Follows(row) && row.id !in path
    ensures Standing(byId, start, path + [row.id], Get(byId, row.target.value))
  {
    assert Walk(byId, start, |path| + 1) == Next(byId, row.id);
  }

  lemma LassoFound(byId: map<string, SourceRow>, start: string, path: seq<string>, previous: nat, row: SourceRow)
    requires Standing(byId, start, path, Some(row)) && previous < |path| && path[previous] == row.id
    ensures forall id | id in path[previous..] :: OnCycle(byId, id)
    ensures OnCycle(byId, start) ==> start in path[previous..]
  {
    SuffixIsCycle(byId, start, path, previous);
    if OnCycle(byId, start) {
      StartIsInSuffix(byId, start, path, previous);
    }
  }

  lemma WalkEnded(byId: map<string, SourceRow>, start: string, path: seq<string>, current: Option<SourceRow>)
    requires Standing(byId, start, path, current) && (current.Some? ==> !Follows(current.value))
    ensures !OnCycle(byId, start)
  {
    if current.Some? {
      assert Next(byId, current.value.id).None?;
      assert Walk(byId, start, |path| + 1).None?;
      EndedWalkIsNoCycle(byId, start, |path| + 1);
    } else {
      EndedWalkIsNoCycle(byId, start, |path|);
    }
  }

  /** One walk of the inner loop: the members of the cycle it runs into, if any.
      When two rows share an id the walk may start at one and go on from the other;
      it still ends, and what it collects is stated for unshared ids. */
  method CycleFrom(byId: map<string, SourceRow>, row: SourceRow) returns (members: seq<string>)
    requires forall id | id in byId :: byId[id].id == id
    requires row.id in byId
    ensures forall id | id in members :: id in byId
    ensures byId[row.id] == row ==> forall id | id in members :: OnCycle(byId, id)
    ensures byId[row.id] == row && OnCycle(byId, row.id) ==> row.id in members
  {
    members := [];
    var path: seq<string> := [];
    var seen: map<string, nat> := map[];
    var current := Some(row);
    while current.Some? && Follows(current.value)
      invariant Positions(seen, path)
      invariant forall id | id in path :: id in byId
      invariant |path| <= |byId.Keys|
      invariant current.Some? ==> current.value.id in byId
      invariant byId[row.id] == row ==> Standing(byId, row.id, path, current)
      decreases |byId.Keys| - |path|
    {
      var id := current.value.id;
      if id in seen {
        members := path[seen[id]..];
        if byId[row.id] == row {
          LassoFound(byId, row.id, path, seen[id], current.value);
        }
        return;
      }
      PositionsExtend(seen, path, id);
      DistinctFit(path + [id], byId.Keys);
      if byId[row.id] == row {
        assert id !in path;
        WalkExtends(byId, row.id, path, current.value);
      }
      seen := seen[id := |path|];
      path := path + [id];
      current := Get(byId, current.value.target.value);
    }
    if byId[row.id] == row {
      WalkEnded(byId, row.id, path, current);
    }
  }

  /** Every row is found under its own id. */
  ghost predicate Indexed(rows: seq<SourceRow>, byId: map<string, SourceRow>) {
    forall i | 0 <= i < |rows| :: rows[i].id in byId && byId[rows[i].id] == rows[i]
  }

  method CollectCycles(rows: seq<SourceRow>, byId: map<string, SourceRow>) returns (cycles: set<string>)
    requires forall id | id in byId :: byId[id].id == id
    requires forall i | 0 <= i < |rows| :: rows[i].id in byId
    ensures Indexed(rows, byId) ==> forall id | id in cycles :: id in byId && OnCycle(byId, id)
    ensures Indexed(rows, byId) ==> forall i | 0 <= i < |rows| && OnCycle(byId, rows[i].id) :: rows[i].id in cycles
  {
    cycles := {};
    for k := 0 to |rows|
      invariant Indexed(rows, byId) ==> forall id | id in cycles :: id in byId && OnCycle(byId, id)
      invariant Indexed(rows, byId) ==> forall i | 0 <= i < k && OnCycle(byId, rows[i].id) :: rows[i].id in cycles
    {
      if Follows(rows[k]) {
        var members := CycleFrom(byId, rows[k]);
        cycles := cycles + set id | id in members;
      } else if Indexed(rows, byId) {
        assert Next(byId, rows[k].id).None?;
        assert Walk(byId, rows[k].id, 1).None?;
        EndedWalkIsNoCycle(byId, rows[k].id, 1);
      }
    }
  }

  /** With unique row ids: exactly the rows lying on a cycle of redirects. A
      self-redirect is a cycle; a tail leading into a cycle is not part of it. */
  method CycleMemberIds(rows: seq<SourceRow>) returns (cycles: set<string>)
    ensures UniqueIds(rows) ==> forall id :: id in cycles <==> id in RowsById(rows) && OnCycle(RowsById(rows), id)
  {
    var byId := RowsById(rows);
    cycles := CollectCycles(rows, byId);
    if UniqueIds(rows) {
      RowsByIdUnique(rows);
      assert Indexed(rows, byId);
      forall id | id in byId && OnCycle(byId, id) ensures id in cycles {
        var j :| 0 <= j < |rows| && rows[j] == byId[id];
        assert rows[j].id == id;
      }
    }
  }
}
