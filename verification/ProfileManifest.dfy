/** scripts/public-profile-backfill-manifest.ts: the legacy rows with the reviewed
    owner and handle mappings, after JSON decoding and apart from the digests. */
module ProfileManifest {
  import opened Outcomes
  import opened ProfileTypes

  datatype OwnerState = ActiveOwner | Merged | Tombstoned

  datatype OwnerMapping = OwnerMapping(legacy: string, next: string, state: OwnerState, reviewed: bool)

  datatype HandleMapping = HandleMapping(legacy: string, next: string)

  datatype Manifest = Manifest(rows: seq<SourceRow>, owners: seq<OwnerMapping>, handles: seq<HandleMapping>)

  predicate AsciiText(s: string) {
    1 <= |s| <= 256 && forall i | 0 <= i < |s| :: ' ' <= s[i] <= '~'
  }

  predicate GoodRow(row: SourceRow) {
    ValidId(row.id) && ValidId(row.user) && AsciiText(row.slug) && AsciiText(row.display)
    && (row.target.Some? ==> ValidId(row.target.value))
  }

  predicate GoodOwnerMapping(m: OwnerMapping) {
    ValidId(m.legacy) && ValidId(m.next) && (m.state.ActiveOwner? || m.reviewed)
  }

  predicate GoodHandleMapping(m: HandleMapping) {
    ValidId(m.legacy) && ValidId(m.next)
  }

  /** In the order a sort by `key` would leave unchanged. */
  ghost predicate InOrder<T>(items: seq<T>, key: T -> string, less: (string, string) -> bool) {
    forall i, j | 0 <= i < j < |items| :: !less(key(items[j]), key(items[i]))
  }

  function SourceUsers(rows: seq<SourceRow>): set<string> {
    set row | row in rows :: row.user
  }

  function SourceIds(rows: seq<SourceRow>): set<string> {
    set row | row in rows :: row.id
  }

  /** What every accepted manifest satisfies, and nothing more. */
  ghost predicate Accepted(m: Manifest, less: (string, string) -> bool) {
    && (forall row | row in m.rows :: GoodRow(row))
    && InOrder(m.rows, (row: SourceRow) => row.id, less)
    && (forall o | o in m.owners :: GoodOwnerMapping(o))
    && (forall h | h in m.handles :: GoodHandleMapping(h))
    && InOrder(m.owners, (o: OwnerMapping) => o.legacy, less)
    && InOrder(m.handles, (h: HandleMapping) => h.legacy, less)
    && OwnersAccepted(m) && HandlesAccepted(m)
  }

  ghost predicate OwnersAccepted(m: Manifest) {
    && (forall o | o in m.owners :: o.legacy in SourceUsers(m.rows))
    && (forall i, j | 0 <= i < j < |m.owners| && m.owners[i].state.ActiveOwner? && m.owners[j].state.ActiveOwner? ::
          m.owners[i].next != m.owners[j].next)
    && |m.owners| == |SourceUsers(m.rows)|
  }

  ghost predicate HandlesAccepted(m: Manifest) {
    && (forall h | h in m.handles :: h.legacy in SourceIds(m.rows))
    && NextDistinct(m.handles)
    && |m.handles| == |SourceIds(m.rows)|
  }

  // ------------------------------------------------------------------ parser

  /** `canonicalJson(items) === canonicalJson([...items].sort(...))`: with a strict
      total order, a list equals its stable sort exactly when it has no inversion. */
  method IsInOrder<T>(items: seq<T>, key: T -> string, less: (string, string) -> bool) returns (ordered: bool)
    requires StrictTotal(less)
    ensures ordered <==> InOrder(items, key, less)
  {
    ordered := true;
    var k := 1;
    while k < |items| && ordered
      invariant 1 <= k && (k <= |items| || |items| == 0)
      invariant ordered <==> forall i, j | 0 <= i < j < k && j < |items| :: !less(key(items[j]), key(items[i]))
    {
      ordered := !less(key(items[k]), key(items[k - 1]));
      if ordered {
        forall i | 0 <= i < k ensures !less(key(items[k]), key(items[i])) {
          if i < k - 1 { assert !less(key(items[k - 1]), key(items[i])); }
        }
      }
      k := k + 1;
    }
  }

  method CheckOwners(m: Manifest) returns (r: Result<()>)
    ensures r.Success? <==> OwnersAccepted(m)
  {
    var sourceUsers := SourceUsers(m.rows);
    var activeNext: set<string> := {};
    for k := 0 to |m.owners|
      invariant activeNext == set i | 0 <= i < k && m.owners[i].state.ActiveOwner? :: m.owners[i].next
      invariant forall i | 0 <= i < k :: m.owners[i].legacy in sourceUsers
      invariant forall i, j | 0 <= i < j < k && m.owners[i].state.ActiveOwner? && m.owners[j].state.ActiveOwner? ::
          m.owners[i].next != m.owners[j].next
    {
      var mapping := m.owners[k];
      if mapping.legacy !in sourceUsers {
        return Failure("manifest-owner-mapping-extra");
      }
      if mapping.state.ActiveOwner? && mapping.next in activeNext {
        return Failure("manifest-owner-mapping-not-one-to-one");
      }
      if mapping.state.ActiveOwner? {
        activeNext := activeNext + {mapping.next};
      }
    }
    if |m.owners| != |sourceUsers| {
      return Failure("manifest-owner-mapping-incomplete");
    }
    return Success(());
  }

  function NextIds(handles: seq<HandleMapping>): set<string> {
    set h | h in handles :: h.next
  }

  ghost predicate NextDistinct(handles: seq<HandleMapping>) {
    forall i, j | 0 <= i < j < |handles| :: handles[i].next != handles[j].next
  }

  lemma NextExtends(handles: seq<HandleMapping>, h: HandleMapping)
    ensures NextIds(handles + [h]) == NextIds(handles) + {h.next}
    ensures NextDistinct(handles + [h]) <==> NextDistinct(handles) && h.next !in NextIds(handles)
  {
    var all := handles + [h];
    assert forall g :: g in all <==> g in handles || g == h;
    if NextDistinct(all) {
      forall g | g in handles ensures g.next != h.next {
        var i :| 0 <= i < |handles| && handles[i] == g;
        assert all[i].next != all[|handles|].next;
      }
      forall i, j | 0 <= i < j < |handles| ensures handles[i].next != handles[j].next {
        assert all[i].next != all[j].next;
      }
    }
    if NextDistinct(handles) && h.next !in NextIds(handles) {
      forall i, j | 0 <= i < j < |all| ensures all[i].next != all[j].next {
        assert all[i] in handles;
      }
    }
  }

  /** The handle loop has accepted the mappings before k. */
  ghost predicate HandlesSoFar(handles: seq<HandleMapping>, k: nat, sourceIds: set<string>, mapped: set<string>)
    requires k <= |handles|
  {
    && (forall i | 0 <= i < k :: handles[i].legacy in sourceIds)
    && NextDistinct(handles[..k])
    && mapped == NextIds(handles[..k]) && |mapped| == k
  }

  lemma HandlesStep(handles: seq<HandleMapping>, k: nat, sourceIds: set<string>, mapped: set<string>)
    requires k < |handles| && HandlesSoFar(handles, k, sourceIds, mapped) && handles[k].legacy in sourceIds
    ensures handles[k].next !in mapped ==> HandlesSoFar(handles, k + 1, sourceIds, mapped + {handles[k].next})
    ensures handles[k].next in mapped ==> !NextDistinct(handles)
  {
    NextExtends(handles[..k], handles[k]);
    assert handles[..k + 1] == handles[..k] + [handles[k]];
    assert NextDistinct(handles) ==> NextDistinct(handles[..k + 1]);
  }

  method CheckHandles(m: Manifest) returns (r: Result<()>)
    ensures r.Success? <==> HandlesAccepted(m)
  {
    var sourceIds := SourceIds(m.rows);
    r := CheckHandlesAgainst(m.handles, sourceIds);
  }

  method CheckHandlesAgainst(handles: seq<HandleMapping>, sourceIds: set<string>) returns (r: Result<()>)
    ensures r.Success? <==>
      (forall h | h in handles :: h.legacy in sourceIds) && NextDistinct(handles) && |handles| == |sourceIds|
  {
    var mapped: set<string> := {};
    for k := 0 to |handles|
      invariant HandlesSoFar(handles, k, sourceIds, mapped)
    {
      if handles[k].legacy !in sourceIds {
        assert handles[k] in handles;
        return Failure("manifest-handle-mapping-extra");
      }
      HandlesStep(handles, k, sourceIds, mapped);
      if handles[k].next in mapped {
        return Failure("manifest-handle-mapping-not-one-to-one");
      }
      mapped := mapped + {handles[k].next};
    }
    assert handles[..|handles|] == handles;
    if |handles| != |sourceIds| || |mapped| != |sourceIds| {
      return Failure("manifest-handle-mapping-incomplete");
    }
    return Success(());
  }

  method ParseManifest(m: Manifest, less: (string, string) -> bool) returns (r: Result<Manifest>)
    requires StrictTotal(less)
    ensures r.Success? <==> Accepted(m, less)
    ensures r.Success? ==> r.value == m
  {
    if exists row | row in m.rows :: !GoodRow(row) {
      return Failure("manifest-invalid-row-value");
    }
    var rowsInOrder := IsInOrder(m.rows, (row: SourceRow) => row.id, less);
    if !rowsInOrder {
      return Failure("manifest-rows-not-canonical");
    }
    if exists o | o in m.owners :: !GoodOwnerMapping(o) {
      return Failure("manifest-invalid-owner-mapping");
    }
    if exists h | h in m.handles :: !GoodHandleMapping(h) {
      return Failure("manifest-invalid-handle-mapping");
    }
    var ownersInOrder := IsInOrder(m.owners, (o: OwnerMapping) => o.legacy, less);
    var handlesInOrder := IsInOrder(m.handles, (h: HandleMapping) => h.legacy, less);
    if !ownersInOrder || !handlesInOrder {
      return Failure("manifest-mappings-not-canonical");
    }
    var owners := CheckOwners(m);
    if owners.Failure? {
      return Failure(owners.error);
    }
    var handles := CheckHandles(m);
    if handles.Failure? {
      return Failure(handles.error);
    }
    return Success(m);
  }

  // ---------------------------------------------------------------- mappings

  /** `new Map(owner_mappings.map(...))`: the last mapping of a legacy id wins. */
  function OwnerMap(owners: seq<OwnerMapping>): (r: map<string, string>)
    ensures forall id :: id in r <==> exists o | o in owners :: o.legacy == id
    ensures forall id | id in r :: OwnerMapped(owners, id, r[id])
  {
    if owners == [] then map[]
    else
      var (before, last) := (owners[..|owners| - 1], owners[|owners| - 1]);
      assert owners == before + [last];
      assert forall id, next | OwnerMapped(before, id, next) :: OwnerMapped(owners, id, next);
      assert last in owners && OwnerMapped(owners, last.legacy, last.next);
      OwnerMap(before)[last.legacy := last.next]
  }

  predicate OwnerMapped(owners: seq<OwnerMapping>, id: string, next: string) {
    exists o | o in owners :: o.legacy == id && o.next == next
  }

  function HandleMap(handles: seq<HandleMapping>): (r: map<string, string>)
    ensures forall id :: id in r <==> exists h | h in handles :: h.legacy == id
    ensures forall id | id in r :: HandleMapping(id, r[id]) in handles
  {
    if handles == [] then map[]
    else
      var (before, last) := (handles[..|handles| - 1], handles[|handles| - 1]);
      assert handles == before + [last];
      assert last == HandleMapping(last.legacy, last.next);
      HandleMap(before)[last.legacy := last.next]
  }

  /** Two legacy handles never share a new id, even when a legacy id is mapped twice. */
  lemma HandleMapIsInjective(m: Manifest)
    requires HandlesAccepted(m)
    ensures forall a, b | a in HandleMap(m.handles) && b in HandleMap(m.handles) && a != b ::
              HandleMap(m.handles)[a] != HandleMap(m.handles)[b]
    ensures HandleMap(m.handles).Keys <= SourceIds(m.rows)
  {
    var r := HandleMap(m.handles);
    forall a, b | a in r && b in r && a != b ensures r[a] != r[b] {
      DifferentNext(m.handles, HandleMapping(a, r[a]), HandleMapping(b, r[b]));
    }
  }

  lemma DifferentNext(handles: seq<HandleMapping>, g: HandleMapping, h: HandleMapping)
    requires NextDistinct(handles) && g in handles && h in handles && g != h
    ensures g.next != h.next
  {
    var i :| 0 <= i < |handles| && handles[i] == g;
    var j :| 0 <= j < |handles| && handles[j] == h;
    if i < j {
      assert handles[i].next != handles[j].next;
    } else {
      assert handles[j].next != handles[i].next;
    }
  }

  ghost predicate Distinct<T>(items: seq<T>, key: T -> string) {
    forall i, j | 0 <= i < j < |items| :: key(items[i]) != key(items[j])
  }

  ghost function KeysOf<T>(items: seq<T>, key: T -> string): set<string> {
    set i | 0 <= i < |items| :: key(items[i])
  }

  lemma {:induction false} KeysBound<T>(items: seq<T>, key: T -> string)
    ensures |KeysOf(items, key)| <= |items|
    ensures Distinct(items, key) <==> |KeysOf(items, key)| == |items|
  {
    if items != [] {
      var (before, last) := (items[..|items| - 1], items[|items| - 1]);
      KeysBound(before, key);
      assert forall i | 0 <= i < |before| :: before[i] == items[i];
      assert KeysOf(items, key) == KeysOf(before, key) + {key(last)};
      DistinctExtends(before, last, key);
      assert items == before + [last];
    }
  }

  lemma DistinctExtends<T>(before: seq<T>, last: T, key: T -> string)
    ensures Distinct(before + [last], key) <==> Distinct(before, key) && key(last) !in KeysOf(before, key)
  {
    var items := before + [last];
    assert forall i | 0 <= i < |before| :: before[i] == items[i];
    if Distinct(items, key) {
      forall i | 0 <= i < |before| ensures key(before[i]) != key(last) {
        assert key(items[i]) != key(items[|before|]);
      }
    }
    if Distinct(before, key) && key(last) !in KeysOf(before, key) {
      forall i, j | 0 <= i < j < |items| ensures key(items[i]) != key(items[j]) {
        assert key(before[i]) in KeysOf(before, key);
      }
    }
  }

  lemma SubsetOfEqualSize<T>(a: set<T>, b: set<T>)
    requires a <= b
    ensures a == b <==> |a| == |b|
  {
    assert b == a + (b - a);
    if |a| == |b| {
      assert |b - a| == 0;
    }
  }

  /** The two "incomplete" checks count mappings, so an accepted manifest maps every
      legacy id if and only if no legacy id is mapped twice. */
  lemma CompleteExactly(m: Manifest)
    requires OwnersAccepted(m) && HandlesAccepted(m)
    ensures OwnerMap(m.owners).Keys == SourceUsers(m.rows) <==> Distinct(m.owners, (o: OwnerMapping) => o.legacy)
    ensures HandleMap(m.handles).Keys == SourceIds(m.rows) <==> Distinct(m.handles, (h: HandleMapping) => h.legacy)
  {
    var (ownerKey, handleKey) := ((o: OwnerMapping) => o.legacy, (h: HandleMapping) => h.legacy);
    assert OwnerMap(m.owners).Keys == KeysOf(m.owners, ownerKey) by {
      forall o | o in m.owners ensures o.legacy in KeysOf(m.owners, ownerKey) {
        var i :| 0 <= i < |m.owners| && m.owners[i] == o;
        assert ownerKey(m.owners[i]) == o.legacy;
      }
    }
    assert HandleMap(m.handles).Keys == KeysOf(m.handles, handleKey) by {
      forall h | h in m.handles ensures h.legacy in KeysOf(m.handles, handleKey) {
        var i :| 0 <= i < |m.handles| && m.handles[i] == h;
        assert handleKey(m.handles[i]) == h.legacy;
      }
    }
    KeysBound(m.owners, ownerKey);
    KeysBound(m.handles, handleKey);
    SubsetOfEqualSize(KeysOf(m.owners, ownerKey), SourceUsers(m.rows));
    SubsetOfEqualSize(KeysOf(m.handles, handleKey), SourceIds(m.rows));
  }

  const ROW_A := SourceRow("a", "u", "a", "a.pirate", Retired, None)
  const ROW_B := SourceRow("b", "u", "b", "b.pirate", Retired, None)

  /** One legacy handle mapped twice, another not at all. */
  const LOPSIDED := Manifest(
    [ROW_A, ROW_B],
    [OwnerMapping("u", "v", ActiveOwner, true)],
    [HandleMapping("a", "x"), HandleMapping("a", "y")])

  lemma LopsidedIsCounted()
    ensures OwnersAccepted(LOPSIDED) && HandlesAccepted(LOPSIDED)
    ensures ROW_B.id !in HandleMap(LOPSIDED.handles)
  {
    var m := LOPSIDED;
    assert m.rows[0] == ROW_A && m.rows[1] == ROW_B;
    assert SourceUsers(m.rows) == {"u"};
    assert SourceIds(m.rows) == {"a", "b"};
    assert m.owners[0].legacy == "u";
    assert "b" !in HandleMap(m.handles) by {
      assert "a"[0] == 'a' && "b"[0] == 'b';
    }
    assert m.handles[0].next[0] == 'x' && m.handles[1].next[0] == 'y';
    assert "a" != "b" by { assert "a"[0] != "b"[0]; }
  }

  lemma LopsidedIsWellFormed()
    ensures forall row | row in LOPSIDED.rows :: GoodRow(row)
    ensures forall o | o in LOPSIDED.owners :: GoodOwnerMapping(o)
    ensures forall h | h in LOPSIDED.handles :: GoodHandleMapping(h)
  {
  }

  lemma LopsidedIsInOrder(less: (string, string) -> bool)
    requires StrictTotal(less) && less("a", "b")
    ensures InOrder(LOPSIDED.rows, (row: SourceRow) => row.id, less)
    ensures InOrder(LOPSIDED.owners, (o: OwnerMapping) => o.legacy, less)
    ensures InOrder(LOPSIDED.handles, (h: HandleMapping) => h.legacy, less)
  {
    assert !less("b", "a") && !less("a", "a");
    hide StrictTotal;
  }

  /** A manifest that passes every check although row "b" has no mapping. */
  lemma AcceptedButIncomplete(less: (string, string) -> bool) returns (m: Manifest)
    requires StrictTotal(less) && less("a", "b")
    ensures Accepted(m, less)
    ensures exists row | row in m.rows :: row.id !in HandleMap(m.handles)
  {
    hide StrictTotal, InOrder, GoodRow, GoodOwnerMapping, GoodHandleMapping, OwnersAccepted, HandlesAccepted, HandleMap;
    m := LOPSIDED;
    LopsidedIsCounted();
    LopsidedIsWellFormed();
    LopsidedIsInOrder(less);
    assert ROW_B in m.rows;
  }
}
