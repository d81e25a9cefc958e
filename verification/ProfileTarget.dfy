/** scripts/public-profile-backfill-target.ts: the snapshot of the new handle table
    and the validator that decides whether it may be planned against. */
module ProfileTarget {
  import opened Outcomes
  import opened ProfileTypes

  // ---------------------------------------------------------------- validity

  predicate GoodShape(h: Handle) {
    h.status.Redirect? <==> h.target.Some?
  }

  predicate GoodFields(h: Handle) {
    ValidId(h.id) && ValidLabel(h.slug, h.display) && ValidId(h.owner) && (h.target.Some? ==> ValidId(h.target.value))
  }

  ghost predicate Owned(users: seq<TargetUser>, h: Handle) {
    exists user | user in users :: user.id == h.owner
  }

  /** What two different handles of one table may not share. */
  predicate Apart(g: Handle, h: Handle) {
    g.id != h.id && g.slug != h.slug && !(g.status.Active? && h.status.Active? && g.owner == h.owner)
  }

  /** A redirect points at another handle, active, of the same owner. */
  predicate Serves(h: Handle, target: Handle) {
    h.target == Some(target.id) && target.status.Active? && target.owner == h.owner && target.id != h.id
  }

  ghost predicate Grounded(handles: seq<Handle>, h: Handle) {
    h.target.Some? ==> exists g | g in handles :: Serves(h, g)
  }

  ghost predicate GoodUsers(users: seq<TargetUser>) {
    && (forall i | 0 <= i < |users| :: ValidId(users[i].id))
    && (forall i, j | 0 <= i < j < |users| :: users[i].id != users[j].id)
  }

  /** Any two handles are apart: see PairwiseByIndex. */
  ghost predicate Pairwise(handles: seq<Handle>) {
    handles == []
    || var (before, last) := (handles[..|handles| - 1], handles[|handles| - 1]);
       Pairwise(before) && forall g | g in before :: Apart(g, last)
  }

  lemma {:induction false} PairwiseByIndex(handles: seq<Handle>)
    ensures Pairwise(handles) <==> forall i, j | 0 <= i < j < |handles| :: Apart(handles[i], handles[j])
  {
    if handles != [] {
      var (before, last) := (handles[..|handles| - 1], handles[|handles| - 1]);
      PairwiseByIndex(before);
      assert forall i | 0 <= i < |before| :: before[i] == handles[i];
      if Pairwise(handles) {
        forall i, j | 0 <= i < j < |handles| ensures Apart(handles[i], handles[j]) {
          assert before[i] in before;
          if j < |before| { assert Apart(before[i], before[j]); }
        }
      }
      if forall i, j | 0 <= i < j < |handles| :: Apart(handles[i], handles[j]) {
        forall g | g in before ensures Apart(g, last) {
          var i :| 0 <= i < |before| && before[i] == g;
          assert Apart(handles[i], handles[|handles| - 1]);
        }
        forall i, j | 0 <= i < j < |before| ensures Apart(before[i], before[j]) {
          assert Apart(handles[i], handles[j]);
        }
      }
    }
  }

  /** The invariant of the handle table: distinct ids and labels, at most one active
      handle per owner, and every redirect at an active handle of its own owner. */
  ghost predicate ValidTable(users: seq<TargetUser>, handles: seq<Handle>) {
    && (forall h | h in handles :: GoodFields(h) && GoodShape(h) && Owned(users, h))
    && (forall h {:trigger Grounded(handles, h)} | h in handles :: Grounded(handles, h))
    && Pairwise(handles)
  }

  ghost predicate ValidTarget(t: Target) {
    GoodUsers(t.users) && ValidTable(t.users, t.handles)
  }

  // --------------------------------------------------------------- validator

  /** `new Map(handles.map(...))`: the last handle of an id wins. */
  function HandlesById(handles: seq<Handle>): (m: map<string, Handle>)
    ensures forall id {:trigger m[id]} | id in m :: m[id] in handles && m[id].id == id
    ensures forall h | h in handles :: h.id in m
  {
    if handles == [] then map[]
    else
      var (before, last) := (handles[..|handles| - 1], handles[|handles| - 1]);
      assert forall h | h in handles :: h in before || h == last;
      assert forall h | h in before :: h in handles;
      HandlesById(before)[last.id := last]
  }

  predicate DanglingRedirect(byId: map<string, Handle>, h: Handle) {
    h.status.Redirect? && h.target.Some? && !(h.target.value in byId && Serves(h, byId[h.target.value]))
  }

  /** The issues of one handle, all under its id, in the order the checks are made. */
  function Report(id: string, malformed: bool, slugTaken: bool, unowned: bool, secondActive: bool, misshapen: bool,
                  dangling: bool): seq<string>
  {
    (if malformed then [id] else [])
    + (if slugTaken then [id] else [])
    + (if unowned then [id] else [])
    + (if secondActive then [id] else [])
    + (if misshapen then [id] else [])
    + (if dangling then [id] else [])
  }

  ghost predicate IdTaken(earlier: seq<Handle>, h: Handle) {
    exists g | g in earlier :: g.id == h.id
  }

  ghost predicate SlugTaken(earlier: seq<Handle>, h: Handle) {
    exists g | g in earlier :: g.slug == h.slug
  }

  ghost predicate OwnerServed(earlier: seq<Handle>, h: Handle) {
    exists g | g in earlier :: g.status.Active? && g.owner == h.owner
  }

  ghost predicate UserTaken(earlier: seq<TargetUser>, user: TargetUser) {
    exists other | other in earlier :: other.id == user.id
  }

  ghost function UserIssues(users: seq<TargetUser>): seq<string> {
    if users == [] then []
    else
      var (earlier, last) := (users[..|users| - 1], users[|users| - 1]);
      UserIssues(earlier) + (if !ValidId(last.id) || UserTaken(earlier, last) then ["target-user:" + last.id] else [])
  }

  ghost function IssuesOf(users: seq<TargetUser>, byId: map<string, Handle>, earlier: seq<Handle>,
                          h: Handle): seq<string>
  {
    Report(h.id, !GoodFields(h) || IdTaken(earlier, h), SlugTaken(earlier, h), !Owned(users, h),
           h.status.Active? && OwnerServed(earlier, h), !GoodShape(h), DanglingRedirect(byId, h))
  }

  ghost function HandleIssues(users: seq<TargetUser>, byId: map<string, Handle>, handles: seq<Handle>): seq<string> {
    if handles == [] then []
    else
      var (earlier, h) := (handles[..|handles| - 1], handles[|handles| - 1]);
      HandleIssues(users, byId, earlier) + IssuesOf(users, byId, earlier, h)
  }

  ghost function TargetIssues(t: Target): seq<string> {
    UserIssues(t.users) + HandleIssues(t.users, HandlesById(t.handles), t.handles)
  }

  function IdsOfUsers(users: seq<TargetUser>): set<string> {
    set user | user in users :: user.id
  }

  lemma UserStep(users: seq<TargetUser>, user: TargetUser)
    ensures UserIssues(users + [user]) ==
            UserIssues(users) + if !ValidId(user.id) || user.id in IdsOfUsers(users) then ["target-user:" + user.id]
              else []
    ensures IdsOfUsers(users + [user]) == IdsOfUsers(users) + {user.id}
  {
    assert (users + [user])[..|users|] == users;
    assert user.id in IdsOfUsers(users) <==> UserTaken(users, user);
    assert forall u :: u in users + [user] <==> u in users || u == user;
  }

  method ValidateUsers(users: seq<TargetUser>) returns (issues: seq<string>, ids: set<string>)
    ensures issues == UserIssues(users)
    ensures ids == IdsOfUsers(users)
  {
    issues, ids := [], {};
    for k := 0 to |users|
      invariant issues == UserIssues(users[..k])
      invariant ids == IdsOfUsers(users[..k])
    {
      var user := users[k];
      TakeStep(users, k);
      UserStep(users[..k], user);
      if !ValidId(user.id) || user.id in ids {
        issues := issues + ["target-user:" + user.id];
      }
      ids := ids + {user.id};
    }
    TakeAll(users);
  }

  method ValidateTargetSnapshot(t: Target) returns (issues: seq<string>)
    ensures issues == TargetIssues(t)
  {
    var userIssues, users := ValidateUsers(t.users);
    var handleIssues := ValidateHandles(t.users, users, t.handles);
    issues := userIssues + handleIssues;
  }

  function IdsOf(handles: seq<Handle>): set<string> {
    set g | g in handles :: g.id
  }

  function SlugsOf(handles: seq<Handle>): set<string> {
    set g | g in handles :: g.slug
  }

  function ActiveOwnersOf(handles: seq<Handle>): set<string> {
    set g | g in handles && g.status.Active? :: g.owner
  }

  /** The three sets the handle loop fills stand for the handles before it. */
  ghost predicate Recorded(earlier: seq<Handle>, ids: set<string>, slugs: set<string>, owners: set<string>) {
    ids == IdsOf(earlier) && slugs == SlugsOf(earlier) && owners == ActiveOwnersOf(earlier)
  }

  lemma RecordedExtends(earlier: seq<Handle>, ids: set<string>, slugs: set<string>, owners: set<string>, h: Handle)
    requires Recorded(earlier, ids, slugs, owners)
    ensures Recorded(earlier + [h], ids + {h.id}, slugs + {h.slug},
                     if h.status.Active? then owners + {h.owner} else owners)
  {
    assert forall g :: g in earlier + [h] <==> g in earlier || g == h;
  }

  method CheckHandle(ghost owners: seq<TargetUser>, ghost earlier: seq<Handle>, byId: map<string, Handle>,
                     users: set<string>, seenIds: set<string>, seenSlugs: set<string>,
                     activeOwners: set<string>, h: Handle)
    returns (issues: seq<string>)
    requires users == IdsOfUsers(owners)
    requires Recorded(earlier, seenIds, seenSlugs, activeOwners)
    ensures issues == IssuesOf(owners, byId, earlier, h)
  {
    var malformed := !GoodFields(h) || h.id in seenIds;
    var secondActive := h.status.Active? && h.owner in activeOwners;
    assert h.owner in users <==> Owned(owners, h);
    assert h.id in seenIds <==> IdTaken(earlier, h);
    assert h.slug in seenSlugs <==> SlugTaken(earlier, h);
    assert h.owner in activeOwners <==> OwnerServed(earlier, h);
    issues := Report(h.id, malformed, h.slug in seenSlugs, h.owner !in users, secondActive, !GoodShape(h),
                     DanglingRedirect(byId, h));
  }

  lemma HandleIssuesStep(users: seq<TargetUser>, byId: map<string, Handle>, earlier: seq<Handle>, h: Handle)
    ensures HandleIssues(users, byId, earlier + [h])
              == HandleIssues(users, byId, earlier) + IssuesOf(users, byId, earlier, h)
  {
    assert (earlier + [h])[..|earlier|] == earlier;
  }

  method ValidateHandles(ghost owners: seq<TargetUser>, users: set<string>, handles: seq<Handle>)
    returns (issues: seq<string>)
    requires users == IdsOfUsers(owners)
    ensures issues == HandleIssues(owners, HandlesById(handles), handles)
  {
    issues := [];
    var seenIds: set<string>, seenSlugs: set<string>, activeOwners: set<string> := {}, {}, {};
    var byId := HandlesById(handles);
    for k := 0 to |handles|
      invariant issues == HandleIssues(owners, byId, handles[..k])
      invariant Recorded(handles[..k], seenIds, seenSlugs, activeOwners)
    {
      var h := handles[k];
      var found := CheckHandle(owners, handles[..k], byId, users, seenIds, seenSlugs, activeOwners, h);
      HandleIssuesStep(owners, byId, handles[..k], h);
      RecordedExtends(handles[..k], seenIds, seenSlugs, activeOwners, h);
      TakeStep(handles, k);
      issues := issues + found;
      seenIds := seenIds + {h.id};
      seenSlugs := seenSlugs + {h.slug};
      if h.status.Active? {
        activeOwners := activeOwners + {h.owner};
      }
    }
    TakeAll(handles);
  }

  // ------------------------------------------------ no issue if and only if valid

  lemma {:induction false} NoUserIssues(users: seq<TargetUser>)
    ensures UserIssues(users) == [] <==> GoodUsers(users)
  {
    if users != [] {
      var (earlier, last) := (users[..|users| - 1], users[|users| - 1]);
      NoUserIssues(earlier);
      SplitLast(users);
      assert GoodUsers(users) <==> GoodUsers(earlier) && ValidId(last.id) && !UserTaken(earlier, last);
    }
  }

  /** Handle h raises no issue after the handles before it. */
  ghost predicate Admitted(users: seq<TargetUser>, byId: map<string, Handle>, earlier: seq<Handle>, h: Handle) {
    && GoodFields(h) && GoodShape(h) && Owned(users, h) && !DanglingRedirect(byId, h)
    && forall g | g in earlier :: Apart(g, h)
  }

  ghost predicate AllAdmitted(users: seq<TargetUser>, byId: map<string, Handle>, handles: seq<Handle>) {
    handles == []
    || (AllAdmitted(users, byId, handles[..|handles| - 1])
        && Admitted(users, byId, handles[..|handles| - 1], handles[|handles| - 1]))
  }

  lemma ReportIsEmpty(users: seq<TargetUser>, byId: map<string, Handle>, earlier: seq<Handle>, h: Handle)
    ensures IssuesOf(users, byId, earlier, h) == [] <==> Admitted(users, byId, earlier, h)
  {
    assert (forall g | g in earlier :: Apart(g, h)) <==>
           !IdTaken(earlier, h) && !SlugTaken(earlier, h) && !(h.status.Active? && OwnerServed(earlier, h));
  }

  lemma {:induction false} NoHandleIssues(users: seq<TargetUser>, byId: map<string, Handle>, handles: seq<Handle>)
    ensures HandleIssues(users, byId, handles) == [] <==> AllAdmitted(users, byId, handles)
  {
    if handles != [] {
      NoHandleIssues(users, byId, handles[..|handles| - 1]);
      ReportIsEmpty(users, byId, handles[..|handles| - 1], handles[|handles| - 1]);
    }
  }

  lemma PairwiseSplit(earlier: seq<Handle>, h: Handle)
    ensures Pairwise(earlier + [h]) <==> Pairwise(earlier) && forall g | g in earlier :: Apart(g, h)
  {
    assert (earlier + [h])[..|earlier|] == earlier;
  }

  ghost predicate EachGood(users: seq<TargetUser>, byId: map<string, Handle>, handles: seq<Handle>) {
    forall h | h in handles :: GoodFields(h) && GoodShape(h) && Owned(users, h) && !DanglingRedirect(byId, h)
  }

  lemma {:induction false} AdmittedExactly(users: seq<TargetUser>, byId: map<string, Handle>, handles: seq<Handle>)
    ensures AllAdmitted(users, byId, handles) <==> Pairwise(handles) && EachGood(users, byId, handles)
  {
    if handles != [] {
      var (earlier, h) := (handles[..|handles| - 1], handles[|handles| - 1]);
      SplitLast(handles);
      AdmittedExactly(users, byId, earlier);
      PairwiseSplit(earlier, h);
      assert forall g :: g in handles <==> g in earlier || g == h;
    }
  }

  lemma {:induction false} UniqueLookup(handles: seq<Handle>, h: Handle)
    requires Pairwise(handles) && h in handles
    ensures HandlesById(handles)[h.id] == h
  {
    var (before, last) := (handles[..|handles| - 1], handles[|handles| - 1]);
    SplitLast(handles);
    PairwiseSplit(before, last);
    if h != last {
      UniqueLookup(before, h);
    }
  }

  /** The validator reports nothing exactly when the table invariant holds. */
  lemma NoIssuesExactly(t: Target)
    ensures TargetIssues(t) == [] <==> ValidTarget(t)
  {
    var byId := HandlesById(t.handles);
    NoUserIssues(t.users);
    NoHandleIssues(t.users, byId, t.handles);
    AdmittedExactly(t.users, byId, t.handles);
    if Pairwise(t.handles) {
      forall h | h in t.handles && GoodShape(h) ensures DanglingRedirect(byId, h) <==> !Grounded(t.handles, h) {
        forall g | g in t.handles && Serves(h, g) ensures byId[g.id] == g {
          UniqueLookup(t.handles, g);
        }
      }
    }
  }

  // --------------------------------------------------------- order of the rows

  /** The order of the rows is irrelevant: the re-read, re-sorted table is as valid. */
  lemma ValidInAnyOrder(users: seq<TargetUser>, handles: seq<Handle>, others: seq<Handle>)
    requires ValidTable(users, handles) && multiset(others) == multiset(handles)
    ensures ValidTable(users, others)
  {
    SameMembers(handles, others);
    forall h | h in others ensures Grounded(others, h) {
      assert Grounded(handles, h);
    }
    forall i, j | 0 <= i < j < |others| ensures Apart(others[i], others[j]) {
      TwoMembers(others, i, j);
      TwoOccurrences(handles, others[i]);
      MembersAreApart(handles, others[i], others[j]);
    }
    PairwiseByIndex(others);
  }

  lemma {:induction false} MembersAreApart(handles: seq<Handle>, a: Handle, b: Handle)
    requires Pairwise(handles) && a in handles && b in handles && a != b
    ensures Apart(a, b)
  {
    var (before, last) := (handles[..|handles| - 1], handles[|handles| - 1]);
    SplitLast(handles);
    if a != last && b != last {
      MembersAreApart(before, a, b);
    }
  }

  /** Two handles of a valid table that share an id, a label or an active owner are one. */
  lemma SameHandle(handles: seq<Handle>, a: Handle, b: Handle)
    requires Pairwise(handles) && a in handles && b in handles && !Apart(a, b)
    ensures a == b
  {
    if a != b {
      MembersAreApart(handles, a, b);
    }
  }

  lemma SameMembers(handles: seq<Handle>, others: seq<Handle>)
    requires multiset(others) == multiset(handles)
    ensures forall h :: h in handles <==> h in others
  {
    assert forall h :: h in handles <==> h in multiset(handles);
    assert forall h :: h in others <==> h in multiset(others);
  }

  lemma TwoMembers(others: seq<Handle>, i: nat, j: nat)
    requires i < j < |others|
    ensures others[i] == others[j] ==> multiset(others)[others[i]] >= 2
    ensures others[i] in others && others[j] in others
  {
    if others[i] == others[j] {
      var (front, back) := (others[..j], others[j..]);
      assert others == front + back;
      assert front[i] == others[i] && back[0] == others[j];
      assert multiset(others) == multiset(front) + multiset(back);
      assert others[i] in multiset(front) && others[i] in multiset(back);
    }
  }

  lemma {:induction false} TwoOccurrences(handles: seq<Handle>, h: Handle)
    requires Pairwise(handles)
    ensures multiset(handles)[h] <= 1
  {
    if handles != [] {
      var (before, last) := (handles[..|handles| - 1], handles[|handles| - 1]);
      SplitLast(handles);
      PairwiseSplit(before, last);
      TwoOccurrences(before, h);
      assert last !in before;
      assert last !in multiset(before);
    }
  }
}
