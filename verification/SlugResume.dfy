/** Whole runs of the post-slug backfill: any mix of page attempts that abort, commit, or
    commit and lose their checkpoint, resumed from any checkpoint that was ever issued. */
module SlugResume {
  import opened Outcomes
  import opened SlugCursor
  import opened SlugPages
  import opened SlugChain
  import opened SlugRun

  /** The alias table, the checkpoints issued so far, and, as history, how many pages of the
      chain were ever committed and the posts that committed allocations were made for. */
  datatype Run = Run(aliases: Aliases, issued: seq<Checkpoint>, pages: nat, given: seq<string>)

  /** One call: from no checkpoint or from an issued one, at a time, its transaction
      committed or lost. */
  datatype Call = Call(from: Option<nat>, now: nat, committed: bool)

  function Previous(r: Run, call: Call): Option<Checkpoint> {
    if call.from.Some? && call.from.value < |r.issued| then Some(r.issued[call.from.value]) else None
  }

  predicate Allocates(d: Decision) {
    d.action.candidate.Some? && d.existingSlug.None?
  }

  /** The posts whose decisions reach the allocator. */
  function NewIds(decisions: seq<Decision>): seq<string> {
    if decisions == [] then []
    else
      var d := decisions[|decisions| - 1];
      NewIds(decisions[..|decisions| - 1]) + (if Allocates(d) then [d.action.position.postId] else [])
  }

  function Max(a: nat, b: nat): nat { if a < b then b else a }

  /** What a committed attempt does to the run. */
  function Committed(r: Run, done: Commit): Run {
    Run(done.aliases, r.issued + [done.checkpoint],
        Max(r.pages, done.checkpoint.progress.pageIndex),
        r.given + NewIds(done.page.decisions))
  }

  /** Attempts under one authorization over one set of posts. */
  type Attempts = (Aliases, Option<Checkpoint>, nat) -> Option<Commit>

  function AttemptsOf(w: World, a: Authorization, posts: seq<Post>): Attempts {
    (aliases, previous, now: nat) => Attempt(w, a, posts, aliases, previous, now)
  }

  function Step(attempt: Attempts, r: Run, call: Call): Run {
    var done := attempt(r.aliases, Previous(r, call), call.now);
    if done.None? || !call.committed then r else Committed(r, done.value)
  }

  function After(attempt: Attempts, r: Run, calls: seq<Call>): Run {
    if calls == [] then r else Step(attempt, After(attempt, r, calls[..|calls| - 1]), calls[|calls| - 1])
  }

  // ---- What the allocations of a page do --------------------------------------------

  ghost predicate Grew(before: Aliases, after: Aliases) {
    forall id {:trigger after[id]} {:trigger before[id]} :: id in before ==> id in after && after[id] == before[id]
  }

  lemma OneAllocationGrows(w: World, aliases: Aliases, d: Decision)
    requires AllocateOne(w, aliases, d).Some?
    requires d.existingSlug.None? ==> d.action.position.postId !in aliases
    ensures Grew(aliases, AllocateOne(w, aliases, d).value)
    ensures d.action.candidate.Some? && d.existingSlug.None?
            ==> d.action.position.postId in AllocateOne(w, aliases, d).value
  {
  }

  /** The decisions were made from this table: an alias was observed exactly when it is
      there. */
  ghost predicate Observed(aliases: Aliases, decisions: seq<Decision>) {
    forall k :: 0 <= k < |decisions|
      ==> (decisions[k].existingSlug.Some? <==> decisions[k].action.position.postId in aliases)
  }

  ghost predicate DistinctIds(decisions: seq<Decision>) {
    forall j, k :: 0 <= j < k < |decisions|
      ==> decisions[j].action.position.postId != decisions[k].action.position.postId
  }

  /** What holds of the table after the first `k` decisions of a page. */
  ghost predicate Allocated(aliases: Aliases, decisions: seq<Decision>, k: nat, after: Aliases)
    requires k <= |decisions|
  {
    && Grew(aliases, after)
    && (forall i :: 0 <= i < k && Allocates(decisions[i]) ==> decisions[i].action.position.postId in after)
    && (forall i ::
          k <= i < |decisions| && decisions[i].existingSlug.None? ==> decisions[i].action.position.postId !in after)
  }

  lemma AllocatedStep(w: World, aliases: Aliases, decisions: seq<Decision>, k: nat, now: Aliases)
    requires k < |decisions| && DistinctIds(decisions) && Allocated(aliases, decisions, k, now)
    requires AllocateOne(w, now, decisions[k]).Some?
    ensures Allocated(aliases, decisions, k + 1, AllocateOne(w, now, decisions[k]).value)
  {
    OneAllocationGrows(w, now, decisions[k]);
  }

  lemma {:induction false} AllocatedAll(w: World, aliases: Aliases, decisions: seq<Decision>, k: nat)
    requires k <= |decisions| && DistinctIds(decisions) && Observed(aliases, decisions)
    requires AllocateAll(w, aliases, decisions[..k]).Some?
    ensures Allocated(aliases, decisions, k, AllocateAll(w, aliases, decisions[..k]).value)
  {
    if k > 0 {
      AllocationGrows(w, aliases, decisions, k - 1);
      AllocatedAll(w, aliases, decisions, k - 1);
      AllocatedStep(w, aliases, decisions, k - 1, AllocateAll(w, aliases, decisions[..k - 1]).value);
    }
  }

  /** A page all of whose posts have their aliases changes nothing. */
  lemma {:induction false} ReplayIsNoop(w: World, aliases: Aliases, decisions: seq<Decision>)
    requires forall k :: 0 <= k < |decisions| ==> !Allocates(decisions[k])
    ensures AllocateAll(w, aliases, decisions) == Some(aliases) && NewIds(decisions) == []
  {
    if decisions != [] {
      ReplayIsNoop(w, aliases, decisions[..|decisions| - 1]);
    }
  }

  // ---- The decisions of a page ------------------------------------------------------

  /** Post ids are the posts' primary key. */
  ghost predicate KeyedById(posts: seq<Post>) {
    forall i, j :: 0 <= i < |posts| && 0 <= j < |posts| && posts[i].position.postId == posts[j].position.postId
      ==> posts[i] == posts[j]
  }

  lemma SortedPair(posts: seq<Post>, j: nat, k: nat)
    requires Sorted(posts) && j < k < |posts|
    ensures posts[j] != posts[k]
  {
    SortedPrefix(posts, k + 1);
    SortedBeforeLast(posts[..k + 1], j);
    BeforeIsTotal(posts[j].position, posts[k].position);
  }

  lemma EligibleIdsDiffer(posts: seq<Post>, cursor: Option<Cursor>, upper: Cursor, j: nat, k: nat)
    requires Sorted(posts) && KeyedById(posts) && j < k < |Eligible(posts, cursor, upper)|
    ensures var e := Eligible(posts, cursor, upper); e[j].position.postId != e[k].position.postId
  {
    EligibleIsSorted(posts, cursor, upper);
    SortedPair(Eligible(posts, cursor, upper), j, k);
    EligibleIsInRange(posts, cursor, upper, j);
    EligibleIsInRange(posts, cursor, upper, k);
  }

  lemma DecisionOfPost(w: Slugs, posts: seq<Post>, aliases: Aliases, k: nat)
    requires k < |posts|
    ensures var d := Decisions(w, Joined(posts, aliases))[k];
            && d.action.position == posts[k].position
            && (d.existingSlug.Some? <==> posts[k].position.postId in aliases)
            && d.action == ActionFor(w, posts[k])
  {
    ActionsAreSound(w, posts[k]);
  }

  lemma PageIsObserved(w: Slugs, posts: seq<Post>, aliases: Aliases, size: nat, cursor: Option<Cursor>, upper: Cursor)
    requires size >= 1 && Sorted(posts) && KeyedById(posts)
    ensures var ds := PageFrom(w, posts, aliases, size, cursor, upper).decisions;
            Observed(aliases, ds) && DistinctIds(ds)
  {
    PageCovers(w, posts, aliases, size, cursor, upper);
    var e := Eligible(posts, cursor, upper);
    TakenIsObserved(w, e, aliases, size);
    forall j, k | 0 <= j < k < |e| ensures e[j].position.postId != e[k].position.postId {
      EligibleIdsDiffer(posts, cursor, upper, j, k);
    }
    TakenIdsDiffer(w, e, aliases, size);
  }

  lemma TakenIsObserved(w: Slugs, e: seq<Post>, aliases: Aliases, size: nat)
    ensures Observed(aliases, Decisions(w, Joined(Take(e, size), aliases)))
  {
    var ds := Decisions(w, Joined(Take(e, size), aliases));
    forall k | 0 <= k < |ds| ensures ds[k].existingSlug.Some? <==> ds[k].action.position.postId in aliases {
      DecisionOfPost(w, Take(e, size), aliases, k);
    }
  }

  lemma TakenIdsDiffer(w: Slugs, e: seq<Post>, aliases: Aliases, size: nat)
    requires forall j, k :: 0 <= j < k < |e| ==> e[j].position.postId != e[k].position.postId
    ensures DistinctIds(Decisions(w, Joined(Take(e, size), aliases)))
  {
    var ds := Decisions(w, Joined(Take(e, size), aliases));
    forall j, k | 0 <= j < k < |ds| ensures ds[j].action.position.postId != ds[k].action.position.postId {
      DecisionOfPost(w, Take(e, size), aliases, j);
      DecisionOfPost(w, Take(e, size), aliases, k);
    }
  }

  lemma SameActions(w: Slugs, posts: seq<Post>, t: Aliases, t': Aliases, size: nat, cursor: Option<Cursor>,
                    upper: Cursor)
    requires size >= 1
    ensures Actions(PageFrom(w, posts, t, size, cursor, upper).decisions)
              == Actions(PageFrom(w, posts, t', size, cursor, upper).decisions)
  {
    PageCovers(w, posts, t, size, cursor, upper);
    PageCovers(w, posts, t', size, cursor, upper);
    var taken := Take(Eligible(posts, cursor, upper), size);
    forall k | 0 <= k < |taken|
      ensures Decisions(w, Joined(taken, t))[k].action == Decisions(w, Joined(taken, t'))[k].action
    {
      DecisionOfPost(w, taken, t, k);
      DecisionOfPost(w, taken, t', k);
    }
  }

  /** The decisions of the page that starts at a cursor, made from an alias table. */
  type Paging = (Aliases, Option<Cursor>) -> seq<Decision>

  /** What the rest of this module uses of the pages: their decisions observe the table, are
      about different posts, and do the same whatever the table. */
  ghost predicate Faithful(page: Paging) {
    && (forall t, c :: Observed(t, page(t, c)) && DistinctIds(page(t, c)))
    && (forall t, t', c :: Actions(page(t, c)) == Actions(page(t', c)))
  }

  function PageAt(w: World, a: Authorization, posts: seq<Post>, aliases: Aliases, start: Option<Cursor>): Page {
    PageFrom(w.slugs, posts, aliases, a.pageSize, start, a.upperBound)
  }

  function PagingOf(w: World, a: Authorization, posts: seq<Post>): Paging {
    (t, c) => PageAt(w, a, posts, t, c).decisions
  }

  lemma PagingIsFaithful(w: World, a: Authorization, posts: seq<Post>)
    requires a.pageSize >= 1 && Sorted(posts) && KeyedById(posts)
    ensures Faithful(PagingOf(w, a, posts))
  {
    var page := PagingOf(w, a, posts);
    forall t, c ensures Observed(t, page(t, c)) && DistinctIds(page(t, c)) {
      PageIsObserved(w.slugs, posts, t, a.pageSize, c, a.upperBound);
    }
    forall t, t', c ensures Actions(page(t, c)) == Actions(page(t', c)) {
      SameActions(w.slugs, posts, t, t', a.pageSize, c, a.upperBound);
    }
  }

  /** No decision reaches the allocator. */
  ghost predicate Done(ds: seq<Decision>) {
    forall k :: 0 <= k < |ds| ==> !Allocates(ds[k])
  }

  /** A decision about the same post, made from a larger table. */
  lemma StillNotAllocated(page: Paging, before: Aliases, after: Aliases, c: Option<Cursor>, k: nat)
    requires Faithful(page) && Grew(before, after) && k < |page(before, c)| && !Allocates(page(before, c)[k])
    ensures |page(after, c)| == |page(before, c)| && !Allocates(page(after, c)[k])
  {
    assert Actions(page(before, c)) == Actions(page(after, c));
    assert Actions(page(before, c))[k] == Actions(page(after, c))[k];
  }

  /** A page that is done stays done. */
  lemma DoneStaysDone(page: Paging, before: Aliases, after: Aliases, c: Option<Cursor>)
    requires Faithful(page) && Grew(before, after) && Done(page(before, c))
    ensures Done(page(after, c))
  {
    assert Actions(page(before, c)) == Actions(page(after, c));
    forall k | 0 <= k < |page(after, c)| ensures !Allocates(page(after, c)[k]) {
      StillNotAllocated(page, before, after, c, k);
    }
  }

  /** The page an allocation went through is done. */
  lemma AllocatedPageIsDone(w: World, page: Paging, before: Aliases, after: Aliases, c: Option<Cursor>)
    requires Faithful(page) && AllocateAll(w, before, page(before, c)) == Some(after)
    ensures Observed(before, page(before, c)) && DistinctIds(page(before, c))
    ensures Allocated(before, page(before, c), |page(before, c)|, after)
    ensures Done(page(after, c))
  {
    var ds := page(before, c);
    TakeAll(ds);
    AllocatedAll(w, before, ds, |ds|);
    assert Actions(ds) == Actions(page(after, c));
    assert Observed(after, page(after, c));
    forall k | 0 <= k < |ds| ensures !Allocates(page(after, c)[k]) {
      assert Actions(ds)[k] == Actions(page(after, c))[k];
      assert !Allocates(ds[k]) && ds[k].existingSlug.Some? ==> ds[k].action.position.postId in before;
    }
  }

  // ---- The run ----------------------------------------------------------------------

  /** The cursors of the authorized pages. */
  function StartsOf(a: Authorization, posts: seq<Post>): seq<Option<Cursor>>
    requires a.pageSize >= 1
  {
    Starts(Eligible(posts, a.startCursor, a.upperBound), a.pageSize, a.startCursor)
  }

  /** The alias table that one uninterrupted run has after its first `k` pages. */
  function TableAfter(w: World, page: Paging, aliases: Aliases, starts: seq<Option<Cursor>>, k: nat): Option<Aliases>
    requires k <= |starts|
  {
    if k == 0 then Some(aliases)
    else
      var before := TableAfter(w, page, aliases, starts, k - 1);
      if before.None? then None else AllocateAll(w, before.value, page(before.value, starts[k - 1]))
  }

  /** A checkpoint says where the chain of pages goes on, or that it is over. */
  predicate OnChain(starts: seq<Option<Cursor>>, pages: nat, c: Checkpoint) {
    var p := c.progress;
    && 1 <= p.pageIndex <= pages
    && (if p.completedAt.Some? then p.pageIndex == |starts|
        else p.pageIndex < |starts| && starts[p.pageIndex] == Some(p.cursor))
  }

  ghost predicate PagesDone(page: Paging, aliases: Aliases, starts: seq<Option<Cursor>>, pages: nat)
    requires pages <= |starts|
  {
    forall k :: 0 <= k < pages ==> Done(page(aliases, starts[k]))
  }

  ghost predicate AllOnChain(starts: seq<Option<Cursor>>, pages: nat, issued: seq<Checkpoint>) {
    forall i :: 0 <= i < |issued| ==> OnChain(starts, pages, issued[i])
  }

  /** The allocations were made for distinct posts, none of which had an alias before. */
  ghost predicate GivenOnce(given: seq<string>, before: Aliases, after: Aliases) {
    && (forall i, j :: 0 <= i < j < |given| ==> given[i] != given[j])
    && (forall i :: 0 <= i < |given| ==> given[i] in after && given[i] !in before)
  }

  ghost predicate Consistent(w: World, page: Paging, aliases: Aliases, starts: seq<Option<Cursor>>, r: Run) {
    && r.pages <= |starts|
    && TableAfter(w, page, aliases, starts, r.pages) == Some(r.aliases)
    && PagesDone(page, r.aliases, starts, r.pages)
    && AllOnChain(starts, r.pages, r.issued)
    && Grew(aliases, r.aliases)
    && GivenOnce(r.given, aliases, r.aliases)
  }

  /** What an attempt went through with. */
  lemma AttemptParts(w: World, a: Authorization, posts: seq<Post>, aliases: Aliases, previous: Option<Checkpoint>,
                     now: nat)
    requires Attempt(w, a, posts, aliases, previous, now).Some?
    ensures var done := Attempt(w, a, posts, aliases, previous, now).value;
            && MayStart(w, a, previous, now)
            && done.page == PageAt(w, a, posts, aliases, CursorOf(a, previous))
            && AllocateAll(w, aliases, done.page.decisions) == Some(done.aliases)
            && done.checkpoint == Checkpoint(NextProgress(w, a, previous, done.page, now),
                                             w.checkpointDigest(NextProgress(w, a, previous, done.page, now)))
            && done.checkpoint.progress.pageIndex == IndexOf(previous) + 1
  {
  }

  lemma DecisionsOfPaging(w: World, a: Authorization, posts: seq<Post>, aliases: Aliases, c: Option<Cursor>)
    ensures PagingOf(w, a, posts)(aliases, c) == PageAt(w, a, posts, aliases, c).decisions
  {
  }

  /** The progress after the i-th page is where the chain goes on. */
  lemma ProgressIsOnChain(w: World, a: Authorization, previous: Option<Checkpoint>, page: Page, now: nat,
                          starts: seq<Option<Cursor>>)
    requires IndexOf(previous) < |starts|
    requires page.nextCursor == (if IndexOf(previous) + 1 < |starts| then starts[IndexOf(previous) + 1] else None)
    requires page.hasMore == page.nextCursor.Some?
             && (IndexOf(previous) + 1 < |starts| ==> starts[IndexOf(previous) + 1].Some?)
    ensures OnChain(starts, IndexOf(previous) + 1,
                    Checkpoint(NextProgress(w, a, previous, page, now),
                               w.checkpointDigest(NextProgress(w, a, previous, page, now))))
  {
  }

  lemma PageLinks(w: World, a: Authorization, posts: seq<Post>, aliases: Aliases, i: nat)
    requires a.pageSize >= 1 && Sorted(posts) && i < |StartsOf(a, posts)|
    ensures var starts := StartsOf(a, posts); var page := PageAt(w, a, posts, aliases, starts[i]);
            && page.nextCursor == (if i + 1 < |starts| then starts[i + 1] else None)
            && page.hasMore == page.nextCursor.Some? && (i + 1 < |starts| ==> starts[i + 1].Some?)
  {
    StartsAreNextCursors(posts, a.pageSize, a.startCursor, a.upperBound, i);
    PageCovers(w.slugs, posts, aliases, a.pageSize, StartsOf(a, posts)[i], a.upperBound);
  }

  /** An accepted checkpoint of the chain points to the page it continues with. */
  lemma CheckpointPointsToPage(w: World, a: Authorization, posts: seq<Post>, pages: nat, previous: Option<Checkpoint>,
                               now: nat)
    requires Sorted(posts) && MayStart(w, a, previous, now)
    requires previous.Some? ==> OnChain(StartsOf(a, posts), pages, previous.value)
    ensures IndexOf(previous) <= pages && IndexOf(previous) < |StartsOf(a, posts)|
    ensures StartsOf(a, posts)[IndexOf(previous)] == CursorOf(a, previous)
  {
    StartsAreNextCursors(posts, a.pageSize, a.startCursor, a.upperBound, 0);
  }

  /** An attempt works on the page of the chain that its checkpoint says. */
  lemma AttemptIsOnChain(w: World, a: Authorization, posts: seq<Post>, r: Run, previous: Option<Checkpoint>, now: nat)
    requires Sorted(posts) && Attempt(w, a, posts, r.aliases, previous, now).Some?
    requires a.pageSize >= 1 && (previous.Some? ==> OnChain(StartsOf(a, posts), r.pages, previous.value))
    ensures var starts, i := StartsOf(a, posts), IndexOf(previous);
            var done := Attempt(w, a, posts, r.aliases, previous, now).value;
            && i <= r.pages && i < |starts|
            && done.page.decisions == PagingOf(w, a, posts)(r.aliases, starts[i])
            && AllocateAll(w, r.aliases, done.page.decisions) == Some(done.aliases)
            && OnChain(starts, i + 1, done.checkpoint)
            && done.checkpoint.progress.pageIndex == i + 1
  {
    hide *;
    AttemptParts(w, a, posts, r.aliases, previous, now);
    DecisionsOfPaging(w, a, posts, r.aliases, CursorOf(a, previous));
    CheckpointPointsToPage(w, a, posts, r.pages, previous, now);
    PageLinks(w, a, posts, r.aliases, IndexOf(previous));
    var done := Attempt(w, a, posts, r.aliases, previous, now).value;
    ProgressIsOnChain(w, a, previous, done.page, now, StartsOf(a, posts));
  }

  lemma {:induction false} NewIdsAreAllocated(ds: seq<Decision>, i: nat) returns (k: nat)
    requires i < |NewIds(ds)|
    ensures k < |ds| && Allocates(ds[k]) && ds[k].action.position.postId == NewIds(ds)[i]
  {
    var front := ds[..|ds| - 1];
    if i < |NewIds(front)| {
      k := NewIdsAreAllocated(front, i);
    } else {
      k := |ds| - 1;
    }
  }

  lemma {:induction false} NewIdsDiffer(ds: seq<Decision>, i: nat, j: nat)
    requires DistinctIds(ds) && i < j < |NewIds(ds)|
    ensures NewIds(ds)[i] != NewIds(ds)[j]
  {
    var n := |ds| - 1;
    if j < |NewIds(ds[..n])| {
      NewIdsDiffer(ds[..n], i, j);
    } else {
      var k := NewIdsAreAllocated(ds[..n], i);
      assert ds[..n][k] == ds[k];
    }
  }

  lemma GivenStaysOnce(given: seq<string>, start: Aliases, before: Aliases, after: Aliases, ds: seq<Decision>)
    requires GivenOnce(given, start, before) && Grew(start, before)
    requires Observed(before, ds) && DistinctIds(ds) && Allocated(before, ds, |ds|, after)
    ensures GivenOnce(given + NewIds(ds), start, after)
  {
    var fresh_ := NewIds(ds);
    forall i | 0 <= i < |fresh_| ensures fresh_[i] in after && fresh_[i] !in before {
      var k := NewIdsAreAllocated(ds, i);
    }
    forall i, j | 0 <= i < j < |fresh_| ensures fresh_[i] != fresh_[j] {
      NewIdsDiffer(ds, i, j);
    }
    GivenJoined(given, fresh_, start, before, after);
  }

  lemma GivenJoined(given: seq<string>, more: seq<string>, start: Aliases, before: Aliases, after: Aliases)
    requires GivenOnce(given, start, before) && Grew(start, before) && Grew(before, after)
    requires forall i :: 0 <= i < |more| ==> more[i] in after && more[i] !in before
    requires forall i, j :: 0 <= i < j < |more| ==> more[i] != more[j]
    ensures GivenOnce(given + more, start, after)
  {
  }

  lemma OnChainLater(starts: seq<Option<Cursor>>, pages: nat, later: nat, issued: seq<Checkpoint>, c: Checkpoint)
    requires AllOnChain(starts, pages, issued) && pages <= later && OnChain(starts, later, c)
    ensures AllOnChain(starts, later, issued + [c])
  {
  }

  /** An attempt on a page that was committed before changes no alias and allocates
      nothing. */
  lemma ReplayKeepsConsistency(w: World, page: Paging, aliases: Aliases, starts: seq<Option<Cursor>>, r: Run,
                               done: Commit, i: nat)
    requires Consistent(w, page, aliases, starts, r) && i < r.pages
    requires done.page.decisions == page(r.aliases, starts[i])
    requires AllocateAll(w, r.aliases, done.page.decisions) == Some(done.aliases)
    requires OnChain(starts, i + 1, done.checkpoint)
    ensures done.aliases == r.aliases && NewIds(done.page.decisions) == []
    ensures Consistent(w, page, aliases, starts, Run(r.aliases, r.issued + [done.checkpoint], r.pages, r.given))
  {
    assert Done(page(r.aliases, starts[i]));
    ReplayIsNoop(w, r.aliases, done.page.decisions);
    OnChainLater(starts, r.pages, r.pages, r.issued, done.checkpoint);
  }

  lemma PagesStayDone(page: Paging, before: Aliases, after: Aliases, starts: seq<Option<Cursor>>, pages: nat)
    requires pages < |starts| && Faithful(page) && Grew(before, after) && PagesDone(page, before, starts, pages)
    requires Done(page(after, starts[pages]))
    ensures PagesDone(page, after, starts, pages + 1)
  {
    forall k | 0 <= k < pages ensures Done(page(after, starts[k])) {
      DoneStaysDone(page, before, after, starts[k]);
    }
  }

  lemma GrewFurther(a: Aliases, b: Aliases, c: Aliases)
    requires Grew(a, b) && Grew(b, c)
    ensures Grew(a, c)
  {
  }

  /** An attempt on the next page of the chain does what the uninterrupted run does. */
  lemma AdvanceKeepsConsistency(w: World, page: Paging, aliases: Aliases, starts: seq<Option<Cursor>>, r: Run,
                                done: Commit)
    requires Faithful(page) && Consistent(w, page, aliases, starts, r)
    requires r.pages < |starts| && done.page.decisions == page(r.aliases, starts[r.pages])
    requires AllocateAll(w, r.aliases, done.page.decisions) == Some(done.aliases)
    requires OnChain(starts, r.pages + 1, done.checkpoint)
    ensures Consistent(w, page, aliases, starts,
                       Run(done.aliases, r.issued + [done.checkpoint], r.pages + 1,
                           r.given + NewIds(done.page.decisions)))
  {
    AllocatedPageIsDone(w, page, r.aliases, done.aliases, starts[r.pages]);
    PagesStayDone(page, r.aliases, done.aliases, starts, r.pages);
    OnChainLater(starts, r.pages, r.pages + 1, r.issued, done.checkpoint);
    GivenStaysOnce(r.given, aliases, r.aliases, done.aliases, done.page.decisions);
    GrewFurther(aliases, r.aliases, done.aliases);
  }

  lemma CommitKeepsConsistency(w: World, page: Paging, aliases: Aliases, starts: seq<Option<Cursor>>, r: Run,
                               done: Commit, i: nat)
    requires Faithful(page) && Consistent(w, page, aliases, starts, r)
    requires i <= r.pages && i < |starts| && done.page.decisions == page(r.aliases, starts[i])
    requires AllocateAll(w, r.aliases, done.page.decisions) == Some(done.aliases)
    requires OnChain(starts, i + 1, done.checkpoint) && done.checkpoint.progress.pageIndex == i + 1
    ensures Consistent(w, page, aliases, starts, Committed(r, done))
  {
    if i < r.pages {
      ReplayKeepsConsistency(w, page, aliases, starts, r, done, i);
      assert r.given + [] == r.given;
    } else {
      AdvanceKeepsConsistency(w, page, aliases, starts, r, done);
    }
  }

  lemma IssuedIsOnChain(w: World, page: Paging, aliases: Aliases, starts: seq<Option<Cursor>>, r: Run, i: nat)
    requires Consistent(w, page, aliases, starts, r) && i < |r.issued|
    ensures OnChain(starts, r.pages, r.issued[i])
  {
  }

  lemma CommittedAttempt(w: World, a: Authorization, posts: seq<Post>, aliases: Aliases, r: Run,
                         previous: Option<Checkpoint>, now: nat)
    requires a.pageSize >= 1 && Sorted(posts) && KeyedById(posts)
    requires Consistent(w, PagingOf(w, a, posts), aliases, StartsOf(a, posts), r)
    requires previous.Some? ==> OnChain(StartsOf(a, posts), r.pages, previous.value)
    requires Attempt(w, a, posts, r.aliases, previous, now).Some?
    ensures Consistent(w, PagingOf(w, a, posts), aliases, StartsOf(a, posts),
                       Committed(r, Attempt(w, a, posts, r.aliases, previous, now).value))
  {
    var done := Attempt(w, a, posts, r.aliases, previous, now).value;
    AttemptIsOnChain(w, a, posts, r, previous, now);
    PagingIsFaithful(w, a, posts);
    CommitKeepsConsistency(w, PagingOf(w, a, posts), aliases, StartsOf(a, posts), r, done, IndexOf(previous));
  }

  lemma StepKeepsConsistency(w: World, a: Authorization, posts: seq<Post>, aliases: Aliases, r: Run, call: Call)
    requires a.pageSize >= 1 && Sorted(posts) && KeyedById(posts)
    requires Consistent(w, PagingOf(w, a, posts), aliases, StartsOf(a, posts), r)
    ensures Consistent(w, PagingOf(w, a, posts), aliases, StartsOf(a, posts), Step(AttemptsOf(w, a, posts), r, call))
  {
    var previous := Previous(r, call);
    if previous.Some? {
      IssuedIsOnChain(w, PagingOf(w, a, posts), aliases, StartsOf(a, posts), r, call.from.value);
    }
    if AttemptsOf(w, a, posts)(r.aliases, previous, call.now).Some? && call.committed {
      CommittedAttempt(w, a, posts, aliases, r, previous, call.now);
    }
  }

  function NewRun(aliases: Aliases): Run {
    Run(aliases, [], 0, [])
  }

  /** Whatever attempts are made, in whatever order, with whatever commits and checkpoints
      lost: the alias table is the one an uninterrupted run has after as many pages, and
      every post was given a slug at most once. */
  lemma {:induction false} EveryRunIsConsistent(w: World, a: Authorization, posts: seq<Post>, aliases: Aliases,
                                                calls: seq<Call>)
    requires a.pageSize >= 1 && Sorted(posts) && KeyedById(posts)
    ensures Consistent(w, PagingOf(w, a, posts), aliases, StartsOf(a, posts),
                       After(AttemptsOf(w, a, posts), NewRun(aliases), calls))
  {
    if calls != [] {
      var before := calls[..|calls| - 1];
      EveryRunIsConsistent(w, a, posts, aliases, before);
      StepKeepsConsistency(w, a, posts, aliases, After(AttemptsOf(w, a, posts), NewRun(aliases), before),
                           calls[|calls| - 1]);
    }
  }

  lemma WholeTable(w: World, page: Paging, aliases: Aliases, starts: seq<Option<Cursor>>, r: Run, i: nat)
    requires Consistent(w, page, aliases, starts, r)
    requires i < |r.issued| && r.issued[i].progress.completedAt.Some?
    ensures TableAfter(w, page, aliases, starts, |starts|) == Some(r.aliases)
  {
    IssuedIsOnChain(w, page, aliases, starts, r, i);
  }

  /** Once any completed checkpoint was issued, the table is that of the whole
      uninterrupted run. */
  lemma CompletedRunIsWhole(w: World, a: Authorization, posts: seq<Post>, aliases: Aliases, calls: seq<Call>, i: nat)
    requires a.pageSize >= 1 && Sorted(posts) && KeyedById(posts)
    requires i < |After(AttemptsOf(w, a, posts), NewRun(aliases), calls).issued|
    requires After(AttemptsOf(w, a, posts), NewRun(aliases), calls).issued[i].progress.completedAt.Some?
    ensures TableAfter(w, PagingOf(w, a, posts), aliases, StartsOf(a, posts), |StartsOf(a, posts)|)
         == Some(After(AttemptsOf(w, a, posts), NewRun(aliases), calls).aliases)
  {
    EveryRunIsConsistent(w, a, posts, aliases, calls);
    WholeTable(w, PagingOf(w, a, posts), aliases, StartsOf(a, posts),
               After(AttemptsOf(w, a, posts), NewRun(aliases), calls), i);
  }

  // ---- An uninterrupted run ---------------------------------------------------------

  /** The counts of the first `k` pages. */
  function CountsUpTo(page: Paging, starts: seq<Option<Cursor>>, k: nat): Counts
    requires k <= |starts|
  {
    if k == 0 then NO_COUNTS
    else AddCounts(CountsUpTo(page, starts, k - 1), CountsOf(Actions(page(map[], starts[k - 1]))))
  }

  /** The authorization records a dry run over these posts: the digest of every page, in
      which nothing is blocked, and of the result. */
  ghost predicate RecordsDryRun(w: World, a: Authorization, page: Paging, starts: seq<Option<Cursor>>) {
    && |a.pageDigests| == |starts|
    && (forall k :: 0 <= k < |starts| ==>
          && a.pageDigests[k] == w.pageDigest(starts[k], a.upperBound, Actions(page(map[], starts[k])))
          && CountsOf(Actions(page(map[], starts[k]))).blocked == 0)
    && a.resultDigest == w.runDigest(a.runId, a.pageDigests, CountsUpTo(page, starts, |starts|))
  }

  /** The allocator always finds a slug for the post it is asked for. */
  ghost predicate AllocatorIsTotal(w: World) {
    forall t, id, c :: w.allocate(t, id, c).Some? && w.allocate(t, id, c).value.postId == id
                       && w.slugs.isSlug(w.allocate(t, id, c).value.slug)
  }

  ghost predicate SlugsOnly(w: World, aliases: Aliases) {
    forall id {:trigger aliases[id]} :: id in aliases ==> w.slugs.isSlug(aliases[id])
  }

  lemma {:induction false} AllocationSucceeds(w: World, aliases: Aliases, ds: seq<Decision>)
    requires AllocatorIsTotal(w) && SlugsOnly(w, aliases)
    ensures AllocateAll(w, aliases, ds).Some? && SlugsOnly(w, AllocateAll(w, aliases, ds).value)
  {
    if ds != [] {
      AllocationSucceeds(w, aliases, ds[..|ds| - 1]);
    }
  }

  lemma AllRowsValid(w: World, posts: seq<Post>, aliases: Aliases)
    requires SlugsOnly(w, aliases) && AllValid(posts)
    ensures RowsValid(w.slugs, posts, aliases)
  {
  }

  /** The calls of an uninterrupted run: each from the checkpoint of the one before. */
  function Calls(k: nat, now: nat): (calls: seq<Call>)
    ensures |calls| == k
  {
    if k == 0 then [] else Calls(k - 1, now) + [Call(if k == 1 then None else Some(k - 2), now, true)]
  }

  /** What such a run has after its first `k` pages. */
  ghost predicate Underway(w: World, a: Authorization, page: Paging, starts: seq<Option<Cursor>>, r: Run, now: nat,
                           k: nat)
    requires k <= |starts|
  {
    && r.pages == k && |r.issued| == k && SlugsOnly(w, r.aliases)
    && (k > 0 ==>
          var c := r.issued[k - 1];
          && AcceptsCheckpoint(w, a, c) && c.progress.pageIndex == k && c.progress.startedAt == now
          && c.progress.counts == CountsUpTo(page, starts, k)
          && (k < |starts| ==> starts[k] == Some(c.progress.cursor)))
  }

  function LastIssued(r: Run): Option<Checkpoint> {
    if r.issued == [] then None else Some(r.issued[|r.issued| - 1])
  }

  /** The page an attempt reads at the k-th start does what the dry run's page did. */
  ghost predicate IsKthPage(page: Page, paging: Paging, starts: seq<Option<Cursor>>, upper: Cursor, k: nat)
    requires k < |starts|
  {
    && page.cursor == starts[k] && page.upperBound == upper
    && Actions(page.decisions) == Actions(paging(map[], starts[k]))
    && page.counts == CountsOf(Actions(paging(map[], starts[k])))
    && (page.hasMore <==> k + 1 < |starts|)
  }

  lemma KthPage(w: World, a: Authorization, posts: seq<Post>, aliases: Aliases, k: nat)
    requires a.pageSize >= 1 && Sorted(posts) && KeyedById(posts) && k < |StartsOf(a, posts)|
    ensures IsKthPage(PageAt(w, a, posts, aliases, StartsOf(a, posts)[k]), PagingOf(w, a, posts), StartsOf(a, posts),
                      a.upperBound, k)
  {
    var start := StartsOf(a, posts)[k];
    SameActions(w.slugs, posts, aliases, map[], a.pageSize, start, a.upperBound);
    PageCovers(w.slugs, posts, aliases, a.pageSize, start, a.upperBound);
    PageLinks(w, a, posts, aliases, k);
  }

  lemma DryRunAuthorizes(w: World, a: Authorization, paging: Paging, starts: seq<Option<Cursor>>, r: Run, page: Page,
                         now: nat, k: nat)
    requires k < |starts| && RecordsDryRun(w, a, paging, starts) && Underway(w, a, paging, starts, r, now, k)
    requires IsKthPage(page, paging, starts, a.upperBound, k)
    ensures var next := NextProgress(w, a, LastIssued(r), page, now);
            && next.pageIndex == k + 1 && next.counts == CountsUpTo(paging, starts, k + 1)
            && PageIsAuthorized(w, a, page, next)
  {
    assert a.pageDigests[k] == w.pageDigest(starts[k], a.upperBound, Actions(paging(map[], starts[k])));
    TakeStep(a.pageDigests, k);
    TakeAll(a.pageDigests);
    assert a.pageDigests[..0] == [];
  }

  /** The checkpoint of a run underway starts the k-th page. */
  lemma MayGoOn(w: World, a: Authorization, page: Paging, starts: seq<Option<Cursor>>, r: Run, now: nat, k: nat)
    requires Authorizes(a, now) && k < |starts| == |a.pageDigests| && starts[0] == a.startCursor
    requires Underway(w, a, page, starts, r, now, k)
    ensures MayStart(w, a, LastIssued(r), now) && IndexOf(LastIssued(r)) == k
    ensures CursorOf(a, LastIssued(r)) == starts[k]
  {
    if k > 0 {
      assert LastIssued(r) == Some(r.issued[k - 1]);
      assert AcceptsCheckpoint(w, a, LastIssued(r).value);
    } else {
      assert LastIssued(r) == None;
    }
  }

  lemma StartsPrecedeBound(a: Authorization, posts: seq<Post>, now: nat, k: nat)
    requires a.pageSize >= 1 && Sorted(posts) && Authorizes(a, now) && k < |StartsOf(a, posts)|
    ensures StartsOf(a, posts)[0] == a.startCursor
    ensures StartsOf(a, posts)[k].Some? ==> Before(StartsOf(a, posts)[k].value, a.upperBound)
  {
    StartsAreNextCursors(posts, a.pageSize, a.startCursor, a.upperBound, if k == 0 then 0 else k - 1);
  }

  ghost predicate AllValid(posts: seq<Post>) {
    forall i :: 0 <= i < |posts| ==> ValidPost(posts[i])
  }

  /** What the next attempt of a run underway reads, checks and allocates. */
  lemma NextPageIsReady(w: World, a: Authorization, posts: seq<Post>, r: Run, now: nat, k: nat)
    requires a.pageSize >= 1 && Sorted(posts) && KeyedById(posts) && AllValid(posts)
    requires AllocatorIsTotal(w) && Authorizes(a, now) && k < |StartsOf(a, posts)|
    requires RecordsDryRun(w, a, PagingOf(w, a, posts), StartsOf(a, posts))
    requires Underway(w, a, PagingOf(w, a, posts), StartsOf(a, posts), r, now, k)
    ensures var cursor := StartsOf(a, posts)[k]; var page := PageAt(w, a, posts, r.aliases, cursor);
            && MayStart(w, a, LastIssued(r), now) && CursorOf(a, LastIssued(r)) == cursor && IndexOf(LastIssued(r)) == k
            && PageIsPlanned(w.slugs, ReadPage(posts, r.aliases, cursor, a.upperBound, a.pageSize), a.pageSize, cursor,
                             a.upperBound)
            && PageIsAuthorized(w, a, page, NextProgress(w, a, LastIssued(r), page, now))
            && NextProgress(w, a, LastIssued(r), page, now).counts
              == CountsUpTo(PagingOf(w, a, posts), StartsOf(a, posts), k + 1)
  {
    var starts := StartsOf(a, posts);
    var page := PageAt(w, a, posts, r.aliases, starts[k]);
    StartsPrecedeBound(a, posts, now, k);
    MayGoOn(w, a, PagingOf(w, a, posts), starts, r, now, k);
    AllRowsValid(w, posts, r.aliases);
    QueriedPageIsPlanned(w.slugs, posts, r.aliases, a.pageSize, starts[k], a.upperBound);
    KthPage(w, a, posts, r.aliases, k);
    DryRunAuthorizes(w, a, PagingOf(w, a, posts), starts, r, page, now, k);
  }

  lemma CallsGrow(k: nat, now: nat)
    ensures Calls(k + 1, now)[..k] == Calls(k, now)
    ensures Calls(k + 1, now)[k] == Call(if k == 0 then None else Some(k - 1), now, true)
  {
  }

  /** The next attempt goes through, and emits a checkpoint the one after it accepts. */
  lemma NextAttempt(w: World, a: Authorization, posts: seq<Post>, aliases: Aliases, previous: Option<Checkpoint>,
                    now: nat, page: Page) returns (done: Commit)
    requires MayStart(w, a, previous, now) && AllocatorIsTotal(w) && SlugsOnly(w, aliases)
    requires PageIsPlanned(w.slugs, ReadPage(posts, aliases, CursorOf(a, previous), a.upperBound, a.pageSize),
                           a.pageSize, CursorOf(a, previous), a.upperBound)
    requires page == PageAt(w, a, posts, aliases, CursorOf(a, previous))
    requires PageIsAuthorized(w, a, page, NextProgress(w, a, previous, page, now))
    requires previous.Some? ==> previous.value.progress.startedAt == now
    ensures Attempt(w, a, posts, aliases, previous, now) == Some(done)
    ensures done.page == page && done.checkpoint.progress == NextProgress(w, a, previous, page, now)
    ensures SlugsOnly(w, done.aliases) && AcceptsCheckpoint(w, a, done.checkpoint)
  {
    AllocationSucceeds(w, aliases, page.decisions);
    AttemptGoesThrough(w, a, posts, aliases, previous, now, page);
    EmittedIsAccepted(w, a, posts, aliases, previous, now);
    done := Attempt(w, a, posts, aliases, previous, now).value;
  }

  lemma UnderwayGoesOn(w: World, a: Authorization, posts: seq<Post>, r: Run, now: nat, k: nat) returns (done: Commit)
    requires a.pageSize >= 1 && Sorted(posts) && KeyedById(posts) && AllValid(posts)
    requires AllocatorIsTotal(w) && Authorizes(a, now) && k < |StartsOf(a, posts)|
    requires RecordsDryRun(w, a, PagingOf(w, a, posts), StartsOf(a, posts))
    requires Underway(w, a, PagingOf(w, a, posts), StartsOf(a, posts), r, now, k)
    ensures AttemptsOf(w, a, posts)(r.aliases, LastIssued(r), now) == Some(done)
    ensures Underway(w, a, PagingOf(w, a, posts), StartsOf(a, posts), Committed(r, done), now, k + 1)
  {
    var starts := StartsOf(a, posts);
    var page := PageAt(w, a, posts, r.aliases, starts[k]);
    NextPageIsReady(w, a, posts, r, now, k);
    done := NextAttempt(w, a, posts, r.aliases, LastIssued(r), now, page);
    PageLinks(w, a, posts, r.aliases, k);
    StillUnderway(w, a, PagingOf(w, a, posts), starts, r, done, now, k);
  }

  lemma StillUnderway(w: World, a: Authorization, page: Paging, starts: seq<Option<Cursor>>, r: Run, done: Commit,
                      now: nat, k: nat)
    requires k < |starts| && Underway(w, a, page, starts, r, now, k)
    requires SlugsOnly(w, done.aliases) && AcceptsCheckpoint(w, a, done.checkpoint)
    requires done.checkpoint.progress == NextProgress(w, a, LastIssued(r), done.page, now)
    requires done.checkpoint.progress.counts == CountsUpTo(page, starts, k + 1)
    requires done.page.nextCursor == (if k + 1 < |starts| then starts[k + 1] else None)
    requires k + 1 < |starts| ==> starts[k + 1].Some?
    ensures Underway(w, a, page, starts, Committed(r, done), now, k + 1)
  {
  }

  lemma StepOfUnderway(attempt: Attempts, r: Run, now: nat, k: nat, done: Commit)
    requires |r.issued| == k && attempt(r.aliases, LastIssued(r), now) == Some(done)
    ensures Step(attempt, r, Call(if k == 0 then None else Some(k - 1), now, true)) == Committed(r, done)
  {
  }

  lemma StartUnderway(w: World, a: Authorization, page: Paging, starts: seq<Option<Cursor>>, aliases: Aliases, now: nat)
    requires SlugsOnly(w, aliases)
    ensures Underway(w, a, page, starts, NewRun(aliases), now, 0)
  {
  }

  lemma IssuedSoFar(w: World, a: Authorization, page: Paging, starts: seq<Option<Cursor>>, r: Run, now: nat, k: nat)
    requires k <= |starts| && Underway(w, a, page, starts, r, now, k)
    ensures |r.issued| == k
  {
  }

  lemma AfterOneMore(attempt: Attempts, r: Run, now: nat, k: nat)
    ensures After(attempt, r, Calls(k + 1, now))
         == Step(attempt, After(attempt, r, Calls(k, now)), Call(if k == 0 then None else Some(k - 1), now, true))
    ensures After(attempt, r, Calls(0, now)) == r
  {
    CallsGrow(k, now);
  }

  /** With a dry run's authorization in force, an uninterrupted run goes through page after
      page. */
  lemma {:induction false} RunStaysUnderway(w: World, a: Authorization, posts: seq<Post>, aliases: Aliases, now: nat,
                                            k: nat)
    requires a.pageSize >= 1 && Sorted(posts) && KeyedById(posts) && AllValid(posts) && SlugsOnly(w, aliases)
    requires AllocatorIsTotal(w) && Authorizes(a, now) && k <= |StartsOf(a, posts)|
    requires RecordsDryRun(w, a, PagingOf(w, a, posts), StartsOf(a, posts))
    ensures Underway(w, a, PagingOf(w, a, posts), StartsOf(a, posts),
                     After(AttemptsOf(w, a, posts), NewRun(aliases), Calls(k, now)), now, k)
  {
    hide *;
    if k == 0 {
      StartUnderway(w, a, PagingOf(w, a, posts), StartsOf(a, posts), aliases, now);
      AfterOneMore(AttemptsOf(w, a, posts), NewRun(aliases), now, 0);
    } else {
      RunStaysUnderway(w, a, posts, aliases, now, k - 1);
      var r := After(AttemptsOf(w, a, posts), NewRun(aliases), Calls(k - 1, now));
      var done := UnderwayGoesOn(w, a, posts, r, now, k - 1);
      IssuedSoFar(w, a, PagingOf(w, a, posts), StartsOf(a, posts), r, now, k - 1);
      StepOfUnderway(AttemptsOf(w, a, posts), r, now, k - 1, done);
      AfterOneMore(AttemptsOf(w, a, posts), NewRun(aliases), now, k - 1);
    }
  }

  lemma WholeRunIsCompleted(w: World, a: Authorization, page: Paging, starts: seq<Option<Cursor>>, r: Run, now: nat)
    requires |starts| >= 1 && RecordsDryRun(w, a, page, starts) && Underway(w, a, page, starts, r, now, |starts|)
    ensures |r.issued| == |starts| && r.issued[|starts| - 1].progress.completedAt.Some?
  {
    assert AcceptsCheckpoint(w, a, r.issued[|starts| - 1]);
  }

  lemma AtLeastOnePage(a: Authorization, posts: seq<Post>)
    requires a.pageSize >= 1
    ensures |StartsOf(a, posts)| >= 1
  {
  }

  /** So it completes with its last page, and its table is the one that every other run
      that completes ends with. */
  lemma UninterruptedRunCompletes(w: World, a: Authorization, posts: seq<Post>, aliases: Aliases, now: nat)
    requires a.pageSize >= 1 && Sorted(posts) && KeyedById(posts) && AllValid(posts) && SlugsOnly(w, aliases)
    requires AllocatorIsTotal(w) && Authorizes(a, now)
    requires RecordsDryRun(w, a, PagingOf(w, a, posts), StartsOf(a, posts))
    ensures var n := |StartsOf(a, posts)|; var r := After(AttemptsOf(w, a, posts), NewRun(aliases), Calls(n, now));
            && |r.issued| == n >= 1 && r.issued[n - 1].progress.completedAt.Some?
            && TableAfter(w, PagingOf(w, a, posts), aliases, StartsOf(a, posts), n) == Some(r.aliases)
  {
    hide *;
    var starts := StartsOf(a, posts);
    AtLeastOnePage(a, posts);
    RunStaysUnderway(w, a, posts, aliases, now, |starts|);
    WholeRunIsCompleted(w, a, PagingOf(w, a, posts), starts,
                        After(AttemptsOf(w, a, posts), NewRun(aliases), Calls(|starts|, now)), now);
    CompletedRunIsWhole(w, a, posts, aliases, Calls(|starts|, now), |starts| - 1);
  }
}
