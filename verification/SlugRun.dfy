/** The authorized backfill run of scripts/public-post-slug-backfill-transaction.ts: one page
    a call, each in one transaction that may be lost, resumed from a checkpoint that may be
    lost too. Digests are uninterpreted functions of what they are computed from; times are
    the integers their fixed-width texts order by; the allocator is a deterministic function
    of the alias table. */
module SlugRun {
  import opened Outcomes
  import opened SlugCursor
  import opened SlugPages
  import opened SlugChain

  datatype Authorization = Authorization(
    runId: string,
    authorizedAt: nat,
    expiresAt: nat,
    pageSize: nat,
    startCursor: Option<Cursor>,
    upperBound: Cursor,
    pageDigests: seq<string>,
    resultDigest: string,
    canonicalDigest: string)

  datatype Progress = Progress(
    runId: string,
    authorizationDigest: string,
    pageIndex: nat,
    cursor: Cursor,
    pageDigests: seq<string>,
    counts: Counts,
    startedAt: nat,
    updatedAt: nat,
    completedAt: Option<nat>,
    resultDigest: Option<string>)

  datatype Checkpoint = Checkpoint(progress: Progress, canonicalDigest: string)

  datatype Alias = Alias(slug: string, postId: string)

  /** The digests, the slug module and the allocator. The page digest is computed from the
      actions; the aliases observed beside them are left out of it. */
  datatype World = World(
    slugs: Slugs,
    pageDigest: (Option<Cursor>, Cursor, seq<Action>) -> string,
    runDigest: (string, seq<string>, Counts) -> string,
    checkpointDigest: Progress -> string,
    allocate: (Aliases, string, Candidate) -> Option<Alias>)

  const MAX_PAGES: nat := 1_000_000

  /** `parsePostSlugBackfillAuthorization`: the bounds of an authorization and its validity
      at `now`. */
  predicate Authorizes(a: Authorization, now: nat) {
    && 1 <= a.pageSize <= PAGE_SIZE_MAX
    && 1 <= |a.pageDigests| <= MAX_PAGES
    && (a.startCursor.Some? ==> ValidCursor(a.startCursor.value) && Before(a.startCursor.value, a.upperBound))
    && ValidCursor(a.upperBound)
    && a.authorizedAt < a.expiresAt
    && a.authorizedAt <= now < a.expiresAt
  }

  /** `parseCheckpoint`: what a resumed run accepts as a checkpoint. */
  predicate AcceptsCheckpoint(w: World, a: Authorization, c: Checkpoint) {
    var p := c.progress;
    && p.runId == a.runId
    && p.authorizationDigest == a.canonicalDigest
    && 1 <= p.pageIndex <= |a.pageDigests|
    && ValidCursor(p.cursor)
    && p.pageDigests == a.pageDigests[..p.pageIndex]
    && !(p.updatedAt < p.startedAt) && !(p.startedAt < a.authorizedAt) && !(p.updatedAt >= a.expiresAt)
    && (p.completedAt.Some? ==> p.completedAt.value == p.updatedAt)
    && (p.resultDigest.Some? ==> p.resultDigest.value == a.resultDigest)
    && (p.completedAt.None? <==> p.resultDigest.None?)
    && (if p.completedAt.None? then p.pageIndex < |a.pageDigests| else p.pageIndex == |a.pageDigests|)
    && w.checkpointDigest(p) == c.canonicalDigest
  }

  // ---- Allocating the slugs of a page -----------------------------------------------

  /** The alias table after one decision: nothing to do without a candidate or with an
      alias already there; otherwise the allocator's alias, or a failure. */
  function AllocateOne(w: World, aliases: Aliases, d: Decision): Option<Aliases> {
    var postId := d.action.position.postId;
    if d.action.candidate.None? || d.existingSlug.Some? then Some(aliases)
    else
      var alias := w.allocate(aliases, postId, d.action.candidate.value);
      if alias.None? || alias.value.postId != postId then None else Some(aliases[postId := alias.value.slug])
  }

  function AllocateAll(w: World, aliases: Aliases, decisions: seq<Decision>): Option<Aliases> {
    if decisions == [] then Some(aliases)
    else
      var before := AllocateAll(w, aliases, decisions[..|decisions| - 1]);
      if before.None? then None else AllocateOne(w, before.value, decisions[|decisions| - 1])
  }

  lemma {:induction false} AllocationStops(w: World, aliases: Aliases, decisions: seq<Decision>, k: nat)
    requires k <= |decisions| && AllocateAll(w, aliases, decisions[..k]).None?
    ensures AllocateAll(w, aliases, decisions).None?
  {
    if k == |decisions| {
      assert decisions[..k] == decisions;
    } else {
      assert decisions[..|decisions| - 1][..k] == decisions[..k];
      AllocationStops(w, aliases, decisions[..|decisions| - 1], k);
    }
  }

  lemma AllocationGrows(w: World, aliases: Aliases, decisions: seq<Decision>, k: nat)
    requires k < |decisions|
    ensures AllocateAll(w, aliases, decisions[..k + 1])
         == if AllocateAll(w, aliases, decisions[..k]).None? then None
            else AllocateOne(w, AllocateAll(w, aliases, decisions[..k]).value, decisions[k])
  {
    assert decisions[..k + 1][..k] == decisions[..k];
  }

  // ---- One attempt ------------------------------------------------------------------

  datatype Commit = Commit(page: Page, checkpoint: Checkpoint, aliases: Aliases)

  /** The progress after a page that went through. */
  function NextProgress(w: World, a: Authorization, previous: Option<Checkpoint>, page: Page, now: nat): Progress {
    var index := if previous.None? then 0 else previous.value.progress.pageIndex;
    var digests := (if previous.None? then [] else previous.value.progress.pageDigests)
                   + [w.pageDigest(page.cursor, page.upperBound, Actions(page.decisions))];
    var counts := AddCounts(if previous.None? then NO_COUNTS else previous.value.progress.counts, page.counts);
    Progress(a.runId, a.canonicalDigest, index + 1,
             if page.nextCursor.Some? then page.nextCursor.value else a.upperBound,
             digests, counts,
             if previous.None? then now else previous.value.progress.startedAt, now,
             if page.hasMore then None else Some(now),
             if page.hasMore then None else Some(w.runDigest(a.runId, digests, counts)))
  }

  /** The checks on a planned page: its digest is the authorized one, nothing in it is
      blocked, the chain ends with the authorized pages and not before, and a finished run
      has the result of the dry run. */
  predicate PageIsAuthorized(w: World, a: Authorization, page: Page, next: Progress)
    requires 1 <= next.pageIndex <= |a.pageDigests|
  {
    && w.pageDigest(page.cursor, page.upperBound, Actions(page.decisions)) == a.pageDigests[next.pageIndex - 1]
    && page.counts.blocked == 0
    && (if page.hasMore then |next.pageDigests| < |a.pageDigests| else |next.pageDigests| == |a.pageDigests|)
    && (next.resultDigest.Some? ==> next.resultDigest.value == a.resultDigest)
  }

  /** Where an attempt starts: a page of the authorization, and its cursor. */
  function IndexOf(previous: Option<Checkpoint>): nat {
    if previous.None? then 0 else previous.value.progress.pageIndex
  }

  function CursorOf(a: Authorization, previous: Option<Checkpoint>): Option<Cursor> {
    if previous.None? then a.startCursor else Some(previous.value.progress.cursor)
  }

  predicate MayStart(w: World, a: Authorization, previous: Option<Checkpoint>, now: nat) {
    && Authorizes(a, now)
    && (previous.Some? ==> AcceptsCheckpoint(w, a, previous.value))
    && IndexOf(previous) < |a.pageDigests|
  }

  /** The authorized page, before anything is allocated. */
  function AuthorizedPage(w: World, a: Authorization, posts: seq<Post>, aliases: Aliases, previous: Option<Checkpoint>,
                          now: nat): Option<Page>
  {
    if !MayStart(w, a, previous, now) then None
    else
      var rows := ReadPage(posts, aliases, CursorOf(a, previous), a.upperBound, a.pageSize);
      if !PageIsPlanned(w.slugs, rows, a.pageSize, CursorOf(a, previous), a.upperBound) then None
      else
        var page := PageOf(w.slugs, rows, a.pageSize, CursorOf(a, previous), a.upperBound);
        if PageIsAuthorized(w, a, page, NextProgress(w, a, previous, page, now)) then Some(page) else None
  }

  /** `runAuthorizedPostSlugBackfillPage` up to its commit, nothing standing for a throw. */
  function Attempt(w: World, a: Authorization, posts: seq<Post>, aliases: Aliases, previous: Option<Checkpoint>,
                   now: nat): Option<Commit>
  {
    var page := AuthorizedPage(w, a, posts, aliases, previous, now);
    if page.None? then None
    else
      var after := AllocateAll(w, aliases, page.value.decisions);
      if after.None? then None
      else
        var next := NextProgress(w, a, previous, page.value, now);
        Some(Commit(page.value, Checkpoint(next, w.checkpointDigest(next)), after.value))
  }

  /** When every check passes and every post gets its slug, the attempt goes through. */
  lemma AttemptGoesThrough(w: World, a: Authorization, posts: seq<Post>, aliases: Aliases, previous: Option<Checkpoint>,
                           now: nat, page: Page)
    requires MayStart(w, a, previous, now)
    requires PageIsPlanned(w.slugs, ReadPage(posts, aliases, CursorOf(a, previous), a.upperBound, a.pageSize),
                           a.pageSize, CursorOf(a, previous), a.upperBound)
    requires page == PageFrom(w.slugs, posts, aliases, a.pageSize, CursorOf(a, previous), a.upperBound)
    requires PageIsAuthorized(w, a, page, NextProgress(w, a, previous, page, now))
    requires AllocateAll(w, aliases, page.decisions).Some?
    ensures var next := NextProgress(w, a, previous, page, now);
            Attempt(w, a, posts, aliases, previous, now)
            == Some(Commit(page, Checkpoint(next, w.checkpointDigest(next)),
                           AllocateAll(w, aliases, page.decisions).value))
  {
  }

  /** A checkpoint is a part of the authorization. */
  predicate Resumable(a: Authorization, previous: Option<Checkpoint>) {
    && IndexOf(previous) < |a.pageDigests|
    && (previous.Some? ==> previous.value.progress.pageDigests == a.pageDigests[..IndexOf(previous)])
  }

  predicate Completes(a: Authorization, w: World, p: Progress) {
    && 1 <= p.pageIndex <= |a.pageDigests|
    && (p.completedAt.Some? <==> p.resultDigest.Some?)
    && (p.completedAt.Some? <==> p.pageIndex == |a.pageDigests|)
    && p.pageDigests == a.pageDigests[..p.pageIndex]
    && (p.completedAt.Some? ==> p.resultDigest.value == a.resultDigest == w.runDigest(a.runId, a.pageDigests, p.counts))
  }

  lemma AuthorizedPageCompletes(w: World, a: Authorization, previous: Option<Checkpoint>, page: Page, now: nat)
    requires Resumable(a, previous)
    requires PageIsAuthorized(w, a, page, NextProgress(w, a, previous, page, now))
    ensures Completes(a, w, NextProgress(w, a, previous, page, now))
  {
    TakeStep(a.pageDigests, IndexOf(previous));
    assert a.pageDigests[..0] == [];
    TakeAll(a.pageDigests);
  }

  /** A run completes only on the last authorized page, with the result of the dry run. */
  lemma CompletesAsAuthorized(w: World, a: Authorization, posts: seq<Post>, aliases: Aliases,
                              previous: Option<Checkpoint>, now: nat)
    requires Attempt(w, a, posts, aliases, previous, now).Some?
    ensures Completes(a, w, Attempt(w, a, posts, aliases, previous, now).value.checkpoint.progress)
  {
    AuthorizedPageCompletes(w, a, previous, Attempt(w, a, posts, aliases, previous, now).value.page, now);
  }

  /** A completed checkpoint is refused by every later attempt. */
  lemma CompletedIsExhausted(w: World, a: Authorization, posts: seq<Post>, aliases: Aliases, c: Checkpoint, now: nat)
    requires c.progress.completedAt.Some?
    ensures Attempt(w, a, posts, aliases, Some(c), now).None?
  {
  }

  /** What an attempt emits is accepted by the next one exactly when the clock has not gone
      back behind the start of the run. */
  lemma EmittedIsAccepted(w: World, a: Authorization, posts: seq<Post>, aliases: Aliases, previous: Option<Checkpoint>,
                          now: nat)
    requires Attempt(w, a, posts, aliases, previous, now).Some?
    ensures AcceptsCheckpoint(w, a, Attempt(w, a, posts, aliases, previous, now).value.checkpoint)
       <==> previous.Some? ==> now >= previous.value.progress.startedAt
  {
    CompletesAsAuthorized(w, a, posts, aliases, previous, now);
    NextCursorIsValid(w, a, posts, aliases, previous, now);
  }

  lemma PlannedNextIsValid(slugs: Slugs, rows: seq<Row>, size: nat, cursor: Option<Cursor>, upper: Cursor)
    requires PageIsPlanned(slugs, rows, size, cursor, upper)
    ensures PageOf(slugs, rows, size, cursor, upper).nextCursor.Some? ==>
              ValidCursor(PageOf(slugs, rows, size, cursor, upper).nextCursor.value)
  {
    if |rows| > size {
      OrderOfPrefix(slugs, rows, size, cursor, upper);
    }
  }

  lemma NextCursorIsValid(w: World, a: Authorization, posts: seq<Post>, aliases: Aliases, previous: Option<Checkpoint>,
                          now: nat)
    requires Attempt(w, a, posts, aliases, previous, now).Some?
    ensures ValidCursor(Attempt(w, a, posts, aliases, previous, now).value.checkpoint.progress.cursor)
  {
    var cursor := CursorOf(a, previous);
    PlannedNextIsValid(w.slugs, ReadPage(posts, aliases, cursor, a.upperBound, a.pageSize), a.pageSize, cursor,
                       a.upperBound);
  }

  // ---- The database -----------------------------------------------------------------

  /** The alias table; a transaction works on it and either keeps its changes or not. */
  class Database {
    var aliases: Aliases

    constructor (aliases: Aliases)
      ensures this.aliases == aliases
    {
      this.aliases := aliases;
    }

    /** The loop over a page's decisions, inside the transaction. */
    method Allocate(w: World, decisions: seq<Decision>) returns (ok: bool)
      modifies this
      ensures ok <==> AllocateAll(w, old(aliases), decisions).Some?
      ensures ok ==> AllocateAll(w, old(aliases), decisions) == Some(aliases)
    {
      ghost var start := aliases;
      for k := 0 to |decisions|
        invariant AllocateAll(w, start, decisions[..k]) == Some(aliases)
      {
        var d := decisions[k];
        AllocationGrows(w, start, decisions, k);
        if d.action.candidate.Some? && d.existingSlug.None? {
          var postId := d.action.position.postId;
          var alias := w.allocate(aliases, postId, d.action.candidate.value);
          if alias.None? || alias.value.postId != postId {
            AllocationStops(w, start, decisions, k + 1);
            return false;
          }
          aliases := aliases[postId := alias.value.slug];
        }
      }
      TakeAll(decisions);
      ok := true;
    }

    /** The page the transaction reads, planned and checked against the authorization. */
    method ReadAuthorizedPage(w: World, a: Authorization, posts: seq<Post>, previous: Option<Checkpoint>, now: nat)
      returns (page: Option<Page>)
      ensures page == AuthorizedPage(w, a, posts, aliases, previous, now)
    {
      if !MayStart(w, a, previous, now) {
        return None;
      }
      var cursor := CursorOf(a, previous);
      var rows := ReadPage(posts, aliases, cursor, a.upperBound, a.pageSize);
      var planned := PlanPostSlugBackfillPage(w.slugs, rows, a.pageSize, cursor, a.upperBound);
      if planned.Failure? || !PageIsAuthorized(w, a, planned.value, NextProgress(w, a, previous, planned.value, now)) {
        return None;
      }
      page := Some(planned.value);
    }

    /** `runAuthorizedPostSlugBackfillPage`: one page in one transaction, which is rolled back
        when anything throws and also when its commit is lost. */
    method RunAuthorizedPage(w: World, a: Authorization, posts: seq<Post>, previous: Option<Checkpoint>, now: nat,
                             committed: bool)
      returns (r: Option<Commit>)
      modifies this
      ensures r == Attempt(w, a, posts, old(aliases), previous, now)
      ensures aliases == if r.Some? && committed then r.value.aliases else old(aliases)
    {
      var page := ReadAuthorizedPage(w, a, posts, previous, now);
      if page.None? {
        return None;
      }
      var before := aliases;
      var ok := Allocate(w, page.value.decisions);
      if !ok {
        aliases := before;
        return None;
      }
      var next := NextProgress(w, a, previous, page.value, now);
      r := Some(Commit(page.value, Checkpoint(next, w.checkpointDigest(next)), aliases));
      if !committed {
        aliases := before;
      }
    }
  }
}
