/** The pages of scripts/public-post-slug-backfill-planner.ts: what is decided about each
    post, the checks on one page, and what a chain of pages decides. */
module SlugPages {
  import opened Outcomes
  import opened SlugCursor

  datatype Status =
    | Draft | Processing | Published | Failed | Hidden | Removed | Deleted
    | ManualReview | Blocked | ProcessingFailed | Abandoned

  datatype Visibility = Public | MembersOnly
  datatype Rating = General | Adult
  datatype CommunityStatus = ActiveCommunity | HiddenCommunity | ArchivedCommunity

  datatype Post = Post(
    position: Cursor,
    communityId: string,
    postType: string,
    status: Status,
    visibility: Visibility,
    rating: Option<Rating>,
    community: CommunityStatus,
    title: Option<string>,
    body: Option<string>)

  /** A row of the page query: a post, and the alias it already has. */
  datatype Row = Row(post: Post, existingSlug: Option<string>)

  /** A slug made of the post's text, or the prefix of one to be drawn by the allocator. */
  datatype Candidate = Descriptive(ascii: bool, slug: string) | Opaque(prefix: string)

  datatype Policy = DescriptivePolicy | OpaquePolicy | SkipPolicy | BlockedPolicy

  datatype Issue = RemovedNotNormalized | UnsupportedPostType | UnsupportedStatus

  /** What is to be done about a post. */
  datatype Action = Action(
    position: Cursor,
    postType: string,
    policy: Policy,
    candidate: Option<Candidate>,
    issue: Option<Issue>)

  /** An action and, beside it, the alias observed when it was decided on. */
  datatype Decision = Decision(action: Action, existingSlug: Option<string>)

  /** The slug module: which texts are slugs, and the candidate it makes for a post type
      from a title and a body. */
  datatype Slugs = Slugs(
    isSlug: string -> bool,
    describe: (string, Option<string>, Option<string>) -> Candidate)

  predicate HasDescriptivePolicy(postType: string) {
    postType == "text" || postType == "song"
  }

  /** A published post whose text may be looked at. */
  predicate IsOpen(p: Post) {
    p.community.ActiveCommunity? && p.visibility.Public? && p.rating == Some(General)
  }

  predicate SourceEligible(p: Post) {
    p.status.Published? && IsOpen(p) && HasDescriptivePolicy(p.postType)
  }

  predicate ValidPost(p: Post) {
    && ValidCursor(p.position)
    && ValidPostId(p.communityId)
    && 1 <= |p.postType| <= 128
    && (!SourceEligible(p) ==> p.title.None? && p.body.None?)
  }

  predicate ValidRow(w: Slugs, row: Row) {
    ValidPost(row.post) && (row.existingSlug.Some? ==> w.isSlug(row.existingSlug.value))
  }

  function Decided(p: Post, policy: Policy, candidate: Option<Candidate>, issue: Option<Issue>): Action {
    Action(p.position, p.postType, policy, candidate, issue)
  }

  function OpaqueFor(postType: string): Candidate {
    Opaque(if postType == "song" then "song" else "post")
  }

  predicate IsSkipped(s: Status) {
    || s.Draft? || s.Processing? || s.Failed? || s.Deleted?
    || s.ManualReview? || s.Blocked? || s.ProcessingFailed? || s.Abandoned?
  }

  function ActionFor(w: Slugs, p: Post): Action {
    if !HasDescriptivePolicy(p.postType) then Decided(p, BlockedPolicy, None, Some(UnsupportedPostType))
    else if p.status.Removed? then Decided(p, BlockedPolicy, None, Some(RemovedNotNormalized))
    else if IsSkipped(p.status) then Decided(p, SkipPolicy, None, None)
    else if p.status.Hidden? then Decided(p, OpaquePolicy, Some(OpaqueFor(p.postType)), None)
    else if !p.status.Published? then Decided(p, BlockedPolicy, None, Some(UnsupportedStatus))
    else if !IsOpen(p) then Decided(p, OpaquePolicy, Some(OpaqueFor(p.postType)), None)
    else
      var candidate := w.describe(p.postType, p.title, p.body);
      Decided(p, if candidate.Descriptive? then DescriptivePolicy else OpaquePolicy, Some(candidate), None)
  }

  /** A post gets a slug exactly when its policy is descriptive or opaque, a descriptive one
      only from text that may be looked at; it is blocked exactly when it has an issue; and
      no status is unsupported. */
  lemma ActionsAreSound(w: Slugs, p: Post)
    ensures var a := ActionFor(w, p);
            && a.position == p.position
            && (a.candidate.Some? <==> a.policy.DescriptivePolicy? || a.policy.OpaquePolicy?)
            && (a.policy.DescriptivePolicy? <==> a.candidate.Some? && a.candidate.value.Descriptive?)
            && (a.policy.DescriptivePolicy? ==> SourceEligible(p))
            && (a.policy.BlockedPolicy? <==> a.issue.Some?)
            && a.issue != Some(UnsupportedStatus)
  {
  }

  function Decisions(w: Slugs, rows: seq<Row>): (r: seq<Decision>)
    ensures |r| == |rows|
    ensures forall i :: 0 <= i < |rows| ==> r[i] == Decision(ActionFor(w, rows[i].post), rows[i].existingSlug)
  {
    seq(|rows|, i requires 0 <= i < |rows| => Decision(ActionFor(w, rows[i].post), rows[i].existingSlug))
  }

  // ---- One page ---------------------------------------------------------------------

  const PAGE_SIZE_MAX: nat := 1000

  function Actions(decisions: seq<Decision>): (r: seq<Action>)
    ensures |r| == |decisions|
    ensures forall i :: 0 <= i < |decisions| ==> r[i] == decisions[i].action
  {
    seq(|decisions|, i requires 0 <= i < |decisions| => decisions[i].action)
  }

  function CountOf(actions: seq<Action>, policy: Policy): nat {
    if actions == [] then 0
    else CountOf(actions[..|actions| - 1], policy) + (if actions[|actions| - 1].policy == policy then 1 else 0)
  }

  datatype Counts = Counts(input: nat, descriptive: nat, opaqueOnes: nat, skipped: nat, blocked: nat)

  const NO_COUNTS := Counts(0, 0, 0, 0, 0)

  function CountsOf(actions: seq<Action>): Counts {
    Counts(|actions|,
           CountOf(actions, DescriptivePolicy), CountOf(actions, OpaquePolicy),
           CountOf(actions, SkipPolicy), CountOf(actions, BlockedPolicy))
  }

  function AddCounts(a: Counts, b: Counts): Counts {
    Counts(a.input + b.input, a.descriptive + b.descriptive, a.opaqueOnes + b.opaqueOnes, a.skipped + b.skipped,
           a.blocked + b.blocked)
  }

  predicate Balanced(c: Counts) {
    c.input == c.descriptive + c.opaqueOnes + c.skipped + c.blocked
  }

  /** Every post of a page is counted once. */
  lemma {:induction false} CountsAreBalanced(actions: seq<Action>)
    ensures Balanced(CountsOf(actions))
  {
    if actions != [] {
      CountsAreBalanced(actions[..|actions| - 1]);
    }
  }

  datatype Page = Page(
    cursor: Option<Cursor>,
    upperBound: Cursor,
    nextCursor: Option<Cursor>,
    hasMore: bool,
    decisions: seq<Decision>,
    counts: Counts)

  /** A row is valid, comes after the position before it, and does not exceed the bound. */
  predicate Follows(w: Slugs, previous: Option<Cursor>, row: Row, upper: Cursor) {
    && ValidRow(w, row)
    && !(previous.Some? && CompareCursor(row.post.position, previous.value) <= 0)
    && !(CompareCursor(row.post.position, upper) > 0)
  }

  lemma FollowsIsBefore(w: Slugs, previous: Option<Cursor>, row: Row, upper: Cursor)
    ensures Follows(w, previous, row, upper)
       <==> && ValidRow(w, row)
            && (previous.Some? ==> Before(previous.value, row.post.position))
            && !Before(upper, row.post.position)
  {
    BeforeIsTotal(row.post.position, upper);
    BeforeIsTotal(upper, row.post.position);
    if previous.Some? {
      BeforeIsTotal(previous.value, row.post.position);
      BeforeIsTotal(row.post.position, previous.value);
    }
  }

  function LastPosition(rows: seq<Row>, cursor: Option<Cursor>): Option<Cursor> {
    if rows == [] then cursor else Some(rows[|rows| - 1].post.position)
  }

  predicate InOrder(w: Slugs, rows: seq<Row>, cursor: Option<Cursor>, upper: Cursor) {
    rows == []
    || (var front := rows[..|rows| - 1];
        InOrder(w, front, cursor, upper) && Follows(w, LastPosition(front, cursor), rows[|rows| - 1], upper))
  }

  function PageOf(w: Slugs, rows: seq<Row>, size: nat, cursor: Option<Cursor>, upper: Cursor): Page {
    var hasMore := |rows| > size;
    var selected := if hasMore then rows[..size] else rows;
    var decisions := Decisions(w, selected);
    Page(cursor, upper,
         if hasMore && selected != [] then Some(selected[|selected| - 1].post.position) else None,
         hasMore, decisions, CountsOf(Actions(decisions)))
  }

  predicate PageIsPlanned(w: Slugs, rows: seq<Row>, size: nat, cursor: Option<Cursor>, upper: Cursor) {
    && 1 <= size <= PAGE_SIZE_MAX
    && (cursor.Some? ==> Before(cursor.value, upper))
    && |rows| <= size + 1
    && InOrder(w, rows, cursor, upper)
  }

  lemma InOrderGrows(w: Slugs, rows: seq<Row>, k: nat, cursor: Option<Cursor>, upper: Cursor)
    requires k < |rows|
    ensures InOrder(w, rows[..k + 1], cursor, upper)
       <==> InOrder(w, rows[..k], cursor, upper) && Follows(w, LastPosition(rows[..k], cursor), rows[k], upper)
    ensures LastPosition(rows[..k + 1], cursor) == Some(rows[k].post.position)
  {
    assert rows[..k + 1][..k] == rows[..k];
  }

  lemma OutOfOrder(w: Slugs, rows: seq<Row>, k: nat, cursor: Option<Cursor>, upper: Cursor)
    requires k < |rows| && !Follows(w, LastPosition(rows[..k], cursor), rows[k], upper)
    ensures !InOrder(w, rows, cursor, upper)
  {
    if InOrder(w, rows, cursor, upper) {
      OrderOfPrefix(w, rows, k + 1, cursor, upper);
      InOrderGrows(w, rows, k, cursor, upper);
    }
  }

  lemma {:induction false} OrderOfPrefix(w: Slugs, rows: seq<Row>, k: nat, cursor: Option<Cursor>, upper: Cursor)
    requires k <= |rows| && InOrder(w, rows, cursor, upper)
    ensures InOrder(w, rows[..k], cursor, upper)
  {
    if k == |rows| {
      assert rows[..k] == rows;
    } else {
      assert rows[..|rows| - 1][..k] == rows[..k];
      OrderOfPrefix(w, rows[..|rows| - 1], k, cursor, upper);
    }
  }

  /** `planPostSlugBackfillPage`: the page, or a refusal of its rows or bounds. */
  method PlanPostSlugBackfillPage(w: Slugs, rows: seq<Row>, size: nat, cursor: Option<Cursor>, upper: Cursor)
    returns (r: Result<Page>)
    ensures r.Success? <==> PageIsPlanned(w, rows, size, cursor, upper)
    ensures r.Success? ==> r.value == PageOf(w, rows, size, cursor, upper)
  {
    if !(1 <= size <= PAGE_SIZE_MAX) {
      return Failure("backfill page size is outside the bounded range");
    }
    if cursor.Some? && CompareCursor(cursor.value, upper) >= 0 {
      return Failure("backfill cursor must precede its upper bound");
    }
    if |rows| > size + 1 {
      return Failure("backfill page exceeds its bounded look-ahead");
    }
    var previous := cursor;
    for k := 0 to |rows|
      invariant InOrder(w, rows[..k], cursor, upper)
      invariant previous == LastPosition(rows[..k], cursor)
    {
      if !Follows(w, previous, rows[k], upper) {
        OutOfOrder(w, rows, k, cursor, upper);
        return Failure("backfill page order is not monotonic or exceeds its upper bound");
      }
      InOrderGrows(w, rows, k, cursor, upper);
      previous := Some(rows[k].post.position);
    }
    TakeAll(rows);
    r := Success(PageOf(w, rows, size, cursor, upper));
  }
}
