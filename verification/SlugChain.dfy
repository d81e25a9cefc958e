/** Keyset pagination of scripts/public-post-slug-backfill-transaction.ts and -planner.ts:
    the ordered, bounded query over the posts, and the chain of pages that follows each
    page's next cursor. */
module SlugChain {
  import opened Outcomes
  import opened SlugCursor
  import opened SlugPages

  type Aliases = map<string, string>

  /** Posts in strictly increasing order of time and id. */
  predicate Sorted(posts: seq<Post>) {
    |posts| < 2
    || (Sorted(posts[..|posts| - 1]) && Before(posts[|posts| - 2].position, posts[|posts| - 1].position))
  }

  /** The query's conditions: after the cursor, not after the bound. */
  predicate InRange(p: Post, cursor: Option<Cursor>, upper: Cursor) {
    (cursor.Some? ==> Before(cursor.value, p.position)) && !Before(upper, p.position)
  }

  function Eligible(posts: seq<Post>, cursor: Option<Cursor>, upper: Cursor): seq<Post> {
    if posts == [] then []
    else
      var last := posts[|posts| - 1];
      Eligible(posts[..|posts| - 1], cursor, upper) + (if InRange(last, cursor, upper) then [last] else [])
  }

  /** The left join with the alias table. */
  function Joined(posts: seq<Post>, aliases: Aliases): (rows: seq<Row>)
    ensures |rows| == |posts|
    ensures forall i :: 0 <= i < |posts| ==> rows[i].post == posts[i]
  {
    seq(|posts|, i requires 0 <= i < |posts| =>
      Row(posts[i], if posts[i].position.postId in aliases then Some(aliases[posts[i].position.postId]) else None))
  }

  function Take(posts: seq<Post>, n: nat): seq<Post> {
    if |posts| <= n then posts else posts[..n]
  }

  /** `readPostSlugBackfillPage`: one row more than the page. */
  function ReadPage(posts: seq<Post>, aliases: Aliases, cursor: Option<Cursor>, upper: Cursor, size: nat): seq<Row> {
    Joined(Take(Eligible(posts, cursor, upper), size + 1), aliases)
  }

  // ---- What the query selects -------------------------------------------------------

  lemma {:induction false} EligibleIsInRange(posts: seq<Post>, cursor: Option<Cursor>, upper: Cursor, i: nat)
    requires i < |Eligible(posts, cursor, upper)|
    ensures InRange(Eligible(posts, cursor, upper)[i], cursor, upper)
    ensures Eligible(posts, cursor, upper)[i] in posts
  {
    var front := posts[..|posts| - 1];
    if i < |Eligible(front, cursor, upper)| {
      EligibleIsInRange(front, cursor, upper, i);
    }
  }

  lemma {:induction false} SortedBeforeLast(posts: seq<Post>, i: nat)
    requires Sorted(posts) && i < |posts| - 1
    ensures Before(posts[i].position, posts[|posts| - 1].position)
  {
    var n := |posts| - 1;
    if i < n - 1 {
      SortedBeforeLast(posts[..n], i);
      BeforeIsTransitive(posts[i].position, posts[n - 1].position, posts[n].position);
    }
  }

  lemma SortedGrows(posts: seq<Post>, p: Post)
    requires Sorted(posts) && (posts != [] ==> Before(posts[|posts| - 1].position, p.position))
    ensures Sorted(posts + [p])
  {
    assert (posts + [p])[..|posts|] == posts;
  }

  lemma SelectedBeforeLast(posts: seq<Post>, cursor: Option<Cursor>, upper: Cursor)
    requires Sorted(posts) && posts != [] && Eligible(posts[..|posts| - 1], cursor, upper) != []
    ensures var e := Eligible(posts[..|posts| - 1], cursor, upper);
            Before(e[|e| - 1].position, posts[|posts| - 1].position)
  {
    var n := |posts| - 1;
    var e := Eligible(posts[..n], cursor, upper);
    EligibleIsInRange(posts[..n], cursor, upper, |e| - 1);
    var i :| 0 <= i < n && posts[..n][i] == e[|e| - 1];
    SortedBeforeLast(posts, i);
  }

  lemma {:induction false} EligibleIsSorted(posts: seq<Post>, cursor: Option<Cursor>, upper: Cursor)
    requires Sorted(posts)
    ensures Sorted(Eligible(posts, cursor, upper))
  {
    if posts != [] {
      var n := |posts| - 1;
      var e := Eligible(posts[..n], cursor, upper);
      SortedPrefix(posts, n);
      EligibleIsSorted(posts[..n], cursor, upper);
      if e != [] {
        SelectedBeforeLast(posts, cursor, upper);
      }
      SortedGrows(e, posts[n]);
      assert e + [] == e;
    }
  }

  ghost predicate Within(posts: seq<Post>, upper: Cursor) {
    forall k :: 0 <= k < |posts| ==> !Before(upper, posts[k].position)
  }

  lemma EligibleIsWithin(posts: seq<Post>, cursor: Option<Cursor>, upper: Cursor)
    ensures Within(Eligible(posts, cursor, upper), upper)
  {
    forall k | 0 <= k < |Eligible(posts, cursor, upper)|
      ensures !Before(upper, Eligible(posts, cursor, upper)[k].position)
    {
      EligibleIsInRange(posts, cursor, upper, k);
    }
  }

  /** Of sorted posts, those after the i-th are the ones behind it. */
  lemma {:induction false} AfterTheIth(posts: seq<Post>, upper: Cursor, i: nat)
    requires Sorted(posts) && i < |posts| && Within(posts, upper)
    ensures Eligible(posts, Some(posts[i].position), upper) == posts[i + 1..]
  {
    var n := |posts| - 1;
    var front, cursor := posts[..n], posts[i].position;
    if i < n {
      SortedBeforeLast(posts, i);
      AfterTheIth(front, upper, i);
      SplitLast(posts);
      assert posts[i + 1..] == front[i + 1..] + [posts[n]];
    } else {
      BeforeIsTotal(cursor, cursor);
      NoneAfterLast(posts, n, upper);
      assert posts[i + 1..] == [];
    }
  }

  lemma {:induction false} NoneAfterLast(posts: seq<Post>, k: nat, upper: Cursor)
    requires Sorted(posts) && posts != [] && k <= |posts| - 1
    ensures Eligible(posts[..k], Some(posts[|posts| - 1].position), upper) == []
  {
    if k > 0 {
      NoneAfterLast(posts, k - 1, upper);
      assert posts[..k][..k - 1] == posts[..k - 1];
      SortedBeforeLast(posts, k - 1);
      BeforeIsTotal(posts[k - 1].position, posts[|posts| - 1].position);
    }
  }

  /** Asking again from a later cursor is asking among what was already selected. */
  lemma {:induction false} FromALaterCursor(posts: seq<Post>, cursor: Option<Cursor>, later: Cursor, upper: Cursor)
    requires cursor.Some? ==> Before(cursor.value, later)
    ensures Eligible(posts, Some(later), upper) == Eligible(Eligible(posts, cursor, upper), Some(later), upper)
  {
    if posts != [] {
      var last, front := posts[|posts| - 1], posts[..|posts| - 1];
      FromALaterCursor(front, cursor, later, upper);
      var selected := Eligible(front, cursor, upper);
      if InRange(last, cursor, upper) {
        assert (selected + [last])[..|selected|] == selected;
      } else {
        assert selected + [] == selected;
        if cursor.Some? && Before(later, last.position) {
          BeforeIsTransitive(cursor.value, later, last.position);
        }
      }
    }
  }

  /** The rest of the posts, from the last post of a full page. */
  lemma NextPageStartsThere(posts: seq<Post>, cursor: Option<Cursor>, upper: Cursor, size: nat)
    requires Sorted(posts) && 1 <= size < |Eligible(posts, cursor, upper)|
    ensures var e := Eligible(posts, cursor, upper);
            && Eligible(posts, Some(e[size - 1].position), upper) == e[size..]
            && (cursor.Some? ==> Before(cursor.value, e[size - 1].position))
            && Before(e[size - 1].position, upper)
  {
    var e := Eligible(posts, cursor, upper);
    EligibleIsSorted(posts, cursor, upper);
    EligibleIsWithin(posts, cursor, upper);
    EligibleIsInRange(posts, cursor, upper, size - 1);
    FromALaterCursor(posts, cursor, e[size - 1].position, upper);
    AfterTheIth(e, upper, size - 1);
    ThereIsMore(e, upper, size);
  }

  lemma ThereIsMore(e: seq<Post>, upper: Cursor, size: nat)
    requires Sorted(e) && 1 <= size < |e| && Within(e, upper)
    ensures Before(e[size - 1].position, upper)
  {
    SortedPrefix(e, size + 1);
    SortedBeforeLast(e[..size + 1], size - 1);
    BeforeIsTotal(e[size].position, upper);
    BeforeIsTotal(upper, e[size].position);
    if e[size].position != upper {
      BeforeIsTransitive(e[size - 1].position, e[size].position, upper);
    }
  }

  lemma {:induction false} SortedPrefix(posts: seq<Post>, k: nat)
    requires Sorted(posts) && k <= |posts|
    ensures Sorted(posts[..k])
  {
    if k == |posts| {
      assert posts[..k] == posts;
    } else if |posts| >= 2 {
      assert posts[..|posts| - 1][..k] == posts[..k];
      SortedPrefix(posts[..|posts| - 1], k);
    }
  }

  // ---- Chained pages ----------------------------------------------------------------

  function PageFrom(w: Slugs, posts: seq<Post>, aliases: Aliases, size: nat, cursor: Option<Cursor>,
                    upper: Cursor): Page
  {
    PageOf(w, ReadPage(posts, aliases, cursor, upper, size), size, cursor, upper)
  }

  lemma JoinedPrefix(posts: seq<Post>, aliases: Aliases, k: nat)
    requires k <= |posts|
    ensures Joined(posts, aliases)[..k] == Joined(posts[..k], aliases)
  {
  }

  lemma SelectedRows(e: seq<Post>, aliases: Aliases, size: nat)
    ensures var rows := Joined(Take(e, size + 1), aliases);
            && (|rows| > size <==> |e| > size)
            && (if |rows| > size then rows[..size] else rows) == Joined(Take(e, size), aliases)
  {
    var looked := Take(e, size + 1);
    if |e| > size {
      JoinedPrefix(looked, aliases, size);
      assert looked[..size] == e[..size];
    }
  }

  /** The position from which the next page continues, if anything is left for it. */
  function NextFrom(posts: seq<Post>, size: nat, cursor: Option<Cursor>, upper: Cursor): Option<Cursor>
    requires size >= 1
  {
    var e := Eligible(posts, cursor, upper);
    if |e| > size then Some(e[size - 1].position) else None
  }

  /** A page decides the first `size` of what is left, and continues after the last of them
      exactly when more is left. */
  lemma PageCovers(w: Slugs, posts: seq<Post>, aliases: Aliases, size: nat, cursor: Option<Cursor>, upper: Cursor)
    requires size >= 1
    ensures var page := PageFrom(w, posts, aliases, size, cursor, upper);
            && page.cursor == cursor && page.upperBound == upper && page.counts == CountsOf(Actions(page.decisions))
            && page.nextCursor == NextFrom(posts, size, cursor, upper)
            && page.hasMore == page.nextCursor.Some?
            && page.decisions == Decisions(w, Joined(Take(Eligible(posts, cursor, upper), size), aliases))
  {
    SelectedRows(Eligible(posts, cursor, upper), aliases, size);
  }

  /** The cursors of the pages that `e` takes: the start, and then the last position of
      every full page with more behind it. */
  function Starts(e: seq<Post>, size: nat, cursor: Option<Cursor>): seq<Option<Cursor>>
    requires size >= 1
  {
    if |e| <= size then [cursor] else [cursor] + Starts(e[size..], size, Some(e[size - 1].position))
  }

  function PagesAt(w: Slugs, posts: seq<Post>, aliases: Aliases, size: nat, starts: seq<Option<Cursor>>,
                   upper: Cursor): (pages: seq<Page>)
    ensures |pages| == |starts|
    ensures forall k :: 0 <= k < |starts| ==> pages[k] == PageFrom(w, posts, aliases, size, starts[k], upper)
  {
    seq(|starts|, k requires 0 <= k < |starts| => PageFrom(w, posts, aliases, size, starts[k], upper))
  }

  /** The chain of pages from a cursor on; that each page is the one the previous page's
      next cursor asks for is ChainFollowsNextCursors. */
  function Chain(w: Slugs, posts: seq<Post>, aliases: Aliases, size: nat, cursor: Option<Cursor>,
                 upper: Cursor): seq<Page>
    requires size >= 1
  {
    PagesAt(w, posts, aliases, size, Starts(Eligible(posts, cursor, upper), size, cursor), upper)
  }

  /** The starts are where the pages continue: each is the next cursor of the page at the
      one before, and comes after it, and nothing continues from the last. */
  lemma {:induction false} StartsAreNextCursors(posts: seq<Post>, size: nat, cursor: Option<Cursor>, upper: Cursor,
                                                k: nat)
    requires size >= 1 && Sorted(posts) && k < |Starts(Eligible(posts, cursor, upper), size, cursor)|
    ensures var starts := Starts(Eligible(posts, cursor, upper), size, cursor);
            && starts[0] == cursor
            && NextFrom(posts, size, starts[k], upper) == (if k + 1 < |starts| then starts[k + 1] else None)
            && (k + 1 < |starts| ==>
                  && starts[k + 1].Some? && Before(starts[k + 1].value, upper)
                  && (starts[k].Some? ==> Before(starts[k].value, starts[k + 1].value)))
    decreases k
  {
    var e := Eligible(posts, cursor, upper);
    if |e| > size {
      NextPageStartsThere(posts, cursor, upper, size);
      var next := Some(e[size - 1].position);
      assert Starts(e, size, cursor) == [cursor] + Starts(e[size..], size, next);
      assert Starts(e[size..], size, next)[0] == next;
      if k > 0 {
        StartsAreNextCursors(posts, size, next, upper, k - 1);
      }
    }
  }

  lemma ChainFollowsNextCursors(w: Slugs, posts: seq<Post>, aliases: Aliases, size: nat, cursor: Option<Cursor>,
                                upper: Cursor, k: nat)
    requires size >= 1 && Sorted(posts) && k < |Chain(w, posts, aliases, size, cursor, upper)|
    ensures var pages := Chain(w, posts, aliases, size, cursor, upper);
            && pages[0].cursor == cursor
            && pages[k] == PageFrom(w, posts, aliases, size, pages[k].cursor, upper)
            && (pages[k].nextCursor.None? <==> k == |pages| - 1)
            && (k < |pages| - 1 ==>
                  && pages[k + 1].cursor == pages[k].nextCursor
                  && (pages[k].cursor.Some? ==> Before(pages[k].cursor.value, pages[k + 1].cursor.value)))
  {
    var starts := Starts(Eligible(posts, cursor, upper), size, cursor);
    StartsAreNextCursors(posts, size, cursor, upper, k);
    PageCovers(w, posts, aliases, size, cursor, upper);
    PageCovers(w, posts, aliases, size, starts[k], upper);
    if k + 1 < |starts| {
      PageCovers(w, posts, aliases, size, starts[k + 1], upper);
    }
  }

  function AllDecisions(pages: seq<Page>): seq<Decision> {
    if pages == [] then [] else pages[0].decisions + AllDecisions(pages[1..])
  }

  lemma DecisionsSplit(w: Slugs, posts: seq<Post>, aliases: Aliases, k: nat)
    requires k <= |posts|
    ensures Decisions(w, Joined(posts, aliases))
              == Decisions(w, Joined(posts[..k], aliases)) + Decisions(w, Joined(posts[k..], aliases))
  {
  }

  lemma AllDecisionsOfMore(page: Page, rest: seq<Page>)
    ensures AllDecisions([page] + rest) == page.decisions + AllDecisions(rest)
  {
    assert ([page] + rest)[1..] == rest;
  }

  /** The chained pages decide every post after the start cursor and not after the bound,
      each once and in order. */
  lemma {:induction false} ChainDecidesAll(w: Slugs, posts: seq<Post>, aliases: Aliases, size: nat,
                                           cursor: Option<Cursor>, upper: Cursor)
    requires size >= 1 && Sorted(posts)
    ensures AllDecisions(Chain(w, posts, aliases, size, cursor, upper))
         == Decisions(w, Joined(Eligible(posts, cursor, upper), aliases))
    decreases |Eligible(posts, cursor, upper)|
  {
    var e := Eligible(posts, cursor, upper);
    var page := PageFrom(w, posts, aliases, size, cursor, upper);
    PageCovers(w, posts, aliases, size, cursor, upper);
    if |e| > size {
      var next := Some(e[size - 1].position);
      NextPageStartsThere(posts, cursor, upper, size);
      ChainDecidesAll(w, posts, aliases, size, next, upper);
      DecisionsSplit(w, e, aliases, size);
      ChainOfMore(w, posts, aliases, size, cursor, upper);
      AllDecisionsOfMore(page, Chain(w, posts, aliases, size, next, upper));
    } else {
      ChainOfOne(w, posts, aliases, size, cursor, upper);
    }
  }

  lemma ChainOfMore(w: Slugs, posts: seq<Post>, aliases: Aliases, size: nat, cursor: Option<Cursor>, upper: Cursor)
    requires size >= 1 && Sorted(posts) && |Eligible(posts, cursor, upper)| > size
    ensures var next := Some(Eligible(posts, cursor, upper)[size - 1].position);
            Chain(w, posts, aliases, size, cursor, upper)
            == [PageFrom(w, posts, aliases, size, cursor, upper)] + Chain(w, posts, aliases, size, next, upper)
  {
    var e := Eligible(posts, cursor, upper);
    var next := Some(e[size - 1].position);
    NextPageStartsThere(posts, cursor, upper, size);
    PagesAtMore(w, posts, aliases, size, cursor, Starts(e[size..], size, next), upper);
  }

  lemma PagesAtMore(w: Slugs, posts: seq<Post>, aliases: Aliases, size: nat, first: Option<Cursor>,
                    rest: seq<Option<Cursor>>, upper: Cursor)
    ensures PagesAt(w, posts, aliases, size, [first] + rest, upper)
         == [PageFrom(w, posts, aliases, size, first, upper)] + PagesAt(w, posts, aliases, size, rest, upper)
  {
    var all, tail := PagesAt(w, posts, aliases, size, [first] + rest, upper),
        PagesAt(w, posts, aliases, size, rest, upper);
    forall k | 0 < k < |all| ensures all[k] == tail[k - 1] {
      assert ([first] + rest)[k] == rest[k - 1];
    }
  }

  lemma ChainOfOne(w: Slugs, posts: seq<Post>, aliases: Aliases, size: nat, cursor: Option<Cursor>, upper: Cursor)
    requires size >= 1 && |Eligible(posts, cursor, upper)| <= size
    ensures AllDecisions(Chain(w, posts, aliases, size, cursor, upper))
              == PageFrom(w, posts, aliases, size, cursor, upper).decisions
  {
    OnePage(w, posts, aliases, size, [cursor], upper);
  }

  lemma OnePage(w: Slugs, posts: seq<Post>, aliases: Aliases, size: nat, starts: seq<Option<Cursor>>, upper: Cursor)
    requires |starts| == 1
    ensures AllDecisions(PagesAt(w, posts, aliases, size, starts, upper))
              == PageFrom(w, posts, aliases, size, starts[0], upper).decisions
  {
    var page := PageFrom(w, posts, aliases, size, starts[0], upper);
    assert starts[1..] == [];
    assert PagesAt(w, posts, aliases, size, starts[1..], upper) == [];
    AllDecisionsOfMore(page, []);
    assert page.decisions + [] == page.decisions;
  }

  /** How many pages of `size` it takes, one at least. */
  function PageCount(n: nat, size: nat): nat
    requires size >= 1
  {
    if n <= size then 1 else 1 + PageCount(n - size, size)
  }

  lemma {:induction false} PageCountIsCeiling(n: nat, size: nat)
    requires size >= 1
    ensures (PageCount(n, size) - 1) * size < n || PageCount(n, size) == 1
    ensures n <= PageCount(n, size) * size
  {
    if n > size {
      PageCountIsCeiling(n - size, size);
      var c := PageCount(n - size, size);
      assert (c + 1) * size == c * size + size;
      assert (c - 1) * size + size == c * size;
    }
  }

  lemma {:induction false} StartCount(e: seq<Post>, size: nat, cursor: Option<Cursor>)
    requires size >= 1
    ensures |Starts(e, size, cursor)| == PageCount(|e|, size)
  {
    if |e| > size {
      StartCount(e[size..], size, Some(e[size - 1].position));
    }
  }

  /** The chain ends after as many pages as it takes. */
  lemma ChainLength(w: Slugs, posts: seq<Post>, aliases: Aliases, size: nat, cursor: Option<Cursor>, upper: Cursor)
    requires size >= 1
    ensures |Chain(w, posts, aliases, size, cursor, upper)| == PageCount(|Eligible(posts, cursor, upper)|, size)
  {
    var e := Eligible(posts, cursor, upper);
    StartCount(e, size, cursor);
  }

  // ---- The planner accepts what the query returns -----------------------------------

  predicate QueriedAt(w: Slugs, posts: seq<Post>, aliases: Aliases, cursor: Option<Cursor>, upper: Cursor, i: nat)
    requires i < |posts|
  {
    InRange(posts[i], cursor, upper) && ValidRow(w, Joined(posts, aliases)[i])
  }

  lemma SortedNeighbours(posts: seq<Post>, k: nat)
    requires Sorted(posts) && 0 < k < |posts|
    ensures Before(posts[k - 1].position, posts[k].position)
  {
    SortedPrefix(posts, k + 1);
    SortedBeforeLast(posts[..k + 1], k - 1);
  }

  lemma LastOfJoined(posts: seq<Post>, aliases: Aliases, cursor: Option<Cursor>, k: nat)
    requires k <= |posts|
    ensures LastPosition(Joined(posts, aliases)[..k], cursor) == if k == 0 then cursor else Some(posts[k - 1].position)
  {
  }

  lemma RowFollows(w: Slugs, posts: seq<Post>, aliases: Aliases, cursor: Option<Cursor>, upper: Cursor, k: nat)
    requires Sorted(posts) && k < |posts| && QueriedAt(w, posts, aliases, cursor, upper, k)
    ensures Follows(w, LastPosition(Joined(posts, aliases)[..k], cursor), Joined(posts, aliases)[k], upper)
  {
    if k > 0 {
      SortedNeighbours(posts, k);
    }
    LastOfJoined(posts, aliases, cursor, k);
    var previous := LastPosition(Joined(posts, aliases)[..k], cursor);
    var row := Joined(posts, aliases)[k];
    FollowsIsBefore(w, previous, row, upper);
  }

  lemma {:induction false} QueryIsInOrder(w: Slugs, posts: seq<Post>, aliases: Aliases, cursor: Option<Cursor>,
                                          upper: Cursor, k: nat)
    requires Sorted(posts) && k <= |posts|
    requires forall i :: 0 <= i < |posts| ==> QueriedAt(w, posts, aliases, cursor, upper, i)
    ensures InOrder(w, Joined(posts, aliases)[..k], cursor, upper)
  {
    if k > 0 {
      QueryIsInOrder(w, posts, aliases, cursor, upper, k - 1);
      RowFollows(w, posts, aliases, cursor, upper, k - 1);
      InOrderGrows(w, Joined(posts, aliases), k - 1, cursor, upper);
    }
  }

  /** Every row the query may return passes the planner's row checks. */
  ghost predicate RowsValid(w: Slugs, posts: seq<Post>, aliases: Aliases) {
    forall i :: 0 <= i < |posts| ==> ValidRow(w, Joined(posts, aliases)[i])
  }

  lemma QueriedRowsAreValid(w: Slugs, posts: seq<Post>, aliases: Aliases, cursor: Option<Cursor>, upper: Cursor, i: nat)
    requires RowsValid(w, posts, aliases) && i < |Eligible(posts, cursor, upper)|
    ensures QueriedAt(w, Eligible(posts, cursor, upper), aliases, cursor, upper, i)
  {
    var e := Eligible(posts, cursor, upper);
    EligibleIsInRange(posts, cursor, upper, i);
    var j :| 0 <= j < |posts| && posts[j] == e[i];
    assert ValidRow(w, Joined(posts, aliases)[j]);
  }

  lemma AllInOrder(w: Slugs, posts: seq<Post>, aliases: Aliases, cursor: Option<Cursor>, upper: Cursor)
    requires Sorted(posts) && RowsValid(w, posts, aliases)
    ensures InOrder(w, Joined(Eligible(posts, cursor, upper), aliases), cursor, upper)
  {
    var e := Eligible(posts, cursor, upper);
    EligibleIsSorted(posts, cursor, upper);
    forall i | 0 <= i < |e| ensures QueriedAt(w, e, aliases, cursor, upper, i) {
      QueriedRowsAreValid(w, posts, aliases, cursor, upper, i);
    }
    QueryIsInOrder(w, e, aliases, cursor, upper, |e|);
    TakeAll(Joined(e, aliases));
  }

  lemma PageRowsInOrder(w: Slugs, posts: seq<Post>, aliases: Aliases, size: nat, cursor: Option<Cursor>, upper: Cursor)
    requires Sorted(posts) && RowsValid(w, posts, aliases)
    ensures InOrder(w, ReadPage(posts, aliases, cursor, upper, size), cursor, upper)
  {
    var e := Eligible(posts, cursor, upper);
    AllInOrder(w, posts, aliases, cursor, upper);
    if |e| > size + 1 {
      JoinedPrefix(e, aliases, size + 1);
      OrderOfPrefix(w, Joined(e, aliases), size + 1, cursor, upper);
    }
  }

  /** A page the planner is given by the query is never refused. */
  lemma QueriedPageIsPlanned(w: Slugs, posts: seq<Post>, aliases: Aliases, size: nat, cursor: Option<Cursor>,
                             upper: Cursor)
    requires Sorted(posts) && RowsValid(w, posts, aliases) && 1 <= size <= PAGE_SIZE_MAX
    requires cursor.Some? ==> Before(cursor.value, upper)
    ensures PageIsPlanned(w, ReadPage(posts, aliases, cursor, upper, size), size, cursor, upper)
  {
    PageRowsInOrder(w, posts, aliases, size, cursor, upper);
  }
}
