/** Paging through the runs of a project, newest first, and the error test beside it. */
module RunListing {
  import opened Prelude
  import opened Ordering

  datatype Candidate = Candidate(sessionID: string, runID: string) {
    function Cursor(): string { sessionID + "/" + runID }
  }

  /** What becomes of a candidate: its projected status, or one of the four ways to be omitted. */
  datatype Outcome<Row> = Listed(row: Row) | Unresolved | Mismatched | StatusUnread | Unprojectable

  datatype Page<Row> = Page(runs: seq<Row>, next: Option<string>, omitted: nat)

  predicate PastCursor(candidate: Candidate, cursor: string) {
    cursor == "" || Less(candidate.Cursor(), cursor)
  }

  /** The scan of the first n candidates from the last one down, with `taken` runs listed already. */
  function Scan<Row>(candidates: seq<Candidate>, outcome: Candidate -> Outcome<Row>, cursor: string, limit: int,
                     n: nat, taken: nat): Page<Row>
    requires n <= |candidates|
    decreases n
  {
    if n == 0 then Page([], None, 0)
    else if !PastCursor(candidates[n - 1], cursor) then Scan(candidates, outcome, cursor, limit, n - 1, taken)
    else
      match outcome(candidates[n - 1])
      case Listed(row) =>
        if taken + 1 == limit then Page([row], if n > 1 then Some(candidates[n - 1].Cursor()) else None, 0)
        else
          var rest := Scan(candidates, outcome, cursor, limit, n - 1, taken + 1);
          rest.(runs := [row] + rest.runs)
      case _ =>
        var rest := Scan(candidates, outcome, cursor, limit, n - 1, taken);
        rest.(omitted := rest.omitted + 1)
  }

  function PageOf<Row>(candidates: seq<Candidate>, diagnostics: nat, outcome: Candidate -> Outcome<Row>, cursor: string,
                       limit: int): Page<Row>
  {
    var page := Scan(candidates, outcome, cursor, limit, |candidates|, 0);
    page.(omitted := page.omitted + diagnostics)
  }

  function Extend<Row>(runs: seq<Row>, omitted: nat, rest: Page<Row>): Page<Row> {
    Page(runs + rest.runs, rest.next, omitted + rest.omitted)
  }

  lemma ExtendRun<Row>(runs: seq<Row>, omitted: nat, row: Row, rest: Page<Row>)
    ensures Extend(runs, omitted, rest.(runs := [row] + rest.runs)) == Extend(runs + [row], omitted, rest)
  {
    Associates(runs, [row], rest.runs);
  }

  /** When the request was found cancelled: before candidate i was looked at, or when resolving it
      or reading its status had failed. */
  datatype Context = Context(before: nat -> bool, during: nat -> bool)

  /** The scan runs into a cancellation. */
  predicate Interrupted<Row>(context: Context, candidates: seq<Candidate>, outcome: Candidate -> Outcome<Row>,
                             cursor: string, limit: int, n: nat, taken: nat)
    requires n <= |candidates|
    decreases n
  {
    n > 0
    && (context.before(n - 1)
        || if !PastCursor(candidates[n - 1], cursor) then Interrupted(context, candidates, outcome, cursor, limit, n - 1, taken)
           else
             match outcome(candidates[n - 1])
             case Listed(_) =>
               taken + 1 != limit && Interrupted(context, candidates, outcome, cursor, limit, n - 1, taken + 1)
             case Mismatched => Interrupted(context, candidates, outcome, cursor, limit, n - 1, taken)
             case Unprojectable => Interrupted(context, candidates, outcome, cursor, limit, n - 1, taken)
             case _ =>
               context.during(n - 1) || Interrupted(context, candidates, outcome, cursor, limit, n - 1, taken))
  }

  /** What is found at the artifact root: nothing, something that cannot be looked at, an
      enumeration that failed, or candidates and the number of directories that are none. */
  datatype Root = Absent | Unobservable | Unreadable | Holds(candidates: seq<Candidate>, diagnostics: nat)

  function Answer<Row>(ready: bool, root: Root, context: Context, outcome: Candidate -> Outcome<Row>, cursor: string,
                       limit: int): Result<Page<Row>>
  {
    if !ready then Err
    else
      match root
      case Absent => Ok(Page([], None, 0))
      case Holds(candidates, diagnostics) =>
        if Interrupted(context, candidates, outcome, cursor, limit, |candidates|, 0) then Err
        else Ok(PageOf(candidates, diagnostics, outcome, cursor, limit))
      case _ => Err
  }

  /** The backend's ListRuns; `ready` is the verdict of its preflight. */
  method ListRuns<Row>(ready: bool, root: Root, context: Context, outcome: Candidate -> Outcome<Row>, cursor: string,
                       limit: int) returns (result: Result<Page<Row>>)
    ensures result == Answer(ready, root, context, outcome, cursor, limit)
  {
    if !ready { return Err; }
    if root.Absent? { return Ok(Page([], None, 0)); }
    if !root.Holds? { return Err; }
    var candidates := root.candidates;
    var runs: seq<Row> := [];
    var omitted := root.diagnostics;
    var next: Option<string> := None;
    var index := |candidates| - 1;
    ghost var whole := PageOf(candidates, root.diagnostics, outcome, cursor, limit);
    assert [] + whole.runs == whole.runs;
    while index >= 0
      invariant -1 <= index < |candidates|
      invariant next == None
      invariant whole == Extend(runs, omitted, Scan(candidates, outcome, cursor, limit, index + 1, |runs|))
      invariant Interrupted(context, candidates, outcome, cursor, limit, |candidates|, 0)
             == Interrupted(context, candidates, outcome, cursor, limit, index + 1, |runs|)
    {
      if context.before(index) { return Err; }
      var candidate := candidates[index];
      if cursor != "" && !Less(candidate.Cursor(), cursor) {
        index := index - 1;
        continue;
      }
      match outcome(candidate) {
        case Listed(row) =>
          if |runs| + 1 != limit { ExtendRun(runs, omitted, row, Scan(candidates, outcome, cursor, limit, index, |runs| + 1)); }
          runs := runs + [row];
          if |runs| == limit {
            if index > 0 { next := Some(candidate.Cursor()); }
            break;
          }
        case Mismatched => omitted := omitted + 1;
        case Unprojectable => omitted := omitted + 1;
        case _ =>
          if context.during(index) { return Err; }
          omitted := omitted + 1;
      }
      index := index - 1;
    }
    if index < 0 { assert runs + [] == runs; }
    result := Ok(Page(runs, next, omitted));
  }

  // ---------------------------------------------------------------- what one page covers

  ghost predicate Ascending(candidates: seq<Candidate>) {
    forall i, j :: 0 <= i < j < |candidates| ==> Less(candidates[i].Cursor(), candidates[j].Cursor())
  }

  /** The listed rows of candidates[low..high], last first. */
  function Rows<Row>(candidates: seq<Candidate>, outcome: Candidate -> Outcome<Row>, low: nat, high: nat): seq<Row>
    requires low <= high <= |candidates|
    decreases high
  {
    if low == high then []
    else
      var rest := Rows(candidates, outcome, low, high - 1);
      if outcome(candidates[high - 1]).Listed? then [outcome(candidates[high - 1]).row] + rest else rest
  }

  lemma {:induction false} RowsConcatenate<Row>(candidates: seq<Candidate>, outcome: Candidate -> Outcome<Row>,
                                                low: nat, middle: nat, high: nat)
    requires low <= middle <= high <= |candidates|
    ensures Rows(candidates, outcome, low, high)
         == Rows(candidates, outcome, middle, high) + Rows(candidates, outcome, low, middle)
    decreases high
  {
    if high > middle { RowsConcatenate(candidates, outcome, low, middle, high - 1); }
  }

  /** Newest first means by session, and within a session by run, as their identifiers sort. */
  lemma {:induction false} CursorsOrderBySession(a: Candidate, b: Candidate)
    requires |a.sessionID| == |b.sessionID|
    ensures Less(a.Cursor(), b.Cursor()) <==>
              Less(a.sessionID, b.sessionID) || (a.sessionID == b.sessionID && Less(a.runID, b.runID))
    decreases |a.sessionID|
  {
    var x, y := a.sessionID, b.sessionID;
    if x == "" {
      assert a.Cursor() == "/" + a.runID && b.Cursor() == "/" + b.runID;
      LessSamePrefix("/", a.runID, b.runID);
    } else {
      var c, d := Candidate(x[1..], a.runID), Candidate(y[1..], b.runID);
      assert a.Cursor()[1..] == c.Cursor() && b.Cursor()[1..] == d.Cursor();
      CursorsOrderBySession(c, d);
      assert x == [x[0]] + x[1..] && y == [y[0]] + y[1..];
    }
  }

  /** Candidates below n are exactly those past a cursor that names candidate n. */
  lemma {:induction false} SkipsToCursor<Row>(candidates: seq<Candidate>, outcome: Candidate -> Outcome<Row>,
                                              limit: int, m: nat, n: nat)
    requires Ascending(candidates) && m < n <= |candidates| && candidates[m].Cursor() != ""
    ensures Scan(candidates, outcome, candidates[m].Cursor(), limit, n, 0)
         == Scan(candidates, outcome, candidates[m].Cursor(), limit, m, 0)
    decreases n
  {
    LessIrreflexive(candidates[m].Cursor());
    if m < n - 1 {
      LessAsymmetric(candidates[m].Cursor(), candidates[n - 1].Cursor());
      SkipsToCursor(candidates, outcome, limit, m, n - 1);
    }
  }

  /** The candidates a scan of the first n goes through: those from the returned index up. */
  function StopsAt<Row>(candidates: seq<Candidate>, outcome: Candidate -> Outcome<Row>, limit: int, n: nat, taken: nat): (m: nat)
    requires n <= |candidates|
    ensures m <= n
    decreases n
  {
    if n == 0 then 0
    else if outcome(candidates[n - 1]).Listed? then
      if taken + 1 == limit then n - 1 else StopsAt(candidates, outcome, limit, n - 1, taken + 1)
    else StopsAt(candidates, outcome, limit, n - 1, taken)
  }

  ghost predicate AllPast(candidates: seq<Candidate>, cursor: string, n: nat)
    requires n <= |candidates|
  {
    forall i :: 0 <= i < n ==> PastCursor(candidates[i], cursor)
  }

  lemma {:induction false} ScanCovers<Row>(candidates: seq<Candidate>, outcome: Candidate -> Outcome<Row>, cursor: string,
                                           limit: int, n: nat, taken: nat)
    requires n <= |candidates| && AllPast(candidates, cursor, n)
    ensures var page, m := Scan(candidates, outcome, cursor, limit, n, taken), StopsAt(candidates, outcome, limit, n, taken);
            && page.runs == Rows(candidates, outcome, m, n)
            && |page.runs| + page.omitted == n - m
            && page.next == (if m > 0 then Some(candidates[m].Cursor()) else None)
            && (m > 0 ==> m < n)
    decreases n
  {
    if n > 0 {
      match outcome(candidates[n - 1])
      case Listed(row) =>
        if taken + 1 != limit {
          ScanCovers(candidates, outcome, cursor, limit, n - 1, taken + 1);
        } else {
          assert Rows(candidates, outcome, n - 1, n) == [row] + Rows(candidates, outcome, n - 1, n - 1);
        }
      case _ => ScanCovers(candidates, outcome, cursor, limit, n - 1, taken);
    }
  }

  /** A cancellation matters exactly when it is seen at a candidate that the page goes through. */
  lemma {:induction false} InterruptedMeans<Row>(context: Context, candidates: seq<Candidate>,
                                                 outcome: Candidate -> Outcome<Row>, cursor: string, limit: int,
                                                 n: nat, taken: nat)
    requires n <= |candidates| && AllPast(candidates, cursor, n)
    ensures Interrupted(context, candidates, outcome, cursor, limit, n, taken) <==>
              exists i :: StopsAt(candidates, outcome, limit, n, taken) <= i < n && SeenAt(context, outcome(candidates[i]), i)
    decreases n
  {
    if n > 0 {
      var stop := StopsAt(candidates, outcome, limit, n, taken);
      var listed := outcome(candidates[n - 1]).Listed?;
      if !listed || taken + 1 != limit {
        InterruptedMeans(context, candidates, outcome, cursor, limit, n - 1, if listed then taken + 1 else taken);
      }
      if SeenAt(context, outcome(candidates[n - 1]), n - 1) {
        assert stop <= n - 1;
      }
    }
  }

  predicate SeenAt<Row>(context: Context, outcome: Outcome<Row>, i: nat) {
    context.before(i) || ((outcome.Unresolved? || outcome.StatusUnread?) && context.during(i))
  }

  // ---------------------------------------------------------------- following the cursors

  /** The pages from the one that starts at the cursor; each enumerates candidates and diagnostics anew. */
  function Pages<Row>(candidates: seq<Candidate>, diagnostics: nat, outcome: Candidate -> Outcome<Row>, limit: int,
                      cursor: string, fuel: nat): seq<Page<Row>>
    decreases fuel
  {
    var page := PageOf(candidates, diagnostics, outcome, cursor, limit);
    [page]
    + if page.next.None? || fuel == 0 then []
      else Pages(candidates, diagnostics, outcome, limit, page.next.value, fuel - 1)
  }

  function AllRuns<Row>(pages: seq<Page<Row>>): seq<Row> {
    if pages == [] then [] else pages[0].runs + AllRuns(pages[1..])
  }

  function Counted<Row>(pages: seq<Page<Row>>): nat {
    if pages == [] then 0 else |pages[0].runs| + pages[0].omitted + Counted(pages[1..])
  }

  lemma CursorsAreNonempty(candidate: Candidate)
    ensures candidate.Cursor() != ""
  {
    assert candidate.Cursor()[|candidate.sessionID|] == '/';
  }

  /** A page that starts at the cursor of candidate n covers candidates below n. */
  lemma PageCovers<Row>(candidates: seq<Candidate>, diagnostics: nat, outcome: Candidate -> Outcome<Row>, limit: int,
                        cursor: string, n: nat)
    requires Ascending(candidates) && n <= |candidates|
    requires if cursor == "" then n == |candidates| else n < |candidates| && cursor == candidates[n].Cursor()
    ensures var page, scan := PageOf(candidates, diagnostics, outcome, cursor, limit),
                              Scan(candidates, outcome, cursor, limit, n, 0);
            page.runs == scan.runs && page.next == scan.next && page.omitted == scan.omitted + diagnostics
    ensures AllPast(candidates, cursor, n)
  {
    if cursor != "" { SkipsToCursor(candidates, outcome, limit, n, |candidates|); }
  }

  lemma {:induction false} PagesCover<Row>(candidates: seq<Candidate>, diagnostics: nat, outcome: Candidate -> Outcome<Row>,
                                           limit: int, cursor: string, n: nat, fuel: nat)
    requires Ascending(candidates) && n <= |candidates| && fuel >= n
    requires if cursor == "" then n == |candidates| else n < |candidates| && cursor == candidates[n].Cursor()
    ensures var pages := Pages(candidates, diagnostics, outcome, limit, cursor, fuel);
            && pages[|pages| - 1].next.None?
            && AllRuns(pages) == Rows(candidates, outcome, 0, n)
            && Counted(pages) == n + diagnostics * |pages|
    decreases n
  {
    var page := PageOf(candidates, diagnostics, outcome, cursor, limit);
    PageCovers(candidates, diagnostics, outcome, limit, cursor, n);
    ScanCovers(candidates, outcome, cursor, limit, n, 0);
    var m := StopsAt(candidates, outcome, limit, n, 0);
    var pages := Pages(candidates, diagnostics, outcome, limit, cursor, fuel);
    RowsConcatenate(candidates, outcome, 0, m, n);
    if m > 0 {
      CursorsAreNonempty(candidates[m]);
      PagesCover(candidates, diagnostics, outcome, limit, candidates[m].Cursor(), m, fuel - 1);
      var rest := Pages(candidates, diagnostics, outcome, limit, candidates[m].Cursor(), fuel - 1);
      assert pages[1..] == rest;
      OneMorePage(diagnostics, |rest|);
    } else {
      assert pages == [page] && pages[1..] == [];
      assert page.runs + [] == page.runs;
    }
  }

  lemma OneMorePage(diagnostics: nat, pages: nat)
    ensures diagnostics + diagnostics * pages == diagnostics * (pages + 1)
  {
  }

  /** Following next_cursor from the first page reaches a last page within as many pages as there
      are candidates and one; the pages together list every listable run exactly once, newest
      first; and what they list and omit adds up to the candidates, and to the diagnostics of the
      enumeration once for every page. */
  lemma FollowingCursorsListsAll<Row>(candidates: seq<Candidate>, diagnostics: nat, outcome: Candidate -> Outcome<Row>,
                                      limit: int)
    requires Ascending(candidates)
    ensures var pages := Pages(candidates, diagnostics, outcome, limit, "", |candidates|);
            && pages[|pages| - 1].next.None? && |pages| <= |candidates| + 1
            && AllRuns(pages) == Rows(candidates, outcome, 0, |candidates|)
            && Counted(pages) == |candidates| + diagnostics * |pages|
  {
    PagesCover(candidates, diagnostics, outcome, limit, "", |candidates|, |candidates|);
    PagesAreFew(candidates, diagnostics, outcome, limit, "", |candidates|);
  }

  lemma {:induction false} PagesAreFew<Row>(candidates: seq<Candidate>, diagnostics: nat, outcome: Candidate -> Outcome<Row>,
                                            limit: int, cursor: string, fuel: nat)
    ensures |Pages(candidates, diagnostics, outcome, limit, cursor, fuel)| <= fuel + 1
    decreases fuel
  {
    var page := PageOf(candidates, diagnostics, outcome, cursor, limit);
    if page.next.Some? && fuel > 0 { PagesAreFew(candidates, diagnostics, outcome, limit, page.next.value, fuel - 1); }
  }

  /** No page is longer than a positive limit. */
  lemma {:induction false} PageIsBounded<Row>(candidates: seq<Candidate>, outcome: Candidate -> Outcome<Row>, cursor: string,
                                              limit: int, n: nat, taken: nat)
    requires n <= |candidates| && taken < limit
    ensures |Scan(candidates, outcome, cursor, limit, n, taken).runs| <= limit - taken
    decreases n
  {
    if n > 0 {
      PageIsBounded(candidates, outcome, cursor, limit, n - 1, taken);
      if taken + 1 < limit { PageIsBounded(candidates, outcome, cursor, limit, n - 1, taken + 1); }
    }
  }

  // ---------------------------------------------------------------- errors that are only one error

  /** An error by identity: plain, wrapping at most one other, or joining several, some absent. */
  datatype Error = Plain(id: int) | Wraps(id: int, inner: Option<Error>) | Joins(id: int, children: Errors)

  datatype Errors = NoErrors | Child(error: Option<Error>, rest: Errors)

  /** Where the walk down an error stops: at the target, or at an error that wraps nothing more. */
  function Stops(error: Error, target: int): seq<bool>
    decreases error
  {
    if error.id == target then [true]
    else
      match error
      case Plain(_) => [false]
      case Wraps(_, inner) => if inner.Some? then Stops(inner.value, target) else [false]
      case Joins(_, children) => var stops := StopsOf(children, target); if stops == [] then [false] else stops
  }

  function StopsOf(children: Errors, target: int): seq<bool>
    decreases children
  {
    match children
    case NoErrors => []
    case Child(error, rest) => (if error.Some? then Stops(error.value, target) else []) + StopsOf(rest, target)
  }

  ghost predicate AllTrue(stops: seq<bool>) {
    forall i :: 0 <= i < |stops| ==> stops[i]
  }

  lemma AllTrueParts(a: seq<bool>, b: seq<bool>)
    ensures AllTrue(a + b) <==> AllTrue(a) && AllTrue(b)
  {
    if AllTrue(a + b) {
      assert forall i :: 0 <= i < |a| ==> a[i] == (a + b)[i];
      assert forall i :: 0 <= i < |b| ==> b[i] == (a + b)[|a| + i];
    }
  }

  lemma {:induction false} StopsSomewhere(error: Error, target: int)
    ensures Stops(error, target) != []
    decreases error
  {
    if error.id != target && error.Wraps? && error.inner.Some? { StopsSomewhere(error.inner.value, target); }
  }

  /** solelyWraps: every way down the error ends at the target. */
  method SolelyWraps(error: Option<Error>, target: int) returns (solely: bool)
    ensures solely <==> error.Some? && AllTrue(Stops(error.value, target))
    decreases error
  {
    var current := error;
    assert !AllTrue([false]) by { assert ![false][0]; }
    while current.Some?
      invariant error.None? ==> current.None?
      invariant error.Some? && current.Some? ==> Stops(error.value, target) == Stops(current.value, target)
      invariant error.Some? && current.None? ==> !AllTrue(Stops(error.value, target))
      invariant current == error || current.None? || current.value < error.value
      decreases current
    {
      if current.value.id == target { return true; }
      match current.value {
        case Plain(_) => return false;
        case Joins(_, children) =>
          solely := AllChildren(children, target);
          return;
        case Wraps(_, inner) =>
          current := inner;
      }
    }
    solely := false;
  }

  method AllChildren(children: Errors, target: int) returns (solely: bool)
    ensures solely <==> StopsOf(children, target) != [] && AllTrue(StopsOf(children, target))
    decreases children
  {
    var matched := false;
    var rest := children;
    ghost var passed: seq<bool> := [];
    while rest.Child?
      invariant StopsOf(children, target) == passed + StopsOf(rest, target)
      invariant AllTrue(passed) && (matched <==> passed != [])
      invariant rest == children || rest < children
      decreases rest
    {
      if rest.error.Some? {
        var child := SolelyWraps(rest.error, target);
        ghost var stops := Stops(rest.error.value, target);
        StopsSomewhere(rest.error.value, target);
        Associates(passed, stops, StopsOf(rest.rest, target));
        AllTrueParts(passed + stops, StopsOf(rest.rest, target));
        AllTrueParts(passed, stops);
        if !child { return false; }
        matched := true;
        passed := passed + stops;
      }
      rest := rest.rest;
    }
    assert passed + [] == passed;
    solely := matched;
  }
}
