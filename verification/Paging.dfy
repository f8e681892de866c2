/** Keyset pagination: `ListTaskPage` and its cursors in server/internal/boards/store.go.

    `OrderBy` is the ORDER BY clause of each of the six orderings, read as a list of columns with
    directions. `AfterCursor` is the nested-OR predicate the source appends for the same ordering.
    They are written independently and proved to agree. */
module Paging {
  import opened Basics
  import opened Boards
  import opened Enumeration

  /** A task joined with its list. The matching rows of a filter are a set of these. */
  datatype Row = Row(
    id: nat, createdAt: int, updatedAt: int, priority: Priority,
    listId: nat, listOrder: int, listCreatedAt: int)

  datatype Ordering = AgentQueue | ByPriority | ByList | ByListPriority | CompletedHistory | NewestFirst

  const MIN_POSTGRES_INTEGER: int := -0x8000_0000
  const MAX_POSTGRES_INTEGER: int := 0x7fff_ffff

  function Rank(priority: Priority): nat {
    match priority
    case P0 => 0
    case P1 => 1
    case P2 => 2
    case P3 => 3
    case NoPriority => 4
  }

  // ---------------------------------------------------------------- the order

  datatype Column = RankOf | CreatedAt | UpdatedAt | TaskId | ListOrder | ListCreatedAt | ListId

  datatype Term = Asc(column: Column) | Desc(column: Column)

  function OrderBy(ordering: Ordering): seq<Term> {
    match ordering
    case AgentQueue => [Asc(RankOf), Asc(CreatedAt), Asc(TaskId)]
    case ByPriority => [Asc(RankOf), Desc(CreatedAt), Desc(TaskId)]
    case ByList => [Asc(ListOrder), Asc(ListCreatedAt), Asc(ListId), Desc(CreatedAt), Desc(TaskId)]
    case ByListPriority => [Asc(ListOrder), Asc(ListCreatedAt), Asc(ListId), Asc(RankOf), Desc(CreatedAt), Desc(TaskId)]
    case CompletedHistory => [Desc(UpdatedAt), Desc(TaskId)]
    case NewestFirst => [Desc(CreatedAt), Desc(TaskId)]
  }

  function Value(row: Row, column: Column): int {
    match column
    case RankOf => Rank(row.priority)
    case CreatedAt => row.createdAt
    case UpdatedAt => row.updatedAt
    case TaskId => row.id
    case ListOrder => row.listOrder
    case ListCreatedAt => row.listCreatedAt
    case ListId => row.listId
  }

  /** How far `b` lies beyond `a` in one column. */
  function Beyond(term: Term, a: Row, b: Row): int {
    match term
    case Asc(column) => Value(b, column) - Value(a, column)
    case Desc(column) => Value(a, column) - Value(b, column)
  }

  /** Lexicographic order: the first column in which the rows differ decides. */
  predicate Precedes(terms: seq<Term>, a: Row, b: Row) {
    terms != [] && (Beyond(terms[0], a, b) > 0 || (Beyond(terms[0], a, b) == 0 && Precedes(terms[1..], a, b)))
  }

  lemma PrecedesIrreflexive(terms: seq<Term>, a: Row)
    ensures !Precedes(terms, a, a)
  {
  }

  lemma PrecedesTransitive(terms: seq<Term>, a: Row, b: Row, c: Row)
    requires Precedes(terms, a, b) && Precedes(terms, b, c)
    ensures Precedes(terms, a, c)
  {
  }

  lemma PrecedesTotal(terms: seq<Term>, a: Row, b: Row)
    ensures Precedes(terms, a, b) || Precedes(terms, b, a) || forall i :: 0 <= i < |terms| ==> Beyond(terms[i], a, b) == 0
  {
    if terms == [] || Beyond(terms[0], a, b) != 0 {
    } else {
      PrecedesTotal(terms[1..], a, b);
    }
  }

  // ---------------------------------------------------------------- cursors

  datatype Cursor =
    | QueueCursor(rank: int, createdAt: int, id: nat, scope: string)
    | WorkspaceCursor(rank: int, listOrder: int, listCreatedAt: int, listId: nat, createdAt: int, id: nat, scope: string)
    | HistoryCursor(updatedAt: int, id: nat, scope: string)

  /** The cursor that names a page's last task. The default ordering reuses the history cursor
      with the creation time in its time field. */
  function Encode(ordering: Ordering, last: Row, scope: string): Cursor {
    match ordering
    case AgentQueue => QueueCursor(Rank(last.priority), last.createdAt, last.id, scope)
    case ByPriority => WorkspaceCursor(Rank(last.priority), 0, 0, 0, last.createdAt, last.id, scope)
    case ByList => WorkspaceCursor(0, last.listOrder, last.listCreatedAt, last.listId, last.createdAt, last.id, scope)
    case ByListPriority =>
      WorkspaceCursor(Rank(last.priority), last.listOrder, last.listCreatedAt, last.listId, last.createdAt, last.id, scope)
    case CompletedHistory => HistoryCursor(last.updatedAt, last.id, scope)
    case NewestFirst => HistoryCursor(last.createdAt, last.id, scope)
  }

  /** Which cursors a page request accepts. */
  predicate Accepts(ordering: Ordering, cursor: Cursor, scope: string) {
    && cursor.scope == scope
    && match ordering
       case AgentQueue => cursor.QueueCursor? && 0 <= cursor.rank <= 4
       case ByPriority => cursor.WorkspaceCursor? && 0 <= cursor.rank <= 4
       case ByList => cursor.WorkspaceCursor? && MIN_POSTGRES_INTEGER <= cursor.listOrder <= MAX_POSTGRES_INTEGER
       case ByListPriority =>
         cursor.WorkspaceCursor? && 0 <= cursor.rank <= 4 && MIN_POSTGRES_INTEGER <= cursor.listOrder <= MAX_POSTGRES_INTEGER
       case CompletedHistory => cursor.HistoryCursor?
       case NewestFirst => cursor.HistoryCursor?
  }

  /** The condition a page request adds for its cursor. */
  predicate AfterCursor(ordering: Ordering, c: Cursor, scope: string, t: Row)
    requires Accepts(ordering, c, scope)
  {
    var rank := Rank(t.priority);
    match ordering
    case AgentQueue =>
      rank > c.rank || (rank == c.rank && (t.createdAt > c.createdAt || (t.createdAt == c.createdAt && t.id > c.id)))
    case ByPriority =>
      rank > c.rank || (rank == c.rank && (t.createdAt < c.createdAt || (t.createdAt == c.createdAt && t.id < c.id)))
    case ByList =>
      t.listOrder > c.listOrder || (t.listOrder == c.listOrder &&
        (t.listCreatedAt > c.listCreatedAt || (t.listCreatedAt == c.listCreatedAt &&
          (t.listId > c.listId || (t.listId == c.listId &&
            (t.createdAt < c.createdAt || (t.createdAt == c.createdAt && t.id < c.id)))))))
    case ByListPriority =>
      t.listOrder > c.listOrder || (t.listOrder == c.listOrder &&
        (t.listCreatedAt > c.listCreatedAt || (t.listCreatedAt == c.listCreatedAt &&
          (t.listId > c.listId || (t.listId == c.listId &&
            (rank > c.rank || (rank == c.rank &&
              (t.createdAt < c.createdAt || (t.createdAt == c.createdAt && t.id < c.id)))))))))
    case CompletedHistory =>
      t.updatedAt < c.updatedAt || (t.updatedAt == c.updatedAt && t.id < c.id)
    case NewestFirst =>
      t.createdAt < c.updatedAt || (t.createdAt == c.updatedAt && t.id < c.id)
  }

  ghost predicate StorableRow(row: Row) {
    MIN_POSTGRES_INTEGER <= row.listOrder <= MAX_POSTGRES_INTEGER
  }

  /** Each nested-OR predicate is "strictly after the cursor's task" in the ordering it serves. */
  lemma {:induction false} AfterCursorIsPrecedes(ordering: Ordering, last: Row, scope: string, row: Row)
    requires StorableRow(last)
    ensures Accepts(ordering, Encode(ordering, last, scope), scope)
    ensures AfterCursor(ordering, Encode(ordering, last, scope), scope, row) <==> Precedes(OrderBy(ordering), last, row)
  {
    var terms := OrderBy(ordering);
    UnfoldPrecedes(terms, last, row);
    UnfoldPrecedes(terms[1..], last, row);
    UnfoldPrecedes(terms[2..], last, row);
    if |terms| > 3 {
      UnfoldPrecedes(terms[3..], last, row);
      UnfoldPrecedes(terms[4..], last, row);
      if |terms| > 5 {
        UnfoldPrecedes(terms[5..], last, row);
        UnfoldPrecedes(terms[6..], last, row);
      } else {
        UnfoldPrecedes(terms[5..], last, row);
      }
    } else if |terms| == 3 {
      UnfoldPrecedes(terms[3..], last, row);
    }
  }

  lemma {:induction false} UnfoldPrecedes(terms: seq<Term>, a: Row, b: Row)
    ensures terms == [] ==> !Precedes(terms, a, b)
    ensures terms != [] ==>
      && (Precedes(terms, a, b) <==> Beyond(terms[0], a, b) > 0 || (Beyond(terms[0], a, b) == 0 && Precedes(terms[1..], a, b)))
      && forall i :: 0 <= i < |terms| - 1 ==> terms[1..][i] == terms[i + 1]
  {
  }

  // ---------------------------------------------------------------- what each ordering promises

  const URGENCY := [P0, P1, P2, P3, NoPriority]

  ghost predicate AsUrgent(one: Priority, two: Priority) {
    forall u, v | 0 <= u < 5 && 0 <= v < 5 && URGENCY[u] == one && URGENCY[v] == two :: u <= v
  }

  ghost predicate Newer(a: Row, b: Row) {
    a.createdAt >= b.createdAt && (a.createdAt == b.createdAt ==> a.id > b.id)
  }

  ghost predicate Older(a: Row, b: Row) {
    a.createdAt <= b.createdAt && (a.createdAt == b.createdAt ==> a.id < b.id)
  }

  /** The list of `a` comes first, or they are in one list. */
  ghost predicate ListFirst(a: Row, b: Row) {
    a.listOrder <= b.listOrder && (a.listOrder == b.listOrder ==>
      a.listCreatedAt <= b.listCreatedAt && (a.listCreatedAt == b.listCreatedAt ==> a.listId <= b.listId))
  }

  predicate SameList(a: Row, b: Row) {
    a.listOrder == b.listOrder && a.listCreatedAt == b.listCreatedAt && a.listId == b.listId
  }

  /** An agent's queue is by urgency and then first come, first served; people see the newest first, within the
      urgency, the list or both they sort by; history is by the last change. */
  ghost predicate InOrder(ordering: Ordering, a: Row, b: Row) {
    match ordering
    case AgentQueue => AsUrgent(a.priority, b.priority) && (a.priority == b.priority ==> Older(a, b))
    case ByPriority => AsUrgent(a.priority, b.priority) && (a.priority == b.priority ==> Newer(a, b))
    case ByList => ListFirst(a, b) && (SameList(a, b) ==> Newer(a, b))
    case ByListPriority =>
      ListFirst(a, b) && (SameList(a, b) ==> AsUrgent(a.priority, b.priority) && (a.priority == b.priority ==> Newer(a, b)))
    case CompletedHistory => a.updatedAt >= b.updatedAt && (a.updatedAt == b.updatedAt ==> a.id > b.id)
    case NewestFirst => Newer(a, b)
  }

  lemma {:induction false} RankIsUrgency(one: Priority, two: Priority)
    ensures Rank(one) <= Rank(two) <==> AsUrgent(one, two)
    ensures Rank(one) == Rank(two) <==> one == two
  {
    assert forall p :: Rank(p) < 5 && URGENCY[Rank(p)] == p;
  }

  lemma {:induction false} PrecedesInOrder(ordering: Ordering, a: Row, b: Row)
    requires Precedes(OrderBy(ordering), a, b)
    ensures InOrder(ordering, a, b)
  {
    hide Rank, AsUrgent;
    RankIsUrgency(a.priority, b.priority);
    var terms := OrderBy(ordering);
    UnfoldPrecedes(terms, a, b);
    UnfoldPrecedes(terms[1..], a, b);
    UnfoldPrecedes(terms[2..], a, b);
    if |terms| > 2 {
      UnfoldPrecedes(terms[3..], a, b);
      if |terms| > 3 {
        UnfoldPrecedes(terms[4..], a, b);
        UnfoldPrecedes(terms[5..], a, b);
        if |terms| > 5 {
          UnfoldPrecedes(terms[6..], a, b);
        }
      }
    }
  }

  // ---------------------------------------------------------------- the sorted listing

  ghost predicate DistinctIds(rows: set<Row>) {
    forall a, b :: a in rows && b in rows && a.id == b.id ==> a == b
  }

  function Less(ordering: Ordering): (Row, Row) -> bool {
    (a, b) => Precedes(OrderBy(ordering), a, b)
  }

  /** Every ordering ends in the task's identity, so it tells any two tasks apart. */
  lemma {:induction false} OrderingTotal(ordering: Ordering, rows: set<Row>)
    requires DistinctIds(rows)
    ensures TotalOn(Less(ordering), rows)
  {
    var terms := OrderBy(ordering);
    forall a, b, c | a in rows && b in rows && c in rows
      ensures !Precedes(terms, a, a)
      ensures a != b ==> Precedes(terms, a, b) || Precedes(terms, b, a)
      ensures Precedes(terms, a, b) && Precedes(terms, b, c) ==> Precedes(terms, a, c)
    {
      PrecedesIrreflexive(terms, a);
      PrecedesTotal(terms, a, b);
      assert a != b ==> Beyond(terms[|terms| - 1], a, b) != 0;
      if Precedes(terms, a, b) && Precedes(terms, b, c) {
        PrecedesTransitive(terms, a, b, c);
      }
    }
  }

  /** The matching rows in the requested order. */
  ghost function Sorted(ordering: Ordering, rows: set<Row>): seq<Row>
    requires DistinctIds(rows)
  {
    OrderingTotal(ordering, rows);
    Listing(Less(ordering), rows)
  }

  // ---------------------------------------------------------------- pages

  datatype Page = Page(tasks: seq<Row>, next: Option<Cursor>)

  const DEFAULT_COMPLETED_HISTORY_LIMIT := 20
  const MAX_COMPLETED_HISTORY_LIMIT := 100

  /** The page size a request gets for the limit it asks for. `completed` says that the filter
      asks for done tasks, whatever the ordering. */
  function PageLimit(asked: int, completed: bool): (limit: nat)
    ensures limit >= 1
    ensures limit == asked <==> 1 <= asked <= if completed then 100 else 200
    ensures asked < 1 ==> limit == if completed then 20 else 100
    ensures limit != asked && asked >= 1 ==> limit == 100
  {
    if completed then
      if asked <= 0 then DEFAULT_COMPLETED_HISTORY_LIMIT
      else if asked > MAX_COMPLETED_HISTORY_LIMIT then MAX_COMPLETED_HISTORY_LIMIT
      else asked
    else if asked <= 0 || asked > 200 then 100
    else asked
  }

  /** The matching rows a request may return. */
  ghost function Candidates(ordering: Ordering, rows: set<Row>, cursor: Option<Cursor>, scope: string): set<Row>
    requires cursor.Some? ==> Accepts(ordering, cursor.value, scope)
  {
    set row | row in rows && (cursor.None? || AfterCursor(ordering, cursor.value, scope, row))
  }

  ghost function ListTaskPage(ordering: Ordering, rows: set<Row>, cursor: Option<Cursor>, scope: string, limit: nat): (r: Result<Page, string>)
    requires DistinctIds(rows) && limit >= 1
    ensures r.Err? <==> cursor.Some? && !Accepts(ordering, cursor.value, scope)
    ensures r.Ok? ==> |r.value.tasks| <= limit
  {
    if cursor.Some? && !Accepts(ordering, cursor.value, scope) then Err("invalid cursor")
    else Ok(PageOf(ordering, Sorted(ordering, Candidates(ordering, rows, cursor, scope)), scope, limit))
  }

  /** One row more than the page is fetched to learn whether anything is left. */
  function PageOf(ordering: Ordering, found: seq<Row>, scope: string, limit: nat): (page: Page)
    requires limit >= 1
    ensures page.tasks == (if limit < |found| then found[..limit] else found)
    ensures page.next == (if limit < |found| then Some(Encode(ordering, found[limit - 1], scope)) else None)
  {
    var fetched := if |found| > limit + 1 then found[..limit + 1] else found;
    if |fetched| > limit then Page(fetched[..limit], Some(Encode(ordering, fetched[limit - 1], scope)))
    else Page(fetched, None)
  }

  /** The rows after the `k`-th of a listing are exactly the candidates for its cursor. */
  lemma {:induction false} CandidatesAfter(ordering: Ordering, rows: set<Row>, listing: seq<Row>, k: nat, scope: string)
    requires DistinctIds(rows) && forall row :: row in rows ==> StorableRow(row)
    requires listing == Sorted(ordering, rows) && k < |listing|
    ensures Accepts(ordering, Encode(ordering, listing[k], scope), scope)
    ensures var candidates := Candidates(ordering, rows, Some(Encode(ordering, listing[k], scope)), scope);
            DistinctIds(candidates) && Sorted(ordering, candidates) == listing[k + 1..]
  {
    var less, last := Less(ordering), listing[k];
    OrderingTotal(ordering, rows);
    ListingAscends(less, rows);
    assert last in Elements(listing);
    var cursor := Encode(ordering, last, scope);
    AfterCursorIsPrecedes(ordering, last, scope, last);
    var candidates := Candidates(ordering, rows, Some(cursor), scope);
    assert candidates == After(less, rows, last) by {
      forall row | row in rows
        ensures AfterCursor(ordering, cursor, scope, row) <==> less(last, row)
      {
        AfterCursorIsPrecedes(ordering, last, scope, row);
      }
    }
    AfterIsTail(less, listing, k);
    OrderingTotal(ordering, candidates);
    ListingUnique(less, candidates, listing[k + 1..]);
  }

  /** The request that asks for what follows the first `from` tasks of a listing. */
  function Resume(ordering: Ordering, listing: seq<Row>, scope: string, from: nat): Option<Cursor>
    requires from <= |listing|
  {
    if from == 0 then None else Some(Encode(ordering, listing[from - 1], scope))
  }

  lemma {:induction false} ResumeCandidates(ordering: Ordering, rows: set<Row>, listing: seq<Row>, scope: string, from: nat)
    requires DistinctIds(rows) && forall row :: row in rows ==> StorableRow(row)
    requires listing == Sorted(ordering, rows) && from <= |listing|
    ensures var cursor := Resume(ordering, listing, scope, from);
            && (cursor.Some? ==> Accepts(ordering, cursor.value, scope))
            && DistinctIds(Candidates(ordering, rows, cursor, scope))
            && Sorted(ordering, Candidates(ordering, rows, cursor, scope)) == listing[from..]
  {
    if from == 0 {
      assert Candidates(ordering, rows, None, scope) == rows;
      assert listing[0..] == listing;
    } else {
      CandidatesAfter(ordering, rows, listing, from - 1, scope);
    }
  }

  /** One page, requested with the cursor of the `from`-th task, is the next stretch of the
      listing; it carries a cursor exactly when something is left, and that cursor is the one
      that asks for what follows. */
  lemma {:induction false} PageFrom(ordering: Ordering, rows: set<Row>, listing: seq<Row>, scope: string, from: nat, limit: nat)
    returns (page: Page)
    requires DistinctIds(rows) && forall row :: row in rows ==> StorableRow(row)
    requires listing == Sorted(ordering, rows)
    requires from <= |listing| && limit >= 1
    ensures ListTaskPage(ordering, rows, Resume(ordering, listing, scope, from), scope, limit) == Ok(page)
    ensures page.tasks == (if from + limit < |listing| then listing[from..from + limit] else listing[from..])
    ensures page.next == (if from + limit < |listing| then Resume(ordering, listing, scope, from + limit) else None)
  {
    ResumeCandidates(ordering, rows, listing, scope, from);
    var rest := listing[from..];
    page := PageOf(ordering, rest, scope, limit);
    if from + limit < |listing| {
      assert rest[..limit] == listing[from..from + limit];
      assert rest[limit - 1] == listing[from + limit - 1];
    }
  }

  // ---------------------------------------------------------------- following cursors

  /** What a client sees: the first page, and then each page asked for with the cursor of the one before.
      The limit may differ from page to page. */
  ghost predicate Chain(ordering: Ordering, rows: set<Row>, scope: string, pages: seq<Page>, limits: seq<nat>)
    requires DistinctIds(rows)
    decreases |pages|
  {
    && 0 < |pages| == |limits|
    && var n := |pages| - 1;
    && limits[n] >= 1
    && (n > 0 ==> Chain(ordering, rows, scope, pages[..n], limits[..n]) && pages[n - 1].next.Some?)
    && ListTaskPage(ordering, rows, if n == 0 then None else pages[n - 1].next, scope, limits[n]) == Ok(pages[n])
  }

  /** The tasks of some pages, one after the other. */
  function Collected(pages: seq<Page>): seq<Row> {
    if pages == [] then [] else Collected(pages[..|pages| - 1]) + pages[|pages| - 1].tasks
  }

  /** However far a client has followed cursors, it has the beginning of the listing, and the last cursor
      asks for exactly the rest. */
  lemma {:induction false} ChainIsPrefix(ordering: Ordering, rows: set<Row>, listing: seq<Row>, scope: string, pages: seq<Page>, limits: seq<nat>)
    requires DistinctIds(rows) && forall row :: row in rows ==> StorableRow(row)
    requires listing == Sorted(ordering, rows) && Chain(ordering, rows, scope, pages, limits)
    ensures var got := Collected(pages);
            && |got| <= |listing| && got == listing[..|got|]
            && pages[|pages| - 1].next == (if |got| < |listing| then Resume(ordering, listing, scope, |got|) else None)
            && (|pages| == 1 || |pages| <= |got|)
    decreases |pages|
  {
    hide ListTaskPage, Sorted, Encode, Resume, StorableRow, DistinctIds;
    var n := |pages| - 1;
    assert Resume(ordering, listing, scope, 0) == None by {
      ResumeNothing(ordering, listing, scope);
    }
    if n == 0 {
      var page := PageFrom(ordering, rows, listing, scope, 0, limits[0]);
      assert page == pages[0] && Collected(pages[..0]) == [];
      assert Collected(pages) == page.tasks;
    } else {
      ChainIsPrefix(ordering, rows, listing, scope, pages[..n], limits[..n]);
      var before := Collected(pages[..n]);
      var page := PageFrom(ordering, rows, listing, scope, |before|, limits[n]);
      assert page == pages[n];
      Stretch(listing, |before|, limits[n], page.tasks);
    }
  }

  lemma {:induction false} ResumeNothing(ordering: Ordering, listing: seq<Row>, scope: string)
    ensures Resume(ordering, listing, scope, 0) == None
  {
  }

  lemma {:induction false} Stretch(listing: seq<Row>, from: nat, limit: nat, tasks: seq<Row>)
    requires from < |listing| && limit >= 1
    requires tasks == if from + limit < |listing| then listing[from..from + limit] else listing[from..]
    ensures |tasks| >= 1 && from + |tasks| <= |listing| && listing[..from] + tasks == listing[..from + |tasks|]
    ensures from + |tasks| == if from + limit < |listing| then from + limit else |listing|
  {
  }

  /** Over an unchanged account, a client that follows cursors until there is none has received every
      matching task exactly once, in the requested order: for every ordering and any page limits. */
  lemma {:induction false} FollowedToTheEnd(ordering: Ordering, rows: set<Row>, scope: string, pages: seq<Page>, limits: seq<nat>)
    requires DistinctIds(rows) && forall row :: row in rows ==> StorableRow(row)
    requires Chain(ordering, rows, scope, pages, limits) && pages[|pages| - 1].next.None?
    ensures Collected(pages) == Sorted(ordering, rows)
    ensures Elements(Collected(pages)) == rows && Distinct(Collected(pages))
    ensures forall i, j :: 0 <= i < j < |Collected(pages)| ==> InOrder(ordering, Collected(pages)[i], Collected(pages)[j])
  {
    hide InOrder;
    var listing := Sorted(ordering, rows);
    assert Collected(pages) == listing by {
      hide Chain, Sorted, Encode;
      ChainIsPrefix(ordering, rows, listing, scope, pages, limits);
      assert listing[..|listing|] == listing;
    }
    OrderingTotal(ordering, rows);
    ListingAscends(Less(ordering), rows);
    AscendingDistinct(Less(ordering), listing);
    forall i, j | 0 <= i < j < |listing|
      ensures InOrder(ordering, listing[i], listing[j])
    {
      assert Less(ordering)(listing[i], listing[j]);
      PrecedesInOrder(ordering, listing[i], listing[j]);
    }
  }

  /** It cannot go on for ever, and it never gets stuck: there are no more pages than matching tasks, or
      one, and every cursor it is given is accepted with any limit. */
  lemma {:induction false} FollowingStops(ordering: Ordering, rows: set<Row>, scope: string, pages: seq<Page>, limits: seq<nat>, limit: nat)
    requires DistinctIds(rows) && forall row :: row in rows ==> StorableRow(row)
    requires Chain(ordering, rows, scope, pages, limits) && limit >= 1
    ensures |pages| == 1 || |pages| <= |rows|
    ensures pages[|pages| - 1].next.Some? ==> ListTaskPage(ordering, rows, pages[|pages| - 1].next, scope, limit).Ok?
  {
    var listing := Sorted(ordering, rows);
    assert |listing| == |rows| by {
      OrderingTotal(ordering, rows);
      ListingAscends(Less(ordering), rows);
      AscendingDistinct(Less(ordering), listing);
      DistinctCardinality(listing);
    }
    hide Chain, Sorted, Encode, ListTaskPage;
    ChainIsPrefix(ordering, rows, listing, scope, pages, limits);
    if pages[|pages| - 1].next.Some? {
      var _ := PageFrom(ordering, rows, listing, scope, |Collected(pages)|, limit);
    }
  }

  /** A client that asks with whatever limits it likes gets to the end. */
  lemma {:induction false} FollowCursors(ordering: Ordering, rows: set<Row>, scope: string, asked: nat -> int, completed: bool)
    returns (pages: seq<Page>, limits: seq<nat>)
    requires DistinctIds(rows) && forall row :: row in rows ==> StorableRow(row)
    ensures Chain(ordering, rows, scope, pages, limits) && pages[|pages| - 1].next.None?
    ensures forall i :: 0 <= i < |limits| ==> limits[i] == PageLimit(asked(i), completed)
  {
    hide Sorted, Encode, ListTaskPage;
    var listing := Sorted(ordering, rows);
    limits := [PageLimit(asked(0), completed)];
    var first := PageFrom(ordering, rows, listing, scope, 0, limits[0]);
    pages := [first];
    assert pages[..0] == [] && Resume(ordering, listing, scope, 0) == None;
    while pages[|pages| - 1].next.Some?
      invariant Chain(ordering, rows, scope, pages, limits)
      invariant forall i :: 0 <= i < |limits| ==> limits[i] == PageLimit(asked(i), completed)
      decreases |rows| + 1 - |pages|
    {
      var limit := PageLimit(asked(|pages|), completed);
      FollowingStops(ordering, rows, scope, pages, limits, limit);
      var next := ListTaskPage(ordering, rows, pages[|pages| - 1].next, scope, limit).value;
      ChainNext(ordering, rows, scope, pages, limits, next, limit);
      pages, limits := pages + [next], limits + [limit];
      FollowingStops(ordering, rows, scope, pages, limits, 1);
    }
  }

  lemma {:induction false} ChainNext(ordering: Ordering, rows: set<Row>, scope: string, pages: seq<Page>, limits: seq<nat>, page: Page, limit: nat)
    requires DistinctIds(rows) && Chain(ordering, rows, scope, pages, limits) && limit >= 1 && pages[|pages| - 1].next.Some?
    requires ListTaskPage(ordering, rows, pages[|pages| - 1].next, scope, limit) == Ok(page)
    ensures Chain(ordering, rows, scope, pages + [page], limits + [limit])
  {
    hide ListTaskPage;
    assert (pages + [page])[..|pages|] == pages && (limits + [limit])[..|limits|] == limits;
  }
}
