/** The task repository contract shared by both backends: the filter, the
    pagination parameters and result, and the arithmetic of pages. */
module RepositoryContract {
  import opened Common
  import opened Text
  import opened ValueObjects
  import opened TaskEntity

  /** `TaskFilter`; `None` is an omitted field. */
  datatype TaskFilter = TaskFilter(
    status: Option<TaskStatus>,
    priority: Option<TaskPriority>,
    assigneeId: Option<string>,
    search: Option<string>)

  /** `PaginationParams`. */
  datatype PaginationParams = PaginationParams(page: nat, limit: nat)

  /** `PaginatedResult<T>`. */
  datatype PaginatedResult<T> = PaginatedResult(
    data: seq<T>,
    total: nat,
    page: nat,
    limit: nat,
    totalPages: nat)

  /** What callers guarantee (the HTTP query schema): page >= 1, limit >= 1. */
  predicate ValidPagination(p: PaginationParams) {
    p.page >= 1 && p.limit >= 1
  }

  /** JavaScript truthiness of an optional string: present and not "". */
  predicate Truthy(s: Option<string>) {
    s.Some? && s.value != ""
  }

  /** One condition a filter imposes. */
  datatype Criterion =
    | StatusIs(status: TaskStatus)
    | PriorityIs(priority: TaskPriority)
    | AssigneeIs(assignee: string)
    | SearchFor(text: string)

  /** The conditions a filter imposes, one per field that is present, in
      the order status, priority, assignee, search. */
  function Criteria(f: TaskFilter): (r: seq<Criterion>)
    ensures |r| <= 4
  {
    (if f.status.Some? then [StatusIs(f.status.value)] else [])
    + (if f.priority.Some? then [PriorityIs(f.priority.value)] else [])
    + (if Truthy(f.assigneeId) then [AssigneeIs(f.assigneeId.value)] else [])
    + (if Truthy(f.search) then [SearchFor(f.search.value)] else [])
  }

  /** The search test: a case-insensitive substring of title or description. */
  predicate SearchHits(t: TaskProps, q: string) {
    Contains(ToLower(t.title), ToLower(q)) || Contains(ToLower(t.description), ToLower(q))
  }

  /** What a condition means for one task. */
  predicate Holds(t: TaskProps, c: Criterion) {
    match c
    case StatusIs(s) => t.status == s
    case PriorityIs(p) => t.priority == p
    case AssigneeIs(a) => t.assigneeId == Some(a)
    case SearchFor(q) => SearchHits(t, q)
  }

  /** A task meets every condition of a list. */
  predicate HoldsAll(t: TaskProps, cs: seq<Criterion>) {
    forall c :: c in cs ==> Holds(t, c)
  }

  /** A task passes a filter when it meets every condition the filter
      imposes. */
  predicate Matches(t: TaskProps, f: TaskFilter) {
    HoldsAll(t, Criteria(f))
  }

  /** The filter field by field: an absent field, or an empty assignee or
      search string, imposes nothing; the rest are AND-combined. */
  lemma MatchesFieldByField(t: TaskProps, f: TaskFilter)
    ensures Matches(t, f) <==>
      && (f.status.Some? ==> t.status == f.status.value)
      && (f.priority.Some? ==> t.priority == f.priority.value)
      && (Truthy(f.assigneeId) ==> t.assigneeId == Some(f.assigneeId.value))
      && (Truthy(f.search) ==> SearchHits(t, f.search.value))
  {
    var c := Criteria(f);
    if f.status.Some? { assert StatusIs(f.status.value) in c; }
    if f.priority.Some? { assert PriorityIs(f.priority.value) in c; }
    if Truthy(f.assigneeId) { assert AssigneeIs(f.assigneeId.value) in c; }
    if Truthy(f.search) { assert SearchFor(f.search.value) in c; }
  }

  /** The search ignores case: two search strings that lower-case alike
      select the same tasks. */
  lemma SearchIgnoresCase(t: TaskProps, f: TaskFilter, q: string)
    requires Truthy(f.search) && ToLower(q) == ToLower(f.search.value)
    ensures Matches(t, f) <==> Matches(t, f.(search := Some(q)))
  {
    MatchesFieldByField(t, f);
    MatchesFieldByField(t, f.(search := Some(q)));
    assert q != "";
  }

  /** `(page - 1) * limit`: the items of the pages before `page`, so that
      the page itself ends at item `page * limit`. */
  function Offset(p: PaginationParams): (r: nat)
    requires p.page >= 1
    ensures r + p.limit == p.page * p.limit
  {
    (p.page - 1) * p.limit
  }

  /** `Math.ceil(total / limit)`: no more pages than items, and none
      exactly when there are no items. */
  function TotalPages(total: nat, limit: nat): (r: nat)
    requires limit >= 1
    ensures r <= total
    ensures r == 0 <==> total == 0
  {
    CeilingBounds(total, limit);
    (total + limit - 1) / limit
  }

  lemma CeilingBounds(total: nat, limit: nat)
    requires limit >= 1
    ensures (total + limit - 1) / limit <= total
    ensures (total + limit - 1) / limit == 0 <==> total == 0
  {
    var n := total + limit - 1;
    var q := n / limit;
    assert q * limit <= n && n - q * limit < limit;
    MulMonotone(1, limit, total);
    assert (total + 1) * limit == total * limit + limit;
    MulLess(q, total + 1, limit);
    if total == 0 {
      MulLess(q, 1, limit);
    }
  }

  /** TotalPages is the ceiling: the fewest pages of `limit` items that
      hold `total` items, and 0 when there is nothing. */
  lemma TotalPagesIsCeiling(total: nat, limit: nat)
    requires limit >= 1
    ensures TotalPages(total, limit) * limit >= total
    ensures TotalPages(total, limit) > 0 ==> (TotalPages(total, limit) - 1) * limit < total
    ensures TotalPages(total, limit) == 0 <==> total == 0
  {
    var n := total + limit - 1;
    var q := n / limit;
    assert n == q * limit + n % limit;
    assert 0 <= n % limit < limit;
  }

  /** `s.slice(offset, offset + limit)` for a non-negative offset. */
  function Window<T>(s: seq<T>, offset: nat, limit: nat): (r: seq<T>)
    ensures |r| == if offset >= |s| then 0 else Min(limit, |s| - offset)
    ensures offset < |s| ==> r == s[offset..offset + |r|]
  {
    if offset >= |s| then [] else s[offset..Min(offset + limit, |s|)]
  }

  /** A page holds items of the list, in the list's order. */
  lemma WindowIsPartOf<T>(s: seq<T>, offset: nat, limit: nat)
    ensures forall t :: t in Window(s, offset, limit) ==> t in s
  {
  }

  /** `n` pages hold all `total` items exactly when `n` is at least
      TotalPages. */
  lemma PagesSuffice(total: nat, limit: nat, n: nat)
    requires limit >= 1
    ensures n >= TotalPages(total, limit) <==> n * limit >= total
  {
    TotalPagesIsCeiling(total, limit);
    var tp := TotalPages(total, limit);
    if n >= tp {
      MulMonotone(tp, n, limit);
    } else {
      MulMonotone(n, tp - 1, limit);
    }
  }

  lemma MulLess(a: nat, b: nat, c: nat)
    requires a * c < b * c
    ensures a < b
  {
    if a >= b {
      MulMonotone(b, a, c);
    }
  }

  lemma MulMonotone(a: nat, b: nat, c: nat)
    requires a <= b
    ensures a * c <= b * c
  {
    assert b * c == a * c + (b - a) * c;
  }

  /** Every item of a result lies on exactly the page its position says,
      and that page is within `totalPages`. */
  lemma EveryItemIsOnItsPage<T>(s: seq<T>, limit: nat, k: nat)
    requires limit >= 1 && k < |s|
    ensures var p := PaginationParams(k / limit + 1, limit);
      && 1 <= p.page <= TotalPages(|s|, limit)
      && Offset(p) <= k < Offset(p) + limit
      && Window(s, Offset(p), limit)[k - Offset(p)] == s[k]
  {
    var q := k / limit;
    assert k == q * limit + k % limit;
    assert 0 <= k % limit < limit;
    PagesSuffice(|s|, limit, q);
  }

  /** A page past the last one is empty, not an error; a page up to the
      last one is not empty. */
  lemma PagePastEndIsEmpty<T>(s: seq<T>, p: PaginationParams)
    requires ValidPagination(p)
    ensures p.page > TotalPages(|s|, p.limit) <==> Window(s, Offset(p), p.limit) == []
  {
    PagesSuffice(|s|, p.limit, p.page - 1);
  }

  /** The figures of the paging tests: 25 matches, 10 per page. */
  lemma PagingExample(s: seq<int>)
    requires |s| == 25
    ensures TotalPages(|s|, 10) == 3
    ensures |Window(s, Offset(PaginationParams(3, 10)), 10)| == 5
    ensures Window(s, Offset(PaginationParams(4, 10)), 10) == []
  {
  }
}
