/** `InMemoryTaskRepository`: a `Map` from id to task, kept here as a
    mapping plus the order in which ids were first inserted (the iteration
    order of a JavaScript `Map`). */
module InMemoryTasks {
  import opened Common
  import opened ValueObjects
  import opened TaskEntity
  import opened RepositoryContract

  /** One stage of `findAll`: `tasks.filter(...)` with one condition. */
  function Keep(s: seq<TaskProps>, c: Criterion): (r: seq<TaskProps>)
    ensures |r| <= |s|
  {
    if s == [] then []
    else (if Holds(s[0], c) then [s[0]] else []) + Keep(s[1..], c)
  }

  /** The reference filter: one pass keeping, in order, the tasks that meet
      every condition of `cs`. */
  function Matching(s: seq<TaskProps>, cs: seq<Criterion>): (r: seq<TaskProps>)
    ensures |r| <= |s|
  {
    if s == [] then []
    else (if HoldsAll(s[0], cs) then [s[0]] else []) + Matching(s[1..], cs)
  }

  /** The filter keeps exactly the tasks that meet every condition. */
  lemma {:induction false} MatchingMembers(s: seq<TaskProps>, cs: seq<Criterion>, t: TaskProps)
    ensures t in Matching(s, cs) <==> t in s && HoldsAll(t, cs)
  {
    if s != [] {
      MatchingMembers(s[1..], cs, t);
      assert s == [s[0]] + s[1..];
    }
  }

  /** With no condition applied yet, nothing is dropped. */
  lemma {:induction false} MatchingNothing(s: seq<TaskProps>)
    ensures Matching(s, []) == s
  {
    if s != [] {
      MatchingNothing(s[1..]);
      assert HoldsAll(s[0], []);
    }
  }

  /** When no task meets the conditions, nothing is kept. */
  lemma {:induction false} MatchingNone(s: seq<TaskProps>, cs: seq<Criterion>)
    requires forall t :: t in s ==> !HoldsAll(t, cs)
    ensures Matching(s, cs) == []
  {
    if s != [] {
      assert s[0] in s;
      MatchingNone(s[1..], cs);
    }
  }


  /** One condition more: the test of a task under `cs + [c]`. */
  lemma HoldsAllSnoc(t: TaskProps, cs: seq<Criterion>, c: Criterion)
    ensures HoldsAll(t, cs + [c]) <==> HoldsAll(t, cs) && Holds(t, c)
  {
    assert forall d :: d in cs + [c] <==> d in cs || d == c;
  }

  /** Filtering in stages is filtering once by all the stages' conditions:
      one more stage adds one more condition, order kept. */
  lemma {:induction false} KeepAfterMatching(s: seq<TaskProps>, cs: seq<Criterion>, c: Criterion)
    ensures Keep(Matching(s, cs), c) == Matching(s, cs + [c])
  {
    if s != [] {
      KeepAfterMatching(s[1..], cs, c);
      HoldsAllSnoc(s[0], cs, c);
      var m := Matching(s, cs);
      if HoldsAll(s[0], cs) {
        assert m[0] == s[0] && m[1..] == Matching(s[1..], cs);
      } else {
        assert m == Matching(s[1..], cs);
      }
    }
  }

  /** The ids of `ids` whose task meets every condition of `cs`. */
  ghost function MatchingIds(ids: seq<string>, m: map<string, TaskProps>, cs: seq<Criterion>): set<string> {
    set id | id in ids && id in m && HoldsAll(m[id], cs)
  }

  /** Over distinct ids the filter keeps one task per matching id. */
  lemma {:induction false} MatchingCount(ids: seq<string>, m: map<string, TaskProps>, cs: seq<Criterion>)
    requires NoDuplicates(ids) && forall i :: 0 <= i < |ids| ==> ids[i] in m
    ensures |Matching(ValuesInOrder(ids, m), cs)| == |MatchingIds(ids, m, cs)|
  {
    if ids != [] {
      var id, rest := ids[0], ids[1..];
      assert NoDuplicates(rest);
      MatchingCount(rest, m, cs);
      var vs := ValuesInOrder(ids, m);
      assert vs[0] == m[id] && vs[1..] == ValuesInOrder(rest, m);
      assert id !in rest;
      assert id !in MatchingIds(rest, m, cs);
      if HoldsAll(m[id], cs) {
        assert MatchingIds(ids, m, cs) == {id} + MatchingIds(rest, m, cs);
      } else {
        assert MatchingIds(ids, m, cs) == MatchingIds(rest, m, cs);
      }
    }
  }

  /** Ordered by createdAt, newest first. */
  predicate Descending(s: seq<TaskProps>) {
    forall i, j :: 0 <= i < j < |s| ==> s[i].createdAt >= s[j].createdAt
  }

  /** No task of `s` was created after `b`. */
  predicate NotAfter(s: seq<TaskProps>, b: nat) {
    forall i :: 0 <= i < |s| ==> s[i].createdAt <= b
  }

  /** Places `x` before the first task that is not newer than it. */
  function InsertByCreated(x: TaskProps, s: seq<TaskProps>): (r: seq<TaskProps>)
    ensures |r| == |s| + 1
    ensures multiset(r) == multiset(s) + multiset{x}
  {
    if s == [] || s[0].createdAt <= x.createdAt then [x] + s
    else
      assert s == [s[0]] + s[1..];
      [s[0]] + InsertByCreated(x, s[1..])
  }

  lemma {:induction false} InsertNotAfter(x: TaskProps, s: seq<TaskProps>, b: nat)
    requires NotAfter(s, b) && x.createdAt <= b
    ensures NotAfter(InsertByCreated(x, s), b)
  {
    if !(s == [] || s[0].createdAt <= x.createdAt) {
      InsertNotAfter(x, s[1..], b);
    }
  }

  /** Inserting into a newest-first sequence keeps it newest first. */
  lemma {:induction false} InsertKeepsDescending(x: TaskProps, s: seq<TaskProps>)
    requires Descending(s)
    ensures Descending(InsertByCreated(x, s))
  {
    if !(s == [] || s[0].createdAt <= x.createdAt) {
      InsertKeepsDescending(x, s[1..]);
      InsertNotAfter(x, s[1..], s[0].createdAt);
    }
  }

  /** `tasks.sort((a, b) => b.createdAt - a.createdAt)`: a stable sort,
      newest first. */
  function SortByCreatedDesc(s: seq<TaskProps>): (r: seq<TaskProps>)
    ensures |r| == |s|
    ensures multiset(r) == multiset(s)
    ensures Descending(r)
  {
    if s == [] then []
    else
      assert s == [s[0]] + s[1..];
      InsertKeepsDescending(s[0], SortByCreatedDesc(s[1..]));
      InsertByCreated(s[0], SortByCreatedDesc(s[1..]))
  }

  /** The tasks of `s` created at instant `k`, in order. */
  function CreatedAt(s: seq<TaskProps>, k: nat): (r: seq<TaskProps>)
    ensures |r| <= |s|
  {
    if s == [] then []
    else At(s[0], k) + CreatedAt(s[1..], k)
  }

  /** The tasks created at `k` among `[x]` and `s`. */
  function At(x: TaskProps, k: nat): seq<TaskProps> {
    if x.createdAt == k then [x] else []
  }

  lemma CreatedAtCons(x: TaskProps, s: seq<TaskProps>, k: nat)
    ensures CreatedAt([x] + s, k) == At(x, k) + CreatedAt(s, k)
  {
    assert ([x] + s)[0] == x && ([x] + s)[1..] == s;
  }

  lemma {:induction false} InsertIsStable(x: TaskProps, s: seq<TaskProps>, k: nat)
    ensures CreatedAt(InsertByCreated(x, s), k) == At(x, k) + CreatedAt(s, k)
  {
    if s == [] || s[0].createdAt <= x.createdAt {
      CreatedAtCons(x, s, k);
    } else {
      var y, rest := s[0], s[1..];
      var inserted := InsertByCreated(x, rest);
      assert InsertByCreated(x, s) == [y] + inserted;
      InsertIsStable(x, rest, k);
      CreatedAtCons(y, inserted, k);
      CreatedAtCons(y, rest, k);
      assert s == [y] + rest;
      if x.createdAt == k {
        assert At(y, k) == [];
        assert CreatedAt(s, k) == CreatedAt(rest, k);
        assert CreatedAt(InsertByCreated(x, s), k) == CreatedAt(inserted, k);
      } else {
        assert At(x, k) == [];
        assert CreatedAt(inserted, k) == CreatedAt(rest, k);
      }
    }
  }

  /** The sort is stable: tasks created at the same instant keep their
      relative order. */
  lemma {:induction false} SortIsStable(s: seq<TaskProps>, k: nat)
    ensures CreatedAt(SortByCreatedDesc(s), k) == CreatedAt(s, k)
  {
    if s != [] {
      SortIsStable(s[1..], k);
      InsertIsStable(s[0], SortByCreatedDesc(s[1..]), k);
    }
  }

  /** A page of a newest-first list is newest first. */
  lemma WindowKeepsDescending(s: seq<TaskProps>, offset: nat, limit: nat)
    requires Descending(s)
    ensures Descending(Window(s, offset, limit))
  {
    var w := Window(s, offset, limit);
    if offset < |s| {
      forall i, j | 0 <= i < j < |w| ensures w[i].createdAt >= w[j].createdAt {
        assert w[i] == s[offset + i] && w[j] == s[offset + j];
      }
    }
  }

  /** Every task on a page of the sorted matches is a task of `s` that
      meets the conditions, and the page is newest first. */
  lemma PageOfMatches(s: seq<TaskProps>, cs: seq<Criterion>, offset: nat, limit: nat)
    ensures var page := Window(SortByCreatedDesc(Matching(s, cs)), offset, limit);
      && Descending(page)
      && forall t :: t in page ==> t in s && HoldsAll(t, cs)
  {
    var sorted := SortByCreatedDesc(Matching(s, cs));
    WindowIsPartOf(sorted, offset, limit);
    WindowKeepsDescending(sorted, offset, limit);
    forall t | t in Window(sorted, offset, limit) ensures t in s && HoldsAll(t, cs) {
      assert t in multiset(sorted);
      MatchingMembers(s, cs, t);
    }
  }

  /** The stored ids whose task passes the filter. */
  ghost function PassingIds(store: map<string, TaskProps>, f: TaskFilter): set<string> {
    set id | id in store && Matches(store[id], f)
  }

  /** `total`: the number of stored ids whose task passes the filter. */
  lemma TotalCountsMatches(order: seq<string>, store: map<string, TaskProps>, f: TaskFilter)
    requires NoDuplicates(order) && forall id :: id in store <==> id in order
    ensures |Matching(ValuesInOrder(order, store), Criteria(f))| == |PassingIds(store, f)|
  {
    MatchingCount(order, store, Criteria(f));
    assert MatchingIds(order, store, Criteria(f)) == PassingIds(store, f);
  }

  /** What `findAll` returns over a store whose ids in insertion order
      are `order`: the page holds tasks of the store that pass the filter,
      newest first, and the count before slicing is the number of stored
      ids that pass. */
  lemma FindAllFacts(order: seq<string>, store: map<string, TaskProps>, filter: TaskFilter, p: PaginationParams)
    requires NoDuplicates(order) && (forall id :: id in store <==> id in order)
    requires ValidPagination(p)
    ensures var matched := Matching(ValuesInOrder(order, store), Criteria(filter));
      var data := Window(SortByCreatedDesc(matched), Offset(p), p.limit);
      && |matched| == |PassingIds(store, filter)|
      && Descending(data)
      && forall t :: t in data ==> t in store.Values && Matches(t, filter)
  {
    var all := ValuesInOrder(order, store);
    TotalCountsMatches(order, store, filter);
    PageOfMatches(all, Criteria(filter), Offset(p), p.limit);
    forall t | t in all ensures t in store.Values {
      var i :| 0 <= i < |all| && all[i] == t;
    }
  }

  /** The four filter stages of `findAll`, in the source's order; a stage
      runs only when its filter field is set (and, for the assignee and
      the search, not empty). */
  method ApplyFilters(all: seq<TaskProps>, filter: TaskFilter) returns (tasks: seq<TaskProps>)
    ensures tasks == Matching(all, Criteria(filter))
  {
    ghost var s1 := if filter.status.Some? then [StatusIs(filter.status.value)] else [];
    ghost var s2 := if filter.priority.Some? then [PriorityIs(filter.priority.value)] else [];
    ghost var s3 := if Truthy(filter.assigneeId) then [AssigneeIs(filter.assigneeId.value)] else [];
    ghost var s4 := if Truthy(filter.search) then [SearchFor(filter.search.value)] else [];
    assert Criteria(filter) == s1 + s2 + s3 + s4;
    tasks := all;
    MatchingNothing(all);
    if filter.status.Some? {
      KeepAfterMatching(all, [], StatusIs(filter.status.value));
      tasks := Keep(tasks, StatusIs(filter.status.value));
    }
    assert tasks == Matching(all, s1) by { assert [] + s1 == s1; }
    if filter.priority.Some? {
      KeepAfterMatching(all, s1, PriorityIs(filter.priority.value));
      tasks := Keep(tasks, PriorityIs(filter.priority.value));
    }
    assert tasks == Matching(all, s1 + s2) by { assert s2 == [] ==> s1 + s2 == s1; }
    if Truthy(filter.assigneeId) {
      KeepAfterMatching(all, s1 + s2, AssigneeIs(filter.assigneeId.value));
      tasks := Keep(tasks, AssigneeIs(filter.assigneeId.value));
    }
    assert tasks == Matching(all, s1 + s2 + s3) by { assert s3 == [] ==> s1 + s2 + s3 == s1 + s2; }
    if Truthy(filter.search) {
      KeepAfterMatching(all, s1 + s2 + s3, SearchFor(filter.search.value));
      tasks := Keep(tasks, SearchFor(filter.search.value));
    }
    assert tasks == Matching(all, s1 + s2 + s3 + s4) by { assert s4 == [] ==> s1 + s2 + s3 + s4 == s1 + s2 + s3; }
  }

  class InMemoryTaskRepository {
    /** The `store` map, by value: id to task. */
    var store: map<string, TaskProps>
    /** The store's ids in insertion order. */
    var order: seq<string>

    ghost predicate Valid()
      reads this
    {
      && NoDuplicates(order)
      && (forall id :: id in store <==> id in order)
      && (forall id :: id in store ==> store[id].id == id)
    }

    constructor ()
      ensures Valid() && store == map[] && order == []
    {
      store := map[];
      order := [];
    }

    /** `Array.from(this.store.values())`. */
    function Values(): (r: seq<TaskProps>)
      reads this
      requires Valid()
      ensures |r| == |order|
    {
      ValuesInOrder(order, store)
    }

    /** `findById(id)`: the stored task, or null. */
    method FindById(id: string) returns (t: Option<TaskProps>)
      requires Valid()
      ensures t.Some? <==> id in store
      ensures t.Some? ==> t.value == store[id] && t.value.id == id
    {
      if id in store {
        return Some(store[id]);
      }
      return None;
    }

    /** `findAll(filter, pagination)`: the filter stages, the sort, the
        count and the slice. */
    method FindAll(filter: TaskFilter, pagination: PaginationParams) returns (r: PaginatedResult<TaskProps>)
      requires Valid() && ValidPagination(pagination)
      ensures r.total == |PassingIds(store, filter)|
      ensures forall t :: t in r.data ==> t in store.Values && Matches(t, filter)
      ensures Descending(r.data)
      ensures r.data == Window(SortByCreatedDesc(Matching(Values(), Criteria(filter))), Offset(pagination), pagination.limit)
      ensures r.page == pagination.page && r.limit == pagination.limit
      ensures r.totalPages == TotalPages(r.total, r.limit)
    {
      var tasks := Values();
      tasks := ApplyFilters(tasks, filter);
      FindAllFacts(order, store, filter, pagination);
      tasks := SortByCreatedDesc(tasks);
      var total := |tasks|;
      var offset := Offset(pagination);
      var data := Window(tasks, offset, pagination.limit);
      r := PaginatedResult(data, total, pagination.page, pagination.limit, TotalPages(total, pagination.limit));
    }

    /** `save(task)`: sets `store[task.id]`; a new id goes to the end of
        the iteration order, an existing one keeps its place. */
    method Save(task: TaskProps)
      requires Valid()
      modifies this
      ensures Valid()
      ensures store == old(store)[task.id := task]
      ensures order == if task.id in old(store) then old(order) else old(order) + [task.id]
    {
      if task.id !in store {
        order := order + [task.id];
      }
      store := store[task.id := task];
    }

    /** `update(task)`: the same `store.set` as `save`, so an absent id is
        inserted. */
    method Update(task: TaskProps)
      requires Valid()
      modifies this
      ensures Valid()
      ensures store == old(store)[task.id := task]
      ensures order == if task.id in old(store) then old(order) else old(order) + [task.id]
    {
      Save(task);
    }

    /** `delete(id)`: true iff the id was present; it is gone afterwards. */
    method Delete(id: string) returns (removed: bool)
      requires Valid()
      modifies this
      ensures Valid()
      ensures removed <==> id in old(store)
      ensures store == old(store) - {id}
      ensures order == Without(old(order), id)
    {
      removed := id in store;
      store := store - {id};
      order := Without(order, id);
    }

    /** `existsById(id)`: whether `findById(id)` would find a task. */
    method ExistsById(id: string) returns (b: bool)
      requires Valid()
      ensures b <==> id in store
    {
      return id in store;
    }
  }
}
