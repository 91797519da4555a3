/**
 * The task API's semantics over its task collection: creation with
 * defaults, partial update, deletion, statistics and the newest-first
 * listing. The collection holds documents in insertion order; the id oracle
 * (`uuid4`) and the clock (`datetime.utcnow`) are parameters.
 */
module TaskServer {
  import opened Wrappers

  datatype TaskStatus = Todo | Completed

  /** A reading of `datetime.utcnow()`; later readings compare greater or equal. */
  type Timestamp = int

  datatype Task = Task(
    id: string, title: string, description: Option<string>, status: TaskStatus,
    createdAt: Timestamp, updatedAt: Timestamp)

  /** A request-body field that the client may leave out. */
  datatype Omittable<T> = Omitted | Given(value: T)

  /** The body of a create request: only the title is required; a description may also be sent as null. */
  datatype TaskCreate = TaskCreate(title: string, description: Omittable<Option<string>>, status: Omittable<TaskStatus>)

  /** The body of an update request: every field may be left out or sent as null (`None` either way). */
  datatype TaskUpdate = TaskUpdate(title: Option<string>, description: Option<string>, status: Option<TaskStatus>)

  datatype HttpError = HttpError(statusCode: nat, detail: string)

  const NOT_FOUND: HttpError := HttpError(404, "Task not found")
  const DELETED_MESSAGE: string := "Task deleted successfully"

  /** `to_list(1000)`: the most documents one listing returns. */
  const LIST_LIMIT: nat := 1000

  // ---------------------------------------------------------------------------
  // Creation

  /** `Task(**task_data.dict())`: a description defaults to "" and a status to todo. */
  function NewTask(body: TaskCreate, id: string, createdAt: Timestamp, updatedAt: Timestamp): (t: Task)
    ensures t.id == id && t.title == body.title
    ensures t.createdAt == createdAt && t.updatedAt == updatedAt
    ensures body.description.Omitted? ==> t.description == Some("")
    ensures body.description.Given? ==> t.description == body.description.value
    ensures body.status.Omitted? ==> t.status == Todo
    ensures body.status.Given? ==> t.status == body.status.value
  {
    var description := match body.description case Omitted => Some("") case Given(d) => d;
    var status := match body.status case Omitted => Todo case Given(s) => s;
    Task(id, body.title, description, status, createdAt, updatedAt)
  }

  // ---------------------------------------------------------------------------
  // Lookup by id

  function Ids(docs: seq<Task>): set<string>
  {
    set i | 0 <= i < |docs| :: docs[i].id
  }

  ghost predicate UniqueIds(docs: seq<Task>)
  {
    forall i, j :: 0 <= i < j < |docs| ==> docs[i].id != docs[j].id
  }

  /** `find_one({"id": id})` from position `k` on: the first document with that id. */
  function FindFrom(docs: seq<Task>, id: string, k: nat): (r: Option<nat>)
    requires k <= |docs|
    ensures r.None? <==> forall i :: k <= i < |docs| ==> docs[i].id != id
    ensures r.Some? ==> k <= r.value < |docs| && docs[r.value].id == id
    ensures r.Some? ==> forall j :: k <= j < r.value ==> docs[j].id != id
    decreases |docs| - k
  {
    if k == |docs| then None
    else if docs[k].id == id then Some(k)
    else FindFrom(docs, id, k + 1)
  }

  /** The position of the document `find_one({"id": id})` returns. */
  function Find(docs: seq<Task>, id: string): (r: Option<nat>)
    ensures r.None? <==> id !in Ids(docs)
    ensures r.Some? ==> r.value < |docs| && docs[r.value].id == id
    ensures r.Some? ==> forall j :: 0 <= j < r.value ==> docs[j].id != id
  {
    var r := FindFrom(docs, id, 0);
    assert r.None? ==> id !in Ids(docs);
    assert r.Some? ==> docs[r.value].id in Ids(docs);
    r
  }

  /** A task appended under a fresh id is found, at the end of the collection. */
  lemma CreatedIsFound(docs: seq<Task>, t: Task)
    requires t.id !in Ids(docs)
    ensures Find(docs + [t], t.id) == Some(|docs|)
  {
    var after := docs + [t];
    assert after[|docs|].id in Ids(after);
    assert forall j :: 0 <= j < |docs| ==> after[j].id == docs[j].id && docs[j].id in Ids(docs);
  }

  // ---------------------------------------------------------------------------
  // Partial update

  /** The fields an update may `$set`; `id` and `created_at` are not among them. */
  datatype Field = TitleField | DescriptionField | StatusField | UpdatedAtField

  datatype Value = Text(s: string) | StatusValue(st: TaskStatus) | Time(t: Timestamp)

  /** Each field of an update document carries a value of that field's type. */
  predicate WellTyped(d: map<Field, Value>)
  {
    && (TitleField in d ==> d[TitleField].Text?)
    && (DescriptionField in d ==> d[DescriptionField].Text?)
    && (StatusField in d ==> d[StatusField].StatusValue?)
    && (UpdatedAtField in d ==> d[UpdatedAtField].Time?)
  }

  /**
   * `update_data`: the fields of the request that are not `None`, plus
   * `updated_at`.
   */
  function UpdateData(u: TaskUpdate, now: Timestamp): (d: map<Field, Value>)
    ensures WellTyped(d)
    ensures TitleField in d <==> u.title.Some?
    ensures DescriptionField in d <==> u.description.Some?
    ensures StatusField in d <==> u.status.Some?
    ensures u.title.Some? ==> d[TitleField] == Text(u.title.value)
    ensures u.description.Some? ==> d[DescriptionField] == Text(u.description.value)
    ensures u.status.Some? ==> d[StatusField] == StatusValue(u.status.value)
    ensures UpdatedAtField in d && d[UpdatedAtField] == Time(now)
  {
    var title := if u.title.Some? then map[TitleField := Text(u.title.value)] else map[];
    var description := if u.description.Some? then map[DescriptionField := Text(u.description.value)] else map[];
    var status := if u.status.Some? then map[StatusField := StatusValue(u.status.value)] else map[];
    title + description + status + map[UpdatedAtField := Time(now)]
  }

  /** `update_one(..., {"$set": d})` on one document: the listed fields change, every other field stays. */
  function SetFields(t: Task, d: map<Field, Value>): (r: Task)
    requires WellTyped(d)
    ensures r.id == t.id && r.createdAt == t.createdAt
    ensures TitleField in d ==> r.title == d[TitleField].s
    ensures TitleField !in d ==> r.title == t.title
    ensures DescriptionField in d ==> r.description == Some(d[DescriptionField].s)
    ensures DescriptionField !in d ==> r.description == t.description
    ensures StatusField in d ==> r.status == d[StatusField].st
    ensures StatusField !in d ==> r.status == t.status
    ensures UpdatedAtField in d ==> r.updatedAt == d[UpdatedAtField].t
    ensures UpdatedAtField !in d ==> r.updatedAt == t.updatedAt
  {
    Task(
      t.id,
      if TitleField in d then d[TitleField].s else t.title,
      if DescriptionField in d then Some(d[DescriptionField].s) else t.description,
      if StatusField in d then d[StatusField].st else t.status,
      t.createdAt,
      if UpdatedAtField in d then d[UpdatedAtField].t else t.updatedAt)
  }

  /** An update overwrites exactly the supplied fields and the update time. */
  lemma UpdateMerges(t: Task, u: TaskUpdate, now: Timestamp)
    ensures var r := SetFields(t, UpdateData(u, now));
            && r.id == t.id && r.createdAt == t.createdAt && r.updatedAt == now
            && r.title == u.title.GetOr(t.title)
            && r.description == (if u.description.Some? then u.description else t.description)
            && r.status == u.status.GetOr(t.status)
  {
  }

  // ---------------------------------------------------------------------------
  // Statistics

  /** `count_documents({"status": "completed"})`. */
  function CountCompleted(docs: seq<Task>): (c: nat)
    ensures c <= |docs|
    ensures c == 0 <==> forall i :: 0 <= i < |docs| ==> docs[i].status != Completed
    ensures c == |docs| <==> forall i :: 0 <= i < |docs| ==> docs[i].status == Completed
    decreases |docs|
  {
    if docs == [] then 0
    else
      var rest := CountCompleted(docs[1..]);
      assert forall i :: 1 <= i < |docs| ==> docs[i] == docs[1..][i - 1];
      (if docs[0].status == Completed then 1 else 0) + rest
  }

  /** The number of documents whose status is todo. */
  function CountTodo(docs: seq<Task>): nat
    decreases |docs|
  {
    if docs == [] then 0 else (if docs[0].status == Todo then 1 else 0) + CountTodo(docs[1..])
  }

  /**
   * The completion rate before floating-point division and rounding: 0 for
   * an empty collection, otherwise `completed / total * 100`.
   */
  datatype CompletionRate = ZeroRate | Ratio(completed: nat, total: nat)

  datatype Stats = Stats(total: nat, completed: nat, pending: int, completionRate: CompletionRate)

  /** `get_task_stats`. */
  function TaskStats(docs: seq<Task>): (s: Stats)
    ensures s.total == |docs| && s.completed == CountCompleted(docs)
    ensures s.total == s.completed + s.pending && s.pending >= 0
    ensures s.total == 0 ==> s.completionRate == ZeroRate
    ensures s.total > 0 ==> s.completionRate == Ratio(s.completed, s.total) && s.completed <= s.total
  {
    var total := |docs|;
    var completed := CountCompleted(docs);
    var pending := total - completed;
    Stats(total, completed, pending, if total > 0 then Ratio(completed, total) else ZeroRate)
  }

  /** With only two statuses, the pending count is the number of todo tasks. */
  lemma {:induction false} PendingAreTodo(docs: seq<Task>)
    ensures TaskStats(docs).pending == CountTodo(docs)
    decreases |docs|
  {
    if docs != [] {
      PendingAreTodo(docs[1..]);
    }
  }

  /** 1 for a completed task, 0 for a todo one. */
  function CompletedWeight(t: Task): nat
  {
    if t.status == Completed then 1 else 0
  }

  /** Counting completed tasks distributes over concatenation. */
  lemma {:induction false} CountCompletedConcat(a: seq<Task>, b: seq<Task>)
    ensures CountCompleted(a + b) == CountCompleted(a) + CountCompleted(b)
    decreases |a|
  {
    if a == [] {
      assert a + b == b;
    } else {
      assert (a + b)[1..] == a[1..] + b;
      CountCompletedConcat(a[1..], b);
    }
  }

  /** Creating a task adds one to the total, and to the completed count exactly when it is created completed. */
  lemma StatsAfterCreate(docs: seq<Task>, t: Task)
    ensures TaskStats(docs + [t]).total == TaskStats(docs).total + 1
    ensures TaskStats(docs + [t]).completed == TaskStats(docs).completed + CompletedWeight(t)
    ensures TaskStats(docs + [t]).pending == TaskStats(docs).pending + 1 - CompletedWeight(t)
  {
    CountCompletedConcat(docs, [t]);
  }

  /** Replacing one task keeps the total and moves the completed count by the change in that task's status. */
  lemma StatsAfterUpdate(docs: seq<Task>, i: nat, t: Task)
    requires i < |docs|
    ensures TaskStats(docs[i := t]).total == TaskStats(docs).total
    ensures TaskStats(docs[i := t]).completed == TaskStats(docs).completed - CompletedWeight(docs[i]) + CompletedWeight(t)
  {
    assert docs == docs[..i] + ([docs[i]] + docs[i + 1..]);
    assert docs[i := t] == docs[..i] + ([t] + docs[i + 1..]);
    CountCompletedConcat(docs[..i], [docs[i]] + docs[i + 1..]);
    CountCompletedConcat(docs[..i], [t] + docs[i + 1..]);
    CountCompletedConcat([docs[i]], docs[i + 1..]);
    CountCompletedConcat([t], docs[i + 1..]);
  }

  /** Removing one task takes one from the total, and from the completed count exactly when it was completed. */
  lemma StatsAfterDelete(docs: seq<Task>, i: nat)
    requires i < |docs|
    ensures TaskStats(docs[..i] + docs[i + 1..]).total == TaskStats(docs).total - 1
    ensures TaskStats(docs[..i] + docs[i + 1..]).completed == TaskStats(docs).completed - CompletedWeight(docs[i])
  {
    assert docs == docs[..i] + ([docs[i]] + docs[i + 1..]);
    CountCompletedConcat(docs[..i], [docs[i]] + docs[i + 1..]);
    CountCompletedConcat([docs[i]], docs[i + 1..]);
    CountCompletedConcat(docs[..i], docs[i + 1..]);
  }

  // ---------------------------------------------------------------------------
  // Listing

  /** Ordered by `created_at`, newest first. */
  predicate NewestFirst(s: seq<Task>)
  {
    forall i, j :: 0 <= i < j < |s| ==> s[i].createdAt >= s[j].createdAt
  }

  function Insert(t: Task, s: seq<Task>): (r: seq<Task>)
    requires NewestFirst(s)
    ensures NewestFirst(r)
    ensures forall x :: x in r ==> x == t || x in s
    ensures multiset(r) == multiset(s) + multiset{t}
    decreases |s|
  {
    if s == [] || t.createdAt >= s[0].createdAt then
      InsertInFront(t, s);
      [t] + s
    else
      var rest := Insert(t, s[1..]);
      InsertBehind(t, s, rest);
      [s[0]] + rest
  }

  /** `t`, no older than the head of `s`, goes in front. */
  lemma InsertInFront(t: Task, s: seq<Task>)
    requires NewestFirst(s) && (s == [] || t.createdAt >= s[0].createdAt)
    ensures NewestFirst([t] + s)
    ensures forall x :: x in [t] + s ==> x == t || x in s
    ensures multiset([t] + s) == multiset(s) + multiset{t}
  {
    assert forall k :: 0 <= k < |s| ==> s[k].createdAt <= s[0].createdAt;
    PrependNewest(t, s);
  }

  /** `t`, older than the head of `s`, went into the tail as `rest`; the head stays in front. */
  lemma InsertBehind(t: Task, s: seq<Task>, rest: seq<Task>)
    requires NewestFirst(s) && s != [] && t.createdAt < s[0].createdAt
    requires NewestFirst(rest)
    requires forall x :: x in rest ==> x == t || x in s[1..]
    requires multiset(rest) == multiset(s[1..]) + multiset{t}
    ensures NewestFirst([s[0]] + rest)
    ensures forall x :: x in [s[0]] + rest ==> x == t || x in s
    ensures multiset([s[0]] + rest) == multiset(s) + multiset{t}
  {
    assert s == [s[0]] + s[1..];
    assert forall k :: 0 <= k < |rest| ==> rest[k] in rest && (rest[k] == t || rest[k] in s[1..]);
    assert forall x :: x in s[1..] ==> x.createdAt <= s[0].createdAt;
    PrependNewest(s[0], rest);
  }

  /** A task no older than every task of a newest-first list may go in front of it. */
  lemma PrependNewest(h: Task, s: seq<Task>)
    requires NewestFirst(s)
    requires forall k :: 0 <= k < |s| ==> s[k].createdAt <= h.createdAt
    ensures NewestFirst([h] + s)
  {
    assert forall k :: 1 <= k <= |s| ==> ([h] + s)[k] == s[k - 1];
  }

  /**
   * `sort("created_at", -1)`: a newest-first permutation. Ties may come back
   * in any order; this insertion sort fixes one of them.
   */
  function SortNewestFirst(s: seq<Task>): (r: seq<Task>)
    ensures NewestFirst(r)
    ensures multiset(r) == multiset(s)
    decreases |s|
  {
    if s == [] then []
    else
      assert s == [s[0]] + s[1..];
      Insert(s[0], SortNewestFirst(s[1..]))
  }

  /**
   * `get_tasks`: the newest (at most) 1000 tasks, newest first; every task
   * left out is no newer than any task returned.
   */
  function ListTasks(docs: seq<Task>): (r: seq<Task>)
    ensures |r| == if |docs| <= LIST_LIMIT then |docs| else LIST_LIMIT
    ensures NewestFirst(r)
    ensures multiset(r) <= multiset(docs)
    ensures |docs| <= LIST_LIMIT ==> multiset(r) == multiset(docs)
    ensures forall t, u :: t in docs && t !in r && u in r ==> t.createdAt <= u.createdAt
  {
    var sorted := SortNewestFirst(docs);
    WholeListing(docs, sorted);
    if |sorted| <= LIST_LIMIT then
      sorted
    else
      NewestPrefix(docs, sorted, LIST_LIMIT);
      sorted[..LIST_LIMIT]
  }

  /** A newest-first permutation of `docs` lists every task of `docs`. */
  lemma WholeListing(docs: seq<Task>, sorted: seq<Task>)
    requires multiset(sorted) == multiset(docs)
    ensures |sorted| == |docs|
    ensures forall t :: t in docs ==> t in sorted
  {
    assert |sorted| == |multiset(sorted)| == |docs|;
    assert forall t :: t in docs ==> t in multiset(sorted);
  }

  /**
   * The first `n` tasks of a newest-first permutation of `docs` are a
   * sub-multiset of `docs`, and every task left out is no newer than any
   * task kept.
   */
  lemma NewestPrefix(docs: seq<Task>, sorted: seq<Task>, n: nat)
    requires NewestFirst(sorted) && multiset(sorted) == multiset(docs) && n <= |sorted|
    ensures NewestFirst(sorted[..n])
    ensures multiset(sorted[..n]) <= multiset(docs)
    ensures forall t, u :: t in docs && t !in sorted[..n] && u in sorted[..n] ==> t.createdAt <= u.createdAt
  {
    var r := sorted[..n];
    assert sorted == r + sorted[n..];
    forall t | t in docs && t !in r ensures t in sorted[n..] {
      assert t in multiset(sorted);
    }
  }

  /** Removing the task at `i` from a collection with unique ids removes exactly that task. */
  lemma RemoveAt(docs: seq<Task>, i: nat)
    requires UniqueIds(docs) && i < |docs|
    ensures var after := docs[..i] + docs[i + 1..];
            && UniqueIds(after)
            && docs[i].id !in Ids(after)
            && (forall t :: t in docs && t.id != docs[i].id ==> t in after)
            && (forall t :: t in after ==> t in docs)
  {
    var after := docs[..i] + docs[i + 1..];
    assert forall k :: 0 <= k < i ==> after[k] == docs[k];
    assert forall k :: i <= k < |after| ==> after[k] == docs[k + 1];
    forall t | t in docs && t.id != docs[i].id ensures t in after {
      var k :| 0 <= k < |docs| && docs[k] == t;
      if k < i {
        assert after[k] == t;
      } else {
        assert after[k - 1] == t;
      }
    }
  }

  // ---------------------------------------------------------------------------
  // The collection

  /** `db.tasks`: the task documents in insertion order, ids pairwise distinct. */
  class TaskCollection {
    var docs: seq<Task>

    ghost predicate Valid()
      reads this
    {
      UniqueIds(docs)
    }

    constructor ()
      ensures Valid() && docs == []
    {
      docs := [];
    }

    /**
     * `create_task`: builds the task with its defaults and inserts it. The
     * id comes from the id oracle and is not yet used.
     */
    method CreateTask(body: TaskCreate, freshId: string, createdAt: Timestamp, updatedAt: Timestamp) returns (task: Task)
      requires Valid() && freshId !in Ids(docs)
      modifies this
      ensures Valid()
      ensures task == NewTask(body, freshId, createdAt, updatedAt)
      ensures task.id !in Ids(old(docs))
      ensures docs == old(docs) + [task]
    {
      task := NewTask(body, freshId, createdAt, updatedAt);
      assert forall i :: 0 <= i < |docs| ==> docs[i].id in Ids(docs);
      docs := docs + [task];
    }

    /**
     * `update_task`: 404 for an unknown id, with the collection unchanged;
     * otherwise the supplied fields and `updated_at` are `$set` on that task
     * alone, and the task is returned as stored.
     */
    method UpdateTask(id: string, u: TaskUpdate, now: Timestamp) returns (r: Result<Task, HttpError>)
      requires Valid()
      modifies this
      ensures Valid()
      ensures id !in Ids(old(docs)) ==> r == Failure(NOT_FOUND) && docs == old(docs)
      ensures id in Ids(old(docs)) ==>
        var i := Find(old(docs), id).value;
        && docs == old(docs)[i := SetFields(old(docs)[i], UpdateData(u, now))]
        && r == Success(docs[i])
    {
      var existing := Find(docs, id);
      if existing.None? {
        return Failure(NOT_FOUND);
      }
      var i := existing.value;
      var updateData := UpdateData(u, now);
      ghost var before := docs;
      docs := docs[i := SetFields(docs[i], updateData)];
      assert docs[i].id == id && forall j :: 0 <= j < i ==> docs[j] == before[j];
      var updated := Find(docs, id);
      assert docs[i].id in Ids(docs);
      assert updated == Some(i);
      r := Success(docs[updated.value]);
    }

    /**
     * `delete_task`: 404 for an unknown id, with the collection unchanged;
     * otherwise exactly that task is removed.
     */
    method DeleteTask(id: string) returns (r: Result<string, HttpError>)
      requires Valid()
      modifies this
      ensures Valid()
      ensures id !in Ids(old(docs)) ==> r == Failure(NOT_FOUND) && docs == old(docs)
      ensures id in Ids(old(docs)) ==>
        var i := Find(old(docs), id).value;
        && docs == old(docs)[..i] + old(docs)[i + 1..]
        && r == Success(DELETED_MESSAGE)
      ensures id !in Ids(docs)
      ensures forall t :: t in old(docs) && t.id != id ==> t in docs
      ensures forall t :: t in docs ==> t in old(docs)
    {
      var found := Find(docs, id);
      if found.None? {
        return Failure(NOT_FOUND);
      }
      var i := found.value;
      RemoveAt(docs, i);
      docs := docs[..i] + docs[i + 1..];
      r := Success(DELETED_MESSAGE);
    }
  }
}
