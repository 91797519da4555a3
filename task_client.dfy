/**
 * The browser client's updates of its local task list (prepend on add,
 * replace by id on update, filter by id on delete), the status toggle, and
 * the blank-title guard of the task form.
 */
module TaskClient {
  import opened Wrappers

  /** A task as the client holds it after decoding the API's JSON. */
  datatype Task = Task(
    id: string, title: string, description: Option<string>, status: string,
    createdAt: string, updatedAt: string)

  const TODO: string := "todo"
  const COMPLETED: string := "completed"

  // ---------------------------------------------------------------------------
  // Status toggle

  /** `newStatus`: todo becomes completed; every other status becomes todo. */
  function ToggledStatus(status: string): (r: string)
    ensures r == TODO || r == COMPLETED
    ensures r == COMPLETED <==> status == TODO
  {
    if status == TODO then COMPLETED else TODO
  }

  /** Toggling twice gives back todo or completed; any other status ends up completed. */
  lemma ToggleTwice(status: string)
    ensures status == TODO || status == COMPLETED ==> ToggledStatus(ToggledStatus(status)) == status
    ensures status != TODO ==> ToggledStatus(ToggledStatus(status)) == COMPLETED
  {
  }

  /** `{ ...task, status: newStatus }`: only the status changes. */
  function WithToggledStatus(task: Task): (r: Task)
    ensures r.status == ToggledStatus(task.status)
    ensures r.(status := task.status) == task
  {
    task.(status := ToggledStatus(task.status))
  }

  // ---------------------------------------------------------------------------
  // List updates

  /** `handleTaskAdded`: `[newTask, ...prev]`. */
  function Added(prev: seq<Task>, newTask: Task): (r: seq<Task>)
    ensures |r| == |prev| + 1
    ensures r[0] == newTask && r[1..] == prev
  {
    [newTask] + prev
  }

  /** `handleTaskUpdate`: every task with that id is replaced, the rest stay in place. */
  function Updated(prev: seq<Task>, id: string, updatedTask: Task): (r: seq<Task>)
    ensures |r| == |prev|
    ensures forall i :: 0 <= i < |r| ==> r[i] == if prev[i].id == id then updatedTask else prev[i]
    decreases |prev|
  {
    if prev == [] then []
    else
      var rest := Updated(prev[1..], id, updatedTask);
      [if prev[0].id == id then updatedTask else prev[0]] + rest
  }

  /** `a` is `b` with some elements left out, the rest kept in order. */
  predicate IsSubsequence(a: seq<Task>, b: seq<Task>)
    decreases |b|
  {
    if a == [] then true
    else if b == [] then false
    else (a[0] == b[0] && IsSubsequence(a[1..], b[1..])) || IsSubsequence(a, b[1..])
  }

  /**
   * `handleTaskDelete`: drops every task with that id; the others are kept,
   * each as often as before, in their order.
   */
  function Deleted(prev: seq<Task>, id: string): (r: seq<Task>)
    ensures forall t :: t in r ==> t.id != id
    ensures forall t :: multiset(r)[t] == if t.id == id then 0 else multiset(prev)[t]
    ensures IsSubsequence(r, prev)
    decreases |prev|
  {
    if prev == [] then []
    else
      var rest := Deleted(prev[1..], id);
      assert prev == [prev[0]] + prev[1..];
      if prev[0].id == id then
        assert rest == [] || IsSubsequence(rest, prev[1..]);
        rest
      else
        var r := [prev[0]] + rest;
        assert r[1..] == rest;
        r
  }

  /** Toggling a listed task changes that task's status and nothing else in the list. */
  lemma {:induction false} ToggleInList(prev: seq<Task>, k: nat)
    requires k < |prev|
    requires forall j :: 0 <= j < |prev| && j != k ==> prev[j].id != prev[k].id
    ensures var r := Updated(prev, prev[k].id, WithToggledStatus(prev[k]));
            && |r| == |prev|
            && r[k].status == ToggledStatus(prev[k].status)
            && r[k].(status := prev[k].status) == prev[k]
            && forall j :: 0 <= j < |prev| && j != k ==> r[j] == prev[j]
  {
  }

  // ---------------------------------------------------------------------------
  // Task form

  /** The characters `String.prototype.trim` removes: JavaScript white space and line terminators. */
  predicate IsWhiteSpace(c: char)
  {
    var n := c as int;
    || n == 0x09 || n == 0x0A || n == 0x0B || n == 0x0C || n == 0x0D || n == 0x20
    || n == 0xA0 || n == 0x1680 || (0x2000 <= n <= 0x200A)
    || n == 0x2028 || n == 0x2029 || n == 0x202F || n == 0x205F || n == 0x3000 || n == 0xFEFF
  }

  /** `s` without its leading white space. */
  function TrimStart(s: string): (r: string)
    ensures |r| <= |s| && r == s[|s| - |r|..]
    ensures forall k :: 0 <= k < |s| - |r| ==> IsWhiteSpace(s[k])
    ensures r != [] ==> !IsWhiteSpace(r[0])
    decreases |s|
  {
    if s != [] && IsWhiteSpace(s[0]) then TrimStart(s[1..]) else s
  }

  /** `s` without its trailing white space. */
  function TrimEnd(s: string): (r: string)
    ensures |r| <= |s| && r == s[..|r|]
    ensures forall k :: |r| <= k < |s| ==> IsWhiteSpace(s[k])
    ensures r != [] ==> !IsWhiteSpace(r[|r| - 1])
    decreases |s|
  {
    if s != [] && IsWhiteSpace(s[|s| - 1]) then TrimEnd(s[..|s| - 1]) else s
  }

  /**
   * `s.trim()`: the piece of `s` left after removing white space at both
   * ends; it starts and ends with a non-white-space character, and is empty
   * exactly when `s` is all white space.
   */
  function Trim(s: string): (r: string)
    ensures |r| <= |s|
    ensures r == [] <==> forall k :: 0 <= k < |s| ==> IsWhiteSpace(s[k])
    ensures r != [] ==> !IsWhiteSpace(r[0]) && !IsWhiteSpace(r[|r| - 1])
    ensures exists i, j :: (0 <= i <= j <= |s| && r == s[i..j] &&
      (forall k :: 0 <= k < i ==> IsWhiteSpace(s[k])) && (forall k :: j <= k < |s| ==> IsWhiteSpace(s[k])))
  {
    var front := TrimStart(s);
    var r := TrimEnd(front);
    TrimmedPiece(s, front, r);
    r
  }

  /** What `Trim` keeps is `s` between a white-space prefix and a white-space suffix. */
  /**
   * `front` is `s` without its white-space prefix and `r` is `front`
   * without its white-space suffix (what `TrimStart` and `TrimEnd` promise);
   * then `r` is `s` between a white-space prefix and a white-space suffix,
   * with non-white-space ends, and empty exactly when `s` is all white space.
   */
  lemma TrimmedPiece(s: string, front: string, r: string)
    requires |front| <= |s| && front == s[|s| - |front|..]
    requires forall k :: 0 <= k < |s| - |front| ==> IsWhiteSpace(s[k])
    requires front != [] ==> !IsWhiteSpace(front[0])
    requires |r| <= |front| && r == front[..|r|]
    requires forall k :: |r| <= k < |front| ==> IsWhiteSpace(front[k])
    requires r != [] ==> !IsWhiteSpace(r[|r| - 1])
    ensures r != [] ==> !IsWhiteSpace(r[0]) && !IsWhiteSpace(r[|r| - 1])
    ensures r == [] <==> forall k :: 0 <= k < |s| ==> IsWhiteSpace(s[k])
    ensures exists i, j :: (0 <= i <= j <= |s| && r == s[i..j] &&
      (forall k :: 0 <= k < i ==> IsWhiteSpace(s[k])) && (forall k :: j <= k < |s| ==> IsWhiteSpace(s[k])))
  {
    var i := |s| - |front|;
    PieceOfSuffix(s, i, front, r);
    assert r == s[i..i + |r|];
    if r != [] {
      assert r[0] == front[0] == s[i];
    }
  }

  /** A prefix `r` of the suffix `s[i..]` whose remainder is white space. */
  lemma PieceOfSuffix(s: string, i: nat, front: string, r: string)
    requires i <= |s| && front == s[i..] && |r| <= |front| && r == front[..|r|]
    requires forall k :: |r| <= k < |front| ==> IsWhiteSpace(front[k])
    ensures r == s[i..i + |r|]
    ensures forall k :: i + |r| <= k < |s| ==> IsWhiteSpace(s[k])
  {
    forall k | i + |r| <= k < |s|
      ensures IsWhiteSpace(s[k])
    {
      assert s[k] == front[k - i];
    }
  }

  lemma TrimBlank(s: string)
    ensures TrimEnd(TrimStart(s)) == [] <==> forall k :: 0 <= k < |s| ==> IsWhiteSpace(s[k])
  {
    var front := TrimStart(s);
    if TrimEnd(front) != [] {
      assert front[0] == s[|s| - |front|];
    }
  }

  /** The body the form posts. */
  datatype NewTaskBody = NewTaskBody(title: string, description: string)

  /**
   * `handleSubmit`: nothing is sent when the title is blank; otherwise the
   * trimmed title and the trimmed description are.
   */
  function Submit(title: string, description: string): (r: Option<NewTaskBody>)
    ensures r.None? <==> forall k :: 0 <= k < |title| ==> IsWhiteSpace(title[k])
    ensures r.Some? ==> r.value == NewTaskBody(Trim(title), Trim(description))
    ensures r.Some? ==> r.value.title != [] && !IsWhiteSpace(r.value.title[0])
  {
    var t := Trim(title);
    if t == [] then None else Some(NewTaskBody(t, Trim(description)))
  }
}
