/** The priority queue of tasks (job/queue.go) on the sift-up and sift-down of
    Go's container/heap, with every item knowing its own position. */
module JobQueue {
  import opened JobTypes
  import opened Options

  // ---------- The order ----------

  /** A status without an entry in the priority table reads as 0. */
  function Priority(s: TaskStatus): int {
    match s
    case Queued => 1
    case Sent => 2
    case InProgress => 3
    case _ => 0
  }

  predicate TaskLess(a: Task, b: Task) {
    if Priority(a.status) == Priority(b.status) then a.createdAt < b.createdAt
    else Priority(a.status) > Priority(b.status)
  }

  /** Task a may come out no later than task b. */
  predicate NotAfter(a: Task, b: Task) {
    !TaskLess(b, a)
  }

  // ---------- Heaps as sequences ----------

  function Parent(k: int): int
    requires k > 0
  {
    (k - 1) / 2
  }

  predicate Ordered(s: seq<Task>, k: int)
    requires 0 < k < |s|
  {
    NotAfter(s[Parent(k)], s[k])
  }

  ghost predicate HeapUpTo(s: seq<Task>, n: int)
    requires 0 <= n <= |s|
  {
    forall k | 0 < k < n :: Ordered(s, k)
  }

  /** The children of i are in order with the parent of i. */
  ghost predicate Bridged(s: seq<Task>, n: int, i: int)
    requires 0 <= i < n <= |s|
  {
    i > 0 ==> forall c | 0 < c < n && Parent(c) == i :: NotAfter(s[Parent(i)], s[c])
  }

  function Swapped(s: seq<Task>, i: int, j: int): seq<Task>
    requires 0 <= i < |s| && 0 <= j < |s|
  {
    s[i := s[j]][j := s[i]]
  }

  lemma SwappedSameTasks(s: seq<Task>, i: int, j: int)
    requires 0 <= i < |s| && 0 <= j < |s|
    ensures multiset(Swapped(s, i, j)) == multiset(s)
  {}

  /** The root of a heap comes out no later than any task in it. */
  lemma {:induction false} RootIsFirst(s: seq<Task>, n: int, k: int)
    requires 0 <= k < n <= |s| && HeapUpTo(s, n)
    ensures NotAfter(s[0], s[k])
    decreases k
  {
    if k > 0 {
      assert Ordered(s, k);
      RootIsFirst(s, n, Parent(k));
    }
  }

  /** What sift-up maintains: only j may be out of order with its parent. */
  ghost predicate UpState(s: seq<Task>, n: int, j: int)
    requires 0 <= j < n <= |s|
  {
    (forall k | 0 < k < n && k != j :: Ordered(s, k)) && Bridged(s, n, j)
  }

  /** What sift-down from i0 maintains at i: only the children of i, and i0
      itself, may be out of order with their parents. */
  ghost predicate DownState(s: seq<Task>, n: int, i0: int, i: int)
    requires 0 <= i0 <= i < n <= |s|
  {
    && (forall k | 0 < k < n && k != i0 && Parent(k) != i :: Ordered(s, k))
    && Bridged(s, n, i)
    && (i > i0 > 0 ==> Ordered(s, i0))
  }

  /** The child that sift-down compares with: the second only if it is smaller. */
  function SmallerChild(s: seq<Task>, n: int, i: int): (c: int)
    requires 0 <= i && 2 * i + 1 < n <= |s|
    ensures i < c < n && Parent(c) == i
  {
    if 2 * i + 2 < n && TaskLess(s[2 * i + 2], s[2 * i + 1]) then 2 * i + 2 else 2 * i + 1
  }

  lemma UpStep(s: seq<Task>, n: int, j: int)
    requires 0 < j < n <= |s|
    requires UpState(s, n, j) && TaskLess(s[j], s[Parent(j)])
    ensures var t := Swapped(s, Parent(j), j); UpState(t, n, Parent(j)) && t[n..] == s[n..]
  {
    var i := Parent(j);
    var t := Swapped(s, i, j);
    if i > 0 { assert Ordered(s, i); }
    forall k | 0 < k < n && k != i ensures Ordered(t, k) {
      if k != j { assert Ordered(s, k); }
    }
    if i > 0 {
      forall c | 0 < c < n && Parent(c) == i ensures NotAfter(t[Parent(i)], t[c]) {
        if c != j { assert Ordered(s, c); }
      }
    }
  }

  lemma UpDone(s: seq<Task>, n: int, j: int)
    requires 0 <= j < n <= |s|
    requires UpState(s, n, j) && (j > 0 ==> !TaskLess(s[j], s[Parent(j)]))
    ensures HeapUpTo(s, n)
  {}

  lemma LessIsStrict(a: Task, b: Task)
    ensures NotAfter(a, a)
    ensures TaskLess(a, b) ==> NotAfter(a, b)
    ensures TaskLess(a, b) || NotAfter(b, a)
  {}

  lemma SmallerChildIsFirst(s: seq<Task>, n: int, i: int, c: int)
    requires 0 <= i && 2 * i + 1 < n <= |s| && 0 < c < n && Parent(c) == i
    ensures NotAfter(s[SmallerChild(s, n, i)], s[c])
  {}

  lemma DownStep(s: seq<Task>, n: int, i0: int, i: int)
    requires 0 <= i0 <= i < n <= |s| && 2 * i + 1 < n
    requires DownState(s, n, i0, i) && TaskLess(s[SmallerChild(s, n, i)], s[i])
    ensures var j := SmallerChild(s, n, i);
            var t := Swapped(s, i, j);
            DownState(t, n, i0, j) && t[n..] == s[n..]
  {
    var j := SmallerChild(s, n, i);
    assert Parent(j) == i < j < n;
    var t := Swapped(s, i, j);
    hide TaskLess, NotAfter, SmallerChild;
    LessIsStrict(s[j], s[i]);
    forall c | 0 < c < n && Parent(c) == i ensures NotAfter(s[j], s[c]) {
      SmallerChildIsFirst(s, n, i, c);
    }
    forall k | 0 < k < n && k != i0 && Parent(k) != j ensures Ordered(t, k) {
      if Parent(k) != i { assert Ordered(s, k); }
    }
    forall c | 0 < c < n && Parent(c) == j ensures NotAfter(t[i], t[c]) {
      assert Ordered(s, c);
    }
  }

  lemma DownDone(s: seq<Task>, n: int, i0: int, i: int)
    requires 0 <= i0 <= i < n <= |s|
    requires DownState(s, n, i0, i)
    requires 2 * i + 1 < n ==> !TaskLess(s[SmallerChild(s, n, i)], s[i])
    ensures forall k | 0 < k < n && k != i0 :: Ordered(s, k)
    ensures i > i0 > 0 ==> Ordered(s, i0)
  {
    hide TaskLess, NotAfter, SmallerChild;
    forall k | 0 < k < n && k != i0 ensures Ordered(s, k) {
      if Parent(k) == i {
        assert k == 2 * i + 1 || k == 2 * i + 2;
        SmallerChildIsFirst(s, n, i, k);
        LessIsStrict(s[SmallerChild(s, n, i)], s[i]);
        NotAfterIsTransitive(s[i], s[SmallerChild(s, n, i)], s[k]);
      }
    }
  }

  lemma NotAfterIsTransitive(a: Task, b: Task, c: Task)
    requires NotAfter(a, b) && NotAfter(b, c)
    ensures NotAfter(a, c)
  {}

  class TaskItem {
    var task: Task
    var index: int

    constructor (task: Task)
      ensures this.task == task
    {
      this.task := task;
      this.index := 0;
    }
  }

  class TaskQueue {
    var q: seq<TaskItem>
    ghost var tasks: seq<Task>  // the tasks by position

    ghost function Items(): set<TaskItem>
      reads this
    {
      set x | x in q
    }

    /** Every item carries its own position. */
    ghost predicate Indexed()
      reads this, q
    {
      && |tasks| == |q|
      && forall i | 0 <= i < |q| :: q[i].index == i && q[i].task == tasks[i]
    }

    ghost predicate Valid()
      reads this, q
    {
      Indexed() && HeapUpTo(tasks, |tasks|)
    }

    constructor ()
      ensures Valid() && tasks == [] && q == []
    {
      q, tasks := [], [];
    }

    // ---------- The methods container/heap calls ----------

    method Less(i: int, j: int) returns (r: bool)
      requires Indexed() && 0 <= i < |q| && 0 <= j < |q|
      ensures r == TaskLess(tasks[i], tasks[j])
    {
      r := TaskLess(q[i].task, q[j].task);
    }

    method Swap(i: int, j: int)
      requires Indexed() && 0 <= i < |q| && 0 <= j < |q|
      modifies this, Items()
      ensures Indexed() && tasks == Swapped(old(tasks), i, j) && |tasks| == |old(tasks)|
      ensures Items() == old(Items())
    {
      ghost var q0 := q;
      q := q[i := q[j]][j := q[i]];
      tasks := Swapped(tasks, i, j);
      assert q0[i] == q[j] && q0[j] == q[i];
      assert forall k | 0 <= k < |q| && k != i && k != j :: q[k] == q0[k];
      q[i].index := i;
      q[j].index := j;
    }

    method PushItem(item: TaskItem)
      requires Indexed() && item !in q
      modifies this, item
      ensures Indexed() && tasks == old(tasks) + [item.task] && item.task == old(item.task)
      ensures q == old(q) + [item]
    {
      item.index := |q|;
      q := q + [item];
      tasks := tasks + [item.task];
    }

    method PopItem() returns (item: TaskItem)
      requires Indexed() && |q| > 0
      modifies this, Items()
      ensures Indexed() && tasks == old(tasks[..|tasks|-1])
      ensures q == old(q[..|q|-1]) && item == old(q[|q|-1])
      ensures item.task == old(tasks[|tasks|-1]) && item.index == -1
    {
      var n := |q|;
      item := q[n-1];
      assert forall k | 0 <= k < n - 1 :: q[k] != item by {
        assert forall k | 0 <= k < n - 1 :: q[k].index == k;
      }
      item.index := -1;
      q := q[..n-1];
      tasks := tasks[..n-1];
    }

    // ---------- container/heap ----------

    method Up(j0: int, ghost n: int)
      requires Indexed() && 0 <= j0 < n <= |q| && UpState(tasks, n, j0)
      modifies this, Items()
      ensures Indexed() && Items() == old(Items()) && |tasks| == old(|tasks|)
      ensures HeapUpTo(tasks, n) && tasks[n..] == old(tasks[n..])
      ensures multiset(tasks) == old(multiset(tasks))
    {
      hide UpState, HeapUpTo, Swapped, TaskLess;
      var j := j0;
      while true
        invariant 0 <= j < n <= |q| && Indexed() && Items() == old(Items()) && |tasks| == old(|tasks|)
        invariant UpState(tasks, n, j)
        invariant tasks[n..] == old(tasks[n..]) && multiset(tasks) == old(multiset(tasks))
        decreases j
      {
        var i := if j == 0 then 0 else (j - 1) / 2;  // Go's (j-1)/2 truncates toward zero
        if i == j { break; }
        var less := Less(j, i);
        if !less { break; }
        SwappedSameTasks(tasks, i, j);
        UpStep(tasks, n, j);
        Swap(i, j);
        j := i;
      }
      UpDone(tasks, n, j);
    }

    method Down(i0: int, n: int) returns (moved: bool)
      requires Indexed() && 0 <= i0 < n <= |q| && DownState(tasks, n, i0, i0)
      modifies this, Items()
      ensures Indexed() && Items() == old(Items()) && |tasks| == old(|tasks|)
      ensures forall k | 0 < k < n && k != i0 :: Ordered(tasks, k)
      ensures moved && i0 > 0 ==> Ordered(tasks, i0)
      ensures !moved ==> tasks == old(tasks)
      ensures tasks[n..] == old(tasks[n..]) && multiset(tasks) == old(multiset(tasks))
    {
      hide DownState, Ordered, Swapped, TaskLess;
      var i := i0;
      while true
        invariant i0 <= i < n <= |q| && Indexed() && Items() == old(Items()) && |tasks| == old(|tasks|)
        invariant DownState(tasks, n, i0, i)
        invariant i == i0 ==> tasks == old(tasks)
        invariant tasks[n..] == old(tasks[n..]) && multiset(tasks) == old(multiset(tasks))
        decreases n - i
      {
        var j1 := 2 * i + 1;
        if j1 >= n { break; }
        var j := j1;
        var j2 := j1 + 1;
        if j2 < n {
          var l := Less(j2, j1);
          if l { j := j2; }
        }
        assert j == SmallerChild(tasks, n, i);
        var less := Less(j, i);
        if !less { break; }
        SwappedSameTasks(tasks, i, j);
        DownStep(tasks, n, i0, i);
        Swap(i, j);
        i := j;
      }
      DownDone(tasks, n, i0, i);
      return i > i0;
    }

    method HeapPush(item: TaskItem)
      requires Valid() && item !in q
      modifies this, Items(), item
      ensures Valid() && Items() == old(Items()) + {item}
      ensures multiset(tasks) == old(multiset(tasks)) + multiset{old(item.task)}
    {
      PushItem(item);
      ghost var s := tasks;
      PushedLast(s);
      Up(|q| - 1, |q|);
      assert tasks[..] == tasks;
    }

    method HeapPop() returns (item: TaskItem)
      requires Valid() && |q| > 0
      modifies this, Items()
      ensures Valid() && Items() < old(Items()) && item in old(Items())
      ensures item.task == old(tasks[0])
      ensures old(multiset(tasks)) == multiset(tasks) + multiset{item.task}
    {
      var n := |q| - 1;
      ghost var s := tasks;
      SwappedSameTasks(s, 0, n);
      Swap(0, n);
      ghost var t := tasks;
      if n > 0 {
        SwappedOut(s, 0);
        var moved := Down(0, n);
      }
      assert tasks[n] == s[0] by { assert tasks[n..][0] == t[n..][0]; }
      item := PopLast();
    }

    /** The last item leaves; the others stay a heap. */
    method PopLast() returns (item: TaskItem)
      requires Indexed() && |q| > 0 && HeapUpTo(tasks, |tasks| - 1)
      modifies this, Items()
      ensures Valid() && Items() < old(Items()) && item in old(Items())
      ensures item.task == old(tasks[|tasks|-1])
      ensures old(multiset(tasks)) == multiset(tasks) + multiset{item.task}
    {
      ghost var n := |tasks| - 1;
      assert tasks == tasks[..n] + [tasks[n]];
      assert q[n] in Items();
      assert forall k | 0 <= k < n :: q[k] != q[n] by { assert forall k | 0 <= k <= n :: q[k].index == k; }
      item := PopItem();
      assert forall k | 0 < k < n :: Ordered(old(tasks), k) ==> Ordered(tasks, k);
      assert item !in Items();
    }

    method HeapRemove(i: int) returns (item: TaskItem)
      requires Valid() && 0 <= i < |q|
      modifies this, Items()
      ensures Valid() && Items() < old(Items()) && item in old(Items())
      ensures item.task == old(tasks[i])
      ensures old(multiset(tasks)) == multiset(tasks) + multiset{item.task}
    {
      var n := |q| - 1;
      ghost var s := tasks;
      if n != i {
        SwappedSameTasks(s, i, n);
        SwappedOut(s, i);
        Swap(i, n);
        ghost var t := tasks;
        var moved := Down(i, n);
        if !moved {
          Up(i, n);
        } else {
          SettledAfterDown(tasks, n, i);
        }
        assert tasks[n] == s[i] by { assert tasks[n..][0] == t[n..][0]; }
      }
      item := PopLast();
    }

    // ---------- The queue ----------

    method Push(t: Task)
      requires Valid()
      modifies this, Items()
      ensures Valid() && (forall x | x in Items() :: x in old(Items()) || fresh(x))
      ensures multiset(tasks) == old(multiset(tasks)) + multiset{t}
    {
      var item := new TaskItem(t);
      HeapPush(item);
    }

    /** The task handed out comes no later than any task in the queue. */
    method Pop() returns (t: Task)
      requires Valid() && |tasks| > 0
      modifies this, Items()
      ensures Valid() && Items() < old(Items())
      ensures t in old(tasks) && forall u | u in old(tasks) :: NotAfter(t, u)
      ensures old(multiset(tasks)) == multiset(tasks) + multiset{t}
    {
      ghost var s := tasks;
      RootIsFirstOfAll(s);
      var item := HeapPop();
      t := item.task;
    }

    method Peek() returns (t: Task)
      requires Valid() && |tasks| > 0
      modifies this, Items()
      ensures Valid() && (forall x | x in Items() :: x in old(Items()) || fresh(x))
      ensures t in old(tasks) && forall u | u in old(tasks) :: NotAfter(t, u)
      ensures multiset(tasks) == old(multiset(tasks))
    {
      t := Pop();
      Push(t);
    }

    method Size() returns (n: int)
      requires Valid()
      ensures n == |tasks|
    {
      n := |q|;
    }

    method Remove(index: int) returns (t: Task)
      requires Valid() && 0 <= index < |tasks|
      modifies this, Items()
      ensures Valid() && Items() < old(Items())
      ensures t == old(tasks[index])
      ensures old(multiset(tasks)) == multiset(tasks) + multiset{t}
    {
      var item := HeapRemove(index);
      t := item.task;
    }

    /** Removes one task with the id, found by scanning the slots, or nothing. */
    method RemoveById(taskId: int) returns (t: Option<Task>)
      requires Valid()
      modifies this, Items()
      ensures Valid() && Items() <= old(Items())
      ensures t.None? ==> tasks == old(tasks) && forall u | u in tasks :: u.taskId != taskId
      ensures t.Some? ==> t.value.taskId == taskId && old(multiset(tasks)) == multiset(tasks) + multiset{t.value}
    {
      var i := 0;
      while i < |q|
        invariant 0 <= i <= |q| && q == old(q) && Valid() && tasks == old(tasks)
        invariant forall k | 0 <= k < i :: tasks[k].taskId != taskId
      {
        if q[i].task.taskId == taskId {
          var r := Remove(q[i].index);
          return Some(r);
        }
        i := i + 1;
      }
      return None;
    }

    method GetTasks() returns (l: seq<Task>)
      requires Valid()
      ensures l == tasks
    {
      l := [];
      var i := 0;
      while i < |q|
        invariant 0 <= i <= |q| && l == tasks[..i]
      {
        l := l + [q[i].task];
        i := i + 1;
      }
    }
  }

  lemma PushedLast(s: seq<Task>)
    requires |s| > 0 && HeapUpTo(s[..|s|-1], |s| - 1)
    ensures UpState(s, |s|, |s| - 1)
  {
    forall k | 0 < k < |s| - 1 ensures Ordered(s, k) { assert Ordered(s[..|s|-1], k); }
  }

  /** Exchanging slot i with the last one leaves all but i in order below it. */
  lemma SwappedOut(s: seq<Task>, i: int)
    requires 0 <= i < |s| - 1 && HeapUpTo(s, |s|)
    ensures DownState(Swapped(s, i, |s| - 1), |s| - 1, i, i)
    ensures Swapped(s, i, |s| - 1)[|s|-1] == s[i]
  {
    var n := |s| - 1;
    var t := Swapped(s, i, n);
    forall k | 0 < k < n && k != i && Parent(k) != i ensures Ordered(t, k) { assert Ordered(s, k); }
    if i > 0 {
      assert Ordered(s, i);
      forall c | 0 < c < n && Parent(c) == i ensures NotAfter(t[Parent(i)], t[c]) { assert Ordered(s, c); }
    }
  }

  lemma SettledAfterDown(s: seq<Task>, n: int, i: int)
    requires 0 <= i < n <= |s|
    requires forall k | 0 < k < n && k != i :: Ordered(s, k)
    requires i > 0 ==> Ordered(s, i)
    ensures HeapUpTo(s, n)
  {}

  lemma RootIsFirstOfAll(s: seq<Task>)
    requires |s| > 0 && HeapUpTo(s, |s|)
    ensures s[0] in s && forall u | u in s :: NotAfter(s[0], u)
  {
    forall u | u in s ensures NotAfter(s[0], u) {
      var k :| 0 <= k < |s| && s[k] == u;
      RootIsFirst(s, |s|, k);
    }
  }

  // ---------- Runs of pops ----------

  /** The tasks of out come out of the queue ms by successive pops, as Pop promises each. */
  ghost predicate Pops(ms: multiset<Task>, out: seq<Task>) {
    out == [] ||
    (out[0] in ms && (forall u | u in ms :: NotAfter(out[0], u)) && Pops(ms - multiset{out[0]}, out[1..]))
  }

  /** Successive pops come out in order. */
  lemma {:induction false} PopsAreSorted(ms: multiset<Task>, out: seq<Task>)
    requires Pops(ms, out)
    ensures multiset(out) <= ms
    ensures forall i, j | 0 <= i < j < |out| :: NotAfter(out[i], out[j])
  {
    if out != [] {
      var rest := out[1..];
      PopsAreSorted(ms - multiset{out[0]}, rest);
      assert out == [out[0]] + rest;
      forall j | 0 < j < |out| ensures NotAfter(out[0], out[j]) {
        assert out[j] == rest[j-1] && rest[j-1] in multiset(rest);
      }
      forall i, j | 0 < i < j < |out| ensures NotAfter(out[i], out[j]) {
        assert NotAfter(rest[i-1], rest[j-1]);
      }
    }
  }

  /** So of two tasks that come out of the queue one after the other, the first is further
      on, in the order in progress, sent, queued, and not younger among equals. */
  lemma PopsByStatusThenAge(ms: multiset<Task>, out: seq<Task>, i: int, j: int)
    requires Pops(ms, out) && 0 <= i < j < |out|
    ensures out[j].status == InProgress ==> out[i].status == InProgress
    ensures out[j].status == Sent ==> out[i].status == InProgress || out[i].status == Sent
    ensures out[j].status == Queued ==> out[i].status == InProgress || out[i].status == Sent || out[i].status == Queued
    ensures out[i].status == out[j].status ==> out[i].createdAt <= out[j].createdAt
  {
    PopsAreSorted(ms, out);
    assert NotAfter(out[i], out[j]);
  }
}
