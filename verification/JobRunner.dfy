/** The runner loop for system operations (job/runner.go): a task queue, a map of
    tasks parked for offline things, and the worker pool.

    A ghost ledger follows every task that was added.  The invariant says that the
    ledger balances after every step, in whatever order the steps come. */
module JobRunner {
  import opened Options
  import opened JobTypes
  import opened JobQueue

  datatype Connectivity = Online | Offline | CheckFailed

  /** What the environment answers while one task is dispatched: the job's context,
      the thing's connection, and whether the pool takes the task. */
  datatype Answer = Answer(job: Option<JobStatus>, conn: Connectivity, poolAccepts: bool)

  datatype Outcome = GaveUp | Parked | PushedBack | Submitted

  datatype Event = Event(task: Task, outcome: Outcome)

  const CONCURRENT_ON_TICK: int := 10

  predicate IsSysOp(op: Operation) {
    op.DirectMethod? || op.UpdateShadow?
  }

  function OutcomeOf(t: Task, a: Answer): Outcome {
    if a.job.None? || IsJobToTerminal(a.job.value) then GaveUp
    else if t.op.DirectMethod? && a.conn.Offline? then Parked
    else if IsSysOp(t.op) && !a.poolAccepts then PushedBack
    else Submitted
  }

  /** The outcome in the terms of the loop: a job that is gone or ending gives its task up,
      an offline thing parks a direct method, a full pool pushes back, the rest is submitted. */
  lemma OutcomeSpelled(t: Task, a: Answer)
    ensures OutcomeOf(t, a).GaveUp? <==>
              a.job != Some(Waiting) && a.job != Some(JobInProgress)
    ensures OutcomeOf(t, a).Parked? <==>
              (a.job == Some(Waiting) || a.job == Some(JobInProgress)) && t.op == DirectMethod && a.conn == Offline
    ensures OutcomeOf(t, a).PushedBack? <==>
              && (a.job == Some(Waiting) || a.job == Some(JobInProgress)) && !a.poolAccepts
              && ((t.op == DirectMethod && a.conn != Offline) || t.op == UpdateShadow)
    ensures OutcomeOf(t, a).Submitted? <==>
              && (a.job == Some(Waiting) || a.job == Some(JobInProgress))
              && ((a.poolAccepts && t.op == DirectMethod && a.conn != Offline)
                  || (a.poolAccepts && t.op == UpdateShadow) || t.op == Custom)
  {}

  /** The tasks of a log that ended with the given outcome, in order. */
  function With(log: seq<Event>, o: Outcome): seq<Task> {
    if log == [] then []
    else With(log[..|log|-1], o) + if log[|log|-1].outcome == o then [log[|log|-1].task] else []
  }

  function Tasks(log: seq<Event>): seq<Task> {
    if log == [] then [] else Tasks(log[..|log|-1]) + [log[|log|-1].task]
  }

  function Bucket(offline: map<string, seq<Task>>, thingId: string): seq<Task> {
    if thingId in offline then offline[thingId] else []
  }

  /** The parked tasks after a log: each parked task goes to the end of its thing's bucket. */
  function ParkAll(offline: map<string, seq<Task>>, parked: seq<Task>): map<string, seq<Task>> {
    if parked == [] then offline
    else
      Park(ParkAll(offline, parked[..|parked|-1]), parked[|parked|-1])
  }

  function Park(offline: map<string, seq<Task>>, t: Task): map<string, seq<Task>> {
    offline[t.thingId := Bucket(offline, t.thingId) + [t]]
  }

  /** SENT is reported for the submitted tasks that were still queued. */
  function SentReports(log: seq<Event>): seq<Task> {
    if log == [] then []
    else
      var e := log[|log|-1];
      SentReports(log[..|log|-1]) + if e.outcome.Submitted? && e.task.status.Queued? then [e.task] else []
  }

  function Without(l: seq<Task>, jobId: string): seq<Task> {
    if l == [] then []
    else Without(l[..|l|-1], jobId) + if l[|l|-1].jobId != jobId then [l[|l|-1]] else []
  }

  /** How many tasks of the job in l have this id. */
  function CountId(l: seq<Task>, jobId: string, id: int): nat {
    if l == [] then 0
    else CountId(l[1..], jobId, id) + if l[0].jobId == jobId && l[0].taskId == id then 1 else 0
  }

  /** A task id belongs to one job, as the primary key of the task table guarantees. */
  ghost predicate KeyedByJob(ms: multiset<Task>) {
    forall t, u | t in ms && u in ms && t.taskId == u.taskId :: t.jobId == u.jobId
  }

  ghost predicate OnlySysOps(ms: multiset<Task>) {
    forall t | t in ms :: IsSysOp(t.op)
  }

  /** Bucket k holds only direct-method tasks of thing k. */
  ghost predicate BucketsSorted(offline: map<string, seq<Task>>) {
    forall k, t | k in offline && t in offline[k] :: t.thingId == k && t.op.DirectMethod?
  }

  /** Every added task is accounted for exactly once. */
  ghost predicate Balanced(added: multiset<Task>, queued: multiset<Task>, offline: map<string, seq<Task>>,
                           submitted: multiset<Task>, gaveUp: multiset<Task>, deleted: multiset<Task>) {
    forall t: Task ::
      added[t] == queued[t] + multiset(Bucket(offline, t.thingId))[t] + submitted[t] + gaveUp[t] + deleted[t]
  }

  lemma BalancedAfterAdd(added: multiset<Task>, queued: multiset<Task>, offline: map<string, seq<Task>>,
                         submitted: multiset<Task>, gaveUp: multiset<Task>, deleted: multiset<Task>, op: Operation, tl: seq<Task>)
    requires Balanced(added, queued, offline, submitted, gaveUp, deleted) && OnlySysOps(added)
    requires IsSysOp(op) && forall t | t in tl :: t.op == op
    ensures Balanced(added + multiset(tl), queued + multiset(tl), offline, submitted, gaveUp, deleted)
    ensures OnlySysOps(added + multiset(tl))
  {
    forall t | t in added + multiset(tl) ensures IsSysOp(t.op) {
      if t !in added { assert t in tl; }
    }
  }

  lemma BalancedAfterConnected(added: multiset<Task>, queued: multiset<Task>, offline: map<string, seq<Task>>,
                               submitted: multiset<Task>, gaveUp: multiset<Task>, deleted: multiset<Task>, k: string)
    requires Balanced(added, queued, offline, submitted, gaveUp, deleted) && BucketsSorted(offline)
    ensures Balanced(added, queued + multiset(Bucket(offline, k)), offline - {k}, submitted, gaveUp, deleted)
  {
    forall t: Task
      ensures multiset(Bucket(offline, t.thingId))[t] == multiset(Bucket(offline, k))[t] + multiset(Bucket(offline - {k}, t.thingId))[t]
    {
      if t.thingId != k { assert t !in Bucket(offline, k); }
    }
  }

  // ---------- Accounting of a dispatch log ----------

  lemma LogExtended(log: seq<Event>, e: Event, o: Outcome)
    ensures With(log + [e], o) == if e.outcome == o then With(log, o) + [e.task] else With(log, o)
    ensures Tasks(log + [e]) == Tasks(log) + [e.task]
    ensures SentReports(log + [e]) ==
            if e.outcome.Submitted? && e.task.status.Queued? then SentReports(log) + [e.task] else SentReports(log)
  {
    assert (log + [e])[..|log|] == log;
    assert With(log, o) + [] == With(log, o);
    assert SentReports(log) + [] == SentReports(log);
  }

  function CountOutcome(log: seq<Event>, o: Outcome, t: Task): nat {
    if log == [] then 0
    else CountOutcome(log[..|log|-1], o, t) + if log[|log|-1] == Event(t, o) then 1 else 0
  }

  lemma {:induction false} CountWith(log: seq<Event>, o: Outcome, t: Task)
    ensures multiset(With(log, o))[t] == CountOutcome(log, o, t)
  {
    if log != [] { CountWith(log[..|log|-1], o, t); }
  }

  lemma {:induction false} CountTasks(log: seq<Event>, t: Task)
    ensures multiset(Tasks(log))[t] == CountOutcome(log, GaveUp, t) + CountOutcome(log, Parked, t)
                                       + CountOutcome(log, PushedBack, t) + CountOutcome(log, Submitted, t)
  {
    if log != [] {
      CountTasks(log[..|log|-1], t);
      assert log[|log|-1].outcome.GaveUp? || log[|log|-1].outcome.Parked?
          || log[|log|-1].outcome.PushedBack? || log[|log|-1].outcome.Submitted?;
    }
  }

  lemma {:induction false} ParkAllBucket(offline: map<string, seq<Task>>, parked: seq<Task>, t: Task)
    ensures multiset(Bucket(ParkAll(offline, parked), t.thingId))[t] ==
            multiset(Bucket(offline, t.thingId))[t] + multiset(parked)[t]
  {
    if parked != [] {
      hide Bucket, Park;
      var init, u := parked[..|parked|-1], parked[|parked|-1];
      ParkAllBucket(offline, init, t);
      ParkAddsOne(ParkAll(offline, init), u, t);
      CountLast(parked, t);
    }
  }

  lemma CountLast(l: seq<Task>, t: Task)
    requires l != []
    ensures multiset(l)[t] == multiset(l[..|l|-1])[t] + if l[|l|-1] == t then 1 else 0
  {
    assert l == l[..|l|-1] + [l[|l|-1]];
  }

  lemma ParkAddsOne(offline: map<string, seq<Task>>, u: Task, t: Task)
    ensures multiset(Bucket(Park(offline, u), t.thingId))[t] ==
            multiset(Bucket(offline, t.thingId))[t] + if u == t then 1 else 0
  {}

  lemma {:induction false} ParkAllSorted(offline: map<string, seq<Task>>, parked: seq<Task>)
    requires BucketsSorted(offline) && forall t | t in parked :: t.op.DirectMethod?
    ensures BucketsSorted(ParkAll(offline, parked))
  {
    if parked != [] {
      var init, u := parked[..|parked|-1], parked[|parked|-1];
      assert u in parked;
      forall t | t in init ensures t.op.DirectMethod? { assert t in parked; }
      ParkAllSorted(offline, init);
    }
  }

  lemma {:induction false} WithIsIn(log: seq<Event>, o: Outcome)
    ensures forall t | t in With(log, o) :: exists i :: 0 <= i < |log| && log[i].task == t && log[i].outcome == o
  {
    if log != [] {
      var n := |log| - 1;
      WithIsIn(log[..n], o);
      forall t | t in With(log, o)
        ensures exists i :: 0 <= i < |log| && log[i].task == t && log[i].outcome == o
      {
        if t in With(log[..n], o) {
          var i :| 0 <= i < n && log[..n][i].task == t && log[..n][i].outcome == o;
          assert log[i].task == t && log[i].outcome == o;
        } else {
          assert log[n].task == t && log[n].outcome == o;
        }
      }
    }
  }

  lemma BalancedAfterDispatch(added: multiset<Task>, queued: multiset<Task>, offline: map<string, seq<Task>>,
                              submitted: multiset<Task>, gaveUp: multiset<Task>, deleted: multiset<Task>,
                              queued': multiset<Task>, log: seq<Event>)
    requires Balanced(added, queued, offline, submitted, gaveUp, deleted)
    requires queued + multiset(With(log, PushedBack)) == queued' + multiset(Tasks(log))
    ensures Balanced(added, queued', ParkAll(offline, With(log, Parked)),
                     submitted + multiset(With(log, Submitted)), gaveUp + multiset(With(log, GaveUp)), deleted)
  {
    forall t: Task
      ensures added[t] == queued'[t] + multiset(Bucket(ParkAll(offline, With(log, Parked)), t.thingId))[t]
                          + (submitted + multiset(With(log, Submitted)))[t] + (gaveUp + multiset(With(log, GaveUp)))[t] + deleted[t]
    {
      hide With, Tasks, ParkAll;
      ParkAllBucket(offline, With(log, Parked), t);
      CountTasks(log, t);
      CountWith(log, GaveUp, t);
      CountWith(log, Parked, t);
      CountWith(log, PushedBack, t);
      CountWith(log, Submitted, t);
      assert (queued + multiset(With(log, PushedBack)))[t] == (queued' + multiset(Tasks(log)))[t];
    }
  }

  /** What a dispatch changes. */
  datatype Books = Books(queued: multiset<Task>, offline: map<string, seq<Task>>, sent: seq<Task>,
                         submitted: multiset<Task>, gaveUp: multiset<Task>)

  /** One event, applied to the books. */
  ghost predicate Entered(b: Books, e: Event, b': Books) {
    && e.task in b.queued && (forall u | u in b.queued :: NotAfter(e.task, u))
    && b'.queued == (if e.outcome.PushedBack? then b.queued else b.queued - multiset{e.task})
    && b'.offline == (if e.outcome.Parked? then Park(b.offline, e.task) else b.offline)
    && b'.sent == (if e.outcome.Submitted? && e.task.status.Queued? then b.sent + [e.task] else b.sent)
    && b'.submitted == (if e.outcome.Submitted? then b.submitted + multiset{e.task} else b.submitted)
    && b'.gaveUp == (if e.outcome.GaveUp? then b.gaveUp + multiset{e.task} else b.gaveUp)
  }

  /** A bag has grown by exactly the tasks of l. */
  ghost predicate Grown(x: multiset<Task>, l: seq<Task>, x': multiset<Task>) {
    x' == x + multiset(l)
  }

  /** The reports of l have been added. */
  ghost predicate Said(x: seq<Task>, l: seq<Task>, x': seq<Task>) {
    x' == x + l
  }

  lemma SaidOneMore(x: seq<Task>, l: seq<Task>, x': seq<Task>, t: Task)
    requires Said(x, l, x')
    ensures Said(x, l + [t], x' + [t])
  {
    assert x + l + [t] == x + (l + [t]);
  }

  /** The popped tasks have left the queue, the pushed-back one has returned. */
  ghost predicate Left(q: multiset<Task>, popped: seq<Task>, back: seq<Task>, q': multiset<Task>) {
    q + multiset(back) == q' + multiset(popped)
  }

  /** A whole log, applied to the books. */
  ghost predicate Accounts(b: Books, log: seq<Event>, b': Books) {
    AccountsQueue(b, log, b') && AccountsRest(b, log, b')
  }

  ghost predicate AccountsQueue(b: Books, log: seq<Event>, b': Books) {
    Pops(b.queued, Tasks(log)) && Left(b.queued, Tasks(log), With(log, PushedBack), b'.queued)
  }

  ghost predicate AccountsRest(b: Books, log: seq<Event>, b': Books) {
    && b'.offline == ParkAll(b.offline, With(log, Parked))
    && Said(b.sent, SentReports(log), b'.sent)
    && Grown(b.submitted, With(log, Submitted), b'.submitted)
    && Grown(b.gaveUp, With(log, GaveUp), b'.gaveUp)
  }

  lemma AccountsNothing(b: Books)
    ensures Accounts(b, [], b)
  {}

  lemma GrownOneMore(x: multiset<Task>, l: seq<Task>, x': multiset<Task>, t: Task)
    requires Grown(x, l, x')
    ensures Grown(x, l + [t], x' + multiset{t})
  {}

  lemma LeftOneMore(q: multiset<Task>, popped: seq<Task>, q': multiset<Task>, t: Task)
    requires Left(q, popped, [], q') && t in q'
    ensures Left(q, popped + [t], [], q' - multiset{t})
    ensures Left(q, popped + [t], [t], q')
  {
    assert q == q' + multiset(popped);
  }

  lemma ParkAllExtended(offline: map<string, seq<Task>>, parked: seq<Task>, t: Task)
    ensures ParkAll(offline, parked + [t]) == Park(ParkAll(offline, parked), t)
  {
    assert (parked + [t])[..|parked|] == parked;
  }

  /** Only the last event may be a push-back. */
  lemma AccountsOneMore(b: Books, log: seq<Event>, b': Books, e: Event, b'': Books)
    requires Accounts(b, log, b') && With(log, PushedBack) == []
    requires Entered(b', e, b'')
    ensures Accounts(b, log + [e], b'')
  {
    hide AccountsQueue, AccountsRest, With, Entered;
    QueueOneMore(b, log, b', e, b'');
    RestOneMore(b, log, b', e, b'');
  }

  lemma QueueOneMore(b: Books, log: seq<Event>, b': Books, e: Event, b'': Books)
    requires AccountsQueue(b, log, b') && With(log, PushedBack) == []
    requires Entered(b', e, b'')
    ensures AccountsQueue(b, log + [e], b'')
  {
    hide Pops, NotAfter, Park, With, Tasks, SentReports, Left;
    LogExtended(log, e, PushedBack);
    LeftOneMore(b.queued, Tasks(log), b'.queued, e.task);
    PopsGoOn(b.queued, Tasks(log), b'.queued, e.task);
    assert [] + [e.task] == [e.task];
  }

  lemma RestOneMore(b: Books, log: seq<Event>, b': Books, e: Event, b'': Books)
    requires AccountsRest(b, log, b')
    requires Entered(b', e, b'')
    ensures AccountsRest(b, log + [e], b'')
  {
    hide NotAfter, Park, ParkAll, With, Tasks, SentReports, Grown, Said;
    var t := e.task;
    LogExtended(log, e, GaveUp);
    LogExtended(log, e, Parked);
    LogExtended(log, e, Submitted);
    ParkAllExtended(b.offline, With(log, Parked), t);
    GrownOneMore(b.submitted, With(log, Submitted), b'.submitted, t);
    GrownOneMore(b.gaveUp, With(log, GaveUp), b'.gaveUp, t);
    SaidOneMore(b.sent, SentReports(log), b'.sent, t);
  }

  lemma PopsGoOn(q: multiset<Task>, popped: seq<Task>, q': multiset<Task>, t: Task)
    requires Pops(q, popped) && Left(q, popped, [], q')
    requires t in q' && forall u | u in q' :: NotAfter(t, u)
    ensures Pops(q, popped + [t])
  {
    hide Pops, NotAfter;
    assert q == q' + multiset(popped);
    PopsOneMore(q, popped, q', t);
  }

  lemma {:induction false} PopsOneMore(ms: multiset<Task>, out: seq<Task>, rest: multiset<Task>, t: Task)
    requires Pops(ms, out) && ms == rest + multiset(out)
    requires t in rest && forall u | u in rest :: NotAfter(t, u)
    ensures Pops(ms, out + [t])
    decreases out
  {
    if out != [] {
      assert out == [out[0]] + out[1..];
      assert ms - multiset{out[0]} == rest + multiset(out[1..]);
      PopsOneMore(ms - multiset{out[0]}, out[1..], rest, t);
      assert (out + [t])[1..] == out[1..] + [t];
    } else {
      assert ms == rest;
      assert [t][1..] == [];
    }
  }

  // ---------- Deleting the tasks of a job ----------

  lemma MinusOne(l: seq<Task>, i: int)
    requires 0 <= i < |l|
    ensures multiset(l) == multiset(l[..i] + l[i+1..]) + multiset{l[i]}
  {
    assert l == l[..i] + [l[i]] + l[i+1..];
  }

  lemma {:induction false} CountIdAt(l: seq<Task>, i: int, jobId: string, id: int)
    requires 0 <= i < |l|
    ensures CountId(l, jobId, id) == CountId(l[..i] + l[i+1..], jobId, id)
                                     + if l[i].jobId == jobId && l[i].taskId == id then 1 else 0
  {
    if i == 0 {
      assert l[..0] + l[1..] == l[1..];
    } else {
      CountIdAt(l[1..], i - 1, jobId, id);
      assert (l[..i] + l[i+1..])[1..] == l[1..][..i-1] + l[1..][i..];
    }
  }

  /** Taking one task out of a bag lowers its own count and no other. */
  lemma {:induction false} CountIdMinusOne(l: seq<Task>, r: seq<Task>, t: Task, jobId: string, id: int)
    requires multiset(l) == multiset(r) + multiset{t}
    ensures CountId(l, jobId, id) == CountId(r, jobId, id) + if t.jobId == jobId && t.taskId == id then 1 else 0
    decreases |l|
  {
    assert t in multiset(l);
    var i :| 0 <= i < |l| && l[i] == t;
    var l' := l[..i] + l[i+1..];
    MinusOne(l, i);
    Cancel(multiset(l'), multiset(r), t);
    CountIdAt(l, i, jobId, id);
    CountIdSame(l', r, jobId, id);
  }

  lemma Cancel(a: multiset<Task>, b: multiset<Task>, t: Task)
    requires a + multiset{t} == b + multiset{t}
    ensures a == b
  {
    forall u ensures a[u] == b[u] { assert (a + multiset{t})[u] == (b + multiset{t})[u]; }
  }

  lemma {:induction false} CountIdSame(l: seq<Task>, r: seq<Task>, jobId: string, id: int)
    requires multiset(l) == multiset(r)
    ensures CountId(l, jobId, id) == CountId(r, jobId, id)
    decreases |l|
  {
    if l == [] {
      assert |multiset(r)| == |r|;
    } else {
      MinusOne(l, 0);
      assert l[..0] + l[1..] == l[1..];
      assert l[0] in multiset(r);
      var i :| 0 <= i < |r| && r[i] == l[0];
      MinusOne(r, i);
      var r' := r[..i] + r[i+1..];
      Cancel(multiset(l[1..]), multiset(r'), l[0]);
      CountIdAt(r, i, jobId, id);
      CountIdSame(l[1..], r', jobId, id);
    }
  }

  lemma {:induction false} CountIdFinds(l: seq<Task>, jobId: string, id: int)
    ensures CountId(l, jobId, id) > 0 <==> exists t :: t in l && t.jobId == jobId && t.taskId == id
  {
    if l != [] {
      CountIdFinds(l[1..], jobId, id);
      assert forall t :: t in l <==> t == l[0] || t in l[1..];
    }
  }

  /** The job's tasks in the queue are those that the snapshot rest still lists, id by id. */
  ghost predicate SameJobIds(l: seq<Task>, rest: seq<Task>, jobId: string) {
    forall id :: CountId(l, jobId, id) == CountId(rest, jobId, id)
  }

  lemma NoJobLeft(l: seq<Task>, jobId: string)
    requires SameJobIds(l, [], jobId)
    ensures forall t | t in l :: t.jobId != jobId
  {
    forall t | t in l ensures t.jobId != jobId {
      CountIdFinds(l, jobId, t.taskId);
      assert CountId(l, jobId, t.taskId) == CountId([], jobId, t.taskId);
    }
  }

  lemma NextJobTask(l: seq<Task>, rest: seq<Task>, jobId: string)
    requires SameJobIds(l, rest, jobId) && rest != [] && rest[0].jobId == jobId
    ensures exists t :: t in l && t.taskId == rest[0].taskId && t.jobId == jobId
  {
    CountIdFinds(l, jobId, rest[0].taskId);
    assert CountId(l, jobId, rest[0].taskId) == CountId(rest, jobId, rest[0].taskId);
  }

  lemma JobTaskRemoved(l: seq<Task>, r: seq<Task>, t: Task, rest: seq<Task>, jobId: string)
    requires SameJobIds(l, rest, jobId) && rest != [] && rest[0].jobId == jobId == t.jobId && rest[0].taskId == t.taskId
    requires multiset(l) == multiset(r) + multiset{t}
    ensures SameJobIds(r, rest[1..], jobId)
  {
    forall id ensures CountId(r, jobId, id) == CountId(rest[1..], jobId, id) {
      CountIdMinusOne(l, r, t, jobId, id);
      assert CountId(l, jobId, id) == CountId(rest, jobId, id);
    }
  }

  lemma {:induction false} WithoutDrops(l: seq<Task>, jobId: string)
    ensures forall t :: t in Without(l, jobId) <==> t in l && t.jobId != jobId
    ensures multiset(Without(l, jobId)) <= multiset(l)
    ensures forall t: Task | t.jobId != jobId :: multiset(Without(l, jobId))[t] == multiset(l)[t]
  {
    if l != [] {
      var init, u := l[..|l|-1], l[|l|-1];
      WithoutDrops(init, jobId);
      assert l == init + [u];
    }
  }

  /** Dropping from the buckets what belongs to the job keeps the ledger in balance. */
  lemma BalancedAfterDelete(added: multiset<Task>, queued: multiset<Task>, offline: map<string, seq<Task>>,
                            submitted: multiset<Task>, gaveUp: multiset<Task>, deleted: multiset<Task>,
                            queued': multiset<Task>, removed: multiset<Task>,
                            offline': map<string, seq<Task>>, dropped: multiset<Task>)
    requires Balanced(added, queued, offline, submitted, gaveUp, deleted)
    requires queued == queued' + removed
    requires BucketsLost(offline, offline', dropped)
    ensures Balanced(added, queued', offline', submitted, gaveUp, deleted + removed + dropped)
  {}

  /** The buckets have lost exactly the dropped tasks. */
  ghost predicate BucketsLost(offline: map<string, seq<Task>>, offline': map<string, seq<Task>>, dropped: multiset<Task>) {
    forall t: Task :: multiset(Bucket(offline, t.thingId))[t] == multiset(Bucket(offline', t.thingId))[t] + dropped[t]
  }

  lemma OneBucketFiltered(off0: map<string, seq<Task>>, off: map<string, seq<Task>>, dropped: multiset<Task>, k: string, jobId: string)
    returns (gone: multiset<Task>)
    requires BucketsLost(off0, off, dropped) && BucketsSorted(off0) && k in off0 && k in off && off[k] == off0[k]
    ensures BucketsLost(off0, off[k := Without(off0[k], jobId)], dropped + gone)
    ensures forall t | t in gone :: t.jobId == jobId
  {
    var v, vn := off0[k], Without(off0[k], jobId);
    gone := multiset(v) - multiset(vn);
    WithoutDrops(v, jobId);
    GoneAreOfJob(v, jobId);
    hide Without, Bucket;
    forall t: Task
      ensures multiset(Bucket(off0, t.thingId))[t] == multiset(Bucket(off[k := vn], t.thingId))[t] + (dropped + gone)[t]
    {
      assert t in v ==> t.thingId == k;
      BucketAt(off0, off, dropped, k, vn, t);
    }
  }

  lemma GoneAreOfJob(l: seq<Task>, jobId: string)
    ensures forall t | t in multiset(l) - multiset(Without(l, jobId)) :: t.jobId == jobId
  {
    hide Without;
    WithoutDrops(l, jobId);
  }

  lemma BucketAt(off0: map<string, seq<Task>>, off: map<string, seq<Task>>, dropped: multiset<Task>, k: string, vn: seq<Task>, t: Task)
    requires multiset(Bucket(off0, t.thingId))[t] == multiset(Bucket(off, t.thingId))[t] + dropped[t]
    requires k in off0 && k in off && off[k] == off0[k] && (t in off0[k] ==> t.thingId == k)
    requires multiset(vn) <= multiset(off0[k])
    ensures multiset(Bucket(off0, t.thingId))[t] ==
            multiset(Bucket(off[k := vn], t.thingId))[t] + (dropped + (multiset(off0[k]) - multiset(vn)))[t]
  {
    if t.thingId != k { assert t !in multiset(off0[k]); }
  }

  class Runner {
    const curQ: TaskQueue
    var offline: map<string, seq<Task>>  // thing -> parked tasks
    var sent: seq<Task>                  // SENT messages, in order

    // the ledger
    ghost var added: multiset<Task>
    ghost var submitted: multiset<Task>
    ghost var gaveUp: multiset<Task>
    ghost var deleted: multiset<Task>

    ghost predicate Valid()
      reads this, curQ, curQ.q
    {
      && curQ.Valid() && KeyedByJob(added) && OnlySysOps(added) && BucketsSorted(offline)
      && Balanced(added, multiset(curQ.tasks), offline, submitted, gaveUp, deleted)
    }

    constructor ()
      ensures Valid() && fresh(curQ)
      ensures added == submitted == gaveUp == deleted == multiset{}
      ensures curQ.tasks == [] && offline == map[] && sent == []
    {
      curQ := new TaskQueue();
      offline, sent := map[], [];
      added, submitted, gaveUp, deleted := multiset{}, multiset{}, multiset{}, multiset{};
    }

    /** PutTasks, and the add step of the loop. */
    method PutTasks(op: Operation, tl: seq<Task>)
      requires Valid() && forall t | t in tl :: t.op == op
      requires KeyedByJob(added + multiset(tl))
      modifies this, curQ, curQ.Items()
      ensures Valid()
      ensures op == DirectMethod || op == UpdateShadow ==>
                added == old(added) + multiset(tl) && multiset(curQ.tasks) == old(multiset(curQ.tasks)) + multiset(tl)
      ensures op == Custom ==> added == old(added) && multiset(curQ.tasks) == old(multiset(curQ.tasks))
      ensures offline == old(offline) && sent == old(sent)
      ensures submitted == old(submitted) && gaveUp == old(gaveUp) && deleted == old(deleted)
    {
      hide Balanced, KeyedByJob, OnlySysOps, BucketsSorted, TaskQueue.Valid;
      if IsSysOp(op) {
        BalancedAfterAdd(added, multiset(curQ.tasks), offline, submitted, gaveUp, deleted, op, tl);
        PushAll(tl);
        added := added + multiset(tl);
      } else {
        assert added + multiset{} == added;
      }
    }

    method PushAll(tl: seq<Task>)
      requires curQ.Valid()
      modifies curQ, curQ.Items()
      ensures curQ.Valid() && (forall x | x in curQ.Items() :: x in old(curQ.Items()) || fresh(x))
      ensures multiset(curQ.tasks) == old(multiset(curQ.tasks)) + multiset(tl)
    {
      var i := 0;
      while i < |tl|
        invariant 0 <= i <= |tl| && curQ.Valid()
        invariant forall x | x in curQ.Items() :: x in old(curQ.Items()) || fresh(x)
        invariant multiset(curQ.tasks) == old(multiset(curQ.tasks)) + multiset(tl[..i])
      {
        curQ.Push(tl[i]);
        assert tl[..i+1] == tl[..i] + [tl[i]];
        i := i + 1;
      }
      assert tl[..i] == tl;
    }

    /** A connected event: the thing's parked tasks go back to the queue. */
    method Connected(thingId: string)
      requires Valid()
      modifies this, curQ, curQ.Items()
      ensures Valid() && offline == old(offline) - {thingId}
      ensures multiset(curQ.tasks) == old(multiset(curQ.tasks)) + multiset(Bucket(old(offline), thingId))
      ensures added == old(added) && submitted == old(submitted) && gaveUp == old(gaveUp) && deleted == old(deleted)
      ensures sent == old(sent)
    {
      hide Balanced, TaskQueue.Valid;
      BalancedAfterConnected(added, multiset(curQ.tasks), offline, submitted, gaveUp, deleted, thingId);
      if thingId in offline {
        var l := offline[thingId];
        offline := offline - {thingId};
        PushAll(l);
      }
    }

    /** The delete step: by task ids, or else by job. */
    method Delete(jobId: string, ids: seq<int>)
      requires Valid()
      modifies this, curQ, curQ.Items()
      ensures Valid() && added == old(added) && submitted == old(submitted) && gaveUp == old(gaveUp) && sent == old(sent)
      // by ids: only queued tasks go, the parked ones are all put back
      ensures ids != [] ==>
                && offline == old(offline)
                && (exists removed :: old(multiset(curQ.tasks)) == multiset(curQ.tasks) + removed
                      && deleted == old(deleted) + removed && forall t | t in removed :: t.taskId in ids)
                && (UniqueIds(old(curQ.tasks)) ==> forall t | t in curQ.tasks :: t.taskId !in ids)
      // by job: every task of the job goes, every other task stays
      ensures ids == [] && jobId != "" ==>
                && (forall t: Task :: multiset(curQ.tasks)[t] == if t.jobId == jobId then 0 else old(multiset(curQ.tasks))[t])
                && offline == map k | k in old(offline) :: Without(old(offline)[k], jobId)
      ensures ids == [] && jobId == "" ==>
                curQ.tasks == old(curQ.tasks) && offline == old(offline) && deleted == old(deleted)
    {
      if |ids| > 0 {
        ghost var removed := DeleteIds(ids);
      } else if jobId != "" {
        DeleteJob(jobId);
      }
    }

    method DeleteJob(jobId: string)
      requires Valid()
      modifies this, curQ, curQ.Items()
      ensures Valid() && added == old(added) && submitted == old(submitted) && gaveUp == old(gaveUp) && sent == old(sent)
      ensures forall t: Task :: multiset(curQ.tasks)[t] == if t.jobId == jobId then 0 else old(multiset(curQ.tasks))[t]
      ensures offline == map k | k in old(offline) :: Without(old(offline)[k], jobId)
    {
      hide TaskQueue.Valid, Balanced, BucketsSorted, KeyedByJob, BucketsLost, Without;
      QueuedIsAdded(added, multiset(curQ.tasks), offline, submitted, gaveUp, deleted);
      ghost var q0, off0 := multiset(curQ.tasks), offline;
      ghost var removed := DeleteJobFromQueue(jobId);
      ghost var dropped := DeleteJobFromBuckets(jobId);
      BalancedAfterDelete(added, q0, off0, submitted, gaveUp, deleted, multiset(curQ.tasks), removed, offline, dropped);
      deleted := deleted + removed + dropped;
    }

    method DeleteJobFromQueue(jobId: string) returns (ghost removed: multiset<Task>)
      requires curQ.Valid() && KeyedByJob(multiset(curQ.tasks))
      modifies curQ, curQ.Items()
      ensures curQ.Valid() && curQ.Items() <= old(curQ.Items())
      ensures old(multiset(curQ.tasks)) == multiset(curQ.tasks) + removed
      ensures forall t | t in removed :: t.jobId == jobId
      ensures forall t | t in curQ.tasks :: t.jobId != jobId
    {
      hide TaskQueue.Valid, SameJobIds;
      var l := curQ.GetTasks();
      removed := multiset{};
      ghost var q0 := multiset(curQ.tasks);
      SameJobIdsStart(l, jobId);
      var i := 0;
      while i < |l|
        invariant 0 <= i <= |l| && curQ.Valid() && curQ.Items() <= old(curQ.Items())
        invariant q0 == multiset(curQ.tasks) + removed
        invariant forall t | t in removed :: t.jobId == jobId
        invariant SameJobIds(curQ.tasks, l[i..], jobId)
      {
        var t := l[i];
        assert l[i..][0] == t && l[i..][1..] == l[i+1..];
        if t.jobId == jobId {
          ghost var before := curQ.tasks;
          NextJobTask(before, l[i..], jobId);
          var r := curQ.RemoveById(t.taskId);
          ghost var u :| u in before && u.taskId == t.taskId && u.jobId == jobId;
          assert u in multiset(before) && u in q0;
          assert r.Some? && r.value in multiset(before) && r.value in q0;
          assert r.value.jobId == jobId;
          JobTaskRemoved(before, curQ.tasks, r.value, l[i..], jobId);
          removed := removed + multiset{r.value};
        } else {
          OtherTaskSkipped(curQ.tasks, l[i..], jobId);
        }
        i := i + 1;
      }
      assert l[i..] == [];
      NoJobLeft(curQ.tasks, jobId);
    }

    method DeleteJobFromBuckets(jobId: string) returns (ghost dropped: multiset<Task>)
      requires BucketsSorted(offline)
      modifies this`offline
      ensures offline == map k | k in old(offline) :: Without(old(offline)[k], jobId)
      ensures BucketsSorted(offline) && BucketsLost(old(offline), offline, dropped)
      ensures forall t | t in dropped :: t.jobId == jobId
    {
      hide BucketsLost, BucketsSorted, Without;
      ghost var off0 := offline;
      dropped := multiset{};
      NothingLost(off0);
      var todo := offline.Keys;
      while todo != {}
        invariant todo <= off0.Keys && offline.Keys == off0.Keys
        invariant forall k | k in off0 :: offline[k] == if k in todo then off0[k] else Without(off0[k], jobId)
        invariant BucketsLost(off0, offline, dropped)
        invariant forall t | t in dropped :: t.jobId == jobId
      {
        var k :| k in todo;
        todo := todo - {k};
        ghost var gone := OneBucketFiltered(off0, offline, dropped, k, jobId);
        var vn := FilterJob(offline[k], jobId);
        offline := offline[k := vn];
        dropped := dropped + gone;
      }
      FilteredStaySorted(off0, offline, jobId);
    }

    method FilterJob(v: seq<Task>, jobId: string) returns (vn: seq<Task>)
      ensures vn == Without(v, jobId)
    {
      vn := [];
      for i := 0 to |v|
        invariant vn == Without(v[..i], jobId)
      {
        assert v[..i+1][..i] == v[..i];
        if v[i].jobId != jobId { vn := vn + [v[i]]; }
      }
      assert v[..|v|] == v;
    }

    method DeleteIds(ids: seq<int>) returns (ghost removed: multiset<Task>)
      requires Valid()
      modifies this, curQ, curQ.Items()
      ensures Valid() && added == old(added) && submitted == old(submitted) && gaveUp == old(gaveUp) && sent == old(sent)
      ensures offline == old(offline) && deleted == old(deleted) + removed
      ensures old(multiset(curQ.tasks)) == multiset(curQ.tasks) + removed
      ensures forall t | t in removed :: t.taskId in ids
      ensures UniqueIds(old(curQ.tasks)) ==> forall t | t in curQ.tasks :: t.taskId !in ids
    {
      hide TaskQueue.Valid, Balanced, BucketsSorted, KeyedByJob, BucketsLost, UniqueIds;
      ghost var q0 := multiset(curQ.tasks);
      removed := DeleteIdsFromQueue(ids);
      DeleteIdsFromBuckets(ids);
      NothingLost(offline);
      BalancedAfterDelete(added, q0, offline, submitted, gaveUp, deleted, multiset(curQ.tasks), removed, offline, multiset{});
      assert deleted + removed + multiset{} == deleted + removed;
      deleted := deleted + removed;
    }

    method DeleteIdsFromQueue(ids: seq<int>) returns (ghost removed: multiset<Task>)
      requires curQ.Valid()
      modifies curQ, curQ.Items()
      ensures curQ.Valid() && curQ.Items() <= old(curQ.Items())
      ensures old(multiset(curQ.tasks)) == multiset(curQ.tasks) + removed
      ensures forall t | t in removed :: t.taskId in ids
      ensures UniqueIds(old(curQ.tasks)) ==> forall t | t in curQ.tasks :: t.taskId !in ids
    {
      hide TaskQueue.Valid, UniqueIds;
      removed := multiset{};
      ghost var q0 := curQ.tasks;
      var i := 0;
      while i < |ids|
        invariant 0 <= i <= |ids| && curQ.Valid() && curQ.Items() <= old(curQ.Items())
        invariant multiset(q0) == multiset(curQ.tasks) + removed
        invariant forall t | t in removed :: t.taskId in ids
        invariant UniqueIds(q0) ==> forall t | t in curQ.tasks :: t.taskId !in ids[..i]
      {
        ghost var before := curQ.tasks;
        var r := curQ.RemoveById(ids[i]);
        if r.Some? {
          removed := removed + multiset{r.value};
          if UniqueIds(q0) { OneTaskPerId(q0, before, curQ.tasks, r.value); }
        }
        i := i + 1;
      }
    }

    /** The inner loop only breaks out of itself, so every task is appended again. */
    method DeleteIdsFromBuckets(ids: seq<int>)
      modifies this`offline
      ensures offline == old(offline)
    {
      var todo := offline.Keys;
      while todo != {}
        invariant todo <= offline.Keys && offline == old(offline)
      {
        var k :| k in todo;
        todo := todo - {k};
        var vn := [];
        var v := offline[k];
        for j := 0 to |v|
          invariant vn == v[..j] && offline == old(offline)
        {
          var n := 0;
          while n < |ids|
            invariant 0 <= n <= |ids| && offline == old(offline)
          {
            if v[j].taskId == ids[n] { break; }
            n := n + 1;
          }
          vn := vn + [v[j]];
        }
        assert v[..|v|] == v;
        offline := offline[k := vn];
      }
    }

    ghost function BooksNow(): Books
      reads this, curQ
    {
      Books(multiset(curQ.tasks), offline, sent, submitted, gaveUp)
    }

    /** One tick: up to ten tasks leave the queue in order, each where the answers
        of the environment send it; a full pool ends the tick early. */
    method Dispatch(answers: seq<Answer>) returns (log: seq<Event>)
      requires Valid() && |answers| >= 10
      modifies this, curQ, curQ.Items()
      ensures Valid() && |log| <= 10
      ensures forall i | 0 <= i < |log| :: log[i].outcome == OutcomeOf(log[i].task, answers[i])
      // given up: the job is missing or Canceling, JobCanceled, Removing or Completed
      ensures forall i | 0 <= i < |log| :: log[i].outcome.GaveUp? <==>
                answers[i].job != Some(Waiting) && answers[i].job != Some(JobInProgress)
      // parked: a direct method of a thing that is offline
      ensures forall i | 0 <= i < |log| :: log[i].outcome.Parked? <==>
                !log[i].outcome.GaveUp? && log[i].task.op == DirectMethod && answers[i].conn == Offline
      // pushed back: the pool refused; everything else is submitted
      ensures forall i | 0 <= i < |log| :: log[i].outcome.PushedBack? <==>
                !log[i].outcome.GaveUp? && !log[i].outcome.Parked? && log[i].task.op != Custom && !answers[i].poolAccepts
      // a parked task is in its thing's bucket, and SENT is reported for the queued tasks submitted
      ensures forall e | e in log && e.outcome.Parked? :: e.task in Bucket(offline, e.task.thingId)
      ensures forall e | e in log && e.outcome.Submitted? :: submitted[e.task] > old(submitted)[e.task]
      ensures forall t: Task | t.status == Queued :: multiset(sent)[t] + old(submitted)[t] == old(multiset(sent))[t] + submitted[t]
      ensures forall t: Task | t.status != Queued :: multiset(sent)[t] == old(multiset(sent))[t]
      ensures forall i | 0 <= i < |log| - 1 :: !log[i].outcome.PushedBack?
      ensures |log| < 10 && (log == [] || !log[|log|-1].outcome.PushedBack?) ==> curQ.tasks == []
      ensures Accounts(old(BooksNow()), log, BooksNow())
      ensures added == old(added) && deleted == old(deleted)
    {
      hide TaskQueue.Valid, Balanced, BucketsSorted, OutcomeOf, Accounts, KeyedByJob, Bucket;
      ghost var b := BooksNow();
      log := DispatchLoop(answers);
      BooksStayValid(b, log, BooksNow(), answers, added, deleted);
      AccountsSpelled(b, log, BooksNow());
      forall i | 0 <= i < |log|
        ensures log[i].outcome.GaveUp? <==> answers[i].job != Some(Waiting) && answers[i].job != Some(JobInProgress)
        ensures log[i].outcome.Parked? <==>
                  !log[i].outcome.GaveUp? && log[i].task.op == DirectMethod && answers[i].conn == Offline
        ensures log[i].outcome.PushedBack? <==>
                  !log[i].outcome.GaveUp? && !log[i].outcome.Parked? && log[i].task.op != Custom && !answers[i].poolAccepts
      {
        OutcomeSpelled(log[i].task, answers[i]);
      }
    }

    /** The loop of a tick. */
    method DispatchLoop(answers: seq<Answer>) returns (log: seq<Event>)
      requires curQ.Valid() && |answers| >= CONCURRENT_ON_TICK
      modifies this, curQ, curQ.Items()
      ensures curQ.Valid() && |log| <= CONCURRENT_ON_TICK
      ensures forall i | 0 <= i < |log| :: log[i].outcome == OutcomeOf(log[i].task, answers[i])
      ensures forall i | 0 <= i < |log| - 1 :: !log[i].outcome.PushedBack?
      ensures |log| < CONCURRENT_ON_TICK && (log == [] || !log[|log|-1].outcome.PushedBack?) ==> curQ.tasks == []
      ensures Accounts(old(BooksNow()), log, BooksNow())
      ensures added == old(added) && deleted == old(deleted)
    {
      hide TaskQueue.Valid, OutcomeOf, Accounts, Entered, With, Tasks;
      log := [];
      var c := 0;
      var size := curQ.Size();
      AccountsNothing(BooksNow());
      var full := false;
      while size > 0 && c < CONCURRENT_ON_TICK && !full
        invariant 0 <= c == |log| <= CONCURRENT_ON_TICK && size == |curQ.tasks|
        invariant curQ.Valid() && (forall x | x in curQ.Items() :: x in old(curQ.Items()) || fresh(x))
        invariant forall i | 0 <= i < |log| :: log[i].outcome == OutcomeOf(log[i].task, answers[i])
        invariant forall i | 0 <= i < |log| - 1 :: !log[i].outcome.PushedBack?
        invariant log != [] ==> (full <==> log[|log|-1].outcome.PushedBack?)
        invariant log == [] ==> !full
        invariant Accounts(old(BooksNow()), log, BooksNow())
        invariant added == old(added) && deleted == old(deleted)
        decreases CONCURRENT_ON_TICK - c
      {
        ghost var b := BooksNow();
        NothingPushedBack(log);
        var e := DispatchOne(answers[c]);
        AccountsOneMore(old(BooksNow()), log, b, e, BooksNow());
        log := log + [e];
        c := c + 1;
        size := curQ.Size();
        full := e.outcome.PushedBack?;
      }
    }

    /** The loop body; a push-back ends the loop. */
    method DispatchOne(a: Answer) returns (e: Event)
      requires curQ.Valid() && |curQ.tasks| > 0
      modifies this, curQ, curQ.Items()
      ensures curQ.Valid() && (forall x | x in curQ.Items() :: x in old(curQ.Items()) || fresh(x))
      ensures e.outcome == OutcomeOf(e.task, a)
      ensures Entered(old(BooksNow()), e, BooksNow())
      ensures added == old(added) && deleted == old(deleted)
    {
      hide TaskQueue.Valid, NotAfter, Park, OutcomeOf, Entered;
      ghost var b := BooksNow();
      var t := curQ.Pop();
      ghost var q := multiset(curQ.tasks);
      var o := Place(t, a);
      e := Event(t, o);
      EntersBooks(b, e, q, BooksNow());
    }

    /** What becomes of a popped task. */
    method Place(t: Task, a: Answer) returns (o: Outcome)
      requires curQ.Valid()
      modifies this, curQ, curQ.Items()
      ensures curQ.Valid() && (forall x | x in curQ.Items() :: x in old(curQ.Items()) || fresh(x))
      ensures o == OutcomeOf(t, a)
      // a job that is missing or Canceling, JobCanceled, Removing or Completed
      ensures o.GaveUp? <==> a.job != Some(Waiting) && a.job != Some(JobInProgress)
      ensures o.Parked? <==> !o.GaveUp? && t.op == DirectMethod && a.conn == Offline
      ensures o.PushedBack? <==> !o.GaveUp? && !o.Parked? && t.op != Custom && !a.poolAccepts
      ensures multiset(curQ.tasks) == if o.PushedBack? then old(multiset(curQ.tasks)) + multiset{t} else old(multiset(curQ.tasks))
      ensures offline == if o.Parked? then Park(old(offline), t) else old(offline)
      ensures sent == if o.Submitted? && t.status.Queued? then old(sent) + [t] else old(sent)
      ensures submitted == if o.Submitted? then old(submitted) + multiset{t} else old(submitted)
      ensures gaveUp == if o.GaveUp? then old(gaveUp) + multiset{t} else old(gaveUp)
      ensures added == old(added) && deleted == old(deleted)
    {
      hide TaskQueue.Valid, Park;
      OutcomeSpelled(t, a);
      if a.job.None? || IsJobToTerminal(a.job.value) {
        gaveUp := gaveUp + multiset{t};
        return GaveUp;
      }
      var submitErr := false;
      if t.op.DirectMethod? {
        if a.conn.Offline? {  // a failed check is only logged
          ParkTask(t);
          return Parked;
        }
        submitErr := !a.poolAccepts;
      } else if t.op.UpdateShadow? {
        submitErr := !a.poolAccepts;
      }
      if submitErr {
        curQ.Push(t);
        return PushedBack;
      }
      submitted := submitted + multiset{t};
      if t.status.Queued? { sent := sent + [t]; }
      return Submitted;
    }

    method ParkTask(t: Task)
      modifies this`offline
      ensures offline == Park(old(offline), t)
    {
      if t.thingId in offline {
        offline := offline[t.thingId := offline[t.thingId] + [t]];
      } else {
        assert [] + [t] == [t];
        offline := offline[t.thingId := [t]];
      }
    }
  }

  /** What an account of a log says entry by entry. */
  lemma AccountsSpelled(b: Books, log: seq<Event>, b': Books)
    requires Accounts(b, log, b')
    ensures forall e | e in log && e.outcome.Parked? :: e.task in Bucket(b'.offline, e.task.thingId)
    ensures forall e | e in log && e.outcome.Submitted? :: b'.submitted[e.task] > b.submitted[e.task]
    ensures forall t: Task | t.status == Queued :: multiset(b'.sent)[t] + b.submitted[t] == multiset(b.sent)[t] + b'.submitted[t]
    ensures forall t: Task | t.status != Queued :: multiset(b'.sent)[t] == multiset(b.sent)[t]
  {
    hide Pops, ParkAll, With, SentReports, Bucket;
    forall e | e in log && e.outcome.Parked? ensures e.task in Bucket(b'.offline, e.task.thingId) {
      InWith(log, e);
      ParkAllBucket(b.offline, With(log, Parked), e.task);
      assert e.task in multiset(Bucket(b'.offline, e.task.thingId));
    }
    forall e | e in log && e.outcome.Submitted? ensures b'.submitted[e.task] > b.submitted[e.task] {
      InWith(log, e);
    }
    forall t: Task
      ensures t.status == Queued ==> multiset(b'.sent)[t] + b.submitted[t] == multiset(b.sent)[t] + b'.submitted[t]
      ensures t.status != Queued ==> multiset(b'.sent)[t] == multiset(b.sent)[t]
    {
      ReportsCount(log, t);
    }
  }

  lemma {:induction false} InWith(log: seq<Event>, e: Event)
    requires e in log
    ensures e.task in multiset(With(log, e.outcome))
  {
    var init, last := log[..|log|-1], log[|log|-1];
    assert log == init + [last];
    if e in init { InWith(init, e); }
  }

  lemma {:induction false} ReportsCount(log: seq<Event>, t: Task)
    ensures multiset(SentReports(log))[t] == if t.status == Queued then multiset(With(log, Submitted))[t] else 0
  {
    if log != [] { ReportsCount(log[..|log|-1], t); }
  }

  /** After any steps: a task that was added once is in exactly one place, and parked
      only under its own thing. */
  lemma InExactlyOnePlace(r: Runner, t: Task)
    requires r.Valid() && r.added[t] == 1
    ensures multiset(r.curQ.tasks)[t] + multiset(Bucket(r.offline, t.thingId))[t]
            + r.submitted[t] + r.gaveUp[t] + r.deleted[t] == 1
    ensures forall k | k != t.thingId :: t !in Bucket(r.offline, k)
  {
    forall k | k != t.thingId ensures t !in Bucket(r.offline, k) {
      if k in r.offline { assert t in r.offline[k] ==> t.thingId == k; }
    }
  }

  /** A popped task that has been placed makes one entry. */
  lemma EntersBooks(b: Books, e: Event, q: multiset<Task>, b': Books)
    requires b.queued == q + multiset{e.task} && forall u | u in b.queued :: NotAfter(e.task, u)
    requires b'.queued == if e.outcome.PushedBack? then q + multiset{e.task} else q
    requires b'.offline == if e.outcome.Parked? then Park(b.offline, e.task) else b.offline
    requires b'.sent == if e.outcome.Submitted? && e.task.status.Queued? then b.sent + [e.task] else b.sent
    requires b'.submitted == if e.outcome.Submitted? then b.submitted + multiset{e.task} else b.submitted
    requires b'.gaveUp == if e.outcome.GaveUp? then b.gaveUp + multiset{e.task} else b.gaveUp
    ensures Entered(b, e, b')
  {
    hide NotAfter, Park;
    TakenBack(q, e.task);
  }

  lemma TakenBack(q: multiset<Task>, t: Task)
    ensures q + multiset{t} - multiset{t} == q && t in q + multiset{t}
  {}

  ghost predicate UniqueIds(l: seq<Task>) {
    forall i, j | 0 <= i < j < |l| :: l[i].taskId != l[j].taskId
  }

  lemma NothingLost(offline: map<string, seq<Task>>)
    ensures BucketsLost(offline, offline, multiset{})
  {}

  lemma FilteredStaySorted(off0: map<string, seq<Task>>, off: map<string, seq<Task>>, jobId: string)
    requires BucketsSorted(off0) && off.Keys == off0.Keys && forall k | k in off0 :: off[k] == Without(off0[k], jobId)
    ensures BucketsSorted(off)
  {
    forall k, t | k in off && t in off[k] ensures t.thingId == k && t.op.DirectMethod? {
      WithoutDrops(off0[k], jobId);
    }
  }

  lemma SameJobIdsStart(l: seq<Task>, jobId: string)
    ensures SameJobIds(l, l[0..], jobId)
  {
    assert l[0..] == l;
  }

  lemma OtherTaskSkipped(l: seq<Task>, rest: seq<Task>, jobId: string)
    requires SameJobIds(l, rest, jobId) && rest != [] && rest[0].jobId != jobId
    ensures SameJobIds(l, rest[1..], jobId)
  {
    forall id ensures CountId(l, jobId, id) == CountId(rest[1..], jobId, id) {
      assert CountId(l, jobId, id) == CountId(rest, jobId, id);
    }
  }

  lemma QueuedIsAdded(added: multiset<Task>, queued: multiset<Task>, offline: map<string, seq<Task>>,
                      submitted: multiset<Task>, gaveUp: multiset<Task>, deleted: multiset<Task>)
    requires Balanced(added, queued, offline, submitted, gaveUp, deleted) && KeyedByJob(added)
    ensures KeyedByJob(queued)
  {
    assert forall t | t in queued :: t in added;
  }

  /** With unique ids, the removed task was the only one with its id. */
  lemma OneTaskPerId(q0: seq<Task>, l: seq<Task>, r: seq<Task>, t: Task)
    requires UniqueIds(q0) && multiset(l) <= multiset(q0) && multiset(l) == multiset(r) + multiset{t}
    ensures forall u | u in r :: u.taskId != t.taskId && u in l
  {
    forall u | u in r ensures u.taskId != t.taskId && u in l {
      assert u in multiset(r) && u in multiset(l) && u in multiset(q0) && t in multiset(q0);
      if u.taskId == t.taskId {
        var i :| 0 <= i < |q0| && q0[i] == u;
        var j :| 0 <= j < |q0| && q0[j] == t;
        assert i == j && u == t;
        assert multiset(q0)[t] >= 2;
        TwiceMeansTwoPlaces(q0, t);
      }
    }
  }

  lemma {:induction false} TwiceMeansTwoPlaces(l: seq<Task>, t: Task)
    requires multiset(l)[t] >= 2
    ensures exists i, j :: 0 <= i < j < |l| && l[i] == l[j] == t
  {
    var i :| 0 <= i < |l| && l[i] == t;
    var rest := l[..i] + l[i+1..];
    assert l == l[..i] + [t] + l[i+1..];
    assert multiset(rest)[t] >= 1;
    var k :| 0 <= k < |rest| && rest[k] == t;
    if k < i { assert l[k] == t; } else { assert l[k+1] == t; }
  }

  lemma {:induction false} NothingPushedBack(log: seq<Event>)
    requires forall i | 0 <= i < |log| :: !log[i].outcome.PushedBack?
    ensures With(log, PushedBack) == []
  {
    if log != [] { NothingPushedBack(log[..|log|-1]); }
  }

  lemma BooksStayValid(b: Books, log: seq<Event>, b': Books, answers: seq<Answer>, added: multiset<Task>, deleted: multiset<Task>)
    requires Accounts(b, log, b') && |log| <= |answers|
    requires forall i | 0 <= i < |log| :: log[i].outcome == OutcomeOf(log[i].task, answers[i])
    requires BucketsSorted(b.offline) && Balanced(added, b.queued, b.offline, b.submitted, b.gaveUp, deleted)
    ensures BucketsSorted(b'.offline) && Balanced(added, b'.queued, b'.offline, b'.submitted, b'.gaveUp, deleted)
  {
    hide Balanced, BucketsSorted, Pops, ParkAll;
    BalancedAfterDispatch(added, b.queued, b.offline, b.submitted, b.gaveUp, deleted, b'.queued, log);
    WithIsIn(log, Parked);
    ParkAllSorted(b.offline, With(log, Parked));
  }
}
