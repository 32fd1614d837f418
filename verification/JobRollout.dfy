/** The rollout scheduler (job/center.go): one loop that walks the list of pending
    jobs, filters their tasks and hands batches to the runner under a per-minute limit. */
module JobRollout {
  import opened Options
  import opened JobTypes

  // ---------- Subsequences ----------

  ghost predicate Increasing(places: seq<nat>) {
    forall i, j | 0 <= i < j < |places| :: places[i] < places[j]
  }

  /** a is b read at the given places. */
  ghost predicate ReadAt<T>(a: seq<T>, places: seq<nat>, b: seq<T>) {
    |a| == |places| && Increasing(places) && forall i | 0 <= i < |a| :: places[i] < |b| && a[i] == b[places[i]]
  }

  /** Some entries of b, each at most once and in the order of b. */
  ghost predicate Subsequence<T>(a: seq<T>, b: seq<T>) {
    exists places: seq<nat> :: ReadAt(a, places, b)
  }

  lemma SubsequenceOfItself<T>(a: seq<T>)
    ensures Subsequence(a, a)
  {
    var places: seq<nat> := seq(|a|, i => i);
    assert ReadAt(a, places, a);
  }

  lemma SubsequenceIsTransitive<T>(a: seq<T>, b: seq<T>, c: seq<T>)
    requires Subsequence(a, b) && Subsequence(b, c)
    ensures Subsequence(a, c)
  {
    var p: seq<nat> :| ReadAt(a, p, b);
    var q: seq<nat> :| ReadAt(b, q, c);
    var places: seq<nat> := seq(|a|, i requires 0 <= i < |a| => q[p[i]]);
    assert ReadAt(a, places, c);
  }

  lemma SubsequenceGrows<T>(a: seq<T>, b: seq<T>, t: T)
    requires Subsequence(a, b)
    ensures Subsequence(a + [t], b + [t]) && Subsequence(a, b + [t])
  {
    var p: seq<nat> :| ReadAt(a, p, b);
    assert ReadAt(a, p, b + [t]);
    assert ReadAt(a + [t], p + [|b|], b + [t]);
  }

  lemma SubsequenceBehind<T>(h: seq<T>, a: seq<T>, b: seq<T>)
    requires Subsequence(a, b)
    ensures Subsequence(h + a, h + b)
  {
    var p: seq<nat> :| ReadAt(a, p, b);
    var places: seq<nat> := seq(|h| + |a|, i requires 0 <= i < |h| + |a| => if i < |h| then i else |h| + p[i - |h|]);
    assert ReadAt(h + a, places, h + b);
  }

  /** What is not repeated in b is not repeated in a subsequence of b. */
  lemma SubsequenceRepeatsNothing(a: seq<Task>, b: seq<Task>)
    requires Subsequence(a, b) && forall i, j | 0 <= i < j < |b| :: b[i].taskId != b[j].taskId
    ensures forall i, j | 0 <= i < j < |a| :: a[i].taskId != a[j].taskId
  {
    var p: seq<nat> :| ReadAt(a, p, b);
    forall i, j | 0 <= i < j < |a| ensures a[i].taskId != a[j].taskId { assert p[i] < p[j]; }
  }

  // ---------- The rate ----------

  datatype Stat = Stat(time: int, count: int)

  /** How many tasks the records after t count. */
  function Since(stat: seq<Stat>, t: int): int {
    if stat == [] then 0
    else Since(stat[..|stat|-1], t) + if stat[|stat|-1].time > t then stat[|stat|-1].count else 0
  }

  /** How many tasks the records of the minute that ends at t count. */
  function InMinute(stat: seq<Stat>, t: int): int {
    if stat == [] then 0
    else InMinute(stat[..|stat|-1], t)
         + if t - MINUTE < stat[|stat|-1].time <= t then stat[|stat|-1].count else 0
  }

  /** What is left of the limit at the given moment, up to the pending tasks. */
  function Room(max: int, stat: seq<Stat>, pending: nat, now: int): int {
    var room := max - Since(stat, now - MINUTE);
    if room <= 0 then 0 else if room > pending then pending else room
  }

  /** The batch is the largest one that the limit and the pending tasks allow. */
  lemma RoomIsLargest(max: int, stat: seq<Stat>, pending: nat, now: int)
    ensures var n := Room(max, stat, pending, now);
            && 0 <= n <= pending
            && (n > 0 ==> Since(stat, now - MINUTE) + n <= max)
            && (n == pending || Since(stat, now - MINUTE) + n >= max)
  {}

  /** What the limit check counts is what the last minute counts, for records up to now. */
  lemma {:induction false} SinceIsLastMinute(stat: seq<Stat>, now: int)
    requires forall k | 0 <= k < |stat| :: stat[k].time <= now
    ensures Since(stat, now - MINUTE) == InMinute(stat, now)
  {
    if stat != [] { SinceIsLastMinute(stat[..|stat|-1], now); }
  }

  lemma {:induction false} NothingSince(stat: seq<Stat>, t: int)
    requires forall k | 0 <= k < |stat| :: stat[k].time <= t
    ensures Since(stat, t) == 0
  {
    if stat != [] { NothingSince(stat[..|stat|-1], t); }
  }

  function Total(stat: seq<Stat>): int {
    if stat == [] then 0 else Total(stat[..|stat|-1]) + stat[|stat|-1].count
  }

  ghost predicate Counts(stat: seq<Stat>) {
    forall k | 0 <= k < |stat| :: stat[k].count >= 0
  }

  /** In no minute are more than max tasks handed out, wherever the minute begins. */
  ghost predicate RateBound(stat: seq<Stat>, max: int) {
    forall t :: InMinute(stat, t) <= max
  }

  lemma {:induction false} MinuteWithinSince(stat: seq<Stat>, t: int, s: int)
    requires Counts(stat) && s <= t - MINUTE
    ensures 0 <= InMinute(stat, t) <= Since(stat, s)
  {
    if stat != [] { MinuteWithinSince(stat[..|stat|-1], t, s); }
  }

  /** A record taken at or after the moment the limit was read keeps the bound. */
  lemma RecordKeepsRate(stat: seq<Stat>, max: int, read: int, time: int, count: int)
    requires Counts(stat) && RateBound(stat, max) && read <= time && max > 0
    requires count == 0 || 0 < count <= max - Since(stat, read - MINUTE)
    ensures RateBound(stat + [Stat(time, count)], max)
  {
    var stat' := stat + [Stat(time, count)];
    forall t ensures InMinute(stat', t) <= max {
      assert stat'[..|stat|] == stat;
      assert InMinute(stat, t) <= max;
      if t - MINUTE < time <= t { MinuteWithinSince(stat, t, read - MINUTE); }
    }
  }

  lemma TotalGrows(stat: seq<Stat>, s: Stat)
    ensures Total(stat + [s]) == Total(stat) + s.count
  {
    assert (stat + [s])[..|stat|] == stat;
  }

  // ---------- Pending jobs ----------

  datatype EndBehavior = StopRollout | Cancel | ForceCancel

  datatype Scheduling = Scheduling(startTime: int, endTime: Option<int>, endBehavior: EndBehavior)

  function Ongoing(l: seq<Task>): seq<Task> {
    if l == [] then []
    else Ongoing(l[..|l|-1]) + if IsTaskOngoing(l[|l|-1].status) then [l[|l|-1]] else []
  }

  lemma {:induction false} OngoingIsSubsequence(l: seq<Task>)
    ensures Subsequence(Ongoing(l), l)
    ensures forall t :: t in Ongoing(l) <==> t in l && (t.status == Sent || t.status == InProgress)
  {
    if l == [] {
      SubsequenceOfItself(l);
    } else {
      var init, t := l[..|l|-1], l[|l|-1];
      OngoingIsSubsequence(init);
      SubsequenceGrows(Ongoing(init), init, t);
      assert l == init + [t];
      assert Ongoing(init) + [] == Ongoing(init);
    }
  }

  method OngoingTasks(l: seq<Task>) returns (ongoing: seq<Task>)
    ensures ongoing == Ongoing(l)
  {
    ongoing := [];
    for i := 0 to |l|
      invariant ongoing == Ongoing(l[..i])
    {
      assert l[..i+1][..i] == l[..i];
      if IsTaskOngoing(l[i].status) { ongoing := ongoing + [l[i]]; }
    }
    assert l[..|l|] == l;
  }

  /** A clock that never runs backwards; how far it moves between readings is arbitrary. */
  class Clock {
    const advance: nat -> nat
    var readings: nat
    var now: int

    constructor (start: int, advance: nat -> nat)
      ensures now == start
    {
      this.now, this.advance, this.readings := start, advance, 0;
    }

    method Now() returns (t: int)
      modifies this
      ensures t == now >= old(now)
    {
      now := now + advance(readings);
      readings := readings + 1;
      t := now;
    }
  }

  class PendingJob {
    const jobId: string
    const op: Operation
    const scheduling: Option<Scheduling>
    const maxPerMinute: Option<int>
    var inProgressMinutes: Option<int>
    var status: JobStatus
    var tasks: seq<Task>
    var stat: seq<Stat>

    ghost const original: seq<Task>
    ghost var handed: seq<Task>  // all batches so far
    ghost var refilled: bool     // the tasks were read again from the database

    constructor (jobId: string, op: Operation, scheduling: Option<Scheduling>, maxPerMinute: Option<int>,
                 inProgressMinutes: Option<int>, status: JobStatus, tasks: seq<Task>)
      ensures Good() && this.jobId == jobId && this.tasks == tasks == original && handed == [] && !refilled
    {
      this.jobId, this.op, this.scheduling := jobId, op, scheduling;
      this.maxPerMinute, this.inProgressMinutes := maxPerMinute, inProgressMinutes;
      this.status, this.tasks, this.stat := status, tasks, [];
      original, handed, refilled := tasks, [], false;
      new;
      assert handed + this.tasks == original;
      SubsequenceOfItself(original);
    }

    predicate Limited() {
      maxPerMinute.Some? && maxPerMinute.value > 0
    }

    /** Batches and remaining tasks follow the original list, and the rate is kept. */
    ghost predicate Good()
      reads this
    {
      && Counts(stat) && Total(stat) == |handed|
      && (Limited() ==> RateBound(stat, maxPerMinute.value))
      && (refilled ==> MayRefill())
      && (!refilled ==> Subsequence(handed + tasks, original))
    }

    /** Only the CANCEL end behaviour reads the tasks again. */
    ghost predicate MayRefill() {
      scheduling.Some? && scheduling.value.endBehavior.Cancel?
    }

    /** How many tasks the limit lets out now. */
    method NextRolloutCount(max: int, clock: Clock) returns (n: int)
      requires max > 0 && Counts(stat)
      modifies clock
      ensures clock.now >= old(clock.now)
      ensures n == Room(max, stat, |tasks|, clock.now)
      // the largest batch allowed
      ensures 0 <= n <= |tasks| && (n > 0 ==> Since(stat, clock.now - 60_000_000_000) + n <= max)
      ensures n == |tasks| || Since(stat, clock.now - 60_000_000_000) + n >= max
      // a job that has rested for a minute goes on
      ensures (forall s | s in stat :: s.time <= old(clock.now) - 60_000_000_000) ==> n == if |tasks| <= max then |tasks| else max
    {
      var now := clock.Now();
      var minuteAgo := now - MINUTE;
      var current := 0;
      for i := 0 to |stat|
        invariant current == Since(stat[..i], minuteAgo)
      {
        assert stat[..i+1][..i] == stat[..i];
        if stat[i].time > minuteAgo { current := current + stat[i].count; }
      }
      assert stat[..|stat|] == stat;
      if forall s | s in stat :: s.time <= minuteAgo { NothingSince(stat, minuteAgo); }
      if current >= max { return 0; }
      n := max - current;
      if n > |tasks| { n := |tasks|; }
    }
  }

  // ---------- The scheduler ----------

  /** What the scheduler asks of the runner and writes to the task table. */
  datatype Call =
    | Put(jobId: string, batch: seq<Task>)
    | CancelJob(jobId: string, force: bool)
    | TimeOut(task: Task)

  /** How the database answers while one job is looked at. */
  datatype Reply = Reply(cancelOk: bool, updateOk: bool, ongoing: Option<seq<Task>>)

  datatype Verdict = Kept | Removed | Skipped

  /** The list without the removed jobs. */
  ghost function Survivors(jobs: seq<PendingJob>, verdicts: seq<Verdict>): seq<PendingJob>
    requires |jobs| == |verdicts|
  {
    if jobs == [] then []
    else
      var n := |jobs| - 1;
      Survivors(jobs[..n], verdicts[..n]) + if verdicts[n].Removed? then [] else [jobs[n]]
  }

  /** A job is skipped exactly when the one before it has been removed. */
  ghost predicate SkipsAfterRemoval(verdicts: seq<Verdict>) {
    forall k | 0 <= k < |verdicts| :: verdicts[k].Skipped? <==> k > 0 && verdicts[k-1].Removed?
  }

  lemma SurvivorsGrow(jobs: seq<PendingJob>, k: int, verdicts: seq<Verdict>, v: Verdict)
    requires 0 <= k < |jobs| && |verdicts| == k
    ensures Survivors(jobs[..k+1], verdicts + [v]) ==
            Survivors(jobs[..k], verdicts) + if v.Removed? then [] else [jobs[k]]
  {
    assert jobs[..k+1][..k] == jobs[..k];
    assert (verdicts + [v])[..k] == verdicts;
  }

  lemma {:induction false} SurvivorsKeepOrder(jobs: seq<PendingJob>, verdicts: seq<Verdict>)
    requires |jobs| == |verdicts|
    ensures Subsequence(Survivors(jobs, verdicts), jobs)
    ensures forall v :: v in Survivors(jobs, verdicts) <==> exists k :: 0 <= k < |jobs| && jobs[k] == v && !verdicts[k].Removed?
  {
    if jobs == [] {
      SubsequenceOfItself(jobs);
    } else {
      var n := |jobs| - 1;
      var rest := Survivors(jobs[..n], verdicts[..n]);
      SurvivorsKeepOrder(jobs[..n], verdicts[..n]);
      SubsequenceGrows(rest, jobs[..n], jobs[n]);
      assert jobs == jobs[..n] + [jobs[n]] && rest + [] == rest;
      forall v | v in Survivors(jobs, verdicts) ensures exists k :: 0 <= k < |jobs| && jobs[k] == v && !verdicts[k].Removed? {
        if v in rest {
          var k :| 0 <= k < n && jobs[..n][k] == v && !verdicts[..n][k].Removed?;
          assert jobs[k] == v;
        }
      }
      forall k | 0 <= k < |jobs| && !verdicts[k].Removed? ensures jobs[k] in Survivors(jobs, verdicts) {
        if k < n { assert jobs[..n][k] == jobs[k] && verdicts[..n][k] == verdicts[k]; }
      }
    }
  }

  ghost predicate DistinctIds(jobs: seq<PendingJob>) {
    forall i, j | 0 <= i < j < |jobs| :: jobs[i].jobId != jobs[j].jobId
  }

  /** The list and its backing array while a job is being removed. */
  ghost predicate Shifted(all: seq<PendingJob>, jobs: seq<PendingJob>, slots: seq<PendingJob>, at: int, gone: bool) {
    if gone
    then 0 <= at < |all| && jobs == all[..at] + all[at+1..] && slots == jobs + [all[|all|-1]]
    else jobs == slots == all
  }

  lemma ShiftedAt(all: seq<PendingJob>, i: int)
    ensures Shifted(all, all, all, i, false)
    ensures 0 <= i < |all| ==> var jobs := all[..i] + all[i+1..]; Shifted(all, jobs, jobs + all[|jobs|..], i, true)
  {
    if 0 <= i < |all| { assert all[|all|-1..] == [all[|all|-1]]; }
  }

  lemma ShiftedLength(all: seq<PendingJob>, jobs: seq<PendingJob>, slots: seq<PendingJob>, at: int, gone: bool)
    requires Shifted(all, jobs, slots, at, gone)
    ensures |slots| == |all|
  {}

  /** Behind the removed job the loop meets no job with its id again. */
  lemma SeenOnce(all: seq<PendingJob>, jobs: seq<PendingJob>, slots: seq<PendingJob>, at: int, gone: bool, i: int, jobId: string)
    requires DistinctIds(all) && Shifted(all, jobs, slots, at, gone)
    requires -1 <= at < i < |all| && (at >= 0 ==> all[at].jobId == jobId) && (gone ==> at >= 0)
    ensures i < |slots| && slots[i] in all && (at >= 0 ==> slots[i].jobId != jobId && all[i].jobId != jobId)
    ensures !gone ==> jobs == slots == all
  {
    if at >= 0 { assert all[at].jobId != all[i].jobId; }
    if gone {
      var k := if i + 1 < |all| then i + 1 else |all| - 1;
      assert slots[i] == all[k] && all[k].jobId != all[at].jobId;
    }
  }

  lemma GoneBeforeLast<T>(l: seq<T>, at: int)
    requires 0 <= at < |l| - 1
    ensures var init := l[..|l|-1]; l[..at] + l[at+1..] == init[..at] + init[at+1..] + [l[|l|-1]]
  {}

  lemma ListWithoutGone(all: seq<PendingJob>, jobs: seq<PendingJob>, slots: seq<PendingJob>, at: int, gone: bool)
    requires Shifted(all, jobs, slots, at, gone)
    ensures jobs == if gone && 0 <= at < |all| then all[..at] + all[at+1..] else all
  {}

  lemma {:induction false} OneGone(jobs: seq<PendingJob>, at: int, gone: bool, verdicts: seq<Verdict>)
    requires |jobs| == |verdicts| && (gone ==> at >= 0)
    requires forall k | 0 <= k < |jobs| :: verdicts[k].Removed? <==> gone && k == at
    ensures Survivors(jobs, verdicts) == if gone && at < |jobs| then jobs[..at] + jobs[at+1..] else jobs
  {
    if jobs != [] {
      var n := |jobs| - 1;
      OneGone(jobs[..n], at, gone, verdicts[..n]);
      assert jobs == jobs[..n] + [jobs[n]];
      if gone && at < n { GoneBeforeLast(jobs, at); }
      if gone && at == n { assert jobs[..n] + jobs[n+1..] == jobs[..n]; }
    }
  }

  lemma SurvivorsDistinct(jobs: seq<PendingJob>, verdicts: seq<Verdict>)
    requires |jobs| == |verdicts| && DistinctIds(jobs)
    ensures DistinctIds(Survivors(jobs, verdicts))
  {
    SurvivorsKeepOrder(jobs, verdicts);
    var places: seq<nat> :| ReadAt(Survivors(jobs, verdicts), places, jobs);
  }

  /** Everything the runner was given for a job. */
  function Batches(calls: seq<Call>, jobId: string): seq<Task> {
    if calls == [] then []
    else
      var c := calls[|calls|-1];
      Batches(calls[..|calls|-1], jobId) + if c.Put? && c.jobId == jobId then c.batch else []
  }

  lemma BatchesGrow(calls: seq<Call>, c: Call, jobId: string)
    ensures Batches(calls + [c], jobId) == Batches(calls, jobId) + if c.Put? && c.jobId == jobId then c.batch else []
  {
    assert (calls + [c])[..|calls|] == calls;
  }

  /** The runner was given nothing for jobs outside the list. */
  ghost predicate OthersKeep(list: seq<PendingJob>, calls: seq<Call>, calls': seq<Call>) {
    forall id | (forall v | v in list :: v.jobId != id) :: Batches(calls', id) == Batches(calls, id)
  }

  lemma OthersKeepOn(list: seq<PendingJob>, a: seq<Call>, b: seq<Call>, c: seq<Call>, v: PendingJob)
    requires OthersKeep(list, a, b) && v in list && forall id | id != v.jobId :: Batches(c, id) == Batches(b, id)
    ensures OthersKeep(list, a, c)
  {
    hide Batches;
  }

  predicate Early(s: Option<Scheduling>, t: int) {
    s.Some? && t < s.value.startTime
  }

  predicate Late(s: Option<Scheduling>, t: int) {
    s.Some? && s.value.endTime.Some? && t > s.value.endTime.value
  }

  function TimeOuts(l: seq<Task>): seq<Call> {
    seq(|l|, i requires 0 <= i < |l| => TimeOut(l[i]))
  }

  /** The tasks of l are those kept and those dropped. */
  ghost predicate Divided(l: seq<Task>, kept: seq<Task>, dropped: seq<Task>) {
    multiset(l) == multiset(kept) + multiset(dropped)
  }

  lemma OneCallEach(l: seq<Task>)
    ensures |TimeOuts(l)| == |l|
  {}

  lemma NothingDropped(l: seq<Task>, calls: seq<Call>)
    ensures Divided(l, l, []) && calls + TimeOuts([]) == calls
  {}

  lemma OneDivided(l: seq<Task>, kept: seq<Task>, dropped: seq<Task>, t: Task, calls: seq<Call>)
    requires Divided(l, kept, dropped)
    ensures Divided(l + [t], kept + [t], dropped) && Divided(l + [t], kept, dropped + [t])
    ensures calls + TimeOuts(dropped) + [TimeOut(t)] == calls + TimeOuts(dropped + [t])
  {}

  lemma DividedExactly(l: seq<Task>, kept: seq<Task>, dropped: seq<Task>)
    requires Divided(l, kept, dropped)
    ensures multiset(l) == multiset(kept) + multiset(dropped)
  {}

  lemma StillOverdue(t: Task, minutes: int, earlier: int, later: int)
    requires earlier <= later
    ensures Overdue(t, minutes, earlier) ==> Overdue(t, minutes, later)
  {}

  predicate Ended(s: Option<Scheduling>, t: int) {
    !Early(s, t) && Late(s, t)
  }

  twostate predicate Untouched(v: PendingJob)
    reads v
  {
    && v.status == old(v.status) && v.tasks == old(v.tasks) && v.stat == old(v.stat)
    && v.handed == old(v.handed) && v.refilled == old(v.refilled)
  }

  /** If the job is in time from t0 to t1, not ending, without a task timeout, and has tasks,
      then a batch of them has been handed out since: all without a limit, and with a limit
      one at least when the job has rested for a minute. */
  ghost predicate Served(v: PendingJob, t0: int, t1: int, status: JobStatus, tasks: seq<Task>, stat: seq<Stat>)
    reads v
  {
    (&& (v.scheduling.Some? ==>
           && v.scheduling.value.startTime <= t0
           && (v.scheduling.value.endTime.Some? ==> t1 <= v.scheduling.value.endTime.value))
     && (status == Waiting || status == JobInProgress)
     && (v.inProgressMinutes.None? || v.inProgressMinutes.value <= 0) && tasks != []) ==>
      && |v.stat| == |stat| + 1
      && var n := v.stat[|stat|].count;
      && 0 <= n <= |tasks| && v.tasks == tasks[n..]
      && (v.maxPerMinute.None? || v.maxPerMinute.value <= 0 ==> v.tasks == [])
      && (v.maxPerMinute.Some? && (forall s | s in stat :: s.time <= t0 - 60_000_000_000) ==> n > 0)
  }

  lemma Longer(v: PendingJob, remove: bool, t0: int, t1: int, t0': int, t1': int,
               status: JobStatus, tasks: seq<Task>, stat: seq<Stat>)
    requires Served(v, t0, t1, status, tasks, stat) && Judged(v, remove, t0, t1) && t0' <= t0 && t1 <= t1'
    ensures Served(v, t0', t1', status, tasks, stat) && Judged(v, remove, t0', t1')
  {}

  /** Why a job is removed, and why one without tasks stays. */
  ghost predicate Judged(v: PendingJob, remove: bool, t0: int, t1: int)
    reads v
  {
    && (remove ==> v.tasks == [] || (v.scheduling.Some? && v.scheduling.value.endBehavior.ForceCancel? && v.status == JobCanceled))
    && (!remove && v.tasks == [] ==>
          && v.scheduling.Some?
          && (t0 < v.scheduling.value.startTime || !v.scheduling.value.endBehavior.StopRollout?))
  }

  /** The fields of a job that a pass may change. */
  datatype Before = Before(status: JobStatus, tasks: seq<Task>, stat: seq<Stat>, handed: seq<Task>, refilled: bool)

  ghost function Snapshot(v: PendingJob): Before
    reads v
  {
    Before(v.status, v.tasks, v.stat, v.handed, v.refilled)
  }

  /** What a pass has made of a job: a skipped one is as it was, others have been served. */
  ghost predicate Fate(v: PendingJob, verdict: Verdict, was: Before, t0: int, t1: int)
    reads v
  {
    if verdict.Skipped? then Snapshot(v) == was
    else Judged(v, verdict.Removed?, t0, t1) && Served(v, t0, t1, was.status, was.tasks, was.stat)
  }

  /** The jobs with a verdict have met their fate, the others are as they were. */
  ghost predicate Fates(all: seq<PendingJob>, verdicts: seq<Verdict>, was: seq<Before>, t0: int, t1: int)
    reads all
  {
    && |was| == |all| && |verdicts| <= |all|
    && (forall k | 0 <= k < |verdicts| :: Fate(all[k], verdicts[k], was[k], t0, t1))
    && (forall k | |verdicts| <= k < |all| :: Snapshot(all[k]) == was[k])
  }

  class Scheduler {
    const clock: Clock
    var jobs: seq<PendingJob>
    var calls: seq<Call>
    ghost var known: set<PendingJob>  // all jobs that were ever pending

    constructor (clock: Clock, jobs: seq<PendingJob>)
      requires DistinctIds(jobs) && forall v | v in jobs :: v.Good() && v.handed == []
      ensures Valid() && this.clock == clock && this.jobs == jobs && calls == [] && known == set v | v in jobs
    {
      this.clock, this.jobs, this.calls := clock, jobs, [];
      known := set v | v in jobs;
    }

    /** What a job has handed out is what the runner was given for it. */
    ghost predicate Kept(v: PendingJob)
      reads this`calls, v
    {
      v.Good() && v.handed == Batches(calls, v.jobId)
    }

    /** The accounts of all jobs are kept, those of finished and removed ones too. */
    ghost predicate Accounted()
      reads this`calls, this`known, known
    {
      && (forall v, w | v in known && w in known && v.jobId == w.jobId :: v == w)
      && (forall v | v in known :: Kept(v))
      && forall id | (forall v | v in known :: v.jobId != id) :: Batches(calls, id) == []
    }

    ghost predicate Valid()
      reads this, known
    {
      DistinctIds(jobs) && (forall v | v in jobs :: v in known) && Accounted()
    }

    /** Work on the jobs of a list leaves the accounts of all others alone. */
    twostate lemma AccountsStay(list: seq<PendingJob>)
      requires old(Accounted()) && known == old(known)
      requires forall v | v in list :: v in known && Kept(v)
      requires forall v | v in known && v !in list :: unchanged(v)
      requires OthersKeep(list, old(calls), calls)
      ensures Accounted()
    {
      hide PendingJob.Good, Batches;
      forall v | v in known ensures Kept(v) {
        if v !in list {
          assert old(Kept(v));
          assert forall w | w in list :: w.jobId != v.jobId;
        }
      }
    }

    method InTime(s: Option<Scheduling>) returns (r: bool)
      modifies clock
      ensures clock.now >= old(clock.now)
      ensures Early(s, clock.now) ==> !r
      ensures !Early(s, old(clock.now)) && Late(s, old(clock.now)) ==> !r
      ensures !Early(s, old(clock.now)) && !Late(s, clock.now) ==> r
    {
      if s.None? { return true; }
      var t := clock.Now();
      if t < s.value.startTime { return false; }
      if s.value.endTime.None? { return true; }
      t := clock.Now();
      return !(t > s.value.endTime.value);
    }

    method ScheduleFilter(v: PendingJob, reply: Reply) returns (next: bool, remove: bool)
      requires v.Good()
      modifies v`status, v`tasks, v`refilled, clock, this`calls
      ensures v.Good() && clock.now >= old(clock.now) && !(next && remove) && old(calls) <= calls
      ensures forall id :: Batches(calls, id) == Batches(old(calls), id)
      // the runner is only asked to cancel late, or when the start passes during the call
      ensures calls != old(calls) || (v.status == JobStatus.JobCanceled && old(v.status) != JobStatus.JobCanceled) ==>
                && v.scheduling.Some?
                && ((v.scheduling.value.endTime.Some? && clock.now > v.scheduling.value.endTime.value)
                    || old(clock.now) < v.scheduling.value.startTime <= clock.now)
      // the tasks are read again exactly when a canceled job goes on
      ensures v.refilled && !old(v.refilled) ==>
                next && v.MayRefill() && v.status == JobStatus.JobCanceled && reply.ongoing == Some(v.tasks)
      ensures Ended(v.scheduling, old(clock.now)) && v.MayRefill() && next ==> v.refilled
      // before the start nothing happens
      ensures v.scheduling.Some? && clock.now < v.scheduling.value.startTime ==>
                !next && !remove && calls == old(calls) && Untouched(v)
      // in time
      ensures (v.scheduling.Some? ==>
                 && v.scheduling.value.startTime <= old(clock.now)
                 && (v.scheduling.value.endTime.Some? ==> clock.now <= v.scheduling.value.endTime.value)) ==>
                && calls == old(calls) && v.refilled == old(v.refilled)
                && v.status == (if old(v.status) == Waiting then JobInProgress else old(v.status))
                && v.tasks == (if v.status == JobInProgress then old(v.tasks) else Ongoing(old(v.tasks)))
                && next == (v.tasks != []) && remove == !next
      // after the end
      ensures Ended(v.scheduling, old(clock.now)) ==>
                match v.scheduling.value.endBehavior
                case StopRollout =>
                  next && v.tasks == Ongoing(old(v.tasks)) && v.status == old(v.status) && calls == old(calls)
                case Cancel =>
                  && next == (reply.cancelOk && reply.updateOk && reply.ongoing.Some?) && !remove
                  && v.tasks == (if next then reply.ongoing.value else old(v.tasks))
                  && v.status == JobCanceled && calls == old(calls) + [CancelJob(v.jobId, false)]
                case ForceCancel =>
                  && !next && remove == (reply.cancelOk && reply.updateOk) && v.tasks == old(v.tasks)
                  && v.status == JobCanceled && calls == old(calls) + [CancelJob(v.jobId, true)]
      // when the job is removed, and when it waits although it has no tasks
      ensures remove ==> v.tasks == [] || (v.scheduling.Some? && v.scheduling.value.endBehavior.ForceCancel? && v.status == JobCanceled)
      ensures !next && !remove ==>
                && v.scheduling.Some?
                && (clock.now < v.scheduling.value.startTime || !v.scheduling.value.endBehavior.StopRollout?)
    {
      hide RateBound, Counts, Total, Subsequence, Batches, Ongoing;
      var inTime := InTime(v.scheduling);
      if inTime {
        next, remove := true, false;
        if v.status.Waiting? { v.status := JobInProgress; }
        if IsJobToTerminal(v.status) { DropUnsent(v); }
        if |v.tasks| == 0 { next, remove := false, true; }
        return;
      }
      var t := clock.Now();
      if t < v.scheduling.value.startTime { return false, false; }
      if v.scheduling.value.endBehavior.StopRollout? {
        DropUnsent(v);
        return true, false;
      }
      v.status := JobCanceled;
      var force := v.scheduling.value.endBehavior.ForceCancel?;
      next, remove := !force, force;
      forall id ensures Batches(calls + [CancelJob(v.jobId, force)], id) == Batches(calls, id) {
        BatchesGrow(calls, CancelJob(v.jobId, force), id);
      }
      calls := calls + [CancelJob(v.jobId, force)];
      if !reply.cancelOk { next, remove := false, false; }
      if !reply.updateOk { next, remove := false, false; }
      if next {
        if reply.ongoing.None? {
          next, remove := false, false;
        } else {
          remove := false;
          v.tasks, v.refilled := reply.ongoing.value, true;
        }
      }
    }

    method DropUnsent(v: PendingJob)
      requires v.Good()
      modifies v`tasks
      ensures v.Good() && v.tasks == Ongoing(old(v.tasks))
    {
      var l := OngoingTasks(v.tasks);
      OngoingIsSubsequence(v.tasks);
      RestFollows(v, l);
      v.tasks := l;
    }

    method TimeoutFilter(v: PendingJob) returns (next: bool, remove: bool, ghost dropped: seq<Task>)
      requires v.Good()
      modifies v`tasks, clock, this`calls
      ensures v.Good() && clock.now >= old(clock.now) && remove == !next
      ensures forall id :: Batches(calls, id) == Batches(old(calls), id)
      ensures Subsequence(v.tasks, old(v.tasks)) && multiset(old(v.tasks)) == multiset(v.tasks) + multiset(dropped)
      ensures calls == old(calls) + TimeOuts(dropped) && |calls| == |old(calls)| + |dropped|
      ensures v.inProgressMinutes.None? || v.inProgressMinutes.value <= 0 ==>
                next && v.tasks == old(v.tasks) && dropped == [] && calls == old(calls)
      ensures v.inProgressMinutes.Some? && v.inProgressMinutes.value > 0 ==>
                && next == (v.tasks != [])
                && (forall t | t in v.tasks :: !Overdue(t, v.inProgressMinutes.value, old(clock.now)))
                && (forall t | t in dropped :: Overdue(t, v.inProgressMinutes.value, clock.now))
    {
      hide RateBound, Counts, Total, Subsequence, Batches, Overdue, Divided, TimeOuts;
      dropped := [];
      SubsequenceOfItself(v.tasks);
      NothingDropped(v.tasks, calls);
      if v.inProgressMinutes.None? || v.inProgressMinutes.value <= 0 { return true, false, []; }
      var minutes := v.inProgressMinutes.value;
      var remain := [];
      SubsequenceOfItself(remain);
      NothingDropped(remain, calls);
      for i := 0 to |v.tasks|
        invariant v.tasks == old(v.tasks) && v.Good() && clock.now >= old(clock.now)
        invariant forall id :: Batches(calls, id) == Batches(old(calls), id)
        invariant Subsequence(remain, v.tasks[..i]) && Divided(v.tasks[..i], remain, dropped)
        invariant calls == old(calls) + TimeOuts(dropped)
        invariant forall t | t in remain :: !Overdue(t, minutes, old(clock.now))
        invariant forall t | t in dropped :: Overdue(t, minutes, clock.now)
      {
        var t := v.tasks[i];
        assert v.tasks[..i+1] == v.tasks[..i] + [t];
        SubsequenceGrows(remain, v.tasks[..i], t);
        OneDivided(v.tasks[..i], remain, dropped, t, old(calls));
        ghost var before := clock.now;
        var timeout := CheckTimeoutTask(t, minutes);
        StillOverdue(t, minutes, old(clock.now), before);
        forall u { StillOverdue(u, minutes, before, clock.now); }
        if timeout {
          dropped := dropped + [t];
        } else {
          remain := remain + [t];
        }
      }
      assert v.tasks[..|v.tasks|] == v.tasks;
      DividedExactly(v.tasks, remain, dropped);
      assert |TimeOuts(dropped)| == |dropped| by { OneCallEach(dropped); }
      next, remove := remain != [], remain == [];
      RestFollows(v, remain);
      v.tasks := remain;
    }

    /** A task that is due is written TIMED_OUT without looking at its row again. */
    method CheckTimeoutTask(t: Task, minutes: int) returns (timeout: bool)
      modifies clock, this`calls
      ensures clock.now >= old(clock.now)
      ensures forall id :: Batches(calls, id) == Batches(old(calls), id)
      ensures timeout ==> Overdue(t, minutes, clock.now) && calls == old(calls) + [TimeOut(t)]
      ensures !timeout ==> !Overdue(t, minutes, old(clock.now)) && calls == old(calls)
      ensures timeout ==>
                && t.status == InProgress && t.startedAt.Some?
                && clock.now - t.startedAt.value * 1_000_000 >= minutes * 60_000_000_000
      ensures (t.status == InProgress && t.startedAt.Some?
               && old(clock.now) - t.startedAt.value * 1_000_000 >= minutes * 60_000_000_000) ==> timeout
    {
      if !t.status.InProgress? || t.startedAt.None? { return false; }
      var now := clock.Now();
      if now - t.startedAt.value * MILLISECOND < minutes * MINUTE { return false; }
      forall id ensures Batches(calls + [TimeOut(t)], id) == Batches(calls, id) { BatchesGrow(calls, TimeOut(t), id); }
      calls := calls + [TimeOut(t)];
      return true;
    }

    /** Hands the next batch to the runner and records it. */
    method RollOut(v: PendingJob) returns (ghost read: int)
      requires Kept(v)
      modifies v`tasks, v`handed, v`stat, clock, this`calls
      ensures Kept(v) && clock.now >= old(clock.now)
      ensures forall id | id != v.jobId :: Batches(calls, id) == Batches(old(calls), id)
      ensures |v.stat| == |old(v.stat)| + 1 && v.stat[..|old(v.stat)|] == old(v.stat) && v.stat[|old(v.stat)|].time == clock.now
      ensures var n := v.stat[|old(v.stat)|].count;
              && 0 <= n <= |old(v.tasks)| && v.tasks == old(v.tasks)[n..]
              && calls == old(calls) + [Put(v.jobId, old(v.tasks)[..n])]
      ensures v.maxPerMinute.None? || v.maxPerMinute.value <= 0 ==> v.tasks == []
      // under a limit: the largest batch that the limit allows at one reading of the clock
      ensures var n := v.stat[|old(v.stat)|].count;
              v.maxPerMinute.Some? && v.maxPerMinute.value > 0 ==>
                && old(clock.now) <= read <= clock.now
                && (n > 0 ==> Since(old(v.stat), read - 60_000_000_000) + n <= v.maxPerMinute.value)
                && (v.tasks == [] || Since(old(v.stat), read - 60_000_000_000) + n >= v.maxPerMinute.value)
      // a job that has rested for a minute goes on
      ensures (v.maxPerMinute.Some? && v.maxPerMinute.value > 0
               && forall s | s in old(v.stat) :: s.time <= old(clock.now) - 60_000_000_000) ==>
                v.stat[|old(v.stat)|].count == if |old(v.tasks)| <= v.maxPerMinute.value then |old(v.tasks)| else v.maxPerMinute.value
    {
      hide RateBound, Counts, Total, Subsequence, Batches, Since;
      var n := |v.tasks|;
      ghost var room := n;
      if v.Limited() {
        n := v.NextRolloutCount(v.maxPerMinute.value, clock);
      }
      read := clock.now;
      ghost var limited := v.Limited();
      assert limited ==>
        && (n > 0 ==> Since(v.stat, read - 60_000_000_000) + n <= v.maxPerMinute.value)
        && (n == |v.tasks| || Since(v.stat, read - 60_000_000_000) + n >= v.maxPerMinute.value);
      var batch := v.tasks[..n];
      HandedFollows(v, n);
      v.tasks := v.tasks[n..];
      forall id ensures Batches(calls + [Put(v.jobId, batch)], id) == Batches(calls, id) + if id == v.jobId then batch else [] {
        BatchesGrow(calls, Put(v.jobId, batch), id);
      }
      calls := calls + [Put(v.jobId, batch)];
      v.handed := v.handed + batch;
      var time := clock.Now();
      CountedOneMore(v.stat, Stat(time, n));
      if v.Limited() { RecordKeepsRate(v.stat, v.maxPerMinute.value, read, time, n); }
      v.stat := v.stat + [Stat(time, n)];
    }

    /** One visit of the loop body; remove is set where the source deletes the job from the list. */
    method Visit(v: PendingJob, reply: Reply) returns (remove: bool)
      requires Kept(v)
      modifies v`status, v`tasks, v`handed, v`stat, v`refilled, clock, this`calls
      ensures Kept(v) && clock.now >= old(clock.now) && old(calls) <= calls
      ensures forall id | id != v.jobId :: Batches(calls, id) == Batches(old(calls), id)
      ensures v.scheduling.Some? && clock.now < v.scheduling.value.startTime ==> !remove && Untouched(v) && calls == old(calls)
      ensures remove ==> v.tasks == [] || (v.scheduling.Some? && v.scheduling.value.endBehavior.ForceCancel? && v.status == JobCanceled)
      ensures !remove && v.tasks == [] ==>
                && v.scheduling.Some?
                && (old(clock.now) < v.scheduling.value.startTime || !v.scheduling.value.endBehavior.StopRollout?)
      // a job that is in time, not ending, without a task timeout, and has tasks, is handed out
      ensures (&& (v.scheduling.Some? ==>
                     && v.scheduling.value.startTime <= old(clock.now)
                     && (v.scheduling.value.endTime.Some? ==> clock.now <= v.scheduling.value.endTime.value))
               && (old(v.status) == Waiting || old(v.status) == JobInProgress)
               && (v.inProgressMinutes.None? || v.inProgressMinutes.value <= 0) && old(v.tasks) != []) ==>
                && |v.stat| == |old(v.stat)| + 1
                && var n := v.stat[|old(v.stat)|].count;
                && 0 <= n <= |old(v.tasks)| && v.tasks == old(v.tasks)[n..]
                && calls == old(calls) + [Put(v.jobId, old(v.tasks)[..n])]
                && (v.maxPerMinute.None? || v.maxPerMinute.value <= 0 ==> v.tasks == [])
                && (v.maxPerMinute.Some? && (forall s | s in old(v.stat) :: s.time <= old(clock.now) - 60_000_000_000) ==> n > 0)
    {
      hide RateBound, Counts, Total, Subsequence, Batches, Overdue, Since, Ongoing, TimeOuts, PendingJob.Good;
      var next;
      next, remove := ScheduleFilter(v, reply);
      if !next { return; }
      ghost var dropped, read;
      next, remove, dropped := TimeoutFilter(v);
      if !next { return; }
      read := RollOut(v);
      remove := |v.tasks| == 0;
    }

    method DeletePendingAt(i: int)
      requires 0 <= i < |jobs|
      modifies this`jobs
      ensures jobs == old(jobs[..i] + jobs[i+1..])
    {
      jobs := jobs[..i] + jobs[i+1..];
    }

    /** A new pending job goes to the end of the list. */
    method AddPending(p: PendingJob)
      requires Valid() && p.Good() && p.handed == []
      requires forall v | v in known :: v.jobId != p.jobId  // a job id is used once
      modifies this`jobs, this`known
      ensures Valid() && jobs == old(jobs) + [p] && known == old(known) + {p}
    {
      jobs := jobs + [p];
      known := known + {p};
    }

    /** A configuration message reaches the first job with the id. */
    method UpdateTimeout(jobId: string, minutes: Option<int>)
      requires Valid()
      modifies jobs
      ensures Valid() && known == old(known) && forall v | v in jobs :: Untouched(v)
      ensures forall v | v in jobs :: v.inProgressMinutes ==
                if v.jobId == jobId && minutes.Some? then minutes else old(v.inProgressMinutes)
    {
      for i := 0 to |jobs|
        invariant forall k | 0 <= k < i :: jobs[k].jobId != jobId
        invariant forall v | v in jobs :: v.inProgressMinutes == old(v.inProgressMinutes) && Untouched(v)
        invariant Valid()
      {
        if jobs[i].jobId == jobId {
          if minutes.Some? { jobs[i].inProgressMinutes := minutes; }
          return;
        }
      }
    }

    /** Deletes job j at i, or only its tasks that were not sent. */
    method TakeOut(j: PendingJob, i: int, force: bool, ghost all: seq<PendingJob>) returns (gone: bool)
      requires 0 <= i < |jobs| && j in all && forall v | v in all :: Kept(v)
      modifies this`jobs, j`tasks
      ensures gone <==> force || Ongoing(old(j.tasks)) == []
      ensures jobs == if gone then old(jobs[..i] + jobs[i+1..]) else old(jobs)
      ensures j.tasks == if force then old(j.tasks) else Ongoing(old(j.tasks))
      ensures forall v | v in all :: Kept(v)
    {
      hide PendingJob.Good, Ongoing, Batches;
      if !force { DropUnsent(j); }
      gone := force || |j.tasks| == 0;
      if gone { DeletePendingAt(i); }
    }

    /** The removal moves the jobs behind it in the backing array as well. */
    method TakeOutShifting(j: PendingJob, i: int, force: bool, ghost all: seq<PendingJob>)
      returns (slots: seq<PendingJob>, gone: bool)
      requires jobs == all && 0 <= i < |jobs| && j in all && forall v | v in all :: Kept(v)
      modifies this`jobs, j`tasks
      ensures gone <==> force || Ongoing(old(j.tasks)) == []
      ensures |slots| == |all| && Shifted(all, jobs, slots, i, gone)
      ensures j.tasks == if force then old(j.tasks) else Ongoing(old(j.tasks))
      ensures forall v | v in all :: Kept(v)
    {
      hide PendingJob.Good, Ongoing, Batches, Shifted;
      slots := jobs;
      ShiftedAt(all, i);
      gone := TakeOut(j, i, force, all);
      if gone { slots := jobs + slots[|jobs|..]; }
      ShiftedLength(all, jobs, slots, i, gone);
    }

    /** A cancel or delete message. */
    method RemoveJob(jobId: string, force: bool) returns (ghost verdicts: seq<Verdict>)
      requires Valid()
      modifies this`jobs, jobs
      ensures Valid() && |verdicts| == |old(jobs)| && jobs == Survivors(old(jobs), verdicts)
      ensures forall k | 0 <= k < |verdicts| :: verdicts[k].Removed? <==>
                old(jobs)[k].jobId == jobId && (force || Ongoing(old(jobs[k].tasks)) == [])
      ensures forall v | v in old(jobs) :: Kept(v) &&
                v.tasks == if v.jobId == jobId && !force then Ongoing(old(v.tasks)) else old(v.tasks)
    {
      hide PendingJob.Good, Ongoing, Survivors, Batches, OthersKeep, Accounted;
      KeptByAccounts();
      ghost var all := jobs;
      ghost var at, gone := TakeOutFirst(jobId, force);
      verdicts := seq(|all|, k requires 0 <= k < |all| => if gone && k == at then Removed else Verdict.Kept);
      OneGone(all, at, gone, verdicts);
      SurvivorsKeepOrder(all, verdicts);
      SurvivorsDistinct(all, verdicts);
      AccountsStay(all);
    }

    /** The loop ranges over the list as it was, whose array the deletion shifts in
        place, so behind a deletion the last job is seen twice. */
    method TakeOutFirst(jobId: string, force: bool) returns (ghost at: int, ghost gone: bool)
      requires DistinctIds(jobs) && forall v | v in jobs :: Kept(v)
      modifies this`jobs, jobs
      ensures -1 <= at < |old(jobs)| && (gone ==> at >= 0)
      ensures forall k | 0 <= k < |old(jobs)| :: old(jobs)[k].jobId == jobId <==> k == at
      ensures at >= 0 ==> var v := old(jobs)[at]; gone <==> force || Ongoing(old(v.tasks)) == []
      ensures jobs == if gone then old(jobs)[..at] + old(jobs)[at+1..] else old(jobs)
      ensures forall v | v in old(jobs) :: Kept(v) &&
                v.tasks == if v.jobId == jobId && !force then Ongoing(old(v.tasks)) else old(v.tasks)
    {
      hide PendingJob.Good, Kept, Ongoing, Batches, Shifted, DistinctIds;
      ghost var all := jobs;
      ShiftedAt(all, -1);
      var slots := jobs;  // the backing array the loop ranges over
      at, gone := -1, false;
      for i := 0 to |slots|
        invariant |slots| == |all| && -1 <= at < i && (gone ==> at >= 0)
        invariant forall k | 0 <= k < i :: all[k].jobId == jobId <==> k == at
        invariant at >= 0 ==> (gone <==> force || Ongoing(old(all[at].tasks)) == [])
        invariant Shifted(all, jobs, slots, at, gone)
        invariant forall v | v in all :: Kept(v) &&
                    v.tasks == if at >= 0 && v == all[at] && !force then Ongoing(old(v.tasks)) else old(v.tasks)
      {
        var j := slots[i];
        SeenOnce(all, jobs, slots, at, gone, i, jobId);
        if j.jobId == jobId {
          slots, gone := TakeOutShifting(j, i, force, all);
          at := i;
        }
      }
      ListWithoutGone(all, jobs, slots, at, gone);
    }

    /** One pass over the pending jobs.  Deleting at i moves the next job to i, and
        the loop then goes on at i + 1, so that job waits for the next pass. */
    method Pass(replies: nat -> Reply) returns (ghost verdicts: seq<Verdict>)
      requires Valid()
      modifies this`jobs, this`calls, jobs, clock
      ensures Valid() && clock.now >= old(clock.now) && old(calls) <= calls && OthersKeep(old(jobs), old(calls), calls)
      ensures |verdicts| == |old(jobs)| && SkipsAfterRemoval(verdicts)
      ensures jobs == Survivors(old(jobs), verdicts)
      ensures forall v | v in old(jobs) :: Kept(v)
      ensures forall k | 0 <= k < |verdicts| && verdicts[k].Skipped? :: Untouched(old(jobs)[k])
      // which jobs are removed
      ensures forall k | 0 <= k < |verdicts| && verdicts[k].Removed? ::
                var v := old(jobs)[k];
                v.tasks == [] || (v.scheduling.Some? && v.scheduling.value.endBehavior.ForceCancel? && v.status == JobCanceled)
      ensures forall k | 0 <= k < |verdicts| && verdicts[k].Kept? && old(jobs)[k].tasks == [] ::
                var v := old(jobs)[k];
                && v.scheduling.Some?
                && (old(clock.now) < v.scheduling.value.startTime || !v.scheduling.value.endBehavior.StopRollout?)
      // a job visited in time, not ending, without a task timeout, and with tasks, is handed out
      ensures forall k | 0 <= k < |verdicts| && !verdicts[k].Skipped? ::
                var v := old(jobs)[k];
                (&& (v.scheduling.Some? ==>
                       && v.scheduling.value.startTime <= old(clock.now)
                       && (v.scheduling.value.endTime.Some? ==> clock.now <= v.scheduling.value.endTime.value))
                 && (old(jobs[k].status) == Waiting || old(jobs[k].status) == JobInProgress)
                 && (v.inProgressMinutes.None? || v.inProgressMinutes.value <= 0) && old(jobs[k].tasks) != []) ==>
                  && |v.stat| == |old(jobs[k].stat)| + 1
                  && var n := v.stat[|old(jobs[k].stat)|].count;
                  && 0 <= n <= |old(jobs[k].tasks)| && v.tasks == old(jobs[k].tasks)[n..]
                  && (v.maxPerMinute.None? || v.maxPerMinute.value <= 0 ==> v.tasks == [])
                  && (v.maxPerMinute.Some? && (forall s | s in old(jobs[k].stat) :: s.time <= old(clock.now) - 60_000_000_000) ==> n > 0)
    {
      hide PendingJob.Good, Batches, Survivors, Accounted, OthersKeep;
      ghost var all := jobs;
      ghost var was := seq(|all|, k requires 0 <= k < |all| reads all => Snapshot(all[k]));
      verdicts := PassLoop(replies, was);
      assert forall k | 0 <= k < |verdicts| :: Fate(all[k], verdicts[k], was[k], old(clock.now), clock.now);
    }

    /** The loop of a pass. */
    method PassLoop(replies: nat -> Reply, ghost was: seq<Before>) returns (ghost verdicts: seq<Verdict>)
      requires Valid() && Fates(jobs, [], was, clock.now, clock.now)
      modifies this`jobs, this`calls, jobs, clock
      ensures Valid() && clock.now >= old(clock.now) && old(calls) <= calls && OthersKeep(old(jobs), old(calls), calls)
      ensures |verdicts| == |old(jobs)| && SkipsAfterRemoval(verdicts)
      ensures jobs == Survivors(old(jobs), verdicts)
      ensures forall v | v in old(jobs) :: Kept(v)
      ensures Fates(old(jobs), verdicts, was, old(clock.now), clock.now)
    {
      hide PendingJob.Good, Batches, Survivors, Early, Walked, DistinctIds, OthersKeep, Accounted, Fates;
      KeptByAccounts();
      ghost var all := jobs;
      verdicts := [];
      WalkBegins(all);
      var l := |jobs|;
      var i := 0;
      while i < l
        invariant 0 <= i && l == |jobs| && |verdicts| <= |all| && Walked(all, jobs, verdicts, i)
        invariant clock.now >= old(clock.now) && old(calls) <= calls
        invariant (forall v | v in all :: Kept(v)) && OthersKeep(all, old(calls), calls)
        invariant Fates(all, verdicts, was, old(clock.now), clock.now)
        decreases |all| - |verdicts|
      {
        WalkKeeps(all, jobs, verdicts, i);
        WalkRemoves(all, jobs, verdicts, i);
        var remove := VisitNext(i, replies(i), all, verdicts, was, old(clock.now), old(calls));
        if remove {
          DeletePendingAt(i);
          l := |jobs|;
        }
        i := i + 1;
        verdicts := AfterVisit(all, verdicts, remove);
      }
      WalkEnds(all, jobs, verdicts, i);
      SurvivorsKeepOrder(all, verdicts);
      SurvivorsDistinct(all, verdicts);
      AccountsStay(all);
    }

    /** A visit of the first job without a verdict. */
    method VisitNext(i: int, reply: Reply, ghost all: seq<PendingJob>, ghost verdicts: seq<Verdict>,
                     ghost was: seq<Before>, ghost t0: int, ghost calls0: seq<Call>) returns (remove: bool)
      requires 0 <= i < |jobs| && |verdicts| < |all| && jobs[i] == all[|verdicts|] && DistinctIds(all)
      requires (forall v | v in all :: Kept(v)) && OthersKeep(all, calls0, calls)
      requires Fates(all, verdicts, was, t0, clock.now) && t0 <= clock.now
      modifies all[|verdicts|], clock, this`calls
      ensures jobs == old(jobs) && clock.now >= old(clock.now) && old(calls) <= calls
      ensures (forall v | v in all :: Kept(v)) && OthersKeep(all, calls0, calls)
      ensures Fates(all, AfterVisit(all, verdicts, remove), was, t0, clock.now)
    {
      hide PendingJob.Good, Batches, DistinctIds, OthersKeep, Served, Judged;
      ghost var k, before, since := |verdicts|, calls, clock.now;
      assert Snapshot(all[k]) == was[k];
      remove := VisitAt(i, reply, all, k);
      OthersKeepOn(all, calls0, before, calls, all[k]);
      Longer(all[k], remove, since, clock.now, t0, clock.now, was[k].status, was[k].tasks, was[k].stat);
      forall j | 0 <= j < k ensures Fate(all[j], verdicts[j], was[j], t0, clock.now) {
        assert old(Fate(all[j], verdicts[j], was[j], t0, clock.now));
        if !verdicts[j].Skipped? {
          Longer(all[j], verdicts[j].Removed?, t0, since, t0, clock.now, was[j].status, was[j].tasks, was[j].stat);
        }
      }
    }

    lemma KeptByAccounts()
      requires Valid()
      ensures (forall v | v in jobs :: Kept(v)) && OthersKeep(jobs, calls, calls)
    {}

    /** A visit leaves the books of every other job as they were. */
    method VisitAt(i: int, reply: Reply, ghost all: seq<PendingJob>, ghost k: int) returns (remove: bool)
      requires 0 <= i < |jobs| && 0 <= k < |all| && jobs[i] == all[k] && DistinctIds(all)
      requires forall v | v in all :: Kept(v)
      modifies all[k], clock, this`calls
      ensures jobs == old(jobs) && clock.now >= old(clock.now) && old(calls) <= calls
      ensures (forall v | v in all :: Kept(v)) && forall id | id != all[k].jobId :: Batches(calls, id) == Batches(old(calls), id)
      ensures forall j | 0 <= j < |all| && j != k :: all[j] != all[k]
      ensures Judged(all[k], remove, old(clock.now), clock.now)
      ensures Served(all[k], old(clock.now), clock.now, old(all[k].status), old(all[k].tasks), old(all[k].stat))
    {
      hide PendingJob.Good, Batches, Early;
      remove := Visit(jobs[i], reply);
      forall v | v in all ensures Kept(v) {
        if v != all[k] {
          var j :| 0 <= j < |all| && all[j] == v;
          assert v.jobId != all[k].jobId;
          assert old(Kept(v));
        }
      }
    }
  }

  /** After any run, for every job that was ever pending: all batches are accounted for and
      no minute holds more than the limit; and unless its tasks were read again, its batches
      followed by what is pending are a subsequence of its tasks, none twice. */
  lemma RolloutIsFair(s: Scheduler, v: PendingJob)
    requires s.Valid() && v in s.known
    ensures Total(v.stat) == |Batches(s.calls, v.jobId)|
    ensures v.maxPerMinute.Some? && v.maxPerMinute.value > 0 ==> forall t :: InMinute(v.stat, t) <= v.maxPerMinute.value
    ensures var all := Batches(s.calls, v.jobId) + v.tasks;
            !v.refilled ==>
              && Subsequence(all, v.original)
              && ((forall i, j | 0 <= i < j < |v.original| :: v.original[i].taskId != v.original[j].taskId) ==>
                    forall i, j | 0 <= i < j < |all| :: all[i].taskId != all[j].taskId)
  {
    assert s.Kept(v);
    if !v.refilled && forall i, j | 0 <= i < j < |v.original| :: v.original[i].taskId != v.original[j].taskId {
      SubsequenceRepeatsNothing(v.handed + v.tasks, v.original);
    }
  }

  // ---------- The walk over the list ----------

  /** The jobs with a verdict have been passed; the position is behind the survivors. */
  ghost predicate Walked(all: seq<PendingJob>, jobs: seq<PendingJob>, verdicts: seq<Verdict>, i: int) {
    && |verdicts| <= |all| && SkipsAfterRemoval(verdicts)
    && var rest := Survivors(all[..|verdicts|], verdicts);
    && jobs == rest + all[|verdicts|..]
    && (if |verdicts| < |all|
        then i == |rest| && (verdicts != [] ==> !verdicts[|verdicts|-1].Removed?)
        else |jobs| <= i <= |jobs| + 1)
  }

  ghost function AfterVisit(all: seq<PendingJob>, verdicts: seq<Verdict>, remove: bool): seq<Verdict> {
    if !remove then verdicts + [Verdict.Kept]
    else if |verdicts| + 1 < |all| then verdicts + [Removed, Skipped]
    else verdicts + [Removed]
  }

  lemma WalkBegins(all: seq<PendingJob>)
    ensures Walked(all, all, [], 0)
  {
    assert all[..0] == [] && [] + all[0..] == all;
  }

  lemma SkipsExtended(verdicts: seq<Verdict>, v: Verdict)
    requires SkipsAfterRemoval(verdicts)
    requires v.Skipped? <==> verdicts != [] && verdicts[|verdicts|-1].Removed?
    ensures SkipsAfterRemoval(verdicts + [v])
  {}

  lemma WalkKeeps(all: seq<PendingJob>, jobs: seq<PendingJob>, verdicts: seq<Verdict>, i: int)
    requires Walked(all, jobs, verdicts, i) && i < |jobs|
    ensures |verdicts| < |all| && 0 <= i && jobs[i] == all[|verdicts|]
    ensures Walked(all, jobs, AfterVisit(all, verdicts, false), i + 1)
  {
    hide Survivors, SkipsAfterRemoval;
    var k := |verdicts|;
    var rest := Survivors(all[..k], verdicts);
    assert all[k..] == [all[k]] + all[k+1..];
    assert jobs == (rest + [all[k]]) + all[k+1..];
    SurvivorsGrow(all, k, verdicts, Verdict.Kept);
    SkipsExtended(verdicts, Verdict.Kept);
  }

  lemma WalkRemoves(all: seq<PendingJob>, jobs: seq<PendingJob>, verdicts: seq<Verdict>, i: int)
    requires Walked(all, jobs, verdicts, i) && 0 <= i < |jobs|
    ensures Walked(all, jobs[..i] + jobs[i+1..], AfterVisit(all, verdicts, true), i + 1)
  {
    hide Survivors, SkipsAfterRemoval;
    var k := |verdicts|;
    assert k < |all|;
    var rest := Survivors(all[..k], verdicts);
    assert jobs[..i] == rest && jobs[i+1..] == all[k+1..];
    SurvivorsGrow(all, k, verdicts, Removed);
    SkipsExtended(verdicts, Removed);
    assert rest + [] == rest;
    if k + 1 < |all| {
      SurvivorsGrow(all, k + 1, verdicts + [Removed], Skipped);
      SkipsExtended(verdicts + [Removed], Skipped);
      assert verdicts + [Removed] + [Skipped] == verdicts + [Removed, Skipped];
      NextMovesUp(rest, all, k + 1);
    } else {
      assert all[..k+1] == all;
    }
  }

  lemma NextMovesUp<T>(rest: seq<T>, all: seq<T>, k: nat)
    requires k < |all|
    ensures rest + all[k..] == (rest + [all[k]]) + all[k+1..]
  {}

  lemma WalkEnds(all: seq<PendingJob>, jobs: seq<PendingJob>, verdicts: seq<Verdict>, i: int)
    requires Walked(all, jobs, verdicts, i) && i >= |jobs|
    ensures |verdicts| == |all| && SkipsAfterRemoval(verdicts) && jobs == Survivors(all, verdicts)
  {
    assert all[..|all|] == all;
  }

  lemma CountedOneMore(stat: seq<Stat>, s: Stat)
    requires Counts(stat) && s.count >= 0
    ensures Counts(stat + [s]) && Total(stat + [s]) == Total(stat) + s.count
  {
    TotalGrows(stat, s);
  }

  /** Dropping tasks from the remaining list. */
  lemma RestFollows(v: PendingJob, l: seq<Task>)
    requires Subsequence(l, v.tasks)
    ensures Subsequence(v.handed + v.tasks, v.original) ==> Subsequence(v.handed + l, v.original)
  {
    if Subsequence(v.handed + v.tasks, v.original) {
      SubsequenceBehind(v.handed, l, v.tasks);
      SubsequenceIsTransitive(v.handed + l, v.handed + v.tasks, v.original);
    }
  }

  /** Moving a prefix from the remaining list to the batches. */
  lemma HandedFollows(v: PendingJob, n: int)
    requires 0 <= n <= |v.tasks|
    ensures (v.handed + v.tasks[..n]) + v.tasks[n..] == v.handed + v.tasks
  {}
}
