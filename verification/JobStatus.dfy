/** The rows of the task table and everything that writes them: the messages of the
    runner (job/runner.go), the management calls (job/service.go), the guarded
    statements (job/repo.go) and the timeout check (job/center.go). */
module JobStatus {
  import opened Options
  import opened JobTypes

  datatype Row = Row(
    jobId: string, thingId: string, op: Operation, status: TaskStatus, progress: int, details: string,
    forceCanceled: bool, startedAt: Option<int>, completedAt: Option<int>, createdAt: int, version: int)

  type Rows = map<int, Row>

  /** The task that is made of a row; the creation time is not copied. */
  function ToTask(id: int, r: Row): Task {
    Task(id, r.jobId, r.thingId, r.op, r.status, r.startedAt, 0)
  }

  /** A status message about a task; details holds the encoded status details. */
  datatype Message = Message(taskId: int, status: TaskStatus, progress: int, details: string)

  datatype Error =
    | NotFound | InvalidState | InvalidParams | VersionConflict | DbFailed

  datatype Outcome<T> = Done(value: T) | Refused(error: Error)

  // ---------- What each writer does to the table ----------

  datatype Write =
    | Told(msg: Message)
    | JobTasksCanceled(jobId: string, force: bool, now: int)
    | TaskCanceled(taskId: int, force: bool, details: Option<string>, now: int)
    | Checked(copy: Task, minutes: int, now: int, stamp: int)  // the timeout check of a task in memory
    | Deleted(taskId: int)
    | Created(taskId: int, row: Row)

  /** The write of the timeout check reaches this task. */
  predicate TimesOut(w: Write, id: int) {
    w.Checked? && w.copy.taskId == id && Overdue(w.copy, w.minutes, w.now)
  }

  predicate Open(rows: Rows, id: int) {
    id in rows && !IsTaskTerminal(rows[id].status)
  }

  predicate HitByJobCancel(r: Row, jobId: string, force: bool) {
    r.jobId == jobId && if force then r.status == Queued || r.status == Sent || r.status == InProgress else r.status == Queued
  }

  function WithResult(r: Row, msg: Message): Row {
    r.(status := msg.status, progress := msg.progress, details := msg.details)
  }

  function Apply(rows: Rows, w: Write): Rows {
    match w
    case Told(msg) =>
      if Open(rows, msg.taskId) then rows[msg.taskId := WithResult(rows[msg.taskId], msg)] else rows
    case JobTasksCanceled(jobId, force, now) =>
      map id | id in rows ::
        if HitByJobCancel(rows[id], jobId, force)
        then rows[id].(status := TaskStatus.Canceled, forceCanceled := force, completedAt := Some(now)) else rows[id]
    case TaskCanceled(id, force, details, now) =>
      if Open(rows, id) && (force || rows[id].status != InProgress) then
        var r := rows[id].(status := TaskStatus.Canceled, forceCanceled := force, completedAt := Some(now));
        rows[id := if details.Some? then r.(details := details.value) else r]
      else rows
    case Checked(copy, minutes, now, stamp) =>
      if Overdue(copy, minutes, now) && copy.taskId in rows then
        rows[copy.taskId := rows[copy.taskId].(status := TimedOut, completedAt := Some(stamp))]
      else rows
    case Deleted(id) => rows - {id}
    case Created(id, row) => if id in rows then rows else rows[id := row]
  }

  function Run(rows: Rows, ws: seq<Write>): Rows {
    if ws == [] then rows else Apply(Run(rows, ws[..|ws|-1]), ws[|ws|-1])
  }

  lemma {:induction false} RunSplits(rows: Rows, a: seq<Write>, b: seq<Write>)
    ensures Run(rows, a + b) == Run(Run(rows, a), b)
  {
    if b == [] {
      assert a + b == a;
    } else {
      RunSplits(rows, a, b[..|b|-1]);
      assert (a + b)[..|a + b|-1] == a + b[..|b|-1];
    }
  }

  // ---------- Terminal rows ----------

  predicate Terminal(rows: Rows, id: int) {
    id in rows ==> IsTaskTerminal(rows[id].status)
  }

  ghost predicate AllTerminal(rows: Rows, jobId: string) {
    forall id | id in rows && rows[id].jobId == jobId :: IsTaskTerminal(rows[id].status)
  }

  lemma AllTerminalSpelled(rows: Rows, jobId: string)
    ensures AllTerminal(rows, jobId) <==> forall id | id in rows && rows[id].jobId == jobId ::
              rows[id].status != Queued && rows[id].status != Sent && rows[id].status != InProgress
  {}

  /** No writer turns a terminal row into one that is not terminal. */
  lemma {:induction false} TerminalStaysTerminal(rows: Rows, ws: seq<Write>, id: int)
    requires Terminal(rows, id) && forall w | w in ws :: !(w.Created? && w.taskId == id)
    ensures Terminal(Run(rows, ws), id)
  {
    if ws != [] {
      assert ws[|ws|-1] in ws;
      forall w | w in ws[..|ws|-1] ensures w in ws {}
      TerminalStaysTerminal(rows, ws[..|ws|-1], id);
    }
  }

  /** Once all tasks of a job are seen terminal they stay so, whatever is written. */
  lemma {:induction false} AllTerminalIsStable(rows: Rows, ws: seq<Write>, jobId: string)
    requires AllTerminal(rows, jobId) && forall w | w in ws :: !(w.Created? && w.row.jobId == jobId)
    ensures AllTerminal(Run(rows, ws), jobId)
  {
    if ws != [] {
      assert ws[|ws|-1] in ws;
      forall w | w in ws[..|ws|-1] ensures w in ws {}
      AllTerminalIsStable(rows, ws[..|ws|-1], jobId);
    }
  }

  /** A terminal row does not change at all, unless the timeout check writes it or it is deleted. */
  lemma {:induction false} TerminalRowIsFrozen(rows: Rows, ws: seq<Write>, id: int)
    requires id in rows && IsTaskTerminal(rows[id].status)
    requires forall w | w in ws :: !TimesOut(w, id) && !(w.Created? && w.taskId == id)
    ensures id in Run(rows, ws) ==> Run(rows, ws)[id] == rows[id]
    ensures id in Run(rows, ws) <==> forall w | w in ws :: !(w.Deleted? && w.taskId == id)
  {
    if ws != [] {
      var init, w := ws[..|ws|-1], ws[|ws|-1];
      assert w in ws && ws == init + [w];
      forall u | u in init ensures u in ws {}
      TerminalRowIsFrozen(rows, init, id);
    }
  }

  /** The timeout check overwrites a terminal row for good. */
  lemma {:induction false} TimeoutSticks(rows: Rows, ws: seq<Write>, id: int)
    requires id in rows && IsTaskTerminal(rows[id].status)
    requires forall w | w in ws :: !(w.Created? && w.taskId == id)
    requires exists w :: w in ws && TimesOut(w, id)
    ensures id in Run(rows, ws) ==> Run(rows, ws)[id].status == TimedOut
  {
    var init, w := ws[..|ws|-1], ws[|ws|-1];
    assert w in ws && ws == init + [w];
    forall u | u in init ensures u in ws {}
    TerminalStaysTerminal(rows, init, id);
    if exists u :: u in init && TimesOut(u, id) { TimeoutSticks(rows, init, id); }
  }

  // ---------- Messages in either order ----------

  /** SENT and the result of one task, next to each other in any run, may change places:
      the row is the result's if it was open, and untouched if it was closed before. */
  lemma SentAndResultCommute(rows: Rows, before: seq<Write>, sent: Message, result: Message, after: seq<Write>)
    requires sent.status == Sent && IsTaskTerminal(result.status) && sent.taskId == result.taskId
    ensures Run(rows, before + [Told(sent), Told(result)] + after) == Run(rows, before + [Told(result), Told(sent)] + after)
    ensures Run(rows, before + [Told(sent), Told(result)]) == Apply(Run(rows, before), Told(result))
  {
    var r := Run(rows, before);
    var ab, ba := [Told(sent), Told(result)], [Told(result), Told(sent)];
    RunTwo(r, Told(sent), Told(result));
    RunTwo(r, Told(result), Told(sent));
    assert Run(r, ab) == Run(r, ba) == Apply(r, Told(result));
    RunSplits(rows, before, ab);
    RunSplits(rows, before, ba);
    RunSplits(rows, before + ab, after);
    RunSplits(rows, before + ba, after);
  }

  lemma RunTwo(rows: Rows, a: Write, b: Write)
    ensures Run(rows, [a, b]) == Apply(Apply(rows, a), b)
  {
    assert [a, b][..1] == [a] && [a][..0] == [];
    assert Run(rows, [a]) == Apply(rows, a);
  }

  /** The result of a task that is open when it arrives is what the row holds at the end
      of any run, unless the row is gone or the timeout check has written it; and once the
      check has, the result is lost. */
  lemma ResultSticks(rows: Rows, before: seq<Write>, result: Message, after: seq<Write>)
    requires IsTaskTerminal(result.status) && Open(Run(rows, before), result.taskId)
    requires forall w | w in after :: !(w.Created? && w.taskId == result.taskId)
    ensures var end, id := Run(rows, before + [Told(result)] + after), result.taskId;
            id in end ==>
              if exists w :: w in after && TimesOut(w, id) then end[id].status == TimedOut
              else end[id] == Run(rows, before)[id].(status := result.status, progress := result.progress, details := result.details)
    ensures var end, id := Run(rows, before + [Told(result)] + after), result.taskId;
            id in end && result.status != TimedOut ==>
              (end[id].status == result.status <==> !exists w :: w in after && TimesOut(w, id))
  {
    var r := Run(rows, before);
    RunSplits(rows, before, [Told(result)]);
    assert [Told(result)][..0] == [];
    assert Run(r, [Told(result)]) == Apply(r, Told(result));
    var m := Run(rows, before + [Told(result)]);
    RunSplits(rows, before + [Told(result)], after);
    if exists w :: w in after && TimesOut(w, result.taskId) {
      TimeoutSticks(m, after, result.taskId);
    } else {
      TerminalRowIsFrozen(m, after, result.taskId);
    }
  }

  /** A task that is canceled while the guards allow it is still canceled, forced or not as
      then, at the end of any run, unless the row is gone or the timeout check wrote it. */
  lemma CancelSticks(rows: Rows, before: seq<Write>, cancel: Write, after: seq<Write>)
    requires cancel.TaskCanceled? && cancel.taskId in Run(rows, before)
    requires var status := Run(rows, before)[cancel.taskId].status;
             status == Queued || status == Sent || (cancel.force && status == InProgress)
    requires forall w | w in after :: !(w.Created? && w.taskId == cancel.taskId)
    ensures var end, id := Run(rows, before + [cancel] + after), cancel.taskId;
            id in end ==>
              if exists w :: w in after && TimesOut(w, id) then end[id].status == TimedOut
              else end[id] == Run(rows, before)[id].(
                     status := TaskStatus.Canceled, forceCanceled := cancel.force, completedAt := Some(cancel.now),
                     details := if cancel.details.Some? then cancel.details.value else Run(rows, before)[id].details)
  {
    var r := Run(rows, before);
    RunSplits(rows, before, [cancel]);
    assert [cancel][..0] == [];
    assert Run(r, [cancel]) == Apply(r, cancel);
    var m := Run(rows, before + [cancel]);
    RunSplits(rows, before + [cancel], after);
    if exists w :: w in after && TimesOut(w, cancel.taskId) {
      TimeoutSticks(m, after, cancel.taskId);
    } else {
      TerminalRowIsFrozen(m, after, cancel.taskId);
    }
  }

  /** Canceling the tasks of a job hits exactly its queued tasks, and by force its other
      open ones; these, too, stay canceled. */
  lemma JobCancelSticks(rows: Rows, before: seq<Write>, cancel: Write, after: seq<Write>, id: int)
    requires cancel.JobTasksCanceled? && id in Run(rows, before) && Run(rows, before)[id].jobId == cancel.jobId
    requires var status := Run(rows, before)[id].status;
             status == Queued || (cancel.force && (status == Sent || status == InProgress))
    requires forall w | w in after :: !(w.Created? && w.taskId == id) && !TimesOut(w, id)
    ensures var end := Run(rows, before + [cancel] + after);
            id in end ==> end[id] == Run(rows, before)[id].(
              status := TaskStatus.Canceled, forceCanceled := cancel.force, completedAt := Some(cancel.now))
  {
    var r := Run(rows, before);
    RunSplits(rows, before, [cancel]);
    assert [cancel][..0] == [];
    assert Run(r, [cancel]) == Apply(r, cancel);
    RunSplits(rows, before + [cancel], after);
    TerminalRowIsFrozen(Run(rows, before + [cancel]), after, id);
  }

  // ---------- Which runs occur ----------

  /** The runner reports SENT and the outcome of an action only; a new task is queued. */
  predicate FromPackage(w: Write) {
    && (w.Told? ==> w.msg.status == Sent || w.msg.status == Failed || w.msg.status == Succeeded)
    && (w.Created? ==> w.row.status == Queued && w.row.startedAt.None? && w.row.completedAt.None?)
  }

  /** Every task in memory was made of its row, now or earlier in the run. */
  ghost predicate Genuine(rows: Rows, ws: seq<Write>) {
    forall k | 0 <= k < |ws| && ws[k].Checked? :: exists j :: 0 <= j <= k && ReadFrom(Run(rows, ws[..j]), ws[k].copy)
  }

  predicate ReadFrom(rows: Rows, copy: Task) {
    copy.taskId in rows && copy == ToTask(copy.taskId, rows[copy.taskId])
  }

  /** With a row that another program has set in progress, the check overwrites a result:
      it goes by its copy and does not read the row again. */
  lemma TimeoutOverwritesResult() returns (rows: Rows, ws: seq<Write>, id: int)
    ensures id in rows && rows[id].status == InProgress
    ensures Genuine(rows, ws) && |ws| == 2 && forall w | w in ws :: FromPackage(w)
    ensures id in Run(rows, ws[..1]) && Run(rows, ws[..1])[id].status == Succeeded
    ensures id in Run(rows, ws) && Run(rows, ws)[id].status == TimedOut
  {
    id := 1;
    var row := Row("j", "t", DirectMethod, InProgress, 0, "{}", false, Some(0), None, 0, 1);
    var copy := ToTask(1, row);
    rows := map[1 := row];
    ws := [Told(Message(1, Succeeded, 0, "null")), Checked(copy, 1, MINUTE, MINUTE)];
    assert Run(rows, ws[..0]) == rows && ws[..1][..0] == [];
    assert ReadFrom(Run(rows, ws[..0]), copy);
    RunTwo(rows, ws[0], ws[1]);
    assert ws == [ws[0], ws[1]] && ws[..1] == [ws[0]];
    assert Run(rows, [ws[0]]) == Apply(rows, ws[0]);
  }

  ghost predicate NoneInProgress(rows: Rows) {
    forall id | id in rows :: !rows[id].status.InProgress? && rows[id].startedAt.None?
  }

  /** Left to itself the package never puts a task in progress, so no row ever times out. */
  lemma {:induction false} NeverInProgress(ws: seq<Write>)
    requires (forall w | w in ws :: FromPackage(w)) && Genuine(map[], ws)
    ensures NoneInProgress(Run(map[], ws))
    ensures forall k, id | 0 <= k < |ws| :: !TimesOut(ws[k], id)
    decreases |ws|
  {
    if ws != [] {
      var n := |ws| - 1;
      var w := ws[n];
      assert w in ws;
      PrefixIsGenuine(ws, n);
      NeverInProgress(ws[..n]);
      if w.Checked? {
        var j :| 0 <= j <= n && ReadFrom(Run(map[], ws[..j]), w.copy);
        PrefixIsGenuine(ws, j);
        NeverInProgress(ws[..j]);
      }
      forall k, id | 0 <= k < |ws| ensures !TimesOut(ws[k], id) {
        if k < n { assert ws[..n][k] == ws[k]; }
      }
    }
  }

  lemma PrefixIsGenuine(ws: seq<Write>, n: nat)
    requires n <= |ws| && Genuine(map[], ws) && forall w | w in ws :: FromPackage(w)
    ensures Genuine(map[], ws[..n]) && forall w | w in ws[..n] :: FromPackage(w)
  {
    forall k | 0 <= k < n && ws[..n][k].Checked?
      ensures exists j :: 0 <= j <= k && ReadFrom(Run(map[], ws[..n][..j]), ws[..n][k].copy)
    {
      var j :| 0 <= j <= k && ReadFrom(Run(map[], ws[..j]), ws[k].copy);
      assert ws[..n][..j] == ws[..j];
    }
    forall w | w in ws[..n] ensures w in ws {}
  }

  /** So in every run of the package from an empty table a result is final. */
  lemma ResultIsFinal(before: seq<Write>, result: Message, after: seq<Write>)
    requires IsTaskTerminal(result.status) && Open(Run(map[], before), result.taskId)
    requires forall w | w in after :: !(w.Created? && w.taskId == result.taskId)
    requires var ws := before + [Told(result)] + after; Genuine(map[], ws) && forall w | w in ws :: FromPackage(w)
    ensures var end, id := Run(map[], before + [Told(result)] + after), result.taskId;
            id in end ==>
              end[id] == Run(map[], before)[id].(status := result.status, progress := result.progress, details := result.details)
  {
    var ws := before + [Told(result)] + after;
    NeverInProgress(ws);
    ResultSticks(map[], before, result, after);
    forall w | w in after ensures !TimesOut(w, result.taskId) {
      var k :| 0 <= k < |after| && after[k] == w;
      assert ws[|before| + 1 + k] == w;
    }
  }

  // ---------- The completion time ----------

  ghost predicate CompletionFollowsStatus(rows: Rows) {
    forall id | id in rows ::
      rows[id].completedAt.Some? <==> rows[id].status == TaskStatus.Canceled || rows[id].status == TimedOut
  }

  /** updateTaskStatus looks at the old status before it sets completed_at, so the time
      is set exactly for canceled and timed-out tasks and never for a finished one. */
  lemma {:induction false} CompletionOnlyWhenCut(ws: seq<Write>)
    requires forall w | w in ws :: FromPackage(w)
    ensures CompletionFollowsStatus(Run(map[], ws))
  {
    if ws != [] {
      assert ws[|ws|-1] in ws;
      forall w | w in ws[..|ws|-1] ensures w in ws {}
      CompletionOnlyWhenCut(ws[..|ws|-1]);
    }
  }

  /** A run that ends with a finished task without a completion time. */
  lemma FinishedWithoutTime() returns (ws: seq<Write>)
    ensures forall w | w in ws :: FromPackage(w)
    ensures var end := Run(map[], ws); 1 in end && end[1].status == Succeeded && end[1].completedAt.None?
  {
    var row := Row("j", "t", DirectMethod, Queued, 0, "{}", false, None, None, 0, 1);
    ws := [Created(1, row), Told(Message(1, Succeeded, 0, "null"))];
    RunTwo(map[], ws[0], ws[1]);
    assert ws == [ws[0], ws[1]];
  }

  // ---------- The table ----------

  /** The columns an update statement sets. */
  datatype Columns = Columns(
    status: TaskStatus, progress: Option<int>, details: Option<string>,
    forceCanceled: Option<bool>, completedAt: Option<int>)

  function SetColumns(r: Row, c: Columns): Row {
    r.(status := c.status,
       progress := if c.progress.Some? then c.progress.value else r.progress,
       details := if c.details.Some? then c.details.value else r.details,
       forceCanceled := if c.forceCanceled.Some? then c.forceCanceled.value else r.forceCanceled,
       completedAt := if c.completedAt.Some? then c.completedAt else r.completedAt)
  }

  predicate Matches(r: Row, thingId: string, jobId: string) {
    (jobId != "" ==> r.jobId == jobId) && (thingId != "" ==> r.thingId == thingId)
  }

  /** The status a finish check writes; None is the empty string. */
  function Finished(status: JobStatus): Option<JobStatus>
    requires !status.Removing? && !status.Completed?
  {
    match status
    case Canceling => Some(JobStatus.JobCanceled)
    case Waiting => Some(Completed)
    case JobInProgress => Some(Completed)
    case JobCanceled => None  // the variable for the new status is never set
  }

  class TaskTable {
    var rows: Rows
    var jobs: map<string, Option<JobStatus>>  // the status column of the job table

    constructor ()
      ensures rows == map[] && jobs == map[]
    {
      rows, jobs := map[], map[];
    }

    // ----- statements (job/repo.go)

    method GetTask(id: int) returns (r: Option<Row>)
      ensures r == if id in rows then Some(rows[id]) else None
    {
      r := if id in rows then Some(rows[id]) else None;
    }

    method UpdateTask(id: int, c: Columns)
      modifies this`rows
      ensures rows == if id in old(rows) then old(rows)[id := SetColumns(old(rows)[id], c)] else old(rows)
    {
      if id in rows { rows := rows[id := SetColumns(rows[id], c)]; }
    }

    /** A new task gets an id that no row has. */
    method CreateTask(id: int, row: Row)
      requires id !in rows
      modifies this`rows
      ensures rows == old(rows)[id := row] == Apply(old(rows), Created(id, row))
    {
      rows := rows[id := row];
    }

    method CancelTasks(jobId: string, force: bool, now: int)
      modifies this`rows
      ensures rows == Apply(old(rows), JobTasksCanceled(jobId, force, now))
      ensures rows.Keys == old(rows).Keys
      ensures forall id | id in rows :: var was := old(rows)[id];
                rows[id] ==
                  if was.jobId == jobId && (was.status == Queued || (force && (was.status == Sent || was.status == InProgress)))
                  then was.(status := TaskStatus.Canceled, forceCanceled := force, completedAt := Some(now)) else was
    {
      var cut := Columns(TaskStatus.Canceled, None, None, Some(force), Some(now));
      rows := map id | id in rows ::
        if rows[id].jobId == jobId
           && (if force then rows[id].status == Queued || rows[id].status == Sent || rows[id].status == InProgress
               else rows[id].status == Queued)
        then SetColumns(rows[id], cut) else rows[id];
      assert forall id | id in rows :: rows[id] == Apply(old(rows), JobTasksCanceled(jobId, force, now))[id];
    }

    /** The number of the job's tasks in every status that occurs. */
    method CountTaskStatus(jobId: string) returns (counts: map<TaskStatus, int>)
      ensures Counted(rows, rows.Keys, jobId, counts)
      ensures forall s :: s in counts <==> exists id :: id in rows && rows[id].jobId == jobId && rows[id].status == s
      ensures forall s | s in counts :: counts[s] == |set id | id in rows && rows[id].jobId == jobId && rows[id].status == s|
    {
      hide Counted;
      counts := map[];
      var todo := rows.Keys;
      ghost var done: set<int> := {};
      CountedNothing(rows, jobId);
      while todo != {}
        invariant done + todo == rows.Keys && todo !! done
        invariant Counted(rows, done, jobId, counts)
      {
        NotEmpty(todo);
        var id :| id in todo;
        todo := todo - {id};
        var s := rows[id].status;
        CountedOneMore(rows, done, jobId, counts, id);
        if rows[id].jobId == jobId {
          counts := counts[s := if s in counts then counts[s] + 1 else 1];
        }
        done := done + {id};
      }
      assert done == rows.Keys;
      CountedSpelled(rows, jobId, counts);
    }

    // ----- the status messages of the runner (job/runner.go)

    method UpdateTaskStatus(msg: Message, now: int, dbOk: bool) returns (r: Outcome<()>)
      modifies this`rows
      ensures rows == if dbOk then Apply(old(rows), Told(msg)) else old(rows)
      ensures r.Done? <==> && dbOk && msg.taskId in old(rows)
                           && (old(rows)[msg.taskId].status == Queued || old(rows)[msg.taskId].status == Sent
                               || old(rows)[msg.taskId].status == InProgress)
      ensures rows == if r.Refused? then old(rows) else
                old(rows)[msg.taskId := old(rows)[msg.taskId].(status := msg.status, progress := msg.progress, details := msg.details)]
    {
      if !dbOk { return Refused(DbFailed); }
      var t := GetTask(msg.taskId);
      if t.None? { return Refused(NotFound); }
      if IsTaskTerminal(t.value.status) { return Refused(InvalidState); }
      var c := Columns(msg.status, Some(msg.progress), Some(msg.details), None, None);
      if IsTaskTerminal(t.value.status) { c := c.(completedAt := Some(now)); }
      UpdateTask(msg.taskId, c);
      return Done(());
    }

    // ----- the timeout check (job/center.go)

    /** The check goes by the task in memory and writes without reading the row. */
    method CheckTimeoutTask(t: Task, minutes: int, now: int, stamp: int) returns (timeout: bool)
      modifies this`rows
      ensures timeout <==> Overdue(t, minutes, now)
      ensures rows == Apply(old(rows), Checked(t, minutes, now, stamp))
      ensures timeout <==> && t.status == InProgress && t.startedAt.Some?
                           && now - t.startedAt.value * 1_000_000 >= minutes * 60_000_000_000
      ensures rows == if timeout && t.taskId in old(rows)
                then old(rows)[t.taskId := old(rows)[t.taskId].(status := TimedOut, completedAt := Some(stamp))] else old(rows)
    {
      if !t.status.InProgress? || t.startedAt.None? { return false; }
      if now - t.startedAt.value * MILLISECOND < minutes * MINUTE { return false; }
      UpdateTask(t.taskId, Columns(TimedOut, None, None, None, Some(stamp)));
      return true;
    }

    /** A job is finished when no row of it is in a status that is not terminal. */
    method AllDone(jobId: string) returns (finished: bool)
      ensures finished <==> AllTerminal(rows, jobId)
      ensures finished <==> forall id | id in rows && rows[id].jobId == jobId ::
                rows[id].status != Queued && rows[id].status != Sent && rows[id].status != InProgress
    {
      hide Counted, AllTerminal;
      var counts := CountTaskStatus(jobId);
      CountedShowsAll(rows, jobId, counts);
      AllTerminalSpelled(rows, jobId);
      var todo := counts.Keys;
      while todo != {}
        invariant todo <= counts.Keys && forall s | s in counts && s !in todo :: IsTaskTerminal(s)
      {
        var s :| s in todo;
        if !IsTaskTerminal(s) { return false; }
        todo := todo - {s};
      }
      return true;
    }

    /** Ends a job all of whose tasks are terminal. */
    method CheckFinishJob(jobId: string) returns (finished: bool)
      modifies this
      ensures finished <==> AllTerminal(old(rows), jobId)
      ensures !finished || jobId !in old(jobs) || old(jobs)[jobId].None? || old(jobs)[jobId].value.Completed? ==>
                rows == old(rows) && jobs == old(jobs)
      ensures finished && jobId in old(jobs) && old(jobs)[jobId].Some? ==>
                match old(jobs)[jobId].value
                case Completed => true
                case Removing => jobs == old(jobs) - {jobId} &&
                  rows == map id | id in old(rows) && old(rows)[id].jobId != jobId :: old(rows)[id]
                case Waiting => jobs == old(jobs)[jobId := Some(Completed)] && rows == old(rows)
                case JobInProgress => jobs == old(jobs)[jobId := Some(Completed)] && rows == old(rows)
                case Canceling => jobs == old(jobs)[jobId := Some(JobStatus.JobCanceled)] && rows == old(rows)
                case JobCanceled => jobs == old(jobs)[jobId := None] && rows == old(rows)  // the empty status
    {
      finished := AllDone(jobId);
      if !finished || jobId !in jobs || jobs[jobId].None? { return; }
      match jobs[jobId].value
      case Completed =>
      case Removing =>
        jobs := jobs - {jobId};
        rows := map id | id in rows && rows[id].jobId != jobId :: rows[id];
      case status =>
        jobs := jobs[jobId := Finished(status)];
    }

    // ----- the management calls (job/service.go)

    method CancelJob(jobId: string, force: bool, now: int) returns (r: Outcome<()>)
      modifies this
      ensures r.Done? <==> && jobId in old(jobs)
                           && (old(jobs)[jobId].None? || old(jobs)[jobId] == Some(Waiting)
                               || (force && old(jobs)[jobId] == Some(JobInProgress)))
      ensures r.Done? ==> jobs == old(jobs)[jobId := Some(Canceling)] && rows == Apply(old(rows), JobTasksCanceled(jobId, force, now))
      ensures r.Done? && force ==> AllTerminal(rows, jobId)
      ensures r.Refused? ==> rows == old(rows) && jobs == old(jobs)
    {
      if jobId !in jobs { return Refused(NotFound); }
      if jobs[jobId].Some? {
        var status := jobs[jobId].value;
        if IsJobToTerminal(status) { return Refused(InvalidState); }
        if !force && status.JobInProgress? { return Refused(InvalidParams); }
      }
      jobs := jobs[jobId := Some(Canceling)];
      CancelTasks(jobId, force, now);
      return Done(());
    }

    /** Cancels the oldest task that matches; pick is the row the query puts first. */
    method CancelTask(thingId: string, jobId: string, pick: int, details: Option<string>, version: int, force: bool, now: int)
      returns (r: Outcome<int>)
      requires (exists id :: id in rows && Matches(rows[id], thingId, jobId)) ==>
                 pick in rows && Matches(rows[pick], thingId, jobId)
                 && forall id | id in rows && Matches(rows[id], thingId, jobId) :: rows[pick].createdAt <= rows[id].createdAt
      requires pick in rows ==> Matches(rows[pick], thingId, jobId)
      modifies this`rows
      ensures r.Done? <==> && pick in old(rows)
                           && (old(rows)[pick].status == Queued || old(rows)[pick].status == Sent
                               || (force && old(rows)[pick].status == InProgress))
                           && (version > 0 ==> old(rows)[pick].version == version)
      ensures r.Done? ==> r.value == pick && rows == Apply(old(rows), TaskCanceled(pick, force, details, now))
      ensures r.Done? ==>
                rows == old(rows)[pick := old(rows)[pick].(
                  status := TaskStatus.Canceled, forceCanceled := force, completedAt := Some(now),
                  details := if details.Some? then details.value else old(rows)[pick].details)]
      ensures pick in old(rows) && jobId != "" ==> old(rows)[pick].jobId == jobId
      ensures pick in old(rows) && thingId != "" ==> old(rows)[pick].thingId == thingId
      ensures r.Refused? ==> rows == old(rows)
      ensures r == Refused(NotFound) <==> !exists id :: id in old(rows) && Matches(old(rows)[id], thingId, jobId)
      ensures r == Refused(VersionConflict) <==>
                Open(old(rows), pick) && (force || old(rows)[pick].status != InProgress)
                && version > 0 && old(rows)[pick].version != version
    {
      if pick !in rows { return Refused(NotFound); }
      var t := rows[pick];
      if IsTaskTerminal(t.status) { return Refused(InvalidState); }
      if !force && t.status == InProgress { return Refused(InvalidParams); }
      if version > 0 && t.version != version { return Refused(VersionConflict); }
      UpdateTask(pick, Columns(TaskStatus.Canceled, None, details, Some(force), Some(now)));
      return Done(pick);
    }

    method DeleteTask(thingId: string, jobId: string, id: int, force: bool) returns (r: Outcome<Row>)
      modifies this`rows
      ensures r.Done? <==> id in old(rows) && old(rows)[id].thingId == thingId && old(rows)[id].jobId == jobId
                           && (force || old(rows)[id].status != InProgress)
      ensures r.Done? ==> r.value == old(rows)[id] && rows == old(rows) - {id} == Apply(old(rows), Deleted(id))
      ensures r.Refused? ==> rows == old(rows)
    {
      var t := GetTask(id);
      if t.None? { return Refused(NotFound); }
      if t.value.thingId != thingId { return Refused(InvalidParams); }
      if t.value.jobId != jobId { return Refused(InvalidParams); }
      if !force && t.value.status == InProgress { return Refused(InvalidParams); }
      rows := rows - {id};
      return Done(t.value);
    }
  }

  function OfStatus(rows: Rows, ids: set<int>, jobId: string, s: TaskStatus): set<int> {
    set id | id in ids && id in rows && rows[id].jobId == jobId && rows[id].status == s
  }

  /** Each status that occurs, and no other, with the number of its tasks. */
  ghost predicate Counted(rows: Rows, ids: set<int>, jobId: string, counts: map<TaskStatus, int>) {
    forall s :: HasCount(counts, s, OfStatus(rows, ids, jobId, s))
  }

  predicate HasCount(counts: map<TaskStatus, int>, s: TaskStatus, ids: set<int>) {
    if ids == {} then s !in counts else s in counts && counts[s] == |ids|
  }

  lemma NotEmpty(ids: set<int>)
    requires ids != {}
    ensures exists id :: id in ids
  {
    if forall id :: id !in ids { assert false; }
  }

  lemma CountedSpelled(rows: Rows, jobId: string, counts: map<TaskStatus, int>)
    requires Counted(rows, rows.Keys, jobId, counts)
    ensures forall s :: s in counts <==> exists id :: id in rows && rows[id].jobId == jobId && rows[id].status == s
    ensures forall s | s in counts :: counts[s] == |set id | id in rows && rows[id].jobId == jobId && rows[id].status == s|
  {
    forall s
      ensures s in counts <==> exists id :: id in rows && rows[id].jobId == jobId && rows[id].status == s
      ensures s in counts ==> counts[s] == |set id | id in rows && rows[id].jobId == jobId && rows[id].status == s|
    {
      var ids := OfStatus(rows, rows.Keys, jobId, s);
      assert HasCount(counts, s, ids);
      assert ids == set id | id in rows && rows[id].jobId == jobId && rows[id].status == s;
      if ids != {} {
        NotEmpty(ids);
        var id :| id in ids;
        assert id in rows && rows[id].jobId == jobId && rows[id].status == s;
      }
      forall id | id in rows && rows[id].jobId == jobId && rows[id].status == s ensures id in ids {}
    }
  }

  lemma CountedNothing(rows: Rows, jobId: string)
    ensures Counted(rows, {}, jobId, map[])
  {}

  lemma CountedOneMore(rows: Rows, ids: set<int>, jobId: string, counts: map<TaskStatus, int>, id: int)
    requires Counted(rows, ids, jobId, counts) && id in rows && id !in ids
    ensures var s := rows[id].status;
            Counted(rows, ids + {id}, jobId,
                    if rows[id].jobId == jobId then counts[s := if s in counts then counts[s] + 1 else 1] else counts)
  {
    hide OfStatus;
    var s0, mine := rows[id].status, rows[id].jobId == jobId;
    var counts' := if mine then counts[s0 := if s0 in counts then counts[s0] + 1 else 1] else counts;
    forall s ensures HasCount(counts', s, OfStatus(rows, ids + {id}, jobId, s)) {
      assert HasCount(counts, s, OfStatus(rows, ids, jobId, s));
      OfStatusOneMore(rows, ids, jobId, id, s);
    }
  }

  lemma OfStatusOneMore(rows: Rows, ids: set<int>, jobId: string, id: int, s: TaskStatus)
    requires id in rows && id !in ids
    ensures id !in OfStatus(rows, ids, jobId, s)
    ensures OfStatus(rows, ids + {id}, jobId, s) ==
              OfStatus(rows, ids, jobId, s) + if rows[id].jobId == jobId && rows[id].status == s then {id} else {}
  {}

  lemma CountedShowsAll(rows: Rows, jobId: string, counts: map<TaskStatus, int>)
    requires Counted(rows, rows.Keys, jobId, counts)
    ensures AllTerminal(rows, jobId) <==> forall s | s in counts :: IsTaskTerminal(s)
  {
    forall id | id in rows && rows[id].jobId == jobId ensures rows[id].status in counts {
      assert id in OfStatus(rows, rows.Keys, jobId, rows[id].status);
    }
    forall s | s in counts ensures exists id :: id in rows && rows[id].jobId == jobId && rows[id].status == s {
      NotEmpty(OfStatus(rows, rows.Keys, jobId, s));
      var id :| id in OfStatus(rows, rows.Keys, jobId, s);
    }
  }
}
