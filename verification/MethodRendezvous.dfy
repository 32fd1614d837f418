/** The meeting of a direct-method invocation with its response (shadow/method.go), as
    a system of steps that any number of invocations and responders take in any order.

    An invocation stores a channel under its thing and token, publishes, and waits for a
    message, a timeout or a cancellation; a deferred call then closes the entry's done
    channel and deletes the entry.  A responder looks the entry up and either hands its
    message over or sees that the invocation is done.  The waiting for a thing to come
    online follows the same protocol: there the message is that the thing is online. */
module MethodRendezvous {
  import opened Options

  datatype Key = Key(thing: string, token: string)

  datatype Result<+P> = Got(from: int, message: P) | PublishFailed | TimedOut | Canceled

  datatype Phase<+P> =
    | New                                  // nothing stored yet
    | Registered                           // entry stored, request not yet published
    | Selecting                            // waits on its channel
    | Leaving(result: Result<P>)           // the deferred removal begins
    | Closing(result: Result<P>, entry: int)  // has loaded the entry it will close
    | Deleting(result: Result<P>)          // done channel closed
    | Returned(result: Result<P>)

  datatype Invocation<+P> = Invocation(key: Key, phase: Phase<P>)

  datatype Stage =
    | Looking
    | Holding(entry: int)  // blocked in its select on the entry's channels
    | Delivered(to: int)
    | Unclaimed            // no entry
    | Dropped              // the invocation was done
    | CutOff               // its own context ended

  datatype Responder<+P> = Responder(key: Key, message: P, stage: Stage)

  /** An entry is named by the invocation that made its channels. */
  datatype State<+P> = State(
    invs: map<int, Invocation<P>>, resps: map<int, Responder<P>>,
    pending: map<Key, int>, closed: set<int>, panicked: bool)

  datatype Action<+P> =
    | Invoke(i: int, key: Key)
    | Register(i: int)
    | Publish(i: int, ok: bool)
    | TimeOut(i: int)
    | Cancel(i: int)
    | Find(i: int)
    | Close(i: int)
    | Delete(i: int)
    | Respond(r: int, rkey: Key, message: P)
    | Look(r: int)
    | Deliver(r: int)
    | SeeDone(r: int)
    | CutOffBy(r: int)

  function Start<P>(): State<P> {
    State(map[], map[], map[], {}, false)
  }

  function At<P>(s: State<P>, i: int, phase: Phase<P>): State<P>
    requires i in s.invs
  {
    s.(invs := s.invs[i := s.invs[i].(phase := phase)])
  }

  function Put<P>(s: State<P>, r: int, stage: Stage): State<P>
    requires r in s.resps
  {
    s.(resps := s.resps[r := s.resps[r].(stage := stage)])
  }

  predicate Enabled<P>(s: State<P>, a: Action<P>) {
    !s.panicked &&
    match a
    case Invoke(i, key) => i !in s.invs
    case Register(i) => i in s.invs && s.invs[i].phase.New?
    case Publish(i, ok) => i in s.invs && s.invs[i].phase.Registered?
    case TimeOut(i) => i in s.invs && s.invs[i].phase.Selecting?
    case Cancel(i) => i in s.invs && s.invs[i].phase.Selecting?
    case Find(i) => i in s.invs && s.invs[i].phase.Leaving?
    case Close(i) => i in s.invs && s.invs[i].phase.Closing?
    case Delete(i) => i in s.invs && s.invs[i].phase.Deleting?
    case Respond(r, key, message) => r !in s.resps
    case Look(r) => r in s.resps && s.resps[r].stage.Looking?
    // a channel without buffer: sender and receiver meet
    case Deliver(r) => r in s.resps && s.resps[r].stage.Holding?
                       && s.resps[r].stage.entry in s.invs && s.invs[s.resps[r].stage.entry].phase.Selecting?
    case SeeDone(r) => r in s.resps && s.resps[r].stage.Holding? && s.resps[r].stage.entry in s.closed
    case CutOffBy(r) => r in s.resps && s.resps[r].stage.Holding?
  }

  function Next<P>(s: State<P>, a: Action<P>): State<P>
    requires Enabled(s, a)
  {
    match a
    case Invoke(i, key) => s.(invs := s.invs[i := Invocation(key, New)])
    case Register(i) => At(s, i, Registered).(pending := s.pending[s.invs[i].key := i])
    case Publish(i, ok) => At(s, i, if ok then Selecting else Leaving(PublishFailed))
    case TimeOut(i) => At(s, i, Leaving(TimedOut))
    case Cancel(i) => At(s, i, Leaving(Canceled))
    case Find(i) =>
      var key, res := s.invs[i].key, s.invs[i].phase.result;
      if key in s.pending then At(s, i, Closing(res, s.pending[key])) else At(s, i, Returned(res))
    case Close(i) =>
      var e := s.invs[i].phase.entry;
      if e in s.closed then s.(panicked := true)  // close of a closed channel
      else At(s, i, Deleting(s.invs[i].phase.result)).(closed := s.closed + {e})
    case Delete(i) => At(s, i, Returned(s.invs[i].phase.result)).(pending := s.pending - {s.invs[i].key})
    case Respond(r, key, message) => s.(resps := s.resps[r := Responder(key, message, Looking)])
    case Look(r) =>
      var key := s.resps[r].key;
      Put(s, r, if key in s.pending then Holding(s.pending[key]) else Unclaimed)
    case Deliver(r) =>
      var i := s.resps[r].stage.entry;
      At(Put(s, r, Delivered(i)), i, Leaving(Got(r, s.resps[r].message)))
    case SeeDone(r) => Put(s, r, Dropped)
    case CutOffBy(r) => Put(s, r, CutOff)
  }

  predicate Active<P>(inv: Invocation<P>) {
    !inv.phase.Returned?
  }

  /** A new invocation brings a key that no active invocation has. */
  predicate FreshKey<P>(s: State<P>, a: Action<P>) {
    a.Invoke? ==> forall j | j in s.invs && Active(s.invs[j]) :: s.invs[j].key != a.key
  }

  ghost predicate Reaches<P>(s: State<P>, run: seq<Action<P>>, s': State<P>)
    decreases |run|
  {
    if run == [] then s == s'
    else Enabled(s, run[0]) && Reaches(Next(s, run[0]), run[1..], s')
  }

  /** As Reaches, with distinct tokens. */
  ghost predicate ReachesFresh<P>(s: State<P>, run: seq<Action<P>>, s': State<P>)
    decreases |run|
  {
    if run == [] then s == s'
    else Enabled(s, run[0]) && FreshKey(s, run[0]) && ReachesFresh(Next(s, run[0]), run[1..], s')
  }

  // ---------- The invariant ----------

  predicate Stored<P>(inv: Invocation<P>) {
    !inv.phase.New? && !inv.phase.Returned?
  }

  predicate HasResult<P>(inv: Invocation<P>) {
    inv.phase.Leaving? || inv.phase.Closing? || inv.phase.Deleting? || inv.phase.Returned?
  }

  /** The entries are those of the invocations between registering and removal. */
  ghost predicate EntriesMatch<P>(s: State<P>) {
    EntriesStored(s) && EntriesOwned(s)
  }

  ghost predicate EntriesStored<P>(s: State<P>) {
    forall i | i in s.invs && Stored(s.invs[i]) :: s.invs[i].key in s.pending && s.pending[s.invs[i].key] == i
  }

  ghost predicate EntriesOwned<P>(s: State<P>) {
    forall k | k in s.pending :: s.pending[k] in s.invs && Stored(s.invs[s.pending[k]]) && s.invs[s.pending[k]].key == k
  }

  ghost predicate KeysDistinct<P>(s: State<P>) {
    forall i, j | i in s.invs && j in s.invs && Active(s.invs[i]) && Active(s.invs[j]) && s.invs[i].key == s.invs[j].key :: i == j
  }

  /** A done channel is closed once, by its own invocation, on the way out. */
  ghost predicate ClosedMatch<P>(s: State<P>) {
    && !s.panicked
    && (forall i | i in s.invs && s.invs[i].phase.Closing? :: s.invs[i].phase.entry == i)
    && (forall i | i in s.invs :: i in s.closed <==> s.invs[i].phase.Deleting? || s.invs[i].phase.Returned?)
    && (forall i | i in s.closed :: i in s.invs)
  }

  ghost predicate HoldersMatch<P>(s: State<P>) {
    forall r | r in s.resps && s.resps[r].stage.Holding? ::
      var i := s.resps[r].stage.entry;
      i in s.invs && !s.invs[i].phase.New? && s.invs[i].key == s.resps[r].key
  }

  /** A received message is that of a responder with the same key, which gave it to no one else. */
  ghost predicate ResultsMatch<P>(s: State<P>) {
    && (forall i | i in s.invs && HasResult(s.invs[i]) && s.invs[i].phase.result.Got? ::
          var r := s.invs[i].phase.result.from;
          r in s.resps && s.resps[r].stage == Delivered(i)
          && s.resps[r].key == s.invs[i].key && s.resps[r].message == s.invs[i].phase.result.message)
    && (forall r | r in s.resps && s.resps[r].stage.Delivered? ::
          var i := s.resps[r].stage.to;
          i in s.invs && HasResult(s.invs[i]) && s.invs[i].phase.result.Got? && s.invs[i].phase.result.from == r)
  }

  ghost predicate Inv<P>(s: State<P>) {
    EntriesMatch(s) && KeysDistinct(s) && ClosedMatch(s) && HoldersMatch(s) && ResultsMatch(s)
  }

  lemma StepKeepsEntries<P>(s: State<P>, a: Action<P>)
    requires Inv(s) && Enabled(s, a) && FreshKey(s, a)
    ensures EntriesMatch(Next(s, a))
  {
    StepKeepsStored(s, a);
    StepKeepsOwned(s, a);
  }

  lemma StepKeepsStored<P>(s: State<P>, a: Action<P>)
    requires Inv(s) && Enabled(s, a) && FreshKey(s, a)
    ensures EntriesStored(Next(s, a))
  {
    hide HoldersMatch, ResultsMatch, EntriesOwned, ClosedMatch;
  }

  lemma StepKeepsOwned<P>(s: State<P>, a: Action<P>)
    requires Inv(s) && Enabled(s, a) && FreshKey(s, a)
    ensures EntriesOwned(Next(s, a))
  {
    hide HoldersMatch, ResultsMatch, KeysDistinct, ClosedMatch;
  }

  lemma StepKeepsKeys<P>(s: State<P>, a: Action<P>)
    requires Inv(s) && Enabled(s, a) && FreshKey(s, a)
    ensures KeysDistinct(Next(s, a))
  {
    hide HoldersMatch, ResultsMatch, EntriesMatch, ClosedMatch;
  }

  lemma StepKeepsClosed<P>(s: State<P>, a: Action<P>)
    requires Inv(s) && Enabled(s, a) && FreshKey(s, a)
    ensures ClosedMatch(Next(s, a))
  {
    hide HoldersMatch, ResultsMatch;
  }

  lemma StepKeepsHolders<P>(s: State<P>, a: Action<P>)
    requires Inv(s) && Enabled(s, a) && FreshKey(s, a)
    ensures HoldersMatch(Next(s, a))
  {
    hide ResultsMatch, ClosedMatch;
  }

  lemma StepKeepsResults<P>(s: State<P>, a: Action<P>)
    requires Inv(s) && Enabled(s, a) && FreshKey(s, a)
    ensures ResultsMatch(Next(s, a))
  {
    hide EntriesMatch, KeysDistinct, ClosedMatch;
  }

  lemma StepKeepsInv<P>(s: State<P>, a: Action<P>)
    requires Inv(s) && Enabled(s, a) && FreshKey(s, a)
    ensures Inv(Next(s, a))
  {
    StepKeepsEntries(s, a);
    StepKeepsKeys(s, a);
    StepKeepsClosed(s, a);
    StepKeepsHolders(s, a);
    StepKeepsResults(s, a);
  }

  lemma {:induction false} RunKeepsInv<P>(s: State<P>, run: seq<Action<P>>, s': State<P>)
    requires Inv(s) && ReachesFresh(s, run, s')
    ensures Inv(s')
    decreases |run|
  {
    if run != [] {
      StepKeepsInv(s, run[0]);
      RunKeepsInv(Next(s, run[0]), run[1..], s');
    }
  }

  // ---------- With distinct tokens ----------

  /** In every reachable state: an invocation's message was sent for its own thing and
      token, by a responder that served no other invocation; an invocation that has
      returned has left no entry; and no channel is closed twice. */
  lemma MessagesReachTheirInvocation<P>(run: seq<Action<P>>, s: State<P>, i: int, j: int)
    requires ReachesFresh(Start(), run, s)
    requires i in s.invs && HasResult(s.invs[i]) && j in s.invs && HasResult(s.invs[j])
    ensures !s.panicked
    ensures s.invs[i].phase.result.Got? ==>
              var r := s.invs[i].phase.result.from;
              r in s.resps && s.resps[r].key == s.invs[i].key && s.resps[r].message == s.invs[i].phase.result.message
    ensures (s.invs[i].phase.result.Got? && s.invs[j].phase.result.Got?
             && s.invs[i].phase.result.from == s.invs[j].phase.result.from) ==> i == j
    ensures s.invs[i].phase.Returned? ==> i !in s.pending.Values
  {
    RunKeepsInv(Start(), run, s);
  }

  /** Two responders never hand their messages to the same invocation. */
  lemma OneMessageEach<P>(run: seq<Action<P>>, s: State<P>, q: int, r: int)
    requires ReachesFresh(Start(), run, s)
    requires q in s.resps && r in s.resps && s.resps[q].stage.Delivered? && s.resps[q].stage == s.resps[r].stage
    ensures q == r
  {
    RunKeepsInv(Start(), run, s);
  }

  /** The steps the invocation of an entry still has to take until the entry is closed. */
  function WayOut<P>(phase: Phase<P>, i: int): seq<Action<P>> {
    match phase
    case Registered => [Publish(i, false), Find(i), Close(i)]
    case Selecting => [TimeOut(i), Find(i), Close(i)]
    case Leaving(_) => [Find(i), Close(i)]
    case Closing(_, _) => [Close(i)]
    case _ => []
  }

  /** A waiting responder is never stuck: once the steps left to the invocation are
      taken, none of which waits for anyone, the responder sees that it is done. */
  lemma {:induction false} ResponderIsReleased<P>(run: seq<Action<P>>, s: State<P>, r: int)
    requires ReachesFresh(Start(), run, s) && r in s.resps && s.resps[r].stage.Holding?
    ensures var i := s.resps[r].stage.entry;
            i in s.invs && exists end :: Reaches(s, WayOut(s.invs[i].phase, i), end) && Enabled(end, SeeDone(r))
    ensures var i := s.resps[r].stage.entry;
            s.invs[i].phase.Returned? ==> Enabled(s, SeeDone(r))
  {
    RunKeepsInv(Start(), run, s);
    var i := s.resps[r].stage.entry;
    var end := TakeWayOut(s, i);
  }

  lemma {:induction false} TakeWayOut<P>(s: State<P>, i: int) returns (end: State<P>)
    requires Inv(s) && i in s.invs && !s.invs[i].phase.New?
    ensures Reaches(s, WayOut(s.invs[i].phase, i), end) && !end.panicked && i in end.closed && end.resps == s.resps
    decreases |WayOut(s.invs[i].phase, i)|
  {
    hide HoldersMatch, ResultsMatch, Reaches;
    var way := WayOut(s.invs[i].phase, i);
    if way == [] {
      end := s;
      ReachesNothing(s);
    } else {
      var a := way[0];
      StepKeepsInv(s, a);
      assert way[1..] == WayOut(Next(s, a).invs[i].phase, i);
      end := TakeWayOut(Next(s, a), i);
      ReachesFirst(s, way, end);
    }
  }

  lemma ReachesNothing<P>(s: State<P>)
    ensures Reaches(s, [], s)
  {}

  lemma ReachesFirst<P>(s: State<P>, run: seq<Action<P>>, end: State<P>)
    requires run != [] && Enabled(s, run[0]) && Reaches(Next(s, run[0]), run[1..], end)
    ensures Reaches(s, run, end)
  {}

  // ---------- The cause of a result ----------

  /** What invocation i returns with tells which of its steps ended its waiting. */
  ghost predicate Caused<P>(done: seq<Action<P>>, s: State<P>, i: int) {
    if i in s.invs && HasResult(s.invs[i]) then
      && (s.invs[i].phase.result.TimedOut? <==> TimeOut(i) in done)
      && (s.invs[i].phase.result.Canceled? <==> Cancel(i) in done)
      && (s.invs[i].phase.result.PublishFailed? <==> Publish(i, false) in done)
    else
      TimeOut(i) !in done && Cancel(i) !in done && Publish(i, false) !in done
  }

  lemma StepKeepsCause<P>(done: seq<Action<P>>, s: State<P>, a: Action<P>, i: int)
    requires Caused(done, s, i) && Enabled(s, a)
    ensures Caused(done + [a], Next(s, a), i)
  {
    assert forall b :: b in done + [a] <==> b in done || b == a;
  }

  lemma {:induction false} RunKeepsCause<P>(done: seq<Action<P>>, s: State<P>, run: seq<Action<P>>, end: State<P>, i: int)
    requires Caused(done, s, i) && Reaches(s, run, end)
    ensures Caused(done + run, end, i)
    decreases |run|
  {
    if run == [] {
      assert done + run == done;
    } else {
      StepKeepsCause(done, s, run[0], i);
      RunKeepsCause(done + [run[0]], Next(s, run[0]), run[1..], end, i);
      assert done + [run[0]] + run[1..] == done + run;
    }
  }

  /** In every run, distinct tokens or not, an invocation returns a timeout if and only if it
      timed out, a cancellation if and only if it was canceled, a send error if and only if
      its publishing failed, and a message otherwise. */
  lemma ResultTellsCause<P>(run: seq<Action<P>>, s: State<P>, i: int)
    requires Reaches(Start(), run, s) && i in s.invs && HasResult(s.invs[i])
    ensures var r := s.invs[i].phase.result;
            && (r.TimedOut? <==> TimeOut(i) in run)
            && (r.Canceled? <==> Cancel(i) in run)
            && (r.PublishFailed? <==> Publish(i, false) in run)
            && (r.Got? <==> TimeOut(i) !in run && Cancel(i) !in run && Publish(i, false) !in run)
  {
    RunKeepsCause([], Start(), run, s, i);
    assert [] + run == run;
  }

  // ---------- With a shared token ----------

  /** A responder whose entry was overwritten: nobody will ever close its channel. */
  ghost predicate Stranded<P>(s: State<P>, r: int) {
    && r in s.resps && s.resps[r].stage.Holding?
    && var i := s.resps[r].stage.entry;
    && i in s.invs && s.invs[i].phase.Returned? && i !in s.closed && i !in s.pending.Values
    && forall j | j in s.invs && s.invs[j].phase.Closing? :: s.invs[j].phase.entry != i
  }

  lemma {:induction false} StrandedForever<P>(s: State<P>, r: int, run: seq<Action<P>>, s': State<P>)
    requires Stranded(s, r) && Reaches(s, run, s') && forall k | 0 <= k < |run| :: run[k] != CutOffBy(r)
    ensures Stranded(s', r)
    decreases |run|
  {
    if run != [] {
      StrandedStep(s, r, run[0]);
      StrandedForever(Next(s, run[0]), r, run[1..], s');
    }
  }

  lemma StrandedStep<P>(s: State<P>, r: int, a: Action<P>)
    requires Stranded(s, r) && Enabled(s, a) && a != CutOffBy(r)
    ensures Stranded(Next(s, a), r)
  {
    var s' := Next(s, a);
    var i := s.resps[r].stage.entry;
    forall k | k in s'.pending ensures s'.pending[k] != i {
      if k in s.pending { assert s.pending[k] in s.pending.Values; }
    }
    if a.Find? && s.invs[a.i].key in s.pending { assert s.pending[s.invs[a.i].key] in s.pending.Values; }
  }

  lemma ReachesThen<P>(s: State<P>, run: seq<Action<P>>, m: State<P>, a: Action<P>)
    requires Reaches(s, run, m) && Enabled(m, a)
    ensures Reaches(s, run + [a], Next(m, a))
    decreases |run|
  {
    if run == [] {
      assert ([] + [a])[1..] == [];
    } else {
      ReachesThen(Next(s, run[0]), run[1..], m, a);
      assert (run + [a])[1..] == run[1..] + [a];
    }
  }

  /** Without distinct tokens a responder can be left waiting for good. */
  lemma SharedTokenStrands<P>(key: Key, message: P) returns (run: seq<Action<P>>, s: State<P>, r: int)
    ensures Reaches(Start(), run, s) && Stranded(s, r)
  {
    hide Reaches;
    r := 9;
    s, run := Start(), [];
    ReachesNothing(s);
    run, s := Then(run, s, Invoke(1, key));
    run, s := Then(run, s, Register(1));
    run, s := Then(run, s, Publish(1, true));
    run, s := Then(run, s, Respond(r, key, message));
    run, s := Then(run, s, Look(r));
    run, s := Then(run, s, Invoke(2, key));
    run, s := Then(run, s, Register(2));  // overwrites the entry that r holds
    run, s := Then(run, s, TimeOut(1));
    run, s := Then(run, s, Find(1));      // finds the other entry
    run, s := Then(run, s, Close(1));
    run, s := Then(run, s, Delete(1));
  }

  lemma Then<P>(run: seq<Action<P>>, s: State<P>, a: Action<P>) returns (run': seq<Action<P>>, s': State<P>)
    requires Reaches(Start(), run, s) && Enabled(s, a)
    ensures Reaches(Start(), run', s') && run' == run + [a] && s' == Next(s, a)
  {
    ReachesThen(Start(), run, s, a);
    run', s' := run + [a], Next(s, a);
  }

  // ---------- Exactly when a token is safe to use ----------

  /** What follows action a, when every later invocation brings a fresh key. */
  ghost predicate Follows<P>(s: State<P>, a: Action<P>, run: seq<Action<P>>, end: State<P>) {
    Enabled(s, a) && ReachesFresh(Next(s, a), run, end)
  }

  ghost predicate CanStrand<P(!new)>(s: State<P>, a: Action<P>) {
    exists run, end, r :: Follows(s, a, run, end) && Stranded(end, r)
  }

  ghost predicate CanPanic<P(!new)>(s: State<P>, a: Action<P>) {
    exists run, end :: Follows(s, a, run, end) && end.panicked
  }

  lemma {:induction false} ReachesFreshThen<P>(s: State<P>, run: seq<Action<P>>, m: State<P>, a: Action<P>)
    requires ReachesFresh(s, run, m) && Enabled(m, a) && FreshKey(m, a)
    ensures ReachesFresh(s, run + [a], Next(m, a))
    decreases |run|
  {
    if run == [] {
      assert ([] + [a])[1..] == [];
    } else {
      ReachesFreshThen(Next(s, run[0]), run[1..], m, a);
      assert (run + [a])[1..] == run[1..] + [a];
    }
  }

  lemma On<P>(s0: State<P>, run: seq<Action<P>>, s: State<P>, a: Action<P>) returns (run': seq<Action<P>>, s': State<P>)
    requires ReachesFresh(s0, run, s) && Enabled(s, a) && !a.Invoke?
    ensures ReachesFresh(s0, run', s') && s' == Next(s, a)
  {
    ReachesFreshThen(s0, run, s, a);
    run', s' := run + [a], Next(s, a);
  }

  /** Invocation i is new and j active with the same key; nobody else comes between. */
  ghost predicate Poised<P>(s: State<P>, i: int, j: int, r: int) {
    && !s.panicked && i != j && i in s.invs && j in s.invs && r !in s.resps
    && s.invs[i].key == s.invs[j].key && s.invs[i].phase.New? && !s.invs[j].phase.Returned?
    && (Stored(s.invs[j]) ==> s.invs[j].key in s.pending && s.pending[s.invs[j].key] == j)
    && (s.invs[j].phase.Closing? ==> s.invs[j].phase.entry == j)
    && (j in s.closed ==> s.invs[j].phase.Deleting?)
    && i !in s.closed && (forall k | k in s.pending :: s.pending[k] != i)
    && forall k | k in s.invs && s.invs[k].phase.Closing? :: s.invs[k].phase.entry != i
  }

  lemma ReuseIsPoised<P>(s: State<P>, i: int, j: int, r: int)
    requires Inv(s) && i !in s.invs && r !in s.resps && j in s.invs && Active(s.invs[j])
    ensures Poised(Next(s, Invoke(i, s.invs[j].key)), i, j, r)
  {
    hide HoldersMatch, ResultsMatch, KeysDistinct;
  }

  /** The next step of an invocation on its way to the removal. */
  function Onward<P>(phase: Phase<P>, j: int): Action<P> {
    match phase
    case New => Register(j)
    case Registered => Publish(j, false)
    case Selecting => TimeOut(j)
    case _ => Find(j)
  }

  function StepsLeft<P>(phase: Phase<P>): nat {
    match phase
    case New => 3
    case Registered => 2
    case Selecting => 2
    case Leaving(_) => 1
    case _ => 0
  }

  predicate Early<P>(inv: Invocation<P>) {
    StepsLeft(inv.phase) > 0
  }

  lemma OnwardKeepsPoised<P>(s: State<P>, i: int, j: int, r: int)
    requires Poised(s, i, j, r) && Early(s.invs[j])
    ensures var a := Onward(s.invs[j].phase, j);
            && Enabled(s, a) && Poised(Next(s, a), i, j, r)
            && j in Next(s, a).invs && StepsLeft(Next(s, a).invs[j].phase) == StepsLeft(s.invs[j].phase) - 1
  {
    var a := Onward(s.invs[j].phase, j);
    if s.invs[j].phase.Leaving? {
      assert s.pending[s.invs[j].key] == j;
      assert Next(s, a).invs[j].phase.Closing?;
    }
  }

  /** Invocation j goes on until so many steps are left before the removal. */
  lemma {:induction false} BringOut<P>(s0: State<P>, run: seq<Action<P>>, s: State<P>, i: int, j: int, r: int, left: nat)
    returns (run': seq<Action<P>>, s': State<P>)
    requires ReachesFresh(s0, run, s) && Poised(s, i, j, r) && j in s.invs && left <= StepsLeft(s.invs[j].phase)
    ensures ReachesFresh(s0, run', s') && Poised(s', i, j, r) && j in s'.invs && StepsLeft(s'.invs[j].phase) == left
    decreases StepsLeft(s.invs[j].phase)
  {
    hide ReachesFresh, Poised;
    run', s' := run, s;
    if left < StepsLeft(s.invs[j].phase) {
      OnwardKeepsPoised(s, i, j, r);
      run', s' := On(s0, run, s, Onward(s.invs[j].phase, j));
      run', s' := BringOut(s0, run', s', i, j, r, left);
    }
  }

  /** Responder r holds the entry that i has stored and j is about to delete. */
  ghost predicate Trapped<P>(s: State<P>, i: int, j: int, r: int) {
    && !s.panicked && i != j && i in s.invs && j in s.invs && r in s.resps
    && s.invs[i].key == s.invs[j].key && s.invs[i].phase.Registered? && s.resps[r].stage == Holding(i)
    && (s.invs[j].phase.Deleting? || (s.invs[j].phase.Closing? && s.invs[j].phase.entry == j && j !in s.closed))
    && i !in s.closed && (forall k | k in s.pending && s.pending[k] == i :: k == s.invs[i].key)
    && forall k | k in s.invs && s.invs[k].phase.Closing? :: s.invs[k].phase.entry != i
  }

  lemma ReuseTraps<P>(s0: State<P>, run: seq<Action<P>>, s: State<P>, i: int, j: int, r: int, message: P)
    returns (run': seq<Action<P>>, end: State<P>)
    requires ReachesFresh(s0, run, s) && Poised(s, i, j, r) && j in s.invs && StepsLeft(s.invs[j].phase) == 0
    ensures ReachesFresh(s0, run', end) && Trapped(end, i, j, r)
  {
    hide ReachesFresh;
    run', end := On(s0, run, s, Register(i));
    run', end := On(s0, run', end, Respond(r, s.invs[i].key, message));
    run', end := On(s0, run', end, Look(r));
  }

  /** While j removes its entry, i stores and r finds an entry that j then deletes. */
  lemma ReuseStrands<P>(s0: State<P>, run: seq<Action<P>>, s: State<P>, i: int, j: int, r: int)
    returns (run': seq<Action<P>>, end: State<P>)
    requires ReachesFresh(s0, run, s) && Trapped(s, i, j, r)
    ensures ReachesFresh(s0, run', end) && Stranded(end, r)
  {
    hide ReachesFresh;
    run', end := run, s;
    if s.invs[j].phase.Closing? { run', end := On(s0, run', end, Close(j)); }
    run', end := On(s0, run', end, Delete(j));
    run', end := On(s0, run', end, Publish(i, false));
    run', end := On(s0, run', end, Find(i));
  }

  /** Two removals of one entry: both find it before either closes it. */
  lemma ReusePanics<P>(s0: State<P>, run: seq<Action<P>>, s: State<P>, i: int, j: int, r: int)
    returns (run': seq<Action<P>>, end: State<P>)
    requires ReachesFresh(s0, run, s) && Poised(s, i, j, r) && j in s.invs && StepsLeft(s.invs[j].phase) == 1
    ensures ReachesFresh(s0, run', end) && end.panicked
  {
    hide ReachesFresh;
    run', end := On(s0, run, s, Register(i));
    run', end := On(s0, run', end, Publish(i, false));
    run', end := On(s0, run', end, Find(i));
    run', end := On(s0, run', end, Find(j));
    run', end := On(s0, run', end, Close(i));
    run', end := On(s0, run', end, Close(j));
  }

  lemma FreshInt(s: set<int>) returns (x: int)
    ensures x !in s
  {
    var m := UpperBound(s);
    x := m + 1;
  }

  lemma {:induction false} UpperBound(s: set<int>) returns (m: int)
    ensures forall x | x in s :: x <= m
    decreases |s|
  {
    if forall x :: x !in s {
      m := 0;
    } else {
      var x :| x in s;
      m := UpperBound(s - {x});
      assert forall y | y in s :: y == x || y in s - {x};
      if m < x { m := x; }
    }
  }

  /** The guard is exact: in a state reached with distinct tokens, a new invocation can
      leave a responder waiting for good, even if all later tokens are fresh, if and only
      if an active invocation has its key. */
  lemma FreshKeyIsExact<P(!new)>(before: seq<Action<P>>, s: State<P>, i: int, key: Key, message: P)
    requires ReachesFresh(Start(), before, s) && i !in s.invs
    ensures CanStrand(s, Invoke(i, key)) <==> !FreshKey(s, Invoke(i, key))
  {
    hide ReachesFresh;
    var a := Invoke(i, key);
    RunKeepsInv(Start(), before, s);
    if FreshKey(s, a) {
      forall run, end, r | Follows(s, a, run, end) ensures !Stranded(end, r) {
        FreshNeverStrands(s, a, run, end, r);
      }
    } else {
      var j :| j in s.invs && Active(s.invs[j]) && s.invs[j].key == key;
      var r := FreshInt(s.resps.Keys);
      ReuseIsPoised(s, i, j, r);
      ReachesFreshNothing(Next(s, a));
      var run, m := BringOut(Next(s, a), [], Next(s, a), i, j, r, 0);
      var end;
      run, end := ReuseTraps(Next(s, a), run, m, i, j, r, message);
      run, end := ReuseStrands(Next(s, a), run, end, i, j, r);
      assert Follows(s, a, run, end) && Stranded(end, r);
    }
  }

  lemma FreshNeverStrands<P>(s: State<P>, a: Action<P>, run: seq<Action<P>>, end: State<P>, r: int)
    requires Inv(s) && FreshKey(s, a) && Follows(s, a, run, end)
    ensures !Stranded(end, r)
  {
    hide ReachesFresh, HoldersMatch, ResultsMatch;
    StepKeepsInv(s, a);
    RunKeepsInv(Next(s, a), run, end);
  }

  lemma ReachesFreshNothing<P>(s: State<P>)
    ensures ReachesFresh(s, [], s)
  {}

  // ---------- Exactly when a channel may be closed twice ----------

  /** A new invocation brings a key that no invocation before its removal has. */
  predicate KeyNotEarly<P>(s: State<P>, a: Action<P>) {
    a.Invoke? ==> forall j | j in s.invs && Early(s.invs[j]) :: s.invs[j].key != a.key
  }

  /** What keeps channels from being closed twice: each removal finds its own entry. */
  ghost predicate ClosesOwn<P>(s: State<P>) {
    ClosedOnce(s) && FindsOwn(s) && EarlyKeysDistinct(s)
  }

  ghost predicate ClosedOnce<P>(s: State<P>) {
    && !s.panicked
    && (forall p | p in s.invs && s.invs[p].phase.Closing? :: s.invs[p].phase.entry == p)
    && (forall p | p in s.closed :: p in s.invs && (s.invs[p].phase.Deleting? || s.invs[p].phase.Returned?))
  }

  ghost predicate FindsOwn<P>(s: State<P>) {
    forall p | p in s.invs && Early(s.invs[p]) && !s.invs[p].phase.New? && s.invs[p].key in s.pending ::
      s.pending[s.invs[p].key] == p
  }

  ghost predicate EarlyKeysDistinct<P>(s: State<P>) {
    forall p, q | p in s.invs && q in s.invs && Early(s.invs[p]) && Early(s.invs[q]) && s.invs[p].key == s.invs[q].key ::
      p == q
  }

  lemma InvClosesOwn<P>(s: State<P>)
    requires Inv(s)
    ensures ClosesOwn(s)
  {
    hide HoldersMatch, ResultsMatch;
    assert ClosedOnce(s) && FindsOwn(s) && EarlyKeysDistinct(s);
  }

  lemma StepClosesOwn<P>(s: State<P>, a: Action<P>)
    requires ClosesOwn(s) && Enabled(s, a) && KeyNotEarly(s, a)
    ensures ClosesOwn(Next(s, a))
  {
    StepClosesOnce(s, a);
    StepFindsOwn(s, a);
    StepKeepsEarlyKeys(s, a);
    hide ClosedOnce, FindsOwn, EarlyKeysDistinct;
  }

  lemma StepClosesOnce<P>(s: State<P>, a: Action<P>)
    requires ClosedOnce(s) && FindsOwn(s) && Enabled(s, a)
    ensures ClosedOnce(Next(s, a))
  {}

  lemma StepFindsOwn<P>(s: State<P>, a: Action<P>)
    requires FindsOwn(s) && EarlyKeysDistinct(s) && Enabled(s, a)
    ensures FindsOwn(Next(s, a))
  {}

  lemma StepKeepsEarlyKeys<P>(s: State<P>, a: Action<P>)
    requires EarlyKeysDistinct(s) && Enabled(s, a) && KeyNotEarly(s, a)
    ensures EarlyKeysDistinct(Next(s, a))
  {}

  lemma {:induction false} RunClosesOwn<P>(s: State<P>, run: seq<Action<P>>, end: State<P>)
    requires ClosesOwn(s) && ReachesFresh(s, run, end)
    ensures ClosesOwn(end)
    decreases |run|
  {
    hide ClosesOwn;
    if run != [] {
      StepClosesOwn(s, run[0]);
      RunClosesOwn(Next(s, run[0]), run[1..], end);
    }
  }

  /** In a state reached with distinct tokens, a new invocation can bring about a second
      close of a channel, which ends the process, if and only if an invocation with its
      key has not yet looked up the entry it will remove. */
  lemma PanicIsExact<P(!new)>(before: seq<Action<P>>, s: State<P>, i: int, key: Key)
    requires ReachesFresh(Start(), before, s) && i !in s.invs
    ensures CanPanic(s, Invoke(i, key)) <==> !KeyNotEarly(s, Invoke(i, key))
  {
    hide ReachesFresh, ClosesOwn;
    var a := Invoke(i, key);
    RunKeepsInv(Start(), before, s);
    if KeyNotEarly(s, a) {
      forall run, end | Follows(s, a, run, end) ensures !end.panicked {
        InvClosesOwn(s);
        StepClosesOwn(s, a);
        RunClosesOwn(Next(s, a), run, end);
        NotPanicked(end);
      }
    } else {
      var j :| j in s.invs && Early(s.invs[j]) && s.invs[j].key == key;
      var r := FreshInt(s.resps.Keys);
      ReuseIsPoised(s, i, j, r);
      ReachesFreshNothing(Next(s, a));
      var run, m := BringOut(Next(s, a), [], Next(s, a), i, j, r, 1);
      var end;
      run, end := ReusePanics(Next(s, a), run, m, i, j, r);
      assert Follows(s, a, run, end) && end.panicked;
    }
  }

  lemma NotPanicked<P>(s: State<P>)
    requires ClosesOwn(s)
    ensures !s.panicked
  {}

  // ---------- The maps behind the steps ----------

  predicate CanRemove<P>(s: State<P>, i: int) {
    Enabled(s, Find(i)) && Enabled(Next(s, Find(i)), Close(i)) && Enabled(Next(Next(s, Find(i)), Close(i)), Delete(i))
  }

  /** The three steps of a removal in a row. */
  function Removed<P>(s: State<P>, i: int): State<P>
    requires CanRemove(s, i)
  {
    Next(Next(Next(s, Find(i)), Close(i)), Delete(i))
  }

  lemma RemovedChanges<P>(s: State<P>, i: int)
    requires Inv(s) && Enabled(s, Find(i))
    ensures CanRemove(s, i)
    ensures var key := s.invs[i].key;
            && key in s.pending && s.pending[key] == i
            && Removed(s, i).pending == s.pending - {key} && Removed(s, i).closed == s.closed + {i}
  {
    hide HoldersMatch, ResultsMatch, KeysDistinct, EntriesOwned;
  }

  /** The entries by thing and then by token, as the source nests them. */
  class MethodHandler {
    var pending: map<string, map<string, int>>
    var closed: set<int>

    constructor ()
      ensures closed == {} && forall k :: Entry(k).None?
    {
      pending, closed := map[], {};
    }

    function Entry(k: Key): Option<int>
      reads this
    {
      if k.thing in pending && k.token in pending[k.thing] then Some(pending[k.thing][k.token]) else None
    }

    /** The maps stand for the entries of a state. */
    ghost predicate StandsFor<P>(s: State<P>)
      reads this
    {
      closed == s.closed && forall k :: Entry(k) == if k in s.pending then Some(s.pending[k]) else None
    }

    /** The map part of Register. */
    method AddPending<P>(thing: string, token: string, i: int, ghost s: State<P>)
      requires Enabled(s, Register(i)) && s.invs[i].key == Key(thing, token) && StandsFor(s)
      modifies this
      ensures StandsFor(Next(s, Register(i)))
    {
      if thing !in pending { pending := pending[thing := map[]]; }
      pending := pending[thing := pending[thing][token := i]];
      assert forall k: Key :: Entry(k) == if k == Key(thing, token) then Some(i) else old(Entry(k));
    }

    /** The map part of Find, Close and Delete. */
    method RemovePending<P>(thing: string, token: string, ghost i: int, ghost s: State<P>)
      requires Inv(s) && Enabled(s, Find(i)) && s.invs[i].key == Key(thing, token) && StandsFor(s)
      modifies this
      ensures CanRemove(s, i) && StandsFor(Removed(s, i))
    {
      hide HoldersMatch, ResultsMatch, KeysDistinct, EntriesOwned, EntriesStored, ClosedMatch, Removed, CanRemove;
      RemovedChanges(s, i);
      if thing in pending {
        if token in pending[thing] {
          closed := closed + {pending[thing][token]};
          pending := pending[thing := pending[thing] - {token}];
        }
      }
      assert old(Entry(Key(thing, token))) == Some(i);
      assert forall k: Key :: Entry(k) == if k == Key(thing, token) then None else old(Entry(k));
    }

    /** The map part of Look. */
    method FindPending<P>(thing: string, token: string, ghost r: int, ghost s: State<P>) returns (entry: Option<int>)
      requires Enabled(s, Look(r)) && s.resps[r].key == Key(thing, token) && StandsFor(s)
      ensures Next(s, Look(r)) == Put(s, r, if entry.Some? then Holding(entry.value) else Unclaimed)
    {
      if thing !in pending {
        entry := None;
      } else if token !in pending[thing] {
        entry := None;
      } else {
        entry := Some(pending[thing][token]);
      }
      assert entry == Entry(Key(thing, token));
    }
  }
}
