/** Presence of a thing, kept twice: in the connection row (shadow/shadow_repo.go) and
    in the client cache of the broker adapters (connector/mqtt). */
module Presence {
  import opened Options

  datatype ClientInfo = ClientInfo(
    clientId: string, connected: bool, connectedAt: Option<int>, disconnectedAt: Option<int>)

  /** A presence event names one time. */
  datatype Event = Event(thingId: string, connected: bool, time: int)

  function ToClientInfo(e: Event): ClientInfo {
    if e.connected then ClientInfo(e.thingId, true, Some(e.time), None)
    else ClientInfo(e.thingId, false, None, Some(e.time))
  }

  // ---------- The connection row ----------

  datatype ConnStatus = ConnStatus(connected: bool, connectedAt: Option<int>, disconnectedAt: Option<int>)

  const NeverSeen: ConnStatus := ConnStatus(false, None, None)

  /** The time the update is guarded with. */
  function GuardTime(c: ClientInfo): Option<int> {
    if c.disconnectedAt.Some? && (c.connectedAt.None? || c.connectedAt.value < c.disconnectedAt.value)
    then c.disconnectedAt else c.connectedAt
  }

  predicate NotAfter(t: Option<int>, ts: int) {
    t.None? || t.value <= ts
  }

  function RowAfter(row: ConnStatus, c: ClientInfo): ConnStatus {
    var ts := GuardTime(c);
    if ts.Some? && !(NotAfter(row.connectedAt, ts.value) && NotAfter(row.disconnectedAt, ts.value)) then row
    else if c.connected then row.(connected := true, connectedAt := c.connectedAt)
    else row.(connected := false, disconnectedAt := c.disconnectedAt)
  }

  function RowsAfter(rows: map<string, ConnStatus>, cs: seq<ClientInfo>): map<string, ConnStatus> {
    if cs == [] then rows
    else
      var rows', c := RowsAfter(rows, cs[..|cs|-1]), cs[|cs|-1];
      if c.clientId in rows' then rows'[c.clientId := RowAfter(rows'[c.clientId], c)] else rows'
  }

  class ConnStatusTable {
    var rows: map<string, ConnStatus>

    constructor (rows: map<string, ConnStatus>)
      ensures this.rows == rows
    {
      this.rows := rows;
    }

    method UpdateConnStatus(s: seq<ClientInfo>)
      modifies this
      ensures rows == RowsAfter(old(rows), s) && rows.Keys == old(rows).Keys
      // one update: a row that knows a later time stays; otherwise the flag and the time of its kind are set
      ensures |s| == 1 && s[0].clientId in old(rows) ==>
                var c, row := s[0], old(rows)[s[0].clientId];
                var ts := if c.disconnectedAt.Some? && (c.connectedAt.None? || c.connectedAt.value < c.disconnectedAt.value)
                          then c.disconnectedAt else c.connectedAt;
                rows == old(rows)[c.clientId :=
                  if ts.Some? && ((row.connectedAt.Some? && row.connectedAt.value > ts.value)
                                  || (row.disconnectedAt.Some? && row.disconnectedAt.value > ts.value)) then row
                  else if c.connected then row.(connected := true, connectedAt := c.connectedAt)
                  else row.(connected := false, disconnectedAt := c.disconnectedAt)]
    {
      for i := 0 to |s|
        invariant rows == RowsAfter(old(rows), s[..i]) && rows.Keys == old(rows).Keys
      {
        var c := s[i];
        assert s[..i+1][..i] == s[..i];
        var ts := c.connectedAt;
        if c.disconnectedAt.Some? && (c.connectedAt.None? || c.connectedAt.value < c.disconnectedAt.value) {
          ts := c.disconnectedAt;
        }
        if c.clientId in rows {
          var row := rows[c.clientId];
          if ts.None? || (NotAfter(row.connectedAt, ts.value) && NotAfter(row.disconnectedAt, ts.value)) {
            rows := rows[c.clientId :=
              if c.connected then row.(connected := true, connectedAt := c.connectedAt)
              else row.(connected := false, disconnectedAt := c.disconnectedAt)];
          }
        }
      }
      assert s[..|s|] == s;
    }
  }

  // ---------- The cache ----------

  /** The time the cache holds against a new entry. */
  function CachedTime(c: ClientInfo): Option<int> {
    if c.disconnectedAt.Some? && c.connectedAt.Some? && c.disconnectedAt.value > c.connectedAt.value
    then c.disconnectedAt else c.connectedAt
  }

  function NewTime(c: ClientInfo): Option<int> {
    if c.connected then c.connectedAt else c.disconnectedAt
  }

  function CacheAfter(cached: Option<ClientInfo>, c: ClientInfo): ClientInfo
    requires NewTime(c).Some?
  {
    if cached.None? then c
    else if CachedTime(cached.value).Some? && NewTime(c).value < CachedTime(cached.value).value then cached.value
    else if c.connected then c
    else c.(connectedAt := cached.value.connectedAt)
  }

  function Lookup<T>(m: map<string, T>, id: string): Option<T> {
    if id in m then Some(m[id]) else None
  }

  class EmbedBroker {
    var clients: map<string, ClientInfo>

    method UpdateClient(c0: ClientInfo)
      requires NewTime(c0).Some?  // the source dereferences it
      modifies this
      ensures clients == old(clients)[c0.clientId := CacheAfter(Lookup(old(clients), c0.clientId), c0)]
      // an older entry is ignored; a newer connect replaces the entry, a newer disconnect keeps its connect time
      ensures c0.clientId !in old(clients) ==> clients[c0.clientId] == c0
      ensures c0.clientId in old(clients) ==>
                var cached := old(clients)[c0.clientId];
                var time := if c0.connected then c0.connectedAt.value else c0.disconnectedAt.value;
                if cached.connectedAt.Some?
                   && (time < cached.connectedAt.value
                       || (cached.disconnectedAt.Some? && cached.connectedAt.value < cached.disconnectedAt.value
                           && time < cached.disconnectedAt.value))
                then clients[c0.clientId] == cached
                else clients[c0.clientId] == if c0.connected then c0 else c0.(connectedAt := cached.connectedAt)
    {
      var c := c0;
      if c.clientId in clients {
        var cached := clients[c.clientId];
        var oldTime := cached.connectedAt;
        if cached.disconnectedAt.Some? && cached.connectedAt.Some? && cached.disconnectedAt.value > cached.connectedAt.value {
          oldTime := cached.disconnectedAt;
        }
        var newTime := c.connectedAt;
        if !c.connected { newTime := c.disconnectedAt; }
        if oldTime.Some? && newTime.value < oldTime.value {
          assert clients == clients[c.clientId := cached];
          return;
        }
        if !c.connected { c := c.(connectedAt := cached.connectedAt); }
      }
      clients := clients[c.clientId := c];
    }
  }

  /** The EMQX adapter caches the same information with the time of the update. */
  class EmqxAdapter {
    var clients: map<string, (ClientInfo, int)>

    method UpdateClient(i0: ClientInfo, now: int)
      requires NewTime(i0).Some?
      modifies this
      ensures clients.Keys == old(clients).Keys + {i0.clientId}
      ensures forall id | id in old(clients) && id != i0.clientId :: clients[id] == old(clients)[id]
      ensures var cached := Lookup(old(clients), i0.clientId);
              clients[i0.clientId].0 == CacheAfter(if cached.Some? then Some(cached.value.0) else None, i0)
      ensures i0.clientId !in old(clients) ==> clients[i0.clientId] == (i0, now)
      ensures i0.clientId in old(clients) ==>
                var cached := old(clients)[i0.clientId];
                var time := if i0.connected then i0.connectedAt.value else i0.disconnectedAt.value;
                if cached.0.connectedAt.Some? && (time < cached.0.connectedAt.value
                     || (cached.0.disconnectedAt.Some? && cached.0.connectedAt.value < cached.0.disconnectedAt.value
                         && time < cached.0.disconnectedAt.value))
                then clients[i0.clientId] == cached
                else clients[i0.clientId] == (if i0.connected then i0 else i0.(connectedAt := cached.0.connectedAt), now)
    {
      var i := i0;
      if i.clientId in clients {
        var cached := clients[i.clientId].0;
        var oldTime := cached.connectedAt;
        if cached.disconnectedAt.Some? && cached.connectedAt.Some? && cached.disconnectedAt.value > cached.connectedAt.value {
          oldTime := cached.disconnectedAt;
        }
        var nowTime := i.connectedAt;
        if !i.connected { nowTime := i.disconnectedAt; }
        if oldTime.Some? && nowTime.value < oldTime.value { return; }
        if !i.connected { i := i.(connectedAt := cached.connectedAt); }
      }
      clients := clients[i.clientId := (i, now)];
    }
  }

  // ---------- One thing, any order of events ----------

  function RowRun(es: seq<Event>): ConnStatus {
    if es == [] then NeverSeen else RowAfter(RowRun(es[..|es|-1]), ToClientInfo(es[|es|-1]))
  }

  function CacheRun(es: seq<Event>): Option<ClientInfo> {
    if es == [] then None else Some(CacheAfter(CacheRun(es[..|es|-1]), ToClientInfo(es[|es|-1])))
  }

  /** Event k is the latest; of several with its time, the one that arrived last. */
  predicate Latest(es: seq<Event>, k: int) {
    0 <= k < |es| && (forall i | 0 <= i < |es| :: es[i].time <= es[k].time) && forall i | k < i < |es| :: es[i].time < es[k].time
  }

  /** The later of the row's two times. */
  function EffectiveTime(row: ConnStatus): Option<int> {
    if row.connectedAt.None? then row.disconnectedAt
    else if row.disconnectedAt.None? then row.connectedAt
    else if row.connectedAt.value < row.disconnectedAt.value then row.disconnectedAt else row.connectedAt
  }

  /** Last writer wins: the row shows the latest event, in whatever order the events came. */
  lemma {:induction false} RowShowsLatest(es: seq<Event>, k: int)
    requires Latest(es, k)
    ensures RowRun(es).connected == es[k].connected && EffectiveTime(RowRun(es)) == Some(es[k].time)
  {
    var n := |es| - 1;
    if n > 0 {
      var init := es[..n];
      var j := LatestOf(init);
      RowShowsLatest(init, j);
      if k < n { assert Latest(init, k); SameLatest(init, j, k); }
    } else {
      assert es[..0] == [];
    }
  }

  lemma {:induction false} LatestOf(es: seq<Event>) returns (k: int)
    requires es != []
    ensures Latest(es, k)
  {
    var n := |es| - 1;
    if n == 0 { return 0; }
    k := LatestOf(es[..n]);
    assert forall i | 0 <= i < n :: es[i] == es[..n][i];
    if es[n].time >= es[k].time { k := n; }
  }

  lemma SameLatest(es: seq<Event>, j: int, k: int)
    requires Latest(es, j) && Latest(es, k)
    ensures j == k
  {
    assert es[j].time == es[k].time;
  }

  predicate DistinctTimes(es: seq<Event>) {
    forall i, j | 0 <= i < j < |es| :: es[i].time != es[j].time
  }

  /** The same events with distinct times, delivered in two orders, leave the same presence. */
  lemma RowIgnoresOrder(a: seq<Event>, b: seq<Event>)
    requires multiset(a) == multiset(b) && DistinctTimes(a) && a != []
    ensures RowRun(a).connected == RowRun(b).connected && EffectiveTime(RowRun(a)) == EffectiveTime(RowRun(b))
  {
    assert a[0] in multiset(b);
    var j := LatestOf(a);
    var k := LatestOf(b);
    RowShowsLatest(a, j);
    RowShowsLatest(b, k);
    assert a[j] in multiset(b) && b[k] in multiset(a);
    var i :| 0 <= i < |b| && b[i] == a[j];
    var l :| 0 <= l < |a| && a[l] == b[k];
    assert b[i].time <= b[k].time && a[l].time <= a[j].time;
    assert l == j;
  }

  /** No event that arrived before event i is later than it. */
  predicate Newest(es: seq<Event>, i: int)
    requires 0 <= i < |es|
  {
    forall j | 0 <= j < i :: es[j].time <= es[i].time
  }

  /** Each of the two times of the row is that of the last event of its kind that was the
      newest on arrival; an event of the other kind, and one that came too late, leave it. */
  lemma {:induction false} RowKeepsBothTimes(es: seq<Event>, connect: bool, i: int)
    requires -1 <= i < |es| && (i >= 0 ==> es[i].connected == connect && Newest(es, i))
    requires forall j | i < j < |es| && es[j].connected == connect :: !Newest(es, j)
    ensures var time := if i < 0 then None else Some(es[i].time);
            (if connect then RowRun(es).connectedAt else RowRun(es).disconnectedAt) == time
  {
    if es != [] {
      var n := |es| - 1;
      var init := es[..n];
      RowTimeOfRun(es);
      if i < n { RowKeepsBothTimes(init, connect, i); }
    }
  }

  /** An event changes the row exactly when it is the newest so far. */
  lemma RowTimeOfRun(es: seq<Event>)
    requires es != []
    ensures var n := |es| - 1;
            RowRun(es) == if Newest(es, n) then
                            (if es[n].connected then RowRun(es[..n]).(connected := true, connectedAt := Some(es[n].time))
                             else RowRun(es[..n]).(connected := false, disconnectedAt := Some(es[n].time)))
                          else RowRun(es[..n])
  {
    var n := |es| - 1;
    var init := es[..n];
    if n > 0 {
      var k := LatestOf(init);
      RowShowsLatest(init, k);
      assert Newest(es, n) <==> init[k].time <= es[n].time by {
        assert forall j | 0 <= j < n :: es[j] == init[j];
      }
    } else {
      assert init == [];
    }
  }

  // ---------- The cache against the row ----------

  /** The number of events before the first connect. */
  function Leading(es: seq<Event>): (n: nat)
    ensures n <= |es| && (forall i | 0 <= i < n :: !es[i].connected) && (n < |es| ==> es[n].connected)
  {
    if es == [] || es[0].connected then 0 else 1 + Leading(es[1..])
  }

  /** The cache entry shows the latest of the events. */
  ghost predicate Shows(c: ClientInfo, es: seq<Event>) {
    c.connectedAt.Some? && exists k :: Latest(es, k) && c.connected == es[k].connected && CachedTime(c) == Some(es[k].time)
  }

  lemma ShowsOneMore(c: ClientInfo, es: seq<Event>, e: Event)
    requires Shows(c, es)
    ensures Shows(CacheAfter(Some(c), ToClientInfo(e)), es + [e])
  {
    var k :| Latest(es, k) && c.connected == es[k].connected && CachedTime(c) == Some(es[k].time);
    assert Latest(es + [e], if e.time < es[k].time then k else |es|);
  }

  /** The cache forgets the times of the disconnects before the first connect; from
      there on it too shows the latest event. */
  lemma {:induction false} CacheShowsLatestSinceConnect(es: seq<Event>)
    requires es != []
    ensures var n := Leading(es);
            var c := CacheRun(es).value;
            if n == |es| then !c.connected && c.connectedAt.None? else Shows(c, es[n..])
  {
    hide Shows;
    var m := |es| - 1;
    var n := Leading(es);
    if m == 0 {
      assert es[..0] == [] && es[0..] == es;
      assert CacheRun(es).value == CacheAfter(CacheRun([]), ToClientInfo(es[0])) == ToClientInfo(es[0]);
      if n == 0 { ShowsFirst(CacheRun(es).value, es[0], es); }
    } else {
      var init := es[..m];
      CacheShowsLatestSinceConnect(init);
      LeadingOfInit(es);
      if n < m {
        assert es[n..] == init[n..] + [es[m]];
        ShowsOneMore(CacheRun(init).value, init[n..], es[m]);
      } else if n == m {
        ShowsFirst(CacheRun(es).value, es[m], es[n..]);
      }
    }
  }

  lemma ShowsFirst(c: ClientInfo, e: Event, es: seq<Event>)
    requires e.connected && c == ToClientInfo(e) && |es| == 1 && es[0] == e
    ensures Shows(c, es)
  {
    assert Latest(es, 0);
  }

  lemma LeadingOfInit(es: seq<Event>)
    requires es != []
    ensures Leading(es[..|es|-1]) == if Leading(es) < |es| then Leading(es) else |es| - 1
    ensures Leading(es) == |es| - 1 ==> Leading(es[..|es|-1]) == |es| - 1
  {
    var init := es[..|es|-1];
    var a, b := Leading(es), Leading(init);
    if a < |init| { assert init[a].connected; }
    if b < |init| { assert es[b].connected; }
  }

  /** Cache and row disagree exactly when a disconnect before the first connect is later
      than everything from that connect on, and the latest of the rest is a connect. */
  lemma CacheAgreesExactly(es: seq<Event>, k: int, s: int)
    requires Latest(es, k)
    requires Leading(es) < |es| ==> Latest(es[Leading(es)..], s)
    ensures var n := Leading(es);
            CacheRun(es).value.connected == RowRun(es).connected <==> n == |es| || k >= n || !es[n..][s].connected
  {
    var n := Leading(es);
    RowShowsLatest(es, k);
    CacheShowsLatestSinceConnect(es);
    if n < |es| {
      var c, rest := CacheRun(es).value, es[n..];
      var l :| Latest(rest, l) && c.connected == rest[l].connected && CachedTime(c) == Some(rest[l].time);
      SameLatest(rest, l, s);
      if k >= n {
        assert Latest(rest, k - n) by { assert forall i | 0 <= i < |rest| :: rest[i] == es[n + i]; }
        SameLatest(rest, k - n, s);
      }
    }
  }

  /** When the first event is a connect, cache and row agree. */
  lemma CacheAgreesAfterConnect(es: seq<Event>)
    requires es != [] && es[0].connected
    ensures CacheRun(es).value.connected == RowRun(es).connected
  {
    var k := LatestOf(es);
    assert Leading(es) == 0 && es[0..] == es;
    CacheAgreesExactly(es, k, k);
  }

  /** A late disconnect that arrives first is forgotten by the cache. */
  lemma CacheMayDisagree() returns (es: seq<Event>)
    ensures CacheRun(es).Some? && CacheRun(es).value.connected && !RowRun(es).connected
  {
    var a, b := Event("t", false, 2), Event("t", true, 1);
    es := [a, b];
    assert es[..1] == [a] && [a][..0] == [];
    assert RowRun([a]) == RowAfter(RowRun([]), ToClientInfo(a));
    assert CacheRun([a]) == Some(CacheAfter(CacheRun([]), ToClientInfo(a)));
  }

  // ---------- Many things in one table ----------

  /** The events of one thing, in order. */
  function Of(es: seq<Event>, id: string): seq<Event> {
    if es == [] then [] else Of(es[..|es|-1], id) + if es[|es|-1].thingId == id then [es[|es|-1]] else []
  }

  function Infos(es: seq<Event>): seq<ClientInfo> {
    seq(|es|, i requires 0 <= i < |es| => ToClientInfo(es[i]))
  }

  /** In a batch of updates of many things, each row follows the events of its own thing. */
  lemma {:induction false} RowsAreIndependent(rows: map<string, ConnStatus>, es: seq<Event>, id: string)
    requires id in rows && rows[id] == NeverSeen
    ensures id in RowsAfter(rows, Infos(es)) && RowsAfter(rows, Infos(es))[id] == RowRun(Of(es, id))
  {
    if es != [] {
      var init, e := es[..|es|-1], es[|es|-1];
      RowsAreIndependent(rows, init, id);
      assert Infos(es)[..|es|-1] == Infos(init);
      if e.thingId == id {
        assert Of(es, id)[..|Of(init, id)|] == Of(init, id);
      } else {
        assert Of(init, id) + [] == Of(init, id);
      }
    } else {
      assert Infos(es) == [];
    }
  }
}
