/** Two independent matchers of MQTT topic filters: the recursive one of the mock
    connector (connector/mqtt/mock/route.go) and the loop of the web console
    (web/src/utils/subs.js).  Filters and topics are already split at the slashes. */
module Topics {

  type Levels = seq<string>

  // ---------- The rules of MQTT Version 3.1.1, section 4.7.1 ----------

  /** The multi-level wildcard may only be the last level of a filter. */
  predicate WellFormed(filter: Levels) {
    forall i | 0 <= i < |filter| - 1 :: filter[i] != "#"
  }

  predicate MultiLevel(filter: Levels) {
    filter != [] && filter[|filter|-1] == "#"
  }

  /** The first n levels match one by one; "+" matches any single level. */
  ghost predicate LevelsMatch(filter: Levels, topic: Levels, n: int) {
    n <= |filter| && n <= |topic| && forall i | 0 <= i < n :: filter[i] == "+" || filter[i] == topic[i]
  }

  /** "#" stands for any number of levels, its parent level included. */
  ghost predicate Matches(filter: Levels, topic: Levels) {
    if MultiLevel(filter) then LevelsMatch(filter, topic, |filter| - 1)
    else |topic| == |filter| && LevelsMatch(filter, topic, |filter|)
  }

  // ---------- The two matchers ----------

  function Match(route: Levels, topic: Levels): bool {
    if |route| == 0 then |topic| == 0
    else if |topic| == 0 then route[0] == "#"
    else if route[0] == "#" then true
    else if route[0] == "+" || route[0] == topic[0] then Match(route[1..], topic[1..])
    else false
  }

  /** Where the walk over a filter stops: its first "#", or its end. */
  function FirstHash(filter: Levels): (n: nat)
    ensures n <= |filter| && (forall i | 0 <= i < n :: filter[i] != "#") && (n < |filter| ==> filter[n] == "#")
  {
    if filter == [] || filter[0] == "#" then 0 else 1 + FirstHash(filter[1..])
  }

  ghost predicate LoopMatches(filter: Levels, topic: Levels) {
    var n := FirstHash(filter);
    LevelsMatch(filter, topic, n) && if n < |filter| then |topic| >= |filter| - 1 else |topic| == |filter|
  }

  /** A level beyond the end of the topic is undefined and equal to no string. */
  predicate SameLevel(left: string, topic: Levels, i: int)
    requires i >= 0
  {
    i < |topic| && left == topic[i]
  }

  method MatchTopicMethod(filter: Levels, topic: Levels) returns (r: bool)
    ensures r <==> LoopMatches(filter, topic)
  {
    var length := |filter|;
    var i := 0;
    while i < length
      invariant 0 <= i <= length && i <= FirstHash(filter)
      invariant forall k | 0 <= k < i :: filter[k] == "+" || SameLevel(filter[k], topic, k)
    {
      var left := filter[i];
      if left == "#" { return |topic| >= length - 1; }
      if !SameLevel(left, topic, i) && left != "+" { return false; }
      i := i + 1;
    }
    return length == |topic|;
  }

  // ---------- They agree ----------

  lemma {:induction false} MatchWalks(route: Levels, topic: Levels)
    ensures var n := FirstHash(route);
            Match(route, topic) <==> LevelsMatch(route, topic, n) && if n < |route| then true else |topic| == |route|
  {
    if route != [] && topic != [] && route[0] != "#" {
      MatchWalks(route[1..], topic[1..]);
      var n := FirstHash(route);
      if LevelsMatch(route, topic, n) {
        assert LevelsMatch(route[1..], topic[1..], n - 1);
      }
      if LevelsMatch(route[1..], topic[1..], n - 1) && (route[0] == "+" || route[0] == topic[0]) {
        forall i | 0 <= i < n ensures route[i] == "+" || route[i] == topic[i] {
          if i > 0 { assert route[i] == route[1..][i-1] && topic[i] == topic[1..][i-1]; }
        }
      }
    }
  }

  /** On well-formed filters the recursive matcher follows the rules of MQTT. */
  lemma MatchFollowsRules(route: Levels, topic: Levels)
    requires WellFormed(route)
    ensures Match(route, topic) <==> Matches(route, topic)
  {
    MatchWalks(route, topic);
  }

  /** So does the loop. */
  lemma LoopFollowsRules(filter: Levels, topic: Levels)
    requires WellFormed(filter)
    ensures LoopMatches(filter, topic) <==> Matches(filter, topic)
  {
    if MultiLevel(filter) { assert FirstHash(filter) == |filter| - 1; }
  }

  /** On any filter at all, the two matchers differ exactly when "#" stands inside the
      filter, the levels before it match, and the topic is too short for the loop. */
  lemma MatchersDifferExactly(filter: Levels, topic: Levels)
    ensures Match(filter, topic) != LoopMatches(filter, topic) <==>
              Match(filter, topic) && !WellFormed(filter) && |topic| < |filter| - 1
  {
    MatchWalks(filter, topic);
  }
}
