/**
 The endpoint fallback and retry chain of `makeRequest` (main.js:218-264).
 Each call requests one endpoint; on failure it schedules the next call
 with a new `(apiIndex, retries)`, or ends the chain with the final error.
 The request itself is not part of this model: whether attempt `k`
 succeeds is an input.
 */
module RetryChain {

  /** The number of endpoints in `apiEndpoints` (main.js:220-225). */
  const EndpointCount: nat := 4
  /** Delay before trying the next endpoint of a round, in milliseconds. */
  const NextEndpointDelay: nat := 1000
  /** `retryDelay`, the delay base for restarting a round, in milliseconds. */
  const RetryDelay: nat := 3000
  /** The default of the `retries` parameter. */
  const DefaultRetries: nat := 2

  /** The arguments of one `makeRequest` call that the chain threads through. */
  datatype State = State(apiIndex: int, retries: int)

  /** What the failure branch schedules: another call after `delay` ms, or the final error. */
  datatype Transition = Next(state: State, delay: nat) | Exhausted

  /**
   `apiEndpoints` for an input whose `encodeURIComponent` text is `encoded`:
   the local proxy, the direct server, the social downloader and the
   CORS relay in front of the direct server.
   */
  function ApiEndpoints(encoded: string): (list: seq<string>)
    ensures |list| == EndpointCount
  {
    ["/api/proxy?url=" + encoded,
     "https://vkrdownloader.xyz/server" + "?api_key=vkrdownloader&vkr=" + encoded,
     "https://api.socialdownloader.com" + "/api/facebook?url=" + encoded,
     "https://cors-anywhere.herokuapp.com/" + "https://vkrdownloader.xyz/server" + "?api_key=vkrdownloader&vkr=" + encoded]
  }

  /** `list[i]` in JavaScript: `undefined` (here `""`) outside the indices of the array. */
  function Lookup(list: seq<string>, i: int): string {
    if 0 <= i < |list| then list[i] else ""
  }

  /** `a || b` on strings: `a` when it is truthy, `b` otherwise. */
  function OrElse(a: string, b: string): string {
    if a != "" then a else b
  }

  /** `apiEndpoints[apiIndex] || apiEndpoints[0]`: the URL a call requests. */
  function RequestUrl(encoded: string, apiIndex: int): string {
    var apiEndpoints := ApiEndpoints(encoded);
    OrElse(Lookup(apiEndpoints, apiIndex), apiEndpoints[0])
  }

  /** The index of the endpoint a call with `apiIndex` requests. */
  function EndpointFor(apiIndex: int): (e: nat)
    ensures e < EndpointCount
  {
    if 0 <= apiIndex < EndpointCount then apiIndex else 0
  }

  /** Every endpoint URL is truthy, whatever the input. */
  lemma EndpointsNonEmpty(encoded: string)
    ensures forall k :: 0 <= k < EndpointCount ==> ApiEndpoints(encoded)[k] != ""
  {
    var list := ApiEndpoints(encoded);
    assert list[0][0] == '/' && list[1][0] == 'h' && list[2][0] == 'h' && list[3][0] == 'h';
  }

  /**
   A call with any index requests the endpoint at `EndpointFor(apiIndex)`:
   its own endpoint when the index is in range, the first one otherwise,
   since an out-of-range lookup is `undefined` and falls back through `||`.
   */
  lemma RequestUrlIsEndpointFor(encoded: string, apiIndex: int)
    ensures RequestUrl(encoded, apiIndex) == ApiEndpoints(encoded)[EndpointFor(apiIndex)]
    ensures 0 <= apiIndex < EndpointCount ==> RequestUrl(encoded, apiIndex) == ApiEndpoints(encoded)[apiIndex]
    ensures !(0 <= apiIndex < EndpointCount) ==> RequestUrl(encoded, apiIndex) == ApiEndpoints(encoded)[0]
  {
    EndpointsNonEmpty(encoded);
  }

  /** `Math.pow(2, n)` for a natural `n`. */
  function Pow2(n: nat): (p: nat)
    ensures p >= 1
  {
    if n == 0 then 1 else 2 * Pow2(n - 1)
  }

  /** The number of failures still to come before the final error, if every attempt fails. */
  function Rank(s: State): nat {
    (if s.retries > 0 then s.retries else 0) * EndpointCount
    + (if s.apiIndex < EndpointCount - 1 then EndpointCount - 1 - s.apiIndex else 0)
  }

  /**
   The failure branch of `makeRequest`. Every scheduled call is one step
   closer to the final error, and the chain ends exactly when nothing is
   left; moving on within a round waits 1000 ms and keeps the budget, a
   restart goes back to endpoint 0 with one retry fewer and always waits
   `RetryDelay`, because `maxRetries` is re-read from `retries` on every call.
   */
  function OnFailure(s: State): (t: Transition)
    ensures s.apiIndex < EndpointCount - 1 ==> t == Next(State(s.apiIndex + 1, s.retries), NextEndpointDelay)
    ensures s.apiIndex >= EndpointCount - 1 && s.retries > 0 ==> t == Next(State(0, s.retries - 1), RetryDelay)
    ensures s.apiIndex >= EndpointCount - 1 && s.retries <= 0 ==> t == Exhausted
    ensures t.Exhausted? <==> Rank(s) == 0
    ensures t.Next? ==> Rank(t.state) == Rank(s) - 1
    ensures t.Next? && t.state.retries == s.retries ==>
              t.state.apiIndex == s.apiIndex + 1 && t.delay == NextEndpointDelay
    ensures t.Next? && t.state.retries != s.retries ==>
              t.state == State(0, s.retries - 1) && t.delay == RetryDelay
  {
    var maxRetries := s.retries;
    if s.apiIndex < EndpointCount - 1 then
      Next(State(s.apiIndex + 1, s.retries), NextEndpointDelay)
    else if s.retries > 0 then
      Next(State(0, s.retries - 1), RetryDelay * Pow2(maxRetries - s.retries))
    else
      Exhausted
  }

  /** The calls made, in order, from `s` on when every attempt fails. */
  function Chain(s: State): seq<State>
    decreases Rank(s)
  {
    match OnFailure(s)
    case Next(n, _) => [s] + Chain(n)
    case Exhausted => [s]
  }

  /** A chain from `s` holds exactly `Rank(s) + 1` attempts. */
  lemma {:induction false} ChainLength(s: State)
    decreases Rank(s)
    ensures |Chain(s)| == Rank(s) + 1
  {
    match OnFailure(s)
    case Next(n, _) => ChainLength(n);
    case Exhausted =>
  }

  /** One round: the four endpoints in their listed order, all with budget `r`. */
  function Round(r: int): seq<State> {
    [State(0, r), State(1, r), State(2, r), State(3, r)]
  }

  /** Rounds with budgets `r`, `r - 1`, ..., `0`, one after the other. */
  function Rounds(r: nat): (c: seq<State>)
    ensures |c| == EndpointCount * (r + 1)
  {
    if r == 0 then Round(0) else Round(r) + Rounds(r - 1)
  }

  /**
   From the first endpoint with budget `r`, every attempt failing: the
   endpoints are tried in order, round after round, each round with one
   retry fewer, and nothing else happens.
   */
  lemma {:induction false} ChainIsRounds(r: nat)
    ensures Chain(State(0, r)) == Rounds(r)
  {
    var tail := if r == 0 then [] else Chain(State(0, r - 1));
    assert Chain(State(3, r)) == [State(3, r)] + tail;
    assert Chain(State(2, r)) == [State(2, r)] + Chain(State(3, r));
    assert Chain(State(1, r)) == [State(1, r)] + Chain(State(2, r));
    assert Chain(State(0, r)) == [State(0, r)] + Chain(State(1, r));
    assert Chain(State(0, r)) == Round(r) + tail;
    if r > 0 {
      ChainIsRounds(r - 1);
    }
  }

  /** In the rounds from budget `r` down, the `k`-th attempt is at index `k % 4`. */
  lemma {:induction false} RoundsIndex(r: nat, k: nat)
    requires k < |Rounds(r)|
    ensures Rounds(r)[k].apiIndex == k % EndpointCount
  {
    if k >= EndpointCount {
      RoundsIndex(r - 1, k - EndpointCount);
      assert Rounds(r)[k] == Rounds(r - 1)[k - EndpointCount];
    }
  }

  /**
   From the first endpoint with budget `r`, every attempt failing, attempt
   `k` requests endpoint `k % 4`: the endpoints in their listed order,
   round after round.
   */
  lemma ChainEndpoints(r: nat, k: nat)
    requires k < |Chain(State(0, r))|
    ensures EndpointFor(Chain(State(0, r))[k].apiIndex) == k % EndpointCount
  {
    ChainIsRounds(r);
    RoundsIndex(r, k);
  }

  /** Call `k` requests endpoint `k % 4`: the endpoints in their listed order, round after round. */
  predicate EndpointsInOrder(attempts: seq<State>) {
    forall k :: 0 <= k < |attempts| ==> EndpointFor(attempts[k].apiIndex) == k % EndpointCount
  }

  /**
   The same holds for any prefix of the chain, so for the calls `RunChain`
   makes from endpoint 0 whether or not one of them succeeds.
   */
  lemma PrefixEndpoints(start: State, attempts: seq<State>)
    requires start.apiIndex == 0 && start.retries >= 0
    requires attempts <= Chain(start)
    ensures EndpointsInOrder(attempts)
  {
    var r: nat := start.retries;
    assert start == State(0, r);
    forall k | 0 <= k < |attempts| ensures EndpointFor(attempts[k].apiIndex) == k % EndpointCount {
      ChainEndpoints(r, k);
    }
  }

  /** With budget `r` and every attempt failing there are exactly `4 * (r + 1)` attempts. */
  lemma AttemptCount(r: nat)
    ensures |Chain(State(0, r))| == EndpointCount * (r + 1)
  {
    ChainIsRounds(r);
  }

  /** A call made with the default budget ends after 12 failed attempts. */
  lemma DefaultAttemptCount()
    ensures |Chain(State(0, DefaultRetries))| == 12
  {
    AttemptCount(DefaultRetries);
  }

  /**
   An index past the last endpoint requests endpoint 0, and its failure
   restarts the round at once (when budget is left), so endpoint 0 is
   requested twice in a row.
   */
  lemma OutOfRangeIndex(i: int, r: int)
    requires i >= EndpointCount && r > 0
    ensures EndpointFor(i) == 0
    ensures Chain(State(i, r)) == [State(i, r)] + Chain(State(0, r - 1))
    ensures EndpointFor(Chain(State(i, r))[1].apiIndex) == 0
  {
  }

  /** Whether attempt `k` succeeds, given the observed outcomes; unobserved attempts fail. */
  predicate Succeeds(outcomes: seq<bool>, k: nat) {
    k < |outcomes| && outcomes[k]
  }

  /** Every delay recorded is the one the failure branch scheduled between two consecutive calls. */
  ghost predicate DelaysMatch(attempts: seq<State>, delays: seq<nat>) {
    |delays| == |attempts| - 1
    && forall k :: 0 <= k < |delays| ==> OnFailure(attempts[k]) == Next(attempts[k + 1], delays[k])
  }

  lemma DelaysExtend(attempts: seq<State>, delays: seq<nat>, n: State, d: nat)
    requires DelaysMatch(attempts, delays) && |attempts| >= 1
    requires OnFailure(attempts[|attempts| - 1]) == Next(n, d)
    ensures DelaysMatch(attempts + [n], delays + [d])
  {
    var a, ds := attempts + [n], delays + [d];
    forall k | 0 <= k < |ds| ensures OnFailure(a[k]) == Next(a[k + 1], ds[k]) {
      if k < |delays| {
        assert a[k] == attempts[k] && a[k + 1] == attempts[k + 1];
      }
    }
  }

  /** No call before the `n`-th one succeeded. */
  predicate FailedBefore(outcomes: seq<bool>, n: nat) {
    forall k :: 0 <= k < n ==> !Succeeds(outcomes, k)
  }

  /**
   One failed call from `s` moves the run along the chain: the next call is
   the one `Chain` lists after `s`, and the delay is the one scheduled.
   */
  lemma ChainStep(start: State, before: seq<State>, s: State, n: State, d: nat)
    requires before + Chain(s) == Chain(start)
    requires OnFailure(s) == Next(n, d)
    ensures (before + [s]) + Chain(n) == Chain(start)
    ensures Rank(n) < Rank(s)
  {
    var tail := Chain(n);
    assert Chain(s) == [s] + tail;
    assert (before + [s]) + tail == before + ([s] + tail);
  }

  /** What the calls made so far say about the whole chain, once the last one was made from `s`. */
  lemma MadePrefix(start: State, before: seq<State>, s: State)
    requires before + Chain(s) == Chain(start)
    ensures before + [s] <= Chain(start)
    ensures |before| + 1 <= Rank(start) + 1
    ensures OnFailure(s).Exhausted? ==> before + [s] == Chain(start)
  {
    ChainLength(s);
    ChainLength(start);
    assert Chain(s)[0] == s;
    assert Chain(start)[..|before| + 1] == before + [s];
  }

  /**
   Runs the chain from `(apiIndex, retries)`: the calls made, the delays
   between them and whether one succeeded. The calls follow `Chain` and
   stop at the first success; if none succeeds the whole chain is made.
   */
  method RunChain(retries: int, apiIndex: int, outcomes: seq<bool>)
      returns (attempts: seq<State>, delays: seq<nat>, success: bool)
    ensures 1 <= |attempts| <= Rank(State(apiIndex, retries)) + 1
    ensures attempts <= Chain(State(apiIndex, retries))
    ensures forall k :: 0 <= k < |attempts| - 1 ==> !Succeeds(outcomes, k)
    ensures success <==> Succeeds(outcomes, |attempts| - 1)
    ensures !success ==> attempts == Chain(State(apiIndex, retries))
    ensures |delays| == |attempts| - 1
    ensures forall k :: 0 <= k < |delays| ==> OnFailure(attempts[k]) == Next(attempts[k + 1], delays[k])
  {
    var s := State(apiIndex, retries);
    ghost var start := s;
    ghost var before: seq<State> := [];
    attempts, delays, success := [s], [], false;
    var done := false;
    while !done
      invariant attempts == before + [s]
      invariant before + Chain(s) == Chain(start)
      invariant DelaysMatch(attempts, delays)
      invariant FailedBefore(outcomes, |before|)
      invariant done ==> (success <==> Succeeds(outcomes, |before|))
      invariant done && !success ==> OnFailure(s).Exhausted?
      invariant !done ==> !success
      decreases if done then 0 else Rank(s) + 1
    {
      if Succeeds(outcomes, |attempts| - 1) {
        success, done := true, true;
      } else {
        match OnFailure(s)
        case Next(n, d) =>
          ChainStep(start, before, s, n, d);
          DelaysExtend(attempts, delays, n, d);
          before := attempts;
          attempts, delays, s := attempts + [n], delays + [d], n;
        case Exhausted =>
          done := true;
      }
    }
    MadePrefix(start, before, s);
  }
}
