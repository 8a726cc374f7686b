/** The Robot client: a rate limiter (internal/robot/ratelimit.go) around a list cache
    (internal/robot/cache.go), composed as in hcloud/cloud.go:119-122. */
module Robot {
  import opened Wrappers

  datatype Server = Server(number: int, ip: string)

  /** RateLimit covers the API's rate limit code and a response with status code 403. */
  datatype ApiError = RateLimit | OtherError

  datatype Request = ServerGet(number: int) | ServerGetList | ResetGet(number: int)

  datatype Answer =
    | OneServer(server: Server)
    | Servers(servers: seq<Server>)
    | Reset(status: string)
    | NotFound
    | Failed(error: ApiError)
    | RateLimited  // rejected here, with an error
    | Nothing      // neither a result nor an error

  /** The Robot API's side of one call, and the clock readings in the order they may be taken: by the
      limiter, again by the limiter when it rejects, by the cache before and after fetching, and by the
      limiter when it handles an error. */
  datatype Env = Env(
    list: Result<seq<Server>, ApiError>, reset: Result<string, ApiError>,
    gate: int, rejected: int, checked: int, listed: int, handled: int)
  {
    predicate Monotone() { gate <= rejected <= checked <= listed <= handled }
  }

  // ---------------------------------------------------------------- the list cache

  /** The server a list names by number: the last one. */
  function Search(servers: seq<Server>, number: int): Option<Server> {
    if |servers| == 0 then None
    else if servers[|servers| - 1].number == number then Some(servers[|servers| - 1])
    else Search(servers[..|servers| - 1], number)
  }

  /** Server k is the last one with its number. */
  predicate IsLast(servers: seq<Server>, k: nat) {
    k < |servers| && forall l :: k < l < |servers| ==> servers[l].number != servers[k].number
  }

  lemma {:induction false} SearchFindsLast(servers: seq<Server>, number: int, k: nat)
    ensures IsLast(servers, k) && servers[k].number == number ==> Search(servers, number) == Some(servers[k])
    ensures Search(servers, number) == None <==> forall i :: 0 <= i < |servers| ==> servers[i].number != number
  {
    if |servers| > 0 {
      var n := |servers| - 1;
      SearchFindsLast(servers[..n], number, k);
      if IsLast(servers, k) && k < n {
        assert IsLast(servers[..n], k);
      }
    }
  }

  datatype CacheState = CacheState(servers: seq<Server>, lastUpdate: Option<int>) {
    predicate Fresh(now: int, timeout: int) { lastUpdate.Some? && now < lastUpdate.value + timeout }

    /** Does the request lead to a list call to the API? */
    predicate CallsList(q: Request, env: Env, timeout: int) { !q.ResetGet? && !Fresh(env.checked, timeout) }

    function After(q: Request, env: Env, timeout: int): CacheState {
      if CallsList(q, env, timeout) && env.list.Ok? then CacheState(env.list.value, Some(env.listed)) else this
    }

    function Answer(q: Request, env: Env, timeout: int): Answer {
      if q.ResetGet? then
        match env.reset
        case Ok(status) => Reset(status)
        case Err(e) => Failed(e)
      else if CallsList(q, env, timeout) && env.list.Err? then Failed(env.list.error)
      else
        var known := After(q, env, timeout).servers;
        if q.ServerGetList? then Servers(known)
        else
          match Search(known, q.number)
          case None => NotFound
          case Some(server) => OneServer(server)
    }
  }

  class CachedClient {
    const timeout: int
    var servers: seq<Server>
    var serversByID: map<int, Server>
    var lastUpdate: Option<int>  // None is Go's zero time

    constructor (timeout: int)
      ensures this.timeout == timeout && Valid() && State() == CacheState([], None)
    {
      this.timeout := timeout;
      servers := [];
      serversByID := map[];
      lastUpdate := None;
    }

    ghost predicate Valid()
      reads this
    {
      forall n :: Search(servers, n) == if n in serversByID then Some(serversByID[n]) else None
    }

    function State(): CacheState
      reads this
    {
      CacheState(servers, lastUpdate)
    }

    method UpdateCacheIfNecessary(env: Env) returns (r: Result<(), ApiError>)
      requires Valid()
      modifies this
      ensures Valid()
      ensures State() == old(State()).After(ServerGetList, env, timeout)
      ensures r.Err? <==> old(State()).CallsList(ServerGetList, env, timeout) && env.list.Err?
      ensures r.Err? ==> r.error == env.list.error
    {
      if lastUpdate.Some? && env.checked < lastUpdate.value + timeout { return Ok(()); }
      if env.list.Err? { return Err(env.list.error); }
      servers := env.list.value;
      serversByID := map[];
      for i := 0 to |servers|
        invariant servers == env.list.value && lastUpdate == old(lastUpdate)
        invariant forall n :: Search(servers[..i], n) == if n in serversByID then Some(serversByID[n]) else None
      {
        serversByID := serversByID[servers[i].number := servers[i]];
        assert servers[..i + 1][..i] == servers[..i];
      }
      assert servers[..|servers|] == servers;
      lastUpdate := Some(env.listed);
      r := Ok(());
    }

    method Do(q: Request, env: Env) returns (a: Answer)
      requires Valid()
      modifies this
      ensures Valid()
      ensures State() == old(State()).After(q, env, timeout)
      ensures a == old(State()).Answer(q, env, timeout)
    {
      if q.ResetGet? {
        match env.reset {
          case Ok(status) => return Reset(status);
          case Err(e) => return Failed(e);
        }
      }
      var updated := UpdateCacheIfNecessary(env);
      if updated.Err? { return Failed(updated.error); }
      if q.ServerGetList? { return Servers(servers); }
      if q.number in serversByID {
        a := OneServer(serversByID[q.number]);
      } else {
        a := NotFound;
      }
    }
  }

  // ---------------------------------------------------------------- the rate limiter

  /** The limiter's fields and those of the cache behind it. */
  datatype State = State(exceeded: bool, lastChecked: int, cache: CacheState)

  datatype Config = Config(waitTime: int, timeout: int)

  predicate Closed(s: State, now: int, cfg: Config) {
    s.exceeded && now < s.lastChecked + cfg.waitTime
  }

  /** The call passes the limiter and reaches the cache. */
  predicate Reaches(s: State, env: Env, cfg: Config) { !Closed(s, env.gate, cfg) }

  /** The call leads to a list call to the API. */
  predicate CallsList(s: State, q: Request, env: Env, cfg: Config) {
    Reaches(s, env, cfg) && s.cache.CallsList(q, env, cfg.timeout)
  }

  /** The call ends in a rate-limit error of the API. */
  predicate HitsLimit(s: State, q: Request, env: Env, cfg: Config) {
    Reaches(s, env, cfg) && s.cache.Answer(q, env, cfg.timeout) == Failed(RateLimit)
  }

  /** Reading the gate opens it for good once the wait is over. */
  function Look(s: State, now: int, cfg: Config): State {
    if s.exceeded && !Closed(s, now, cfg) then s.(exceeded := false, lastChecked := ZERO_TIME) else s
  }

  const ZERO_TIME := 0

  function Next(s: State, q: Request, env: Env, cfg: Config): State {
    if !Reaches(s, env, cfg) then Look(s, env.rejected, cfg)
    else
      var s' := Look(s, env.gate, cfg).(cache := s.cache.After(q, env, cfg.timeout));
      if HitsLimit(s, q, env, cfg) then s'.(exceeded := true, lastChecked := env.handled) else s'
  }

  function AnswerOf(s: State, q: Request, env: Env, cfg: Config): Answer {
    if Reaches(s, env, cfg) then s.cache.Answer(q, env, cfg.timeout)
    else if Closed(s, env.rejected, cfg) then RateLimited
    else Nothing
  }

  class RateLimitClient {
    const waitTime: int
    const inner: CachedClient
    var exceeded: bool
    var lastChecked: int

    constructor (waitTime: int, inner: CachedClient)
      requires inner.Valid()
      ensures this.waitTime == waitTime && this.inner == inner && Valid()
      ensures Contents() == State(false, ZERO_TIME, inner.State())
    {
      this.waitTime := waitTime;
      this.inner := inner;
      exceeded := false;
      lastChecked := ZERO_TIME;
    }

    ghost predicate Valid()
      reads this, inner
    {
      inner.Valid()
    }

    function Contents(): State
      reads this, inner
    {
      State(exceeded, lastChecked, inner.State())
    }

    function Cfg(): Config { Config(waitTime, inner.timeout) }

    method IsExceeded(now: int) returns (r: bool)
      modifies this
      ensures r == Closed(old(Contents()), now, Cfg())
      ensures Contents() == Look(old(Contents()), now, Cfg())
    {
      if !exceeded { return false; }
      if now < lastChecked + waitTime { return true; }
      exceeded := false;
      lastChecked := ZERO_TIME;
      r := false;
    }

    method HandleError(a: Answer, now: int)
      modifies this
      ensures Contents() == if a == Failed(RateLimit) then old(Contents()).(exceeded := true, lastChecked := now)
                            else old(Contents())
    {
      if a == Failed(RateLimit) {
        exceeded := true;
        lastChecked := now;
      }
    }

    /** ServerGet, ServerGetList and ResetGet are guarded alike. */
    method Do(q: Request, env: Env) returns (a: Answer)
      requires Valid()
      modifies this, inner
      ensures Valid()
      ensures Contents() == Next(old(Contents()), q, env, Cfg())
      ensures a == AnswerOf(old(Contents()), q, env, Cfg())
    {
      var rejected := IsExceeded(env.gate);
      if rejected {
        var still := IsExceeded(env.rejected);
        return if still then RateLimited else Nothing;
      }
      a := inner.Do(q, env);
      HandleError(a, env.handled);
    }
  }

  // ---------------------------------------------------------------- whole runs

  datatype Call = Call(q: Request, env: Env)

  const START := State(false, ZERO_TIME, CacheState([], None))

  function After(calls: seq<Call>, n: nat, cfg: Config): State
    requires n <= |calls|
  {
    if n == 0 then START else Next(After(calls, n - 1, cfg), calls[n - 1].q, calls[n - 1].env, cfg)
  }

  predicate Timed(calls: seq<Call>) {
    && (forall i :: 0 <= i < |calls| ==> calls[i].env.Monotone())
    && (forall i :: 0 < i < |calls| ==> calls[i - 1].env.handled <= calls[i].env.gate)
  }

  predicate CallReaches(calls: seq<Call>, i: nat, cfg: Config)
    requires i < |calls|
  {
    Reaches(After(calls, i, cfg), calls[i].env, cfg)
  }

  predicate CallHitsLimit(calls: seq<Call>, i: nat, cfg: Config)
    requires i < |calls|
  {
    HitsLimit(After(calls, i, cfg), calls[i].q, calls[i].env, cfg)
  }

  predicate CallLists(calls: seq<Call>, i: nat, cfg: Config)
    requires i < |calls|
  {
    CallsList(After(calls, i, cfg), calls[i].q, calls[i].env, cfg)
  }

  /** A list call was made and succeeded. */
  predicate RefreshesAt(calls: seq<Call>, i: nat, cfg: Config)
    requires i < |calls|
  {
    CallLists(calls, i, cfg) && calls[i].env.list.Ok?
  }

  /** The API answered the call with a rate-limit error. */
  predicate IsLimited(calls: seq<Call>, i: nat, cfg: Config)
    requires i < |calls|
  {
    || (CallLists(calls, i, cfg) && calls[i].env.list == Err(RateLimit))
    || (CallReaches(calls, i, cfg) && calls[i].q.ResetGet? && calls[i].env.reset == Err(RateLimit))
  }

  /** An error of the API is what the caller gets, and a rate-limit error shuts the gate then and there. */
  lemma ErrorsArePassedOn(calls: seq<Call>, i: nat, cfg: Config)
    requires i < |calls|
    ensures var c, answer := calls[i], AnswerOf(After(calls, i, cfg), calls[i].q, calls[i].env, cfg);
            && (CallLists(calls, i, cfg) && c.env.list.Err? ==> answer == Failed(c.env.list.error))
            && (CallReaches(calls, i, cfg) && c.q.ResetGet? && c.env.reset.Err? ==> answer == Failed(c.env.reset.error))
            && (CallReaches(calls, i, cfg) && c.q.ResetGet? && c.env.reset.Ok? ==> answer == Reset(c.env.reset.value))
    ensures IsLimited(calls, i, cfg) <==> CallHitsLimit(calls, i, cfg)
    ensures IsLimited(calls, i, cfg) ==>
              After(calls, i + 1, cfg).exceeded && After(calls, i + 1, cfg).lastChecked == calls[i].env.handled
  {
  }

  /** Between a rate-limit error at call i and the end of its wait, the gate stays shut. */
  lemma {:induction false} GateStaysShut(calls: seq<Call>, i: nat, n: nat, cfg: Config)
    requires Timed(calls) && i < n <= |calls| && IsLimited(calls, i, cfg)
    ensures var s := After(calls, n, cfg);
            || (s.exceeded && s.lastChecked >= calls[i].env.handled)
            || calls[n - 1].env.handled >= calls[i].env.handled + cfg.waitTime
    decreases n
  {
    ErrorsArePassedOn(calls, i, cfg);
    if i < n - 1 {
      GateStaysShut(calls, i, n - 1, cfg);
      assert calls[n - 1].env.Monotone();
      assert calls[n - 2].env.handled <= calls[n - 1].env.gate;
      TimeGoesOn(calls, i, n - 1);
    }
  }

  lemma {:induction false} TimeGoesOn(calls: seq<Call>, i: nat, j: nat)
    requires Timed(calls) && i <= j < |calls|
    ensures calls[i].env.handled <= calls[j].env.handled
    ensures i < j ==> calls[i].env.handled <= calls[j].env.gate
    decreases j
  {
    assert calls[j].env.Monotone();
    if i < j {
      TimeGoesOn(calls, i, j - 1);
      assert calls[j - 1].env.handled <= calls[j].env.gate;
    }
  }

  /** After the API answered a call with a rate-limit error, handled at time t, no call passes the limiter before
      t plus the wait time; a call that does not pass gets an error of the limiter or nothing, and asks the API
      for no list. */
  lemma RateLimitSpacing(calls: seq<Call>, i: nat, j: nat, cfg: Config)
    requires Timed(calls) && i < j < |calls| && IsLimited(calls, i, cfg)
    ensures CallReaches(calls, j, cfg) ==> calls[j].env.gate >= calls[i].env.handled + cfg.waitTime
    ensures !CallReaches(calls, j, cfg) ==>
              && !CallLists(calls, j, cfg)
              && AnswerOf(After(calls, j, cfg), calls[j].q, calls[j].env, cfg) in {RateLimited, Nothing}
  {
    ErrorsArePassedOn(calls, i, cfg);
    GateStaysShut(calls, i, j, cfg);
    assert calls[j - 1].env.handled <= calls[j].env.gate;
  }

  /** An exceeded limiter has its time from a rate-limit error of the API. */
  lemma {:induction false} ExceededSince(calls: seq<Call>, n: nat, cfg: Config) returns (i: nat)
    requires n <= |calls| && After(calls, n, cfg).exceeded
    ensures i < n && IsLimited(calls, i, cfg) && After(calls, n, cfg).lastChecked == calls[i].env.handled
  {
    ErrorsArePassedOn(calls, n - 1, cfg);
    if IsLimited(calls, n - 1, cfg) {
      i := n - 1;
    } else {
      i := ExceededSince(calls, n - 1, cfg);
    }
  }

  /** A call passes the limiter if and only if every rate-limit error of the API before it was handled at least the
      wait time ago. */
  lemma GateExactly(calls: seq<Call>, j: nat, cfg: Config)
    requires Timed(calls) && j < |calls|
    ensures CallReaches(calls, j, cfg) <==>
            forall i :: 0 <= i < j && IsLimited(calls, i, cfg) ==>
                calls[j].env.gate >= calls[i].env.handled + cfg.waitTime
  {
    if CallReaches(calls, j, cfg) {
      forall i | 0 <= i < j && IsLimited(calls, i, cfg)
        ensures calls[j].env.gate >= calls[i].env.handled + cfg.waitTime
      {
        RateLimitSpacing(calls, i, j, cfg);
      }
    } else {
      var i := ExceededSince(calls, j, cfg);
      assert calls[j].env.gate < calls[i].env.handled + cfg.waitTime;
    }
  }

  /** The cache remembers the last successful list call. */
  lemma {:induction false} RemembersLastList(calls: seq<Call>, i: nat, n: nat, cfg: Config)
    requires Timed(calls) && i < n <= |calls| && CallLists(calls, i, cfg) && calls[i].env.list.Ok?
    ensures var c := After(calls, n, cfg).cache;
            c.lastUpdate.Some? && c.lastUpdate.value >= calls[i].env.listed
    decreases n
  {
    if i < n - 1 {
      RemembersLastList(calls, i, n - 1, cfg);
      assert calls[n - 1].env.Monotone() && calls[i].env.Monotone();
      TimeGoesOn(calls, i, n - 1);
    }
  }

  /** After a list call that succeeded at time u, no other list call reaches the API before u plus the
      cache timeout. */
  lemma ListSpacing(calls: seq<Call>, i: nat, j: nat, cfg: Config)
    requires Timed(calls) && i < j < |calls|
    requires CallLists(calls, i, cfg) && calls[i].env.list.Ok? && CallLists(calls, j, cfg)
    ensures calls[j].env.checked >= calls[i].env.listed + cfg.timeout
  {
    RemembersLastList(calls, i, j, cfg);
  }

  /** The cached list is the reply of the last list call that succeeded. */
  lemma {:induction false} CacheIsLastReply(calls: seq<Call>, n: nat, cfg: Config) returns (j: Option<nat>)
    requires n <= |calls|
    ensures j.None? ==> After(calls, n, cfg).cache == CacheState([], None)
    ensures j.Some? ==>
              && j.value < n && RefreshesAt(calls, j.value, cfg)
              && After(calls, n, cfg).cache == CacheState(calls[j.value].env.list.value,
                                                          Some(calls[j.value].env.listed))
    ensures var from := if j.Some? then j.value + 1 else 0;
            forall k :: from <= k < n ==> !RefreshesAt(calls, k, cfg)
  {
    if n == 0 {
      j := None;
    } else if RefreshesAt(calls, n - 1, cfg) {
      j := Some(n - 1);
    } else {
      j := CacheIsLastReply(calls, n - 1, cfg);
    }
  }

  /** A call asks the API for a list if and only if it passes, is no reset, and every list fetched before it is at
      least the cache timeout old. */
  lemma ListsExactly(calls: seq<Call>, j: nat, cfg: Config)
    requires Timed(calls) && j < |calls|
    ensures CallLists(calls, j, cfg) <==>
            && CallReaches(calls, j, cfg) && !calls[j].q.ResetGet?
            && forall i :: 0 <= i < j && RefreshesAt(calls, i, cfg) ==>
                 calls[j].env.checked >= calls[i].env.listed + cfg.timeout
  {
    if CallLists(calls, j, cfg) {
      forall i | 0 <= i < j && RefreshesAt(calls, i, cfg)
        ensures calls[j].env.checked >= calls[i].env.listed + cfg.timeout
      {
        ListSpacing(calls, i, j, cfg);
      }
    } else {
      var last := CacheIsLastReply(calls, j, cfg);
      if last.Some? {
        assert RefreshesAt(calls, last.value, cfg);
      }
    }
  }

  /** A lookup by number that is not refused answers as a search of the last fetched list. */
  lemma ServerGetSearchesLastList(calls: seq<Call>, i: nat, cfg: Config) returns (j: nat)
    requires i < |calls| && calls[i].q.ServerGet?
    requires AnswerOf(After(calls, i, cfg), calls[i].q, calls[i].env, cfg).OneServer?
             || AnswerOf(After(calls, i, cfg), calls[i].q, calls[i].env, cfg).NotFound?
    ensures j <= i && CallLists(calls, j, cfg) && calls[j].env.list.Ok?
    ensures forall k :: j < k <= i ==> !RefreshesAt(calls, k, cfg)
    ensures AnswerOf(After(calls, i, cfg), calls[i].q, calls[i].env, cfg) ==
            match Search(calls[j].env.list.value, calls[i].q.number)
            case None => NotFound
            case Some(server) => OneServer(server)
  {
    if RefreshesAt(calls, i, cfg) {
      j := i;
    } else {
      var last := CacheIsLastReply(calls, i, cfg);
      j := last.value;
    }
  }

  /** A list call that passes and does not fail answers with the last list fetched. */
  lemma ServerGetListReturnsLastList(calls: seq<Call>, i: nat, cfg: Config) returns (j: nat)
    requires i < |calls| && calls[i].q.ServerGetList? && CallReaches(calls, i, cfg)
    requires CallLists(calls, i, cfg) ==> calls[i].env.list.Ok?
    ensures j <= i && CallLists(calls, j, cfg) && calls[j].env.list.Ok?
    ensures forall k :: j < k <= i ==> !RefreshesAt(calls, k, cfg)
    ensures AnswerOf(After(calls, i, cfg), calls[i].q, calls[i].env, cfg) == Servers(calls[j].env.list.value)
  {
    if RefreshesAt(calls, i, cfg) {
      j := i;
    } else {
      var last := CacheIsLastReply(calls, i, cfg);
      j := last.value;
    }
  }

  /** A rejected call carries an error exactly when the wait has not run out between the two clock readings
      it takes; otherwise the caller gets neither a result nor an error. */
  lemma RejectionCarriesErrorExactly(s: State, q: Request, env: Env, cfg: Config)
    requires !Reaches(s, env, cfg)
    ensures AnswerOf(s, q, env, cfg) == RateLimited <==> env.rejected < s.lastChecked + cfg.waitTime
    ensures AnswerOf(s, q, env, cfg) == Nothing <==> env.rejected >= s.lastChecked + cfg.waitTime
    ensures Next(s, q, env, cfg).cache == s.cache
    ensures Next(s, q, env, cfg).exceeded <==> AnswerOf(s, q, env, cfg) == RateLimited
  {
  }
}
