/**
 * The two limiter passes every request goes through: the global middleware pass
 * (120 requests per 60 seconds) and then the pass at the top of the handler the
 * path routes to, with that handler's own limit and window.  Both passes key the
 * shared store by (client address, path, window), so a handler whose window is
 * also 60 seconds counts on the very record the middleware counts on.
 */
module Routes {
  import opened Wrappers
  import opened RateLimit

  datatype Route = Root | Health | Countries | Banners | VerifyRecaptcha | DatabaseTest

  datatype Policy = Policy(limit: int, window: int)

  /** The middleware's soft limit, applied to every request whatever its path. */
  const GLOBAL: Policy := Policy(120, 60)

  function PathOf(r: Route): string {
    match r
    case Root => "/"
    case Health => "/api/health"
    case Countries => "/api/countries"
    case Banners => "/api/banners"
    case VerifyRecaptcha => "/api/verify-recaptcha"
    case DatabaseTest => "/test"
  }

  /** The handler a path routes to, if any. */
  function RouteOf(path: string): (r: Option<Route>)
    ensures r.Some? ==> PathOf(r.value) == path
    ensures r.None? ==> forall q: Route :: PathOf(q) != path
  {
    if path == "/" then Some(Root)
    else if path == "/api/health" then Some(Health)
    else if path == "/api/countries" then Some(Countries)
    else if path == "/api/banners" then Some(Banners)
    else if path == "/api/verify-recaptcha" then Some(VerifyRecaptcha)
    else if path == "/test" then Some(DatabaseTest)
    else None
  }

  /** The (limit, window) pair each handler passes to the limiter. */
  function HandlerPolicy(r: Route): Policy {
    match r
    case Root => Policy(5, 1)
    case Health => Policy(10, 1)
    case Countries => Policy(20, 60)
    case Banners => Policy(60, 60)
    case VerifyRecaptcha => Policy(30, 60)
    case DatabaseTest => Policy(10, 60)
  }

  /** Refused with 429; passed the middleware but no rate-limited handler has the path (a 404, or one of the framework's own documentation routes); or the handler body is reached. */
  datatype Verdict = Limited | NoLimitedHandler | Reached(route: Route)

  datatype Gate = Gate(verdict: Verdict, store: Store)

  /**
   * Middleware pass, routing, then the handler's own pass.  Each pass reads the
   * clock itself: the middleware at `now`, the handler at `later`.
   */
  function Pass(store: Store, client: Option<string>, path: string, now: int, later: int): (g: Gate)
    ensures g.verdict.Reached? ==> RouteOf(path) == Some(g.verdict.route)
    ensures !Check(store, client, path, GLOBAL.limit, GLOBAL.window, now).admitted ==> g == Gate(Limited, store)
  {
    var mw := Check(store, client, path, GLOBAL.limit, GLOBAL.window, now);
    if !mw.admitted then Gate(Limited, mw.store)
    else match RouteOf(path)
      case None => Gate(NoLimitedHandler, mw.store)
      case Some(r) =>
        var h := Check(mw.store, client, path, HandlerPolicy(r).limit, HandlerPolicy(r).window, later);
        Gate(if h.admitted then Reached(r) else Limited, h.store)
  }

  /** A handler shares the middleware's record exactly when its window is 60 seconds too. */
  predicate SharesGlobalKey(r: Route) {
    HandlerPolicy(r).window == GLOBAL.window
  }

  /** Sharing holds for every route except `/` and `/api/health`, whose one-second passes use keys of their own. */
  lemma SharedRoutes(client: Option<string>, r: Route)
    ensures SharesGlobalKey(r) <==> r != Root && r != Health
    ensures MakeKey(client, PathOf(r), HandlerPolicy(r).window) == MakeKey(client, PathOf(r), GLOBAL.window)
        <==> r != Root && r != Health
  {
  }

  /**
   * One request at a route that shares the middleware's record, the middleware
   * reading the clock at `now` and the handler at `later`.  A record the middleware
   * finds fresh or expired opens at one; a record already at the middleware limit is
   * refused there and left alone.  If the window the handler sees has expired by
   * `later`, the handler restarts the record at one and admits.  Otherwise the handler
   * adds a second count when it admits and nothing when it refuses.
   */
  lemma SharedPassStep(store: Store, client: Option<string>, r: Route, now: int, later: int)
    requires SharesGlobalKey(r)
    ensures var key := MakeKey(client, PathOf(r), GLOBAL.window);
            var g := Pass(store, client, PathOf(r), now, later);
            var l := HandlerPolicy(r).limit;
            (key !in store || !Current(store[key], now) ==>
               (later <= now + GLOBAL.window ==>
                  g == Gate(Reached(r), store[key := Entry(2, now + GLOBAL.window)])) &&
               (later > now + GLOBAL.window ==>
                  g == Gate(Reached(r), store[key := Entry(1, later + GLOBAL.window)]))) &&
            (key in store && Current(store[key], now) ==>
               var e := store[key];
               (e.count >= GLOBAL.limit ==> g == Gate(Limited, store)) &&
               (e.count < GLOBAL.limit && later > e.reset ==>
                  g == Gate(Reached(r), store[key := Entry(1, later + GLOBAL.window)])) &&
               (e.count < GLOBAL.limit && later <= e.reset && e.count + 1 < l ==>
                  g == Gate(Reached(r), store[key := Entry(e.count + 2, e.reset)])) &&
               (e.count < GLOBAL.limit && later <= e.reset && e.count + 1 >= l ==>
                  g == Gate(Limited, store[key := Entry(e.count + 1, e.reset)])))
  {
    var key := MakeKey(client, PathOf(r), GLOBAL.window);
    assert RouteOf(PathOf(r)) == Some(r);
    var mw := Check(store, client, PathOf(r), GLOBAL.limit, GLOBAL.window, now);
    if key !in store || !Current(store[key], now) {
      assert mw == Decision(true, store[key := Entry(1, now + GLOBAL.window)]);
    }
  }

  /**
   * An admitted request at a shared route counts twice on the one record, unless the
   * window ran out between the middleware's clock read and the handler's, in which
   * case the handler's reset leaves one count.
   */
  lemma ReachedCountsTwice(store: Store, client: Option<string>, r: Route, now: int, later: int)
    requires SharesGlobalKey(r)
    requires Pass(store, client, PathOf(r), now, later).verdict == Reached(r)
    ensures var key := MakeKey(client, PathOf(r), GLOBAL.window);
            var after := Pass(store, client, PathOf(r), now, later).store;
            var reset := if key in store && Current(store[key], now) then store[key].reset else now + GLOBAL.window;
            key in after &&
            after[key].count == (if later > reset then 1
                                 else if key in store && Current(store[key], now) then store[key].count + 2
                                 else 2)
  {
    SharedPassStep(store, client, r, now, later);
  }

  /** The request of the two-read case: the middleware still finds the window open, the handler finds it closed. */
  lemma ExpiryBetweenReads(store: Store)
    requires store == map[Key("1.2.3.4", "/api/countries", 60) := Entry(119, 100)]
    ensures Pass(store, Some("1.2.3.4"), "/api/countries", 100, 101)
         == Gate(Reached(Countries), map[Key("1.2.3.4", "/api/countries", 60) := Entry(1, 161)])
  {
    SharedPassStep(store, Some("1.2.3.4"), Countries, 100, 101);
  }

  /**
   * At `/` and `/api/health` the two passes use different keys, so each record moves
   * exactly as if the other pass had not happened, and the request reaches the
   * handler exactly when both passes, judged on the old store at their own clock
   * reads, admit it.
   */
  lemma SeparateWindows(store: Store, client: Option<string>, r: Route, now: int, later: int)
    requires !SharesGlobalKey(r)
    ensures var path := PathOf(r);
            var p := HandlerPolicy(r);
            var mwKey := MakeKey(client, path, GLOBAL.window);
            var hKey := MakeKey(client, path, p.window);
            var mw := Check(store, client, path, GLOBAL.limit, GLOBAL.window, now);
            var h := Check(store, client, path, p.limit, p.window, later);
            var g := Pass(store, client, path, now, later);
            (g.verdict == Reached(r) <==> mw.admitted && h.admitted) &&
            mwKey in g.store && g.store[mwKey] == mw.store[mwKey] &&
            (mw.admitted ==> hKey in g.store && g.store[hKey] == h.store[hKey])
  {
    assert RouteOf(PathOf(r)) == Some(r);
  }

  datatype Run = Run(verdicts: seq<Verdict>, store: Store)

  /** The two clock reads of one request: the middleware's, then the handler's. */
  datatype Reads = Reads(mw: int, handler: int)

  /** Whether both clock reads of every request fall inside the window the first request's middleware read opens. */
  predicate InFirstWindow(times: seq<Reads>)
    requires |times| >= 1
  {
    forall i :: 0 <= i < |times| ==>
      times[i].mw <= times[0].mw + GLOBAL.window && times[i].handler <= times[0].mw + GLOBAL.window
  }

  /** Requests from one client to one path, each one's two passes before the next request's. */
  function PassAll(store: Store, client: Option<string>, path: string, times: seq<Reads>): (run: Run)
    ensures |run.verdicts| == |times|
  {
    if times == [] then Run([], store)
    else
      var prev := PassAll(store, client, path, times[..|times| - 1]);
      var t := times[|times| - 1];
      var g := Pass(prev.store, client, path, t.mw, t.handler);
      Run(prev.verdicts + [g.verdict], g.store)
  }

  /** The last request of a run acts on the store the earlier ones leave. */
  lemma PassAllLast(store: Store, client: Option<string>, path: string, times: seq<Reads>)
    requires times != []
    ensures var prev := PassAll(store, client, path, times[..|times| - 1]);
            var t := times[|times| - 1];
            var g := Pass(prev.store, client, path, t.mw, t.handler);
            PassAll(store, client, path, times) == Run(prev.verdicts + [g.verdict], g.store)
  {
  }

  /** What the shared record of a client holds after `j` requests at a route with handler limit `l`. */
  ghost predicate AfterRequests(e: Entry, j: int, l: int, reset: int) {
    e.reset == reset &&
    if 2 * j <= l then e.count == 2 * j else l <= e.count <= GLOBAL.limit
  }

  /** One more request inside the window keeps `AfterRequests`, and reaches the handler iff `2 * j + 1 < l`. */
  lemma SharedStepInWindow(store: Store, client: Option<string>, r: Route, now: int, later: int, j: nat)
    requires SharesGlobalKey(r)
    requires MakeKey(client, PathOf(r), GLOBAL.window) in store
    requires var e := store[MakeKey(client, PathOf(r), GLOBAL.window)];
             AfterRequests(e, j, HandlerPolicy(r).limit, e.reset) && now <= e.reset && later <= e.reset
    ensures var key := MakeKey(client, PathOf(r), GLOBAL.window);
            var g := Pass(store, client, PathOf(r), now, later);
            key in g.store &&
            g.store == store[key := g.store[key]] &&
            AfterRequests(g.store[key], j + 1, HandlerPolicy(r).limit, store[key].reset) &&
            (g.verdict == Reached(r) <==> 2 * j + 1 < HandlerPolicy(r).limit) &&
            (g.verdict == Reached(r) || g.verdict == Limited)
  {
    assert 10 <= HandlerPolicy(r).limit < GLOBAL.limit;
    SharedPassStep(store, client, r, now, later);
  }

  /** The first request of a client with no record opens it at two and reaches the handler. */
  lemma SharedFirstRequest(store: Store, client: Option<string>, r: Route, now: int, later: int)
    requires SharesGlobalKey(r)
    requires MakeKey(client, PathOf(r), GLOBAL.window) !in store
    requires later <= now + GLOBAL.window
    ensures var key := MakeKey(client, PathOf(r), GLOBAL.window);
            var g := Pass(store, client, PathOf(r), now, later);
            g.verdict == Reached(r) && key in g.store && g.store == store[key := g.store[key]] &&
            AfterRequests(g.store[key], 1, HandlerPolicy(r).limit, now + GLOBAL.window)
  {
    assert 10 <= HandlerPolicy(r).limit;
    SharedPassStep(store, client, r, now, later);
  }

  /** What `SharedRouteServesHalf` promises of the requests at `times`. */
  ghost predicate ServesHalf(store: Store, client: Option<string>, r: Route, times: seq<Reads>)
    requires |times| >= 1
  {
    HalfRun(PassAll(store, client, PathOf(r), times), store, MakeKey(client, PathOf(r), GLOBAL.window), r,
            |times|, times[0].mw + GLOBAL.window)
  }

  /** The shape of a run of `n` requests that `ServesHalf` describes, on the record at `key` with window end `reset`. */
  ghost predicate HalfRun(run: Run, store: Store, key: Key, r: Route, n: nat, reset: int) {
    |run.verdicts| == n &&
    (forall i :: 0 <= i < n ==>
       (run.verdicts[i] == Reached(r) <==> 2 * i + 1 < HandlerPolicy(r).limit) &&
       (run.verdicts[i] == Reached(r) || run.verdicts[i] == Limited)) &&
    key in run.store && run.store == store[key := run.store[key]] &&
    AfterRequests(run.store[key], n, HandlerPolicy(r).limit, reset)
  }

  /** Appending one request whose outcome follows the pattern extends a `HalfRun`. */
  lemma HalfRunExtend(prev: Run, g: Gate, store: Store, key: Key, r: Route, n: nat, reset: int)
    requires HalfRun(prev, store, key, r, n, reset)
    requires key in g.store && g.store == prev.store[key := g.store[key]]
    requires AfterRequests(g.store[key], n + 1, HandlerPolicy(r).limit, reset)
    requires g.verdict == Reached(r) <==> 2 * n + 1 < HandlerPolicy(r).limit
    requires g.verdict == Reached(r) || g.verdict == Limited
    ensures HalfRun(Run(prev.verdicts + [g.verdict], g.store), store, key, r, n + 1, reset)
  {
    var run := Run(prev.verdicts + [g.verdict], g.store);
    assert g.store == store[key := g.store[key]];
    forall i | 0 <= i < n + 1
      ensures (run.verdicts[i] == Reached(r) <==> 2 * i + 1 < HandlerPolicy(r).limit)
      ensures run.verdicts[i] == Reached(r) || run.verdicts[i] == Limited
    {
      if i < n {
        assert run.verdicts[i] == prev.verdicts[i];
      } else {
        assert run.verdicts[i] == g.verdict;
      }
    }
  }

  lemma ServesHalfFirst(store: Store, client: Option<string>, r: Route, times: seq<Reads>)
    requires SharesGlobalKey(r)
    requires MakeKey(client, PathOf(r), GLOBAL.window) !in store
    requires |times| == 1
    requires times[0].handler <= times[0].mw + GLOBAL.window
    ensures ServesHalf(store, client, r, times)
  {
    assert times[..0] == [];
    var g := Pass(store, client, PathOf(r), times[0].mw, times[0].handler);
    assert PassAll(store, client, PathOf(r), times) == Run([g.verdict], g.store);
    SharedFirstRequest(store, client, r, times[0].mw, times[0].handler);
  }

  lemma ServesHalfNext(store: Store, client: Option<string>, r: Route, times: seq<Reads>)
    requires SharesGlobalKey(r)
    requires |times| >= 2
    requires times[|times| - 1].mw <= times[0].mw + GLOBAL.window
    requires times[|times| - 1].handler <= times[0].mw + GLOBAL.window
    requires ServesHalf(store, client, r, times[..|times| - 1])
    ensures ServesHalf(store, client, r, times)
  {
    var key := MakeKey(client, PathOf(r), GLOBAL.window);
    var m := |times|;
    var path := PathOf(r);
    var init := times[..m - 1];
    var prev := PassAll(store, client, path, init);
    assert init[0] == times[0];
    SharedStepInWindow(prev.store, client, r, times[m - 1].mw, times[m - 1].handler, m - 1);
    var g := Pass(prev.store, client, path, times[m - 1].mw, times[m - 1].handler);
    PassAllLast(store, client, path, times);
    HalfRunExtend(prev, g, store, key, r, m - 1, times[0].mw + GLOBAL.window);
  }

  /**
   * The consequence of the shared record: at a route whose handler window is 60
   * seconds and whose handler limit is `l`, a client with no record yet gets the
   * handler body only for the requests numbered `i` with `2 * i + 1 < l` inside one
   * window (half the handler's limit); all others are refused with 429.  Only that
   * client's record changes.
   */
  lemma {:induction false} SharedRouteServesHalf(store: Store, client: Option<string>, r: Route, times: seq<Reads>)
    requires SharesGlobalKey(r)
    requires MakeKey(client, PathOf(r), GLOBAL.window) !in store
    requires |times| >= 1
    requires InFirstWindow(times)
    ensures var run := PassAll(store, client, PathOf(r), times);
            forall i :: 0 <= i < |times| ==>
              (run.verdicts[i] == Reached(r) <==> 2 * i + 1 < HandlerPolicy(r).limit) &&
              (run.verdicts[i] == Reached(r) || run.verdicts[i] == Limited)
    ensures var run := PassAll(store, client, PathOf(r), times);
            var key := MakeKey(client, PathOf(r), GLOBAL.window);
            key in run.store && run.store == store[key := run.store[key]] &&
            AfterRequests(run.store[key], |times|, HandlerPolicy(r).limit, times[0].mw + GLOBAL.window)
  {
    ServesHalfAll(store, client, r, times);
  }

  /** `ServesHalf` for every prefix length, by induction on the requests. */
  lemma {:induction false} ServesHalfAll(store: Store, client: Option<string>, r: Route, times: seq<Reads>)
    requires SharesGlobalKey(r)
    requires MakeKey(client, PathOf(r), GLOBAL.window) !in store
    requires |times| >= 1
    requires InFirstWindow(times)
    ensures ServesHalf(store, client, r, times)
  {
    if |times| == 1 {
      ServesHalfFirst(store, client, r, times);
    } else {
      var init := times[..|times| - 1];
      assert forall i :: 0 <= i < |init| ==> init[i] == times[i];
      ServesHalfAll(store, client, r, init);
      ServesHalfNext(store, client, r, times);
    }
  }

  /** `/api/countries` has limit 20 in its handler, yet serves at most ten requests per client and window. */
  lemma CountriesServesTen(store: Store, client: Option<string>, times: seq<Reads>)
    requires MakeKey(client, "/api/countries", 60) !in store
    requires |times| >= 1
    requires forall i :: 0 <= i < |times| ==> times[i].mw <= times[0].mw + 60 && times[i].handler <= times[0].mw + 60
    ensures var run := PassAll(store, client, "/api/countries", times);
            forall i :: 0 <= i < |times| ==> (run.verdicts[i] == Reached(Countries) <==> i < 10)
  {
    SharedRouteServesHalf(store, client, Countries, times);
  }

  // ---------------------------------------------------------------------------
  // Overlapping requests

  /*
   * Between the middleware pass and the handler pass the source awaits
   * (`call_next`), so the passes of overlapping requests interleave.  Each limiter
   * call still runs on its own, so such a run is a sequence of single calls, as
   * `Replay` takes them.  On the record of one client at a shared route, a call with
   * the middleware's limit is a middleware pass and one with the handler's limit a
   * handler pass.
   */

  /** The number of handler passes among `calls`. */
  function HandlerCalls(calls: seq<Call>): nat {
    if calls == [] then 0
    else HandlerCalls(calls[..|calls| - 1]) + (if calls[|calls| - 1].limit == GLOBAL.limit then 0 else 1)
  }

  /** The number of middleware passes among `calls` that the limiter admits. */
  function MiddlewareAdmitted(store: Store, calls: seq<Call>): nat {
    if calls == [] then 0
    else
      var init := calls[..|calls| - 1];
      var c := calls[|calls| - 1];
      var d := Check(Replay(store, init).store, c.client, c.path, c.limit, c.window, c.now);
      MiddlewareAdmitted(store, init) + (if c.limit == GLOBAL.limit && d.admitted then 1 else 0)
  }

  /** The number of handler passes among `calls` that the limiter admits: the requests that reach the handler body. */
  function HandlerAdmitted(store: Store, calls: seq<Call>): nat {
    if calls == [] then 0
    else
      var init := calls[..|calls| - 1];
      var c := calls[|calls| - 1];
      var d := Check(Replay(store, init).store, c.client, c.path, c.limit, c.window, c.now);
      HandlerAdmitted(store, init) + (if c.limit != GLOBAL.limit && d.admitted then 1 else 0)
  }

  /** A handler pass runs only for a request the middleware admitted: no prefix has more handler passes than admitted middleware passes. */
  predicate MiddlewareFirst(store: Store, calls: seq<Call>) {
    forall n :: 0 <= n <= |calls| ==> HandlerCalls(calls[..n]) <= MiddlewareAdmitted(store, calls[..n])
  }

  /** The calls of one client at route `r`, all in the window the first one opens. */
  predicate SharedWindowCalls(calls: seq<Call>, client: Option<string>, r: Route) {
    |calls| >= 1 &&
    forall i :: 0 <= i < |calls| ==>
      calls[i] == Call(client, PathOf(r), calls[i].limit, GLOBAL.window, calls[i].now) &&
      (calls[i].limit == GLOBAL.limit || calls[i].limit == HandlerPolicy(r).limit) &&
      calls[i].now <= calls[0].now + GLOBAL.window
  }

  /** A call on a record whose window is still open: admitted exactly below the limit, and then counted once. */
  lemma CurrentCall(s: Store, c: Call)
    requires KeyOf(c) in s && c.now <= s[KeyOf(c)].reset
    ensures var e := s[KeyOf(c)];
            var d := Check(s, c.client, c.path, c.limit, c.window, c.now);
            d.admitted == (e.count < c.limit) &&
            d.store == (if d.admitted then s[KeyOf(c) := Entry(e.count + 1, e.reset)] else s)
  {
  }

  /** What the record holds after an interleaved run: one count per admitted pass of either kind. */
  lemma {:induction false} InterleavedCounts(store: Store, calls: seq<Call>, client: Option<string>, r: Route)
    requires SharesGlobalKey(r)
    requires MakeKey(client, PathOf(r), GLOBAL.window) !in store
    requires SharedWindowCalls(calls, client, r)
    requires MiddlewareFirst(store, calls)
    ensures var key := MakeKey(client, PathOf(r), GLOBAL.window);
            var after := Replay(store, calls).store;
            key in after &&
            after[key] == Entry(MiddlewareAdmitted(store, calls) + HandlerAdmitted(store, calls), calls[0].now + GLOBAL.window) &&
            HandlerAdmitted(store, calls) <= HandlerCalls(calls) &&
            2 * HandlerAdmitted(store, calls) <= HandlerPolicy(r).limit
  {
    var key := MakeKey(client, PathOf(r), GLOBAL.window);
    var m := |calls|;
    var init := calls[..m - 1];
    var c := calls[m - 1];
    assert calls[..m] == calls;
    assert HandlerCalls(calls[..m]) <= MiddlewareAdmitted(store, calls[..m]);
    if m == 1 {
      assert init == [];
      assert c == Call(client, PathOf(r), c.limit, GLOBAL.window, c.now);
      assert c.limit == GLOBAL.limit;
    } else {
      assert 10 <= HandlerPolicy(r).limit < GLOBAL.limit;
      assert forall i :: 0 <= i < |init| ==> init[i] == calls[i];
      assert SharedWindowCalls(init, client, r);
      forall n | 0 <= n <= |init|
        ensures HandlerCalls(init[..n]) <= MiddlewareAdmitted(store, init[..n])
      {
        assert init[..n] == calls[..n];
      }
      InterleavedCounts(store, init, client, r);
      assert c == Call(client, PathOf(r), c.limit, GLOBAL.window, c.now);
      assert c.now <= calls[0].now + GLOBAL.window;
      ReplayLast(store, calls);
      var prev := Replay(store, init);
      assert KeyOf(c) == key;
      CurrentCall(prev.store, c);
    }
  }

  /**
   * However the passes of overlapping requests interleave, a shared route with
   * handler limit `l` lets at most `l / 2` requests of one client reach the handler
   * in one window.
   */
  lemma InterleavedServesAtMostHalf(store: Store, calls: seq<Call>, client: Option<string>, r: Route)
    requires SharesGlobalKey(r)
    requires MakeKey(client, PathOf(r), GLOBAL.window) !in store
    requires SharedWindowCalls(calls, client, r)
    requires MiddlewareFirst(store, calls)
    ensures 2 * HandlerAdmitted(store, calls) <= HandlerPolicy(r).limit
  {
    InterleavedCounts(store, calls, client, r);
  }

  /**
   * `rate_limit_middleware` followed by the first statement of the routed handler,
   * on the process-wide limiter.
   */
  method Dispatch(limiter: RateLimiter, client: Option<string>, path: string, now: int, later: int) returns (v: Verdict)
    requires limiter.Valid()
    modifies limiter
    ensures limiter.Valid()
    ensures v == Pass(old(limiter.store), client, path, now, later).verdict
    ensures limiter.store == Pass(old(limiter.store), client, path, now, later).store
  {
    var ok := limiter.CheckRateLimit(client, path, GLOBAL.limit, GLOBAL.window, now);
    if !ok {
      return Limited;
    }
    var route := RouteOf(path);
    if route.None? {
      return NoLimitedHandler;
    }
    var policy := HandlerPolicy(route.value);
    ok := limiter.CheckRateLimit(client, path, policy.limit, policy.window, later);
    v := if ok then Reached(route.value) else Limited;
  }
}
