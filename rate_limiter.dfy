/** The fixed-window rate limiter: a per-client dictionary of request counts and
    window ends. A request opens a window of 15 minutes for an unseen client or
    for one whose window has passed, every request is counted, and a request whose
    count exceeds 100 is answered 429. Times are milliseconds, passed in as `now`. */
module RateLimiter {
  import opened JsPrelude

  const WINDOW_MS: int := 15 * 60 * 1000
  const MAX_REQUESTS: int := 100

  /** One client's entry: requests counted in the current window, and when it ends. */
  datatype RateRecord = RateRecord(count: int, resetTime: int)

  /** X-RateLimit-Limit, X-RateLimit-Remaining and X-RateLimit-Reset. */
  datatype Headers = Headers(limit: int, remaining: int, reset: int)

  /** The headers always, then either `next()` or a 429 with `retryAfter` seconds. */
  datatype Reply = Passed(headers: Headers) | TooManyRequests(headers: Headers, retryAfter: int)

  /** `req.ip || req.socket.remoteAddress || 'unknown'`. */
  function ClientKey(ip: Option<string>, remoteAddress: Option<string>): (key: string)
    ensures Given(ip) ==> key == ip.value
    ensures !Given(ip) && Given(remoteAddress) ==> key == remoteAddress.value
    ensures !Given(ip) && !Given(remoteAddress) ==> key == "unknown"
    ensures key != ""
  {
    if Given(ip) then ip.value else if Given(remoteAddress) then remoteAddress.value else "unknown"
  }

  function Lookup(store: map<string, RateRecord>, key: string): Option<RateRecord> {
    if key in store then Some(store[key]) else None
  }

  /** A client's entry after a request at `now`: a new or expired window is reopened
      with a count of 1, and otherwise the count goes up by one in the same window.
      A window is expired only strictly after its reset time. */
  function Admit(prev: Option<RateRecord>, now: int): (r: RateRecord)
    ensures prev.None? ==> r == RateRecord(1, now + WINDOW_MS)
    ensures prev.Some? && now > prev.value.resetTime ==> r == RateRecord(1, now + WINDOW_MS)
    ensures prev.Some? && now <= prev.value.resetTime ==>
      r == RateRecord(prev.value.count + 1, prev.value.resetTime)
    ensures now <= r.resetTime
  {
    var initial := if prev.None? then RateRecord(0, now + WINDOW_MS) else prev.value;
    var current := if now > initial.resetTime then RateRecord(0, now + WINDOW_MS) else initial;
    current.(count := current.count + 1)
  }

  /** The reply for an entry as it stands after counting the request. */
  function Respond(r: RateRecord, now: int): (reply: Reply)
    ensures reply.headers == Headers(MAX_REQUESTS, Max(0, MAX_REQUESTS - r.count), r.resetTime)
    ensures reply.TooManyRequests? <==> r.count > MAX_REQUESTS
    ensures reply.TooManyRequests? ==> reply.retryAfter == CeilDiv(r.resetTime - now, 1000)
    ensures 0 <= reply.headers.remaining && (r.count >= 0 ==> reply.headers.remaining <= MAX_REQUESTS)
    ensures reply.TooManyRequests? ==> reply.headers.remaining == 0
    ensures reply.TooManyRequests? ==>
      (reply.retryAfter - 1) * 1000 < r.resetTime - now <= reply.retryAfter * 1000
  {
    var headers := Headers(MAX_REQUESTS, Max(0, MAX_REQUESTS - r.count), r.resetTime);
    if r.count > MAX_REQUESTS then TooManyRequests(headers, CeilDiv(r.resetTime - now, 1000))
    else Passed(headers)
  }

  /** Every entry counts at least one request and its window opened no later than `t`. */
  ghost predicate WindowsOpenedBy(store: map<string, RateRecord>, t: int) {
    forall k :: k in store ==> 1 <= store[k].count && store[k].resetTime <= t + WINDOW_MS
  }

  /** With a non-decreasing clock the store invariant stays true as time advances. */
  lemma WindowsOpenedLater(store: map<string, RateRecord>, t: int, t': int)
    requires WindowsOpenedBy(store, t) && t <= t'
    ensures WindowsOpenedBy(store, t')
  {
  }

  /** The remaining-requests header counts down from 100 and never leaves [0, 100]. */
  lemma RemainingInRange(prev: Option<RateRecord>, now: int)
    requires prev.Some? ==> prev.value.count >= 0
    ensures var h := Respond(Admit(prev, now), now).headers;
      0 <= h.remaining < MAX_REQUESTS && h.remaining == Max(0, MAX_REQUESTS - Admit(prev, now).count)
  {
  }

  /** With a window that opened no later than `now`, the advertised wait lies in
      [0, 900] seconds. */
  lemma RetryAfterWithinWindow(prev: Option<RateRecord>, now: int)
    requires prev.Some? ==> prev.value.resetTime <= now + WINDOW_MS
    ensures var reply := Respond(Admit(prev, now), now);
      reply.TooManyRequests? ==> 0 <= reply.retryAfter <= WINDOW_MS / 1000
  {
    var r := Admit(prev, now);
    CeilDivBounds(r.resetTime - now, 1000, 0, WINDOW_MS / 1000);
  }

  /** The replies to successive requests of one client at the given times. */
  function Replay(prev: Option<RateRecord>, times: seq<int>): (replies: seq<Reply>)
    ensures |replies| == |times|
    decreases |times|
  {
    if times == [] then []
    else
      var r := Admit(prev, times[0]);
      [Respond(r, times[0])] + Replay(Some(r), times[1..])
  }

  /** Inside one window, the request after `count` earlier ones passes exactly when it is
      at most the 100th. */
  lemma {:induction false} ReplayInWindow(r: RateRecord, times: seq<int>)
    requires forall i :: 0 <= i < |times| ==> times[i] <= r.resetTime
    ensures forall k :: 0 <= k < |times| ==> (Replay(Some(r), times)[k].Passed? <==> r.count + k + 1 <= MAX_REQUESTS)
    decreases |times|
  {
    if times != [] {
      var next := Admit(Some(r), times[0]);
      assert next == RateRecord(r.count + 1, r.resetTime);
      ReplayInWindow(next, times[1..]);
      forall k | 0 <= k < |times|
        ensures Replay(Some(r), times)[k].Passed? <==> r.count + k + 1 <= MAX_REQUESTS
      {
        if k > 0 {
          assert Replay(Some(r), times)[k] == Replay(Some(next), times[1..])[k - 1];
        }
      }
    }
  }

  /** A client's first 100 requests in a window pass and the 101st and later are refused:
      for a client with no entry, or whose window has expired, every request within 15
      minutes of the first one passes exactly when it is among the first 100. */
  lemma FirstHundredPass(prev: Option<RateRecord>, times: seq<int>)
    requires times != []
    requires prev.Some? ==> times[0] > prev.value.resetTime
    requires forall i :: 0 <= i < |times| ==> times[i] <= times[0] + WINDOW_MS
    ensures forall k :: 0 <= k < |times| ==> (Replay(prev, times)[k].Passed? <==> k < MAX_REQUESTS)
  {
    var first := Admit(prev, times[0]);
    assert first == RateRecord(1, times[0] + WINDOW_MS);
    ReplayInWindow(first, times[1..]);
    forall k | 0 <= k < |times| ensures Replay(prev, times)[k].Passed? <==> k < MAX_REQUESTS {
      if k > 0 {
        assert Replay(prev, times)[k] == Replay(Some(first), times[1..])[k - 1];
      }
    }
  }

  /** The module-level dictionary of the middleware. */
  class RateLimitStore {
    var store: map<string, RateRecord>

    constructor ()
      ensures store == map[]
    {
      store := map[];
    }

    /** One pass through the middleware, at millisecond `now`. Only the requesting
        client's entry changes; it becomes Admit of the old one, and the reply is
        Respond of the new one. */
    method Handle(ip: Option<string>, remoteAddress: Option<string>, now: int) returns (reply: Reply)
      modifies this
      ensures var key := ClientKey(ip, remoteAddress);
        && store == old(store)[key := Admit(Lookup(old(store), key), now)]
        && reply == Respond(store[key], now)
      ensures forall k :: k != ClientKey(ip, remoteAddress) ==>
        (k in store <==> k in old(store)) && (k in store ==> store[k] == old(store)[k])
      ensures WindowsOpenedBy(old(store), now) ==> WindowsOpenedBy(store, now)
      ensures WindowsOpenedBy(old(store), now) ==>
        0 <= reply.headers.remaining <= MAX_REQUESTS
        && (reply.TooManyRequests? ==> 0 <= reply.retryAfter <= WINDOW_MS / 1000)
    {
      var key := ClientKey(ip, remoteAddress);
      ghost var before := Lookup(store, key);
      if key !in store {
        store := store[key := RateRecord(0, now + WINDOW_MS)];
      }
      var record := store[key];
      if now > record.resetTime {
        record := RateRecord(0, now + WINDOW_MS);
      }
      record := record.(count := record.count + 1);
      store := store[key := record];
      assert record == Admit(before, now);
      var headers := Headers(MAX_REQUESTS, Max(0, MAX_REQUESTS - record.count), record.resetTime);
      if record.count > MAX_REQUESTS {
        reply := TooManyRequests(headers, CeilDiv(record.resetTime - now, 1000));
      } else {
        reply := Passed(headers);
      }
      if WindowsOpenedBy(old(store), now) {
        RetryAfterWithinWindow(before, now);
      }
    }
  }
}
