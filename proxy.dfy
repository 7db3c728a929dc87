/** The request proxy: a fixed-window rate limiter on the sign-in and registration
    endpoints, the client address it keys on, the security headers every passing response
    carries, and the path matcher that decides which requests reach the proxy at all. */
module Proxy {
  import opened Wrappers
  import opened Text

  const RATE_LIMIT_WINDOW_MS: nat := 60 * 1000
  const RATE_LIMIT_MAX: nat := 10

  /** The requests counted for one key and the time its window ends. */
  datatype Entry = Entry(count: int, resetAt: int)

  /** The store key of an address and an endpoint. */
  function Key(ip: string, endpoint: string): string {
    ip + ":" + endpoint
  }

  /** An entry still counts at `now` until `now` passes its `resetAt`. */
  predicate Live(e: Entry, now: int) {
    now <= e.resetAt
  }

  /** The store after one call and whether that call is refused. */
  datatype Hit = Hit(store: map<string, Entry>, limited: bool)

  /** One call of `isRateLimited` for `key` at `now`. With no live entry the call opens a
      new window with count 1 and is let through; otherwise it increments the count and is
      refused once the count exceeds the maximum. No other key is touched. */
  function Count(store: map<string, Entry>, key: string, now: int): (h: Hit)
    ensures key in h.store
    ensures h.store.Keys == store.Keys + {key}
    ensures forall k :: k in store && k != key ==> h.store[k] == store[k]
    ensures key !in store || !Live(store[key], now) ==>
      h.store[key] == Entry(1, now + RATE_LIMIT_WINDOW_MS) && !h.limited
    ensures key in store && Live(store[key], now) ==>
      h.store[key] == Entry(store[key].count + 1, store[key].resetAt)
      && (h.limited <==> store[key].count + 1 > RATE_LIMIT_MAX)
  {
    if key !in store || now > store[key].resetAt then
      Hit(store[key := Entry(1, now + RATE_LIMIT_WINDOW_MS)], false)
    else
      var e := store[key];
      Hit(store[key := Entry(e.count + 1, e.resetAt)], e.count + 1 > RATE_LIMIT_MAX)
  }

  /** The answers to successive calls for one key at the given times. */
  function Answers(store: map<string, Entry>, key: string, times: seq<int>): seq<bool>
    decreases |times|
  {
    if times == [] then []
    else
      var h := Count(store, key, times[0]);
      [h.limited] + Answers(h.store, key, times[1..])
  }

  /** Inside a live window whose count is already `c`, the i-th further call is refused
      exactly when `c + i + 1` exceeds the maximum. */
  lemma {:induction false} AnswersInWindow(store: map<string, Entry>, key: string, times: seq<int>)
    requires key in store
    requires forall i :: 0 <= i < |times| ==> times[i] <= store[key].resetAt
    ensures |Answers(store, key, times)| == |times|
    ensures forall i :: 0 <= i < |times| ==>
      (Answers(store, key, times)[i] <==> store[key].count + i + 1 > RATE_LIMIT_MAX)
    decreases |times|
  {
    if times != [] {
      var h := Count(store, key, times[0]);
      assert Live(store[key], times[0]);
      assert h.store[key] == Entry(store[key].count + 1, store[key].resetAt);
      AnswersInWindow(h.store, key, times[1..]);
      var rest := Answers(h.store, key, times[1..]);
      assert Answers(store, key, times) == [h.limited] + rest;
      forall i | 1 <= i < |times|
        ensures Answers(store, key, times)[i] <==> store[key].count + i + 1 > RATE_LIMIT_MAX
      {
        assert Answers(store, key, times)[i] == rest[i - 1];
      }
    }
  }

  /** Within one window from a fresh start, the first ten calls pass and every later call
      is refused. */
  lemma TenPerWindow(store: map<string, Entry>, key: string, times: seq<int>)
    requires |times| > 0
    requires key !in store || !Live(store[key], times[0])
    requires forall i :: 0 <= i < |times| ==> times[0] <= times[i] <= times[0] + RATE_LIMIT_WINDOW_MS
    ensures |Answers(store, key, times)| == |times|
    ensures forall i :: 0 <= i < |times| ==> (Answers(store, key, times)[i] <==> i >= RATE_LIMIT_MAX)
  {
    var h := Count(store, key, times[0]);
    assert h.store[key] == Entry(1, times[0] + RATE_LIMIT_WINDOW_MS);
    AnswersInWindow(h.store, key, times[1..]);
    var rest := Answers(h.store, key, times[1..]);
    assert Answers(store, key, times) == [false] + rest;
    forall i | 1 <= i < |times| ensures Answers(store, key, times)[i] <==> i >= RATE_LIMIT_MAX {
      assert Answers(store, key, times)[i] == rest[i - 1];
    }
  }

  /** The store without the entries whose window has passed. */
  function Purged(store: map<string, Entry>, now: int): (r: map<string, Entry>)
    ensures forall k :: k in r <==> k in store && Live(store[k], now)
    ensures forall k :: k in r ==> r[k] == store[k]
  {
    map k | k in store && Live(store[k], now) :: store[k]
  }

  /** Purging is invisible to the limiter: at the purge time or later, a call gets the
      same answer and leaves the same live entries as on the unpurged store. */
  lemma PurgeInvisible(store: map<string, Entry>, purgedAt: int, key: string, now: int)
    requires purgedAt <= now
    ensures Count(Purged(store, purgedAt), key, now).limited == Count(store, key, now).limited
    ensures Purged(Count(Purged(store, purgedAt), key, now).store, now)
         == Purged(Count(store, key, now).store, now)
  {
    var p := Purged(store, purgedAt);
    var a, b := Count(p, key, now).store, Count(store, key, now).store;
    assert a[key] == b[key];
    assert Purged(a, now).Keys == Purged(b, now).Keys;
  }

  /** The in-memory store of `proxy.ts`, shared by every request the process serves. */
  class RateLimiter {
    var store: map<string, Entry>

    constructor()
      ensures store == map[]
    {
      store := map[];
    }

    /** `isRateLimited(ip, endpoint)` at time `now`. */
    method IsRateLimited(ip: string, endpoint: string, now: int) returns (limited: bool)
      modifies this
      ensures Hit(store, limited) == Count(old(store), Key(ip, endpoint), now)
    {
      var key := Key(ip, endpoint);
      if key !in store || now > store[key].resetAt {
        store := store[key := Entry(1, now + RATE_LIMIT_WINDOW_MS)];
        return false;
      }
      var entry := store[key];
      store := store[key := Entry(entry.count + 1, entry.resetAt)];
      limited := entry.count + 1 > RATE_LIMIT_MAX;
    }

    /** The periodic purge: every entry whose window has passed is deleted, one key at a
        time; the live entries stay as they are. */
    method Purge(now: int)
      modifies this
      ensures store == Purged(old(store), now)
    {
      var pending := store.Keys;
      while pending != {}
        invariant pending <= old(store).Keys
        invariant store.Keys <= old(store).Keys
        invariant forall k :: k in store ==> store[k] == old(store)[k]
        invariant forall k :: k in old(store) ==>
          (k in store <==> k in pending || Live(old(store)[k], now))
        decreases pending
      {
        var k :| k in pending;
        if now > store[k].resetAt {
          store := store - {k};
        }
        pending := pending - {k};
      }
      assert store.Keys == Purged(old(store), now).Keys;
    }
  }

  /** `SECURITY_HEADERS`, in declaration order. */
  const SECURITY_HEADERS: seq<(string, string)> := [
    ("X-Frame-Options", "DENY"),
    ("X-Content-Type-Options", "nosniff"),
    ("X-XSS-Protection", "1; mode=block"),
    ("Referrer-Policy", "strict-origin-when-cross-origin"),
    ("Permissions-Policy", "camera=(), microphone=(), geolocation=()"),
    ("Strict-Transport-Security", "max-age=63072000; includeSubDomains; preload"),
    ("Content-Security-Policy",
     "default-src 'self'; script-src 'self' 'unsafe-inline' 'unsafe-eval'; style-src 'self' 'unsafe-inline'; img-src 'self' data: https:; font-src 'self'; connect-src 'self'")
  ]

  /** `headers.set` for each pair in turn. */
  function SetAll(headers: map<string, string>, pairs: seq<(string, string)>): map<string, string>
    decreases |pairs|
  {
    if pairs == [] then headers else SetAll(headers[pairs[0].0 := pairs[0].1], pairs[1..])
  }

  predicate NamesDistinct(pairs: seq<(string, string)>) {
    forall i, j :: 0 <= i < j < |pairs| ==> pairs[i].0 != pairs[j].0
  }

  /** With distinct names, every pair's value ends up set and every other header is left
      as it was. */
  lemma {:induction false} SetAllSets(headers: map<string, string>, pairs: seq<(string, string)>)
    requires NamesDistinct(pairs)
    ensures forall i :: 0 <= i < |pairs| ==>
      pairs[i].0 in SetAll(headers, pairs) && SetAll(headers, pairs)[pairs[i].0] == pairs[i].1
    ensures forall h :: (forall i :: 0 <= i < |pairs| ==> pairs[i].0 != h) ==>
      (h in SetAll(headers, pairs) <==> h in headers)
      && (h in headers ==> SetAll(headers, pairs)[h] == headers[h])
    decreases |pairs|
  {
    if pairs != [] {
      var next := headers[pairs[0].0 := pairs[0].1];
      assert NamesDistinct(pairs[1..]) by {
        forall i, j | 0 <= i < j < |pairs[1..]| ensures pairs[1..][i].0 != pairs[1..][j].0 {
          assert pairs[1..][i] == pairs[i + 1] && pairs[1..][j] == pairs[j + 1];
        }
      }
      SetAllSets(next, pairs[1..]);
      forall i | 0 <= i < |pairs| ensures pairs[i].0 in SetAll(headers, pairs)
        && SetAll(headers, pairs)[pairs[i].0] == pairs[i].1
      {
        if i > 0 {
          assert pairs[i] == pairs[1..][i - 1];
        } else {
          assert forall j :: 0 <= j < |pairs[1..]| ==> pairs[1..][j].0 != pairs[0].0;
        }
      }
      forall h | (forall i :: 0 <= i < |pairs| ==> pairs[i].0 != h)
        ensures (h in SetAll(headers, pairs) <==> h in headers)
          && (h in headers ==> SetAll(headers, pairs)[h] == headers[h])
      {
        assert h != pairs[0].0;
        assert forall j :: 0 <= j < |pairs[1..]| ==> pairs[1..][j].0 == pairs[j + 1].0;
      }
    }
  }

  lemma SecurityNamesDistinct()
    ensures NamesDistinct(SECURITY_HEADERS)
  {
    var n := seq(|SECURITY_HEADERS|, i requires 0 <= i < |SECURITY_HEADERS| => SECURITY_HEADERS[i].0);
    assert |n[0]| == 15 && |n[1]| == 22 && |n[2]| == 16 && |n[3]| == 15;
    assert |n[4]| == 18 && |n[5]| == 25 && |n[6]| == 23;
    assert n[0][0] != n[3][0];
  }

  /** `applySecurityHeaders`: the seven headers set one after another. */
  method ApplySecurityHeaders(headers: map<string, string>) returns (r: map<string, string>)
    ensures r == SetAll(headers, SECURITY_HEADERS)
  {
    r := headers;
    var i := 0;
    while i < |SECURITY_HEADERS|
      invariant 0 <= i <= |SECURITY_HEADERS|
      invariant SetAll(r, SECURITY_HEADERS[i..]) == SetAll(headers, SECURITY_HEADERS)
    {
      assert SECURITY_HEADERS[i..][1..] == SECURITY_HEADERS[i + 1..];
      r := r[SECURITY_HEADERS[i].0 := SECURITY_HEADERS[i].1];
      i := i + 1;
    }
  }

  /** After the headers are applied, each of the seven carries its value and every other
      header of the response is unchanged. */
  lemma SecurityHeadersApplied(headers: map<string, string>)
    ensures forall i :: 0 <= i < |SECURITY_HEADERS| ==>
      SECURITY_HEADERS[i].0 in SetAll(headers, SECURITY_HEADERS)
      && SetAll(headers, SECURITY_HEADERS)[SECURITY_HEADERS[i].0] == SECURITY_HEADERS[i].1
    ensures forall h :: (forall i :: 0 <= i < |SECURITY_HEADERS| ==> SECURITY_HEADERS[i].0 != h) ==>
      (h in SetAll(headers, SECURITY_HEADERS) <==> h in headers)
      && (h in headers ==> SetAll(headers, SECURITY_HEADERS)[h] == headers[h])
  {
    SecurityNamesDistinct();
    SetAllSets(headers, SECURITY_HEADERS);
  }

  const RATE_LIMITED_PATHS: seq<string> := ["/api/auth/signin", "/api/auth/callback/credentials", "/api/auth/register"]

  /** `RATE_LIMITED_PATHS.some(p => pathname.startsWith(p))`. */
  predicate IsRateLimitedPath(pathname: string) {
    exists i :: 0 <= i < |RATE_LIMITED_PATHS| && StartsWith(pathname, RATE_LIMITED_PATHS[i])
  }

  /** `s.split(",")[0]`: everything before the first comma. */
  function FirstField(s: string): (r: string)
    ensures |r| <= |s| && r == s[..|r|]
    ensures forall k :: 0 <= k < |r| ==> r[k] != ','
    ensures |r| == |s| || s[|r|] == ','
  {
    if s == [] || s[0] == ',' then [] else [s[0]] + FirstField(s[1..])
  }

  /** The client address: the first entry of `x-forwarded-for`, trimmed, when the header
      is present (even when that entry is empty), else the request's own address, else the
      loopback address. */
  function ClientIp(forwardedFor: Option<string>, requestIp: Option<string>): (ip: string)
    ensures forwardedFor.Some? ==> ip == Trim(FirstField(forwardedFor.value))
    ensures forwardedFor.Some? ==> forall k :: 0 <= k < |ip| ==> ip[k] != ','
    ensures forwardedFor.None? && requestIp.Some? ==> ip == requestIp.value
    ensures forwardedFor.None? && requestIp.None? ==> ip == "127.0.0.1"
  {
    if forwardedFor.Some? then
      var f := FirstField(forwardedFor.value);
      TrimIsSlice(f);
      Trim(f)
    else requestIp.GetOr("127.0.0.1")
  }

  datatype ProxyRequest = ProxyRequest(
    httpMethod: string, pathname: string, forwardedFor: Option<string>, ip: Option<string>)

  /** What the proxy answers: a 429 with its two headers, or the request passed on with
      the security headers set. */
  datatype ProxyResponse =
    | TooManyRequests(retryAfter: string, contentType: string)
    | PassOn(headers: map<string, string>)

  /** The handler wrapped in `auth(...)`. Only a POST to a rate-limited path is counted,
      under the key of its client address and its path; a refused one gets the 429 and no
      security headers; every other request passes on with the seven headers. */
  method Handle(limiter: RateLimiter, req: ProxyRequest, now: int) returns (res: ProxyResponse)
    modifies limiter
    ensures req.httpMethod == "POST" && IsRateLimitedPath(req.pathname) ==>
      var h := Count(old(limiter.store), Key(ClientIp(req.forwardedFor, req.ip), req.pathname), now);
      limiter.store == h.store
      && res == (if h.limited then TooManyRequests("60", "text/plain") else PassOn(SetAll(map[], SECURITY_HEADERS)))
    ensures !(req.httpMethod == "POST" && IsRateLimitedPath(req.pathname)) ==>
      limiter.store == old(limiter.store) && res == PassOn(SetAll(map[], SECURITY_HEADERS))
  {
    if req.httpMethod == "POST" && IsRateLimitedPath(req.pathname) {
      var ip := ClientIp(req.forwardedFor, req.ip);
      var limited := limiter.IsRateLimited(ip, req.pathname, now);
      if limited {
        return TooManyRequests("60", "text/plain");
      }
    }
    var headers := ApplySecurityHeaders(map[]);
    res := PassOn(headers);
  }

  /** A JavaScript regular-expression line terminator, which '.' does not match. */
  predicate LineTerminator(c: char) {
    c == '\n' || c == '\r' || c == '\U{2028}' || c == '\U{2029}'
  }

  /** Whether `pat`, read as a regular expression in which '.' is the only special
      character, matches a prefix of `s`. */
  predicate PatternPrefix(s: string, pat: string) {
    |pat| <= |s| && forall k :: 0 <= k < |pat| ==> if pat[k] == '.' then !LineTerminator(s[k]) else s[k] == pat[k]
  }

  const EXCLUDED_PREFIXES: seq<string> := ["_next/static", "_next/image", "favicon.ico", "api/auth"]

  /** `config.matcher` as written, `/((?!_next/static|_next/image|favicon.ico|api/auth).*)`,
      matched against the whole path: a '/', then no excluded prefix, then anything
      without a line terminator. */
  predicate MatcherAdmits(pathname: string) {
    |pathname| >= 1 && pathname[0] == '/'
    && (forall k :: 1 <= k < |pathname| ==> !LineTerminator(pathname[k]))
    && forall i :: 0 <= i < |EXCLUDED_PREFIXES| ==> !PatternPrefix(pathname[1..], EXCLUDED_PREFIXES[i])
  }

  /** Every rate-limited path begins with "/api/auth". */
  lemma LimitedPathsUnderApiAuth(pathname: string)
    requires IsRateLimitedPath(pathname)
    ensures StartsWith(pathname, "/api/auth")
  {
    var i :| 0 <= i < |RATE_LIMITED_PATHS| && StartsWith(pathname, RATE_LIMITED_PATHS[i]);
    var p := RATE_LIMITED_PATHS[i];
    assert p[..9] == "/api/auth";
    assert pathname[..9] == pathname[..|p|][..9];
  }

  /** As written, the matcher turns away every request the limiter would count, so the
      proxy never sees one: no sign-in or registration POST is ever refused with a 429. */
  lemma MatcherSkipsLimitedPaths(pathname: string)
    requires IsRateLimitedPath(pathname)
    ensures !MatcherAdmits(pathname)
  {
    LimitedPathsUnderApiAuth(pathname);
    var rest := pathname[1..];
    assert rest[..8] == pathname[1..9];
    assert EXCLUDED_PREFIXES[3] == "api/auth";
    assert PatternPrefix(rest, EXCLUDED_PREFIXES[3]);
  }

  /** The matcher with the rate-limited paths admitted as well, as the limiter needs. */
  predicate MatcherAdmitsCorrected(pathname: string) {
    MatcherAdmits(pathname) || IsRateLimitedPath(pathname)
  }

  /** What the framework does with a request: the proxy runs only when the matcher admits
      the path; otherwise the request goes straight to its route. */
  datatype Routed = Bypassed | Proxied(response: ProxyResponse)

  /** A request as the framework routes it with the corrected matcher. */
  method Route(limiter: RateLimiter, req: ProxyRequest, now: int) returns (r: Routed)
    modifies limiter
    ensures !MatcherAdmitsCorrected(req.pathname) ==> r == Bypassed && limiter.store == old(limiter.store)
    ensures req.httpMethod == "POST" && IsRateLimitedPath(req.pathname) ==>
      var h := Count(old(limiter.store), Key(ClientIp(req.forwardedFor, req.ip), req.pathname), now);
      limiter.store == h.store && r.Proxied? && (r.response.TooManyRequests? <==> h.limited)
  {
    if !MatcherAdmitsCorrected(req.pathname) {
      return Bypassed;
    }
    var res := Handle(limiter, req, now);
    r := Proxied(res);
  }
}
