/**
 Response classes, back-off constants and counters of the request engine
 (pkg/brainapi/retry.go and the types of pkg/brainapi/transport.go).
 Durations are milliseconds.
 */
module Retry {
  import opened Wrappers

  const RATE_LIMIT_FLOOR := 1_000
  const RATE_LIMIT_CEILING := 120_000
  const LONG_POLL_FLOOR := 500
  const LONG_POLL_CEILING := 30_000
  const SERVER_ERR_FLOOR := 5_000
  const SERVER_ERR_CEILING := 15_000
  const NETWORK_ERR_FLOOR := 2_000
  const NETWORK_ERR_CEILING := 15_000

  const MAX_INT32 := 0x7FFF_FFFF
  const TWO_32 := 0x1_0000_0000

  /** One row of the `checks` array of a submit body. */
  datatype Check = Check(name: string, result: string, value: Option<real>)

  /** What decoding the body as `{is: ...}` yields. */
  datatype SubmitBody = Unparseable | NoIsBlock | IsBlock(checks: seq<Check>)

  /** What decoding the body as a Session yields. */
  datatype SessionBody = MalformedSession | Session(inquiry: string, hasUser: bool)

  /** A response body together with everything the engine asks about its bytes. */
  datatype Body = Body(
    text: string,
    hasChecks: bool,           // contains `"checks"`
    notVerified: bool,         // contains `NOT_VERIFIED`
    detail: Option<string>,    // drfDetail
    cooldown: bool,            // isCooldownBody
    fieldErrors: bool,         // the envelope classifyClientError turns into a DRFError
    session: SessionBody,
    submit: SubmitBody)

  /** What one round trip brings back. */
  datatype Reply =
    | Failed(cause: string)
    | Response(status: int, body: Body, retryAfter: Option<int>)

  datatype Error =
    | Ok
    | Cancelled
    | Network(cause: string)
    | LongPollExceeded
    | Api(status: int)
    | Drf(status: int)
    | NotAuthenticated
    | NotVerified
    | PermissionDenied(detail: string)
    | Banned(streak: int, reason: string)
    | RateLimited(retryAfter: int, cooldown: bool)
    | InvalidArgument
    | Undecodable
    | PersonaInquiry(inquiry: string)

  /** The pair (resp, err) a call hands back. */
  datatype Outcome = Outcome(resp: Option<Reply>, err: Error)

  datatype Hints = Hints(
    longPoll503: bool,
    accept503: bool,
    longPoll200Empty: bool,
    noAutoRelogin: bool,
    maxLongPolls: int)

  const LOGIN_HINTS := Hints(false, false, false, true, 0)

  datatype Config = Config(maxRetries: int, maxLongPolls: int, banThreshold: int)

  /** The loop-local counters (retryState). */
  datatype Counters = Counters(relogged: bool, longPollSeen: nat, errAttempt: nat)

  const FRESH := Counters(false, 0, 0)

  /** The part of the client that concurrent calls share. */
  datatype Shared = Shared(streak: int, banned: bool, reason: string, email: string, password: string)

  datatype RetryKind = NetworkKind | ForbiddenKind | RateLimitKind | CooldownKind | ServerKind
                     | UnauthorizedKind | LongPollKind

  /** What becomes of one attempt. */
  datatype Decision =
    | Terminal(out: Outcome)
    | RetryIn(kind: RetryKind, sleep: int)
    | Relogin

  function Clamp(d: int, lo: int, hi: int): (r: int)
    ensures lo <= hi ==> lo <= r <= hi
    ensures lo <= d <= hi ==> r == d
  {
    if d < lo then lo else if d > hi then hi else d
  }

  function Distance(a: int, b: int): nat {
    if a < b then b - a else a - b
  }

  /** Clamping picks the point of the range nearest to the value, and it is the only one that near. */
  lemma ClampIsNearest(d: int, lo: int, hi: int, x: int)
    requires lo <= x <= hi
    ensures Distance(d, Clamp(d, lo, hi)) <= Distance(d, x)
    ensures Distance(d, Clamp(d, lo, hi)) == Distance(d, x) <==> x == Clamp(d, lo, hi)
  {
  }

  /** Two's-complement result of an int32 addition. */
  function Wrap32(n: int): (r: int)
    ensures -MAX_INT32 - 1 <= r <= MAX_INT32
    ensures -MAX_INT32 - 1 <= n <= MAX_INT32 ==> r == n
  {
    (n + MAX_INT32 + 1) % TWO_32 - MAX_INT32 - 1
  }

  /** Two counts look alike as int32 exactly when they differ by a multiple of 2^32. */
  lemma WrapIsCongruence(m: int, n: int)
    ensures Wrap32(m) == Wrap32(n) <==> exists k: int :: m == n + k * TWO_32
  {
    var a, b := m + MAX_INT32 + 1, n + MAX_INT32 + 1;
    if Wrap32(m) == Wrap32(n) {
      assert m == n + (a / TWO_32 - b / TWO_32) * TWO_32;
    }
    if k: int :| m == n + k * TWO_32 {
      assert a == b + k * TWO_32;
    }
  }

  function ShortBody(s: string): string {
    if |s| > 200 then s[..200] + "\U{2026}" else s
  }

  function EffectiveMaxLongPolls(clientCap: int, hintCap: int): int {
    if hintCap > 0 then hintCap else clientCap
  }

  function Cap(cfg: Config, h: Hints): int {
    EffectiveMaxLongPolls(cfg.maxLongPolls, h.maxLongPolls)
  }

  // ---- response classes ----

  datatype Class =
    | NetworkError
    | Success
    | Tick               // "still computing", keep polling
    | Accepted           // a 3xx or 503 the caller asked to see
    | Unauthorized
    | ChecksRejected     // 403 with checks
    | Unverified         // 403 NOT_VERIFIED
    | Denied             // 403 with a detail string
    | Opaque             // any other 403
    | TooMany
    | ServerError
    | ClientError

  /** Whether some reply can mean "still computing" to a call with these hints. */
  predicate CanTick(h: Hints) {
    h.longPoll200Empty || (h.longPoll503 && !h.accept503)
  }

  predicate Is2xx(status: int) { 200 <= status < 300 }

  predicate Is3xx(status: int) { 300 <= status < 400 }

  /** The class of a reply: it depends on the hints and on the reply alone. */
  function Classify(h: Hints, r: Reply): Class {
    if r.Failed? then NetworkError
    else if Is2xx(r.status) then
      if h.longPoll200Empty && r.body.text == "" && r.retryAfter.Some? then Tick else Success
    else if h.accept503 && (Is3xx(r.status) || r.status == 503) then Accepted
    else if r.status == 401 then Unauthorized
    else if r.status == 403 then
      if r.body.hasChecks then ChecksRejected
      else if r.body.notVerified then Unverified
      else if r.body.detail.Some? then Denied
      else Opaque
    else if r.status == 429 then TooMany
    else if r.status == 503 && h.longPoll503 then Tick
    else if r.status >= 500 then ServerError
    else ClientError
  }

  /** The classes whose retries are charged to maxRetries. */
  predicate ErrorClass(c: Class) {
    c == NetworkError || c == Opaque || c == TooMany || c == ServerError
  }

  function Backoff(r: Reply, c: Class, attempt: nat): int
    requires ErrorClass(c) && (r.Failed? <==> c == NetworkError)
  {
    match c
    case NetworkError => Clamp((attempt + 1) * NETWORK_ERR_FLOOR, NETWORK_ERR_FLOOR, NETWORK_ERR_CEILING)
    case Opaque => SERVER_ERR_FLOOR
    case TooMany => Clamp(r.retryAfter.GetOr(0), RATE_LIMIT_FLOOR, RATE_LIMIT_CEILING)
    case _ => Clamp((attempt + 1) * SERVER_ERR_FLOOR, SERVER_ERR_FLOOR, SERVER_ERR_CEILING)
  }

  function KindOf(r: Reply, c: Class): RetryKind
    requires ErrorClass(c) && (r.Failed? <==> c == NetworkError)
  {
    match c
    case NetworkError => NetworkKind
    case Opaque => ForbiddenKind
    case TooMany => if r.body.cooldown then CooldownKind else RateLimitKind
    case _ => ServerKind
  }

  /** What the caller sees once the error budget is spent. */
  function Exhausted(r: Reply, c: Class): Outcome
    requires ErrorClass(c) && (r.Failed? <==> c == NetworkError)
  {
    match c
    case NetworkError => Outcome(None, Network(r.cause))
    case Opaque => Outcome(Some(r), Ok)
    case TooMany =>
      Outcome(Some(r), RateLimited(Clamp(r.retryAfter.GetOr(0), RATE_LIMIT_FLOOR, RATE_LIMIT_CEILING), r.body.cooldown))
    case _ => Outcome(Some(r), Api(r.status))
  }

  function ClientErrorOf(r: Reply): Error
    requires r.Response?
  {
    if r.status != 404 && r.status != 405 && r.body.fieldErrors then Drf(r.status) else Api(r.status)
  }
}
