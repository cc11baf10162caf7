/**
 * The chat-feedback edge function: a fixed-window rate limiter kept in a
 * key-value cache (at most 10 submissions per user per window, the window
 * opened by the first increment with an expiry of 3600 s), in front of an
 * insert into the `chat_feedback` table.
 *
 * The cache is a map from key to counter plus a map from key to the expiry last
 * set; each call to the cache service may fail, which the caller states with a
 * `Fault`. The table is an append-only sequence. Expiry itself (the cache
 * forgetting a key) happens outside the function and is not modelled.
 */
module ChatFeedback {
  import opened Basics
  import opened Text

  /** Submissions allowed per user and window. */
  const Quota: nat := 10
  /** Seconds a window lasts, counted from the first increment. */
  const WindowSeconds: nat := 3600

  /** Which call to the cache service throws, if any. */
  datatype Fault = NoFault | GetFails | IncrFails | ExpireFails

  datatype Cache = Cache(counters: map<string, nat>, expiries: map<string, nat>)

  function RateLimitKey(kind: string, userId: string): string {
    "rate_limit:" + kind + ":" + userId
  }

  /** The cache's GET: the counter as decimal text, or null when the key is absent. */
  function GetResult(c: Cache, key: string): Option<string> {
    if key in c.counters then Some(NatToString(c.counters[key])) else None
  }

  /** `checkRateLimit`: the new cache and whether the request may proceed. */
  function RateLimit(configured: bool, c: Cache, key: string, fault: Fault): (Cache, bool) {
    if !configured || fault == GetFails then (c, true)
    else
      var result := GetResult(c, key);
      if Truthy(result) && ParseDigits(result.value) >= Quota then (c, false)
      else if fault == IncrFails then (c, true)
      else
        var counted := c.(counters := c.counters[key := if key in c.counters then c.counters[key] + 1 else 1]);
        if Truthy(result) || fault == ExpireFails then (counted, true)
        else (counted.(expiries := counted.expiries[key := WindowSeconds]), true)
  }

  /** Without cache configuration, or when the read throws, the request is allowed and the
      cache is untouched; a later call that throws does not change the verdict the read
      already gave, and leaves the cache as it was before that call. */
  lemma FailsOpen(configured: bool, c: Cache, key: string, fault: Fault)
    ensures !configured || fault == GetFails ==> RateLimit(configured, c, key, fault) == (c, true)
    ensures configured && fault != GetFails ==> RateLimit(configured, c, key, fault).1 == RateLimit(true, c, key, NoFault).1
    ensures configured && fault == IncrFails ==> RateLimit(configured, c, key, fault).0 == c
    ensures configured && fault == ExpireFails ==>
      RateLimit(configured, c, key, fault).0 == RateLimit(true, c, key, NoFault).0.(expiries := c.expiries)
  {
  }

  /** A stored count at the quota or above rejects and changes nothing; below it, the
      counter goes up by exactly one, and the expiry is set only for a key that was
      absent. */
  lemma {:induction false} CheckThenIncrement(c: Cache, key: string)
    ensures key in c.counters && c.counters[key] >= Quota ==>
      RateLimit(true, c, key, NoFault) == (c, false)
    ensures (key !in c.counters || c.counters[key] < Quota) ==>
      var (c', allowed) := RateLimit(true, c, key, NoFault);
      allowed
      && c'.counters == c.counters[key := if key in c.counters then c.counters[key] + 1 else 1]
      && c'.expiries == if key in c.counters then c.expiries else c.expiries[key := WindowSeconds]
  {
    if key in c.counters {
      NatToStringRoundTrip(c.counters[key]);
      assert NatToString(c.counters[key]) != "";
    }
  }

  /** Outcomes of `n` checks in a row for one key, none of them failing. */
  function Submissions(c: Cache, key: string, n: nat): (Cache, seq<bool>) {
    if n == 0 then (c, [])
    else
      var before := Submissions(c, key, n - 1);
      var check := RateLimit(true, before.0, key, NoFault);
      (check.0, before.1 + [check.1])
  }

  /** From an absent counter, the first ten submissions in a window are allowed and the
      eleventh is rejected. */
  lemma {:induction false} TenPerWindow(c: Cache, key: string, n: nat)
    requires key !in c.counters && n <= Quota + 1
    ensures Submissions(c, key, n).1 == seq(n, i => i < Quota)
  {
    if n > 0 {
      TenPerWindow(c, key, n - 1);
      CountsInWindow(c, key, n - 1);
      SubmissionStep(c, key, n - 1);
      AppendOutcome(n - 1);
    }
  }

  /** The stored counter for `key` after `k` allowed submissions in a fresh window. */
  predicate CountIs(c: Cache, key: string, k: nat) {
    if k == 0 then key !in c.counters else key in c.counters && c.counters[key] == k
  }

  /** Within the quota, each allowed submission counts one. */
  lemma {:induction false} CountsInWindow(c: Cache, key: string, n: nat)
    requires key !in c.counters && n <= Quota
    ensures CountIs(Submissions(c, key, n).0, key, n)
  {
    if n > 0 {
      CountsInWindow(c, key, n - 1);
      SubmissionStep(c, key, n - 1);
    }
  }

  /** One more submission after `k` allowed ones in a fresh window. */
  lemma SubmissionStep(c: Cache, key: string, k: nat)
    requires k <= Quota && CountIs(Submissions(c, key, k).0, key, k)
    ensures Submissions(c, key, k + 1).1 == Submissions(c, key, k).1 + [k < Quota]
    ensures k < Quota ==> CountIs(Submissions(c, key, k + 1).0, key, k + 1)
  {
    CheckThenIncrement(Submissions(c, key, k).0, key);
  }

  lemma AppendOutcome(k: nat)
    ensures seq(k, i => i < Quota) + [k < Quota] == seq(k + 1, i => i < Quota)
  {
  }

  datatype Body = Malformed | Body(chatId: Option<string>, feedback: Option<string>, userId: Option<string>)

  datatype Request = Preflight | Post(body: Body)

  datatype Response = Cors | Success | Failure(status: nat, error: string)

  datatype FeedbackRow = FeedbackRow(chatId: string, userId: string, feedback: string, createdAt: int)

  const MissingFields := "Chat ID, feedback, and user ID are required"
  const RateLimited := "Rate limit exceeded. Please try again later."
  const InternalError := "Internal server error"

  /** The request handler: new cache, new table and the response. */
  function HandleSpec(configured: bool, c: Cache, rows: seq<FeedbackRow>, req: Request,
                      fault: Fault, insertFails: bool, now: int): (Cache, seq<FeedbackRow>, Response)
  {
    match req
    case Preflight => (c, rows, Cors)
    case Post(Malformed) => (c, rows, Failure(500, InternalError))
    case Post(Body(chatId, feedback, userId)) =>
      if !Truthy(chatId) || !Truthy(feedback) || !Truthy(userId) then (c, rows, Failure(400, MissingFields))
      else
        var (c1, allowed) := RateLimit(configured, c, RateLimitKey("chat_feedback", userId.value), fault);
        if !allowed then (c1, rows, Failure(429, RateLimited))
        else if insertFails then (c1, rows, Failure(500, InternalError))
        else (c1, rows + [FeedbackRow(chatId.value, userId.value, feedback.value, now)], Success)
  }

  /** Validation comes first: a missing field gives 400 and touches neither the cache nor
      the table. */
  lemma MissingFieldRejected(configured: bool, c: Cache, rows: seq<FeedbackRow>, chatId: Option<string>,
                             feedback: Option<string>, userId: Option<string>, fault: Fault, insertFails: bool, now: int)
    requires !Truthy(chatId) || !Truthy(feedback) || !Truthy(userId)
    ensures HandleSpec(configured, c, rows, Post(Body(chatId, feedback, userId)), fault, insertFails, now)
      == (c, rows, Failure(400, MissingFields))
  {
  }

  /** A complete request adds at most one row: none with 429 (rate limited) or 500 (insert
      error), otherwise exactly the submitted feedback, answered with success. */
  lemma CompleteRequest(configured: bool, c: Cache, rows: seq<FeedbackRow>, chatId: string,
                        feedback: string, userId: string, fault: Fault, insertFails: bool, now: int)
    requires chatId != "" && feedback != "" && userId != ""
    ensures var (_, rows', resp) := HandleSpec(configured, c, rows, Post(Body(Some(chatId), Some(feedback), Some(userId))), fault, insertFails, now);
      var allowed := RateLimit(configured, c, RateLimitKey("chat_feedback", userId), fault).1;
      (!allowed ==> rows' == rows && resp == Failure(429, RateLimited))
      && (allowed && insertFails ==> rows' == rows && resp == Failure(500, InternalError))
      && (allowed && !insertFails ==> rows' == rows + [FeedbackRow(chatId, userId, feedback, now)] && resp == Success)
  {
  }

  /** The deployed function: the cache service and the `chat_feedback` table. */
  class FeedbackService {
    const cacheConfigured: bool
    var counters: map<string, nat>
    var expiries: map<string, nat>
    var rows: seq<FeedbackRow>

    function CacheState(): Cache
      reads this
    {
      Cache(counters, expiries)
    }

    constructor (configured: bool)
      ensures cacheConfigured == configured && counters == map[] && expiries == map[] && rows == []
    {
      cacheConfigured := configured;
      counters := map[];
      expiries := map[];
      rows := [];
    }

    method CheckRateLimit(userId: string, kind: string, fault: Fault) returns (allowed: bool)
      modifies this
      ensures (CacheState(), allowed) == RateLimit(cacheConfigured, old(CacheState()), RateLimitKey(kind, userId), fault)
      ensures rows == old(rows)
    {
      if !cacheConfigured {
        return true;
      }
      // A throwing call lands in the catch, which allows the request.
      if fault == GetFails {
        return true;
      }
      var key := RateLimitKey(kind, userId);
      var result := GetResult(CacheState(), key);
      if Truthy(result) && ParseDigits(result.value) >= Quota {
        return false;
      }
      if fault == IncrFails {
        return true;
      }
      counters := counters[key := if key in counters then counters[key] + 1 else 1];
      if !Truthy(result) && fault != ExpireFails {
        expiries := expiries[key := WindowSeconds];
      }
      return true;
    }

    method Handle(req: Request, fault: Fault, insertFails: bool, now: int) returns (resp: Response)
      modifies this
      ensures (CacheState(), rows, resp) == HandleSpec(cacheConfigured, old(CacheState()), old(rows), req, fault, insertFails, now)
    {
      match req {
        case Preflight =>
          return Cors;
        case Post(Malformed) =>
          return Failure(500, InternalError);
        case Post(Body(chatId, feedback, userId)) =>
          if !Truthy(chatId) || !Truthy(feedback) || !Truthy(userId) {
            return Failure(400, MissingFields);
          }
          var allowed := CheckRateLimit(userId.value, "chat_feedback", fault);
          if !allowed {
            return Failure(429, RateLimited);
          }
          if insertFails {
            return Failure(500, InternalError);
          }
          rows := rows + [FeedbackRow(chatId.value, userId.value, feedback.value, now)];
          return Success;
      }
    }
  }
}
